/**
 * `Secrets` in the `Config` package: the two Marvel keys read from the app's Info dictionary, each
 * required to be a non-empty string and loaded with its backslashes removed.
 */
module ConfigSecrets {
  import opened Wrappers
  import opened Text
  import opened SecretsErrors

  /** A value of the Info dictionary: a string, or any other property-list value. */
  datatype PlistValue = Str(text: string) | NonString

  type InfoDictionary = map<string, PlistValue>

  /** `SecretsKeys`. */
  const MarvelPublicKey := "MarvelPublicKey"
  const MarvelPrivateKey := "MarvelPrivateKey"

  const Backslash := '\\'

  datatype Secrets = Secrets(marvelPublicKey: string, marvelPrivateKey: string)

  /** The key holds a string that is not empty: the guard `load` applies before anything else. */
  predicate Present(info: InfoDictionary, key: string) {
    key in info && info[key].Str? && info[key].text != []
  }

  /**
   * The nested `load(_:)`: `missingKey(key)` when the key is absent, holds something other than a
   * string, or holds the empty string; otherwise the string with every backslash dropped and
   * everything else kept in order, so no backslash is left, a value without backslashes loads
   * unchanged, and one made only of backslashes loads as the empty string.
   */
  function Load(info: InfoDictionary, key: string): (r: Result<string, SecretsError>)
    ensures r.Failure? <==> !Present(info, key)
    ensures r.Failure? ==> r.error == MissingKey(key)
    ensures r.Success? ==> r.value == Without(info[key].text, Backslash)
    ensures r.Success? ==> forall i :: 0 <= i < |r.value| ==> r.value[i] != Backslash
    ensures r.Success? && Free(info[key].text, [Backslash]) ==> r.value == info[key].text
    ensures r.Success? && (forall i :: 0 <= i < |info[key].text| ==> info[key].text[i] == Backslash) ==> r.value == []
  {
    if key !in info then Failure(MissingKey(key))
    else match info[key]
      case NonString => Failure(MissingKey(key))
      case Str(raw) =>
        if raw == [] then Failure(MissingKey(key))
        else
          StripBackslashes(raw);
          Success(ReplaceAll(raw, [Backslash], []))
  }

  /** `replacingOccurrences(of: "\\", with: "")` drops the backslashes and nothing else. */
  lemma StripBackslashes(raw: string)
    ensures ReplaceAll(raw, [Backslash], []) == Without(raw, Backslash)
    ensures forall i :: 0 <= i < |Without(raw, Backslash)| ==> Without(raw, Backslash)[i] != Backslash
    ensures Free(raw, [Backslash]) ==> Without(raw, Backslash) == raw
    ensures (forall i :: 0 <= i < |raw| ==> raw[i] == Backslash) ==> Without(raw, Backslash) == []
  {
    RemoveCharIsWithout(raw, Backslash);
    RemoveCharAbsent(raw, Backslash);
    if Free(raw, [Backslash]) {
      ReplaceAllFree(raw, [Backslash], []);
    }
    if forall i :: 0 <= i < |raw| ==> raw[i] == Backslash {
      RemoveCharAll(raw, Backslash);
    }
  }

  /**
   * `Secrets(infoDictionary:)`: the public key is loaded first, so its error wins; the result holds
   * both loaded keys exactly when both load.
   */
  function Init(info: InfoDictionary): (r: Result<Secrets, SecretsError>)
    ensures r.Success? <==> Present(info, MarvelPublicKey) && Present(info, MarvelPrivateKey)
    ensures !Present(info, MarvelPublicKey) ==> r == Failure(MissingKey(MarvelPublicKey))
    ensures Present(info, MarvelPublicKey) && !Present(info, MarvelPrivateKey)
            ==> r == Failure(MissingKey(MarvelPrivateKey))
    ensures r.Success? ==>
      r.value == Secrets(Load(info, MarvelPublicKey).value, Load(info, MarvelPrivateKey).value)
  {
    match Load(info, MarvelPublicKey)
    case Failure(e) => Failure(e)
    case Success(publicKey) =>
      match Load(info, MarvelPrivateKey)
      case Failure(e) => Failure(e)
      case Success(privateKey) => Success(Secrets(publicKey, privateKey))
  }

  /** With both keys missing, the error names the public key. */
  lemma BothMissingNamesPublicKey(info: InfoDictionary)
    requires MarvelPublicKey !in info && MarvelPrivateKey !in info
    ensures Init(info) == Failure(MissingKey(MarvelPublicKey))
  {
  }

  /** An escaped value such as `abc\/def` loads as `abc/def`; `\\` alone loads as the empty string. */
  lemma LoadExamples()
    ensures Load(map[MarvelPublicKey := Str("abc\\/def")], MarvelPublicKey) == Success("abc/def")
    ensures Load(map[MarvelPublicKey := Str("\\\\")], MarvelPublicKey) == Success("")
    ensures Load(map[MarvelPublicKey := Str("")], MarvelPublicKey) == Failure(MissingKey(MarvelPublicKey))
    ensures Load(map[MarvelPublicKey := NonString], MarvelPublicKey) == Failure(MissingKey(MarvelPublicKey))
  {
    assert Without("abc\\/def", Backslash) == "abc/def" by {
      assert "abc\\/def"[1..] == "bc\\/def";
      assert "bc\\/def"[1..] == "c\\/def";
      assert "c\\/def"[1..] == "\\/def";
      assert "\\/def"[1..] == "/def";
      assert "/def"[1..] == "def";
      assert "def"[1..] == "ef";
      assert "ef"[1..] == "f";
      assert "f"[1..] == "";
    }
  }
}
