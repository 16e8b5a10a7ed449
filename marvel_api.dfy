/**
 * `MarvelAPI`: the signed query items every Marvel request carries and the `characters` request.
 * The clock and the MD5 digest are parameters.
 */
module MarvelAPI {
  import opened Wrappers
  import opened Text
  import opened Http
  import opened Models
  import opened Errors
  import opened MD5Hex

  const BaseURL := "https://gateway.marvel.com/v1/public"
  const DefaultLimit := 20
  const DefaultOffset := 0

  /** The calls the hero repository makes: `getCharacters` and `searchCharacters`. */
  datatype MarvelCall =
    | GetCharacters(limit: int, offset: int)
    | SearchCharacters(nameStartsWith: string, limit: int, offset: int)

  datatype Keys = Keys(publicKey: string, privateKey: string)

  /**
   * `authQueryItems()` for the timestamp `ts`: `ts`, `apikey` and `hash`, in that order, where the
   * hash is the MD5 of timestamp, private key and public key concatenated in exactly that order,
   * as 32 lowercase hex digits.
   */
  function AuthQueryItems(keys: Keys, ts: string, md5: string -> Digest): (r: seq<QueryItem>)
    ensures |r| == 3
    ensures r[0] == QueryItem("ts", ts) && r[1] == QueryItem("apikey", keys.publicKey)
    ensures r[2].name == "hash" && |r[2].value| == 32
    ensures forall i :: 0 <= i < |r[2].value| ==> IsLowerHex(r[2].value[i])
    ensures Unhex(r[2].value) == md5(ts + keys.privateKey + keys.publicKey)
  {
    var hash := Md5String(ts + keys.privateKey + keys.publicKey, md5);
    [QueryItem("ts", ts), QueryItem("apikey", keys.publicKey), QueryItem("hash", hash)]
  }

  /**
   * The URL `getCharacters(limit:offset:)` asks for: `BaseURL/characters`, the signing items,
   * then `limit` and `offset` in decimal.
   */
  function CharactersUrl(keys: Keys, ts: string, md5: string -> Digest, limit: int, offset: int): (r: Url)
    ensures r.address == BaseURL + "/characters"
    ensures |r.queryItems| == 5 && r.queryItems[..3] == AuthQueryItems(keys, ts, md5)
    ensures r.queryItems[3].name == "limit" && IsDecimal(r.queryItems[3].value)
            && ParseDecimal(r.queryItems[3].value) == limit
    ensures r.queryItems[4].name == "offset" && IsDecimal(r.queryItems[4].value)
            && ParseDecimal(r.queryItems[4].value) == offset
  {
    Url(BaseURL + "/characters",
        AuthQueryItems(keys, ts, md5)
        + [QueryItem("limit", Decimal(limit)), QueryItem("offset", Decimal(offset))])
  }

  /** `getCharacters`: the client's result for that URL, unchanged. */
  function GetCharactersResponse(keys: Keys, ts: string, md5: string -> Digest, limit: int, offset: int,
                                 client: Url -> Result<APIResponse<Hero>, Error>)
    : Result<APIResponse<Hero>, Error>
  {
    client(CharactersUrl(keys, ts, md5, limit, offset))
  }

  /** With the defaults the request asks for 20 heroes from offset 0. */
  lemma DefaultCharactersUrl(keys: Keys, ts: string, md5: string -> Digest)
    ensures CharactersUrl(keys, ts, md5, DefaultLimit, DefaultOffset).queryItems[3..]
            == [QueryItem("limit", "20"), QueryItem("offset", "0")]
  {
    assert DigitChar(2) == '2' && DigitChar(0) == '0';
    assert NatDigits(2) == "2";
    assert Decimal(20) == "20" && Decimal(0) == "0";
  }
}
