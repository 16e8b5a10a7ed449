/**
 * `Secrets` in the app target: the same loading rule as the `Config` package, written with the key
 * names as literals.
 */
module AppSecrets {
  import opened Wrappers
  import opened Text
  import opened SecretsErrors
  import opened ConfigSecrets

  /**
   * `Secrets(infoDictionary:)`: `"MarvelPublicKey"` is checked before `"MarvelPrivateKey"`, and a
   * valid dictionary gives both raw strings with their backslashes removed.
   */
  function Init(info: InfoDictionary): (r: Result<Secrets, SecretsError>)
    ensures !Present(info, "MarvelPublicKey") ==> r == Failure(MissingKey("MarvelPublicKey"))
    ensures Present(info, "MarvelPublicKey") && !Present(info, "MarvelPrivateKey")
            ==> r == Failure(MissingKey("MarvelPrivateKey"))
    ensures Present(info, "MarvelPublicKey") && Present(info, "MarvelPrivateKey") ==>
      r == Success(Secrets(Without(info["MarvelPublicKey"].text, Backslash),
                           Without(info["MarvelPrivateKey"].text, Backslash)))
  {
    match Load(info, "MarvelPublicKey")
    case Failure(e) => Failure(e)
    case Success(publicKey) =>
      match Load(info, "MarvelPrivateKey")
      case Failure(e) => Failure(e)
      case Success(privateKey) => Success(Secrets(publicKey, privateKey))
  }

  /** The two revisions load every dictionary the same way. */
  lemma AgreesWithConfig(info: InfoDictionary)
    ensures Init(info) == ConfigSecrets.Init(info)
  {
  }
}
