/** `SecretsError`: the one way loading the API keys fails. */
module SecretsErrors {
  import opened Wrappers

  datatype SecretsError = MissingKey(key: string)

  const MissingKeyText := "\U{1F511} Missing required Info.plist key: "

  /** `errorDescription`: never `nil`, and the missing key closes the text. */
  function ErrorDescription(e: SecretsError): (r: Option<string>)
    ensures r.Some?
    ensures |MissingKeyText| <= |r.value| && r.value[..|MissingKeyText|] == MissingKeyText
    ensures r.value[|MissingKeyText|..] == e.key
  {
    Some(MissingKeyText + e.key)
  }

  /** Distinct keys are described distinctly. */
  lemma DescriptionInjective(a: SecretsError, b: SecretsError)
    requires ErrorDescription(a) == ErrorDescription(b)
    ensures a == b
  {
    assert a.key == ErrorDescription(a).value[|MissingKeyText|..];
  }
}
