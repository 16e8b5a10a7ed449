/** The closed error type of the networking layer and its human-readable descriptions. */
module NetworkErrors {
  import opened Wrappers
  import opened Text

  /**
   * An error raised by code outside this model (the JSON decoder, the transport), known only by
   * its `localizedDescription`.
   */
  datatype Underlying = Underlying(description: string)

  datatype NetworkError =
    | InvalidURL
    | RequestFailed(statusCode: int)
    | DecodingError(cause: Underlying)
    | Unknown(cause: Underlying)

  const InvalidURLText := "Invalid URL."
  const RequestFailedText := "Request failed with status code "
  const DecodingFailedText := "Decoding failed: "
  const UnknownErrorText := "Unknown error: "

  /**
   * `errorDescription`: never `nil`. A failed request names its status code in decimal, so the
   * code can be read back from the text; a wrapped error ends with the cause's own description.
   */
  function ErrorDescription(e: NetworkError): (r: Option<string>)
    ensures r.Some?
    ensures e.InvalidURL? ==> r.value == InvalidURLText
    ensures e.RequestFailed? ==>
      var n := |RequestFailedText|;
      n < |r.value| && r.value[..n] == RequestFailedText && r.value[|r.value| - 1] == '.'
      && IsDecimal(r.value[n..|r.value| - 1]) && ParseDecimal(r.value[n..|r.value| - 1]) == e.statusCode
    ensures e.DecodingError? ==>
      |DecodingFailedText| <= |r.value| && r.value[..|DecodingFailedText|] == DecodingFailedText
      && r.value[|DecodingFailedText|..] == e.cause.description
    ensures e.Unknown? ==>
      |UnknownErrorText| <= |r.value| && r.value[..|UnknownErrorText|] == UnknownErrorText
      && r.value[|UnknownErrorText|..] == e.cause.description
  {
    match e
    case InvalidURL => Some(InvalidURLText)
    case RequestFailed(code) =>
      var d := Decimal(code);
      assert (RequestFailedText + d + ".")[|RequestFailedText|..|RequestFailedText| + |d|] == d;
      Some(RequestFailedText + d + ".")
    case DecodingError(cause) => Some(DecodingFailedText + cause.description)
    case Unknown(cause) => Some(UnknownErrorText + cause.description)
  }

  /** Distinct errors are described distinctly: the text determines the error. */
  lemma DescriptionInjective(a: NetworkError, b: NetworkError)
    requires ErrorDescription(a) == ErrorDescription(b)
    ensures a == b
  {
    var da, db := ErrorDescription(a).value, ErrorDescription(b).value;
    // The four texts differ in their first character: 'I', 'R', 'D', 'U'.
    assert da[0] == db[0];
    assert a.InvalidURL? ==> da[0] == 'I';
    assert a.RequestFailed? ==> da[0] == da[..|RequestFailedText|][0] == 'R';
    assert a.DecodingError? ==> da[0] == da[..|DecodingFailedText|][0] == 'D';
    assert a.Unknown? ==> da[0] == da[..|UnknownErrorText|][0] == 'U';
    assert b.InvalidURL? ==> db[0] == 'I';
    assert b.RequestFailed? ==> db[0] == db[..|RequestFailedText|][0] == 'R';
    assert b.DecodingError? ==> db[0] == db[..|DecodingFailedText|][0] == 'D';
    assert b.Unknown? ==> db[0] == db[..|UnknownErrorText|][0] == 'U';
  }

  /** The status code 500 is described as "Request failed with status code 500.". */
  lemma Describe500()
    ensures ErrorDescription(RequestFailed(500)) == Some("Request failed with status code 500.")
  {
    assert DigitChar(5) == '5' && DigitChar(0) == '0';
    assert NatDigits(5) == "5";
    assert NatDigits(50) == "50";
    assert Decimal(500) == NatDigits(500) == "500";
    assert ErrorDescription(RequestFailed(500)).value == RequestFailedText + "500" + ".";
    assert RequestFailedText + "500" + "." == "Request failed with status code 500.";
  }
}
