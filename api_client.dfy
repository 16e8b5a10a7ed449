/**
 * The generic API client, in both revisions: ask the session once, then classify what came back.
 * The session and the JSON decoder are parameters; what the client adds is the decision procedure.
 */
module APIClient {
  import opened Wrappers
  import opened Text
  import opened Http
  import opened NetworkErrors
  import opened Errors

  /** The `URLResponse` the session returned: an `HTTPURLResponse` carries a status code. */
  datatype Response = NonHTTP | HTTP(statusCode: int)

  /** The outcome of asking the session: the error it threw, or the body and the response. */
  datatype Transport = Thrown(error: Error) | Delivered(body: seq<byte>, response: Response)

  /** A JSON decoder for `T`: the decoded value, or the decoder's own error. */
  type Decoder<T> = seq<byte> -> Result<T, Underlying>

  /** `200..<300 ~= statusCode`. */
  predicate IsSuccessStatus(code: int) { 200 <= code < 300 }

  /** The delivered response is an HTTP response with a 2xx status. */
  predicate Accepted(outcome: Transport) {
    outcome.Delivered? && outcome.response.HTTP? && IsSuccessStatus(outcome.response.statusCode)
  }

  /**
   * The classification both revisions apply: a transport error is rethrown as it is; a response
   * that is not HTTP is `invalidURL`; a status outside `[200, 300)` is `requestFailed` with that
   * status; otherwise the decoder decides, and its failure becomes `decodingError`.
   * The call succeeds exactly when the status is 2xx and the body decodes.
   */
  function Classify<T>(outcome: Transport, decode: Decoder<T>): (r: Result<T, Error>)
    ensures outcome.Thrown? ==> r == Failure(outcome.error)
    ensures outcome.Delivered? && outcome.response.NonHTTP? ==> r == Failure(Network(InvalidURL))
    ensures outcome.Delivered? && outcome.response.HTTP? && !IsSuccessStatus(outcome.response.statusCode)
            ==> r == Failure(Network(RequestFailed(outcome.response.statusCode)))
    ensures Accepted(outcome) && decode(outcome.body).Failure?
            ==> r == Failure(Network(DecodingError(decode(outcome.body).error)))
    ensures r.Success? <==> Accepted(outcome) && decode(outcome.body).Success?
    ensures r.Success? ==> r.value == decode(outcome.body).value
  {
    match outcome
    case Thrown(e) => Failure(e)
    case Delivered(body, response) =>
      match response
      case NonHTTP => Failure(Network(InvalidURL))
      case HTTP(code) =>
        if !IsSuccessStatus(code) then Failure(Network(RequestFailed(code)))
        else
          match decode(body)
          case Success(v) => Success(v)
          case Failure(e) => Failure(Network(DecodingError(e)))
  }

  /**
   * `APIClient.fetch(_:from: URLRequest)`: one `session.data(for: request)`, then classification.
   * What the session throws is rethrown unchanged, and a value comes back exactly when the reply
   * to this request is a 2xx HTTP response whose body decodes; the value is the decoded body.
   */
  function Fetch<T>(request: Request, session: Request -> Transport, decode: Decoder<T>): (r: Result<T, Error>)
    ensures session(request).Thrown? ==> r == Failure(session(request).error)
    ensures session(request).Delivered? && session(request).response.NonHTTP? ==> r == Failure(Network(InvalidURL))
    ensures session(request).Delivered? && session(request).response.HTTP?
            && !IsSuccessStatus(session(request).response.statusCode)
            ==> r == Failure(Network(RequestFailed(session(request).response.statusCode)))
    ensures r.Success? <==> Accepted(session(request)) && decode(session(request).body).Success?
    ensures r.Success? ==> r.value == decode(session(request).body).value
  {
    Classify(session(request), decode)
  }

  /**
   * The older `APIClient.fetch(_:from: URL)`: one `session.data(from: url)`, then the same
   * classification as `Fetch`.
   */
  function FetchURL<T>(url: Url, session: Url -> Transport, decode: Decoder<T>): (r: Result<T, Error>)
    ensures session(url).Thrown? ==> r == Failure(session(url).error)
    ensures session(url).Delivered? && session(url).response.NonHTTP? ==> r == Failure(Network(InvalidURL))
    ensures session(url).Delivered? && session(url).response.HTTP?
            && !IsSuccessStatus(session(url).response.statusCode)
            ==> r == Failure(Network(RequestFailed(session(url).response.statusCode)))
    ensures r.Success? <==> Accepted(session(url)) && decode(session(url).body).Success?
    ensures r.Success? ==> r.value == decode(session(url).body).value
  {
    Classify(session(url), decode)
  }

  /** Unless the status is 2xx the decoder is never consulted: any decoder gives the same outcome. */
  lemma DecoderOnlyOnSuccess<T>(outcome: Transport, d1: Decoder<T>, d2: Decoder<T>)
    requires !Accepted(outcome)
    ensures Classify(outcome, d1) == Classify(outcome, d2)
    ensures Classify(outcome, d1).Failure?
  {
  }

  /** The session is asked about the given request only: sessions that agree on it agree on the outcome. */
  lemma FetchAsksForRequest<T>(request: Request, s1: Request -> Transport, s2: Request -> Transport, decode: Decoder<T>)
    requires s1(request) == s2(request)
    ensures Fetch(request, s1, decode) == Fetch(request, s2, decode)
  {
  }

  /** The same for the older URL-based client. */
  lemma FetchURLAsksForURL<T>(url: Url, s1: Url -> Transport, s2: Url -> Transport, decode: Decoder<T>)
    requires s1(url) == s2(url)
    ensures FetchURL(url, s1, decode) == FetchURL(url, s2, decode)
  {
  }

  /** 200 and 299 reach the decoder; 199 and 300 are rejected with their status. */
  lemma StatusBoundaries<T>(body: seq<byte>, decode: Decoder<T>)
    requires decode(body).Success?
    ensures Classify(Delivered(body, HTTP(200)), decode) == Success(decode(body).value)
    ensures Classify(Delivered(body, HTTP(299)), decode) == Success(decode(body).value)
    ensures Classify(Delivered(body, HTTP(199)), decode) == Failure(Network(RequestFailed(199)))
    ensures Classify(Delivered(body, HTTP(300)), decode) == Failure(Network(RequestFailed(300)))
  {
  }
}
