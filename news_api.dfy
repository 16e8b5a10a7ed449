/**
 * `NewsAPI`: builds the GET request for the `everything` endpoint, with or without a search
 * term, and hands it to the injected client.
 */
module NewsAPI {
  import opened Wrappers
  import opened Text
  import opened Http
  import opened Models
  import opened NetworkErrors
  import opened Errors
  import opened APIClient

  const Base := "https://newsapi.org/v2"

  /** `base.appending(path: "everything")`: both endpoints use it. */
  const EverythingAddress := Base + "/everything"

  /** The page both endpoints ask for when none is given. */
  const DefaultPage := 1

  /** A call on `NewsAPIProtocol`: `everything(page:)` or `search(query:page:)`. */
  datatype NewsCall = Everything(page: int) | Search(query: string, page: int)

  /** The items both endpoints end with: the page as given, then the fixed filters. */
  function PagingItems(page: int): seq<QueryItem> {
    [ QueryItem("page", Decimal(page)),
      QueryItem("pageSize", "20"),
      QueryItem("language", "en"),
      QueryItem("domains", "techcrunch.com") ]
  }

  function QueryItems(call: NewsCall): seq<QueryItem> {
    match call
    case Everything(page) => PagingItems(page)
    case Search(query, page) => [QueryItem("q", query)] + PagingItems(page)
  }

  /**
   * The request either endpoint sends: `GET base/everything` with the key in the `X-Api-Key`
   * header. A search is the same request with the query, untrimmed, in front; the page reads back
   * as the page asked for, neither clamped nor floored.
   */
  function MakeRequest(apiKey: string, call: NewsCall): (r: Request)
    ensures r.url.address == EverythingAddress
    ensures r.httpMethod == "GET" && r.headers == map["X-Api-Key" := apiKey]
    ensures call.Everything? ==> |r.url.queryItems| == 4
    ensures call.Search? ==>
      |r.url.queryItems| == 5 && r.url.queryItems[0] == QueryItem("q", call.query)
      && r.url.queryItems[1..] == QueryItems(Everything(call.page))
    ensures var page := r.url.queryItems[if call.Search? then 1 else 0];
      page.name == "page" && IsDecimal(page.value) && ParseDecimal(page.value) == call.page
    ensures var items := r.url.queryItems; var n := |items|;
      items[n - 3..] == [QueryItem("pageSize", "20"), QueryItem("language", "en"), QueryItem("domains", "techcrunch.com")]
  {
    Request(Url(EverythingAddress, QueryItems(call)), "GET", map["X-Api-Key" := apiKey])
  }

  /** The endpoint's result: whatever the client returns or throws for the request, unchanged. */
  function Perform(apiKey: string, call: NewsCall, client: Request -> Result<NewsAPIResponse, Error>)
    : Result<NewsAPIResponse, Error>
  {
    client(MakeRequest(apiKey, call))
  }

  /** The first page, with "1" as its page item. */
  lemma DefaultPageRequest(apiKey: string)
    ensures MakeRequest(apiKey, Everything(DefaultPage)).url.queryItems[0] == QueryItem("page", "1")
  {
    assert DigitChar(1) == '1';
  }

  /**
   * Over the real client, a status the client rejects surfaces from either endpoint as
   * `requestFailed` with that status, whatever the body and the decoder.
   */
  lemma RejectedStatusSurfaces(apiKey: string, call: NewsCall, session: Request -> Transport,
                               decode: Decoder<NewsAPIResponse>, body: seq<byte>, status: int)
    requires session(MakeRequest(apiKey, call)) == Delivered(body, HTTP(status))
    requires !IsSuccessStatus(status)
    ensures Perform(apiKey, call, (request: Request) => Fetch(request, session, decode))
            == Failure(Network(RequestFailed(status)))
  {
  }
}
