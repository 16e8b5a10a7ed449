/**
 * `RemoteArticlesDataSource.fetchArticles`: rejects a page below 1, trims the query, asks
 * `everything` for a blank one and `search` otherwise, and defaults the missing fields of the reply.
 */
module ArticlesDataSource {
  import opened Wrappers
  import opened Text
  import opened Models
  import opened Errors
  import opened NewsAPI

  /** The `NewsAPIProtocol` the data source holds: the reply to a call, or the error it throws. */
  type NewsClient = NewsCall -> Result<NewsAPIResponse, Error>

  /** The `([Article], total: Int)` pair every article fetch returns. */
  datatype ArticlesPage = ArticlesPage(articles: seq<Article>, total: int)

  /**
   * The call the data source makes, or the error it throws without calling: a page below 1 is
   * `invalidPage`; otherwise the page is passed on as it is, a blank query asks `everything`, and
   * any other query is searched for without the whitespace around it.
   */
  function Route(query: string, page: int): (r: Result<NewsCall, Error>)
    ensures r.Failure? <==> page < 1
    ensures r.Failure? ==> r.error == InvalidPage
    ensures r.Success? ==> r.value.page == page
    ensures r.Success? ==> (r.value.Everything? <==> AllWhitespace(query))
    ensures r.Success? && r.value.Search? ==>
      r.value.query != [] && !IsWhitespace(r.value.query[0]) && !IsWhitespace(r.value.query[|r.value.query| - 1])
      && exists pre, post :: PaddedBy(query, pre, r.value.query, post)
  {
    if page < 1 then Failure(InvalidPage)
    else
      var cleaned := Trim(query);
      TrimSplits(query);
      if cleaned == [] then Success(Everything(page)) else Success(Search(cleaned, page))
  }

  /** `(response.articles ?? [], response.totalResults ?? 0)`. */
  function Unwrap(response: NewsAPIResponse): (r: ArticlesPage)
    ensures response.articles.Some? ==> r.articles == response.articles.value
    ensures response.articles.None? ==> r.articles == []
    ensures response.totalResults.Some? ==> r.total == response.totalResults.value
    ensures response.totalResults.None? ==> r.total == 0
  {
    ArticlesPage(response.articles.GetOr([]), response.totalResults.GetOr(0))
  }

  /**
   * `fetchArticles(query:page:)`: the routed call's reply with its fields defaulted, the API's error
   * unchanged, or `invalidPage` with no call at all.
   */
  function FetchArticles(api: NewsClient, query: string, page: int): (r: Result<ArticlesPage, Error>)
    ensures page < 1 ==> r == Failure(InvalidPage)
    ensures page >= 1 ==>
      var reply := api(Route(query, page).value);
      (reply.Failure? ==> r == Failure(reply.error)) && (reply.Success? ==> r == Success(Unwrap(reply.value)))
  {
    match Route(query, page)
    case Failure(e) => Failure(e)
    case Success(call) => api(call).Map(Unwrap)
  }

  /** Below page 1 the API is never asked: every API gives the same outcome. */
  lemma NoCallBelowFirstPage(a1: NewsClient, a2: NewsClient, query: string, page: int)
    requires page < 1
    ensures FetchArticles(a1, query, page) == FetchArticles(a2, query, page) == Failure(InvalidPage)
  {
  }

  /** Only the routed call is made: APIs that agree on it give the same outcome. */
  lemma OnlyRoutedCall(a1: NewsClient, a2: NewsClient, query: string, page: int)
    requires page >= 1 && a1(Route(query, page).value) == a2(Route(query, page).value)
    ensures FetchArticles(a1, query, page) == FetchArticles(a2, query, page)
  {
  }

  /** Searching is insensitive to the whitespace the user typed around the term. */
  lemma SearchIgnoresPadding(pre: string, term: string, post: string, page: int)
    requires AllWhitespace(pre) && AllWhitespace(post)
    requires term != [] && !IsWhitespace(term[0]) && !IsWhitespace(term[|term| - 1])
    requires page >= 1
    ensures Route(pre + term + post, page) == Success(Search(term, page))
  {
    TrimOfPadded(pre, term, post);
  }

  /** `"  swift  "` searches for `"swift"`. */
  lemma TrimmedSearchExample()
    ensures Route("  swift  ", 1) == Success(Search("swift", 1))
  {
    assert "  swift  " == "  " + "swift" + "  ";
    SearchIgnoresPadding("  ", "swift", "  ", 1);
  }

  /** A query of spaces and a newline asks `everything`; page 0 is rejected whatever the query. */
  lemma BlankAndInvalidExamples()
    ensures Route("  \n ", 2) == Success(Everything(2))
    ensures Route("swift", 0) == Failure(InvalidPage)
  {
    var blank := "  \n ";
    assert AllWhitespace(blank) by {
      forall i | 0 <= i < |blank| ensures IsWhitespace(blank[i]) { }
    }
    assert Trim(blank) == [];
  }
}
