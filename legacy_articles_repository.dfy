/**
 * The older `NewsArticlesRepository`, which talks to `NewsAPI` directly: it routes on `isBlank`
 * and trims the query, but does not check the page.
 */
module LegacyArticlesRepository {
  import opened Wrappers
  import opened Text
  import opened Errors
  import opened NewsAPI
  import opened ArticlesDataSource

  /** The call this revision makes: every page is forwarded, including 0 and negative ones. */
  function Route(query: string, page: int): (r: NewsCall)
    ensures r.page == page
    ensures r.Everything? <==> IsBlank(query)
    ensures r.Search? ==> r.query == Trim(query)
  {
    if IsBlank(query) then Everything(page) else Search(Trim(query), page)
  }

  /** `fetchArticles(query:page:)`: the reply with its fields defaulted, or the API's error. */
  function FetchArticles(api: NewsClient, query: string, page: int): (r: Result<ArticlesPage, Error>)
    ensures var reply := api(Route(query, page));
      (reply.Failure? ==> r == Failure(reply.error)) && (reply.Success? ==> r == Success(Unwrap(reply.value)))
  {
    api(Route(query, page)).Map(Unwrap)
  }

  /** From page 1 on, the two revisions agree on every query and every API. */
  lemma AgreesWithDataSource(api: NewsClient, query: string, page: int)
    requires page >= 1
    ensures FetchArticles(api, query, page) == ArticlesDataSource.FetchArticles(api, query, page)
  {
  }

  /**
   * Below page 1 they differ: the data source throws `invalidPage` while this revision asks the API
   * for that page.
   */
  lemma ForwardsInvalidPage(api: NewsClient, query: string, page: int)
    requires page < 1
    ensures ArticlesDataSource.FetchArticles(api, query, page) == Failure(InvalidPage)
    ensures FetchArticles(api, query, page) == api(Route(query, page)).Map(Unwrap)
    ensures Route(query, page).page == page
  {
  }
}
