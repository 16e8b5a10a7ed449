/**
 * `NewsArticlesRepository` in the article-list package: the same page guard as the data source,
 * then one delegated call with the query and page unchanged.
 */
module ArticlesRepository {
  import opened Wrappers
  import opened Errors
  import opened ArticlesDataSource

  /** The `ArticlesDataSource` the repository holds. */
  type Remote = (string, int) -> Result<ArticlesPage, Error>

  /**
   * `fetchArticles(query:page:)`: `invalidPage` below page 1 without asking the data source;
   * otherwise the data source's outcome for the same, untrimmed, query and page.
   */
  function FetchArticles(remote: Remote, query: string, page: int): (r: Result<ArticlesPage, Error>)
    ensures page < 1 ==> r == Failure(InvalidPage)
    ensures page >= 1 ==> r == remote(query, page)
  {
    if page < 1 then Failure(InvalidPage) else remote(query, page)
  }

  /**
   * Over the remote data source the repository's own guard is redundant: the repository gives
   * exactly the data source's outcome, for every page.
   */
  lemma OverRemoteDataSource(api: NewsClient, query: string, page: int)
    ensures FetchArticles((q, p) => ArticlesDataSource.FetchArticles(api, q, p), query, page)
            == ArticlesDataSource.FetchArticles(api, query, page)
  {
  }
}
