/**
 * `MarvelHeroesRepository.fetchHeroes`: `searchCharacters` for a non-empty query, `getCharacters`
 * otherwise, and the heroes of the envelope's `data.results`.
 */
module HeroesRepository {
  import opened Wrappers
  import opened Models
  import opened Errors
  import opened MarvelAPI

  /** The Marvel API as the repository uses it: the envelope a call returns, or its error. */
  type MarvelClient = MarvelCall -> Result<APIResponse<Hero>, Error>

  /**
   * `if let query, !query.isEmpty`: any non-empty query is searched for as typed, with no trimming,
   * and `limit` and `offset` are passed on unchanged by both routes.
   */
  function Route(limit: int, offset: int, query: Option<string>): (r: MarvelCall)
    ensures r.SearchCharacters? <==> query.Some? && query.value != []
    ensures r.SearchCharacters? ==> r.nameStartsWith == query.value
    ensures r.limit == limit && r.offset == offset
  {
    if query.Some? && query.value != [] then SearchCharacters(query.value, limit, offset)
    else GetCharacters(limit, offset)
  }

  /** The heroes of the routed call, in the order the API listed them, or its error unchanged. */
  function FetchHeroes(api: MarvelClient, limit: int, offset: int, query: Option<string>)
    : (r: Result<seq<Hero>, Error>)
    ensures var reply := api(Route(limit, offset, query));
      (reply.Failure? ==> r == Failure(reply.error))
      && (reply.Success? ==> r == Success(reply.value.data.results))
  {
    api(Route(limit, offset, query)).Map((response: APIResponse<Hero>) => response.data.results)
  }

  /**
   * `nil` and `""` both list characters; a whitespace-only query is not blank here, unlike in the
   * article data layer, and is searched for.
   */
  lemma RouteExamples(limit: int, offset: int)
    ensures Route(limit, offset, None) == GetCharacters(limit, offset)
    ensures Route(limit, offset, Some("")) == GetCharacters(limit, offset)
    ensures Route(limit, offset, Some("  ")) == SearchCharacters("  ", limit, offset)
  {
  }

  /**
   * The envelope's metadata is dropped: two APIs whose replies to the routed call carry the same
   * results give the same heroes, whatever their code, status, offset, limit, total or count.
   */
  lemma MetadataDropped(a1: MarvelClient, a2: MarvelClient, limit: int, offset: int, query: Option<string>)
    requires a1(Route(limit, offset, query)).Success? && a2(Route(limit, offset, query)).Success?
    requires a1(Route(limit, offset, query)).value.data.results == a2(Route(limit, offset, query)).value.data.results
    ensures FetchHeroes(a1, limit, offset, query) == FetchHeroes(a2, limit, offset, query)
    ensures FetchHeroes(a1, limit, offset, query).Success?
  {
  }
}
