/**
 * The value records the core passes around: news articles, Marvel heroes and the two response
 * envelopes. Their JSON decoding is Foundation's and is not part of this model.
 */
module Models {
  import opened Wrappers
  import opened Thumbnails

  datatype Source = Source(id: Option<string>, name: Option<string>)

  datatype Article = Article(
    source: Option<Source>,
    author: Option<string>,
    title: Option<string>,
    description: Option<string>,
    url: Option<string>,
    urlToImage: Option<string>,
    publishedAt: Option<string>,
    content: Option<string>)

  /** The NewsAPI reply: either field may be missing. */
  datatype NewsAPIResponse = NewsAPIResponse(
    status: string,
    totalResults: Option<int>,
    articles: Option<seq<Article>>)

  /** A comic, series or event a hero appears in. */
  datatype ResourceSummary = ResourceSummary(resourceURI: string, name: string)

  /** A story a hero appears in; `kind` is the optional `type` field. */
  datatype StorySummary = StorySummary(resourceURI: string, name: string, kind: Option<string>)

  datatype ResourceList<T> = ResourceList(available: int, items: seq<T>)

  datatype Hero = Hero(
    id: int,
    name: string,
    description: string,
    thumbnail: Thumbnail,
    resourceURI: string,
    comics: ResourceList<ResourceSummary>,
    series: ResourceList<ResourceSummary>,
    stories: ResourceList<StorySummary>,
    events: ResourceList<ResourceSummary>)

  datatype APIDataContainer<T> = APIDataContainer(
    offset: int,
    limit: int,
    total: int,
    count: int,
    results: seq<T>)

  /** The Marvel API envelope. */
  datatype APIResponse<T> = APIResponse(code: int, status: string, data: APIDataContainer<T>)
}
