# Marvelous: list reducers, data layer and request building

A Dafny model of the logic behind the two list screens of the Marvelous iOS app: the news-article
list and the Marvel hero grid, plus the article detail screen.

- **Reducers.** `ArticleListFeature`, `HeroListFeature` and `ArticleDetailsFeature` are state
  machines. Each is a pure `Step` function and an imperative `Reduce` method that updates a copy of
  the state field by field, as the reducer updates `inout state`. An asynchronous effect is returned
  as a descriptor (`Fetch`, `FetchHeroes`, `SendOnAppear`); its outcome comes back as a later action.
  `Run` and `Effects` replay a sequence of actions.
- **Data layer.** `RemoteArticlesDataSource`, both revisions of `NewsArticlesRepository` and
  `MarvelHeroesRepository` are routing functions over an abstract API.
- **API client.** Both revisions of `APIClient.fetch` classify the session's outcome (`Classify`).
  The session and the JSON decoder are parameters. `NetworkError.errorDescription` is modelled in full.
- **Request builders.** `NewsAPI` yields a request record (address, query items, method, headers).
  `MarvelAPI` yields the signed query items and the characters URL; MD5 is a parameter and
  `String.md5`'s hex formatting is modelled. `Thumbnail.url` is the string handed to `URL(string:)`.
- **Secrets.** Both `Secrets` revisions load the Marvel keys from an Info dictionary, and
  `SecretsError` describes the failure.

Behaviour of the code that the model states as it is:

- A failed `loadMore` leaves the page advanced, so the next `loadMore` skips the failed page in both
  lists (`ArticleList.FailedPageSkipped`, `HeroList.FailedPageSkipped`).
- The article list never clears its error message once one is shown (`ArticleList.ErrorNeverCleared`).

`NewsAPI.swift` sends the page as given, a constant `pageSize` of 20, `language=en` and
`domains=techcrunch.com`, and no `sortBy`; the model does the same.

## Model

| member | source | states |
|---|---|---|
| Text.Trim | Marvelous-iOS/FeatureArticleList/Sources/FeatureArticleList/Data/DataSource/RemoteArticlesDataSource.swift:10 | `trimmingCharacters(in: .whitespacesAndNewlines)` leaves no whitespace at either end, never lengthens, and gives the empty string exactly for whitespace-only input |
| Text.TrimOfPadded | Marvelous-iOS/FeatureArticleList/Sources/FeatureArticleList/Data/DataSource/RemoteArticlesDataSource.swift:10 | trimming removes exactly the surrounding whitespace: any text with non-blank ends, padded with whitespace, trims back to itself |
| Text.TrimSplits | Marvelous-iOS/FeatureArticleList/Sources/FeatureArticleList/Data/DataSource/RemoteArticlesDataSource.swift:10 | conversely every string is its trimmed form with whitespace-only padding on both sides |
| Text.IsBlank | Marvelous-iOS/FeatureArticleList/Sources/FeatureArticleList/Data/DataSource/RemoteArticlesDataSource.swift:20 | `isBlank` holds exactly when the string is whitespace only |
| Text.Decimal | Marvelous-iOS/CoreNetworking/Sources/CoreNetworking/NewsAPI.swift:22 | `String(page)` is an optional minus sign (exactly for negatives) and digits without a leading zero, `"0"` for zero, that read back as the number |
| Text.DecimalUnique | Marvelous-iOS/CoreNetworking/Sources/CoreNetworking/NewsAPI.swift:22 | the rendering is the only text of that shape for its number: no zero-padded form and no `-0` |
| Text.CanonicalDigitsRendered | Marvelous-iOS/CoreNetworking/Sources/CoreNetworking/NewsAPI.swift:22 | digits without a leading zero are exactly the rendering of the number they spell |
| Text.ReplaceAll | Marvelous-iOS/CoreModels/Sources/CoreModels/Thumbnail.swift:8 | `replacingOccurrences(of:with:)` scans left to right replacing non-overlapping matches: a same-length replacement keeps the length, a shorter one never lengthens, text shorter than the pattern is unchanged |
| Text.ReplaceAllFree | Marvelous-iOS/CoreModels/Sources/CoreModels/Thumbnail.swift:8 | `replacingOccurrences` on text without an occurrence changes nothing |
| Text.RemoveCharIsWithout | Marvelous-iOS/Config/Sources/Config/Secrets.swift:22 | replacing a backslash by nothing drops exactly the backslashes and keeps every other character in order |
| Text.RemoveCharAbsent | Marvelous-iOS/Config/Sources/Config/Secrets.swift:22 | after removing a character none of it is left |
| Text.RemoveCharAll | Marvelous-iOS/Config/Sources/Config/Secrets.swift:22 | removing a character from a string made only of it leaves the empty string |
| NetworkErrors.ErrorDescription | Marvelous-iOS/CoreNetworking/Sources/CoreNetworking/NetworkError.swift:9-20 | every case has a description: `Invalid URL.`, `Request failed with status code ` + the status in decimal (readable back) + `.`, `Decoding failed: ` or `Unknown error: ` followed by the cause's description |
| NetworkErrors.DescriptionInjective | Marvelous-iOS/CoreNetworking/Sources/CoreNetworking/NetworkError.swift:9-20 | distinct errors, including distinct status codes, are described distinctly |
| NetworkErrors.Describe500 | Marvelous-iOS/CoreNetworking/Sources/CoreNetworking/NetworkError.swift:13-14 | status 500 is described as `Request failed with status code 500.` |
| Errors.LocalizedDescription | Marvelous-iOS/FeatureArticleList/Sources/FeatureHeroList/Presentation/ArticleListFeature.swift:81 | the text a failure shows is a network error's `errorDescription` or a foreign error's own description |
| APIClient.Classify | Marvelous-iOS/CoreNetworking/Sources/CoreNetworking/APIClient.swift:13-22 | in both client revisions, a thrown transport error passes unchanged; a non-HTTP response is `invalidURL`; a status outside [200, 300) is `requestFailed` with it; a decoder failure is `decodingError` with its cause; success exactly for a 2xx status with a body that decodes, returning the decoded value |
| APIClient.Fetch | Marvelous-iOS/CoreNetworking/Sources/CoreNetworking/APIClient.swift:12-23 | the session's answer to the given request decides: its thrown error is rethrown, a non-HTTP reply is `invalidURL`, a non-2xx status is `requestFailed` with it, and a value comes back exactly for a 2xx reply whose body decodes |
| APIClient.FetchURL | Marvelous-iOS/CoreNetworking/Sources/CoreNetworking/APIRequestable.swift:15-33 | the older client classifies the session's answer for the given URL in the same way |
| APIClient.DecoderOnlyOnSuccess | Marvelous-iOS/CoreNetworking/Sources/CoreNetworking/APIClient.swift:15 | unless the status is 2xx the decoder is never consulted and the call fails |
| APIClient.FetchAsksForRequest | Marvelous-iOS/CoreNetworking/Sources/CoreNetworking/APIClient.swift:13 | the session is asked about the given request only |
| APIClient.FetchURLAsksForURL | Marvelous-iOS/CoreNetworking/Sources/CoreNetworking/APIRequestable.swift:16 | the older client asks the session about the given URL only |
| APIClient.StatusBoundaries | Marvelous-iOS/CoreNetworking/Sources/CoreNetworking/APIClient.swift:15 | 200 and 299 are accepted; 199 and 300 are rejected with their status |
| NewsAPI.MakeRequest | Marvelous-iOS/CoreNetworking/Sources/CoreNetworking/NewsAPI.swift:14-58 | `everything` sends GET to `base/everything` with the key in `X-Api-Key` and the items page (reading back as the page, unclamped), pageSize 20, language en, domains techcrunch.com; `search` sends the same request with `q` = the query, untrimmed, in front of those four items |
| NewsAPI.DefaultPageRequest | Marvelous-iOS/CoreNetworking/Sources/CoreNetworking/NewsAPI.swift:15 | the default first page is sent as `page=1` |
| NewsAPI.RejectedStatusSurfaces | Marvelous-iOS/CoreNetworking/Sources/CoreNetworking/NewsAPI.swift:34 | over the real client, a non-2xx status from either endpoint surfaces unchanged as `requestFailed` with that status |
| MarvelAPI.AuthQueryItems | Marvelous-iOS/CoreNetworking/Sources/CoreNetworking/MarvelAPI.swift:16-24 | the signing items are `ts`, `apikey` = public key and `hash`, in that order; the hash is 32 lowercase hex digits of the MD5 of timestamp + private key + public key |
| MarvelAPI.CharactersUrl | Marvelous-iOS/CoreNetworking/Sources/CoreNetworking/MarvelAPI.swift:26-31 | the characters request targets `baseURL/characters` with the signing items followed by `limit` and `offset`, both reading back as given |
| MarvelAPI.DefaultCharactersUrl | Marvelous-iOS/CoreNetworking/Sources/CoreNetworking/MarvelAPI.swift:26 | the defaults ask for `limit=20` and `offset=0` |
| MD5Hex.ByteHex | Marvelous-iOS/CoreNetworking/Sources/CoreNetworking/Helpers/String+MD5.swift:7 | `%02x` gives exactly two lowercase hex digits, high nibble first, that read back as the byte |
| MD5Hex.Hex | Marvelous-iOS/CoreNetworking/Sources/CoreNetworking/Helpers/String+MD5.swift:7 | the joined text has two characters per digest byte, all lowercase hex |
| MD5Hex.HexAt | Marvelous-iOS/CoreNetworking/Sources/CoreNetworking/Helpers/String+MD5.swift:7 | the i-th pair of digits is the i-th byte's |
| MD5Hex.UnhexHex | Marvelous-iOS/CoreNetworking/Sources/CoreNetworking/Helpers/String+MD5.swift:7 | decoding the hex text pair by pair gives back the digest bytes |
| MD5Hex.Md5String | Marvelous-iOS/CoreNetworking/Sources/CoreNetworking/Helpers/String+MD5.swift:5-8 | `md5` is 32 lowercase hex digits that decode to the 16-byte digest |
| Thumbnails.UrlString | Marvelous-iOS/CoreModels/Sources/CoreModels/Thumbnail.swift:7-9 | the address handed to `URL(string:)` contains no `http://`, not even one formed across a replacement |
| Thumbnails.UpgradeRemovesHttp | Marvelous-iOS/CoreModels/Sources/CoreModels/Thumbnail.swift:8 | after replacing every `http://` by `https://` no `http://` is left |
| Thumbnails.HttpPathUpgraded | Marvelous-iOS/CoreModels/Sources/CoreModels/Thumbnail.swift:8 | a path starting with `http://` gives an address starting with `https://` |
| Thumbnails.SecureUrlUnchanged | Marvelous-iOS/CoreModels/Sources/CoreModels/Thumbnail.swift:8 | text without `http://`, such as an `https` address, is `path.extension` unchanged |
| ArticlesDataSource.Route | Marvelous-iOS/FeatureArticleList/Sources/FeatureArticleList/Data/DataSource/RemoteArticlesDataSource.swift:9-14 | below page 1 the result is `invalidPage`; otherwise the page is passed unchanged, a whitespace-only query asks `everything` and any other asks `search` with the query stripped of its surrounding whitespace |
| ArticlesDataSource.Unwrap | Marvelous-iOS/FeatureArticleList/Sources/FeatureArticleList/Data/DataSource/RemoteArticlesDataSource.swift:15 | missing articles become `[]` and a missing total `0`; present ones pass unchanged |
| ArticlesDataSource.FetchArticles | Marvelous-iOS/FeatureArticleList/Sources/FeatureArticleList/Data/DataSource/RemoteArticlesDataSource.swift:8-16 | `invalidPage` below page 1; otherwise the routed call's reply with defaults applied, or the API's error unchanged |
| ArticlesDataSource.NoCallBelowFirstPage | Marvelous-iOS/FeatureArticleList/Sources/FeatureArticleList/Data/DataSource/RemoteArticlesDataSource.swift:9 | below page 1 no API is asked: every API gives `invalidPage` |
| ArticlesDataSource.OnlyRoutedCall | Marvelous-iOS/FeatureArticleList/Sources/FeatureArticleList/Data/DataSource/RemoteArticlesDataSource.swift:11-14 | only the routed call is made: APIs that agree on it agree on the outcome |
| ArticlesDataSource.SearchIgnoresPadding | Marvelous-iOS/FeatureArticleList/Sources/FeatureArticleList/Data/DataSource/RemoteArticlesDataSource.swift:10-13 | a term padded with whitespace is searched for as the bare term |
| ArticlesDataSource.TrimmedSearchExample | Marvelous-iOS/FeatureArticleList/Sources/FeatureArticleList/Data/DataSource/RemoteArticlesDataSource.swift:10-13 | `"  swift  "` searches for `"swift"` |
| ArticlesDataSource.BlankAndInvalidExamples | Marvelous-iOS/FeatureArticleList/Sources/FeatureArticleList/Data/DataSource/RemoteArticlesDataSource.swift:9-12 | spaces and a newline ask `everything`; page 0 is `invalidPage` |
| ArticlesRepository.FetchArticles | Marvelous-iOS/FeatureArticleList/Sources/FeatureArticleList/Data/Repositories/NewsArticlesRepository.swift:12-15 | `invalidPage` below page 1 without asking the data source; otherwise the data source's outcome for the same query and page |
| ArticlesRepository.OverRemoteDataSource | Marvelous-iOS/FeatureArticleList/Sources/FeatureArticleList/Data/Repositories/NewsArticlesRepository.swift:13-14 | over the remote data source the repository gives exactly the data source's outcome |
| LegacyArticlesRepository.Route | Marvelous-iOS/FeatureArticleList/Sources/FeatureHeroList/Data/Repositories/NewsArticlesRepository.swift:10-14 | every page is forwarded; a blank query asks `everything`, any other `search` with the trimmed query |
| LegacyArticlesRepository.FetchArticles | Marvelous-iOS/FeatureArticleList/Sources/FeatureHeroList/Data/Repositories/NewsArticlesRepository.swift:9-16 | the reply with missing fields defaulted, or the API's error unchanged |
| LegacyArticlesRepository.AgreesWithDataSource | Marvelous-iOS/FeatureArticleList/Sources/FeatureHeroList/Data/Repositories/NewsArticlesRepository.swift:9-16 | from page 1 on the older revision agrees with the data source on every query and API |
| LegacyArticlesRepository.ForwardsInvalidPage | Marvelous-iOS/FeatureArticleList/Sources/FeatureHeroList/Data/Repositories/NewsArticlesRepository.swift:9-14 | below page 1 the data source throws `invalidPage` while this revision asks the API for that page |
| HeroesRepository.Route | Marvelous-iOS/FeatureHeroList/Sources/FeatureHeroList/Data/Repositories/MarvelHeroesRepository.swift:14-18 | a non-empty query, untrimmed, asks `searchCharacters`; `nil` or empty asks `getCharacters`; limit and offset pass unchanged |
| HeroesRepository.FetchHeroes | Marvelous-iOS/FeatureHeroList/Sources/FeatureHeroList/Data/Repositories/MarvelHeroesRepository.swift:12-20 | the routed call's `data.results` in order, or its error unchanged |
| HeroesRepository.RouteExamples | Marvelous-iOS/FeatureHeroList/Sources/FeatureHeroList/Data/Repositories/MarvelHeroesRepository.swift:14 | `nil` and `""` list characters; a whitespace-only query is searched for |
| HeroesRepository.MetadataDropped | Marvelous-iOS/FeatureHeroList/Sources/FeatureHeroList/Data/Repositories/MarvelHeroesRepository.swift:19 | only `data.results` reaches the caller: replies with the same results give the same heroes whatever their code, status, offset, limit, total or count |
| ArticleList.State.CanLoadMore | Marvelous-iOS/FeatureArticleList/Sources/FeatureHeroList/Presentation/ArticleListFeature.swift:14 | more can be loaded exactly when fewer articles are shown than the API total and than 100 |
| ArticleList.Prefix | Marvelous-iOS/FeatureArticleList/Sources/FeatureHeroList/Presentation/ArticleListFeature.swift:69-74 | `prefix(n)` is the first min(count, n) elements |
| ArticleList.Step | Marvelous-iOS/FeatureArticleList/Sources/FeatureHeroList/Presentation/ArticleListFeature.swift:29-85 | keeps at most 100 items and page 1 as a floor; each fetch is for the new state's query and page and sets loading; onAppear fetches exactly when empty and loadMore exactly when idle with more to load, moving one page on; a new query restarts from page 1 keeping the error; a first-page response holds the first min(100, n) new items, a later one keeps the old items in front of the new ones up to the cap; a failure changes only loading and the error text |
| ArticleList.Reduce | Marvelous-iOS/FeatureArticleList/Sources/FeatureHeroList/Presentation/ArticleListFeature.swift:30-84 | the in-place reducer produces the state and effect of `Step` |
| ArticleList.RunKeepsValid | Marvelous-iOS/FeatureArticleList/Sources/FeatureHeroList/Presentation/ArticleListFeature.swift:64-76 | over any sequence of actions the list stays within 100 items and the page stays at 1 or more |
| ArticleList.ReachableWithinCap | Marvelous-iOS/FeatureArticleList/Sources/FeatureHeroList/Presentation/ArticleListFeature.swift:5-15 | every state reached from `State()` holds at most 100 articles |
| ArticleList.LaterPagesKeepItems | Marvelous-iOS/FeatureArticleList/Sources/FeatureHeroList/Presentation/ArticleListFeature.swift:71-76 | past page 1 and without a new query the articles shown stay, in order, at the front |
| ArticleList.ErrorNeverCleared | Marvelous-iOS/FeatureArticleList/Sources/FeatureHeroList/Presentation/ArticleListFeature.swift:53-81 | once an error is shown no action clears it |
| ArticleList.FailedPageSkipped | Marvelous-iOS/FeatureArticleList/Sources/FeatureHeroList/Presentation/ArticleListFeature.swift:42-82 | after a failed loadMore the next loadMore asks for the page after the failed one |
| ArticleList.FirstPageCut | Marvelous-iOS/FeatureArticleList/Sources/FeatureHeroList/Presentation/ArticleListFeature.swift:68-69 | a first page of 150 articles is cut to its first 100 |
| ArticleList.LaterPageFillsToCap | Marvelous-iOS/FeatureArticleList/Sources/FeatureHeroList/Presentation/ArticleListFeature.swift:71-75 | 98 articles and a later page of 10 give the 98 followed by the first 2 new ones |
| ArticleList.AppearThenLoad | Marvelous-iOS/FeatureArticleList/Sources/FeatureHeroList/Presentation/ArticleListFeature.swift:32-77 | from `State()`, onAppear fetches page 1 of the empty query and three articles then fill the list with total 3, idle |
| ArticleList.AppearThenServerError | Marvelous-iOS/FeatureArticleList/Sources/FeatureHeroList/Presentation/ArticleListFeature.swift:79-82 | a 500 on the first load shows `Request failed with status code 500.` and ends the loading |
| HeroList.Step | Marvelous-iOS/FeatureHeroList/Sources/FeatureHeroList/Presentation/HeroListFeature.swift:33-78 | each fetch is of 20 heroes for the current query and sets loading; onAppear fetches offset 0 exactly when the grid is empty, clearing the error; loadMore fetches offset page*20 of the next page exactly when idle with more to load; a new query resets and sends onAppear; an empty page stops loading more, a non-empty one is appended; a failure changes only loading and the error text; binding changes nothing; only a new query turns loading back on |
| HeroList.Reduce | Marvelous-iOS/FeatureHeroList/Sources/FeatureHeroList/Presentation/HeroListFeature.swift:32-79 | the in-place reducer produces the state and effect of `Step` |
| HeroList.Dispatch | Marvelous-iOS/FeatureHeroList/Sources/FeatureHeroList/Presentation/HeroListFeature.swift:34-60 | the `.send(.onAppear)` a new query returns is run at once, so a dispatched action never leaves an onAppear pending; a new query ends up fetching 20 heroes from offset 0 for it with the grid empty; every other action is one `Step` |
| HeroList.SearchAlwaysFetches | Marvelous-iOS/FeatureHeroList/Sources/FeatureHeroList/Presentation/HeroListFeature.swift:55-60 | a new query, with the onAppear it sends, always fetches the first 20 heroes for that query |
| HeroList.StoppedUntilNewQuery | Marvelous-iOS/FeatureHeroList/Sources/FeatureHeroList/Presentation/HeroListFeature.swift:44-66 | once an empty page has stopped loading, no loadMore fetches until a new query |
| HeroList.HeroesOnlyGrow | Marvelous-iOS/FeatureHeroList/Sources/FeatureHeroList/Presentation/HeroListFeature.swift:62-68 | without a new query the heroes shown stay, in order, at the front |
| HeroList.FailedPageSkipped | Marvelous-iOS/FeatureHeroList/Sources/FeatureHeroList/Presentation/HeroListFeature.swift:44-74 | after a failed loadMore the next loadMore moves on by another 20 |
| HeroList.AppearThenLoad | Marvelous-iOS/FeatureHeroList/Sources/FeatureHeroList/Presentation/HeroListFeature.swift:34-69 | from `State()`, onAppear fetches 20 from offset 0 and one hero then fills the grid |
| ArticleDetails.Init | Marvelous-iOS/FeatureArticleDetails/Sources/FeatureArticleDetails/Presentation/ArticleDetailsFeature.swift:6-12 | a new screen holds the given article with the share sheet hidden |
| ArticleDetails.Step | Marvelous-iOS/FeatureArticleDetails/Sources/FeatureArticleDetails/Presentation/ArticleDetailsFeature.swift:25-42 | share shows the sheet, dismiss hides it, appearing and opening in the browser change nothing, the article never changes |
| ArticleDetails.Reduce | Marvelous-iOS/FeatureArticleDetails/Sources/FeatureArticleDetails/Presentation/ArticleDetailsFeature.swift:24-43 | the in-place reducer produces the state of `Step` |
| ArticleDetails.ShareIdempotent | Marvelous-iOS/FeatureArticleDetails/Sources/FeatureArticleDetails/Presentation/ArticleDetailsFeature.swift:34-36 | tapping share twice is the same as once |
| ArticleDetails.RunDecidedByLastShare | Marvelous-iOS/FeatureArticleDetails/Sources/FeatureArticleDetails/Presentation/ArticleDetailsFeature.swift:7-41 | over any actions the article is kept and the sheet is shown exactly when the last share or dismiss was a share |
| ArticleDetails.FreshScreenThenShare | Marvelous-iOS/FeatureArticleDetails/Sources/FeatureArticleDetails/Presentation/ArticleDetailsFeature.swift:8-36 | a fresh screen stays unchanged until share is tapped, which shows the sheet |
| SecretsErrors.ErrorDescription | Marvelous-iOS/Marvelous-iOS/Sources/Infrastructure/Configuration/SecretsError.swift:6-11 | never nil: the key-emoji prefix followed by the missing key |
| SecretsErrors.DescriptionInjective | Marvelous-iOS/Marvelous-iOS/Sources/Infrastructure/Configuration/SecretsError.swift:9 | distinct keys are described distinctly |
| ConfigSecrets.Load | Marvelous-iOS/Config/Sources/Config/Secrets.swift:15-23 | `missingKey(key)` exactly when the key is absent, not a string or empty; otherwise the string with its backslashes dropped: none is left, a value without one is unchanged, an all-backslash value loads as empty |
| ConfigSecrets.StripBackslashes | Marvelous-iOS/Config/Sources/Config/Secrets.swift:22 | the replacement drops exactly the backslashes |
| ConfigSecrets.Init | Marvelous-iOS/Config/Sources/Config/Secrets.swift:14-27 | succeeds exactly when both keys load; the public key's error comes first; success holds both loaded keys |
| ConfigSecrets.BothMissingNamesPublicKey | Marvelous-iOS/Config/Sources/Config/Secrets.swift:25-26 | with both keys missing the error names `MarvelPublicKey` |
| ConfigSecrets.LoadExamples | Marvelous-iOS/Config/Sources/Config/Secrets.swift:16-22 | `abc\/def` loads as `abc/def`, a backslash pair as empty, an empty or non-string value fails |
| AppSecrets.Init | Marvelous-iOS/Marvelous-iOS/Sources/Infrastructure/Configuration/Secrets.swift:7-20 | `MarvelPublicKey` is checked before `MarvelPrivateKey`; a valid dictionary gives both raw strings with backslashes removed |
| AppSecrets.AgreesWithConfig | Marvelous-iOS/Marvelous-iOS/Sources/Infrastructure/Configuration/Secrets.swift:7-20 | the app revision loads every dictionary as the package revision does |

## Left out

- Asynchronous execution: effects are descriptors; scheduling, overlapping requests and the order in which responses arrive are not modelled.
- `URLComponents`, `URLRequest`, percent-encoding and `URL(string:)`: requests are records of address, query items, method and headers. The `invalidURL` guards in `NewsAPI` and `MarvelAPI` build from constant base addresses and are not modelled.
- `Thumbnails.UrlString`: gives the text handed to `URL(string:)`, not the optional `URL` that parsing produces.
- JSON decoding and the two key-decoding strategies: the decoder is an abstract function from the body to a value or an error.
- The MD5 digest itself (RFC 1321) is a function parameter; the clock reading behind `ts` is a string parameter.
- `MarvelAPI.searchCharacters` is not part of this model: `MarvelHeroesRepository` calls it but `MarvelAPI.swift` does not define it, so it is only a call descriptor.
- `NewsAPI.Perform` and `MarvelAPI.GetCharactersResponse` pass the client's result on unchanged and carry no contract of their own.
- Swift's 64-bit `Int`: pages, offsets (`page * 20`) and totals are unbounded integers, so overflow traps are not modelled.
- `Text.Trim`: whitespace is ASCII whitespace plus NEL, NO-BREAK SPACE, LINE SEPARATOR and PARAGRAPH SEPARATOR, not Foundation's full Unicode set.
- `Errors.LocalizedDescription`: the text for `ArticlesRepoError.invalidPage` is Foundation's generic bridged message, which the contract does not constrain.
- `HeroList.Step`: the `BindingReducer` that runs before the reducer is library code; the view sends no binding action, and `binding` is a no-op here.
- The use cases and dependency keys forward to the repositories and are the identity here; views, coordinators and design-system components are UI.
- `Article.id` falls back to a fresh `UUID()` and is not part of the `Article` record.
