/**
 * Swift's `any Error` as it reaches the list reducers: a networking error, the repository's
 * `invalidPage`, or an error from code outside this model.
 */
module Errors {
  import opened Wrappers
  import opened NetworkErrors

  datatype Error =
    | Network(network: NetworkError)
    | InvalidPage
    | Foreign(underlying: Underlying)

  /**
   * Foundation's bridged text for an error type that does not provide its own description, as it
   * reads for `ArticlesRepoError.invalidPage`.
   */
  const InvalidPageText := "The operation couldn’t be completed. (FeatureArticleList.ArticlesRepoError error 0.)"

  /**
   * `error.localizedDescription`: a networking error's `errorDescription`, which is never `nil`,
   * and a foreign error's own text.
   */
  function LocalizedDescription(e: Error): (r: string)
    ensures e.Network? ==> Some(r) == ErrorDescription(e.network)
    ensures e.Foreign? ==> r == e.underlying.description
  {
    match e
    case Network(n) => ErrorDescription(n).value
    case InvalidPage => InvalidPageText
    case Foreign(u) => u.description
  }
}
