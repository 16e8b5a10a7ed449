/** The parts of `URLComponents` and `URLRequest` the request builders fill in. */
module Http {

  /** `URLQueryItem`; every item the core builds carries a value. */
  datatype QueryItem = QueryItem(name: string, value: string)

  /**
   * A URL as `URLComponents` holds it: the address up to and including the path, and the query
   * items in order. Percent-encoding is not modelled.
   */
  datatype Url = Url(address: string, queryItems: seq<QueryItem>)

  /** `URLRequest`: the URL, the HTTP method (`httpMethod`) and the header fields set on it. */
  datatype Request = Request(url: Url, httpMethod: string, headers: map<string, string>)
}
