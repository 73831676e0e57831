/** The requests the API wrappers hand to the HTTP client, and the parts of a request URL
    that the route handlers read. */
module Http {
  datatype Verb = Get | Post | Put

  datatype Request<B> = Request(verb: Verb, path: string, body: B)

  /** A parsed request URL as the WHATWG URL standard splits it: `protocol` keeps its `:`,
      `host` keeps its port, `pathname` starts with `/`, `search` is empty or starts with `?`. */
  datatype Url = Url(protocol: string, host: string, pathname: string, search: string)

  /** `${url.protocol}//${url.host}`. */
  function Origin(url: Url): string
  {
    url.protocol + "//" + url.host
  }

  /** The serialised URL. */
  function Href(url: Url): string
  {
    Origin(url) + url.pathname + url.search
  }

  /** `new URL(path, url)` for a path starting with `/`: same origin, the path replaced,
      the query dropped. */
  function ResolvePath(path: string, url: Url): Url
  {
    url.(pathname := path, search := "")
  }
}
