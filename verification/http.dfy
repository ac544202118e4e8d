/**
  The parts of `net/http` the proxy touches: an inbound request, the response a
  handler produces, and the per-request environment of library behaviour that
  the model treats as given (bcrypt, URL escaping, the session store, the
  embedded file system, content sniffing).
 */
module Http {
  import opened Wrappers
  import opened Sessions

  /**
    The request URL: `path` is `r.URL.Path`, `query` maps each query key to its
    first value (`r.URL.Query().Get`), and `text` is `r.URL.String()`.
   */
  datatype Url = Url(path: string, query: map<string, string>, text: string)

  /** `form` maps each form key to the value `r.FormValue` returns. */
  datatype Request = Request(verb: string, url: Url, form: map<string, string>)

  /** `http.StatusFound`, the status of every redirect the proxy writes. */
  const StatusFound := 302
  const StatusNotFound := 404
  const StatusInternalServerError := 500

  /** What a handler wrote, apart from the session cookie. */
  datatype Outcome =
    | Page(contentType: string, body: string)    // 200 with a body
    | Redirect(status: int, location: string)    // `http.Redirect`
    | Error(status: int, message: string)        // `http.Error` / `http.NotFound`
    | Forwarded(request: Request)                // handed to the reverse proxy

  /** A handler's response: its outcome and the session cookie it set, if any. */
  datatype Response = Response(outcome: Outcome, setCookie: Option<Session>)

  /** The result of opening and reading a file of the embedded UI build. */
  datatype FileRead = Missing | ReadFailed | Content(data: string)

  /**
    Library behaviour for one request. `lookup` is what the cookie store
    decodes from the request's cookie, `saves` whether `session.Save` succeeds.
   */
  datatype Env = Env(
    bcryptMatches: (string, string) -> bool,
    lookup: Lookup,
    saves: bool,
    queryEscape: string -> string,
    jsEscape: string -> string,
    open: string -> FileRead,
    detectContentType: string -> string)

  /** `r.FormValue(key)`: the empty string when the key is absent. */
  function FormValue(r: Request, key: string): string {
    if key in r.form then r.form[key] else ""
  }

  /** `r.URL.Query().Get(key)`: the empty string when the key is absent. */
  function QueryValue(u: Url, key: string): string {
    if key in u.query then u.query[key] else ""
  }
}
