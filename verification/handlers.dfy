/**
  The HTTP handlers: login, logout, the forward to the upstream, the static UI
  files, and the login page with its injected configuration script.
 */
module Handlers {
  import opened Wrappers
  import opened Strings
  import opened Sessions
  import opened Http
  import opened Auth

  const InvalidCredentialsMessage := "Invalid username or password"
  const InternalErrorMessage := "Internal server error"
  const HeadClose := "</head>"
  const IndexFile := "index.html"
  const StaticPrefix := "/static"

  /**
    The script that hands the login title and error message to the UI: a
    `<script>` element whose only variable parts are the two escaped strings.
   */
  function ConfigScript(title: string, errorMsg: string, jsEscape: string -> string): (script: string)
    ensures HasPrefix(script, "<script>") && HasSuffix(script, "</script>")
    ensures |script| == 76 + |jsEscape(title)| + |jsEscape(errorMsg)|
    ensures OccursAt(script, jsEscape(title), 45)
    ensures OccursAt(script, jsEscape(errorMsg), 59 + |jsEscape(title)|)
    ensures OccursAt(script, "window.AUTH_CONFIG = {", 11)
    ensures OccursAt(script, "title: \"", 37)
    ensures OccursAt(script, "\",\n\t\t\terror: \"", 45 + |jsEscape(title)|)
    ensures OccursAt(script, "\"\n\t\t};", 59 + |jsEscape(title)| + |jsEscape(errorMsg)|)
  {
    var lead := "\n\t\t" + "window.AUTH_CONFIG = {" + "\n\t\t\t" + "title: \"";
    var middle := "\",\n\t\t\terror: \"";
    var tail := "\"\n\t\t};" + "\n\t";
    Layout("\n\t\t", "", "window.AUTH_CONFIG = {", "\n\t\t\t", "title: \"", "", "");
    Layout("", "", "\"\n\t\t};", "\n\t", "", "", "");
    Layout("<script>", lead, jsEscape(title), middle, jsEscape(errorMsg), tail, "</script>");
    var script := "<script>" + lead + jsEscape(title) + middle + jsEscape(errorMsg) + tail + "</script>";
    OccursWithin(script, lead, 8, "window.AUTH_CONFIG = {", 3);
    OccursWithin(script, lead, 8, "title: \"", 29);
    OccursWithin(script, tail, 59 + |jsEscape(title)| + |jsEscape(errorMsg)|, "\"\n\t\t};", 0);
    script
  }

  /** Puts `script` in front of the first `</head>` of `page`, if there is one. */
  function InjectConfig(page: string, script: string): (r: string)
    ensures !Contains(page, HeadClose) ==> r == page
    ensures Contains(page, HeadClose) ==> |r| == |page| + |script|
  {
    ReplaceFirst(page, HeadClose, script + HeadClose)
  }

  /**
    The script lands right before the first `</head>`: everything before it is
    kept, as is everything after it, including any later `</head>`.
   */
  lemma InjectBeforeFirstHeadClose(prefix: string, rest: string, script: string)
    requires !Contains(prefix, HeadClose)
    ensures InjectConfig(prefix + HeadClose + rest, script) == prefix + script + HeadClose + rest
  {
    FirstOccurrenceAfterClean(prefix, HeadClose, rest);
    ReplaceFirstAt(prefix, HeadClose, rest, script + HeadClose);
  }

  /** Every page holding `</head>` is of the shape the previous lemma describes. */
  lemma InjectSplitsAtFirstHeadClose(page: string, script: string)
    requires Contains(page, HeadClose)
    ensures exists prefix, rest :: page == prefix + HeadClose + rest && !Contains(prefix, HeadClose)
                                   && InjectConfig(page, script) == prefix + script + HeadClose + rest
  {
    ReplaceFirstSplits(page, HeadClose, script + HeadClose);
    var prefix, rest :| page == prefix + HeadClose + rest && NoneBefore(page, HeadClose, |prefix|)
                        && ReplaceFirst(page, HeadClose, script + HeadClose) == prefix + (script + HeadClose) + rest;
    assert page[..|prefix|] == prefix;
    CleanBeforeFirst(page, HeadClose, prefix);
    Regroup(prefix, script, HeadClose, rest);
  }

  /** renderLogin: the UI's index page with the configuration script injected. */
  function RenderLogin(config: Config, errorMsg: string, env: Env): (resp: Response)
    ensures resp.setCookie.None?
    ensures env.open(IndexFile).Missing? ==>
              resp.outcome == Error(StatusInternalServerError, "Login page not found")
    ensures env.open(IndexFile).ReadFailed? ==>
              resp.outcome == Error(StatusInternalServerError, "Error loading login page")
    ensures env.open(IndexFile).Content? ==>
              resp.outcome.Page? && resp.outcome.contentType == "text/html"
              && resp.outcome.body
                 == InjectConfig(env.open(IndexFile).data, ConfigScript(config.loginTitle, errorMsg, env.jsEscape))
  {
    match env.open(IndexFile)
    case Missing => Response(Error(StatusInternalServerError, "Login page not found"), None)
    case ReadFailed => Response(Error(StatusInternalServerError, "Error loading login page"), None)
    case Content(page) =>
      var script := ConfigScript(config.loginTitle, errorMsg, env.jsEscape);
      Response(Page("text/html", InjectConfig(page, script)), None)
  }

  /** The submitted username and password pass the credential check. */
  predicate Accepted(ap: AuthProxy, env: Env, r: Request) {
    ValidateCredentials(ap.config, env.bcryptMatches, FormValue(r, "username"), FormValue(r, "password"))
  }

  /**
    HandleLogin. GET renders the page; any other method is a login attempt:
    bad credentials re-render with an error, a session failure is a 500, and
    success redirects to the `redirect` query value (verbatim) or to `/`.
   */
  function HandleLogin(ap: AuthProxy, env: Env, r: Request): (resp: Response)
    ensures r.verb == "GET" ==> resp == RenderLogin(ap.config, "", env)
    ensures r.verb != "GET" && !Accepted(ap, env, r) ==>
              resp == RenderLogin(ap.config, InvalidCredentialsMessage, env)
    ensures r.verb != "GET" && Accepted(ap, env, r) && !(env.lookup.Loaded? && env.saves) ==>
              resp == Response(Error(StatusInternalServerError, InternalErrorMessage), None)
    ensures r.verb != "GET" && Accepted(ap, env, r) && env.lookup.Loaded? && env.saves ==>
              resp.outcome.Redirect?
    ensures resp.outcome.Redirect? ==>
              && resp.outcome.status == StatusFound
              && resp.outcome.location
                 == (if QueryValue(r.url, "redirect") == "" then "/" else QueryValue(r.url, "redirect"))
              && resp.setCookie.Some?
    ensures resp.setCookie.Some? ==>
              && r.verb != "GET" && Accepted(ap, env, r)
              && IsAuthenticated(Loaded(resp.setCookie.value.values))
              && UsernameKey in resp.setCookie.value.values
              && resp.setCookie.value.values[UsernameKey] == Str(FormValue(r, "username"))
              && SameExcept(env.lookup.values, resp.setCookie.value.values, {AuthenticatedKey, UsernameKey})
              && resp.setCookie.value.options == ap.store.options
    ensures !resp.outcome.Forwarded?
  {
    if r.verb == "GET" then RenderLogin(ap.config, "", env)
    else
      var username := FormValue(r, "username");
      var password := FormValue(r, "password");
      if !ValidateCredentials(ap.config, env.bcryptMatches, username, password) then
        RenderLogin(ap.config, InvalidCredentialsMessage, env)
      else
        var created := CreateSession(ap.store, env.lookup, username, env.saves);
        if created.err.Some? then
          Response(Error(StatusInternalServerError, InternalErrorMessage), None)
        else
          var target := QueryValue(r.url, "redirect");
          Response(Redirect(StatusFound, if target == "" then "/" else target), created.cookie)
  }

  /**
    A GET of the login page depends only on the page and the title: neither
    the credentials, the session store nor anything else about the request.
   */
  lemma LoginGetTouchesNoCredentials(ap: AuthProxy, env: Env, env': Env, r: Request, r': Request)
    requires r.verb == "GET" && r'.verb == "GET"
    requires env'.open == env.open && env'.jsEscape == env.jsEscape
    ensures HandleLogin(ap, env, r) == HandleLogin(ap, env', r')
    ensures HandleLogin(ap, env, r).setCookie.None?
  {
  }

  /**
    The redirect target is not checked: after a successful login the client is
    sent to whatever absolute URL the query named.
   */
  lemma LoginRedirectIsNotConfined(ap: AuthProxy, env: Env, r: Request)
    requires r.verb == "POST" && Accepted(ap, env, r)
    requires env.lookup.Loaded? && env.saves
    requires r.url.query == map["redirect" := "https://evil.example/phish"]
    ensures HandleLogin(ap, env, r).outcome == Redirect(StatusFound, "https://evil.example/phish")
  {
  }

  /** HandleLogout: always back to the login page, whatever happened to the session. */
  function HandleLogout(ap: AuthProxy, env: Env, r: Request): (resp: Response)
    ensures resp.outcome == Redirect(StatusFound, LoginPath)
    ensures resp.setCookie.Some? <==> env.saves
    ensures resp.setCookie.Some? ==>
              && !IsAuthenticated(Loaded(resp.setCookie.value.values))
              && SameExcept(env.lookup.values, resp.setCookie.value.values, {AuthenticatedKey})
              && resp.setCookie.value.options == ap.store.options.(maxAge := -1)
  {
    var destroyed := DestroySession(ap.store, env.lookup, env.saves);
    Response(Redirect(StatusFound, LoginPath), destroyed.cookie)
  }

  /** HandleProxy: the request is handed to the reverse proxy as it is. */
  function HandleProxy(r: Request): (resp: Response)
    ensures resp.outcome.Forwarded? && resp.outcome.request == r
    ensures resp.setCookie.None?
  {
    Response(Forwarded(r), None)
  }

  /**
    The cookies the handlers write carry the options the proxy gives its
    store: Path `/`, HttpOnly, not Secure, and seven days for a login or an
    immediate expiry for a logout.
   */
  lemma CookiesCarryStoreOptions(config: Config, parses: string -> bool, env: Env, r: Request)
    requires NewAuthProxy(config, parses).Ok?
    ensures var ap := NewAuthProxy(config, parses).value;
            var login, logout := HandleLogin(ap, env, r), HandleLogout(ap, env, r);
            && (login.setCookie.Some? ==> login.setCookie.value.options == Options("/", 604800, true, false))
            && (logout.setCookie.Some? ==> logout.setCookie.value.options == Options("/", -1, true, false))
  {
  }

  /**
    A browser holding a cookie the store cannot decode (signed with an earlier
    secret, say) gets a 500 on every correct login, because `CreateSession`
    stops at the lookup error. Logout does not stop there, so it replaces the
    cookie whenever the save succeeds.
   */
  lemma UndecodableCookieBlocksLogin(ap: AuthProxy, env: Env, r: Request, r': Request)
    requires r.verb == "POST" && Accepted(ap, env, r)
    requires env.lookup.Failed? && env.saves
    ensures HandleLogin(ap, env, r) == Response(Error(StatusInternalServerError, InternalErrorMessage), None)
    ensures HandleLogout(ap, env, r').setCookie.Some?
  {
  }

  /** The file path a static request names: `/static` dropped, `/index.html` by default. */
  function StaticPath(urlPath: string): (p: string)
    ensures p != "" && p != "/"
    ensures var t := TrimPrefix(urlPath, StaticPrefix);
            && (t == "" || t == "/" ==> p == "/index.html")
            && (t != "" && t != "/" ==> p == t)
    ensures HasPrefix(urlPath, StaticPrefix) && |urlPath| > |StaticPrefix| + 1 ==>
              urlPath == StaticPrefix + p
    ensures !HasPrefix(urlPath, StaticPrefix) && urlPath != "" && urlPath != "/" ==> p == urlPath
  {
    var path := TrimPrefix(urlPath, StaticPrefix);
    if path == "" || path == "/" then "/index.html" else path
  }

  /** The name looked up in the embedded file system: one leading `/` removed. */
  function FsName(path: string): (name: string)
    ensures HasPrefix(path, "/") ==> path == "/" + name
    ensures !HasPrefix(path, "/") ==> name == path
  {
    TrimPrefix(path, "/")
  }

  /**
    Every path routed to the static handler (`/static/` + `rest`) names the
    file `rest` in the UI build, or `index.html` when `rest` is empty.
   */
  lemma StaticFileName(rest: string)
    ensures FsName(StaticPath(StaticPrefix + "/" + rest)) == (if rest == "" then IndexFile else rest)
  {
    var urlPath := StaticPrefix + "/" + rest;
    assert HasPrefix(urlPath, StaticPrefix);
    assert TrimPrefix(urlPath, StaticPrefix) == "/" + rest;
    if rest != "" {
      assert HasPrefix("/" + rest, "/");
      assert TrimPrefix("/" + rest, "/") == rest;
    }
  }

  /** The Content-Type header of a static file, by suffix of its path. */
  function ContentType(path: string, content: string, detect: string -> string): (ct: string)
    ensures HasSuffix(path, ".html") ==> ct == "text/html"
    ensures HasSuffix(path, ".css") ==> ct == "text/css"
    ensures HasSuffix(path, ".js") ==> ct == "application/javascript"
    ensures !HasSuffix(path, ".html") && !HasSuffix(path, ".css") && !HasSuffix(path, ".js") ==>
              ct == detect(content)
  {
    SuffixesExclusive(path, ".css", ".html");
    SuffixesExclusive(path, ".js", ".html");
    SuffixesExclusive(path, ".js", ".css");
    if HasSuffix(path, ".html") then "text/html"
    else if HasSuffix(path, ".css") then "text/css"
    else if HasSuffix(path, ".js") then "application/javascript"
    else detect(content)
  }

  /** HandleStaticFiles: serves one file of the UI build, or 404 / 500. */
  function HandleStaticFiles(env: Env, r: Request): (resp: Response)
    ensures resp.setCookie.None?
    ensures var path := StaticPath(r.url.path);
            match env.open(FsName(path))
            case Missing => resp.outcome == Error(StatusNotFound, "404 page not found")
            case ReadFailed => resp.outcome == Error(StatusInternalServerError, "Error reading file")
            case Content(data) =>
              resp.outcome == Page(ContentType(path, data, env.detectContentType), data)
  {
    var path := StaticPath(r.url.path);
    match env.open(FsName(path))
    case Missing => Response(Error(StatusNotFound, "404 page not found"), None)
    case ReadFailed => Response(Error(StatusInternalServerError, "Error reading file"), None)
    case Content(data) => Response(Page(ContentType(path, data, env.detectContentType), data), None)
  }
}
