/**
  The authentication core: configuration, credential check, the session value
  transitions behind login and logout, and the gate that every proxied request
  passes through.
 */
module Auth {
  import opened Wrappers
  import opened Strings
  import opened Sessions
  import opened Http

  /** The configuration the process runs with; immutable once started. */
  datatype Config = Config(
    username: string,
    password: string,
    passwordHash: string,
    target: string,
    cookieSecret: string,
    loginTitle: string,
    port: string)

  /** The cookie store: the key material and the options given to new sessions. */
  datatype CookieStore = CookieStore(secret: string, options: Options)

  /** The proxy instance: its configuration, session store and upstream target. */
  datatype AuthProxy = AuthProxy(config: Config, store: CookieStore, target: string)

  /** Seven days in seconds, the hard-coded Max-Age of the session cookie. */
  const SessionMaxAge := 86400 * 7

  const LoginPath := "/auth/login"

  /** The fixed part of the location an unauthenticated request is sent to. */
  const LoginRedirectPrefix := LoginPath + "?redirect="

  /**
    Builds the proxy. `parses` says whether `url.Parse` accepts a string; a
    target it rejects is the only failure.
   */
  function NewAuthProxy(config: Config, parses: string -> bool): (r: Result<AuthProxy, string>)
    ensures r.Err? <==> !parses(config.target)
    ensures r.Ok? ==> r.value.config == config && r.value.target == config.target
    ensures r.Ok? ==> r.value.store.secret == config.cookieSecret
    ensures r.Ok? ==> var o := r.value.store.options;
                      o.path == "/" && o.maxAge == 604800 && o.httpOnly && !o.secure
  {
    if !parses(config.target) then Err("invalid target URL")
    else Ok(AuthProxy(config, CookieStore(config.cookieSecret, Options("/", SessionMaxAge, true, false)),
                      config.target))
  }

  /**
    Checks submitted credentials. A configured hash takes precedence over the
    plaintext password; `bcryptMatches(hash, pw)` stands for bcrypt's comparison.
   */
  function ValidateCredentials(config: Config, bcryptMatches: (string, string) -> bool,
                               username: string, password: string): (ok: bool)
    ensures username != config.username ==> !ok
    ensures username == config.username && config.passwordHash != "" ==>
              (ok <==> bcryptMatches(config.passwordHash, password))
    ensures username == config.username && config.passwordHash == "" ==>
              (ok <==> password == config.password)
  {
    if username != config.username then false
    else if config.passwordHash != "" then bcryptMatches(config.passwordHash, password)
    else password == config.password
  }

  /** With a hash configured, the plaintext password plays no part at all. */
  lemma PlaintextIgnoredWithHash(config: Config, other: string, bcryptMatches: (string, string) -> bool,
                                 username: string, password: string)
    requires config.passwordHash != ""
    ensures ValidateCredentials(config, bcryptMatches, username, password)
         == ValidateCredentials(config.(password := other), bcryptMatches, username, password)
  {
  }

  /** The values a successful login stores in the session. */
  function Authenticate(s: Session, username: string): (s': Session)
    ensures AuthenticatedKey in s'.values && s'.values[AuthenticatedKey] == Bool(true)
    ensures UsernameKey in s'.values && s'.values[UsernameKey] == Str(username)
    ensures SameExcept(s.values, s'.values, {AuthenticatedKey, UsernameKey})
    ensures s'.options == s.options
  {
    s.(values := s.values[AuthenticatedKey := Bool(true)][UsernameKey := Str(username)])
  }

  /** The values logout stores: not authenticated, and a cookie that expires now. */
  function Revoke(s: Session): (s': Session)
    ensures AuthenticatedKey in s'.values && s'.values[AuthenticatedKey] == Bool(false)
    ensures s'.options.maxAge == -1
    ensures SameExcept(s.values, s'.values, {AuthenticatedKey})
    ensures s'.options.path == s.options.path && s'.options.httpOnly == s.options.httpOnly
            && s'.options.secure == s.options.secure
  {
    Session(s.values[AuthenticatedKey := Bool(false)], s.options.(maxAge := -1))
  }

  datatype SessionError = GetFailed | SaveFailed

  /**
    The effect of a session operation: the session written to the response's
    cookie (only when the save succeeded) and the error returned, if any.
   */
  datatype SaveResult = SaveResult(cookie: Option<Session>, err: Option<SessionError>)

  /** The session `store.Get` hands out: the values it found, with the store's options. */
  function StoreSession(store: CookieStore, lookup: Lookup): Session {
    Session(lookup.values, store.options)
  }

  /** Marks the request's session authenticated for `username` and saves it. */
  function CreateSession(store: CookieStore, lookup: Lookup, username: string, saves: bool): (r: SaveResult)
    ensures r.cookie.Some? <==> r.err.None?
    ensures lookup.Failed? ==> r.err == Some(GetFailed)
    ensures lookup.Loaded? && !saves ==> r.err == Some(SaveFailed)
    ensures lookup.Loaded? && saves ==> r.err.None?
    ensures r.cookie.Some? ==>
              var c := r.cookie.value;
              && AuthenticatedKey in c.values && c.values[AuthenticatedKey] == Bool(true)
              && UsernameKey in c.values && c.values[UsernameKey] == Str(username)
              && SameExcept(lookup.values, c.values, {AuthenticatedKey, UsernameKey})
              && c.options == store.options
  {
    match lookup
    case Failed(_) => SaveResult(None, Some(GetFailed))
    case Loaded(_) =>
      if saves then SaveResult(Some(Authenticate(StoreSession(store, lookup), username)), None)
      else SaveResult(None, Some(SaveFailed))
  }

  /**
    Revokes the request's session. A failed lookup does not stop it: the
    session the store returned anyway is revoked and saved.
   */
  function DestroySession(store: CookieStore, lookup: Lookup, saves: bool): (r: SaveResult)
    ensures r.err.None? <==> saves
    ensures r.err != Some(GetFailed)
    ensures r.cookie.Some? <==> saves
    ensures r.cookie.Some? ==>
              var c := r.cookie.value;
              && AuthenticatedKey in c.values && c.values[AuthenticatedKey] == Bool(false)
              && SameExcept(lookup.values, c.values, {AuthenticatedKey})
              && c.options == store.options.(maxAge := -1)
  {
    if saves then SaveResult(Some(Revoke(StoreSession(store, lookup))), None)
    else SaveResult(None, Some(SaveFailed))
  }

  /** The request is authenticated iff its session holds the boolean `true`. */
  function IsAuthenticated(lookup: Lookup): (b: bool)
    ensures lookup.Failed? ==> !b
    ensures lookup.Loaded? ==>
              (b <==> AuthenticatedKey in lookup.values && lookup.values[AuthenticatedKey] == Bool(true))
  {
    match lookup
    case Failed(_) => false
    case Loaded(values) =>
      AuthenticatedKey in values && values[AuthenticatedKey].Bool? && values[AuthenticatedKey].b
  }

  /** A session saved by a successful login authenticates the next request. */
  lemma CreatedSessionAuthenticates(store: CookieStore, values: map<string, Value>, username: string)
    ensures CreateSession(store, Loaded(values), username, true).cookie.Some?
    ensures IsAuthenticated(Loaded(CreateSession(store, Loaded(values), username, true).cookie.value.values))
  {
  }

  /** A session saved by logout never authenticates, whatever it held before. */
  lemma DestroyedSessionNeverAuthenticates(store: CookieStore, lookup: Lookup)
    ensures DestroySession(store, lookup, true).cookie.Some?
    ensures !IsAuthenticated(Loaded(DestroySession(store, lookup, true).cookie.value.values))
  {
  }

  /** Logging out a session that was already logged out changes nothing further. */
  lemma DestroyIdempotent(store: CookieStore, lookup: Lookup)
    ensures var once := DestroySession(store, lookup, true).cookie.value;
            DestroySession(store, Loaded(once.values), true).cookie == Some(once)
  {
    var once := Revoke(StoreSession(store, lookup));
    assert Revoke(StoreSession(store, Loaded(once.values))).values == once.values;
  }

  /** The redirect to the login page, carrying the escaped request URL. */
  function RedirectToLogin(r: Request, queryEscape: string -> string): (resp: Response)
    ensures resp.setCookie.None?
    ensures resp.outcome.Redirect? && resp.outcome.status == StatusFound
    ensures HasPrefix(resp.outcome.location, LoginRedirectPrefix)
    ensures TrimPrefix(resp.outcome.location, LoginRedirectPrefix) == queryEscape(r.url.text)
  {
    Response(Redirect(StatusFound, LoginRedirectPrefix + queryEscape(r.url.text)), None)
  }

  /**
    The gate: an authenticated request goes to `next` untouched; any other
    request is redirected to the login page and `next` is not consulted.
   */
  function AuthMiddleware(next: Request -> Response, env: Env, r: Request): (resp: Response)
    ensures IsAuthenticated(env.lookup) ==> resp == next(r)
    ensures !IsAuthenticated(env.lookup) ==>
              resp.setCookie.None? && resp.outcome.Redirect? && resp.outcome.status == StatusFound
              && resp.outcome.location == LoginRedirectPrefix + env.queryEscape(r.url.text)
  {
    if !IsAuthenticated(env.lookup) then RedirectToLogin(r, env.queryEscape)
    else next(r)
  }

  /** For an unauthenticated request the gate's answer does not depend on `next`. */
  lemma GateIgnoresNextWhenUnauthenticated(next: Request -> Response, next': Request -> Response,
                                           env: Env, r: Request)
    requires !IsAuthenticated(env.lookup)
    ensures AuthMiddleware(next, env, r) == AuthMiddleware(next', env, r)
    ensures !AuthMiddleware(next, env, r).outcome.Forwarded?
  {
  }
}
