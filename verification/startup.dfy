/**
  Process start-up and routing: the guards that stop the process before it
  listens, the cookie-secret default, and the route table that decides which
  requests pass through the authentication gate.
 */
module Startup {
  import opened Wrappers
  import opened Strings
  import opened Sessions
  import opened Http
  import opened Auth
  import opened Handlers
  import opened Base64

  /** The 32 bytes `crypto/rand` fills in for a generated secret. */
  type SecretBytes = s: seq<byte> | |s| == 32 witness seq(32, i => 0)

  /**
    generateRandomSecret: the base64 text of 32 random bytes. It is 44
    characters of the base64 alphabet and determines the bytes it came from.
   */
  function GenerateRandomSecret(random: SecretBytes): (secret: string)
    ensures |secret| == 44
    ensures forall i :: 0 <= i < |secret| ==> IsEncodingChar(secret[i])
    ensures Decode(secret) == Some(random)
  {
    assert |Encode(random)| == 4 * ((32 + 2) / 3) == 44;
    EncodeUsesAlphabet(random);
    DecodeEncode(random);
    Encode(random)
  }

  /** Why the process stops before it starts listening. */
  datatype FatalError = ConfigError | SecretGenerationFailed | MissingPassword | InvalidTarget

  /** How start-up ends: a fatal log line, or listening with a proxy on a port. */
  datatype Launch = Fatal(reason: FatalError) | Listening(proxy: AuthProxy, port: string)

  /**
    The cookie-secret default: an empty secret is replaced by a generated one
    (`random` is `None` when reading random bytes fails); a given secret is kept.
   */
  function WithCookieSecret(config: Config, random: Option<SecretBytes>): (r: Result<Config, FatalError>)
    ensures config.cookieSecret != "" ==> r == Ok(config)
    ensures config.cookieSecret == "" ==> (r.Err? <==> random.None?)
    ensures r.Err? ==> r.error == SecretGenerationFailed
    ensures r.Ok? ==> r.value.(cookieSecret := config.cookieSecret) == config
    ensures r.Ok? && config.cookieSecret == "" ==>
              |r.value.cookieSecret| == 44 && Decode(r.value.cookieSecret) == Some(random.value)
  {
    if config.cookieSecret != "" then Ok(config)
    else match random
      case None => Err(SecretGenerationFailed)
      case Some(bytes) => Ok(config.(cookieSecret := GenerateRandomSecret(bytes)))
  }

  /** At least one credential form is configured. */
  predicate HasCredential(config: Config) {
    config.password != "" || config.passwordHash != ""
  }

  /**
    main up to `ListenAndServe`. `parsed` is the configuration parser's result
    (`None` on its error), `random` the random bytes (if reading them worked)
    and `parses` whether `url.Parse` accepts a string. The steps run in the
    source's order: parse, secret default, credential presence, proxy creation.
   */
  function Start(parsed: Option<Config>, random: Option<SecretBytes>, parses: string -> bool): (l: Launch)
    ensures parsed.None? ==> l == Fatal(ConfigError)
    ensures l.Fatal? <==>
              || parsed.None?
              || (parsed.value.cookieSecret == "" && random.None?)
              || !HasCredential(parsed.value)
              || !parses(parsed.value.target)
    ensures l.Listening? ==>
              var c := l.proxy.config;
              && HasCredential(c)
              && c.cookieSecret != ""
              && c.(cookieSecret := parsed.value.cookieSecret) == parsed.value
              && (parsed.value.cookieSecret != "" ==> c.cookieSecret == parsed.value.cookieSecret)
              && parses(c.target)
              && l.proxy.store.options.maxAge == 604800
              && l.port == c.port
  {
    match parsed
    case None => Fatal(ConfigError)
    case Some(config) =>
      match WithCookieSecret(config, random)
      case Err(e) => Fatal(e)
      case Ok(config) =>
        if !HasCredential(config) then Fatal(MissingPassword)
        else
          match NewAuthProxy(config, parses)
          case Err(_) => Fatal(InvalidTarget)
          case Ok(proxy) => Listening(proxy, config.port)
  }

  /**
    In plaintext mode a running proxy never accepts an empty password: the
    start-up guard has made sure the configured one is not empty.
   */
  lemma RunningPlaintextRejectsEmptyPassword(parsed: Option<Config>, random: Option<SecretBytes>,
                                             parses: string -> bool,
                                             bcryptMatches: (string, string) -> bool, username: string)
    requires Start(parsed, random, parses).Listening?
    requires Start(parsed, random, parses).proxy.config.passwordHash == ""
    ensures !ValidateCredentials(Start(parsed, random, parses).proxy.config, bcryptMatches, username, "")
  {
  }

  const LogoutPath := "/auth/logout"
  const StaticRoutePrefix := "/static/"

  /** The handlers the router dispatches to. */
  datatype Route = Login | Logout | Static | Gated

  predicate IsGetOrPost(verb: string) {
    verb == "GET" || verb == "POST"
  }

  /** Neither auth path starts with `/static/`, so the static route never shadows them. */
  lemma AuthPathsAreNotStatic()
    ensures !HasPrefix(LoginPath, StaticRoutePrefix) && !HasPrefix(LogoutPath, StaticRoutePrefix)
  {
    assert LoginPath[1] != StaticRoutePrefix[1];
    assert LogoutPath[1] != StaticRoutePrefix[1];
  }

  /**
    The route table. `None` stands for the auth paths with a method other
    than GET or POST, whose handling by the router is not modelled.
   */
  function RouteFor(path: string, verb: string): (r: Option<Route>)
    ensures r == Some(Login) <==> path == LoginPath && IsGetOrPost(verb)
    ensures r == Some(Logout) <==> path == LogoutPath && IsGetOrPost(verb)
    ensures r == Some(Static) <==> HasPrefix(path, StaticRoutePrefix)
    ensures r == Some(Gated) <==>
              path != LoginPath && path != LogoutPath && !HasPrefix(path, StaticRoutePrefix)
    ensures r.None? <==> (path == LoginPath || path == LogoutPath) && !IsGetOrPost(verb)
  {
    AuthPathsAreNotStatic();
    if path == LoginPath then (if IsGetOrPost(verb) then Some(Login) else None)
    else if path == LogoutPath then (if IsGetOrPost(verb) then Some(Logout) else None)
    else if HasPrefix(path, StaticRoutePrefix) then Some(Static)
    else Some(Gated)
  }

  /**
    One request through the router. Only the gated route can reach the
    upstream, and only with an authenticated session.
   */
  function Serve(ap: AuthProxy, env: Env, r: Request): (resp: Option<Response>)
    ensures resp.None? <==> RouteFor(r.url.path, r.verb).None?
    ensures resp.Some? && resp.value.outcome.Forwarded? ==>
              IsAuthenticated(env.lookup) && RouteFor(r.url.path, r.verb) == Some(Gated)
              && resp.value.outcome.request == r
    ensures RouteFor(r.url.path, r.verb) == Some(Gated) && !IsAuthenticated(env.lookup) ==>
              resp == Some(Response(Redirect(StatusFound, LoginRedirectPrefix + env.queryEscape(r.url.text)), None))
    ensures RouteFor(r.url.path, r.verb) == Some(Gated) && IsAuthenticated(env.lookup) ==>
              resp == Some(Response(Forwarded(r), None))
  {
    match RouteFor(r.url.path, r.verb)
    case None => None
    case Some(Login) => Some(HandleLogin(ap, env, r))
    case Some(Logout) => Some(HandleLogout(ap, env, r))
    case Some(Static) => Some(HandleStaticFiles(env, r))
    case Some(Gated) => Some(AuthMiddleware(HandleProxy, env, r))
  }

  /** A request without a valid session is never forwarded, whatever its path. */
  lemma UnauthenticatedNeverForwarded(ap: AuthProxy, env: Env, r: Request)
    requires !IsAuthenticated(env.lookup)
    ensures Serve(ap, env, r).None? || !Serve(ap, env, r).value.outcome.Forwarded?
  {
  }

  /**
    GET /reports/2024 without an authenticated session (no cookie, a cookie
    without `authenticated = true`, or one the store cannot decode): the client is sent to the login page
    with the escaped path as the `redirect` parameter.
   */
  lemma ReportWithoutSessionRedirects(ap: AuthProxy, env: Env, r: Request)
    requires r.verb == "GET" && r.url.path == "/reports/2024" && r.url.text == "/reports/2024"
    requires !IsAuthenticated(env.lookup)
    requires env.queryEscape("/reports/2024") == "%2Freports%2F2024"
    ensures Serve(ap, env, r) == Some(Response(Redirect(302, LoginRedirectPrefix + "%2Freports%2F2024"), None))
  {
    assert r.url.path[1] != StaticRoutePrefix[1];
    assert RouteFor(r.url.path, r.verb) == Some(Gated);
  }

  /**
    POST /auth/login?redirect=/dashboard with credentials the proxy accepts
    (in either password mode): redirected to /dashboard with a session cookie
    that authenticates the submitted username.
   */
  lemma LoginWithDashboardRedirect(ap: AuthProxy, env: Env, r: Request)
    requires r.verb == "POST" && r.url.path == LoginPath
    requires r.url.query == map["redirect" := "/dashboard"]
    requires Accepted(ap, env, r)
    requires env.lookup.Loaded? && env.saves
    ensures var resp := Serve(ap, env, r);
            resp.Some? && resp.value.outcome == Redirect(302, "/dashboard")
            && resp.value.setCookie.Some? && IsAuthenticated(Loaded(resp.value.setCookie.value.values))
            && resp.value.setCookie.value.values[UsernameKey] == Str(FormValue(r, "username"))
  {
  }
}
