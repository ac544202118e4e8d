# auth-proxy: a Dafny model of the session-gated reverse proxy

auth-proxy puts a login page in front of an upstream web application. A request
reaches the upstream only when its `auth-session` cookie holds
`authenticated = true`. Every other request on the gated route (any path outside `/auth/login`,
`/auth/logout` and `/static/`) is redirected to `/auth/login`, and
the originally requested URL travels along as the `redirect` parameter. A login
with the configured username and password (or bcrypt hash) stores
`authenticated` and `username` in the session. Logout sets `authenticated` to
false and expires the cookie.

This project models the decision logic of that pipeline as pure Dafny functions
over immutable values:

- `Wrappers`: `Option` and `Result`.
- `Strings`: the `strings` functions the code relies on (`TrimPrefix`,
  `HasPrefix`, `HasSuffix`, `Index`, and `Replace` with a count of one), with
  proofs about the first occurrence.
- `Sessions`: the gorilla session shape (`Value`, `Options`, `Session`) and the
  result of a store lookup (`Lookup = Loaded(values) | Failed(values)`). A
  request without the cookie is `Loaded` with no values. A cookie the store
  cannot decode is `Failed`: the library reports an error but still hands back
  a fresh session. The session's options are always a copy of the store's, so
  every cookie the handlers write carries the options `NewAuthProxy` set.
- `Http`: requests, handler responses (`Outcome` plus the session cookie
  written, if any), and `Env`. `Env` holds the library behaviour for one
  request, given as parameters: bcrypt comparison, the store lookup, whether
  `Save` succeeds, `url.QueryEscape`, `template.JSEscapeString`, the embedded
  file system, and `http.DetectContentType`.
- `Auth`: `internal/auth/auth.go`. This covers configuration, `NewAuthProxy`,
  `ValidateCredentials`, `CreateSession`, `DestroySession`, `IsAuthenticated`,
  `RedirectToLogin` and `AuthMiddleware`.
- `Handlers`: `internal/handlers/handlers.go`. This covers login, logout,
  the proxy hand-off, static files, and the login page's script injection.
- `Base64`: the standard base64 encoding with padding (section 4 of RFC 4648),
  used for the generated cookie secret. It comes with a decoder that shows the
  encoding is injective.
- `Startup`: `cmd/authproxy/main.go`. This covers the start-up guards, the
  cookie-secret default, the route table, and one request through the router.

`HandleProxy` returns the outcome `Forwarded(request)`, which stands for
handing the request, unchanged, to `httputil.ReverseProxy`. Whatever the
upstream answers is outside the model.

The model follows the code also where a hardened gateway would behave differently:

- The post-login `redirect` value is used verbatim, with no same-origin check.
  `Handlers.LoginRedirectIsNotConfined` exhibits this.
- The cookie's `Secure` flag (false) and the cookie's Max-Age (7 days) are
  hard-coded, not configurable. The store's own expiry of the signed
  timestamp is left at the library's default, which the proxy never sets.
- The store gets a single key, so the cookie is signed but not encrypted: the
  client can read the `authenticated` and `username` values.
- `DestroySession` reports an error when saving fails. Logout still always
  redirects.
- A browser still holding a cookie the store cannot decode (for example one
  signed with the generated secret of an earlier run) gets 500 "Internal server
  error" on every correct login, because `CreateSession` stops at the lookup
  error. Logout does not stop there and replaces the cookie.
  `Handlers.UndecodableCookieBlocksLogin` shows both halves.

## Model

| member | source | states |
|---|---|---|
| `Auth.NewAuthProxy` | internal/auth/auth.go:33-54 | fails exactly when the target URL does not parse; on success keeps the config and secret, and sets cookie options Path `/`, MaxAge 604800, HttpOnly, not Secure |
| `Auth.ValidateCredentials` | internal/auth/auth.go:67-79 | a different username is always rejected; with a hash configured the answer is bcrypt's; otherwise the password must equal the configured one exactly |
| `Auth.PlaintextIgnoredWithHash` | internal/auth/auth.go:72-78 | with a hash configured, changing the plaintext password never changes the verdict |
| `Auth.Authenticate` | internal/auth/auth.go:89-90 | the session gets `authenticated = true` and `username = Str(username)`; all other keys and the options are unchanged |
| `Auth.Revoke` | internal/auth/auth.go:108-109 | the session gets `authenticated = false` and MaxAge -1; other keys and the other options are unchanged |
| `Auth.CreateSession` | internal/auth/auth.go:82-98 | a failed lookup returns an error and saves nothing; a failed save returns an error and writes no cookie; otherwise the cookie written is authenticated for the user, other keys unchanged, with the store's options |
| `Auth.DestroySession` | internal/auth/auth.go:101-117 | a failed lookup does not stop the logout; an error is returned only when saving fails; the saved session is unauthenticated, other keys unchanged, with the store's options except MaxAge -1 |
| `Auth.IsAuthenticated` | internal/auth/auth.go:120-129 | false when the lookup failed; otherwise true iff `authenticated` is present and is the boolean true (a string or other value gives false) |
| `Auth.CreatedSessionAuthenticates` | internal/auth/auth.go:82-129 | a session saved by a successful login authenticates a later request that presents it |
| `Auth.DestroyedSessionNeverAuthenticates` | internal/auth/auth.go:101-129 | a session saved by logout never authenticates, whatever the lookup returned |
| `Auth.DestroyIdempotent` | internal/auth/auth.go:101-117 | logging out an already logged-out session saves the same session again |
| `Auth.RedirectToLogin` | internal/auth/auth.go:132-135 | a 302 with no cookie to `/auth/login?redirect=` followed by the escaped request URL |
| `Auth.AuthMiddleware` | internal/auth/auth.go:138-146 | authenticated: exactly the response of `next` on the same request; otherwise a 302 to the login URL carrying the escaped request URL, with no cookie |
| `Auth.GateIgnoresNextWhenUnauthenticated` | internal/auth/auth.go:139-143 | for an unauthenticated request the result does not depend on `next` and is never a forward |
| `Strings.TrimPrefix` | internal/handlers/handlers.go:76 | when `s` starts with the prefix, `s` is the prefix followed by the result; otherwise the result is `s` |
| `Strings.IndexOf` | internal/handlers/handlers.go:139 | the position found holds the pattern and no earlier position does; none found means the pattern occurs nowhere |
| `Strings.ReplaceFirst` | internal/handlers/handlers.go:139 | without an occurrence the text is unchanged; with one the length changes by the difference of the two strings |
| `Strings.ReplaceFirstAt` | internal/handlers/handlers.go:139 | when no occurrence starts inside `prefix`, replacing in `prefix + old + rest` gives `prefix + new + rest` |
| `Strings.ReplaceFirstSplits` | internal/handlers/handlers.go:139 | every string containing the pattern splits at its first occurrence, and the replacement lands exactly there |
| `Strings.FirstOccurrenceAfterClean` | internal/handlers/handlers.go:139 | for a pattern whose first character does not recur, a prefix free of it is followed by the first occurrence |
| `Handlers.ConfigScript` | internal/handlers/handlers.go:130-135 | a `<script>` element, 76 characters plus the two escaped strings, assigning `window.AUTH_CONFIG`; the escaped title sits inside the JS string literal after `title: "`, and the escaped message inside the one after `", error: "`, each closed by a `"` |
| `Handlers.InjectConfig` | internal/handlers/handlers.go:138-139 | a page without `</head>` is returned unchanged; otherwise exactly the script's length is added |
| `Handlers.InjectBeforeFirstHeadClose` | internal/handlers/handlers.go:138-139 | for `prefix + "</head>" + rest` with no `</head>` in `prefix`, the output is `prefix + script + "</head>" + rest`; later `</head>` tags are untouched |
| `Handlers.InjectSplitsAtFirstHeadClose` | internal/handlers/handlers.go:138-139 | every page containing `</head>` splits that way at its first occurrence |
| `Handlers.RenderLogin` | internal/handlers/handlers.go:112-143 | a missing or unreadable index page gives the source's 500 messages; otherwise an HTML page with the configuration script injected; never a cookie |
| `Handlers.HandleLogin` | internal/handlers/handlers.go:27-56 | GET renders with an empty error; bad credentials render "Invalid username or password"; a session failure gives 500 "Internal server error" with no cookie; success gives a 302 to `redirect` or `/`; a cookie is set only after valid credentials, it authenticates the submitted username, keeps the other session keys, and carries the store's options |
| `Handlers.LoginGetTouchesNoCredentials` | internal/handlers/handlers.go:28-31 | a GET's response depends on neither the request's form nor bcrypt nor the session store, and sets no cookie |
| `Handlers.LoginRedirectIsNotConfined` | internal/handlers/handlers.go:50-55 | after a successful login, `redirect=https://evil.example/phish` is followed as given |
| `Handlers.HandleLogout` | internal/handlers/handlers.go:59-66 | always a 302 to `/auth/login`; a cookie is written exactly when the save succeeds, and it is unauthenticated, keeps the other keys, and has the store's options with MaxAge -1 |
| `Handlers.CookiesCarryStoreOptions` | internal/auth/auth.go:39-45 | on a proxy built by `NewAuthProxy`, a login cookie has Path `/`, MaxAge 604800, HttpOnly, not Secure; a logout cookie the same with MaxAge -1 |
| `Handlers.UndecodableCookieBlocksLogin` | internal/handlers/handlers.go:43-47 | with a cookie the store cannot decode, a correct login POST gets 500 "Internal server error" and no cookie, while logout writes a fresh cookie when the save succeeds |
| `Handlers.HandleProxy` | internal/handlers/handlers.go:69-71 | the request is handed on unchanged and no cookie is written |
| `Handlers.StaticPath` | internal/handlers/handlers.go:76-79 | after trimming `/static`, an empty path or `/` becomes `/index.html` and any other path is kept; never `""` or `/` |
| `Handlers.FsName` | internal/handlers/handlers.go:81 | one leading `/` is removed; a path without one is used as it is |
| `Handlers.StaticFileName` | internal/handlers/handlers.go:76-81 | for `/static/` + `rest`, the embedded file opened is `rest`, or `index.html` when `rest` is empty |
| `Handlers.ContentType` | internal/handlers/handlers.go:97-106 | `.html`, `.css` and `.js` paths get text/html, text/css and application/javascript; any other path gets the sniffed type of the content |
| `Handlers.HandleStaticFiles` | internal/handlers/handlers.go:74-109 | a missing file gives 404; a read failure gives 500 "Error reading file"; otherwise the content with its content type; never a cookie |
| `Base64.Encode` | cmd/authproxy/main.go:68 | the encoding has four characters per started group of three bytes |
| `Base64.EncodeTestVectors` | cmd/authproxy/main.go:68 | the seven test vectors of section 10 of RFC 4648, from "" to "Zm9vYmFy" |
| `Base64.EncodeUsesAlphabet` | cmd/authproxy/main.go:68 | every character of an encoding is an alphabet digit or `=` |
| `Base64.DecodeEncode` | cmd/authproxy/main.go:68 | decoding an encoding gives back the original bytes |
| `Startup.GenerateRandomSecret` | cmd/authproxy/main.go:63-69 | the secret has 44 characters from the base64 alphabet and determines the 32 random bytes |
| `Startup.WithCookieSecret` | cmd/authproxy/main.go:25-28 | a non-empty secret is kept; an empty one becomes a 44-character generated secret, or start-up fails when no random bytes could be read; no other field changes |
| `Startup.Start` | cmd/authproxy/main.go:16-48 | start-up is fatal before `ListenAndServe` is reached iff parsing fails, secret generation fails, both password forms are empty, or the target does not parse; when listening, a credential and a secret are present and the config is the parsed one apart from the secret |
| `Startup.RunningPlaintextRejectsEmptyPassword` | cmd/authproxy/main.go:31-33 | a running proxy in plaintext mode never accepts the empty password |
| `Startup.AuthPathsAreNotStatic` | cmd/authproxy/main.go:51-55 | neither `/auth/login` nor `/auth/logout` starts with `/static/` |
| `Startup.RouteFor` | cmd/authproxy/main.go:51-58 | GET or POST on `/auth/login` and `/auth/logout` go to the login and logout handlers; `/static/` paths go to the static handler; every other path goes through the gate |
| `Startup.Serve` | cmd/authproxy/main.go:48-60 | a forwarded request is always the unchanged request, on the gated route, with an authenticated session; an unauthenticated gated request gets the login redirect |
| `Startup.UnauthenticatedNeverForwarded` | cmd/authproxy/main.go:55-58 | without an authenticated session no path reaches the upstream |
| `Startup.ReportWithoutSessionRedirects` | internal/auth/auth.go:132-135 | GET `/reports/2024` without an authenticated session (no cookie, no `authenticated = true`, or an undecodable cookie) is redirected to `/auth/login?redirect=%2Freports%2F2024`, assuming that escaping |
| `Startup.LoginWithDashboardRedirect` | internal/handlers/handlers.go:49-55 | a POST to `/auth/login?redirect=/dashboard` with accepted credentials, in either password mode, is redirected there with a cookie authenticated for the submitted username |

## Left out

- Startup.Start: the fatal `log.Fatal(http.ListenAndServe(...))` at the end of main (a port that cannot be bound, say) is network I/O and is not modelled; `Listening` means `ListenAndServe` is reached, not that it succeeds.
- Cookie signing (an HMAC keyed by the secret; with one key there is no encryption), encoding and the library's timestamp check are done by gorilla/sessions and securecookie. They are not modelled. The store's answer for a request (`Lookup`) and whether `Save` succeeds are inputs. No theorem about tamper detection or expiry is claimed.
- bcrypt is the uninterpreted parameter `bcryptMatches`. Its timing behaviour is not modelled.
- The forwarding done by `httputil.ReverseProxy` is network I/O: streaming, header rewriting, and upstream failures (502). `HandleProxy` is only the `Forwarded` outcome.
- `url.QueryEscape`, `url.Parse`, `template.JSEscapeString`, `http.DetectContentType`, `crypto/rand` and the configuration parser are parameters. A parse of the configuration is an `Option<Config>`. The random bytes are an `Option` of 32 bytes.
- Response writing is abstracted. `http.Redirect` normalises relative locations, and this is not modelled: the location is the argument passed to it. The headers and trailing newline of `http.Error` and the header map are not modelled. File contents are strings whose characters stand for bytes.
- The router is modelled only for the routes the code declares. Methods other than GET/POST on `/auth/login` and `/auth/logout` give `None`. The router's cleaning of non-canonical paths is not modelled.
- Log output, `GetConfig`, `GetProxy` and `NewHandler` are left out. The last three are accessors or constructors without logic.
- `internal/templates/templates.go` and the React UI are not part of this model. The UI form posts to the bare `/auth/login`, so in practice no `redirect` value reaches the POST.
- Concurrency of request handling is not modelled. Every function describes one request.
