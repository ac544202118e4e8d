/**
  The shape of a gorilla/sessions session as the proxy uses it: a map of values
  and the cookie options. The cookie's signing (an HMAC keyed by the secret; with
  the single key the proxy gives the store there is no encryption, so the values
  are readable by the client), its encoding and the library's timestamp check
  are not modelled; what the library hands back for a request is an input
  (`Lookup`).
 */
module Sessions {

  /** A session value; the proxy stores only booleans and strings. */
  datatype Value = Bool(b: bool) | Str(s: string) | Other

  /** Cookie options (`sessions.Options`); only the fields the proxy sets. */
  datatype Options = Options(path: string, maxAge: int, httpOnly: bool, secure: bool)

  datatype Session = Session(values: map<string, Value>, options: Options)

  /**
    The values `store.Get(r, "auth-session")` finds for a request. A request
    without the cookie gets a fresh session and no error (`Loaded` with no
    values); a cookie the store cannot decode is an error, and the library
    still returns a fresh session (`Failed`). The options of either session are
    always a copy of the store's, so they are not part of the lookup.
   */
  datatype Lookup = Loaded(values: map<string, Value>) | Failed(values: map<string, Value>)

  const AuthenticatedKey := "authenticated"
  const UsernameKey := "username"

  /** `m` and `m'` agree on every key except those in `changed`. */
  ghost predicate SameExcept(m: map<string, Value>, m': map<string, Value>, changed: set<string>) {
    forall k :: k !in changed ==> (k in m <==> k in m') && (k in m ==> m[k] == m'[k])
  }
}
