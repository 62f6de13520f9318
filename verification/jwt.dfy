/** The JWT middleware of middleware/jwt/middleware.go: finds a token in the
    Authorization header, the `auth_token` cookie or the `token` query
    parameter, in that order, and lets the request through only with a valid
    HMAC-signed token whose claims are a claims map. Parsing and signature
    checking belong to golang-jwt and are an oracle here. */
module Jwt {
  import opened Bytes
  import opened HttpWire

  const StatusUnauthorized := 401
  const MissingAuthToken: Bytes := "missing auth token"
  const InvalidToken: Bytes := "invalid token"
  const InvalidClaims: Bytes := "invalid claims"

  /** The claims golang-jwt decoded: a claims map, or some other claims type. */
  datatype Claims = MapClaims(entries: map<Bytes, Bytes>) | OtherClaims

  /** What jwt.Parse reports for a token string and the secret: whether the
      token is signed with an HMAC method, whether parsing (format, signature,
      time claims) failed, whether the token is valid, and its claims. */
  datatype ParsedToken = ParsedToken(hmac: bool, parseFailed: bool, valid: bool, claims: Claims)

  /** The middleware's verdict: abort with a status and an error message, or
      store the claims under "user" and run the next handler once. */
  datatype Decision = Abort(status: int, message: Bytes) | Proceed(user: map<Bytes, Bytes>)

  /** The token a request carries. The header counts only with the "Bearer "
      prefix and a non-empty remainder; the cookie counts when present and
      non-empty; the query parameter is the last resort. */
  function TokenString(authHeader: Bytes, cookie: Option<Bytes>, query: Bytes): (t: Bytes)
    ensures HasPrefix(authHeader, Bearer) && TrimPrefix(authHeader, Bearer) != [] ==>
              Bearer + t == authHeader
    ensures t != [] && !HasPrefix(authHeader, Bearer) ==> t == (if cookie.Some? && cookie.value != [] then cookie.value else query)
    ensures t == [] <==>
              && (!HasPrefix(authHeader, Bearer) || |authHeader| == |Bearer|)
              && (cookie.None? || cookie.value == [])
              && query == []
  {
    var fromHeader := if authHeader != [] && HasPrefix(authHeader, Bearer) then TrimPrefix(authHeader, Bearer) else [];
    var fromCookie := if fromHeader == [] && cookie.Some? then cookie.value else fromHeader;
    if fromCookie == [] && query != [] then query else fromCookie
  }

  /** Middleware on one request, given the request's header, its `auth_token`
      cookie (None when absent), its `token` query value, the secret and the
      golang-jwt oracle `parse`. */
  function Middleware(header: InboundHeader, cookie: Option<Bytes>, query: Bytes, jwtSecret: Bytes,
                      parse: (Bytes, Bytes) -> ParsedToken): (d: Decision)
    ensures d.Abort? ==> d.status == StatusUnauthorized
    ensures d.Abort? && d.message == MissingAuthToken <==> TokenString(Get(header, Authorization), cookie, query) == []
  {
    var tokenString := TokenString(Get(header, Authorization), cookie, query);
    if tokenString == [] then Abort(StatusUnauthorized, MissingAuthToken)
    else
      var token := parse(tokenString, jwtSecret);
      if !token.hmac || token.parseFailed || !token.valid then Abort(StatusUnauthorized, InvalidToken)
      else if token.claims.MapClaims? then Proceed(token.claims.entries)
      else Abort(StatusUnauthorized, InvalidClaims)
  }

  /** golang-jwt accepted the token: HMAC-signed, parsed without error, valid. */
  predicate Accepted(p: ParsedToken) {
    p.hmac && !p.parseFailed && p.valid
  }

  /** A request gets through only with a token that golang-jwt accepted and
      whose claims are a claims map, and "user" holds exactly those claims;
      every other request is refused with the reason named. */
  lemma ProceedsOnlyWhenVerified(header: InboundHeader, cookie: Option<Bytes>, query: Bytes, jwtSecret: Bytes,
                                 parse: (Bytes, Bytes) -> ParsedToken)
    ensures var t := TokenString(Get(header, Authorization), cookie, query);
            var d := Middleware(header, cookie, query, jwtSecret, parse);
            && (d.Proceed? <==> t != [] && Accepted(parse(t, jwtSecret)) && parse(t, jwtSecret).claims.MapClaims?)
            && (d.Proceed? ==> d.user == parse(t, jwtSecret).claims.entries)
            && (t != [] && !Accepted(parse(t, jwtSecret)) ==> d == Abort(StatusUnauthorized, InvalidToken))
            && (t != [] && Accepted(parse(t, jwtSecret)) && parse(t, jwtSecret).claims.OtherClaims? ==>
                  d == Abort(StatusUnauthorized, InvalidClaims))
  {
  }

  /** A well-formed bearer header wins over cookie and query. */
  lemma HeaderFirst(token: Bytes, cookie: Option<Bytes>, query: Bytes)
    requires token != []
    ensures TokenString(Bearer + token, cookie, query) == token
  {
    assert (Bearer + token)[..|Bearer|] == Bearer;
  }

  /** Without a usable header token, a non-empty cookie wins over the query;
      "Bearer " with nothing after it counts as no header token. */
  lemma CookieSecond(authHeader: Bytes, cookieToken: Bytes, query: Bytes)
    requires !HasPrefix(authHeader, Bearer) || authHeader == Bearer
    requires cookieToken != []
    ensures TokenString(authHeader, Some(cookieToken), query) == cookieToken
  {
  }

  /** The query is consulted only when header and cookie gave nothing. */
  lemma QueryLast(authHeader: Bytes, cookie: Option<Bytes>, query: Bytes)
    requires !HasPrefix(authHeader, Bearer) || authHeader == Bearer
    requires cookie.None? || cookie.value == []
    ensures TokenString(authHeader, cookie, query) == query
  {
  }
}
