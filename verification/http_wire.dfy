/** The parts of Go's net/http that the delivery layer leans on: header-key
    canonicalisation, a request whose header map is set in place, and the
    client that carries a request over the network. The network itself is an
    oracle: each round trip is told what the far side answered. */
module HttpWire {
  import opened Bytes
  import opened Errors

  /** A request or response header. `Header.Set` keeps exactly one value per
      key, so a key maps to that one value. */
  type Header = map<Bytes, Bytes>

  /** Header of a parsed inbound request: each canonical key with its values. */
  type InboundHeader = map<Bytes, seq<Bytes>>

  /** The bytes RFC 7230 allows in a header field name (tchar). */
  predicate IsTokenByte(c: byte) {
    || 'a' <= c <= 'z' || 'A' <= c <= 'Z' || '0' <= c <= '9'
    || c == '!' || c == '#' || c == '$' || c == '%' || c == '&' || c == '\'' || c == '*'
    || c == '+' || c == '-' || c == '.' || c == '^' || c == '_' || c == '`' || c == '|' || c == '~'
  }

  predicate IsTokenKey(s: Bytes) {
    forall i | 0 <= i < |s| :: IsTokenByte(s[i])
  }

  /** textproto.CanonicalMIMEHeaderKey: a key made only of token bytes gets an
      upper-case letter first and after every '-', lower case elsewhere; any
      other key is left as it is. */
  function CanonicalKey(s: Bytes): (r: Bytes)
    ensures |r| == |s|
  {
    if !IsTokenKey(s) then s
    else seq(|s|, i requires 0 <= i < |s| => KeyByte(s, i))
  }

  /** The case byte `i` of a token key takes: upper first and after '-'. */
  function KeyByte(s: Bytes, i: nat): byte
    requires i < |s|
  {
    if i == 0 || s[i - 1] == '-' then UpperByte(s[i]) else LowerByte(s[i])
  }

  /** Changing a token byte's case keeps it a token byte, keeps '-' apart
      from the rest, and casing twice the same way is casing once. */
  lemma CaseKeepsToken(c: byte)
    requires IsTokenByte(c)
    ensures IsTokenByte(UpperByte(c)) && IsTokenByte(LowerByte(c))
    ensures (UpperByte(c) == '-') == (c == '-') && (LowerByte(c) == '-') == (c == '-')
    ensures UpperByte(UpperByte(c)) == UpperByte(c) && LowerByte(LowerByte(c)) == LowerByte(c)
  {
  }

  /** Canonicalising a canonical key changes nothing, so Set and Get agree on
      which entry a key names. */
  lemma CanonicalKeyIdempotent(s: Bytes)
    ensures CanonicalKey(CanonicalKey(s)) == CanonicalKey(s)
  {
    if IsTokenKey(s) {
      var r := CanonicalKey(s);
      assert forall i | 0 <= i < |s| :: r[i] == KeyByte(s, i);
      CasedKeyIsCanonical(s, r);
      var rr := CanonicalKey(r);
      assert forall i | 0 <= i < |r| :: rr[i] == KeyByte(r, i);
    }
  }

  /** A key cased byte by byte as KeyByte says is again a token key, and
      casing it again changes no byte. */
  lemma CasedKeyIsCanonical(s: Bytes, r: Bytes)
    requires IsTokenKey(s) && |r| == |s|
    requires forall i | 0 <= i < |s| :: r[i] == KeyByte(s, i)
    ensures IsTokenKey(r)
    ensures forall i | 0 <= i < |r| :: KeyByte(r, i) == r[i]
  {
    forall i | 0 <= i < |r| ensures IsTokenByte(r[i]) && (r[i] == '-') == (s[i] == '-') {
      CaseKeepsToken(s[i]);
    }
    forall i | 0 <= i < |r| ensures KeyByte(r, i) == r[i] {
      CaseKeepsToken(s[i]);
      if i > 0 {
        assert (r[i - 1] == '-') == (s[i - 1] == '-');
      }
    }
  }

  /** Token header keys are case-insensitive: two keys that agree once
      lower-cased name the same header. (Keys with other bytes are left as
      they are, so for them case does matter.) */
  lemma CanonicalKeyIgnoresCase(a: Bytes, b: Bytes)
    requires IsTokenKey(a) && ToLower(a) == ToLower(b)
    ensures CanonicalKey(a) == CanonicalKey(b)
  {
    assert |a| == |b|;
    forall i | 0 <= i < |a|
      ensures LowerByte(a[i]) == LowerByte(b[i])
      ensures IsTokenByte(a[i]) == IsTokenByte(b[i])
      ensures UpperByte(a[i]) == UpperByte(b[i])
      ensures (a[i] == '-') == (b[i] == '-')
    {
      assert ToLower(a)[i] == ToLower(b)[i];
    }
    assert IsTokenKey(b);
  }

  /** The header names the clients set themselves. */
  const Authorization: Bytes := "Authorization"
  const ContentType: Bytes := "Content-Type"
  const ApplicationJson: Bytes := "application/json"

  lemma AuthorizationIsToken()
    ensures IsTokenKey(Authorization) && ToLower(Authorization) == "authorization"
  {
    forall i | 0 <= i < |Authorization| ensures IsTokenByte(Authorization[i]) {
      assert 'a' <= Authorization[i] <= 'z' || 'A' <= Authorization[i] <= 'Z';
    }
  }

  /** "Authorization" is already canonical. */
  lemma AuthorizationIsCanonical()
    ensures CanonicalKey(Authorization) == Authorization
  {
    AuthorizationIsToken();
  }

  lemma ContentTypeIsToken()
    ensures IsTokenKey(ContentType) && ToLower(ContentType) == "content-type"
  {
    forall i | 0 <= i < |ContentType| ensures IsTokenByte(ContentType[i]) {
      assert 'a' <= ContentType[i] <= 'z' || 'A' <= ContentType[i] <= 'Z' || ContentType[i] == '-';
    }
  }

  /** "Content-Type" is already canonical. */
  lemma ContentTypeIsCanonical()
    ensures CanonicalKey(ContentType) == ContentType
  {
    ContentTypeIsToken();
  }

  /** Any spelling of "authorization" names the Authorization header. */
  lemma AuthorizationAnyCase(k: Bytes)
    requires ToLower(k) == "authorization"
    ensures CanonicalKey(k) == Authorization
  {
    AuthorizationIsToken();
    AuthorizationIsCanonical();
    CanonicalKeyIgnoresCase(Authorization, k);
  }

  /** Any spelling of "content-type" names the Content-Type header. */
  lemma ContentTypeAnyCase(k: Bytes)
    requires ToLower(k) == "content-type"
    ensures CanonicalKey(k) == ContentType
  {
    ContentTypeIsToken();
    ContentTypeIsCanonical();
    CanonicalKeyIgnoresCase(ContentType, k);
  }

  function CanonicalKeys(headers: map<Bytes, Bytes>): set<Bytes> {
    set k | k in headers :: CanonicalKey(k)
  }

  /** No two keys of `headers` name the same header once canonicalised. */
  predicate CanonicallyDistinct(headers: map<Bytes, Bytes>) {
    forall k1, k2 | k1 in headers && k2 in headers && CanonicalKey(k1) == CanonicalKey(k2) :: k1 == k2
  }

  /** `h` is what an empty header holds after `Set(k, headers[k])` for every
      key `k`, in some order: one entry per canonical key, each holding the
      value of some key that canonicalises to it (the one set last). */
  ghost predicate Carries(h: Header, headers: map<Bytes, Bytes>) {
    && h.Keys == CanonicalKeys(headers)
    && forall c | c in h :: exists k :: k in headers && CanonicalKey(k) == c && headers[k] == h[c]
  }

  /** The entries of `headers` whose canonical key is not in `keys`. */
  function Unfixed(headers: map<Bytes, Bytes>, keys: set<Bytes>): map<Bytes, Bytes> {
    map k | k in headers && CanonicalKey(k) !in keys :: headers[k]
  }

  /** `h` is what an empty header holds after setting every entry of `headers`
      in some order and then every entry of `fixed` (whose keys are
      canonical): the fixed entries win, everything else is carried. */
  ghost predicate Applied(h: Header, headers: map<Bytes, Bytes>, fixed: Header) {
    && fixed.Keys <= h.Keys
    && (forall f | f in fixed :: h[f] == fixed[f])
    && Carries(h - fixed.Keys, Unfixed(headers, fixed.Keys))
  }

  lemma CarriesStep(h: Header, done: map<Bytes, Bytes>, k: Bytes, v: Bytes)
    requires Carries(h, done)
    ensures Carries(h[CanonicalKey(k) := v], done[k := v])
  {
    var h', done' := h[CanonicalKey(k) := v], done[k := v];
    assert h'.Keys == CanonicalKeys(done') by {
      forall c | c in CanonicalKeys(done') ensures c in h' {
        var j :| j in done' && CanonicalKey(j) == c;
        if j != k { assert j in done; }
      }
    }
    forall c | c in h' ensures exists j :: j in done' && CanonicalKey(j) == c && done'[j] == h'[c] {
      if c == CanonicalKey(k) {
        assert done'[k] == h'[c];
      } else {
        var j :| j in done && CanonicalKey(j) == c && done[j] == h[c];
        assert j != k;
        assert done'[j] == h'[c];
      }
    }
  }

  /** Setting fixed entries after carrying `headers` yields Applied. */
  lemma CarriesThenFixed(h: Header, headers: map<Bytes, Bytes>, fixed: Header)
    requires Carries(h, headers)
    ensures Applied(h + fixed, headers, fixed)
  {
    var h' := h + fixed;
    var rest := Unfixed(headers, fixed.Keys);
    assert h' - fixed.Keys == h - fixed.Keys;
    assert (h - fixed.Keys).Keys == CanonicalKeys(rest) by {
      forall c | c in CanonicalKeys(rest) ensures c in (h - fixed.Keys) {
        var j :| j in rest && CanonicalKey(j) == c;
        assert j in headers;
      }
    }
    forall c | c in h - fixed.Keys ensures exists j :: j in rest && CanonicalKey(j) == c && rest[j] == (h - fixed.Keys)[c] {
      var j :| j in headers && CanonicalKey(j) == c && headers[j] == h[c];
      assert j in rest;
    }
  }

  /** Without key collisions the result of Applied is exact: every caller key
      appears under its canonical form with its own value, unless a fixed
      entry overrides it, and nothing else is there. */
  lemma AppliedExactly(h: Header, headers: map<Bytes, Bytes>, fixed: Header)
    requires Applied(h, headers, fixed)
    requires CanonicallyDistinct(headers)
    ensures h.Keys == fixed.Keys + CanonicalKeys(headers)
    ensures forall k | k in headers && CanonicalKey(k) !in fixed :: h[CanonicalKey(k)] == headers[k]
  {
    var rest := Unfixed(headers, fixed.Keys);
    assert h.Keys == fixed.Keys + (h - fixed.Keys).Keys;
    assert CanonicalKeys(headers) - fixed.Keys == CanonicalKeys(rest) by {
      forall c | c in CanonicalKeys(headers) - fixed.Keys ensures c in CanonicalKeys(rest) {
        var j :| j in headers && CanonicalKey(j) == c;
        assert j in rest;
      }
    }
    forall k | k in headers && CanonicalKey(k) !in fixed ensures h[CanonicalKey(k)] == headers[k] {
      var c := CanonicalKey(k);
      assert k in rest;
      assert c in (h - fixed.Keys);
      var j :| j in rest && CanonicalKey(j) == c && rest[j] == (h - fixed.Keys)[c];
      assert j == k;
    }
  }

  /** One caller key of an Applied header, looked up. */
  lemma AppliedAt(h: Header, headers: map<Bytes, Bytes>, fixed: Header, k: Bytes)
    requires Applied(h, headers, fixed)
    requires CanonicallyDistinct(headers)
    requires k in headers && CanonicalKey(k) !in fixed
    ensures CanonicalKey(k) in h && h[CanonicalKey(k)] == headers[k]
  {
    AppliedExactly(h, headers, fixed);
  }

  /** The order Go happens to iterate a map in cannot change the outcome when
      no two keys collide. */
  lemma AppliedIsDeterministic(h1: Header, h2: Header, headers: map<Bytes, Bytes>, fixed: Header)
    requires Applied(h1, headers, fixed) && Applied(h2, headers, fixed)
    requires CanonicallyDistinct(headers)
    ensures h1 == h2
  {
    AppliedExactly(h1, headers, fixed);
    AppliedExactly(h2, headers, fixed);
    forall c | c in h1 ensures h1[c] == h2[c] {
      if c !in fixed {
        var k :| k in headers && CanonicalKey(k) == c;
      }
    }
  }

  /** Header.Get on an inbound request: the first value under the canonical
      form of `key`, or the empty string. */
  function Get(h: InboundHeader, key: Bytes): (v: Bytes) {
    var c := CanonicalKey(key);
    if c in h && |h[c]| > 0 then h[c][0] else []
  }

  /** A request as it leaves the process. */
  datatype Outgoing = Outgoing(httpMethod: Bytes, url: Bytes, header: Header, body: Bytes)

  /** An *http.Request under construction: method, URL and body are fixed by
      http.NewRequestWithContext, the header map is filled in place. */
  class Request {
    const httpMethod: Bytes
    const url: Bytes
    const body: Bytes
    var header: Header

    constructor (httpMethod: Bytes, url: Bytes, body: Bytes)
      ensures this.httpMethod == httpMethod && this.url == url && this.body == body
      ensures header == map[]
    {
      this.httpMethod := httpMethod;
      this.url := url;
      this.body := body;
      header := map[];
    }

    /** req.Header.Set */
    method Set(key: Bytes, value: Bytes)
      modifies this
      ensures header == old(header)[CanonicalKey(key) := value]
    {
      header := header[CanonicalKey(key) := value];
    }

    function Snapshot(): Outgoing
      reads this
    {
      Outgoing(httpMethod, url, header, body)
    }
  }

  /** http.NewRequestWithContext. Whether the URL parses is the oracle
      `urlError`: None when it parses, otherwise the error net/url reports. */
  method NewRequest(httpMethod: Bytes, url: Bytes, body: Bytes, urlError: Option<Error>)
    returns (req: Request?, err: Option<Error>)
    ensures urlError.Some? ==> req == null && err == urlError
    ensures urlError.None? ==> req != null && fresh(req) && err == None
    ensures urlError.None? ==> req.httpMethod == httpMethod && req.url == url && req.body == body && req.header == map[]
  {
    if urlError.Some? {
      return null, urlError;
    }
    req := new Request(httpMethod, url, body);
    err := None;
  }

  /** The `for key, value := range headers { req.Header.Set(key, value) }`
      loop, over Go's unspecified map order. */
  method ApplyHeaders(req: Request, headers: map<Bytes, Bytes>)
    requires req.header == map[]
    modifies req
    ensures Carries(req.header, headers)
  {
    var remaining := headers.Keys;
    ghost var done: map<Bytes, Bytes> := map[];
    assert CanonicalKeys(done) == {};
    while remaining != {}
      invariant remaining <= headers.Keys
      invariant done.Keys == headers.Keys - remaining
      invariant forall j | j in done :: done[j] == headers[j]
      invariant Carries(req.header, done)
      decreases remaining
    {
      var k :| k in remaining;
      ghost var done' := done[k := headers[k]];
      assert done'.Keys == headers.Keys - (remaining - {k});
      CarriesStep(req.header, done, k, headers[k]);
      req.Set(k, headers[k]);
      done := done';
      remaining := remaining - {k};
    }
    assert done == headers;
  }

  /** `o` is a POST of `body` to `url` whose header was filled from `headers`
      and then from `fixed`. */
  ghost predicate PostOf(o: Outgoing, url: Bytes, body: Bytes, headers: map<Bytes, Bytes>, fixed: Header) {
    o.httpMethod == MethodPost && o.url == url && o.body == body && Applied(o.header, headers, fixed)
  }

  /** The context the two clients wrap request failures in. */
  const FailedToCreateRequest: Bytes := "failed to create request"
  const FailedToExecuteRequest: Bytes := "failed to execute request"
  const MethodPost: Bytes := "POST"

  /** The bearer scheme's prefix (section 2.1 of RFC 6750), and the one status
      the delivery layer treats as success. */
  const Bearer: Bytes := "Bearer "
  const StatusOK := 200

  datatype Response = Response(status: int, body: Bytes)

  /** What the far side of one round trip did: it could not be reached (DNS,
      refused connection, timeout, cancelled context), or it answered. */
  datatype RoundTrip = Unreachable(err: Error) | Answered(response: Response)

  /** An *http.Client together with the network behind it; `sent` records
      every request it carried. */
  class Transport {
    var sent: seq<Outgoing>

    constructor ()
      ensures sent == []
    {
      sent := [];
    }

    /** client.Do: one round trip, no retry. */
    method Do(req: Request, answer: RoundTrip) returns (resp: Option<Response>, err: Option<Error>)
      modifies this
      ensures sent == old(sent) + [req.Snapshot()]
      ensures answer.Unreachable? ==> resp == None && err == Some(answer.err)
      ensures answer.Answered? ==> resp == Some(answer.response) && err == None
    {
      sent := sent + [req.Snapshot()];
      if answer.Unreachable? {
        resp, err := None, Some(answer.err);
      } else {
        resp, err := Some(answer.response), None;
      }
    }
  }
}
