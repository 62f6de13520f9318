/** The public HTTP delivery of http/http.go: a POST of the payload's bytes
    with the caller's headers and a bearer token. */
module Http {
  import opened Bytes
  import opened Errors
  import opened HttpWire

  /** Payload: target URL, bearer token, extra headers and the body. */
  datatype Payload = Payload(url: Bytes, token: Bytes, headers: map<Bytes, Bytes>, content: Bytes)

  /** The header the client sets after the caller's headers. */
  function AuthHeader(token: Bytes): (h: Header)
    ensures h.Keys == {Authorization}
    ensures h[Authorization] == Bearer + token
  {
    map[Authorization := Bearer + token]
  }

  class Client {
    const transport: Transport

    /** NewClient: wraps the given *http.Client. */
    constructor (transport: Transport)
      ensures this.transport == transport
    {
      this.transport := transport;
    }

    /** Post: one POST of the content to the URL. A URL that does not parse
        fails before anything is sent; otherwise exactly one request goes out,
        carrying the caller's headers with Authorization forced to the bearer
        token, and whatever the server answered is handed back, any status. */
    method Post(payload: Payload, urlError: Option<Error>, answer: RoundTrip)
      returns (resp: Option<Response>, err: Option<Error>)
      modifies transport
      ensures urlError.Some? ==>
                && resp == None && err == Some(Wrapped(FailedToCreateRequest, urlError.value))
                && transport.sent == old(transport.sent)
      ensures urlError.None? ==>
                && |transport.sent| == |old(transport.sent)| + 1
                && transport.sent[..|old(transport.sent)|] == old(transport.sent)
                && PostOf(transport.sent[|old(transport.sent)|], payload.url, payload.content,
                          payload.headers, AuthHeader(payload.token))
      ensures urlError.None? && answer.Unreachable? ==>
                resp == None && err == Some(Wrapped(FailedToExecuteRequest, answer.err))
      ensures urlError.None? && answer.Answered? ==> resp == Some(answer.response) && err == None
    {
      var req, e := NewRequest(MethodPost, payload.url, payload.content, urlError);
      if e.Some? {
        return None, Some(Wrapped(FailedToCreateRequest, e.value));
      }
      ApplyHeaders(req, payload.headers);
      ghost var carried := req.header;
      req.Set(Authorization, Bearer + payload.token);
      AuthorizationIsCanonical();
      assert req.header == carried + AuthHeader(payload.token);
      CarriesThenFixed(carried, payload.headers, AuthHeader(payload.token));
      var r, doErr := transport.Do(req, answer);
      if doErr.Some? {
        return None, Some(Wrapped(FailedToExecuteRequest, doErr.value));
      }
      return r, None;
    }
  }

  /** The token cannot be overridden: a caller header spelled "authorization"
      in any case lands on the same canonical key as the client's own, which
      is set last. */
  lemma TokenOverridesCallerAuthorization(h: Header, headers: map<Bytes, Bytes>, token: Bytes, k: Bytes)
    requires Applied(h, headers, AuthHeader(token))
    requires k in headers && ToLower(k) == "authorization"
    ensures CanonicalKey(k) == Authorization
    ensures h[CanonicalKey(k)] == Bearer + token
  {
    AuthorizationAnyCase(k);
  }

  /** Every other caller header goes out under its canonical key with its own
      value, and nothing else is added, when no two caller keys collide. */
  lemma CallerHeadersCarried(h: Header, headers: map<Bytes, Bytes>, token: Bytes, k: Bytes)
    requires Applied(h, headers, AuthHeader(token))
    requires CanonicallyDistinct(headers)
    requires k in headers && CanonicalKey(k) != Authorization
    ensures h.Keys == {Authorization} + CanonicalKeys(headers)
    ensures CanonicalKey(k) in h && h[CanonicalKey(k)] == headers[k]
  {
    AppliedExactly(h, headers, AuthHeader(token));
  }
}
