/** The HTTP client of internal/infrastructure/client/http.go: a POST of a
    JSON body with a configured bearer token and a JSON content type. */
module InternalClient {
  import opened Bytes
  import opened Errors
  import opened HttpWire

  /** The `payload interface{}` argument: raw bytes are sent as they are, any
      other value is first marshalled, which yields either the JSON bytes or
      json.Marshal's error. */
  datatype PostBody = RawBytes(bytes: Bytes) | Value(json: Result<Bytes>)

  const FailedToMarshalPayload: Bytes := "failed to marshal payload"

  /** The headers set after the caller's, in their canonical spelling. */
  function FixedHeaders(bearerToken: Bytes): (h: Header)
    ensures h.Keys == {Authorization, ContentType}
    ensures h[Authorization] == Bearer + bearerToken
    ensures h[ContentType] == ApplicationJson
  {
    map[Authorization := Bearer + bearerToken, ContentType := ApplicationJson]
  }

  /** The bytes the body is sent as, or the error converting it. */
  function BodyBytes(payload: PostBody): (r: Result<Bytes>)
    ensures payload.RawBytes? ==> r == Ok(payload.bytes)
    ensures payload.Value? && payload.json.Ok? ==> r == payload.json
    ensures payload.Value? && payload.json.Err? ==>
              r == Err(Wrapped(FailedToMarshalPayload, payload.json.error))
  {
    match payload
    case RawBytes(b) => Ok(b)
    case Value(Ok(b)) => Ok(b)
    case Value(Err(e)) => Err(Wrapped(FailedToMarshalPayload, e))
  }

  class HttpClientImpl {
    const client: Transport
    const bearerToken: Bytes

    /** NewHttpClient */
    constructor (client: Transport, bearerToken: Bytes)
      ensures this.client == client && this.bearerToken == bearerToken
    {
      this.client := client;
      this.bearerToken := bearerToken;
    }

    /** Post: a body that cannot be marshalled and a URL that does not parse
        both fail before anything is sent; otherwise exactly one request goes
        out with the caller's headers, then Authorization and Content-Type
        forced, and the server's answer is handed back whatever its status. */
    method Post(headers: map<Bytes, Bytes>, payload: PostBody, url: Bytes,
                urlError: Option<Error>, answer: RoundTrip)
      returns (resp: Option<Response>, err: Option<Error>)
      modifies client
      ensures BodyBytes(payload).Err? ==>
                resp == None && err == Some(BodyBytes(payload).error) && client.sent == old(client.sent)
      ensures BodyBytes(payload).Ok? && urlError.Some? ==>
                && resp == None && err == Some(Wrapped(FailedToCreateRequest, urlError.value))
                && client.sent == old(client.sent)
      ensures BodyBytes(payload).Ok? && urlError.None? ==>
                && |client.sent| == |old(client.sent)| + 1
                && client.sent[..|old(client.sent)|] == old(client.sent)
                && PostOf(client.sent[|old(client.sent)|], url, BodyBytes(payload).value,
                          headers, FixedHeaders(bearerToken))
      ensures BodyBytes(payload).Ok? && urlError.None? && answer.Unreachable? ==>
                resp == None && err == Some(Wrapped(FailedToExecuteRequest, answer.err))
      ensures BodyBytes(payload).Ok? && urlError.None? && answer.Answered? ==>
                resp == Some(answer.response) && err == None
    {
      var jsonPayload: Bytes;
      match payload {
        case RawBytes(b) =>
          jsonPayload := b;
        case Value(marshalled) =>
          if marshalled.Err? {
            return None, Some(Wrapped(FailedToMarshalPayload, marshalled.error));
          }
          jsonPayload := marshalled.value;
      }
      var req, e := NewRequest(MethodPost, url, jsonPayload, urlError);
      if e.Some? {
        return None, Some(Wrapped(FailedToCreateRequest, e.value));
      }
      ApplyHeaders(req, headers);
      ghost var carried := req.header;
      req.Set(Authorization, Bearer + bearerToken);
      req.Set(ContentType, ApplicationJson);
      AuthorizationIsCanonical();
      ContentTypeIsCanonical();
      FixedHeadersSetInTurn(carried, bearerToken);
      CarriesThenFixed(carried, headers, FixedHeaders(bearerToken));
      var r, doErr := client.Do(req, answer);
      if doErr.Some? {
        return None, Some(Wrapped(FailedToExecuteRequest, doErr.value));
      }
      return r, None;
    }
  }

  /** Setting Authorization and then Content-Type overlays FixedHeaders. */
  lemma FixedHeadersSetInTurn(h: Header, bearerToken: Bytes)
    ensures h[Authorization := Bearer + bearerToken][ContentType := ApplicationJson] == h + FixedHeaders(bearerToken)
  {
  }

  /** Whatever the caller passes, the request goes out as JSON with the
      client's own token: a caller's "content-type" or "authorization" header
      in any case is overridden. */
  lemma FixedHeadersWin(h: Header, headers: map<Bytes, Bytes>, bearerToken: Bytes, k: Bytes)
    requires Applied(h, headers, FixedHeaders(bearerToken))
    requires k in headers
    requires ToLower(k) == "content-type" || ToLower(k) == "authorization"
    ensures CanonicalKey(k) in FixedHeaders(bearerToken)
    ensures h[CanonicalKey(k)] == FixedHeaders(bearerToken)[CanonicalKey(k)]
  {
    if ToLower(k) == "content-type" {
      ContentTypeAnyCase(k);
    } else {
      AuthorizationAnyCase(k);
    }
  }
}
