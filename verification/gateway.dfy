/** The forwarding middleware of middleware/gateway/gateway.go: after the
    request's handler has run, the response body it wrote is captured and
    posted to a gateway, tagged with correlation, routing and request IDs.
    Every failure on that path is only logged; the response the handler
    wrote is never touched. */
module Gateway {
  import opened Bytes
  import opened Errors
  import opened HttpWire
  import Http

  const CorrelationIdHeader: Bytes := "X-Correlation-ID"
  const RoutingIdHeader: Bytes := "X-Routing-ID"
  const RequestIdHeader: Bytes := "X-Request-Id"

  /** One entry of the ignore list: a method and a path fragment. */
  datatype IgnoredEndpoint = IgnoredEndpoint(httpMethod: Bytes, path: Bytes)

  /** The configuration the middleware loads for every request. */
  datatype GatewayConfig = GatewayConfig(
    gatewayEnabled: bool,
    logLevel: Bytes,
    gatewayAPIUrl: Bytes,
    gatewayToken: Bytes,
    ignoreEndpoints: seq<IgnoredEndpoint>)

  /** The parts of the inbound request the middleware reads. */
  datatype InboundRequest = InboundRequest(httpMethod: Bytes, path: Bytes, header: InboundHeader)

  /** An entry matches a request when the methods are equal as written and the
      entry's path occurs somewhere in the request path. */
  predicate Matches(entry: IgnoredEndpoint, request: InboundRequest) {
    request.httpMethod == entry.httpMethod && Contains(request.path, entry.path)
  }

  predicate IsIgnored(ignoreEndpoints: seq<IgnoredEndpoint>, request: InboundRequest) {
    exists i | 0 <= i < |ignoreEndpoints| :: Matches(ignoreEndpoints[i], request)
  }

  /** Whether the response of `request` is forwarded at all. */
  predicate Forwards(config: GatewayConfig, request: InboundRequest) {
    config.gatewayEnabled && !IsIgnored(config.ignoreEndpoints, request)
  }

  /** The request ID: the inbound X-Request-Id when it is non-empty, else the
      freshly generated one. */
  function RequestId(header: InboundHeader, freshId: Bytes): (id: Bytes)
    ensures Get(header, RequestIdHeader) != [] ==> id == Get(header, RequestIdHeader)
    ensures Get(header, RequestIdHeader) == [] ==> id == freshId
    ensures freshId != [] ==> id != []
  {
    var inbound := Get(header, RequestIdHeader);
    if inbound == [] then freshId else inbound
  }

  /** The header map handed to the HTTP client: exactly four entries. */
  function ForwardHeaders(correlationID: Bytes, routingID: Bytes, requestID: Bytes): (h: map<Bytes, Bytes>)
    ensures h.Keys == {ContentType, CorrelationIdHeader, RoutingIdHeader, RequestIdHeader}
    ensures |h| == 4
    ensures h[ContentType] == ApplicationJson
    ensures h[CorrelationIdHeader] == correlationID && h[RoutingIdHeader] == routingID
    ensures h[RequestIdHeader] == requestID
  {
    var h := map[ContentType := ApplicationJson, CorrelationIdHeader := correlationID,
                 RoutingIdHeader := routingID, RequestIdHeader := requestID];
    assert |h.Keys| == 4 by {
      assert h.Keys == {ContentType} + {CorrelationIdHeader} + {RoutingIdHeader} + {RequestIdHeader};
    }
    h
  }

  lemma CorrelationIdCanonical()
    ensures CanonicalKey(CorrelationIdHeader) == "X-Correlation-Id"
  {
    forall i | 0 <= i < |CorrelationIdHeader| ensures IsTokenByte(CorrelationIdHeader[i]) {
      assert 'a' <= CorrelationIdHeader[i] <= 'z' || 'A' <= CorrelationIdHeader[i] <= 'Z' || CorrelationIdHeader[i] == '-';
    }
  }

  lemma RoutingIdCanonical()
    ensures CanonicalKey(RoutingIdHeader) == "X-Routing-Id"
  {
    forall i | 0 <= i < |RoutingIdHeader| ensures IsTokenByte(RoutingIdHeader[i]) {
      assert 'a' <= RoutingIdHeader[i] <= 'z' || 'A' <= RoutingIdHeader[i] <= 'Z' || RoutingIdHeader[i] == '-';
    }
  }

  lemma RequestIdCanonical()
    ensures CanonicalKey(RequestIdHeader) == RequestIdHeader
  {
    forall i | 0 <= i < |RequestIdHeader| ensures IsTokenByte(RequestIdHeader[i]) {
      assert 'a' <= RequestIdHeader[i] <= 'z' || 'A' <= RequestIdHeader[i] <= 'Z' || RequestIdHeader[i] == '-';
    }
  }

  /** A map over four keys whose images under `f` differ pairwise. */
  lemma FourImagesDistinct(m: map<Bytes, Bytes>, a: Bytes, b: Bytes, c: Bytes, d: Bytes, f: Bytes -> Bytes)
    requires m.Keys == {a, b, c, d}
    requires f(a) != f(b) && f(a) != f(c) && f(a) != f(d)
    requires f(b) != f(c) && f(b) != f(d) && f(c) != f(d)
    ensures forall k1, k2 | k1 in m && k2 in m && f(k1) == f(k2) :: k1 == k2
  {
  }

  /** Four keys whose canonical forms differ pairwise never collide. */
  lemma FourKeysDistinct(m: map<Bytes, Bytes>, a: Bytes, b: Bytes, c: Bytes, d: Bytes)
    requires m.Keys == {a, b, c, d}
    requires CanonicalKey(a) != CanonicalKey(b) && CanonicalKey(a) != CanonicalKey(c) && CanonicalKey(a) != CanonicalKey(d)
    requires CanonicalKey(b) != CanonicalKey(c) && CanonicalKey(b) != CanonicalKey(d) && CanonicalKey(c) != CanonicalKey(d)
    ensures CanonicallyDistinct(m)
    ensures CanonicalKeys(m) == {CanonicalKey(a), CanonicalKey(b), CanonicalKey(c), CanonicalKey(d)}
  {
    FourImagesDistinct(m, a, b, c, d, CanonicalKey);
  }

  /** The four forwarded headers go out under distinct names, two of them
      respelled by net/http. */
  lemma ForwardHeadersCanonical(correlationID: Bytes, routingID: Bytes, requestID: Bytes)
    ensures CanonicallyDistinct(ForwardHeaders(correlationID, routingID, requestID))
    ensures CanonicalKeys(ForwardHeaders(correlationID, routingID, requestID))
            == {ContentType, "X-Correlation-Id", "X-Routing-Id", RequestIdHeader}
  {
    ContentTypeIsCanonical();
    CorrelationIdCanonical();
    RoutingIdCanonical();
    RequestIdCanonical();
    var ct, cid, rid, qid: Bytes := ContentType, "X-Correlation-Id", "X-Routing-Id", RequestIdHeader;
    assert ct[0] != rid[0] && ct[0] != qid[0];
    assert rid[3] != qid[3];
    assert |cid| != |ct| && |cid| != |rid| && |cid| != |qid|;
    FourKeysDistinct(ForwardHeaders(correlationID, routingID, requestID),
                     ContentType, CorrelationIdHeader, RoutingIdHeader, RequestIdHeader);
  }

  /** The exact header of the request sent to the gateway: the JSON content
      type, the three IDs under their canonical names and the gateway token,
      and nothing else. */
  lemma ForwardedWireHeader(h: Header, correlationID: Bytes, routingID: Bytes, requestID: Bytes, token: Bytes)
    requires Applied(h, ForwardHeaders(correlationID, routingID, requestID), Http.AuthHeader(token))
    ensures h == WireHeader(correlationID, routingID, requestID, token)
  {
    var headers := ForwardHeaders(correlationID, routingID, requestID);
    var fixed := Http.AuthHeader(token);
    ForwardHeadersCanonical(correlationID, routingID, requestID);
    AppliedExactly(h, headers, fixed);
    ContentTypeIsCanonical();
    CorrelationIdCanonical();
    RoutingIdCanonical();
    RequestIdCanonical();
    assert |Authorization| == 13 && |ContentType| == 12 && |RequestIdHeader| == 12;
    assert h.Keys == {Authorization, ContentType, "X-Correlation-Id", "X-Routing-Id", RequestIdHeader};
    assert h[ContentType] == ApplicationJson by {
      AppliedAt(h, headers, fixed, ContentType);
    }
    assert h["X-Correlation-Id"] == correlationID by {
      AppliedAt(h, headers, fixed, CorrelationIdHeader);
    }
    assert h["X-Routing-Id"] == routingID by {
      AppliedAt(h, headers, fixed, RoutingIdHeader);
    }
    assert h[RequestIdHeader] == requestID by {
      AppliedAt(h, headers, fixed, RequestIdHeader);
    }
    WireHeaderExactly(h, correlationID, routingID, requestID, token);
  }

  /** The header as the gateway receives it. */
  function WireHeader(correlationID: Bytes, routingID: Bytes, requestID: Bytes, token: Bytes): Header {
    map[ContentType := ApplicationJson, "X-Correlation-Id" := correlationID,
        "X-Routing-Id" := routingID, RequestIdHeader := requestID,
        Authorization := Bearer + token]
  }

  lemma WireHeaderExactly(h: Header, correlationID: Bytes, routingID: Bytes, requestID: Bytes, token: Bytes)
    requires h.Keys == {Authorization, ContentType, "X-Correlation-Id", "X-Routing-Id", RequestIdHeader}
    requires h[Authorization] == Bearer + token && h[ContentType] == ApplicationJson
    requires h["X-Correlation-Id"] == correlationID && h["X-Routing-Id"] == routingID
    requires h[RequestIdHeader] == requestID
    ensures h == WireHeader(correlationID, routingID, requestID, token)
  {
    var ct, cid, rid, qid: Bytes := ContentType, "X-Correlation-Id", "X-Routing-Id", RequestIdHeader;
    assert ct[0] != rid[0] && ct[0] != qid[0] && rid[3] != qid[3];
    assert |Authorization| == 13 && |ct| == 12 && |qid| == 12;
    var w := WireHeader(correlationID, routingID, requestID, token);
    forall k | k in h ensures h[k] == w[k] {
      assert k == Authorization || k == ct || k == cid || k == rid || k == qid;
    }
  }

  /** What the middleware posts for a request whose handler wrote `captured`:
      the JSON envelope from `encode`, to the configured URL with the
      configured token; or the error `encode` reported. */
  function ForwardPayload(config: GatewayConfig, header: InboundHeader, captured: Bytes,
                          freshId: Bytes, encode: Bytes -> Result<Bytes>): (r: Result<Http.Payload>)
    ensures encode(captured).Err? ==> r == Err(encode(captured).error)
    ensures encode(captured).Ok? ==>
              && r.Ok?
              && r.value.url == config.gatewayAPIUrl && r.value.token == config.gatewayToken
              && r.value.content == encode(captured).value
              && r.value.headers == ForwardHeaders(Get(header, CorrelationIdHeader), Get(header, RoutingIdHeader),
                                                   RequestId(header, freshId))
  {
    match encode(captured)
    case Err(e) => Err(e)
    case Ok(envelope) =>
      Ok(Http.Payload(config.gatewayAPIUrl, config.gatewayToken,
                      ForwardHeaders(Get(header, CorrelationIdHeader), Get(header, RoutingIdHeader),
                                     RequestId(header, freshId)),
                      envelope))
  }

  /** Which of the middleware's log lines a request ends with. None of them
      changes what the client receives. */
  datatype Forwarding =
    | Disabled                          // forwarding switched off
    | Ignored                           // an ignore-list entry matched
    | MarshalFailed(error: Error)       // the envelope could not be encoded
    | PostFailed(error: Error)          // the gateway request failed
    | Rejected(status: int, body: Bytes) // the gateway answered other than 200
    | Forwarded                         // the gateway answered 200

  /** How an attempted post ends. */
  function Verdict(answer: RoundTrip): (f: Forwarding)
    ensures answer.Unreachable? ==> f == PostFailed(Wrapped(FailedToExecuteRequest, answer.err))
    ensures answer.Answered? ==>
              (f == Forwarded <==> answer.response.status == StatusOK)
    ensures answer.Answered? && answer.response.status != StatusOK ==>
              f == Rejected(answer.response.status, answer.response.body)
  {
    match answer
    case Unreachable(e) => PostFailed(Wrapped(FailedToExecuteRequest, e))
    case Answered(r) => if r.status != StatusOK then Rejected(r.status, r.body) else Forwarded
  }

  /** All written slices, in order, as one byte string. */
  function Flatten(writes: seq<Bytes>): Bytes {
    if writes == [] then [] else Flatten(writes[..|writes| - 1]) + writes[|writes| - 1]
  }

  lemma {:induction false} FlattenAppend(a: seq<Bytes>, b: seq<Bytes>)
    ensures Flatten(a + b) == Flatten(a) + Flatten(b)
    decreases |b|
  {
    if b == [] {
      assert a + b == a;
    } else {
      var front, last := b[..|b| - 1], b[|b| - 1];
      FlattenAppend(a, front);
      assert (a + b)[..|a + b| - 1] == a + front;
      assert (a + b)[|a + b| - 1] == last;
      calc {
        Flatten(a + b);
        Flatten(a + front) + last;
        Flatten(a) + Flatten(front) + last;
        Flatten(a) + (Flatten(front) + last);
      }
    }
  }

  /** Nothing is lost or reordered: each slice sits, unchanged, between
      the slices written before it and those written after it. */
  lemma FlattenKeepsSlices(writes: seq<Bytes>, i: nat)
    requires i < |writes|
    ensures Flatten(writes) == Flatten(writes[..i]) + writes[i] + Flatten(writes[i + 1..])
  {
    var upTo, after := writes[..i + 1], writes[i + 1..];
    assert writes == upTo + after;
    FlattenAppend(upTo, after);
    assert upTo[..|upTo| - 1] == writes[..i];
    assert Flatten(upTo) == Flatten(writes[..i]) + writes[i];
  }

  /** One write a handler makes on c.Writer. bodyCaptureWriter overrides only
      Write; WriteString is promoted from the embedded gin.ResponseWriter, so
      its bytes go straight to the connection. */
  datatype HandlerWrite = ViaWrite(bytes: Bytes) | ViaWriteString(bytes: Bytes)

  /** The slices the connection receives, in order. */
  function Slices(writes: seq<HandlerWrite>): seq<Bytes> {
    if writes == [] then [] else Slices(writes[..|writes| - 1]) + [writes[|writes| - 1].bytes]
  }

  /** The slices that pass through the capture writer's Write, in order. */
  function CapturedSlices(writes: seq<HandlerWrite>): seq<Bytes> {
    if writes == [] then []
    else
      var last := writes[|writes| - 1];
      CapturedSlices(writes[..|writes| - 1]) + (if last.ViaWrite? then [last.bytes] else [])
  }

  /** A handler that writes only through Write has all of its output captured. */
  lemma {:induction false} OnlyWriteCapturesAll(writes: seq<HandlerWrite>)
    requires forall i | 0 <= i < |writes| :: writes[i].ViaWrite?
    ensures CapturedSlices(writes) == Slices(writes)
    decreases |writes|
  {
    if writes != [] {
      OnlyWriteCapturesAll(writes[..|writes| - 1]);
    }
  }

  /** A WriteString reaches the connection but adds nothing to the capture. */
  lemma WriteStringBypassesCapture(writes: seq<HandlerWrite>, b: Bytes)
    ensures Slices(writes + [ViaWriteString(b)]) == Slices(writes) + [b]
    ensures CapturedSlices(writes + [ViaWriteString(b)]) == CapturedSlices(writes)
  {
    assert (writes + [ViaWriteString(b)])[..|writes|] == writes;
  }

  /** One more handler write: the connection gets its slice, and the capture
      gains its bytes exactly when it is a Write. */
  lemma WritesStep(writes: seq<HandlerWrite>, i: nat)
    requires i < |writes|
    ensures Slices(writes[..i + 1]) == Slices(writes[..i]) + [writes[i].bytes]
    ensures Flatten(CapturedSlices(writes[..i + 1])) ==
            Flatten(CapturedSlices(writes[..i])) + (if writes[i].ViaWrite? then writes[i].bytes else [])
  {
    var before := CapturedSlices(writes[..i]);
    assert writes[..i + 1][..i] == writes[..i];
    if writes[i].ViaWrite? {
      assert CapturedSlices(writes[..i + 1]) == before + [writes[i].bytes];
      assert (before + [writes[i].bytes])[..|before|] == before;
    } else {
      assert CapturedSlices(writes[..i + 1]) == before;
    }
  }

  /** The connection's own response writer; it records every slice it is
      given. */
  class ResponseWriter {
    var written: seq<Bytes>

    constructor ()
      ensures written == []
    {
      written := [];
    }

    method Write(b: Bytes) returns (n: int, err: Option<Error>)
      modifies this
      ensures written == old(written) + [b]
      ensures n == |b| && err == None
    {
      written := written + [b];
      n, err := |b|, None;
    }
  }

  /** bodyCaptureWriter: the wrapped writer plus the buffer of everything
      written through it. */
  class BodyCaptureWriter {
    const inner: ResponseWriter
    var body: Bytes

    constructor (inner: ResponseWriter)
      ensures this.inner == inner && body == []
    {
      this.inner := inner;
      body := [];
    }

    /** Write: the slice is appended to the buffer and passed on unchanged;
        the wrapped writer's answer is returned. */
    method Write(b: Bytes) returns (n: int, err: Option<Error>)
      modifies this, inner
      ensures body == old(body) + b
      ensures inner.written == old(inner.written) + [b]
      ensures n == |b| && err == None
    {
      body := body + b;
      n, err := inner.Write(b);
    }
  }

  /** The slice of gin.Context the middleware uses: the request, the
      connection's writer, the capture writer once installed as c.Writer, and
      the handler, which runs on c.Next() and writes `handlerWrites`. */
  class Context {
    const request: InboundRequest
    const base: ResponseWriter
    var capture: BodyCaptureWriter?
    var handlerRuns: nat

    constructor (request: InboundRequest, base: ResponseWriter)
      ensures this.request == request && this.base == base
      ensures capture == null && handlerRuns == 0
    {
      this.request := request;
      this.base := base;
      capture := null;
      handlerRuns := 0;
    }

    /** c.Next(): the handler runs once. Write goes through the current
        writer; WriteString goes to the connection's writer whatever wraps it. */
    method Next(handlerWrites: seq<HandlerWrite>)
      requires capture != null ==> capture.inner == base
      modifies this, base, capture
      ensures capture == old(capture) && handlerRuns == old(handlerRuns) + 1
      ensures base.written == old(base.written) + Slices(handlerWrites)
      ensures capture != null ==> capture.body == old(capture.body) + Flatten(CapturedSlices(handlerWrites))
    {
      var i := 0;
      while i < |handlerWrites|
        invariant 0 <= i <= |handlerWrites|
        invariant capture == old(capture) && handlerRuns == old(handlerRuns)
        invariant base.written == old(base.written) + Slices(handlerWrites[..i])
        invariant capture != null ==> capture.body == old(capture.body) + Flatten(CapturedSlices(handlerWrites[..i]))
      {
        WritesStep(handlerWrites, i);
        ghost var written := Slices(handlerWrites[..i]);
        ghost var captured := Flatten(CapturedSlices(handlerWrites[..i]));
        Put(handlerWrites[i]);
        assert base.written == old(base.written) + (written + [handlerWrites[i].bytes]);
        assert capture != null ==> capture.body == old(capture.body) + (captured + (if handlerWrites[i].ViaWrite? then handlerWrites[i].bytes else []));
        i := i + 1;
      }
      assert handlerWrites[..i] == handlerWrites;
      handlerRuns := handlerRuns + 1;
    }

    /** One handler write: Write through the current writer, WriteString
        through the connection's writer. */
    method Put(w: HandlerWrite)
      requires capture != null ==> capture.inner == base
      modifies base, capture
      ensures base.written == old(base.written) + [w.bytes]
      ensures capture != null ==> capture.body == old(capture.body) + (if w.ViaWrite? then w.bytes else [])
    {
      if w.ViaWrite? && capture != null {
        var _, _ := capture.Write(w.bytes);
      } else {
        var _, _ := base.Write(w.bytes);
      }
    }
  }

  /** The ignore-list loop: true when some entry matches. */
  method FindIgnored(ignoreEndpoints: seq<IgnoredEndpoint>, request: InboundRequest) returns (ignored: bool)
    ensures ignored <==> IsIgnored(ignoreEndpoints, request)
  {
    var i := 0;
    while i < |ignoreEndpoints|
      invariant 0 <= i <= |ignoreEndpoints|
      invariant forall j | 0 <= j < i :: !Matches(ignoreEndpoints[j], request)
    {
      if request.httpMethod == ignoreEndpoints[i].httpMethod && Contains(request.path, ignoreEndpoints[i].path) {
        return true;
      }
      i := i + 1;
    }
    return false;
  }

  /** The Sender middleware on one request. The handler always runs exactly
      once and its writes always reach the connection unchanged. When
      forwarding applies, the Write calls are also captured (WriteString
      calls are not) and the envelope of the captured body is posted to the gateway with the forwarded headers;
      how that ends is only reported in `outcome`. `freshId` is the UUID the
      middleware would generate, `encode` is json.Marshal of the envelope,
      `urlError` and `answer` are the HTTP client's oracles. */
  method Sender(config: GatewayConfig, c: Context, handlerWrites: seq<HandlerWrite>, freshId: Bytes,
                encode: Bytes -> Result<Bytes>, transport: Transport, urlError: Option<Error>, answer: RoundTrip)
    returns (outcome: Forwarding)
    requires c.capture == null
    modifies c, c.base, transport
    ensures c.handlerRuns == old(c.handlerRuns) + 1
    ensures c.base.written == old(c.base.written) + Slices(handlerWrites)
    ensures !config.gatewayEnabled ==> outcome == Disabled
    ensures config.gatewayEnabled && IsIgnored(config.ignoreEndpoints, c.request) ==> outcome == Ignored
    ensures !Forwards(config, c.request) ==> c.capture == null && transport.sent == old(transport.sent)
    ensures Forwards(config, c.request) ==>
              c.capture != null && fresh(c.capture) && c.capture.inner == c.base
              && c.capture.body == Flatten(CapturedSlices(handlerWrites))
    ensures Forwards(config, c.request) ==>
              Posted(ForwardPayload(config, c.request.header, Flatten(CapturedSlices(handlerWrites)), freshId, encode),
                     transport.sent, old(transport.sent), urlError, answer, outcome)
  {
    if !config.gatewayEnabled {
      c.Next(handlerWrites);
      return Disabled;
    }
    var ignored := FindIgnored(config.ignoreEndpoints, c.request);
    if ignored {
      c.Next(handlerWrites);
      return Ignored;
    }
    var bw := new BodyCaptureWriter(c.base);
    c.capture := bw;
    c.Next(handlerWrites);

    outcome := Forward(config, c.request.header, bw.body, freshId, encode, transport, urlError, answer);
  }

  /** The part of Sender after the handler: IDs, envelope, the post to the
      gateway and the verdict on its answer. */
  method Forward(config: GatewayConfig, header: InboundHeader, captured: Bytes, freshId: Bytes,
                 encode: Bytes -> Result<Bytes>, transport: Transport, urlError: Option<Error>, answer: RoundTrip)
    returns (outcome: Forwarding)
    modifies transport
    ensures Posted(ForwardPayload(config, header, captured, freshId, encode),
                   transport.sent, old(transport.sent), urlError, answer, outcome)
  {
    var requestID := Get(header, RequestIdHeader);
    if requestID == [] {
      requestID := freshId;
    }
    var correlationID := Get(header, CorrelationIdHeader);
    var routingID := Get(header, RoutingIdHeader);

    var payloadBytes := encode(captured);
    if payloadBytes.Err? {
      return MarshalFailed(payloadBytes.error);
    }
    var httpClient := new Http.Client(transport);
    var payload := Http.Payload(config.gatewayAPIUrl, config.gatewayToken,
                                ForwardHeaders(correlationID, routingID, requestID), payloadBytes.value);
    assert Ok(payload) == ForwardPayload(config, header, captured, freshId, encode);
    var resp, err := httpClient.Post(payload, urlError, answer);
    if err.Some? {
      return PostFailed(err.value);
    }
    if resp.value.status != StatusOK {
      return Rejected(resp.value.status, resp.value.body);
    }
    return Forwarded;
  }

  /** How a forwarded request ends, given what it tried to post: a marshal
      failure sends nothing; a URL that does not parse sends nothing; else
      exactly one POST of the payload goes out and the verdict follows the
      answer. */
  ghost predicate Posted(payload: Result<Http.Payload>, sent: seq<Outgoing>, before: seq<Outgoing>,
                         urlError: Option<Error>, answer: RoundTrip, outcome: Forwarding)
  {
    match payload
    case Err(e) => outcome == MarshalFailed(e) && sent == before
    case Ok(p) =>
      if urlError.Some? then
        outcome == PostFailed(Wrapped(FailedToCreateRequest, urlError.value)) && sent == before
      else
        && |sent| == |before| + 1
        && sent[..|before|] == before
        && PostOf(sent[|before|], p.url, p.content, p.headers, Http.AuthHeader(p.token))
        && outcome == Verdict(answer)
  }
}
