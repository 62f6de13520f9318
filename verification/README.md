# anysher outbound delivery, modelled in Dafny

anysher is a small Go library for sending a message somewhere else. It has two
backends.

- **Kafka backend** (`kafka/kafka.go`, and an older copy under
  `internal/infrastructure/repository/kafka.go`). It turns a message's header
  map into a Kafka header list, submits one native message, and waits for its
  one delivery report.
- **HTTP backend.** `http/http.go` and `internal/infrastructure/client/http.go`
  POST a body with the caller's headers and force the `Authorization: Bearer …`
  header (section 2.1 of RFC 6750). The second client also forces
  `Content-Type: application/json`.
  `internal/infrastructure/repository/http.go` returns an error to its caller
  for a non-200 answer.

Two gin middlewares sit next to them:

- The gateway `Sender` (`middleware/gateway/gateway.go`). It captures a
  handler's response body and forwards it to a gateway with correlation,
  routing and request IDs. Any failure on that path is only logged.
- The JWT middleware (`middleware/jwt/middleware.go`). It takes a token from
  the header, then the cookie, then the query, and lets a request through only
  with an accepted token.

The level table of `log/log.go` and `config/config.go` completes the set.

Everything foreign is an oracle passed in as a parameter:

- librdkafka's answer to `Produce` (`Kafka.ProduceAnswer`) and whether a
  producer can be created (`Kafka.ProducerFactory`).
- net/http's URL parsing (`urlError`) and the far side of a round trip
  (`HttpWire.RoundTrip`).
- `json.Marshal` (`encode`, `InternalClient.PostBody`).
- `uuid.NewString` (`freshId`).
- golang-jwt's parse-and-verify (`parse`).

What stays is deterministic and is modelled in the source's own shape:

- Objects updated in place are classes: the request under construction, the
  transport, the producer, the delivery channel, the response writers and the
  gin context.
- Loops are methods with invariants: header application, header translation,
  the ignore-list search and the handler's writes.
- Pure rules are functions.

Go strings and byte slices are both `Bytes.Bytes`, a sequence of 8-bit
characters.

net/http stores header keys in canonical form (`textproto.CanonicalMIMEHeaderKey`),
and the model does the same (`HttpWire.CanonicalKey`). This matters twice:

- A caller's `authorization` in any letter case lands on the same entry as the
  client's own bearer header. The token therefore always wins.
- The gateway's `X-Correlation-ID` and `X-Routing-ID` leave the process as
  `X-Correlation-Id` and `X-Routing-Id`.

Go iterates a map in no fixed order, so every loop over a map picks its next
key nondeterministically. The header results are proved for every order.

Four behaviours of the code are easy to miss:

- The ignore-list match compares methods with `==`
  (`middleware/gateway/gateway.go:45`), so an entry `GET` does not match a
  request whose method is `get`.
- `http/http.go`'s `Post` returns every response the server gives, whatever
  its status. Only `internal/infrastructure/repository/http.go` returns an
  error to its caller for a non-200 answer. The gateway builds one too
  (`middleware/gateway/gateway.go:97-99`), but only logs it.
- `internal/infrastructure/repository/kafka.go` has no empty-broker branch. Its
  constructor always asks the client library for a producer.
- The capture writer overrides only `Write`
  (`middleware/gateway/gateway.go:107-110`). A handler's `WriteString`, which
  the embedded `gin.ResponseWriter` provides, goes straight to the connection
  and is not forwarded. The model tags each handler write as `ViaWrite` or
  `ViaWriteString` (`Gateway.HandlerWrite`).

## Model

| member | source | states |
|---|---|---|
| Kafka.NewRepository | kafka/kafka.go:30-46 | An empty broker gives no repository and no error, and the factory is never asked. Otherwise there is exactly one factory call with `bootstrap.servers` set to the broker. A failure gives no repository and an error wrapping "failed to create Kafka producer" around the cause. Success gives a new repository holding exactly the factory's producer and the configured topic. |
| Kafka.ProducerFactory.NewProducer | kafka/kafka.go:48-50 | The replaceable `newProducer` records the config map it is given, and either fails with its configured error or hands out a new producer that has produced nothing. |
| Kafka.Repository.Send | kafka/kafka.go:53-90 | Without a producer, Send succeeds and submits nothing. With one, it meets `Delivered` (the Deliver row). |
| Kafka.Deliver | kafka/kafka.go:59-89 | Exactly one message is submitted, and the producer is not closed. The message has the repository's topic, partition "any", the content as value, the key as key, and a header list that lists the header map. A refused produce gives "failed to produce message" wrapping the cause, with no receive on the channel. A report carrying an error gives "delivery failed: <cause>", after one receive, with the channel left open. A clean report gives success, after one receive, and only then is the channel closed. |
| Kafka.NativeHeaders | kafka/kafka.go:59-64 | The header loop yields a list with one entry per map key, each carrying that key's value, with no key twice, in any order. |
| Kafka.ListsRoundTrip | kafka/kafka.go:59-64 | Reading a translated header list back into a map gives the caller's header map again. |
| Kafka.ListsPairs | kafka/kafka.go:59-64 | The set of (key, value) pairs in a translated list equals the set of pairs of the header map. |
| Kafka.DeliveryErrorsNameStage | kafka/kafka.go:75-84 | Each of the two failure texts contains its stage ("failed to produce message", "delivery failed") and the text of the cause. |
| Kafka.Repository.Close | kafka/kafka.go:93-97 | With a producer, Close closes it exactly once and submits nothing. Without one, it changes nothing. |
| InternalKafka.NewKafkaRepository | internal/infrastructure/repository/kafka.go:18-30 | The factory is always asked exactly once with `bootstrap.servers` set to the broker, even for an empty broker. A failure gives no repository and an error wrapping "failed to create Kafka producer". Success gives a new repository with the factory's producer and the configured topic. |
| InternalKafka.KafkaRepository.Send | internal/infrastructure/repository/kafka.go:33-70 | Without a producer, Send succeeds and submits nothing. Otherwise it follows the same produce/await protocol (`Kafka.Delivered`) on the payload's key, headers and content. |
| InternalKafka.KafkaRepository.Close | internal/infrastructure/repository/kafka.go:73-77 | With a producer, Close closes it exactly once. Without one, it does nothing. |
| HttpWire.NewRequest | http/http.go:48-51 | An unparsable URL gives no request and the URL error. Otherwise Post gets a new request with the given method, URL and body bytes, and an empty header. |
| HttpWire.Request.Set | http/http.go:55 | `Header.Set` replaces the entry under the canonical form of the key and leaves the rest of the header alone. |
| HttpWire.ApplyHeaders | http/http.go:54-56 | After the loop over the caller's headers, in any iteration order, the header holds exactly the canonical forms of the caller's keys. Each entry holds the value of some caller key with that canonical form. |
| HttpWire.CarriesThenFixed | http/http.go:54-60 | Setting fixed canonical entries after the caller's headers gives a header in which the fixed entries win and every other caller entry is carried. |
| HttpWire.AppliedExactly | http/http.go:54-60 | When no two caller keys share a canonical form, the final header is exact. Its keys are the fixed keys plus the canonical caller keys, and every caller key not overridden appears with its own value. |
| HttpWire.AppliedIsDeterministic | http/http.go:54-56 | When no two caller keys share a canonical form, Go's map iteration order cannot change the header that goes out. |
| HttpWire.CanonicalKeyIdempotent | http/http.go:55 | Canonicalising a key twice is canonicalising it once, so Set and Get agree on which entry a key names. |
| HttpWire.CanonicalKeyIgnoresCase | http/http.go:55 | Two token keys that differ only in letter case name the same header entry. |
| HttpWire.AuthorizationAnyCase | http/http.go:60 | Any key that lower-cases to "authorization" names the `Authorization` entry. |
| HttpWire.ContentTypeAnyCase | internal/infrastructure/client/http.go:61 | Any key that lower-cases to "content-type" names the `Content-Type` entry. |
| HttpWire.Transport.Do | http/http.go:63-67 | The request handed to `client.Do` is recorded exactly once, as it was at the call. The far side's error or response is returned. |
| Http.AuthHeader | http/http.go:60 | The header the client forces has the single key `Authorization`, with value "Bearer " followed by the token. |
| Http.Client.Post | http/http.go:41-70 | An unparsable URL gives "failed to create request" and sends nothing. Otherwise exactly one POST goes out, to the payload URL, with the content as body, the caller's headers applied and Authorization forced to the bearer token. An unreachable server gives "failed to execute request" and no response. An answered request returns that response, whatever its status. |
| Http.TokenOverridesCallerAuthorization | http/http.go:54-60 | A caller header spelled "authorization" in any letter case cannot replace the token: the outgoing `Authorization` is "Bearer " + token. |
| Http.CallerHeadersCarried | http/http.go:54-56 | When no two caller keys collide, the outgoing header is `Authorization` plus the canonical caller keys. Every other caller header goes out with its own value. |
| InternalClient.BodyBytes | internal/infrastructure/client/http.go:35-44 | Raw bytes are the body unchanged. Any other value is its JSON encoding, and an encoding failure is "failed to marshal payload" wrapping the cause. |
| InternalClient.FixedHeaders | internal/infrastructure/client/http.go:60-61 | The forced headers are exactly `Authorization` = "Bearer " + the configured token and `Content-Type` = "application/json". |
| InternalClient.FixedHeadersSetInTurn | internal/infrastructure/client/http.go:60-61 | Setting Authorization and then Content-Type overlays exactly the forced headers on what is there. |
| InternalClient.HttpClientImpl.Post | internal/infrastructure/client/http.go:32-69 | A marshal failure and an unparsable URL each fail before anything is sent, with their own stage text. Otherwise exactly one POST goes out to the URL, with the body bytes, the caller's headers, and Authorization and Content-Type forced. An unreachable server gives "failed to execute request". An answer is returned whatever its status. |
| InternalClient.FixedHeadersWin | internal/infrastructure/client/http.go:53-61 | A caller's "content-type" or "authorization" in any letter case is overridden by the client's own value. |
| InternalHttpRepository.StatusError | internal/infrastructure/repository/http.go:37-39 | An answered request is an error exactly when its status is not 200. |
| InternalHttpRepository.StatusErrorNamesCode | internal/infrastructure/repository/http.go:38 | The error text starts with "unexpected status code: ", and the status code reads back from the decimal numeral after it. |
| InternalHttpRepository.HTTPRepositoryImpl.Send | internal/infrastructure/repository/http.go:30-43 | The payload's headers and raw content are posted, unchanged, to the repository's endpoint through the client. A client error is returned as it is, not wrapped again. An answer gives an error exactly when its status is not 200. |
| Gateway.FindIgnored | middleware/gateway/gateway.go:43-49 | The ignore-list loop answers true exactly when some entry has the request's method (compared as written) and a path occurring inside the request path. |
| Gateway.RequestId | middleware/gateway/gateway.go:58-62 | The request ID is the inbound `X-Request-Id` when that is non-empty, otherwise the fresh one, so it is non-empty whenever the fresh one is. |
| Gateway.ForwardHeaders | middleware/gateway/gateway.go:83-88 | The forwarded header map has exactly four keys: Content-Type = "application/json", and the correlation, routing and request IDs under their header names. |
| Gateway.CorrelationIdCanonical | middleware/gateway/gateway.go:18 | `X-Correlation-ID` is sent as `X-Correlation-Id`. |
| Gateway.RoutingIdCanonical | middleware/gateway/gateway.go:19 | `X-Routing-ID` is sent as `X-Routing-Id`. |
| Gateway.RequestIdCanonical | middleware/gateway/gateway.go:20 | `X-Request-Id` is already canonical. |
| Gateway.ForwardHeadersCanonical | middleware/gateway/gateway.go:83-88 | The four forwarded keys do not collide once canonicalised, and they go out as Content-Type, X-Correlation-Id, X-Routing-Id and X-Request-Id. |
| Gateway.ForwardedWireHeader | middleware/gateway/gateway.go:79-90 | `req.Header` of the request handed to `client.Do` holds exactly five entries: the JSON content type, the three IDs under their canonical names, and `Authorization: Bearer <gateway token>`. |
| Gateway.ForwardPayload | middleware/gateway/gateway.go:68-90 | The forwarded payload goes to the configured URL with the configured token and the four forwarded headers. Its body is the JSON envelope of the captured bytes, or the marshal error stops it. |
| Gateway.Verdict | middleware/gateway/gateway.go:91-103 | An unreachable gateway is a post failure that names "failed to execute request". An answer counts as forwarded exactly when its status is 200. Any other status is a rejection keeping the status and body. |
| Gateway.BodyCaptureWriter.Write | middleware/gateway/gateway.go:107-110 | Each write is appended to the capture buffer and passed unchanged to the wrapped writer, whose answer is returned. |
| Gateway.Context.Next | middleware/gateway/gateway.go:54-56 | The handler runs once. Every slice it writes, by `Write` or `WriteString`, reaches the connection in order. With the capture writer installed, the buffer gains the concatenation of the `Write` slices only. |
| Gateway.Context.Put | middleware/gateway/gateway.go:23-26 | One handler write reaches the connection unchanged. A `Write` also lands in the capture buffer when the capture writer is installed. A `WriteString` is served by the embedded writer and leaves the buffer alone. |
| Gateway.OnlyWriteCapturesAll | middleware/gateway/gateway.go:107-110 | When the handler uses only `Write`, the captured slices are all the slices it wrote. |
| Gateway.WriteStringBypassesCapture | middleware/gateway/gateway.go:23-26 | A `WriteString` reaches the connection but adds nothing to the captured slices. |
| Gateway.FlattenAppend | middleware/gateway/gateway.go:107-110 | Capturing two runs of writes in turn captures the concatenation of their bytes. |
| Gateway.FlattenKeepsSlices | middleware/gateway/gateway.go:107-110 | Each captured slice sits in the captured body, unchanged, between the bytes captured before it and those captured after it. |
| Gateway.Forward | middleware/gateway/gateway.go:58-102 | After the handler, a marshal failure or an unparsable URL ends the request with nothing sent. Otherwise exactly one POST of the forwarded payload goes out, with the gateway token forced, and the outcome follows the answer. |
| Gateway.Sender | middleware/gateway/gateway.go:35-105 | The handler runs exactly once, and its writes reach the connection unchanged in every case. Disabled forwarding and an ignored request leave the writer unwrapped and send nothing. Otherwise a new capture writer wraps the connection, its buffer ends equal to the bytes written through `Write` (never those of `WriteString`), the forwarded payload is built from that buffer, and the rest is as Forward states. No failure touches what the client received. |
| Log.Lookup | log/log.go:12-25 | Each of the six table names selects its own level, and every other string selects Info. |
| Log.SetLogLevel | log/log.go:11-27 | The level set for LOG_LEVEL is the one whose name is the lower-cased value, and Info when there is none. |
| Log.NamesSelectTheirLevel | log/log.go:12-20 | Every level is reached from its own name, in lower or upper case. |
| Log.SetLogLevelIgnoresCase | log/log.go:20 | The value, its lower-case form and its upper-case form select the same level. |
| Config.SetLogLevel | config/config.go:34-50 | The same table and default as log.SetLogLevel, applied to the level string given. |
| Config.NewHTTPConfiguration | config/config.go:16-21 | Only the log level is set: broker and topic are empty, and the global level is the one the table gives. |
| Config.NewKafkaConfiguration | config/config.go:24-31 | Broker, topic and log level are copied unchanged, and the global level is the one the table gives. |
| Jwt.TokenString | middleware/jwt/middleware.go:16-33 | A "Bearer " header with something after it gives the remainder. Otherwise a non-empty cookie wins, otherwise the query. No token is found exactly when all three sources are empty, and "Bearer " alone counts as empty. |
| Jwt.Middleware | middleware/jwt/middleware.go:13-57 | Every abort has status 401, and the message is "missing auth token" exactly when no source gave a token. |
| Jwt.ProceedsOnlyWhenVerified | middleware/jwt/middleware.go:38-56 | A request proceeds exactly when its token was accepted (HMAC, parsed, valid) and carries map claims, and "user" then holds those claims. A rejected token aborts with "invalid token", and other claims abort with "invalid claims". |
| Jwt.HeaderFirst | middleware/jwt/middleware.go:17-20 | A bearer header with a token wins over cookie and query. |
| Jwt.CookieSecond | middleware/jwt/middleware.go:22-26 | Without a usable header token, a non-empty cookie wins over the query. |
| Jwt.QueryLast | middleware/jwt/middleware.go:28-33 | The query is used only when the header and the cookie gave nothing. |
| Errors.WrappedKeepsCause | kafka/kafka.go:37 | An error wrapped with `%w` names both the context and the cause, and `errors.Is` and `errors.Unwrap` still reach the cause. |
| Errors.FormattedNamesPrefix | kafka/kafka.go:83 | An error formatted from a prefix and a detail names the prefix. |
| Bytes.DecimalRoundTrip | internal/infrastructure/repository/http.go:38 | The `%d` rendering of any integer reads back to that integer. |

## Left out

- The Redis repository (`redis/`): a thin wrapper over go-redis with no logic of its own.
- Loading configuration from the environment and `.env` files (`kafka/config.go`, `http/config.go`, `redis/config.go`, `middleware/gateway/config.go`, and the `load()` inside `http.NewClient`). This is I/O, so configuration is a record passed in.
- The `GATEWAY_IGNORE_ENDPOINTS` parser: not part of this model. The ignore list is a given sequence of (method, path) entries.
- `middleware/middleware.go` and `main.go`: framework setup and router wiring.
- Concurrency: the blocking wait on the delivery channel, timeouts and context cancellation. The delivery report is a single value that is already there after an accepted produce.
- Logging, including the log lines that are the only effect of the gateway's failures. `Gateway.Forwarding` names which line a request would end with.
- Kafka.DeliveryChannel.Receive: requires a pending report instead of blocking until one arrives.
- InternalHttpRepository.HTTPRepositoryImpl.Send: does not model `resp.Body.Close`, because response bodies are values here, not streams.
- `HTTPRepositoryImpl.Close` of `internal/infrastructure/repository/http.go`: its only effect is a log line.
- Gateway.Sender: the gateway's answer body is a value, so `ioutil.ReadAll` and its ignored error are not modelled.
- Gateway.Sender: the connection's writer always accepts a write, so write errors from the underlying connection are not modelled.
- Gateway.RequestId: `uuid.NewString` is the parameter `freshId`, so the ID is non-empty only when `freshId` is.
- Gateway.ForwardPayload: the JSON envelope `{"content": …}` is produced by the `encode` parameter. Its base64 encoding of the bytes is not modelled.
- InternalClient.BodyBytes: `json.Marshal` of a non-byte value is given as its result (`PostBody.Value`), not computed.
- Jwt.Middleware: golang-jwt's parsing, HMAC check, signature and time-claim validation are the `parse` parameter. Running the next handler is the `Proceed` decision.
- Jwt.Middleware: cookie values are taken as already URL-unescaped by gin.
- HttpWire.Transport.Do: net/http's redirect handling (307/308 re-send the request, 301-303 turn it into a GET), its refusal of invalid header names and values before sending, and the headers the transport adds (Host, User-Agent, Content-Length, Accept-Encoding) are not modelled. The model records the request as handed to `client.Do`.
- Gateway.Context.Put: the other ways a handler can write through gin's writer (`WriteHeaderNow`, `Flush`, server-sent events, ...) are not modelled. Every non-`Write` write is treated as a `WriteString`.
- Kafka.NewRepository: for an empty broker `kafka/kafka.go:31-33` returns a nil `*Repository`, and calling `Send` or `Close` on it dereferences the nil receiver (`kafka/kafka.go:54,94`). The model returns `null` and states nothing about calling methods on it.
- HttpWire.Get: an inbound header key with several values yields the first one, as `Header.Get` does. Inbound request parsing itself is not modelled.
- HttpWire.ApplyHeaders: when two caller keys canonicalise to the same header, which value wins depends on Go's map order. The model states only that one of them is kept.
- Log.SetLogLevel: `strings.ToLower` is modelled on ASCII letters only. Go maps "PANİC" (with U+0130) to "panic" and so to Panic, where the model gives Info. The global level assignment is the returned value.
- Config.SetLogLevel: its own `strings.ToLower` (`config/config.go:43`) is modelled on ASCII letters only. Go maps "PANİC" (with U+0130) to Panic, where the model gives Info.
- Log.SetLogLevelIgnoresCase: both `strings.ToLower` and `strings.ToUpper` are modelled on ASCII letters only, and the upper-case clause relies on that. In Go, "panıc" (with dotless U+0131) gives Info, but its `ToUpper` form "PANIC" gives Panic.
- The header mapping "correlation_id" → "X-Correlation-ID" asserted in `internal/infrastructure/repository/http_test.go`: no code implements it.
- `HTTPRepositoryImpl` reads its endpoint from `config.APIEndpoint`, which `config/config.go` does not declare. The model gives the repository its endpoint directly.
- The `HttpClient` interface of `internal/infrastructure/client/http.go` is modelled by its one implementation, `HTTPClientImpl`.
