/** The HTTP repository of internal/infrastructure/repository/http.go: sends
    a domain payload through the internal HTTP client and accepts only a 200
    answer. */
module InternalHttpRepository {
  import opened Bytes
  import opened Errors
  import opened HttpWire
  import InternalClient
  import Domain

  const UnexpectedStatusCode: Bytes := "unexpected status code: "

  /** The verdict on an answered request: nothing for 200, otherwise an error
      naming the status code. */
  function StatusError(status: int): (r: Option<Error>)
    ensures r.None? <==> status == StatusOK
  {
    if status != StatusOK then Some(Formatted(UnexpectedStatusCode + Decimal(status))) else None
  }

  /** The status code can be read back from the error text: it is the decimal
      numeral after the fixed prefix. */
  lemma StatusErrorNamesCode(status: int)
    requires status != StatusOK
    ensures HasPrefix(Text(StatusError(status).value), UnexpectedStatusCode)
    ensures ParseDecimal(TrimPrefix(Text(StatusError(status).value), UnexpectedStatusCode)) == Some(status)
  {
    var t := UnexpectedStatusCode + Decimal(status);
    assert t[..|UnexpectedStatusCode|] == UnexpectedStatusCode;
    assert TrimPrefix(t, UnexpectedStatusCode) == Decimal(status);
    DecimalRoundTrip(status);
  }

  class HTTPRepositoryImpl {
    const endpoint: Bytes
    const httpClient: InternalClient.HttpClientImpl

    /** NewHTTPRepository */
    constructor (endpoint: Bytes, httpClient: InternalClient.HttpClientImpl)
      ensures this.endpoint == endpoint && this.httpClient == httpClient
    {
      this.endpoint := endpoint;
      this.httpClient := httpClient;
    }

    /** Send: the payload's content goes out as raw bytes with its headers to
        the endpoint; a client error is returned as it is, an answer other
        than 200 becomes an error naming the status, a 200 is success. */
    method Send(payload: Domain.Payload, urlError: Option<Error>, answer: RoundTrip)
      returns (err: Option<Error>)
      modifies httpClient.client
      ensures urlError.Some? ==>
                && err == Some(Wrapped(FailedToCreateRequest, urlError.value))
                && httpClient.client.sent == old(httpClient.client.sent)
      ensures urlError.None? ==>
                && |httpClient.client.sent| == |old(httpClient.client.sent)| + 1
                && httpClient.client.sent[..|old(httpClient.client.sent)|] == old(httpClient.client.sent)
                && PostOf(httpClient.client.sent[|old(httpClient.client.sent)|], endpoint, payload.content,
                          payload.headers, InternalClient.FixedHeaders(httpClient.bearerToken))
      ensures urlError.None? && answer.Unreachable? ==> err == Some(Wrapped(FailedToExecuteRequest, answer.err))
      ensures urlError.None? && answer.Answered? ==> err == StatusError(answer.response.status)
    {
      var resp, e := httpClient.Post(payload.headers, InternalClient.RawBytes(payload.content), endpoint, urlError, answer);
      if e.Some? {
        return e;
      }
      if resp.value.status != StatusOK {
        return Some(Formatted(UnexpectedStatusCode + Decimal(resp.value.status)));
      }
      return None;
    }
  }
}
