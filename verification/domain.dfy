/** The payload of internal/domain/entity.go, shared by the repositories under
    internal/infrastructure. */
module Domain {
  import opened Bytes

  /** Payload: the Kafka key, the HTTP URL and token, the headers and the
      content, as one record. */
  datatype Payload = Payload(key: Bytes, url: Bytes, token: Bytes, headers: map<Bytes, Bytes>, content: Bytes)
}
