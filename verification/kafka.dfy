/** The Kafka backend of kafka/kafka.go: a repository that is absent when no
    broker is configured, a no-op when it has no producer, and otherwise turns a
    message into a native Kafka message, submits it and waits for its one
    delivery report. The librdkafka producer is an oracle: each Produce call is
    told whether the client refuses the message or accepts it, and what the
    delivery report will say. */
module Kafka {
  import opened Bytes
  import opened Errors

  /** Config of kafka/config.go. */
  datatype Config = Config(kafkaBroker: Bytes, kafkaTopic: Bytes, logLevel: Bytes)

  /** Message of kafka/kafka.go: what a caller asks to publish. */
  datatype Message = Message(key: Bytes, headers: map<Bytes, Bytes>, content: Bytes)

  /** kafka.Header of the client library. */
  datatype Header = Header(key: Bytes, value: Bytes)

  const BootstrapServers: Bytes := "bootstrap.servers"
  const FailedToCreateProducer: Bytes := "failed to create Kafka producer"
  const FailedToProduceMessage: Bytes := "failed to produce message"
  const DeliveryFailed: Bytes := "delivery failed"

  /** The text of a failed delivery report's error, after its stage. */
  function DeliveryFailure(cause: Error): Error {
    Formatted(DeliveryFailed + ": " + Text(cause))
  }

  /** kafka.PartitionAny: let the client choose the partition. */
  const PartitionAny: int := -1

  /** The *kafka.Message handed to Produce. */
  datatype NativeMessage = NativeMessage(topic: Bytes, partition: int, value: Bytes, headers: seq<Header>, key: Bytes)

  /** The event that arrives on the delivery channel: where the message landed,
      or the per-message error (TopicPartition.Error). */
  datatype DeliveryReport = DeliveryReport(partition: int, offset: int, error: Option<Error>)

  /** What the client does with one Produce call: refuse it on the spot (queue
      full, unknown topic, ...) or accept it and later send a delivery report. */
  datatype ProduceAnswer = Refused(err: Error) | Accepted(report: DeliveryReport)

  /** `hs` lists the header map `headers`: one entry per key, each with that
      key's value, in any order. */
  predicate Lists(hs: seq<Header>, headers: map<Bytes, Bytes>) {
    && |hs| == |headers|
    && KeysOf(hs) == headers.Keys
    && (forall i | 0 <= i < |hs| :: hs[i].key in headers && hs[i].value == headers[hs[i].key])
    && (forall i, j | 0 <= i < j < |hs| :: hs[i].key != hs[j].key)
  }

  function KeysOf(hs: seq<Header>): set<Bytes> {
    set i | 0 <= i < |hs| :: hs[i].key
  }

  lemma KeysOfAppend(hs: seq<Header>, h: Header)
    ensures KeysOf(hs + [h]) == KeysOf(hs) + {h.key}
  {
    var hs' := hs + [h];
    forall k | k in KeysOf(hs') ensures k in KeysOf(hs) + {h.key} {
      var i :| 0 <= i < |hs'| && hs'[i].key == k;
      if i < |hs| { assert hs[i] == hs'[i]; }
    }
    forall k | k in KeysOf(hs) ensures k in KeysOf(hs') {
      var i :| 0 <= i < |hs| && hs[i].key == k;
      assert hs'[i] == hs[i];
    }
    assert hs'[|hs|] == h;
  }

  /** How a consumer reads a header list back into a map. */
  function HeaderMap(hs: seq<Header>): map<Bytes, Bytes> {
    if hs == [] then map[] else HeaderMap(hs[..|hs| - 1])[hs[|hs| - 1].key := hs[|hs| - 1].value]
  }

  /** The set of (key, value) pairs of a header list. */
  function HeaderPairs(hs: seq<Header>): set<Header> {
    set i | 0 <= i < |hs| :: hs[i]
  }

  lemma DropLastKeys(hs: seq<Header>, headers: map<Bytes, Bytes>)
    requires Lists(hs, headers) && hs != []
    ensures KeysOf(hs[..|hs| - 1]) == (headers - {hs[|hs| - 1].key}).Keys
    ensures |hs[..|hs| - 1]| == |headers - {hs[|hs| - 1].key}|
  {
    var last := hs[|hs| - 1];
    var front := hs[..|hs| - 1];
    assert hs == front + [last];
    KeysOfAppend(front, last);
    assert last.key !in KeysOf(front) by {
      forall i | 0 <= i < |front| ensures front[i].key != last.key {
        assert front[i] == hs[i];
      }
    }
    assert KeysOf(front) == headers.Keys - {last.key};
    assert (headers - {last.key}).Keys == headers.Keys - {last.key};
  }

  /** Dropping the last entry of a listing lists the map without that key. */
  lemma ListsDropLast(hs: seq<Header>, headers: map<Bytes, Bytes>)
    requires Lists(hs, headers) && hs != []
    ensures Lists(hs[..|hs| - 1], headers - {hs[|hs| - 1].key})
  {
    var front := hs[..|hs| - 1];
    var rest := headers - {hs[|hs| - 1].key};
    DropLastKeys(hs, headers);
    forall i | 0 <= i < |front| ensures front[i].key in rest && front[i].value == rest[front[i].key] {
      assert front[i] == hs[i];
      assert front[i].key in KeysOf(front);
    }
    forall i, j | 0 <= i < j < |front| ensures front[i].key != front[j].key {
      assert front[i] == hs[i] && front[j] == hs[j];
    }
  }

  /** Reading the translated list back gives the caller's header map again. */
  lemma {:induction false} ListsRoundTrip(hs: seq<Header>, headers: map<Bytes, Bytes>)
    requires Lists(hs, headers)
    ensures HeaderMap(hs) == headers
    decreases |hs|
  {
    if hs != [] {
      var last := hs[|hs| - 1];
      var rest := headers - {last.key};
      assert last.key in headers && headers[last.key] == last.value;
      ListsDropLast(hs, headers);
      ListsRoundTrip(hs[..|hs| - 1], rest);
      PutBack(headers, last.key);
    }
  }

  /** Removing a key and storing its value again gives the same map. */
  lemma PutBack(m: map<Bytes, Bytes>, k: Bytes)
    requires k in m
    ensures (m - {k})[k := m[k]] == m
  {
  }

  /** The pairs of the translated list are exactly the pairs of the map. */
  lemma ListsPairs(hs: seq<Header>, headers: map<Bytes, Bytes>)
    requires Lists(hs, headers)
    ensures HeaderPairs(hs) == set k | k in headers :: Header(k, headers[k])
  {
    forall k | k in headers ensures Header(k, headers[k]) in HeaderPairs(hs) {
      assert k in KeysOf(hs);
      var i :| 0 <= i < |hs| && hs[i].key == k;
      assert hs[i] == Header(k, headers[k]);
    }
  }

  /** The header translation loop of Send, over Go's unspecified map order. */
  method NativeHeaders(headers: map<Bytes, Bytes>) returns (hs: seq<Header>)
    ensures Lists(hs, headers)
  {
    hs := [];
    var remaining := headers.Keys;
    while remaining != {}
      invariant ListsAllBut(hs, headers, remaining)
      decreases remaining
    {
      var k :| k in remaining;
      ListsOneMore(hs, headers, remaining, k);
      hs := hs + [Header(k, headers[k])];
      remaining := remaining - {k};
    }
  }

  /** `hs` lists every entry of `headers` whose key is not in `remaining`. */
  predicate ListsAllBut(hs: seq<Header>, headers: map<Bytes, Bytes>, remaining: set<Bytes>) {
    && remaining <= headers.Keys
    && |hs| + |remaining| == |headers|
    && KeysOf(hs) == headers.Keys - remaining
    && (forall i | 0 <= i < |hs| :: hs[i].key in headers && hs[i].value == headers[hs[i].key])
    && (forall i, j | 0 <= i < j < |hs| :: hs[i].key != hs[j].key)
  }

  /** One turn of the translation loop lists one more key. */
  lemma ListsOneMore(hs: seq<Header>, headers: map<Bytes, Bytes>, remaining: set<Bytes>, k: Bytes)
    requires ListsAllBut(hs, headers, remaining) && k in remaining
    ensures ListsAllBut(hs + [Header(k, headers[k])], headers, remaining - {k})
  {
    var hs' := hs + [Header(k, headers[k])];
    assert k !in KeysOf(hs);
    KeysOfAppend(hs, Header(k, headers[k]));
    forall i, j | 0 <= i < j < |hs'| ensures hs'[i].key != hs'[j].key {
      if j == |hs| {
        assert hs'[i] == hs[i];
        assert hs[i].key in KeysOf(hs);
      } else {
        assert hs'[i] == hs[i] && hs'[j] == hs[j];
      }
    }
  }

  /** The message Send submits for a payload: the repository's topic, any
      partition, the content as value, the key's bytes as key. */
  predicate Submits(m: NativeMessage, topic: Bytes, payload: Message) {
    && m.topic == topic
    && m.partition == PartitionAny
    && m.value == payload.content
    && m.key == payload.key
    && Lists(m.headers, payload.headers)
  }

  /** `make(chan kafka.Event)`, reduced to what Send does with it. */
  class DeliveryChannel {
    var pending: Option<DeliveryReport>
    var receives: nat
    var closed: bool

    constructor ()
      ensures pending == None && receives == 0 && !closed
    {
      pending, receives, closed := None, 0, false;
    }

    /** `<-deliveryChan`; the model does not block, so an event must be there. */
    method Receive() returns (e: DeliveryReport)
      requires pending.Some?
      modifies this
      ensures e == old(pending).value && pending == None
      ensures receives == old(receives) + 1 && closed == old(closed)
    {
      e := pending.value;
      pending := None;
      receives := receives + 1;
    }

    method Close()
      modifies this
      ensures closed && pending == old(pending) && receives == old(receives)
    {
      closed := true;
    }
  }

  /** The client's producer handle (the Producer interface of kafka/kafka.go). */
  class Producer {
    var produced: seq<NativeMessage>
    var closeCalls: nat

    constructor ()
      ensures produced == [] && closeCalls == 0
    {
      produced, closeCalls := [], 0;
    }

    /** Produce: records the message; an accepted message's report is put on
        the delivery channel. */
    method Produce(msg: NativeMessage, deliveryChan: DeliveryChannel, answer: ProduceAnswer) returns (err: Option<Error>)
      requires deliveryChan.pending == None
      modifies this, deliveryChan
      ensures produced == old(produced) + [msg] && closeCalls == old(closeCalls)
      ensures deliveryChan.receives == old(deliveryChan.receives) && deliveryChan.closed == old(deliveryChan.closed)
      ensures answer.Refused? ==> err == Some(answer.err) && deliveryChan.pending == None
      ensures answer.Accepted? ==> err == None && deliveryChan.pending == Some(answer.report)
    {
      produced := produced + [msg];
      if answer.Refused? {
        err := Some(answer.err);
      } else {
        deliveryChan.pending := Some(answer.report);
        err := None;
      }
    }

    method Close()
      modifies this
      ensures closeCalls == old(closeCalls) + 1 && produced == old(produced)
    {
      closeCalls := closeCalls + 1;
    }
  }

  /** What one Send through a live producer does: exactly one message
      submitted, and the three outcomes of the produce/await protocol. The
      channel is waited on only after an accepted submission and is closed only
      on success. */
  twostate predicate Delivered(producer: Producer, topic: Bytes, payload: Message, answer: ProduceAnswer,
                               new err: Option<Error>, new deliveryChan: DeliveryChannel)
    reads producer, deliveryChan
  {
    && producer.closeCalls == old(producer.closeCalls)
    && |producer.produced| == |old(producer.produced)| + 1
    && producer.produced[..|old(producer.produced)|] == old(producer.produced)
    && Submits(producer.produced[|producer.produced| - 1], topic, payload)
    && (answer.Refused? ==>
          && err == Some(Wrapped(FailedToProduceMessage, answer.err))
          && deliveryChan.receives == 0 && !deliveryChan.closed)
    && (answer.Accepted? && answer.report.error.Some? ==>
          && err == Some(DeliveryFailure(answer.report.error.value))
          && deliveryChan.receives == 1 && !deliveryChan.closed)
    && (answer.Accepted? && answer.report.error.None? ==>
          && err == None
          && deliveryChan.receives == 1 && deliveryChan.closed)
  }

  /** The body of Send once the producer is known to be there; shared with
      the older repository of internal/infrastructure/repository/kafka.go. */
  method Deliver(producer: Producer, topic: Bytes, payload: Message, answer: ProduceAnswer)
    returns (err: Option<Error>, deliveryChan: DeliveryChannel)
    modifies producer
    ensures fresh(deliveryChan)
    ensures Delivered(producer, topic, payload, answer, err, deliveryChan)
  {
    var hs := NativeHeaders(payload.headers);
    deliveryChan := new DeliveryChannel();
    var msg := NativeMessage(topic, PartitionAny, payload.content, hs, payload.key);
    var produceErr := producer.Produce(msg, deliveryChan, answer);
    assert producer.produced[..|old(producer.produced)|] == old(producer.produced);
    if produceErr.Some? {
      return Some(Wrapped(FailedToProduceMessage, produceErr.value)), deliveryChan;
    }
    var e := deliveryChan.Receive();
    if e.error.Some? {
      return Some(DeliveryFailure(e.error.value)), deliveryChan;
    }
    deliveryChan.Close();
    err := None;
  }

  /** The error texts name their stage and keep the cause, as the tests
      expect of "failed to produce message" and "delivery failed". */
  lemma DeliveryErrorsNameStage(cause: Error)
    ensures Contains(Text(Wrapped(FailedToProduceMessage, cause)), FailedToProduceMessage)
    ensures Contains(Text(Wrapped(FailedToProduceMessage, cause)), Text(cause))
    ensures Contains(Text(DeliveryFailure(cause)), DeliveryFailed)
    ensures Contains(Text(DeliveryFailure(cause)), Text(cause))
  {
    WrappedKeepsCause(FailedToProduceMessage, cause);
    FormattedNamesPrefix(DeliveryFailed, ": " + Text(cause));
    assert DeliveryFailed + (": " + Text(cause)) == DeliveryFailed + ": " + Text(cause);
    ContainsInside(DeliveryFailed + ": ", Text(cause), []);
    assert DeliveryFailed + ": " + Text(cause) + [] == DeliveryFailed + ": " + Text(cause);
  }

  /** The `newProducer` factory. Whether the client can be created is the
      oracle `failure`; `requests` records every ConfigMap it was given. */
  class ProducerFactory {
    const failure: Option<Error>
    var requests: seq<map<Bytes, Bytes>>
    var made: seq<Producer>

    constructor (failure: Option<Error>)
      ensures this.failure == failure && requests == [] && made == []
    {
      this.failure := failure;
      requests, made := [], [];
    }

    method NewProducer(configMap: map<Bytes, Bytes>) returns (p: Producer?, err: Option<Error>)
      modifies this
      ensures requests == old(requests) + [configMap]
      ensures failure.Some? ==> p == null && err == failure && made == old(made)
      ensures failure.None? ==> p != null && fresh(p) && err == None && made == old(made) + [p]
      ensures failure.None? ==> p.produced == [] && p.closeCalls == 0
    {
      requests := requests + [configMap];
      if failure.Some? {
        return null, failure;
      }
      p := new Producer();
      made := made + [p];
      err := None;
    }
  }

  /** Repository of kafka/kafka.go. A repository built as a struct literal
      may have no producer. */
  class Repository {
    const producer: Producer?
    const topic: Bytes

    constructor (producer: Producer?, topic: Bytes)
      ensures this.producer == producer && this.topic == topic
    {
      this.producer := producer;
      this.topic := topic;
    }

    /** Send: a no-op that succeeds without a producer, otherwise Deliver. */
    method Send(payload: Message, answer: ProduceAnswer) returns (err: Option<Error>, deliveryChan: DeliveryChannel?)
      modifies if producer == null then {} else {producer}
      ensures producer == null ==> err == None && deliveryChan == null
      ensures producer != null ==> deliveryChan != null && fresh(deliveryChan)
      ensures producer != null ==> Delivered(producer, topic, payload, answer, err, deliveryChan)
    {
      if producer == null {
        return None, null;
      }
      err, deliveryChan := Deliver(producer, topic, payload, answer);
    }

    /** Close: closes the producer once when there is one. */
    method Close()
      modifies if producer == null then {} else {producer}
      ensures producer != null ==> producer.closeCalls == old(producer.closeCalls) + 1
      ensures producer != null ==> producer.produced == old(producer.produced)
    {
      if producer != null {
        producer.Close();
      }
    }
  }

  /** NewRepository: no broker means no repository and no error, without
      asking the factory; otherwise one factory call whose failure is wrapped
      and whose producer the repository keeps, with the configured topic. */
  method NewRepository(cfg: Config, factory: ProducerFactory) returns (repo: Repository?, err: Option<Error>)
    modifies factory
    ensures cfg.kafkaBroker == [] ==> repo == null && err == None
    ensures cfg.kafkaBroker == [] ==> factory.requests == old(factory.requests) && factory.made == old(factory.made)
    ensures cfg.kafkaBroker != [] ==> factory.requests == old(factory.requests) + [map[BootstrapServers := cfg.kafkaBroker]]
    ensures cfg.kafkaBroker != [] && factory.failure.Some? ==>
              repo == null && err == Some(Wrapped(FailedToCreateProducer, factory.failure.value))
    ensures cfg.kafkaBroker != [] && factory.failure.None? ==>
              && err == None && repo != null && fresh(repo)
              && |factory.made| == |old(factory.made)| + 1
              && repo.producer == factory.made[|factory.made| - 1]
              && repo.topic == cfg.kafkaTopic
  {
    if cfg.kafkaBroker == [] {
      return null, None;
    }
    var p, e := factory.NewProducer(map[BootstrapServers := cfg.kafkaBroker]);
    if e.Some? {
      return null, Some(Wrapped(FailedToCreateProducer, e.value));
    }
    repo := new Repository(p, cfg.kafkaTopic);
    err := None;
  }
}
