/** The older Kafka repository of internal/infrastructure/repository/kafka.go.
    It speaks the same produce/await protocol as kafka/kafka.go, but its
    constructor has no empty-broker branch: it always asks the client library
    for a producer. */
module InternalKafka {
  import opened Bytes
  import opened Errors
  import Kafka
  import Config
  import Domain

  /** The Kafka view of a domain payload: its key, headers and content. */
  function AsMessage(payload: Domain.Payload): Kafka.Message {
    Kafka.Message(payload.key, payload.headers, payload.content)
  }

  class KafkaRepository {
    const producer: Kafka.Producer?
    const topic: Bytes

    constructor (producer: Kafka.Producer?, topic: Bytes)
      ensures this.producer == producer && this.topic == topic
    {
      this.producer := producer;
      this.topic := topic;
    }

    /** Send: a no-op that succeeds without a producer, otherwise the
        produce/await protocol on the payload's key, headers and content. */
    method Send(payload: Domain.Payload, answer: Kafka.ProduceAnswer)
      returns (err: Option<Error>, deliveryChan: Kafka.DeliveryChannel?)
      modifies if producer == null then {} else {producer}
      ensures producer == null ==> err == None && deliveryChan == null
      ensures producer != null ==> deliveryChan != null && fresh(deliveryChan)
      ensures producer != null ==> Kafka.Delivered(producer, topic, AsMessage(payload), answer, err, deliveryChan)
    {
      if producer == null {
        return None, null;
      }
      err, deliveryChan := Kafka.Deliver(producer, topic, AsMessage(payload), answer);
    }

    /** Close: closes the producer once when there is one, else does nothing. */
    method Close()
      modifies if producer == null then {} else {producer}
      ensures producer != null ==> producer.closeCalls == old(producer.closeCalls) + 1
      ensures producer != null ==> producer.produced == old(producer.produced)
    {
      if producer != null {
        producer.Close();
      }
    }
  }

  /** NewKafkaRepository: always one kafka.NewProducer call, even for an empty
      broker; its failure is wrapped, its producer kept with the topic. */
  method NewKafkaRepository(cfg: Config.Config, factory: Kafka.ProducerFactory)
    returns (repo: KafkaRepository?, err: Option<Error>)
    modifies factory
    ensures factory.requests == old(factory.requests) + [map[Kafka.BootstrapServers := cfg.kafkaBroker]]
    ensures factory.failure.Some? ==>
              repo == null && err == Some(Wrapped(Kafka.FailedToCreateProducer, factory.failure.value))
    ensures factory.failure.None? ==>
              && err == None && repo != null && fresh(repo)
              && |factory.made| == |old(factory.made)| + 1
              && repo.producer == factory.made[|factory.made| - 1]
              && repo.topic == cfg.kafkaTopic
  {
    var p, e := factory.NewProducer(map[Kafka.BootstrapServers := cfg.kafkaBroker]);
    if e.Some? {
      return null, Some(Wrapped(Kafka.FailedToCreateProducer, e.value));
    }
    repo := new KafkaRepository(p, cfg.kafkaTopic);
    err := None;
  }
}
