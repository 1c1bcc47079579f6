/** The JSON event payload (PriceUpdateMessage) and its construction from a domain Price. */
module PriceUpdateMessages {
  import opened Time
  import opened Domain

  datatype PriceUpdateMessage = PriceUpdateMessage(instrumentId: InstrumentId, bidPrice: Decimal, askPrice: Decimal, lastUpdated: Instant)

  /** fromDomain: a total field copy, with no check that ask >= bid or that prices are non-negative. */
  function FromDomain(price: Price): (m: PriceUpdateMessage)
    ensures m.instrumentId == price.instrumentId
    ensures m.bidPrice == price.bidPrice && m.askPrice == price.askPrice
    ensures m.lastUpdated == price.lastUpdated
  {
    PriceUpdateMessage(price.instrumentId, price.bidPrice, price.askPrice, price.lastUpdated)
  }

  /** The event loses nothing: different prices give different messages. */
  lemma FromDomainInjective(p: Price, q: Price)
    requires FromDomain(p) == FromDomain(q)
    ensures p == q
  {
  }
}

/**
  The broker side of the two event producers. Sends are appended to one
  outbox, so the order of the JSON and the binary event stays observable.
 */
module Kafka {
  import opened Time
  import opened Domain
  import opened GrpcMessages
  import opened PriceUpdateMessages

  /** price.kafka.topic when the property is not set. */
  const DEFAULT_JSON_TOPIC: string := "price-updates"

  /** price.kafka.proto.topic when the property is not set. */
  const DEFAULT_PROTO_TOPIC: string := "price-updates-proto.proto"

  datatype Payload = JsonPayload(message: PriceUpdateMessage) | ProtoPayload(update: PriceUpdate)

  /** One KafkaTemplate.send(topic, key, value). */
  datatype ProducerRecord = ProducerRecord(topic: string, key: string, payload: Payload)

  /** The JSON record PriceKafkaProducer sends for a price. */
  function JsonRecord(topic: string, price: Price): (r: ProducerRecord)
    ensures r.topic == topic && r.key == price.instrumentId
    ensures r.payload == JsonPayload(FromDomain(price))
  {
    var message := FromDomain(price);
    ProducerRecord(topic, message.instrumentId, JsonPayload(message))
  }

  /** The binary record ProtoPriceKafkaProducer sends for a price. */
  function ProtoRecord(topic: string, price: Price, doubleValue: DoubleValue): (r: ProducerRecord)
    ensures r.topic == topic && r.key == price.instrumentId
    ensures r.payload.ProtoPayload? && r.payload.update.updateType == UPDATED
    ensures r.payload.update.price == ConvertToGrpcPrice(price, doubleValue)
  {
    ProducerRecord(topic, price.instrumentId, ProtoPayload(UpdatedEvent(price, doubleValue)))
  }

  /**
    The two events for one price agree: same key, the same instrument, and
    the binary event's timestamp denotes the instant the JSON event carries.
   */
  lemma EventsAgree(jsonTopic: string, protoTopic: string, price: Price, doubleValue: DoubleValue)
    ensures JsonRecord(jsonTopic, price).key == ProtoRecord(protoTopic, price, doubleValue).key
    ensures var ts := ProtoRecord(protoTopic, price, doubleValue).payload.update.price.lastUpdated;
      ts.seconds * NANOS_PER_SECOND + ts.nanos == JsonRecord(jsonTopic, price).payload.message.lastUpdated
  {
  }

  /** A binary event pins down the instrument and the instant of the price it was built from. */
  lemma ProtoRecordDeterminesInstant(topic: string, p: Price, q: Price, doubleValue: DoubleValue)
    requires ProtoRecord(topic, p, doubleValue) == ProtoRecord(topic, q, doubleValue)
    ensures p.instrumentId == q.instrumentId && p.lastUpdated == q.lastUpdated
  {
    ToTimestampInjective(p.lastUpdated, q.lastUpdated);
  }

  /**
    With both topic properties left unset, the JSON and the binary events
    of any two prices go to different topics.
   */
  lemma DefaultTopicsDiffer(p: Price, q: Price, doubleValue: DoubleValue)
    ensures JsonRecord(DEFAULT_JSON_TOPIC, p).topic != ProtoRecord(DEFAULT_PROTO_TOPIC, q, doubleValue).topic
  {
  }

  /** The records handed to the broker, in send order. */
  class Outbox {
    var sent: seq<ProducerRecord>

    constructor ()
      ensures sent == []
    {
      sent := [];
    }

    method Send(record: ProducerRecord)
      modifies this
      ensures sent == old(sent) + [record]
    {
      sent := sent + [record];
    }
  }

  /** PriceKafkaProducer */
  class PriceKafkaProducer {
    const outbox: Outbox
    const topic: string

    constructor (outbox: Outbox, topic: string)
      ensures this.outbox == outbox && this.topic == topic
    {
      this.outbox := outbox;
      this.topic := topic;
    }

    /** sendPriceUpdate: exactly one send, keyed by the instrument id, of fromDomain(price). */
    method SendPriceUpdate(price: Price)
      modifies outbox
      ensures outbox.sent == old(outbox.sent) + [JsonRecord(topic, price)]
    {
      var message := FromDomain(price);
      outbox.Send(ProducerRecord(topic, message.instrumentId, JsonPayload(message)));
    }
  }

  /** ProtoPriceKafkaProducer */
  class ProtoPriceKafkaProducer {
    const outbox: Outbox
    const topic: string
    const doubleValue: DoubleValue

    constructor (outbox: Outbox, topic: string, doubleValue: DoubleValue)
      ensures this.outbox == outbox && this.topic == topic && this.doubleValue == doubleValue
    {
      this.outbox := outbox;
      this.topic := topic;
      this.doubleValue := doubleValue;
    }

    /** sendPriceUpdate: builds an UPDATED PriceUpdate and sends it once, keyed by the instrument id. */
    method SendPriceUpdate(price: Price)
      modifies outbox
      ensures outbox.sent == old(outbox.sent) + [ProtoRecord(topic, price, doubleValue)]
    {
      var priceMsg := ConvertToGrpcPrice(price, doubleValue);
      var message := PriceUpdate(priceMsg, UPDATED);
      outbox.Send(ProducerRecord(topic, price.instrumentId, ProtoPayload(message)));
    }
  }
}
