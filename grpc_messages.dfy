/**
  The protobuf messages the gRPC service and the binary event channel share,
  and the conversion of a domain Price into them (convertToGrpcPrice, and the
  same builder repeated in ProtoPriceKafkaProducer).
 */
module GrpcMessages {
  import opened Time
  import opened Domain

  /** google.protobuf.Timestamp */
  datatype Timestamp = Timestamp(seconds: int, nanos: int)

  /**
    BigDecimal.doubleValue(), passed in and left uninterpreted: no property
    here depends on how a decimal rounds to a double.
   */
  type DoubleValue = Decimal -> real

  /** The protobuf Price message. */
  datatype GrpcPrice = GrpcPrice(instrumentId: InstrumentId, bidPrice: real, askPrice: real, lastUpdated: Timestamp)

  /** The protobuf UpdateType enum: UPDATED, and any other value by its number. */
  datatype UpdateType = UPDATED | OtherUpdateType(number: int)

  /** The protobuf PriceUpdate message. */
  datatype PriceUpdate = PriceUpdate(price: GrpcPrice, updateType: UpdateType)

  /** Timestamp of an Instant: seconds from getEpochSecond(), nanos from getNano(). */
  function ToTimestamp(t: Instant): (ts: Timestamp)
    ensures ts.seconds * NANOS_PER_SECOND + ts.nanos == t
    ensures 0 <= ts.nanos < NANOS_PER_SECOND
  {
    SplitRecombines(t);
    Timestamp(EpochSecond(t), Nano(t))
  }

  /** A normalised timestamp is the one ToTimestamp produces for the instant it denotes. */
  lemma TimestampIsCanonical(ts: Timestamp)
    requires 0 <= ts.nanos < NANOS_PER_SECOND
    ensures ToTimestamp(ts.seconds * NANOS_PER_SECOND + ts.nanos) == ts
  {
    SplitIsUnique(ts.seconds * NANOS_PER_SECOND + ts.nanos, ts.seconds, ts.nanos);
  }

  /** Different instants never share a timestamp. */
  lemma ToTimestampInjective(t1: Instant, t2: Instant)
    requires ToTimestamp(t1) == ToTimestamp(t2)
    ensures t1 == t2
  {
  }

  /** convertToGrpcPrice */
  function ConvertToGrpcPrice(p: Price, doubleValue: DoubleValue): (g: GrpcPrice)
    ensures g.instrumentId == p.instrumentId
    ensures g.bidPrice == doubleValue(p.bidPrice) && g.askPrice == doubleValue(p.askPrice)
    ensures g.lastUpdated.seconds * NANOS_PER_SECOND + g.lastUpdated.nanos == p.lastUpdated
    ensures 0 <= g.lastUpdated.nanos < NANOS_PER_SECOND
  {
    GrpcPrice(p.instrumentId, doubleValue(p.bidPrice), doubleValue(p.askPrice), ToTimestamp(p.lastUpdated))
  }

  /** The PriceUpdate both the stream and the binary event carry for a price. */
  function UpdatedEvent(p: Price, doubleValue: DoubleValue): (u: PriceUpdate)
    ensures u.updateType == UPDATED
    ensures u.price.instrumentId == p.instrumentId
    ensures u.price.lastUpdated.seconds * NANOS_PER_SECOND + u.price.lastUpdated.nanos == p.lastUpdated
  {
    PriceUpdate(ConvertToGrpcPrice(p, doubleValue), UPDATED)
  }
}
