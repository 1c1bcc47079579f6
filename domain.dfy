/** The domain model: a quote and a depth-of-book for one instrument. */
module Domain {
  import opened Wrappers
  import opened Time

  type InstrumentId = string

  /** java.math.BigDecimal, as an exact rational (the scale of a decimal is not modelled). */
  type Decimal = real

  /** Price: best bid and ask of an instrument and when they were last written. */
  datatype Price = Price(instrumentId: InstrumentId, bidPrice: Decimal, askPrice: Decimal, lastUpdated: Instant)

  /** OrderBook.Order */
  datatype Order = Order(price: Decimal, volume: Decimal)

  /** OrderBook: bid and ask orders in the order the caller gave them. */
  datatype OrderBook = OrderBook(instrumentId: InstrumentId, bidOrders: seq<Order>, askOrders: seq<Order>, lastUpdated: Instant)

  /** Optional lookup in a keyed store. */
  function Lookup<K, V>(m: map<K, V>, k: K): (r: Option<V>)
    ensures r.Some? <==> k in m
    ensures r.Some? ==> r.value == m[k]
  {
    if k in m then Some(m[k]) else None
  }
}
