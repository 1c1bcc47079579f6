/**
  PriceServiceImpl: the domain service behind both APIs. Saving a price
  stamps it with the clock, stores it, then publishes it twice: first the
  JSON event, then the binary one. Deletion and the order book operations
  publish nothing.
 */
module PriceServices {
  import opened Wrappers
  import opened Time
  import opened Domain
  import opened Clocks
  import opened Persistence
  import opened JpaRepository
  import opened Kafka

  class PriceServiceImpl {
    const repository: JpaPriceRepository
    const priceKafkaProducer: PriceKafkaProducer
    const protoPriceKafkaProducer: ProtoPriceKafkaProducer

    constructor (repository: JpaPriceRepository, priceKafkaProducer: PriceKafkaProducer, protoPriceKafkaProducer: ProtoPriceKafkaProducer)
      ensures this.repository == repository
      ensures this.priceKafkaProducer == priceKafkaProducer
      ensures this.protoPriceKafkaProducer == protoPriceKafkaProducer
    {
      this.repository := repository;
      this.priceKafkaProducer := priceKafkaProducer;
      this.protoPriceKafkaProducer := protoPriceKafkaProducer;
    }

    /** The stores are consistent and both producers write to the same broker. */
    ghost predicate Valid()
      reads repository.prices, repository.orderBooks, repository.orderBooks.rows.Values
    {
      repository.Valid() && priceKafkaProducer.outbox == protoPriceKafkaProducer.outbox
    }

    /** The broker both producers write to. */
    function Outbox(): Outbox
    {
      priceKafkaProducer.outbox
    }

    /** getPrice: the stored price of the instrument, absent when there is none. */
    function GetPrice(instrumentId: InstrumentId): (r: Option<Price>)
      reads repository.prices
      requires repository.prices.Valid()
      ensures r.Some? <==> instrumentId in repository.Prices()
      ensures r.Some? ==> r.value == repository.Prices()[instrumentId] && r.value.instrumentId == instrumentId
    {
      repository.FindByInstrumentId(instrumentId)
    }

    /** getAllPrices: every stored price exactly once. */
    function GetAllPrices(): (r: seq<Price>)
      reads repository.prices
      requires repository.prices.Valid()
      ensures |r| == |repository.Prices()|
      ensures forall i :: 0 <= i < |r| ==> r[i].instrumentId in repository.Prices() && repository.Prices()[r[i].instrumentId] == r[i]
      ensures forall i, j :: 0 <= i < j < |r| ==> r[i].instrumentId != r[j].instrumentId
      ensures forall id :: id in repository.Prices() ==> exists i :: 0 <= i < |r| && r[i].instrumentId == id
    {
      repository.FindAll()
    }

    /**
      savePrice: the price is stamped with the clock, stored, and published
      as a JSON event followed by a binary event, both of the stored price.
      The store's own stamp comes last, so it is the one kept.
     */
    method SavePrice(price: Price) returns (saved: Price)
      requires Valid()
      modifies repository.prices, repository.clock, Outbox()
      ensures Valid()
      ensures saved == price.(lastUpdated := repository.clock.now)
      ensures old(repository.clock.now) <= saved.lastUpdated
      ensures GetPrice(price.instrumentId) == Some(saved)
      ensures repository.Prices() == old(repository.Prices())[price.instrumentId := saved]
      ensures Outbox().sent == old(Outbox().sent)
        + [JsonRecord(priceKafkaProducer.topic, saved), ProtoRecord(protoPriceKafkaProducer.topic, saved, protoPriceKafkaProducer.doubleValue)]
    {
      var now := repository.clock.Now();
      var stamped := price.(lastUpdated := now);
      saved := repository.Save(stamped);
      priceKafkaProducer.SendPriceUpdate(saved);
      protoPriceKafkaProducer.SendPriceUpdate(saved);
    }

    /** deletePrice: true exactly when a price was stored; afterwards none is, and nothing is published. */
    method DeletePrice(instrumentId: InstrumentId) returns (deleted: bool)
      requires Valid()
      modifies repository.prices
      ensures Valid()
      ensures deleted == old(GetPrice(instrumentId)).Some?
      ensures GetPrice(instrumentId) == None
      ensures repository.Prices() == old(repository.Prices()) - {instrumentId}
    {
      deleted := repository.DeleteByInstrumentId(instrumentId);
    }

    /** getOrderBook: the stored book of the instrument, absent when there is none. */
    function GetOrderBook(instrumentId: InstrumentId): (r: Option<OrderBook>)
      reads repository.orderBooks, repository.orderBooks.rows.Values
      requires repository.orderBooks.Valid()
      ensures r.Some? <==> instrumentId in repository.OrderBooks()
      ensures r.Some? ==> r.value == repository.OrderBooks()[instrumentId] && r.value.instrumentId == instrumentId
    {
      repository.FindOrderBookByInstrumentId(instrumentId)
    }

    /**
      saveOrderBook: the book is stamped, stored with its lists unchanged,
      and read back; nothing is published.
     */
    method SaveOrderBook(orderBook: OrderBook) returns (saved: OrderBook)
      requires Valid()
      modifies repository.orderBooks, repository.clock
      ensures Valid()
      ensures saved == orderBook.(lastUpdated := repository.clock.now)
      ensures old(repository.clock.now) <= saved.lastUpdated
      ensures repository.OrderBooks().Keys == old(repository.OrderBooks()).Keys + {orderBook.instrumentId}
      ensures repository.OrderBooks()[orderBook.instrumentId] == saved
      ensures forall id :: id in old(repository.OrderBooks()) && id != orderBook.instrumentId ==>
        repository.OrderBooks()[id] == old(repository.OrderBooks())[id]
    {
      var now := repository.clock.Now();
      var stamped := orderBook.(lastUpdated := now);
      saved := repository.SaveOrderBook(stamped);
    }
  }
}
