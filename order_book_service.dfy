/**
  OrderBookService: a second path to the order book table that hands back
  the stored entity itself. Its mapper builds the entity with empty lists
  and then appends one order entity per order, bids first, then asks.
 */
module OrderBookServices {
  import opened Wrappers
  import opened Time
  import opened Domain
  import opened Clocks
  import opened Persistence
  import opened JpaRepository

  class OrderBookService {
    const orderBooks: OrderBookTable
    const clock: Clock

    constructor (orderBooks: OrderBookTable, clock: Clock)
      ensures this.orderBooks == orderBooks && this.clock == clock
    {
      this.orderBooks := orderBooks;
      this.clock := clock;
    }

    /**
      saveOrderBook: the stored entity carries the given lists, read back
      unchanged, and the service's clock reading in place of the given
      timestamp.
     */
    method SaveOrderBook(orderBook: OrderBook) returns (saved: OrderBookEntity)
      requires orderBooks.Valid()
      modifies orderBooks, clock
      ensures orderBooks.Valid() && fresh(saved) && saved.WellTagged()
      ensures orderBooks.rows == old(orderBooks.rows)[orderBook.instrumentId := saved]
      ensures MapToOrderBook(saved) == orderBook.(lastUpdated := clock.now)
      ensures old(clock.now) <= clock.now
    {
      var entity := MapToOrderBookEntity(orderBook);
      var now := clock.Now();
      entity.lastUpdated := now;
      saved := orderBooks.Save(entity);
      UntagTagOrders(entity, orderBook.bidOrders, BID);
      UntagTagOrders(entity, orderBook.askOrders, ASK);
    }

    /** findByInstrumentId: the stored entity, if any; it has the id asked for and well-tagged lists. */
    function FindByInstrumentId(instrumentId: InstrumentId): (r: Option<OrderBookEntity>)
      reads orderBooks, orderBooks.rows.Values
      requires orderBooks.Valid()
      ensures r.Some? <==> instrumentId in orderBooks.rows
      ensures r.Some? ==> r.value == orderBooks.rows[instrumentId]
      ensures r.Some? ==> r.value.instrumentId == instrumentId && r.value.WellTagged()
    {
      Lookup(orderBooks.rows, instrumentId)
    }

    /**
      mapToOrderBookEntity: after the lists are cleared, each loop appends
      one entity per order; reading the entity back gives the book it was
      built from.
     */
    static method MapToOrderBookEntity(orderBook: OrderBook) returns (entity: OrderBookEntity)
      ensures fresh(entity) && entity.WellTagged()
      ensures entity.instrumentId == orderBook.instrumentId && entity.lastUpdated == orderBook.lastUpdated
      ensures entity.bidOrders == TagOrders(entity, orderBook.bidOrders, BID)
      ensures entity.askOrders == TagOrders(entity, orderBook.askOrders, ASK)
      ensures MapToOrderBook(entity) == orderBook
    {
      entity := new OrderBookEntity(orderBook.instrumentId, orderBook.lastUpdated);
      entity.bidOrders := [];
      entity.askOrders := [];
      var bids := orderBook.bidOrders;
      var i := 0;
      while i < |bids|
        invariant 0 <= i <= |bids|
        invariant entity.bidOrders == TagOrders(entity, bids[..i], BID)
        invariant entity.askOrders == []
        invariant entity.instrumentId == orderBook.instrumentId && entity.lastUpdated == orderBook.lastUpdated
      {
        assert bids[..i + 1][..i] == bids[..i];
        entity.bidOrders := entity.bidOrders + [TagOrder(entity, bids[i], BID)];
        i := i + 1;
      }
      assert bids[..i] == bids;
      var asks := orderBook.askOrders;
      var j := 0;
      while j < |asks|
        invariant 0 <= j <= |asks|
        invariant entity.askOrders == TagOrders(entity, asks[..j], ASK)
        invariant entity.bidOrders == TagOrders(entity, bids, BID)
        invariant entity.instrumentId == orderBook.instrumentId && entity.lastUpdated == orderBook.lastUpdated
      {
        assert asks[..j + 1][..j] == asks[..j];
        entity.askOrders := entity.askOrders + [TagOrder(entity, asks[j], ASK)];
        j := j + 1;
      }
      assert asks[..j] == asks;
      TaggedBookIsWellTagged(entity, bids, asks);
      UntagTagOrders(entity, bids, BID);
      UntagTagOrders(entity, asks, ASK);
    }
  }
}
