/**
  JpaPriceRepository: the repository port over the two tables. Each save
  stamps the entity with its own reading of the clock.
 */
module JpaRepository {
  import opened Wrappers
  import opened Time
  import opened Domain
  import opened Clocks
  import opened Persistence

  /** mapToPrice */
  function MapToPrice(entity: PriceEntity): (r: Price)
    ensures r.instrumentId == entity.instrumentId && r.lastUpdated == entity.lastUpdated
    ensures r.bidPrice == entity.bidPrice && r.askPrice == entity.askPrice
  {
    Price(entity.instrumentId, entity.bidPrice, entity.askPrice, entity.lastUpdated)
  }

  /** mapToPriceEntity */
  function MapToPriceEntity(price: Price): (r: PriceEntity)
    ensures r.instrumentId == price.instrumentId && r.lastUpdated == price.lastUpdated
    ensures r.bidPrice == price.bidPrice && r.askPrice == price.askPrice
  {
    PriceEntity(price.instrumentId, price.bidPrice, price.askPrice, price.lastUpdated)
  }

  /** The two price mappings are inverse to each other: no field is lost or altered. */
  lemma PriceMappingRoundTrip(price: Price, entity: PriceEntity)
    ensures MapToPrice(MapToPriceEntity(price)) == price
    ensures MapToPriceEntity(MapToPrice(entity)) == entity
  {
  }

  /** mapToOrderBook: the domain book of an entity, each list read back in stored order. */
  function MapToOrderBook(entity: OrderBookEntity): OrderBook
    reads entity
  {
    OrderBook(entity.instrumentId, UntagOrders(entity.bidOrders), UntagOrders(entity.askOrders), entity.lastUpdated)
  }

  /** The book read back from an entity has its id and timestamp and one order per stored entry, in stored order. */
  lemma MapToOrderBookCopiesEntries(entity: OrderBookEntity)
    ensures MapToOrderBook(entity).instrumentId == entity.instrumentId
    ensures MapToOrderBook(entity).lastUpdated == entity.lastUpdated
    ensures |MapToOrderBook(entity).bidOrders| == |entity.bidOrders|
    ensures |MapToOrderBook(entity).askOrders| == |entity.askOrders|
    ensures forall i :: 0 <= i < |entity.bidOrders| ==>
      MapToOrderBook(entity).bidOrders[i] == Order(entity.bidOrders[i].price, entity.bidOrders[i].volume)
    ensures forall i :: 0 <= i < |entity.askOrders| ==>
      MapToOrderBook(entity).askOrders[i] == Order(entity.askOrders[i].price, entity.askOrders[i].volume)
  {
    UntagOrdersShape(entity.bidOrders);
    UntagOrdersShape(entity.askOrders);
  }

  /** Mapping every row of a listing keeps it a listing of the mapped store. */
  lemma MappedRows(rows: seq<PriceEntity>, table: map<InstrumentId, PriceEntity>, r: seq<Price>, mapped: map<InstrumentId, Price>)
    requires |rows| == |table|
    requires forall i :: 0 <= i < |rows| ==> rows[i].instrumentId in table && table[rows[i].instrumentId] == rows[i]
    requires forall i, j :: 0 <= i < j < |rows| ==> rows[i].instrumentId != rows[j].instrumentId
    requires forall id :: id in table ==> exists i :: 0 <= i < |rows| && rows[i].instrumentId == id
    requires |r| == |rows| && forall i :: 0 <= i < |rows| ==> r[i] == MapToPrice(rows[i])
    requires mapped == map id | id in table :: MapToPrice(table[id])
    ensures |r| == |mapped|
    ensures forall i :: 0 <= i < |r| ==> r[i].instrumentId in mapped && mapped[r[i].instrumentId] == r[i]
    ensures forall i, j :: 0 <= i < j < |r| ==> r[i].instrumentId != r[j].instrumentId
    ensures forall id :: id in mapped ==> exists i :: 0 <= i < |r| && r[i].instrumentId == id
  {
    assert mapped.Keys == table.Keys;
    forall id | id in mapped
      ensures exists i :: 0 <= i < |r| && r[i].instrumentId == id
    {
      var i :| 0 <= i < |rows| && rows[i].instrumentId == id;
      assert r[i].instrumentId == id;
    }
  }

  class JpaPriceRepository {
    const prices: PriceTable
    const orderBooks: OrderBookTable
    const clock: Clock

    constructor (prices: PriceTable, orderBooks: OrderBookTable, clock: Clock)
      ensures this.prices == prices && this.orderBooks == orderBooks && this.clock == clock
    {
      this.prices := prices;
      this.orderBooks := orderBooks;
      this.clock := clock;
    }

    ghost predicate Valid()
      reads prices, orderBooks, orderBooks.rows.Values
    {
      prices.Valid() && orderBooks.Valid()
    }

    /** The stored prices, as domain values. */
    function Prices(): map<InstrumentId, Price>
      reads prices
    {
      map id | id in prices.rows :: MapToPrice(prices.rows[id])
    }

    /** The stored order books, as domain values. */
    function OrderBooks(): map<InstrumentId, OrderBook>
      reads orderBooks, orderBooks.rows.Values
    {
      map id | id in orderBooks.rows :: MapToOrderBook(orderBooks.rows[id])
    }

    /** findByInstrumentId: absent when no row has the id, never an error. */
    function FindByInstrumentId(instrumentId: InstrumentId): (r: Option<Price>)
      reads prices
      requires prices.Valid()
      ensures r.Some? <==> instrumentId in Prices()
      ensures r.Some? ==> r.value == Prices()[instrumentId] && r.value.instrumentId == instrumentId
    {
      if prices.ExistsById(instrumentId) then Some(MapToPrice(prices.rows[instrumentId])) else None
    }

    /**
      save: an upsert keyed by the instrument id; the stored and returned
      lastUpdated is the repository's own clock reading, whatever the input held.
     */
    method Save(price: Price) returns (saved: Price)
      requires Valid()
      modifies prices, clock
      ensures Valid()
      ensures saved == price.(lastUpdated := clock.now) && old(clock.now) <= clock.now
      ensures Prices() == old(Prices())[price.instrumentId := saved]
      ensures prices.scanOrder == if price.instrumentId in old(prices.rows) then old(prices.scanOrder) else old(prices.scanOrder) + [price.instrumentId]
    {
      var entity := MapToPriceEntity(price);
      var now := clock.Now();
      entity := entity.(lastUpdated := now);
      var savedEntity := prices.Save(entity);
      saved := MapToPrice(savedEntity);
    }

    /** deleteByInstrumentId: true exactly when the id was stored; afterwards it is not. */
    method DeleteByInstrumentId(instrumentId: InstrumentId) returns (deleted: bool)
      requires Valid()
      modifies prices
      ensures Valid()
      ensures deleted == (instrumentId in old(Prices()))
      ensures Prices() == old(Prices()) - {instrumentId}
      ensures !deleted ==> prices.rows == old(prices.rows) && prices.scanOrder == old(prices.scanOrder)
    {
      if prices.ExistsById(instrumentId) {
        prices.DeleteById(instrumentId);
        deleted := true;
      } else {
        deleted := false;
      }
    }

    /** findAll: one domain price per stored row, in scan order. */
    function FindAll(): (r: seq<Price>)
      reads prices
      requires prices.Valid()
      ensures |r| == |Prices()|
      ensures forall i :: 0 <= i < |r| ==> r[i].instrumentId in Prices() && Prices()[r[i].instrumentId] == r[i]
      ensures forall i, j :: 0 <= i < j < |r| ==> r[i].instrumentId != r[j].instrumentId
      ensures forall id :: id in Prices() ==> exists i :: 0 <= i < |r| && r[i].instrumentId == id
    {
      var rows := prices.FindAll();
      var r := seq(|rows|, i requires 0 <= i < |rows| => MapToPrice(rows[i]));
      MappedRows(rows, prices.rows, r, Prices());
      r
    }

    /** findOrderBookByInstrumentId */
    function FindOrderBookByInstrumentId(instrumentId: InstrumentId): (r: Option<OrderBook>)
      reads orderBooks, orderBooks.rows.Values
      requires orderBooks.Valid()
      ensures r.Some? <==> instrumentId in OrderBooks()
      ensures r.Some? ==> r.value == OrderBooks()[instrumentId] && r.value.instrumentId == instrumentId
    {
      if instrumentId in orderBooks.rows then Some(MapToOrderBook(orderBooks.rows[instrumentId])) else None
    }

    /**
      saveOrderBook: replaces the stored book with the given lists, in the
      given order, stamped with the repository's clock reading.
     */
    method SaveOrderBook(orderBook: OrderBook) returns (saved: OrderBook)
      requires Valid()
      modifies orderBooks, clock
      ensures Valid()
      ensures saved == orderBook.(lastUpdated := clock.now) && old(clock.now) <= clock.now
      ensures OrderBooks().Keys == old(OrderBooks()).Keys + {orderBook.instrumentId}
      ensures OrderBooks()[orderBook.instrumentId] == saved
      ensures forall id :: id in old(OrderBooks()) && id != orderBook.instrumentId ==> OrderBooks()[id] == old(OrderBooks())[id]
    {
      ghost var oldRows := orderBooks.rows;
      ghost var before := OrderBooks();
      var entity := MapToOrderBookEntity(orderBook);
      var now := clock.Now();
      entity.lastUpdated := now;
      assert entity.WellTagged();
      var savedEntity := orderBooks.Save(entity);
      saved := MapToOrderBook(savedEntity);
      UntagTagOrders(entity, orderBook.bidOrders, BID);
      UntagTagOrders(entity, orderBook.askOrders, ASK);
      assert unchanged(oldRows.Values);
      forall id | id in oldRows && id != orderBook.instrumentId
        ensures MapToOrderBook(orderBooks.rows[id]) == before[id]
      {
        var e := oldRows[id];
        assert e in oldRows.Values;
        assert MapToOrderBook(e) == old(MapToOrderBook(e));
      }
    }

    /** mapToOrderBookEntity: the bid orders tagged BID and the ask orders tagged ASK, all owned by the new entity. */
    static method MapToOrderBookEntity(orderBook: OrderBook) returns (entity: OrderBookEntity)
      ensures fresh(entity)
      ensures entity.instrumentId == orderBook.instrumentId && entity.lastUpdated == orderBook.lastUpdated
      ensures entity.bidOrders == TagOrders(entity, orderBook.bidOrders, BID)
      ensures entity.askOrders == TagOrders(entity, orderBook.askOrders, ASK)
      ensures entity.WellTagged()
    {
      entity := new OrderBookEntity(orderBook.instrumentId, orderBook.lastUpdated);
      var bidOrders := TagOrders(entity, orderBook.bidOrders, BID);
      var askOrders := TagOrders(entity, orderBook.askOrders, ASK);
      entity.bidOrders := bidOrders;
      entity.askOrders := askOrders;
      TaggedBookIsWellTagged(entity, orderBook.bidOrders, orderBook.askOrders);
    }
  }
}
