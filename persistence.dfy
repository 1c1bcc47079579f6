/**
  The storage collaborators: the JPA entities and the two tables behind
  PriceJpaRepository and OrderBookJpaRepository, kept as maps keyed by
  instrument id.
 */
module Persistence {
  import opened Wrappers
  import opened Time
  import opened Domain

  /** OrderEntity.OrderType: the order_type column; a book reloads its bid list from BID rows and its ask list from ASK rows. */
  datatype OrderType = BID | ASK

  /** PriceEntity: one row of the prices table. */
  datatype PriceEntity = PriceEntity(instrumentId: InstrumentId, bidPrice: Decimal, askPrice: Decimal, lastUpdated: Instant)

  /** OrderEntity: one row of the orders table, pointing at the book that owns it. */
  datatype OrderEntity = OrderEntity(orderBook: OrderBookEntity, price: Decimal, volume: Decimal, orderType: OrderType)

  /** OrderBookEntity: its lists and timestamp are filled in place after the builder creates it. */
  class OrderBookEntity {
    var instrumentId: InstrumentId
    var bidOrders: seq<OrderEntity>
    var askOrders: seq<OrderEntity>
    var lastUpdated: Instant

    /** OrderBookEntity.builder().instrumentId(..).lastUpdated(..).build(): both lists start empty. */
    constructor (instrumentId: InstrumentId, lastUpdated: Instant)
      ensures this.instrumentId == instrumentId && this.lastUpdated == lastUpdated
      ensures bidOrders == [] && askOrders == []
    {
      this.instrumentId := instrumentId;
      this.lastUpdated := lastUpdated;
      bidOrders := [];
      askOrders := [];
    }

    /** Every order of the book points back at it and is typed after the list it is in. */
    ghost predicate WellTagged()
      reads this
    {
      && (forall i :: 0 <= i < |bidOrders| ==> bidOrders[i].orderBook == this && bidOrders[i].orderType == BID)
      && (forall i :: 0 <= i < |askOrders| ==> askOrders[i].orderBook == this && askOrders[i].orderType == ASK)
    }
  }

  /** The order entity built for one order of a book. */
  function TagOrder(book: OrderBookEntity, order: Order, orderType: OrderType): OrderEntity
  {
    OrderEntity(book, order.price, order.volume, orderType)
  }

  /** One order entity per order, in the same order, each owned by `book` and typed `orderType`. */
  function TagOrders(book: OrderBookEntity, orders: seq<Order>, orderType: OrderType): seq<OrderEntity>
  {
    if orders == [] then []
    else TagOrders(book, orders[..|orders| - 1], orderType) + [TagOrder(book, orders[|orders| - 1], orderType)]
  }

  /** The domain orders of a list of order entities: price and volume of each, in order. */
  function UntagOrders(entities: seq<OrderEntity>): seq<Order>
  {
    if entities == [] then []
    else UntagOrders(entities[..|entities| - 1]) + [Order(entities[|entities| - 1].price, entities[|entities| - 1].volume)]
  }

  /** Tagging keeps length and order, and types and owns every entry. */
  lemma {:induction false} TagOrdersShape(book: OrderBookEntity, orders: seq<Order>, orderType: OrderType)
    ensures |TagOrders(book, orders, orderType)| == |orders|
    ensures forall i :: 0 <= i < |orders| ==> TagOrders(book, orders, orderType)[i] == TagOrder(book, orders[i], orderType)
  {
    if orders != [] {
      TagOrdersShape(book, orders[..|orders| - 1], orderType);
    }
  }

  /** Reading back keeps length and order, and the price and volume of every entry. */
  lemma {:induction false} UntagOrdersShape(entities: seq<OrderEntity>)
    ensures |UntagOrders(entities)| == |entities|
    ensures forall i :: 0 <= i < |entities| ==>
      UntagOrders(entities)[i] == Order(entities[i].price, entities[i].volume)
  {
    if entities != [] {
      UntagOrdersShape(entities[..|entities| - 1]);
    }
  }

  /** Reading a tagged list back gives the original orders. */
  lemma {:induction false} UntagTagOrders(book: OrderBookEntity, orders: seq<Order>, orderType: OrderType)
    ensures UntagOrders(TagOrders(book, orders, orderType)) == orders
  {
    if orders != [] {
      var init := orders[..|orders| - 1];
      UntagTagOrders(book, init, orderType);
      var tagged := TagOrders(book, orders, orderType);
      assert tagged[..|tagged| - 1] == TagOrders(book, init, orderType);
      assert init + [orders[|orders| - 1]] == orders;
    }
  }

  /** A book whose lists are the tagged bid and ask orders is well tagged. */
  lemma TaggedBookIsWellTagged(book: OrderBookEntity, bids: seq<Order>, asks: seq<Order>)
    requires book.bidOrders == TagOrders(book, bids, BID)
    requires book.askOrders == TagOrders(book, asks, ASK)
    ensures book.WellTagged()
  {
    TagOrdersShape(book, bids, BID);
    TagOrdersShape(book, asks, ASK);
  }

  predicate Distinct<T(==)>(s: seq<T>)
  {
    forall i, j :: 0 <= i < j < |s| ==> s[i] != s[j]
  }

  /** The sequence without the given element. */
  function Without(s: seq<InstrumentId>, x: InstrumentId): (r: seq<InstrumentId>)
    ensures forall y :: y in r <==> y in s && y != x
    ensures Distinct(s) ==> Distinct(r)
  {
    if s == [] then []
    else if s[0] == x then Without(s[1..], x)
    else
      var rest := Without(s[1..], x);
      assert Distinct(s) ==> s[0] !in rest && Distinct(s[1..]);
      [s[0]] + rest
  }

  /** A duplicate-free sequence has as many elements as the set of its elements. */
  lemma {:induction false} DistinctCardinality<T>(s: seq<T>, elements: set<T>)
    requires Distinct(s)
    requires forall y :: y in s <==> y in elements
    ensures |s| == |elements|
  {
    if s != [] {
      var rest := elements - {s[0]};
      assert forall y :: y in s[1..] <==> y in rest by {
        forall y ensures y in s[1..] <==> y in rest {
          if y in s[1..] {
            var j :| 1 <= j < |s| && s[j] == y;
          }
          if y in s && y != s[0] {
            var j :| 0 <= j < |s| && s[j] == y;
            assert s[1..][j - 1] == y;
          }
        }
      }
      DistinctCardinality(s[1..], rest);
    }
  }

  /** The rows at the given ids, in the order of the ids. */
  function RowsAt<K, V>(ids: seq<K>, rows: map<K, V>): (r: seq<V>)
    requires forall id :: id in ids ==> id in rows
    ensures |r| == |ids|
    ensures forall i :: 0 <= i < |ids| ==> r[i] == rows[ids[i]]
  {
    if ids == [] then [] else [rows[ids[0]]] + RowsAt(ids[1..], rows)
  }

  /** The prices table; scanOrder is the order findAll() returns its rows in. */
  class PriceTable {
    var rows: map<InstrumentId, PriceEntity>
    var scanOrder: seq<InstrumentId>

    ghost predicate Valid()
      reads this
    {
      && (forall id :: id in rows ==> rows[id].instrumentId == id)
      && Distinct(scanOrder)
      && (forall id :: id in scanOrder <==> id in rows)
    }

    constructor ()
      ensures Valid() && rows == map[] && scanOrder == []
    {
      rows := map[];
      scanOrder := [];
    }

    /** existsById: a row has the id; in a consistent table, exactly when findAll lists it. */
    predicate ExistsById(id: InstrumentId): (b: bool)
      reads this
      ensures Valid() ==> (b <==> id in scanOrder)
      ensures Valid() && b ==> rows[id].instrumentId == id
    {
      id in rows
    }

    /** save: insert or replace the row with the entity's id; a new row is scanned last. */
    method Save(entity: PriceEntity) returns (saved: PriceEntity)
      requires Valid()
      modifies this
      ensures Valid() && saved == entity
      ensures rows == old(rows)[entity.instrumentId := entity]
      ensures scanOrder == if entity.instrumentId in old(rows) then old(scanOrder) else old(scanOrder) + [entity.instrumentId]
    {
      if entity.instrumentId !in rows {
        scanOrder := scanOrder + [entity.instrumentId];
      }
      rows := rows[entity.instrumentId := entity];
      saved := entity;
    }

    /** deleteById */
    method DeleteById(id: InstrumentId)
      requires Valid()
      modifies this
      ensures Valid()
      ensures rows == old(rows) - {id} && scanOrder == Without(old(scanOrder), id)
    {
      rows := rows - {id};
      scanOrder := Without(scanOrder, id);
    }

    /** findAll: every row once, in scan order. */
    function FindAll(): (r: seq<PriceEntity>)
      reads this
      requires Valid()
      ensures |r| == |rows|
      ensures forall i :: 0 <= i < |r| ==> r[i].instrumentId in rows && rows[r[i].instrumentId] == r[i]
      ensures forall i, j :: 0 <= i < j < |r| ==> r[i].instrumentId != r[j].instrumentId
      ensures forall id :: id in rows ==> exists i :: 0 <= i < |r| && r[i].instrumentId == id
    {
      ScanCoversRows(scanOrder, rows);
      var r := RowsAt(scanOrder, rows);
      assert forall i :: 0 <= i < |r| ==> r[i].instrumentId == scanOrder[i];
      r
    }
  }

  /** Reading the rows of a duplicate-free listing of the keys gives each row exactly once. */
  lemma ScanCoversRows(ids: seq<InstrumentId>, rows: map<InstrumentId, PriceEntity>)
    requires forall id :: id in rows ==> rows[id].instrumentId == id
    requires Distinct(ids) && forall id :: id in ids <==> id in rows
    ensures |RowsAt(ids, rows)| == |rows|
    ensures forall i :: 0 <= i < |ids| ==> RowsAt(ids, rows)[i].instrumentId == ids[i]
    ensures forall id :: id in rows ==> exists i :: 0 <= i < |ids| && RowsAt(ids, rows)[i].instrumentId == id
  {
    DistinctCardinality(ids, rows.Keys);
    var r := RowsAt(ids, rows);
    forall id | id in rows
      ensures exists i :: 0 <= i < |ids| && r[i].instrumentId == id
    {
      var i :| 0 <= i < |ids| && ids[i] == id;
      assert r[i].instrumentId == id;
    }
  }

  /** The order_books table, holding the entity objects it was given. */
  class OrderBookTable {
    var rows: map<InstrumentId, OrderBookEntity>

    ghost predicate Valid()
      reads this, rows.Values
    {
      forall id :: id in rows ==> rows[id].instrumentId == id && rows[id].WellTagged()
    }

    constructor ()
      ensures Valid() && rows == map[]
    {
      rows := map[];
    }

    /**
      save: insert or replace the book with the entity's id, with all its
      orders (cascade and orphan removal replace the old orders). Both mappers
      hand it well-tagged entities only, so the reload filter on order_type
      gives back the same lists.
     */
    method Save(entity: OrderBookEntity) returns (saved: OrderBookEntity)
      requires Valid() && entity.WellTagged()
      modifies this
      ensures Valid() && saved == entity
      ensures rows == old(rows)[entity.instrumentId := entity]
    {
      rows := rows[entity.instrumentId := entity];
      saved := entity;
    }
  }
}
