/**
  The REST adapter: PriceController and OrderBookController over the domain
  service. Absence becomes 404, success 200 (204 for a delete). The writes
  (POST and DELETE under /prices, POST under /orderbook) sit behind HTTP
  basic authentication; whether the request carried valid credentials is
  the `authenticated` argument, and a request without them is answered 401
  before the controller runs.
 */
module RestControllers {
  import opened Wrappers
  import opened Time
  import opened Domain
  import opened JpaRepository
  import opened Kafka
  import opened PriceServices
  import PriceMapper
  import OrderBookMapper

  const OK: int := 200
  const NO_CONTENT: int := 204
  const UNAUTHORIZED: int := 401
  const NOT_FOUND: int := 404

  /** ResponseEntity: a status and an optional body. */
  datatype ResponseEntity<T> = ResponseEntity(status: int, body: Option<T>)

  /** optional.map(ResponseEntity::ok).orElse(ResponseEntity.notFound().build()) */
  function OkOrNotFound<T>(found: Option<T>): (r: ResponseEntity<T>)
    ensures r.status == OK <==> found.Some?
    ensures r.status == NOT_FOUND <==> found.None?
    ensures r.body == found
  {
    match found
    case Some(x) => ResponseEntity(OK, Some(x))
    case None => ResponseEntity(NOT_FOUND, None)
  }

  /** prices.stream().map(priceMapper::toDto).collect(toList()) */
  function ToDtos(prices: seq<Price>): (r: seq<PriceMapper.PriceDto>)
    ensures |r| == |prices|
    ensures forall i :: 0 <= i < |r| ==> (r[i].instrumentId == prices[i].instrumentId
      && r[i].lastUpdated.offsetSeconds == UTC && PriceMapper.ToEntity(Some(r[i])) == Some(prices[i]))
  {
    seq(|prices|, i requires 0 <= i < |prices| => PriceMapper.ToDto(Some(prices[i])).value)
  }

  /** The DTOs of a listing of a store list that store, written at UTC. */
  lemma DtoListing(prices: seq<Price>, dtos: seq<PriceMapper.PriceDto>, store: map<InstrumentId, Price>)
    requires forall i :: 0 <= i < |prices| ==> prices[i].instrumentId in store && store[prices[i].instrumentId] == prices[i]
    requires forall id :: id in store ==> exists i :: 0 <= i < |prices| && prices[i].instrumentId == id
    requires dtos == ToDtos(prices)
    ensures forall i :: 0 <= i < |dtos| ==>
      dtos[i].lastUpdated.offsetSeconds == UTC
      && dtos[i].instrumentId in store
      && PriceMapper.ToEntity(Some(dtos[i])) == Some(store[dtos[i].instrumentId])
    ensures forall id :: id in store ==> exists i :: 0 <= i < |dtos| && dtos[i].instrumentId == id
  {
    forall id | id in store
      ensures exists i :: 0 <= i < |dtos| && dtos[i].instrumentId == id
    {
      var i :| 0 <= i < |prices| && prices[i].instrumentId == id;
      assert dtos[i].instrumentId == id;
    }
  }

  /** PriceController */
  class PriceController {
    const priceService: PriceServiceImpl

    constructor (priceService: PriceServiceImpl)
      ensures this.priceService == priceService
    {
      this.priceService := priceService;
    }

    /** The stored prices, through the service. */
    function Prices(): map<InstrumentId, Price>
      reads priceService.repository.prices
    {
      priceService.repository.Prices()
    }

    /**
      getAllPrices: 200 with one DTO per stored price, in the service's
      listing order, each written at UTC and reading back as the stored price.
     */
    function GetAllPrices(): (r: ResponseEntity<seq<PriceMapper.PriceDto>>)
      reads priceService.repository.prices
      requires priceService.repository.prices.Valid()
      ensures r.status == OK && r.body.Some?
      ensures |r.body.value| == |Prices()|
      ensures forall i :: 0 <= i < |r.body.value| ==>
        r.body.value[i].lastUpdated.offsetSeconds == UTC
        && r.body.value[i].instrumentId in Prices()
        && PriceMapper.ToEntity(Some(r.body.value[i])) == Some(Prices()[r.body.value[i].instrumentId])
      ensures forall id :: id in Prices() ==> exists i :: 0 <= i < |r.body.value| && r.body.value[i].instrumentId == id
      ensures forall i :: 0 <= i < |r.body.value| ==>
        PriceMapper.ToEntity(Some(r.body.value[i])) == Some(priceService.GetAllPrices()[i])
    {
      var prices := priceService.GetAllPrices();
      var dtos := ToDtos(prices);
      DtoListing(prices, dtos, Prices());
      ResponseEntity(OK, Some(dtos))
    }

    /** getPrice: 200 with the DTO of the stored price, or 404 without a body. */
    function GetPrice(instrumentId: InstrumentId): (r: ResponseEntity<PriceMapper.PriceDto>)
      reads priceService.repository.prices
      requires priceService.repository.prices.Valid()
      ensures r.status == OK <==> instrumentId in Prices()
      ensures r.status == NOT_FOUND <==> instrumentId !in Prices()
      ensures r.body.Some? <==> instrumentId in Prices()
      ensures r.body.Some? ==> (r.body.value.lastUpdated.offsetSeconds == UTC
        && PriceMapper.ToEntity(r.body) == Some(Prices()[instrumentId]))
    {
      OkOrNotFound(PriceMapper.ToDto(priceService.GetPrice(instrumentId)))
    }

    /**
      savePrice: the path id wins over the id in the body; the price is
      saved through the service (which stamps and publishes it) and the
      saved price is returned. Unauthenticated: 401 and nothing happens.
     */
    method SavePrice(authenticated: bool, instrumentId: InstrumentId, priceDto: PriceMapper.PriceDto)
      returns (r: ResponseEntity<PriceMapper.PriceDto>)
      requires priceService.Valid()
      modifies priceService.repository.prices, priceService.repository.clock, priceService.Outbox()
      ensures priceService.Valid()
      ensures !authenticated ==> r == ResponseEntity(UNAUTHORIZED, None)
      ensures !authenticated ==> Prices() == old(Prices()) && priceService.Outbox().sent == old(priceService.Outbox().sent)
      ensures authenticated ==> r.status == OK && r.body.Some?
      ensures authenticated ==> r.body.value == PriceMapper.PriceDto(instrumentId, priceDto.bidPrice, priceDto.askPrice,
        AtOffset(priceService.repository.clock.now, UTC))
      ensures authenticated ==> Prices() == old(Prices())[instrumentId := PriceMapper.ToEntity(r.body).value]
      ensures authenticated ==> old(priceService.repository.clock.now) <= priceService.repository.clock.now
      ensures authenticated ==> exists saved: Price ::
        PriceMapper.ToEntity(r.body) == Some(saved)
        && priceService.Outbox().sent == old(priceService.Outbox().sent) + [
          JsonRecord(priceService.priceKafkaProducer.topic, saved),
          ProtoRecord(priceService.protoPriceKafkaProducer.topic, saved, priceService.protoPriceKafkaProducer.doubleValue)]
    {
      if !authenticated {
        return ResponseEntity(UNAUTHORIZED, None);
      }
      var dto := priceDto;
      if instrumentId != dto.instrumentId {
        dto := dto.(instrumentId := instrumentId);
      }
      var price := PriceMapper.ToEntity(Some(dto)).value;
      var savedPrice := priceService.SavePrice(price);
      r := ResponseEntity(OK, PriceMapper.ToDto(Some(savedPrice)));
      PriceMapper.PriceRoundTrip(Some(savedPrice));
    }

    /** deletePrice: 204 when a price was deleted, 404 when there was none. Unauthenticated: 401 and nothing happens. */
    method DeletePrice(authenticated: bool, instrumentId: InstrumentId) returns (r: ResponseEntity<()>)
      requires priceService.Valid()
      modifies priceService.repository.prices
      ensures priceService.Valid()
      ensures r.body == None
      ensures !authenticated ==> r.status == UNAUTHORIZED && Prices() == old(Prices())
      ensures authenticated ==> (r.status == NO_CONTENT <==> instrumentId in old(Prices()))
      ensures authenticated ==> (r.status == NOT_FOUND <==> instrumentId !in old(Prices()))
      ensures authenticated ==> Prices() == old(Prices()) - {instrumentId}
    {
      if !authenticated {
        return ResponseEntity(UNAUTHORIZED, None);
      }
      var deleted := priceService.DeletePrice(instrumentId);
      r := if deleted then ResponseEntity(NO_CONTENT, None) else ResponseEntity(NOT_FOUND, None);
    }
  }

  /** OrderBookController */
  class OrderBookController {
    const priceService: PriceServiceImpl

    constructor (priceService: PriceServiceImpl)
      ensures this.priceService == priceService
    {
      this.priceService := priceService;
    }

    /** The stored order books, through the service. */
    function OrderBooks(): map<InstrumentId, OrderBook>
      reads priceService.repository.orderBooks, priceService.repository.orderBooks.rows.Values
    {
      priceService.repository.OrderBooks()
    }

    /** getOrderBook: 200 with the DTO of the stored book, or 404 without a body. */
    function GetOrderBook(instrumentId: InstrumentId): (r: ResponseEntity<OrderBookMapper.OrderBookDto>)
      reads priceService.repository.orderBooks, priceService.repository.orderBooks.rows.Values
      requires priceService.repository.orderBooks.Valid()
      ensures r.status == OK <==> instrumentId in OrderBooks()
      ensures r.status == NOT_FOUND <==> instrumentId !in OrderBooks()
      ensures r.body.Some? <==> instrumentId in OrderBooks()
      ensures r.body.Some? ==> (r.body.value.lastUpdated.offsetSeconds == UTC
        && OrderBookMapper.ToEntity(r.body) == Some(OrderBooks()[instrumentId]))
    {
      var found := priceService.GetOrderBook(instrumentId);
      OrderBookMapper.OrderBookRoundTrip(found);
      OkOrNotFound(OrderBookMapper.ToDto(found))
    }

    /**
      saveOrderBook: the path id wins over the id in the body; both lists
      are stored in the order given and returned with the new timestamp.
      Unauthenticated: 401 and nothing happens.
     */
    method SaveOrderBook(authenticated: bool, instrumentId: InstrumentId, orderBookDto: OrderBookMapper.OrderBookDto)
      returns (r: ResponseEntity<OrderBookMapper.OrderBookDto>)
      requires priceService.Valid()
      modifies priceService.repository.orderBooks, priceService.repository.clock
      ensures priceService.Valid()
      ensures !authenticated ==> r == ResponseEntity(UNAUTHORIZED, None)
      ensures !authenticated ==> priceService.repository.orderBooks.rows == old(priceService.repository.orderBooks.rows)
      ensures authenticated ==> r.status == OK && r.body.Some?
      ensures authenticated ==> r.body.value == orderBookDto.(instrumentId := instrumentId,
        lastUpdated := AtOffset(priceService.repository.clock.now, UTC))
      ensures authenticated ==> OrderBooks().Keys == old(OrderBooks()).Keys + {instrumentId}
      ensures authenticated ==> Some(OrderBooks()[instrumentId]) == OrderBookMapper.ToEntity(r.body)
      ensures authenticated ==> forall id :: id in old(OrderBooks()) && id != instrumentId ==> OrderBooks()[id] == old(OrderBooks())[id]
    {
      if !authenticated {
        return ResponseEntity(UNAUTHORIZED, None);
      }
      var dto := orderBookDto;
      if instrumentId != dto.instrumentId {
        dto := dto.(instrumentId := instrumentId);
      }
      var orderBook := OrderBookMapper.ToEntity(Some(dto)).value;
      var savedOrderBook := priceService.SaveOrderBook(orderBook);
      r := ResponseEntity(OK, OrderBookMapper.ToDto(Some(savedOrderBook)));
      OrderBookMapper.OrderBookRoundTrip(Some(savedOrderBook));
      OrderBookMapper.OrderDtosRoundTrip(orderBookDto.bidOrders);
      OrderBookMapper.OrderDtosRoundTrip(orderBookDto.askOrders);
    }
  }
}
