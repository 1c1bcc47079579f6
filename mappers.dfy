/**
  PriceMapper: between the domain Price and the REST PriceDto. Outgoing
  timestamps are written at offset UTC; incoming ones are reduced to the
  instant they denote, whatever their offset. A null argument maps to null,
  modelled as None.
 */
module PriceMapper {
  import opened Wrappers
  import opened Time
  import opened Domain

  /** PriceDto: the REST representation of a price. */
  datatype PriceDto = PriceDto(instrumentId: InstrumentId, bidPrice: Decimal, askPrice: Decimal, lastUpdated: OffsetDateTime)

  /** toDto */
  function ToDto(price: Option<Price>): (r: Option<PriceDto>)
    ensures r.Some? <==> price.Some?
    ensures r.Some? ==> (r.value.instrumentId == price.value.instrumentId
      && r.value.bidPrice == price.value.bidPrice && r.value.askPrice == price.value.askPrice)
    ensures r.Some? ==> r.value.lastUpdated.offsetSeconds == UTC && ToInstant(r.value.lastUpdated) == price.value.lastUpdated
  {
    match price
    case None => None
    case Some(p) => Some(PriceDto(p.instrumentId, p.bidPrice, p.askPrice, AtOffset(p.lastUpdated, UTC)))
  }

  /** toEntity */
  function ToEntity(dto: Option<PriceDto>): (r: Option<Price>)
    ensures r.Some? <==> dto.Some?
    ensures r.Some? ==> (r.value.instrumentId == dto.value.instrumentId
      && r.value.bidPrice == dto.value.bidPrice && r.value.askPrice == dto.value.askPrice)
    ensures r.Some? ==> r.value.lastUpdated == ToInstant(dto.value.lastUpdated)
  {
    match dto
    case None => None
    case Some(d) => Some(Price(d.instrumentId, d.bidPrice, d.askPrice, ToInstant(d.lastUpdated)))
  }

  /** A price survives the trip through its DTO unchanged. */
  lemma PriceRoundTrip(price: Option<Price>)
    ensures ToEntity(ToDto(price)) == price
  {
  }

  /** A DTO survives the trip through the domain exactly when its timestamp is written at UTC. */
  lemma DtoRoundTrip(dto: PriceDto)
    ensures ToDto(ToEntity(Some(dto))) == Some(dto) <==> dto.lastUpdated.offsetSeconds == UTC
  {
    if dto.lastUpdated.offsetSeconds == UTC {
      AtOffsetOfInstant(dto.lastUpdated);
    }
  }

  /** Two DTOs give the same price exactly when they agree on the fields and denote the same instant. */
  lemma ToEntityIdentifiesInstants(d1: PriceDto, d2: PriceDto)
    ensures ToEntity(Some(d1)) == ToEntity(Some(d2)) <==>
      d1.instrumentId == d2.instrumentId && d1.bidPrice == d2.bidPrice && d1.askPrice == d2.askPrice
      && ToInstant(d1.lastUpdated) == ToInstant(d2.lastUpdated)
  {
  }
}

/**
  OrderBookMapper: between the domain OrderBook and the REST OrderBookDto.
  Each side's list is mapped order by order, keeping its order.
 */
module OrderBookMapper {
  import opened Wrappers
  import opened Time
  import opened Domain

  /** OrderDto */
  datatype OrderDto = OrderDto(price: Decimal, volume: Decimal)

  /** OrderBookDto */
  datatype OrderBookDto = OrderBookDto(instrumentId: InstrumentId, bidOrders: seq<OrderDto>, askOrders: seq<OrderDto>, lastUpdated: OffsetDateTime)

  /** toOrderDto */
  function ToOrderDto(order: Order): (r: OrderDto)
    ensures r.price == order.price && r.volume == order.volume
  {
    OrderDto(order.price, order.volume)
  }

  /** toOrder */
  function ToOrder(dto: OrderDto): (r: Order)
    ensures r.price == dto.price && r.volume == dto.volume
  {
    Order(dto.price, dto.volume)
  }

  /** stream().map(this::toOrderDto).collect(toList()) */
  function ToOrderDtos(orders: seq<Order>): (r: seq<OrderDto>)
    ensures |r| == |orders|
    ensures forall i :: 0 <= i < |r| ==> r[i].price == orders[i].price && r[i].volume == orders[i].volume
  {
    seq(|orders|, i requires 0 <= i < |orders| => ToOrderDto(orders[i]))
  }

  /** stream().map(this::toOrder).collect(toList()) */
  function ToOrders(dtos: seq<OrderDto>): (r: seq<Order>)
    ensures |r| == |dtos|
    ensures forall i :: 0 <= i < |r| ==> r[i].price == dtos[i].price && r[i].volume == dtos[i].volume
  {
    seq(|dtos|, i requires 0 <= i < |dtos| => ToOrder(dtos[i]))
  }

  /** toDto */
  function ToDto(orderBook: Option<OrderBook>): (r: Option<OrderBookDto>)
    ensures r.Some? <==> orderBook.Some?
    ensures r.Some? ==> (r.value.instrumentId == orderBook.value.instrumentId
      && r.value.bidOrders == ToOrderDtos(orderBook.value.bidOrders)
      && r.value.askOrders == ToOrderDtos(orderBook.value.askOrders))
    ensures r.Some? ==> r.value.lastUpdated.offsetSeconds == UTC && ToInstant(r.value.lastUpdated) == orderBook.value.lastUpdated
  {
    match orderBook
    case None => None
    case Some(b) => Some(OrderBookDto(b.instrumentId, ToOrderDtos(b.bidOrders), ToOrderDtos(b.askOrders), AtOffset(b.lastUpdated, UTC)))
  }

  /** toEntity */
  function ToEntity(dto: Option<OrderBookDto>): (r: Option<OrderBook>)
    ensures r.Some? <==> dto.Some?
    ensures r.Some? ==> (r.value.instrumentId == dto.value.instrumentId
      && r.value.bidOrders == ToOrders(dto.value.bidOrders)
      && r.value.askOrders == ToOrders(dto.value.askOrders))
    ensures r.Some? ==> r.value.lastUpdated == ToInstant(dto.value.lastUpdated)
  {
    match dto
    case None => None
    case Some(d) => Some(OrderBook(d.instrumentId, ToOrders(d.bidOrders), ToOrders(d.askOrders), ToInstant(d.lastUpdated)))
  }

  /** Mapping a list of orders to DTOs and back gives the same list. */
  lemma OrdersRoundTrip(orders: seq<Order>)
    ensures ToOrders(ToOrderDtos(orders)) == orders
  {
    var back := ToOrders(ToOrderDtos(orders));
    assert forall i :: 0 <= i < |orders| ==> back[i] == orders[i];
  }

  /** Mapping a list of DTOs to orders and back gives the same list. */
  lemma OrderDtosRoundTrip(dtos: seq<OrderDto>)
    ensures ToOrderDtos(ToOrders(dtos)) == dtos
  {
    var back := ToOrderDtos(ToOrders(dtos));
    assert forall i :: 0 <= i < |dtos| ==> back[i] == dtos[i];
  }

  /** An order book survives the trip through its DTO unchanged, both lists in order. */
  lemma OrderBookRoundTrip(orderBook: Option<OrderBook>)
    ensures ToEntity(ToDto(orderBook)) == orderBook
  {
    if orderBook.Some? {
      OrdersRoundTrip(orderBook.value.bidOrders);
      OrdersRoundTrip(orderBook.value.askOrders);
    }
  }

  /** A DTO survives the trip through the domain exactly when its timestamp is written at UTC. */
  lemma OrderBookDtoRoundTrip(dto: OrderBookDto)
    ensures ToDto(ToEntity(Some(dto))) == Some(dto) <==> dto.lastUpdated.offsetSeconds == UTC
  {
    OrderDtosRoundTrip(dto.bidOrders);
    OrderDtosRoundTrip(dto.askOrders);
    if dto.lastUpdated.offsetSeconds == UTC {
      AtOffsetOfInstant(dto.lastUpdated);
    }
  }
}
