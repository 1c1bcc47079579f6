/**
  GrpcPriceServiceController: the gRPC adapter over the domain service.
  A unary call answers one message and completes, or fails with a status;
  the server stream answers one message per instrument that has a price and
  then completes. A response observer is modelled as the sequence of
  messages it received and how the call ended.
 */
module GrpcController {
  import opened Wrappers
  import opened Time
  import opened Domain
  import opened GrpcMessages
  import opened Pagination
  import opened JpaRepository
  import opened PriceServices

  /** The io.grpc.Status codes the controller answers with. */
  datatype StatusCode = NOT_FOUND | INTERNAL

  /** How a call ended: onCompleted(), or onError(status.withDescription(description)). */
  datatype Terminal = Completed | Failed(code: StatusCode, description: string)

  /** What the response observer saw: the onNext messages in order, then the end of the call. */
  datatype Call<T> = Call(messages: seq<T>, terminal: Terminal)

  datatype GetAllPricesRequest = GetAllPricesRequest(page: int, size: int)

  datatype GetAllPricesResponse = GetAllPricesResponse(prices: seq<GrpcPrice>, totalCount: int, page: int, size: int)

  datatype GetPriceResponse = GetPriceResponse(price: GrpcPrice)

  const NOT_FOUND_PREFIX: string := "Price not found for instrument: "
  const GET_ALL_FAILED_PREFIX: string := "Failed to retrieve prices: "

  /** paginatedPrices.stream().map(this::convertToGrpcPrice).collect(toList()) */
  function ConvertAll(prices: seq<Price>, doubleValue: DoubleValue): (r: seq<GrpcPrice>)
    ensures |r| == |prices|
    ensures forall i :: 0 <= i < |r| ==> r[i] == ConvertToGrpcPrice(prices[i], doubleValue)
  {
    seq(|prices|, i requires 0 <= i < |prices| => ConvertToGrpcPrice(prices[i], doubleValue))
  }

  /** The response for one page of a listing. */
  function PageResponse(page: Page<Price>, doubleValue: DoubleValue): (r: GetAllPricesResponse)
    ensures r.totalCount == page.totalCount && r.page == page.page && r.size == page.size
    ensures |r.prices| == |page.items|
    ensures forall i :: 0 <= i < |r.prices| ==> r.prices[i] == ConvertToGrpcPrice(page.items[i], doubleValue)
  {
    GetAllPricesResponse(ConvertAll(page.items, doubleValue), page.totalCount, page.page, page.size)
  }

  /**
    The updates streamPrices sends for the requested ids against a store:
    one UPDATED event per requested id that has a price, in request order;
    ids without a price are skipped.
   */
  function Snapshot(ids: seq<InstrumentId>, prices: map<InstrumentId, Price>, doubleValue: DoubleValue): seq<PriceUpdate>
  {
    if ids == [] then []
    else
      var last := ids[|ids| - 1];
      Snapshot(ids[..|ids| - 1], prices, doubleValue)
        + (if last in prices then [UpdatedEvent(prices[last], doubleValue)] else [])
  }

  /** Every streamed update is UPDATED and carries the stored price of a requested id. */
  lemma {:induction false} SnapshotSendsStoredPrices(ids: seq<InstrumentId>, prices: map<InstrumentId, Price>, doubleValue: DoubleValue)
    requires forall id :: id in prices ==> prices[id].instrumentId == id
    ensures |Snapshot(ids, prices, doubleValue)| <= |ids|
    ensures forall k :: 0 <= k < |Snapshot(ids, prices, doubleValue)| ==>
      var u := Snapshot(ids, prices, doubleValue)[k];
      u.updateType == UPDATED && u.price.instrumentId in ids && u.price.instrumentId in prices
      && u.price == ConvertToGrpcPrice(prices[u.price.instrumentId], doubleValue)
  {
    if ids != [] {
      var init := ids[..|ids| - 1];
      var last := ids[|ids| - 1];
      SnapshotSendsStoredPrices(init, prices, doubleValue);
      var s0 := Snapshot(init, prices, doubleValue);
      var s := Snapshot(ids, prices, doubleValue);
      assert s == s0 + (if last in prices then [UpdatedEvent(prices[last], doubleValue)] else []);
      forall k | 0 <= k < |s|
        ensures s[k].updateType == UPDATED && s[k].price.instrumentId in ids && s[k].price.instrumentId in prices
          && s[k].price == ConvertToGrpcPrice(prices[s[k].price.instrumentId], doubleValue)
      {
        if k < |s0| {
          assert s[k] == s0[k];
          var u := s0[k];
          assert u.updateType == UPDATED && u.price.instrumentId in init && u.price.instrumentId in prices
            && u.price == ConvertToGrpcPrice(prices[u.price.instrumentId], doubleValue);
          var j :| 0 <= j < |init| && init[j] == u.price.instrumentId;
          assert ids[j] == init[j];
        } else {
          assert last in prices && s[k] == UpdatedEvent(prices[last], doubleValue);
        }
      }
    }
  }

  /** Every requested id that has a price gets its update. */
  lemma {:induction false} SnapshotCoversStoredIds(ids: seq<InstrumentId>, prices: map<InstrumentId, Price>, doubleValue: DoubleValue)
    ensures forall id :: id in ids && id in prices ==>
      exists k :: 0 <= k < |Snapshot(ids, prices, doubleValue)| && Snapshot(ids, prices, doubleValue)[k] == UpdatedEvent(prices[id], doubleValue)
  {
    if ids != [] {
      var init := ids[..|ids| - 1];
      var last := ids[|ids| - 1];
      SnapshotCoversStoredIds(init, prices, doubleValue);
      var s := Snapshot(ids, prices, doubleValue);
      var s0 := Snapshot(init, prices, doubleValue);
      assert s == s0 + (if last in prices then [UpdatedEvent(prices[last], doubleValue)] else []);
      forall id | id in ids && id in prices
        ensures exists k :: 0 <= k < |s| && s[k] == UpdatedEvent(prices[id], doubleValue)
      {
        if id == last {
          assert s[|s| - 1] == UpdatedEvent(prices[id], doubleValue);
        } else {
          var j :| 0 <= j < |ids| && ids[j] == id;
          assert j < |init| && init[j] == id;
          var k :| 0 <= k < |s0| && s0[k] == UpdatedEvent(prices[id], doubleValue);
          assert s[k] == s0[k];
        }
      }
      assert s == Snapshot(ids, prices, doubleValue);
    }
  }

  /** When every requested id has a price, the stream is exactly one update per id, in request order. */
  lemma {:induction false} SnapshotOfStoredIds(ids: seq<InstrumentId>, prices: map<InstrumentId, Price>, doubleValue: DoubleValue)
    requires forall i :: 0 <= i < |ids| ==> ids[i] in prices
    ensures |Snapshot(ids, prices, doubleValue)| == |ids|
    ensures forall i :: 0 <= i < |ids| ==> Snapshot(ids, prices, doubleValue)[i] == UpdatedEvent(prices[ids[i]], doubleValue)
  {
    if ids != [] {
      SnapshotOfStoredIds(ids[..|ids| - 1], prices, doubleValue);
    }
  }

  /** Requesting only ids without a price streams nothing and still completes. */
  lemma {:induction false} SnapshotOfUnknownIds(ids: seq<InstrumentId>, prices: map<InstrumentId, Price>, doubleValue: DoubleValue)
    requires forall i :: 0 <= i < |ids| ==> ids[i] !in prices
    ensures Snapshot(ids, prices, doubleValue) == []
  {
    if ids != [] {
      SnapshotOfUnknownIds(ids[..|ids| - 1], prices, doubleValue);
    }
  }

  class GrpcPriceServiceController {
    const priceService: PriceServiceImpl
    const doubleValue: DoubleValue

    constructor (priceService: PriceServiceImpl, doubleValue: DoubleValue)
      ensures this.priceService == priceService && this.doubleValue == doubleValue
    {
      this.priceService := priceService;
      this.doubleValue := doubleValue;
    }

    /** The stored prices, through the service. */
    function Prices(): map<InstrumentId, Price>
      reads priceService.repository.prices
    {
      priceService.repository.Prices()
    }

    /**
      getAllPrices: one response with the requested page of the listing,
      converted, and the total count, page and size actually used; then
      completion. The page index is computed without overflow.
     */
    function GetAllPrices(request: GetAllPricesRequest): (r: Call<GetAllPricesResponse>)
      reads priceService.repository.prices
      requires priceService.repository.prices.Valid()
      ensures r.terminal == Completed && |r.messages| == 1
      ensures r.messages[0].totalCount == |Prices()|
      ensures r.messages[0].page == EffectivePage(request.page)
      ensures r.messages[0].size == EffectiveSize(request.size, |Prices()|)
      ensures r.messages[0] == PageResponse(Paginate(priceService.GetAllPrices(), request.page, request.size), doubleValue)
    {
      var page := Paginate(priceService.GetAllPrices(), request.page, request.size);
      Call([PageResponse(page, doubleValue)], Completed)
    }

    /**
      getAllPrices as the source computes it, in int arithmetic: when the
      start index overflows, subList throws and the call fails with INTERNAL.
     */
    function GetAllPricesAsWritten(request: GetAllPricesRequest): (r: Call<GetAllPricesResponse>)
      reads priceService.repository.prices
      requires priceService.repository.prices.Valid()
      requires |Prices()| <= INT32_MAX && IsInt32(request.page) && IsInt32(request.size)
      ensures r.terminal.Completed? ==> |r.messages| == 1 && r.messages[0].totalCount == |Prices()|
      ensures r.terminal.Failed? ==> r.messages == [] && r.terminal.code == INTERNAL
    {
      var prices := priceService.GetAllPrices();
      match PaginateAsWritten(prices, request.page, request.size)
      case Served(page) => Call([PageResponse(page, doubleValue)], Completed)
      case SubListOutOfBounds => Call([], Failed(INTERNAL, GET_ALL_FAILED_PREFIX))
    }

    /** getPrice: the converted stored price and completion, or NOT_FOUND naming the instrument. */
    function GetPrice(instrumentId: InstrumentId): (r: Call<GetPriceResponse>)
      reads priceService.repository.prices
      requires priceService.repository.prices.Valid()
      ensures r.terminal == Completed <==> instrumentId in Prices()
      ensures instrumentId in Prices() ==> r.messages == [GetPriceResponse(ConvertToGrpcPrice(Prices()[instrumentId], doubleValue))]
      ensures instrumentId !in Prices() ==> r.messages == [] && r.terminal == Failed(NOT_FOUND, NOT_FOUND_PREFIX + instrumentId)
    {
      match priceService.GetPrice(instrumentId)
      case Some(price) => Call([GetPriceResponse(ConvertToGrpcPrice(price, doubleValue))], Completed)
      case None => Call([], Failed(NOT_FOUND, NOT_FOUND_PREFIX + instrumentId))
    }

    /**
      streamPrices: one UPDATED event per requested instrument that has a
      price, in request order, then completion.
     */
    method StreamPrices(instrumentIds: seq<InstrumentId>) returns (r: Call<PriceUpdate>)
      requires priceService.repository.prices.Valid()
      ensures r.terminal == Completed
      ensures r.messages == Snapshot(instrumentIds, Prices(), doubleValue)
    {
      var updates: seq<PriceUpdate> := [];
      var i := 0;
      while i < |instrumentIds|
        invariant 0 <= i <= |instrumentIds|
        invariant updates == Snapshot(instrumentIds[..i], Prices(), doubleValue)
      {
        var instrumentId := instrumentIds[i];
        assert instrumentIds[..i + 1][..i] == instrumentIds[..i];
        var priceOpt := priceService.GetPrice(instrumentId);
        if priceOpt.Some? {
          var grpcPrice := ConvertToGrpcPrice(priceOpt.value, doubleValue);
          updates := updates + [PriceUpdate(grpcPrice, UPDATED)];
        }
        i := i + 1;
      }
      assert instrumentIds[..i] == instrumentIds;
      r := Call(updates, Completed);
    }
  }

  /**
    Whenever neither the start index nor the end candidate overflows an int,
    the source answers exactly as the corrected endpoint does.
   */
  lemma AsWrittenAgreesWithCorrected(controller: GrpcPriceServiceController, request: GetAllPricesRequest)
    requires controller.priceService.repository.prices.Valid()
    requires |controller.Prices()| <= INT32_MAX && IsInt32(request.page) && IsInt32(request.size)
    requires NoOverflow(|controller.Prices()|, request.page, request.size)
    ensures controller.GetAllPricesAsWritten(request) == controller.GetAllPrices(request)
  {
    var prices := controller.priceService.GetAllPrices();
    assert |prices| == |controller.Prices()|;
    AsWrittenAgreesWithoutOverflow(prices, request.page, request.size);
    var page := Paginate(prices, request.page, request.size);
    assert PaginateAsWritten(prices, request.page, request.size) == Served(page);
    assert controller.GetAllPricesAsWritten(request) == Call([PageResponse(page, controller.doubleValue)], Completed);
  }

  /**
    At the overflowing request of the finding, the source fails with
    INTERNAL where the intended answer is an empty page with the true count.
   */
  lemma OverflowedRequestFails(controller: GrpcPriceServiceController, request: GetAllPricesRequest)
    requires controller.priceService.repository.prices.Valid()
    requires |controller.Prices()| == 1 && request == GetAllPricesRequest(0x4000_0000, 4)
    ensures controller.GetAllPricesAsWritten(request).terminal == Failed(INTERNAL, GET_ALL_FAILED_PREFIX)
    ensures controller.GetAllPrices(request).messages == [GetAllPricesResponse([], 1, 0x4000_0000, 4)]
  {
    var prices := controller.priceService.GetAllPrices();
    assert |prices| == 1;
    assert prices == [prices[0]];
    OverflowedPageThrows(prices[0]);
  }
}
