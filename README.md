# Price service provider: a verified model of the price and order-book core

This project models the provider side of a small market-data service in
Dafny. The service keeps one quote (`Price`: bid, ask, last update) and one
depth-of-book (`OrderBook`: bid and ask order lists) per instrument. It offers
them over REST and gRPC, and it publishes every price write as two Kafka
events, one JSON and one protobuf.

The model covers these parts:

- **The store** (`JpaPriceRepository`, `OrderBookService`).
  - The two tables are classes. `PriceTable` holds the price rows in a map plus their scan order. `OrderBookTable` holds `OrderBookEntity` objects.
  - Every save stamps the row with the repository's own clock reading.
  - Saving an order book replaces both of its lists wholesale. Every entry is tagged `BID` or `ASK` and points back at its book, and the stored lists read back as the given ones, in the given order.
- **The domain service** (`PriceServiceImpl`).
  - `savePrice` stamps the price, stores it, and appends exactly two records to the broker outbox, JSON first and protobuf second. Both producers share that one outbox.
  - Deleting a price or saving an order book publishes nothing.
- **The REST adapter** (`PriceController`, `OrderBookController`, `PriceMapper`, `OrderBookMapper`).
  - Absence answers 404 and a delete answers 204.
  - The path id overrides the id in the body.
  - Timestamps go out at offset UTC. A DTO round-trips exactly when its timestamp is written at UTC.
  - The HTTP basic-auth guard on the write routes (POST and DELETE under `/prices`, POST under `/orderbook`, as configured at `price-service-provider/src/main/java/com/example/priceservice/config/SecurityConfig.java:36-38`) is modelled as an `authenticated` argument. An unauthenticated write answers 401 and changes nothing.
- **The gRPC adapter** (`GrpcPriceServiceController`).
  - Offset pagination with its defaulting rules.
  - NOT_FOUND for an unknown instrument.
  - The finite snapshot stream. It is a loop proved equal to a recursive specification, and lemmas about that specification give its ordering, its skipping of unknown ids and its coverage of known ids.
  - The split of an `Instant` into protobuf `{seconds, nanos}`.
- **The gRPC bearer-token interceptor** (`AuthServerInterceptor`): a three-way decision on the `authorization` header.
- **Event construction** (`PriceKafkaProducer`, `ProtoPriceKafkaProducer`, `PriceUpdateMessage.fromDomain`).

Representation choices:

- An `Instant` is an `int` of nanoseconds since the epoch. Dafny's Euclidean `/` and `%` by 10^9 are exactly `getEpochSecond()` and `getNano()`.
- `BigDecimal` is `real`. `BigDecimal.doubleValue()` is an uninterpreted function parameter, `DoubleValue`.
- `Instant.now()` is `Clock.Now()`, a method on a clock object whose readings never go backwards.
- A `null` argument to a mapper is `None`.
- A gRPC response observer is the sequence of messages it received plus how the call ended.

## Model

All source paths below start with `price-service-provider/src/main/java/com/example/priceservice/`, written out in full in each row.

| member | source | states |
|---|---|---|
| Time.SplitIsUnique | price-service-provider/src/main/java/com/example/priceservice/adapter/api/GrpcPriceServiceController.java:131-134 | a (seconds, nanos) pair with nanos in [0, 10^9) that denotes an instant is exactly (getEpochSecond, getNano) of it |
| Time.AtOffset | price-service-provider/src/main/java/com/example/priceservice/adapter/api/PriceMapper.java:31 | `atOffset(offset)` yields a date-time at that offset denoting the same instant |
| Time.AtOffsetOfInstant | price-service-provider/src/main/java/com/example/priceservice/adapter/api/PriceMapper.java:50 | a date-time is rebuilt from its instant (`toInstant`) and its offset |
| Clocks.Clock.Now | price-service-provider/src/main/java/com/example/priceservice/adapter/persistence/JpaPriceRepository.java:45 | `Instant.now()` returns the clock reading, never earlier than the previous one |
| GrpcMessages.ToTimestamp | price-service-provider/src/main/java/com/example/priceservice/adapter/api/GrpcPriceServiceController.java:131-134 | seconds·10^9 + nanos equals the instant and 0 ≤ nanos < 10^9 |
| GrpcMessages.TimestampIsCanonical | price-service-provider/src/main/java/com/example/priceservice/adapter/api/GrpcPriceServiceController.java:131-134 | every normalised timestamp is the one produced for the instant it denotes (the split is onto) |
| GrpcMessages.ToTimestampInjective | price-service-provider/src/main/java/com/example/priceservice/adapter/api/GrpcPriceServiceController.java:131-134 | different instants never share a timestamp |
| GrpcMessages.ConvertToGrpcPrice | price-service-provider/src/main/java/com/example/priceservice/adapter/api/GrpcPriceServiceController.java:130-142 | same instrument id, bid and ask through doubleValue, timestamp denoting lastUpdated with nanos in range |
| GrpcMessages.UpdatedEvent | price-service-provider/src/main/java/com/example/priceservice/kafka/ProtoPriceKafkaProducer.java:26-38 | the PriceUpdate for a price is always UPDATED, with the price's id and a timestamp denoting its instant |
| Pagination.Wrap32 | price-service-provider/src/main/java/com/example/priceservice/adapter/api/GrpcPriceServiceController.java:37-38 | Java int arithmetic: the result is an int32, congruent to the exact value mod 2^32, and equal to it when that fits |
| Pagination.EffectivePage | price-service-provider/src/main/java/com/example/priceservice/adapter/api/GrpcPriceServiceController.java:35 | the requested page when positive, otherwise 1 |
| Pagination.EffectiveSize | price-service-provider/src/main/java/com/example/priceservice/adapter/api/GrpcPriceServiceController.java:36 | the requested size when positive, otherwise the whole list's length |
| Pagination.PaginateAsWritten | price-service-provider/src/main/java/com/example/priceservice/adapter/api/GrpcPriceServiceController.java:35-41 | the slice computed in wrapping int arithmetic; when it answers, total count is the list length |
| Pagination.Paginate | price-service-provider/src/main/java/com/example/priceservice/adapter/api/GrpcPriceServiceController.java:35-52 | total count is the unpaginated length, page and size are the effective ones, at most size items, none when the start is past the end |
| Pagination.AsWrittenAgreesWithoutOverflow | price-service-provider/src/main/java/com/example/priceservice/adapter/api/GrpcPriceServiceController.java:37-41 | where no int overflows, the as-written slice is exactly the intended page |
| Pagination.OverflowedPageThrows | price-service-provider/src/main/java/com/example/priceservice/adapter/api/GrpcPriceServiceController.java:37-41 | page 2^30, size 4, one item: the as-written start index wraps to -4 and subList throws; the intended answer is an empty page of total 1 |
| Pagination.NonPositivePageIsFirstPage | price-service-provider/src/main/java/com/example/priceservice/adapter/api/GrpcPriceServiceController.java:35 | any page ≤ 0 answers as page 1 |
| Pagination.NonPositiveSizeIsWholeList | price-service-provider/src/main/java/com/example/priceservice/adapter/api/GrpcPriceServiceController.java:36 | size ≤ 0 on page 1 answers the whole list with size = total |
| Pagination.PagePastEndIsEmpty | price-service-provider/src/main/java/com/example/priceservice/adapter/api/GrpcPriceServiceController.java:40-41 | a page starting at or past the end is empty, not an error |
| Pagination.SinglePriceDefaults | price-service-provider/src/main/java/com/example/priceservice/adapter/api/GrpcPriceServiceController.java:35-38 | one stored price and no page or size: page 1, size 1, that one price |
| Pagination.PagesUpToIsPrefix | price-service-provider/src/main/java/com/example/priceservice/adapter/api/GrpcPriceServiceController.java:37-41 | pages 1..k concatenated are the list's first min(k·size, n) items |
| Pagination.AllPagesReproduceList | price-service-provider/src/main/java/com/example/priceservice/adapter/api/GrpcPriceServiceController.java:37-41 | for size > 0, pages 1..ceil(n/size) concatenated are the whole list in order, with no gap or duplicate |
| AuthInterceptor.Get | price-service-provider/src/main/java/com/example/priceservice/config/AuthServerInterceptor.java:27 | absent iff no entry has the name; otherwise the value of the last entry with that name |
| AuthInterceptor.InterceptCall | price-service-provider/src/main/java/com/example/priceservice/config/AuthServerInterceptor.java:27-43 | starts the call iff the header equals "Bearer " + token; otherwise closes UNAUTHENTICATED with "Missing token" iff the header is absent and "Invalid token" iff present |
| AuthInterceptor.AuthenticatedResponseHeaders | price-service-provider/src/main/java/com/example/priceservice/config/AuthServerInterceptor.java:34-37 | the handler's headers are kept and `x-authenticated: true` is added |
| AuthInterceptor.DefaultTokenAccepted | price-service-provider/src/main/java/com/example/priceservice/config/AuthServerInterceptor.java:20-32 | with the default configuration "Bearer valid-token" starts the call |
| AuthInterceptor.PrefixIsExact | price-service-provider/src/main/java/com/example/priceservice/config/AuthServerInterceptor.java:32-43 | lower-case "bearer", a doubled space or a missing prefix is an invalid token |
| PriceUpdateMessages.FromDomain | price-service-provider/src/main/java/com/example/priceservice/kafka/PriceUpdateMessage.java:22-29 | id, bid, ask and instant copied unchanged, with no validation |
| PriceUpdateMessages.FromDomainInjective | price-service-provider/src/main/java/com/example/priceservice/kafka/PriceUpdateMessage.java:22-29 | the JSON event loses nothing: equal messages come from equal prices |
| Kafka.JsonRecord | price-service-provider/src/main/java/com/example/priceservice/adapter/kafka/PriceKafkaProducer.java:25-26 | the configured topic, keyed by the price's id, carrying fromDomain(price) |
| Kafka.ProtoRecord | price-service-provider/src/main/java/com/example/priceservice/kafka/ProtoPriceKafkaProducer.java:25-39 | the configured topic, keyed by the price's id, carrying an UPDATED update of the converted price |
| Kafka.EventsAgree | price-service-provider/src/main/java/com/example/priceservice/kafka/ProtoPriceKafkaProducer.java:30-39 | the two events for one price share their key, and the protobuf timestamp denotes the JSON event's instant |
| Kafka.ProtoRecordDeterminesInstant | price-service-provider/src/main/java/com/example/priceservice/kafka/ProtoPriceKafkaProducer.java:30-33 | a protobuf event pins down its price's instrument and instant |
| Kafka.DefaultTopicsDiffer | price-service-provider/src/main/java/com/example/priceservice/kafka/ProtoPriceKafkaProducer.java:22-23 | with both topic properties unset (`price-updates` and `price-updates-proto.proto`), the JSON and the binary event of any two prices go to different topics |
| Kafka.Outbox.Send | price-service-provider/src/main/java/com/example/priceservice/kafka/ProtoPriceKafkaProducer.java:39 | a send appends exactly its record to the broker's log |
| Kafka.PriceKafkaProducer.SendPriceUpdate | price-service-provider/src/main/java/com/example/priceservice/adapter/kafka/PriceKafkaProducer.java:24-28 | exactly one record, the JSON record of the price, is appended |
| Kafka.ProtoPriceKafkaProducer.SendPriceUpdate | price-service-provider/src/main/java/com/example/priceservice/kafka/ProtoPriceKafkaProducer.java:25-41 | exactly one record, the protobuf record of the price, is appended |
| Persistence.OrderBookEntity.constructor | price-service-provider/src/main/java/com/example/priceservice/adapter/persistence/entity/OrderBookEntity.java:29-37 | a built entity has the given id and timestamp and two empty lists |
| Persistence.TagOrdersShape | price-service-provider/src/main/java/com/example/priceservice/adapter/persistence/JpaPriceRepository.java:127-143 | tagging (TagOrders) gives one entity per order, in order, each owned by the book and typed after its list |
| Persistence.UntagTagOrders | price-service-provider/src/main/java/com/example/priceservice/adapter/persistence/JpaPriceRepository.java:104-143 | reading a tagged list back gives the original orders |
| Persistence.UntagOrdersShape | price-service-provider/src/main/java/com/example/priceservice/adapter/persistence/JpaPriceRepository.java:105-111 | reading an entity list back (UntagOrders) gives one order per entry, in order, with the entry's price and volume |
| Persistence.TaggedBookIsWellTagged | price-service-provider/src/main/java/com/example/priceservice/adapter/persistence/JpaPriceRepository.java:127-146 | a book holding its tagged bid and ask lists is well tagged (every entry points back and has its list's type) |
| Persistence.PriceTable.ExistsById | price-service-provider/src/main/java/com/example/priceservice/adapter/persistence/JpaPriceRepository.java:54 | in a consistent table, an id exists exactly when the listing scans it, and its row carries that id |
| Persistence.PriceTable.Save | price-service-provider/src/main/java/com/example/priceservice/adapter/persistence/JpaPriceRepository.java:46 | upsert by id, the table invariant kept, a new id scanned last |
| Persistence.PriceTable.DeleteById | price-service-provider/src/main/java/com/example/priceservice/adapter/persistence/JpaPriceRepository.java:55 | the row is gone, the rest and their scan order are kept |
| Persistence.PriceTable.FindAll | price-service-provider/src/main/java/com/example/priceservice/adapter/persistence/JpaPriceRepository.java:64 | every stored row exactly once |
| Persistence.OrderBookTable.Save | price-service-provider/src/main/java/com/example/priceservice/adapter/persistence/JpaPriceRepository.java:82 | upsert of a well-tagged entity by id, the table invariant kept |
| JpaRepository.PriceMappingRoundTrip | price-service-provider/src/main/java/com/example/priceservice/adapter/persistence/JpaPriceRepository.java:86-102 | mapToPrice and mapToPriceEntity are inverse to each other |
| JpaRepository.MapToPrice | price-service-provider/src/main/java/com/example/priceservice/adapter/persistence/JpaPriceRepository.java:86-93 | id, bid, ask and timestamp copied from the entity unchanged |
| JpaRepository.MapToPriceEntity | price-service-provider/src/main/java/com/example/priceservice/adapter/persistence/JpaPriceRepository.java:95-102 | id, bid, ask and timestamp copied from the price unchanged |
| JpaRepository.MapToOrderBookCopiesEntries | price-service-provider/src/main/java/com/example/priceservice/adapter/persistence/JpaPriceRepository.java:104-119 | mapToOrderBook (MapToOrderBook) keeps id and timestamp and gives one order per stored entry of each list, in stored order, with its price and volume |
| JpaRepository.JpaPriceRepository.FindByInstrumentId | price-service-provider/src/main/java/com/example/priceservice/adapter/persistence/JpaPriceRepository.java:34-37 | present iff stored, and then the stored price with the id asked for |
| JpaRepository.JpaPriceRepository.Save | price-service-provider/src/main/java/com/example/priceservice/adapter/persistence/JpaPriceRepository.java:42-47 | the price with the repository's clock reading replaces any caller timestamp; upsert by id, other ids unchanged |
| JpaRepository.JpaPriceRepository.DeleteByInstrumentId | price-service-provider/src/main/java/com/example/priceservice/adapter/persistence/JpaPriceRepository.java:52-59 | true iff the id was stored; afterwards it is absent; when false nothing changed (so deleting twice gives true then false) |
| JpaRepository.JpaPriceRepository.FindAll | price-service-provider/src/main/java/com/example/priceservice/adapter/persistence/JpaPriceRepository.java:62-67 | one price per stored entry, each the stored one, no id twice |
| JpaRepository.JpaPriceRepository.FindOrderBookByInstrumentId | price-service-provider/src/main/java/com/example/priceservice/adapter/persistence/JpaPriceRepository.java:70-74 | present iff stored, and then the stored book read back through mapToOrderBook |
| JpaRepository.JpaPriceRepository.SaveOrderBook | price-service-provider/src/main/java/com/example/priceservice/adapter/persistence/JpaPriceRepository.java:78-84 | the book with its lists unchanged and in order, stamped with the clock, replaces any previous one; other books unchanged |
| JpaRepository.JpaPriceRepository.MapToOrderBookEntity | price-service-provider/src/main/java/com/example/priceservice/adapter/persistence/JpaPriceRepository.java:121-149 | a fresh entity whose lists are the tagged bid and ask orders, well tagged |
| OrderBookServices.OrderBookService.SaveOrderBook | price-service-provider/src/main/java/com/example/priceservice/adapter/persistence/OrderBookService.java:33-37 | the stored entity is fresh and well tagged, reads back as the book stamped with the clock, and replaces only its own id |
| OrderBookServices.OrderBookService.FindByInstrumentId | price-service-provider/src/main/java/com/example/priceservice/adapter/persistence/OrderBookService.java:45-47 | a read-only lookup: the stored entity iff present, with the id asked for and well tagged |
| OrderBookServices.OrderBookService.MapToOrderBookEntity | price-service-provider/src/main/java/com/example/priceservice/adapter/persistence/OrderBookService.java:55-88 | after clearing, the append loops leave one tagged entry per order in input order, nothing else; the entity reads back as the book |
| PriceServices.PriceServiceImpl.GetPrice | price-service-provider/src/main/java/com/example/priceservice/domain/service/PriceServiceImpl.java:35-38 | a pass-through read: the stored price iff present |
| PriceServices.PriceServiceImpl.GetAllPrices | price-service-provider/src/main/java/com/example/priceservice/domain/service/PriceServiceImpl.java:45-48 | a pass-through read: every stored price exactly once |
| PriceServices.PriceServiceImpl.SavePrice | price-service-provider/src/main/java/com/example/priceservice/domain/service/PriceServiceImpl.java:56-64 | returns what the store saved (the price with a fresh timestamp ≥ the clock before the call); the store holds it; the outbox gains its JSON record then its protobuf record, nothing else |
| PriceServices.PriceServiceImpl.DeletePrice | price-service-provider/src/main/java/com/example/priceservice/domain/service/PriceServiceImpl.java:72-75 | true iff the price was stored; afterwards it is absent; the outbox is not in its frame |
| PriceServices.PriceServiceImpl.GetOrderBook | price-service-provider/src/main/java/com/example/priceservice/domain/service/PriceServiceImpl.java:83-86 | a pass-through read: the stored book iff present |
| PriceServices.PriceServiceImpl.SaveOrderBook | price-service-provider/src/main/java/com/example/priceservice/domain/service/PriceServiceImpl.java:94-98 | returns the book stamped with a fresh timestamp, as stored; other books unchanged; the outbox is not in its frame |
| PriceMapper.ToDto | price-service-provider/src/main/java/com/example/priceservice/adapter/api/PriceMapper.java:22-33 | null to null; id, bid and ask copied; timestamp at UTC denoting the same instant |
| PriceMapper.ToEntity | price-service-provider/src/main/java/com/example/priceservice/adapter/api/PriceMapper.java:41-52 | null to null; id, bid and ask copied; only the instant of the timestamp kept |
| PriceMapper.PriceRoundTrip | price-service-provider/src/main/java/com/example/priceservice/adapter/api/PriceMapper.java:22-52 | toEntity(toDto(p)) == p, null included |
| PriceMapper.DtoRoundTrip | price-service-provider/src/main/java/com/example/priceservice/adapter/api/PriceMapper.java:22-52 | toDto(toEntity(d)) == d iff d's timestamp is at UTC |
| PriceMapper.ToEntityIdentifiesInstants | price-service-provider/src/main/java/com/example/priceservice/adapter/api/PriceMapper.java:41-52 | two DTOs map to the same price iff they agree on id, bid, ask and the instant denoted |
| OrderBookMapper.ToOrderDto | price-service-provider/src/main/java/com/example/priceservice/adapter/api/OrderBookMapper.java:47-52 | price and volume copied |
| OrderBookMapper.ToOrder | price-service-provider/src/main/java/com/example/priceservice/adapter/api/OrderBookMapper.java:83-88 | price and volume copied |
| OrderBookMapper.ToOrderDtos | price-service-provider/src/main/java/com/example/priceservice/adapter/api/OrderBookMapper.java:31-36 | same length, order by order the same price and volume |
| OrderBookMapper.ToOrders | price-service-provider/src/main/java/com/example/priceservice/adapter/api/OrderBookMapper.java:67-72 | same length, order by order the same price and volume |
| OrderBookMapper.ToDto | price-service-provider/src/main/java/com/example/priceservice/adapter/api/OrderBookMapper.java:24-39 | null to null; id copied, both lists mapped in order, timestamp at UTC denoting the same instant |
| OrderBookMapper.ToEntity | price-service-provider/src/main/java/com/example/priceservice/adapter/api/OrderBookMapper.java:60-75 | null to null; id copied, both lists mapped in order, the instant of the timestamp kept |
| OrderBookMapper.OrdersRoundTrip | price-service-provider/src/main/java/com/example/priceservice/adapter/api/OrderBookMapper.java:31-36 | orders to DTOs and back is the identity on lists |
| OrderBookMapper.OrderDtosRoundTrip | price-service-provider/src/main/java/com/example/priceservice/adapter/api/OrderBookMapper.java:67-72 | DTOs to orders and back is the identity on lists |
| OrderBookMapper.OrderBookRoundTrip | price-service-provider/src/main/java/com/example/priceservice/adapter/api/OrderBookMapper.java:24-75 | toEntity(toDto(b)) == b, null included |
| OrderBookMapper.OrderBookDtoRoundTrip | price-service-provider/src/main/java/com/example/priceservice/adapter/api/OrderBookMapper.java:24-75 | toDto(toEntity(d)) == d iff d's timestamp is at UTC |
| RestControllers.OkOrNotFound | price-service-provider/src/main/java/com/example/priceservice/adapter/api/PriceController.java:39-42 | 200 with the body iff present, 404 without a body iff absent |
| RestControllers.ToDtos | price-service-provider/src/main/java/com/example/priceservice/adapter/api/PriceController.java:30-32 | one DTO per price, in order, each at UTC and reading back as its price |
| RestControllers.PriceController.GetAllPrices | price-service-provider/src/main/java/com/example/priceservice/adapter/api/PriceController.java:27-34 | always 200, one DTO per stored price, in the service's listing order, each reading back as the price at its position and as the stored price of its id |
| RestControllers.PriceController.GetPrice | price-service-provider/src/main/java/com/example/priceservice/adapter/api/PriceController.java:37-43 | 200 with the stored price's DTO iff stored, else 404 without a body |
| RestControllers.PriceController.SavePrice | price-service-provider/src/main/java/com/example/priceservice/adapter/api/PriceController.java:46-57 | authenticated: stored under the path id whatever the body id, 200 with the saved DTO, both events published; otherwise 401 and nothing changes |
| RestControllers.PriceController.DeletePrice | price-service-provider/src/main/java/com/example/priceservice/adapter/api/PriceController.java:60-64 | authenticated: 204 iff the price existed, else 404, and it is absent afterwards; otherwise 401 and nothing changes |
| RestControllers.OrderBookController.GetOrderBook | price-service-provider/src/main/java/com/example/priceservice/adapter/api/OrderBookController.java:24-30 | 200 with the stored book's DTO iff stored, else 404 without a body |
| RestControllers.OrderBookController.SaveOrderBook | price-service-provider/src/main/java/com/example/priceservice/adapter/api/OrderBookController.java:33-44 | authenticated: stored under the path id, 200 with the request's lists unchanged (same lengths, same order) and the new timestamp at UTC; otherwise 401 and nothing changes |
| GrpcController.ConvertAll | price-service-provider/src/main/java/com/example/priceservice/adapter/api/GrpcPriceServiceController.java:43-45 | one converted message per price, in order |
| GrpcController.PageResponse | price-service-provider/src/main/java/com/example/priceservice/adapter/api/GrpcPriceServiceController.java:47-52 | the response carries the page's total count, page and size, and one converted price per item of the page, in order |
| GrpcController.SnapshotSendsStoredPrices | price-service-provider/src/main/java/com/example/priceservice/adapter/api/GrpcPriceServiceController.java:102-114 | at most one update per requested id; every update is UPDATED and carries the stored price of a requested id |
| GrpcController.SnapshotCoversStoredIds | price-service-provider/src/main/java/com/example/priceservice/adapter/api/GrpcPriceServiceController.java:102-114 | every requested id with a price gets its update |
| GrpcController.SnapshotOfStoredIds | price-service-provider/src/main/java/com/example/priceservice/adapter/api/GrpcPriceServiceController.java:102-114 | when every requested id is stored, the stream is one update per id in request order |
| GrpcController.SnapshotOfUnknownIds | price-service-provider/src/main/java/com/example/priceservice/adapter/api/GrpcPriceServiceController.java:102-114 | ids without a price are skipped: only unknown ids stream nothing |
| GrpcController.GrpcPriceServiceController.GetAllPrices | price-service-provider/src/main/java/com/example/priceservice/adapter/api/GrpcPriceServiceController.java:28-55 | one response, then completion; total count is the number of stored prices, page and size the effective ones, the items the converted page of the listing |
| GrpcController.GrpcPriceServiceController.GetAllPricesAsWritten | price-service-provider/src/main/java/com/example/priceservice/adapter/api/GrpcPriceServiceController.java:35-61 | as written: either one response with the true total count, or INTERNAL with no message |
| GrpcController.AsWrittenAgreesWithCorrected | price-service-provider/src/main/java/com/example/priceservice/adapter/api/GrpcPriceServiceController.java:35-61 | whenever neither the start index nor the end candidate overflows an int, the source's answer is exactly the corrected endpoint's |
| GrpcController.GrpcPriceServiceController.GetPrice | price-service-provider/src/main/java/com/example/priceservice/adapter/api/GrpcPriceServiceController.java:66-85 | exactly one response with the converted stored price iff stored; otherwise NOT_FOUND "Price not found for instrument: " + id and no message |
| GrpcController.GrpcPriceServiceController.StreamPrices | price-service-provider/src/main/java/com/example/priceservice/adapter/api/GrpcPriceServiceController.java:96-117 | the loop emits exactly the snapshot of the requested ids (see the Snapshot lemmas) and then completes |
| GrpcController.OverflowedRequestFails | price-service-provider/src/main/java/com/example/priceservice/adapter/api/GrpcPriceServiceController.java:35-61 | with one stored price, page 2^30 and size 4 fail with INTERNAL as written, while the intended answer is an empty page with total 1 |

## Left out

- Floating point: `BigDecimal.doubleValue()` is an uninterpreted function, so nothing is claimed about rounding to `double`.
- The scale of a `BigDecimal` and the database precision and scale are not modelled. Prices are exact rationals.
- Storage failures and all other exceptions are not modelled, except the `subList` failure in the finding below. The `INTERNAL` answers of `getPrice` and `streamPrices` therefore never occur in the model.
- GrpcController.GrpcPriceServiceController.GetAllPricesAsWritten: the INTERNAL description is only the fixed prefix "Failed to retrieve prices: ". The exception's message is not modelled.
- Null fields inside a DTO, such as a missing `lastUpdated`, and the `NullPointerException` they would raise are not modelled. DTO fields are always present.
- Clocks.Clock.Now: the readings are assumed never to go backwards. The model says nothing about how far the clock moves or whether two readings differ. Every `Instant.now()` in the core reads this one clock.
- The order in which the prices table returns its rows is not specified by JPA. The model fixes it as insertion order: a new id is scanned last, and a delete keeps the others' order.
- JPA and Hibernate mechanics are not modelled: transactions, lazy loading, cascade and orphan removal, generated order ids, and the `@SQLRestriction` reload filter on `order_type`. The tables are maps. A saved order book stores the entity object it was given, so reading it back gives the lists it was saved with.
- JpaRepository.JpaPriceRepository.SaveOrderBook: the new store is stated key by key (same keys plus the saved id, the saved book at that id, every other book unchanged). It is not stated as a single map-update equality, which says the same.
- PriceServices.PriceServiceImpl.SavePrice: `setLastUpdated` on the caller's object is not modelled. `Price` is a value, so the caller's copy keeps its timestamp. The same holds for `saveOrderBook` and for the controllers' `setInstrumentId` on the request DTO.
- Kafka transport is not modelled: serialisation, delivery, acknowledgements and send failures. A send appends its record to an outbox, and both producers share one outbox.
- SecurityConfig is not modelled: the route matching, the password check and the user store. Its outcome is the `authenticated` argument of the protected controller methods.
- AuthInterceptor.Get: metadata names are compared exactly. gRPC's own lower-casing of header names is not modelled.
- The protobuf `UpdateType` values other than `UPDATED` are not modelled. The core never builds them.
- The consumer-side clients, the Pact tests, the seed data and the application bootstrap are not part of this model.

## Findings

| source | as written | input that shows it | evidently intended | confidence | as-written member | corrected member |
|---|---|---|---|---|---|---|
| price-service-provider/src/main/java/com/example/priceservice/adapter/api/GrpcPriceServiceController.java:37-41 | `startIndex = (page - 1) * size` is computed in 32-bit `int`; a large page wraps to a negative start, `subList` throws, and the call ends with INTERNAL | one stored price, `page = 1073741824` (2^30), `size = 4`: the start wraps to -4 | an empty page, because the start is past the end, with total_count 1, page 2^30 and size 4 | not executed | Pagination.PaginateAsWritten (lemmas Pagination.OverflowedPageThrows, GrpcController.OverflowedRequestFails; GrpcController.AsWrittenAgreesWithCorrected shows the two agree wherever nothing overflows) | Pagination.Paginate (lemmas Pagination.AllPagesReproduceList, Pagination.PagePastEndIsEmpty), used by GrpcController.GrpcPriceServiceController.GetAllPrices |
