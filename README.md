# Stock service: reservation and rollback, modelled in Dafny

This project models the core of a Go stock service. The service keeps two MySQL tables:

- `xx_stock`: one row per goods, with `StockNum` and `Lock`. `Lock` is the quantity pre-deducted for open orders.
- the stock-record table: one row per reservation, holding the order, the goods, the number of units and a status. Status 1 means pre-deducted; status 3 means rolled back.

Four layers are modelled:

- **Store** (`dao/mysql/stock.go`, `mysql_stock.dfy`). The class `StockStore` holds the two tables as a `map` and a `seq`. Its methods perform the source's steps in place: `SetStock`, `GetStockByGoodsId`, `ReduceStock` (the reservation) and `RollbackStockByMsg` (the compensation). A GORM transaction is modelled as a private copy of the tables. The copy is published only when the closure returns nil. Each method is proved to end in the state named by a function over the `Tables` value: `SetOutcome`, `Lookup`, `Reserve` or `Compensate`/`RollbackReply`. Those functions carry the properties. `stock_lemmas.dfy` relates several calls to each other: the round trip and the idempotence of rollback.
- **Lock primitive** (`dao/redis/lock.go`, `redis_lock.dfy`). The class `LockStore` holds the Redis key space as a `map<string, string>`. `AcquireLock` is set-if-absent and `ReleaseLock` is compare-and-delete. They are proved against `Acquire` and `Release`.
- **Business layer** (`biz/stock/stock.go`, `biz_stock.dfy`). These are pure functions: one store call each, error remapping, and projection to `GoodsStockInfo`.
- **RPC entry points** (`handler/stock.go`, `handler_stock.dfy`). These are pure functions: the argument guards and construction of the reply or the gRPC status. `Run` serves a sequence of calls in order. The lemmas about it show that every sequence keeps three things: `Lock >= 0`, each row stored under its own goods id, and `StockNum + Lock` (for sequences without SetStock).

The business layer and the entry points take the store's state as a `Tables` value. They call the functions the store's methods are proved against.

What the environment decides is passed in as a parameter:

- whether the distributed lock was taken (`locked`);
- which database call fails, if any (`DbFault`, `upsertOk`, `queryOk`);
- what the database does with SetStock's update of an existing row (`ExistingRow`);
- whether a Redis script evaluation fails (`scriptOk`).

`scenarios.dfy` replays concrete runs:

- reserve, a refused reservation, rollback and a redelivered rollback;
- the client's load test, served sequentially;
- the inputs that show what the guards do and do not protect;
- the reserve, reject and rollback sequence once more, driven through the `StockStore` class's methods (`StoreScenario`).

### Behaviour of the code worth noting

The model follows the code in each of these points:

- A reservation subtracts `num` from `StockNum` and adds it to `Lock`, so `StockNum - Lock` (the available stock) drops by `2·num`. `StockNum >= Lock` is therefore not kept. For example, 100/0 becomes 40/60 after reserving 60 (`ReservationCanPushLockAboveStock`). N one-unit reservations against A available units succeed min(N, ⌈A/2⌉) times, not min(N, A) times (`UnitReservationCount`).
- The rollback takes no lock. It adds the request's `Num`, not the record's. It always returns nil, even when its transaction aborts.
- `RollbackStock` checks no argument, so a negative `RollbackNum` is applied (`UncheckedRollbackDrivesStockNegative`).
- The store does not keep `Lock >= 0` by itself. A negative `num` passes the availability check (`NegativeReservationDrivesLockNegative`). Only the handler's `num > 0` guard prevents this.
- The redsync mutex is named `xx-stock-<goods id>`. The functions of `dao/redis/lock.go` are not called by the store at all.

## Model

| member | source | states |
|---|---|---|
| MysqlStock.FindPending | dao/mysql/stock.go:142-150 | the rollback's query finds the first record with the order, the goods and status 1; none exactly when no such record exists |
| MysqlStock.SetOutcome | dao/mysql/stock.go:17-40 | a FirstOrCreate error gives QueryFailed and no change; a missing row is inserted with the given StockNum and Lock 0; an existing row keeps its Lock and goods id, and only a failed update is an error; other rows and the records are never touched |
| MysqlStock.Lookup | dao/mysql/stock.go:43-58 | the stored row; a zero-valued row with no error for a missing goods id; QueryFailed exactly when the read errs |
| MysqlStock.Reserve | dao/mysql/stock.go:63-134 | succeeds iff the lock is held, no database call fails, the row exists and StockNum - Lock >= num; lock failure gives ReduceStockFailed, a missing row gives RecordNotFound, too little stock gives Understock, and every failure leaves both tables unchanged; success returns the row with StockNum - num and Lock + num, stores it, and appends exactly one record {order, goods, num, status 1}; StockNum + Lock is kept, availability drops by 2·num, and Lock >= 0 is kept for num >= 0 |
| MysqlStock.Compensate | dao/mysql/stock.go:137-191 | no status-1 record for (order, goods) is a successful no-op; a status-1 record whose goods has no stock row aborts with RecordNotFound; the transaction commits exactly when the record read succeeds and either finds no status-1 record or no database call fails, the row exists and Lock - Num >= 0; and then StockNum gains the request's Num, Lock loses it, and that record becomes status 3; it aborts with RollbackStockFailed exactly when Lock would go negative, and every abort leaves both tables unchanged; StockNum + Lock and Lock >= 0 are kept |
| MysqlStock.RollbackReply | dao/mysql/stock.go:137-193 | RollbackStockByMsg returns nil whatever its transaction decided, and has exactly the transaction's effect |
| MysqlStock.StockStore.SetStock | dao/mysql/stock.go:17-40 | updating the tables in place ends in SetOutcome's state and error, and keeps every row under its own goods id |
| MysqlStock.StockStore.GetStockByGoodsId | dao/mysql/stock.go:43-58 | returns Lookup's answer for the current tables |
| MysqlStock.StockStore.ReduceStock | dao/mysql/stock.go:63-134 | the in-place reservation, with its all-or-nothing transaction, ends in Reserve's state and answer |
| MysqlStock.StockStore.RollbackStockByMsg | dao/mysql/stock.go:137-193 | the in-place rollback ends in Compensate's state and returns nil |
| StockLemmas.SettledLeavesNoPending | dao/mysql/stock.go:142-188 | when only one status-1 record existed for (order, goods), a rollback that took effect leaves none |
| StockLemmas.RollbackIdempotent | dao/mysql/stock.go:139-191 | with at most one status-1 record for (order, goods), a second identical rollback changes nothing; once the first took effect, a redelivery is a no-op whatever the database does |
| StockLemmas.ReserveThenRollbackRestores | dao/mysql/stock.go:63-191 | ReduceStock(g, n, o) followed by a rollback {o, g, n} commits and restores every row's StockNum and Lock, provided Lock was not negative |
| StockLemmas.ReserveThenRollbackSettles | dao/mysql/stock.go:63-191 | if the order had no status-1 record for the goods, the rollback marks exactly the appended record status 3, and a redelivered rollback changes nothing |
| RedisLock.Acquire | dao/redis/lock.go:13-34 | a script error gives (false, error) and no change; otherwise true exactly when the key was absent, after which the key holds the caller's value; a taken key keeps its value; no other key changes |
| RedisLock.Release | dao/redis/lock.go:39-60 | a script error gives (false, error) and no change; otherwise true exactly when the key holds the caller's value, and then the key is deleted; a mismatched or absent key gives false and no change; no other key changes |
| RedisLock.AcquireThenReleaseRestores | dao/redis/lock.go:13-60 | acquiring a free key and releasing it with the same value restores the key store, and a second release returns false |
| RedisLock.OnlyOwnerReleases | dao/redis/lock.go:13-60 | while a key is held, a caller with another value can neither acquire nor release it, and the holder's value stays |
| RedisLock.LockStore.AcquireLock | dao/redis/lock.go:13-34 | running the SETNX script on the key store ends in Acquire's store and answer |
| RedisLock.LockStore.ReleaseLock | dao/redis/lock.go:39-60 | running the compare-and-delete script ends in Release's store and answer |
| BizStock.SetStock | biz/stock/stock.go:15-24 | SetStockFailed exactly when the store call fails, and nil otherwise; the store's effect is passed on unchanged |
| BizStock.GetStockByGoodsId | biz/stock/stock.go:27-45 | the row projected to {GoodsId, StockNum}, and Lock is not exposed; for a missing goods id GoodsId 0 and Stock 0, not the requested id; store errors are passed through unchanged |
| BizStock.ReduceStock | biz/stock/stock.go:49-57 | every store failure (lock, missing row, too little stock, write error) becomes Understock with the tables unchanged; success gives an empty Response |
| HandlerStock.SetStock | handler/stock.go:22-46 | GoodsId <= 0 or Stock < 0 is rejected with InvalidArgument before the store is touched, and Stock = 0 is accepted; a business-layer error becomes Internal(SetStockFailed); success gives an empty Response |
| HandlerStock.GetStock | handler/stock.go:49-65 | GoodsId <= 0 is rejected with InvalidArgument; a read error becomes Internal; a missing goods gives {0, 0}; otherwise the stored row's {GoodsId, StockNum}, which is the requested id for well-keyed tables |
| HandlerStock.ReduceStock | handler/stock.go:68-79 | GoodsId <= 0 or Num <= 0 is rejected with InvalidArgument and OrderId is not checked; any lower failure becomes Internal(Understock) and changes nothing; a valid request has exactly Reserve's effect; success iff the reservation commits, and then the row has moved Num from StockNum to Lock and one record {OrderId, GoodsId, Num, status 1} is appended; keeps StockNum + Lock and Lock >= 0 |
| HandlerStock.RollbackStock | handler/stock.go:84-108 | no argument is checked; {GoodsId, Num: RollbackNum, OrderId} goes to the store's rollback; never a status error, and since the store always answers nil the reply is always Success = true |
| HandlerStock.RunKeepsLocksNonNegative | handler/stock.go:22-108 | no sequence of calls to the entry points drives any row's Lock below zero |
| HandlerStock.RunKeepsWellKeyed | handler/stock.go:22-108 | every sequence of calls keeps each stock row under its own goods id |
| HandlerStock.RunConservesTotals | handler/stock.go:68-108 | a sequence of calls without SetStock keeps the same goods ids, each with the same StockNum + Lock |
| Scenarios.ReserveRejectRollbackScenario | dao/mysql/stock.go:63-193 | 100/0, reserve 30 gives 70/30 and a status-1 record; reserving 80 is then refused with Understock; rolling back 30 restores 100/0 with the record at status 3; a redelivery, or a rollback for an unknown order, changes nothing |
| Scenarios.ReservationCanPushLockAboveStock | dao/mysql/stock.go:88-96 | 100/0, reserve 60 commits and gives 40/60, so StockNum >= Lock is not kept |
| Scenarios.NegativeReservationDrivesLockNegative | handler/stock.go:68-79 | the store accepts num = -5 and leaves Lock at -5; the handler's guard rejects that request |
| Scenarios.UncheckedRollbackDrivesStockNegative | handler/stock.go:84-93 | after reserving 5 of 10, a rollback with RollbackNum -10 commits and leaves StockNum -5 and Lock 15 |
| Scenarios.UnitReservationCount | dao/mysql/stock.go:88-96 | N one-unit reservations against A available units succeed min(N, ⌈A/2⌉) times, and that many units move from StockNum to Lock |
| Scenarios.LoadTestReplay | rpc_client/test.go:34-83 | the load test's five one-unit reservations on goods 2001 (orders 8001-8005), served in order against 100/0, all succeed and leave 95/5 |

## Left out

- Concurrency: calls are served one at a time. This is the order the redsync mutex imposes on reservations of one goods. The rollback takes no lock and the reads are not locking reads, so a rollback racing a reservation could lose an update in the real system. The model does not capture that interleaving.
- Redsync mutex: modelled only as the `locked` oracle. Its key name, expiry, retries and the deferred Unlock belong to the library.
- GORM: only the all-or-nothing effect of a transaction is modelled. `First`'s primary-key order is modelled as the order of insertion into the record sequence.
- MysqlStock.SetOutcome: the existing-row branch is an oracle (`ExistingRow`). FirstOrCreate's RowsAffected semantics belong to GORM. The later update names a column (`Num`) that the Stock type does not declare. So the model does not claim whether StockNum is overwritten, left alone, or the update fails.
- MysqlStock.Reserve: does not model int64 wrap-around of `StockNum - num` and `Lock + num`. Values are unbounded integers, because overflow needs counts near 2^63.
- MysqlStock.Compensate: does not model int64 wrap-around of `StockNum + Num` and `Lock - Num`, for the same reason.
- RedisLock.Acquire: the key's expiry is left out. The EXPIRE call is taken to answer 1, as it does for the key just set. Expiry over time, and the deletion EXPIRE performs for a non-positive TTL, are not modelled.
- A failed script evaluation is modelled as changing nothing. An error after the script ran is not distinguished.
- The model does not say which database error a failed call reports. It is `StoreFailure`. The `errno` and `proto` packages are not part of this model; only the names of their values are used.
- Reply message texts: the handler's fixed texts are the `Message` values. Status error texts are not modelled.
- The StockRecord type's declaration is not part of this model. Its fields are the ones `dao/mysql/stock.go` writes.
- Not modelled: logging (`zap`, `fmt.Printf`), the request context, process start-up (`main.go`: configuration, MySQL, Redis and Consul clients, the gRPC server, signal handling) and the concurrent gRPC client of `rpc_client/test.go`. That client's scenario is replayed sequentially by `Scenarios.LoadTestReplay`.
- The ORM bookkeeping fields of `model/base.go` (timestamps, version, soft delete) are not modelled; they carry no behaviour.
