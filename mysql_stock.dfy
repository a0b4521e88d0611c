/** The stock store (dao/mysql/stock.go): the `xx_stock` table and the stock-record table, the
    reservation that moves units from StockNum into Lock, and the compensating rollback.

    Each operation is given twice: a function over the value of both tables, which says what
    the operation does to them and what it answers, and a method of `StockStore` that performs
    the same steps on the tables in place and is proved to end in the state the function names.
    Every database call the source makes inside a transaction may fail; which one fails is a
    parameter (`DbFault`), and the distributed lock ReduceStock takes is a boolean oracle. */
module MysqlStock {
  import opened Wrappers
  import opened Model
  import opened Errno

  /** Both tables: stock rows by goods id, and the stock records in insertion order. */
  datatype Tables = Tables(stocks: map<int, Stock>, records: seq<StockRecord>)

  /** The tables after an operation, and what the operation answered. */
  datatype Step<+R> = Step(after: Tables, result: R)

  /** Which database call inside a transaction reports an error: the first read, the save of
      the stock row, or the write of the stock record. */
  datatype DbFault = NoFault | ReadFails | StockSaveFails | RecordWriteFails

  /** What the database does with the update SetStock issues when the row already exists. */
  datatype ExistingRow = Overwritten | Untouched | UpdateFailed

  /** Every stock row is stored under its own goods id. */
  predicate WellKeyed(stocks: map<int, Stock>)
  {
    forall g :: g in stocks ==> stocks[g].goodsId == g
  }

  /** No row has a negative pre-deducted quantity. */
  predicate LocksNonNegative(stocks: map<int, Stock>)
  {
    forall g :: g in stocks ==> stocks[g].lock >= 0
  }

  /** The same goods ids, each with the same StockNum + Lock. */
  predicate SameTotals(a: map<int, Stock>, b: map<int, Stock>)
  {
    a.Keys == b.Keys && forall g :: g in a ==> Total(a[g]) == Total(b[g])
  }

  lemma SameTotalsTransitive(a: map<int, Stock>, b: map<int, Stock>, c: map<int, Stock>)
    requires SameTotals(a, b) && SameTotals(b, c)
    ensures SameTotals(a, c)
  {
  }

  /** A record the rollback for (orderId, goodsId) looks for: status pre-deducted. */
  predicate IsPendingFor(r: StockRecord, orderId: int, goodsId: int)
  {
    r.orderId == orderId && r.goodsId == goodsId && r.status == PreDeducted
  }

  /** The position of the first pre-deducted record for (orderId, goodsId), as the rollback's
      `First` query over the record table finds it. */
  function FindPending(records: seq<StockRecord>, orderId: int, goodsId: int): (r: Option<nat>)
    ensures r.Some? ==> r.value < |records| && IsPendingFor(records[r.value], orderId, goodsId)
    ensures r.Some? ==> forall j :: 0 <= j < r.value ==> !IsPendingFor(records[j], orderId, goodsId)
    ensures r.None? <==> forall j :: 0 <= j < |records| ==> !IsPendingFor(records[j], orderId, goodsId)
  {
    if |records| == 0 then None
    else if IsPendingFor(records[0], orderId, goodsId) then Some(0)
    else match FindPending(records[1..], orderId, goodsId)
      case None =>
        assert forall j :: 1 <= j < |records| ==> records[j] == records[1..][j - 1];
        None
      case Some(i) =>
        assert forall j :: 1 <= j < i + 1 ==> records[j] == records[1..][j - 1];
        Some(i + 1)
  }

  /** No two pre-deducted records for (orderId, goodsId): the condition under which one
      rollback settles the order for that goods. */
  predicate AtMostOnePending(records: seq<StockRecord>, orderId: int, goodsId: int)
  {
    forall i, j :: 0 <= i < j < |records| && IsPendingFor(records[i], orderId, goodsId) ==>
      !IsPendingFor(records[j], orderId, goodsId)
  }

  /** SetStock: FirstOrCreate on the goods id, and for an existing row a further update whose
      outcome is the database's (`existing`). `upsertOk` is false when FirstOrCreate errs. */
  function SetOutcome(t: Tables, goodsId: int, num: int, upsertOk: bool, existing: ExistingRow): (s: Step<Option<Err>>)
    ensures !upsertOk ==> s == Step(t, Some(QueryFailed))
    ensures upsertOk && goodsId !in t.stocks ==>
      s == Step(t.(stocks := t.stocks[goodsId := Stock(goodsId, num, 0)]), None)
    ensures s.result.Some? <==> !upsertOk || (goodsId in t.stocks && existing == UpdateFailed)
    ensures s.result.Some? ==> s.after == t
    ensures s.after.records == t.records
    ensures s.after.stocks.Keys == t.stocks.Keys + (if s.result.None? then {goodsId} else {})
    ensures forall g :: g in t.stocks && g != goodsId ==> s.after.stocks[g] == t.stocks[g]
    ensures goodsId in t.stocks ==>
      s.after.stocks[goodsId].lock == t.stocks[goodsId].lock &&
      s.after.stocks[goodsId].goodsId == t.stocks[goodsId].goodsId
    ensures s.result.None? ==> s.after.stocks[goodsId].stockNum == num || existing == Untouched
    ensures WellKeyed(t.stocks) ==> WellKeyed(s.after.stocks)
    ensures LocksNonNegative(t.stocks) ==> LocksNonNegative(s.after.stocks)
  {
    if !upsertOk then Step(t, Some(QueryFailed))
    else if goodsId !in t.stocks then
      Step(t.(stocks := t.stocks[goodsId := Stock(goodsId, num, 0)]), None)
    else match existing
      case Overwritten =>
        Step(t.(stocks := t.stocks[goodsId := t.stocks[goodsId].(stockNum := num)]), None)
      case Untouched => Step(t, None)
      case UpdateFailed => Step(t, Some(StoreFailure))
  }

  /** GetStockByGoodsId: the row, a zero-valued row when there is none, or QueryFailed when
      the read errs for another reason. */
  function Lookup(t: Tables, goodsId: int, queryOk: bool): (r: Result<Stock, Err>)
    ensures r.Failure? <==> !queryOk
    ensures r.Failure? ==> r.error == QueryFailed
    ensures queryOk && goodsId !in t.stocks ==> r.value == ZeroStock
    ensures queryOk && goodsId in t.stocks ==> r.value == t.stocks[goodsId]
  {
    if !queryOk then Failure(QueryFailed)
    else if goodsId in t.stocks then Success(t.stocks[goodsId])
    else Success(ZeroStock)
  }

  /** ReduceStock: under the lock, in one transaction, check `StockNum - Lock >= num`, move
      `num` from StockNum to Lock and append a pre-deducted record. */
  function Reserve(t: Tables, goodsId: int, num: int, orderId: int, locked: bool, fault: DbFault): (s: Step<Result<Stock, Err>>)
    ensures s.result.Failure? ==> s.after == t
    ensures s.result.Success? <==>
      locked && fault == NoFault && goodsId in t.stocks && Available(t.stocks[goodsId]) >= num
    ensures !locked ==> s.result == Failure(ReduceStockFailed)
    ensures locked && fault != ReadFails && goodsId !in t.stocks ==> s.result == Failure(RecordNotFound)
    ensures locked && fault != ReadFails && goodsId in t.stocks && Available(t.stocks[goodsId]) < num ==>
      s.result == Failure(Understock)
    ensures s.result.Success? ==>
      var was, now := t.stocks[goodsId], s.result.value;
      now == Stock(was.goodsId, was.stockNum - num, was.lock + num) &&
      s.after.stocks == t.stocks[goodsId := now] &&
      s.after.records == t.records + [StockRecord(orderId, goodsId, num, PreDeducted)]
    ensures s.result.Success? ==>
      Total(s.result.value) == Total(t.stocks[goodsId]) &&
      Available(s.result.value) == Available(t.stocks[goodsId]) - 2 * num
    ensures SameTotals(t.stocks, s.after.stocks)
    ensures num >= 0 && LocksNonNegative(t.stocks) ==> LocksNonNegative(s.after.stocks)
    ensures WellKeyed(t.stocks) ==> WellKeyed(s.after.stocks)
  {
    if !locked then Step(t, Failure(ReduceStockFailed))
    else if fault == ReadFails then Step(t, Failure(StoreFailure))
    else if goodsId !in t.stocks then Step(t, Failure(RecordNotFound))
    else
      var data := t.stocks[goodsId];
      if data.stockNum - data.lock < num then Step(t, Failure(Understock))
      else if fault != NoFault then Step(t, Failure(StoreFailure))
      else
        var data' := data.(stockNum := data.stockNum - num, lock := data.lock + num);
        Step(Tables(t.stocks[goodsId := data'], t.records + [StockRecord(orderId, goodsId, num, PreDeducted)]),
             Success(data'))
  }

  /** The transaction of RollbackStockByMsg, with the error its closure returns: find the
      first pre-deducted record for (order, goods); none is a successful no-op; otherwise add
      the request's Num to StockNum, take it from Lock, abort if Lock would be negative, and
      mark the record rolled back. */
  function Compensate(t: Tables, data: StockRecord, fault: DbFault): (s: Step<Option<Err>>)
    ensures s.result.Some? ==> s.after == t
    ensures fault == ReadFails ==> s == Step(t, Some(StoreFailure))
    ensures fault != ReadFails && FindPending(t.records, data.orderId, data.goodsId).None? ==> s == Step(t, None)
    ensures s.result == Some(RollbackStockFailed) <==>
      fault != ReadFails && FindPending(t.records, data.orderId, data.goodsId).Some? &&
      data.goodsId in t.stocks && t.stocks[data.goodsId].lock - data.num < 0
    ensures (fault != ReadFails && FindPending(t.records, data.orderId, data.goodsId).Some? &&
             data.goodsId !in t.stocks) ==> s.result == Some(RecordNotFound)
    ensures s.result == None <==>
      fault != ReadFails &&
      (FindPending(t.records, data.orderId, data.goodsId).None? ||
       (fault == NoFault && data.goodsId in t.stocks && t.stocks[data.goodsId].lock - data.num >= 0))
    ensures s.result == None && FindPending(t.records, data.orderId, data.goodsId).Some? ==>
      var i, g := FindPending(t.records, data.orderId, data.goodsId).value, data.goodsId;
      g in t.stocks &&
      s.after.stocks == t.stocks[g := t.stocks[g].(stockNum := t.stocks[g].stockNum + data.num,
                                                   lock := t.stocks[g].lock - data.num)] &&
      s.after.stocks[g].lock >= 0 &&
      s.after.records == t.records[i := t.records[i].(status := RolledBack)]
    ensures SameTotals(t.stocks, s.after.stocks)
    ensures LocksNonNegative(t.stocks) ==> LocksNonNegative(s.after.stocks)
    ensures WellKeyed(t.stocks) ==> WellKeyed(s.after.stocks)
  {
    if fault == ReadFails then Step(t, Some(StoreFailure))
    else match FindPending(t.records, data.orderId, data.goodsId)
      case None => Step(t, None)
      case Some(i) =>
        if data.goodsId !in t.stocks then Step(t, Some(RecordNotFound))
        else
          var s := t.stocks[data.goodsId];
          var s' := s.(stockNum := s.stockNum + data.num, lock := s.lock - data.num);
          if s'.lock < 0 then Step(t, Some(RollbackStockFailed))
          else if fault != NoFault then Step(t, Some(StoreFailure))
          else Step(Tables(t.stocks[data.goodsId := s'], t.records[i := t.records[i].(status := RolledBack)]), None)
  }

  /** What RollbackStockByMsg hands back: the effect of its transaction, and nil whatever the
      transaction decided. */
  function RollbackReply(t: Tables, data: StockRecord, fault: DbFault): (s: Step<Option<Err>>)
    ensures s.result == None
    ensures s.after == Compensate(t, data, fault).after
  {
    Step(Compensate(t, data, fault).after, None)
  }

  /** The store itself: both tables, updated in place by the four operations. */
  class StockStore {
    var stocks: map<int, Stock>
    var records: seq<StockRecord>

    ghost predicate Valid()
      reads this
    {
      WellKeyed(stocks)
    }

    function State(): Tables
      reads this
    {
      Tables(stocks, records)
    }

    constructor ()
      ensures Valid() && stocks == map[] && records == []
    {
      stocks := map[];
      records := [];
    }

    method SetStock(goodsId: int, num: int, upsertOk: bool, existing: ExistingRow) returns (err: Option<Err>)
      requires Valid()
      modifies this
      ensures Valid()
      ensures Step(State(), err) == SetOutcome(old(State()), goodsId, num, upsertOk, existing)
    {
      if !upsertOk {
        return Some(QueryFailed);
      }
      if goodsId !in stocks {
        // FirstOrCreate found nothing and inserted the row it was given
        stocks := stocks[goodsId := Stock(goodsId, num, 0)];
        return None;
      }
      match existing
      case Overwritten =>
        var row := stocks[goodsId];
        row := row.(stockNum := num);
        stocks := stocks[goodsId := row];
        err := None;
      case Untouched =>
        err := None;
      case UpdateFailed =>
        err := Some(StoreFailure);
    }

    method GetStockByGoodsId(goodsId: int, queryOk: bool) returns (r: Result<Stock, Err>)
      ensures r == Lookup(State(), goodsId, queryOk)
    {
      var data := ZeroStock;
      if !queryOk {
        return Failure(QueryFailed);
      }
      if goodsId in stocks {
        data := stocks[goodsId];
      }
      r := Success(data);
    }

    method ReduceStock(goodsId: int, num: int, orderId: int, locked: bool, fault: DbFault) returns (r: Result<Stock, Err>)
      requires Valid()
      modifies this
      ensures Valid()
      ensures Step(State(), r) == Reserve(old(State()), goodsId, num, orderId, locked, fault)
    {
      if !locked {
        return Failure(ReduceStockFailed);
      }
      // the transaction works on its own view of the tables and publishes it only on commit
      var txStocks, txRecords := stocks, records;
      if fault == ReadFails {
        return Failure(StoreFailure);
      }
      if goodsId !in txStocks {
        return Failure(RecordNotFound);
      }
      var data := txStocks[goodsId];
      var availableStock := data.stockNum - data.lock;
      if availableStock < num {
        return Failure(Understock);
      }
      data := data.(stockNum := data.stockNum - num);
      data := data.(lock := data.lock + num);
      if fault == StockSaveFails {
        return Failure(StoreFailure);
      }
      txStocks := txStocks[goodsId := data];
      if fault == RecordWriteFails {
        return Failure(StoreFailure);
      }
      txRecords := txRecords + [StockRecord(orderId, goodsId, num, PreDeducted)];
      stocks, records := txStocks, txRecords;
      r := Success(data);
    }

    method RollbackStockByMsg(data: StockRecord, fault: DbFault) returns (err: Option<Err>)
      requires Valid()
      modifies this
      ensures Valid()
      ensures Step(State(), err) == RollbackReply(old(State()), data, fault)
    {
      var txStocks, txRecords := stocks, records;
      var txErr: Option<Err> := None;
      if fault == ReadFails {
        txErr := Some(StoreFailure);
      } else {
        var found := FindPending(txRecords, data.orderId, data.goodsId);
        if found.Some? {
          if data.goodsId !in txStocks {
            txErr := Some(RecordNotFound);
          } else {
            var s := txStocks[data.goodsId];
            s := s.(stockNum := s.stockNum + data.num);
            s := s.(lock := s.lock - data.num);
            if s.lock < 0 {
              txErr := Some(RollbackStockFailed);
            } else if fault == StockSaveFails {
              txErr := Some(StoreFailure);
            } else {
              txStocks := txStocks[data.goodsId := s];
              var sr := txRecords[found.value];
              sr := sr.(status := RolledBack);
              if fault == RecordWriteFails {
                txErr := Some(StoreFailure);
              } else {
                txRecords := txRecords[found.value := sr];
              }
            }
          }
        }
      }
      assert txErr == Compensate(old(State()), data, fault).result;
      if txErr.None? {
        stocks, records := txStocks, txRecords;
      }
      // the transaction's verdict is dropped: the caller always sees nil
      err := None;
    }
  }
}
