/** The RPC entry points (handler/stock.go): argument guards, one call into the layer below,
    and the reply or gRPC status built from its answer. Like the business layer these are
    functions of the store's `Tables` value. `Run` serves a sequence of calls one after
    another, and the lemmas at the end state what every such sequence keeps. */
module HandlerStock {
  import opened Wrappers
  import opened Model
  import opened Errno
  import opened Proto
  import opened MysqlStock
  import BizStock

  /** Which guard turned a request away. */
  datatype ArgProblem = BadGoodsId | NegativeStock | BadParams

  /** The gRPC status an entry point fails with. */
  datatype Status = InvalidArgument(problem: ArgProblem) | Internal(cause: Err)

  /** StockSrv.SetStock: GoodsId must be positive and Stock not negative (zero is accepted);
      a business-layer error becomes Internal. */
  function SetStock(t: Tables, req: GoodsStockInfo, upsertOk: bool, existing: ExistingRow): (s: Step<Result<Response, Status>>)
    ensures req.goodsId <= 0 ==> s == Step(t, Failure(InvalidArgument(BadGoodsId)))
    ensures req.goodsId > 0 && req.stock < 0 ==> s == Step(t, Failure(InvalidArgument(NegativeStock)))
    ensures req.goodsId > 0 && req.stock >= 0 ==>
      s.after == SetOutcome(t, req.goodsId, req.stock, upsertOk, existing).after &&
      (s.result.Failure? <==> !upsertOk || (req.goodsId in t.stocks && existing == UpdateFailed))
    ensures s.result.Success? ==> s.result.value == EmptyResponse
    ensures req.goodsId > 0 && req.stock >= 0 && s.result.Failure? ==> s.result.error == Internal(SetStockFailed)
    ensures WellKeyed(t.stocks) ==> WellKeyed(s.after.stocks)
    ensures LocksNonNegative(t.stocks) ==> LocksNonNegative(s.after.stocks)
  {
    if req.goodsId <= 0 then Step(t, Failure(InvalidArgument(BadGoodsId)))
    else if req.stock < 0 then Step(t, Failure(InvalidArgument(NegativeStock)))
    else
      var biz := BizStock.SetStock(t, req.goodsId, req.stock, upsertOk, existing);
      if biz.result.Some? then Step(biz.after, Failure(Internal(biz.result.value)))
      else Step(biz.after, Success(EmptyResponse))
  }

  /** StockSrv.GetStock: GoodsId must be positive; a missing goods answers a zero-valued
      GoodsStockInfo; a read error becomes Internal. */
  function GetStock(t: Tables, goodsId: int, queryOk: bool): (r: Result<GoodsStockInfo, Status>)
    ensures goodsId <= 0 ==> r == Failure(InvalidArgument(BadGoodsId))
    ensures goodsId > 0 ==> (r.Failure? <==> !queryOk)
    ensures goodsId > 0 && !queryOk ==> r == Failure(Internal(QueryFailed))
    ensures goodsId > 0 && queryOk && goodsId !in t.stocks ==> r == Success(GoodsStockInfo(0, 0))
    ensures goodsId > 0 && queryOk && goodsId in t.stocks ==>
      r == Success(GoodsStockInfo(t.stocks[goodsId].goodsId, t.stocks[goodsId].stockNum))
    ensures goodsId > 0 && queryOk && goodsId in t.stocks && WellKeyed(t.stocks) ==>
      r == Success(GoodsStockInfo(goodsId, t.stocks[goodsId].stockNum))
  {
    if goodsId <= 0 then Failure(InvalidArgument(BadGoodsId))
    else match BizStock.GetStockByGoodsId(t, goodsId, queryOk)
      case Failure(e) => Failure(Internal(e))
      case Success(info) => Success(info)
  }

  /** StockSrv.ReduceStock: GoodsId and Num must be positive (OrderId is not checked); any
      failure below becomes Internal(Understock). */
  function ReduceStock(t: Tables, req: ReduceStockInfo, locked: bool, fault: DbFault): (s: Step<Result<Response, Status>>)
    ensures req.goodsId <= 0 || req.num <= 0 ==> s == Step(t, Failure(InvalidArgument(BadParams)))
    ensures s.result.Success? <==>
      req.goodsId > 0 && req.num > 0 && locked && fault == NoFault &&
      req.goodsId in t.stocks && Available(t.stocks[req.goodsId]) >= req.num
    ensures s.result.Success? ==> s.result.value == EmptyResponse
    ensures s.result.Failure? ==> s.after == t
    ensures req.goodsId > 0 && req.num > 0 && s.result.Failure? ==> s.result.error == Internal(Understock)
    ensures req.goodsId > 0 && req.num > 0 ==>
      s.after == Reserve(t, req.goodsId, req.num, req.orderId, locked, fault).after
    ensures s.result.Success? ==>
      var was := t.stocks[req.goodsId];
      s.after.stocks == t.stocks[req.goodsId := Stock(was.goodsId, was.stockNum - req.num, was.lock + req.num)] &&
      s.after.records == t.records + [StockRecord(req.orderId, req.goodsId, req.num, PreDeducted)]
    ensures SameTotals(t.stocks, s.after.stocks)
    ensures WellKeyed(t.stocks) ==> WellKeyed(s.after.stocks)
    ensures LocksNonNegative(t.stocks) ==> LocksNonNegative(s.after.stocks)
  {
    if req.goodsId <= 0 || req.num <= 0 then Step(t, Failure(InvalidArgument(BadParams)))
    else
      var biz := BizStock.ReduceStock(t, req.goodsId, req.num, req.orderId, locked, fault);
      match biz.result
      case Failure(e) => Step(biz.after, Failure(Internal(e)))
      case Success(_) => Step(biz.after, Success(EmptyResponse))
  }

  /** StockSrv.RollbackStock: no argument is checked; the request becomes a stock record and
      goes to the store's rollback; the reply's Success is false exactly when the store
      answers an error, and no status error is ever returned. */
  function RollbackStock(t: Tables, req: RollBackStockInfo, fault: DbFault): (s: Step<Result<Response, Status>>)
    ensures s.result.Success? && s.result.value == Response(true, RollbackSucceededMessage)
    ensures s.after == Compensate(t, StockRecord(req.orderId, req.goodsId, req.rollbackNum, 0), fault).after
    ensures FindPending(t.records, req.orderId, req.goodsId).None? ==> s.after == t
    ensures SameTotals(t.stocks, s.after.stocks)
    ensures WellKeyed(t.stocks) ==> WellKeyed(s.after.stocks)
    ensures LocksNonNegative(t.stocks) ==> LocksNonNegative(s.after.stocks)
  {
    var data := StockRecord(req.orderId, req.goodsId, req.rollbackNum, 0);
    var dao := RollbackReply(t, data, fault);
    if dao.result.Some? then Step(dao.after, Success(Response(false, RollbackFailedMessage)))
    else Step(dao.after, Success(Response(true, RollbackSucceededMessage)))
  }

  /** One RPC together with what the lock and the database do while it is served. */
  datatype Call =
    | SetStockCall(info: GoodsStockInfo, upsertOk: bool, existing: ExistingRow)
    | GetStockCall(goodsId: int, queryOk: bool)
    | ReduceStockCall(reduce: ReduceStockInfo, locked: bool, fault: DbFault)
    | RollbackStockCall(rollback: RollBackStockInfo, fault: DbFault)

  /** The tables after one call. */
  function Serve(t: Tables, c: Call): Tables
  {
    match c
    case SetStockCall(info, upsertOk, existing) => SetStock(t, info, upsertOk, existing).after
    case GetStockCall(_, _) => t
    case ReduceStockCall(reduce, locked, fault) => ReduceStock(t, reduce, locked, fault).after
    case RollbackStockCall(rollback, fault) => RollbackStock(t, rollback, fault).after
  }

  /** The tables after the calls, served one at a time in order. */
  function Run(t: Tables, calls: seq<Call>): Tables
    decreases |calls|
  {
    if |calls| == 0 then t else Run(Serve(t, calls[0]), calls[1..])
  }

  /** Through any sequence of calls, no row's Lock becomes negative: ReduceStock reaches the
      store only with a positive Num, and the rollback aborts rather than drive Lock below
      zero. */
  lemma {:induction false} RunKeepsLocksNonNegative(t: Tables, calls: seq<Call>)
    requires LocksNonNegative(t.stocks)
    ensures LocksNonNegative(Run(t, calls).stocks)
    decreases |calls|
  {
    if |calls| > 0 {
      RunKeepsLocksNonNegative(Serve(t, calls[0]), calls[1..]);
    }
  }

  /** Through any sequence of calls, every stock row stays under its own goods id. */
  lemma {:induction false} RunKeepsWellKeyed(t: Tables, calls: seq<Call>)
    requires WellKeyed(t.stocks)
    ensures WellKeyed(Run(t, calls).stocks)
    decreases |calls|
  {
    if |calls| > 0 {
      RunKeepsWellKeyed(Serve(t, calls[0]), calls[1..]);
    }
  }

  /** Without SetStock, a sequence of calls leaves the same goods ids, each with the same
      StockNum + Lock: reservations and rollbacks only move units between the two. */
  lemma {:induction false} RunConservesTotals(t: Tables, calls: seq<Call>)
    requires forall i :: 0 <= i < |calls| ==> !calls[i].SetStockCall?
    ensures SameTotals(t.stocks, Run(t, calls).stocks)
    decreases |calls|
  {
    if |calls| > 0 {
      var next := Serve(t, calls[0]);
      assert SameTotals(t.stocks, next.stocks);
      RunConservesTotals(next, calls[1..]);
      SameTotalsTransitive(t.stocks, next.stocks, Run(next, calls[1..]).stocks);
    }
  }
}
