/** The business layer (biz/stock/stock.go): one store call each, with the store's errors
    remapped and the stock row projected to the RPC's GoodsStockInfo. The store's state is the
    `Tables` value, and each function uses the store function its method is proved against. */
module BizStock {
  import opened Wrappers
  import opened Model
  import opened Errno
  import opened Proto
  import opened MysqlStock

  /** SetStock: any store error becomes SetStockFailed; the reply pointer is always nil, so
      only the error is modelled. */
  function SetStock(t: Tables, goodsId: int, num: int, upsertOk: bool, existing: ExistingRow): (s: Step<Option<Err>>)
    ensures s.result.Some? <==> !upsertOk || (goodsId in t.stocks && existing == UpdateFailed)
    ensures s.result.Some? ==> s.result.value == SetStockFailed && s.after == t
    ensures s.after == SetOutcome(t, goodsId, num, upsertOk, existing).after
  {
    var dao := SetOutcome(t, goodsId, num, upsertOk, existing);
    if dao.result.Some? then Step(dao.after, Some(SetStockFailed))
    else Step(dao.after, None)
  }

  /** GetStockByGoodsId: the row's goods id and StockNum (never its Lock), or the store's
      error unchanged. */
  function GetStockByGoodsId(t: Tables, goodsId: int, queryOk: bool): (r: Result<GoodsStockInfo, Err>)
    ensures r.Failure? <==> Lookup(t, goodsId, queryOk).Failure?
    ensures r.Failure? ==> r.error == Lookup(t, goodsId, queryOk).error
    ensures queryOk && goodsId !in t.stocks ==> r == Success(GoodsStockInfo(0, 0))
    ensures queryOk && goodsId in t.stocks ==>
      r == Success(GoodsStockInfo(t.stocks[goodsId].goodsId, t.stocks[goodsId].stockNum))
    ensures queryOk && goodsId in t.stocks && WellKeyed(t.stocks) ==> r.value.goodsId == goodsId
  {
    match Lookup(t, goodsId, queryOk)
    case Failure(e) => Failure(e)
    case Success(data) => Success(GoodsStockInfo(data.goodsId, data.stockNum))
  }

  /** ReduceStock: every store error, whatever its cause, becomes Understock; success answers
      an empty Response. */
  function ReduceStock(t: Tables, goodsId: int, num: int, orderId: int, locked: bool, fault: DbFault): (s: Step<Result<Response, Err>>)
    ensures s.result.Success? <==>
      locked && fault == NoFault && goodsId in t.stocks && Available(t.stocks[goodsId]) >= num
    ensures s.result.Failure? ==> s.result.error == Understock && s.after == t
    ensures s.result.Success? ==> s.result.value == EmptyResponse
    ensures s.after == Reserve(t, goodsId, num, orderId, locked, fault).after
  {
    var dao := Reserve(t, goodsId, num, orderId, locked, fault);
    if dao.result.Failure? then Step(dao.after, Failure(Understock))
    else Step(dao.after, Success(EmptyResponse))
  }
}
