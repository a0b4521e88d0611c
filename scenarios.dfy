/** Concrete runs of the store and the entry points: the reserve/reject/rollback/redelivery
    sequence on one goods, the sequential replay of the client's load test
    (rpc_client/test.go), and the runs that show what the guards do and do not keep. */
module Scenarios {
  import opened Wrappers
  import opened Model
  import opened Errno
  import opened Proto
  import opened MysqlStock
  import HandlerStock

  /** Goods 2001 with 100 units in stock and none pre-deducted. */
  const Fresh := Tables(map[2001 := Stock(2001, 100, 0)], [])

  /** Reserve 30 for order 1; a reservation of 80 for order 2 is then refused (40 available);
      the rollback of order 1 restores 100/0 and marks its record; a redelivered rollback and
      a rollback for an order that never reserved change nothing. */
  lemma ReserveRejectRollbackScenario()
    ensures var a := Reserve(Fresh, 2001, 30, 1, true, NoFault);
      a.result == Success(Stock(2001, 70, 30)) &&
      a.after.records == [StockRecord(1, 2001, 30, PreDeducted)] &&
      Reserve(a.after, 2001, 80, 2, true, NoFault) == Step(a.after, Failure(Understock)) &&
      var c := Compensate(a.after, StockRecord(1, 2001, 30, 0), NoFault);
      c.after == Tables(map[2001 := Stock(2001, 100, 0)], [StockRecord(1, 2001, 30, RolledBack)]) &&
      Compensate(c.after, StockRecord(1, 2001, 30, 0), NoFault) == Step(c.after, None) &&
      Compensate(a.after, StockRecord(9, 2001, 30, 0), NoFault) == Step(a.after, None)
  {
  }

  /** A reservation does not keep StockNum >= Lock: 100/0, reserve 60, gives 40/60. */
  lemma ReservationCanPushLockAboveStock()
    ensures var a := Reserve(Fresh, 2001, 60, 1, true, NoFault);
      a.result == Success(Stock(2001, 40, 60)) && a.result.value.stockNum < a.result.value.lock
  {
  }

  /** The store alone does not keep Lock >= 0: a negative Num passes its guard. Only the
      handler's `num > 0` check stops this. */
  lemma NegativeReservationDrivesLockNegative()
    ensures Reserve(Fresh, 2001, -5, 1, true, NoFault).result == Success(Stock(2001, 105, -5))
    ensures HandlerStock.ReduceStock(Fresh, ReduceStockInfo(2001, -5, 1), true, NoFault) ==
      Step(Fresh, Failure(HandlerStock.InvalidArgument(HandlerStock.BadParams)))
  {
  }

  /** RollbackStock checks nothing: a negative RollbackNum is applied, driving StockNum below
      zero while Lock stays non-negative. */
  lemma UncheckedRollbackDrivesStockNegative()
    ensures var a := Reserve(Tables(map[2001 := Stock(2001, 10, 0)], []), 2001, 5, 1, true, NoFault);
      a.result == Success(Stock(2001, 5, 5)) &&
      HandlerStock.RollbackStock(a.after, RollBackStockInfo(2001, 1, -10), NoFault).after.stocks ==
        map[2001 := Stock(2001, -5, 15)]
  {
  }

  /** One-unit reservations of a goods for the given orders, one after another, with the
      lock taken and no database error; the tables after them and how many succeeded. */
  function ReserveUnits(t: Tables, goodsId: int, orders: seq<int>): (Tables, nat)
    decreases |orders|
  {
    if |orders| == 0 then (t, 0)
    else
      var s := Reserve(t, goodsId, 1, orders[0], true, NoFault);
      var rest := ReserveUnits(s.after, goodsId, orders[1..]);
      (rest.0, rest.1 + if s.result.Success? then 1 else 0)
  }

  function Min(a: int, b: int): int { if a <= b then a else b }

  /** Successive one-unit reservations against a row with A units available succeed
      min(N, ceil(A / 2)) times, since each one takes 2 from StockNum - Lock; the row ends
      with that many units moved from StockNum to Lock. */
  lemma {:induction false} UnitReservationCount(t: Tables, goodsId: int, orders: seq<int>)
    requires goodsId in t.stocks
    ensures var (after, n) := ReserveUnits(t, goodsId, orders);
      var row, a := t.stocks[goodsId], Available(t.stocks[goodsId]);
      n == Min(|orders|, if a <= 0 then 0 else (a + 1) / 2) &&
      goodsId in after.stocks &&
      after.stocks[goodsId] == Stock(row.goodsId, row.stockNum - n, row.lock + n)
    decreases |orders|
  {
    if |orders| > 0 {
      var s := Reserve(t, goodsId, 1, orders[0], true, NoFault);
      UnitReservationCount(s.after, goodsId, orders[1..]);
      var a := Available(t.stocks[goodsId]);
      if s.result.Success? {
        assert Available(s.after.stocks[goodsId]) == a - 2;
        assert (if a - 2 <= 0 then 0 else (a - 1) / 2) == (if a <= 0 then 0 else (a + 1) / 2) - 1;
      } else {
        assert a <= 0;
        var rest := ReserveUnits(s.after, goodsId, orders[1..]);
        assert rest.1 == 0;
      }
    }
  }

  /** The load test's five one-unit reservations of goods 2001 for orders 8001 to 8005,
      served in lock order against 100/0, all succeed and leave 95/5. */
  lemma LoadTestReplay()
    ensures ReserveUnits(Fresh, 2001, [8001, 8002, 8003, 8004, 8005]).1 == 5
    ensures ReserveUnits(Fresh, 2001, [8001, 8002, 8003, 8004, 8005]).0.stocks[2001] == Stock(2001, 95, 5)
  {
  }

  /** The same reserve-and-roll-back sequence, driven through the store's methods. */
  method StoreScenario()
  {
    var store := new StockStore();
    var setErr := store.SetStock(2001, 100, true, Untouched);
    assert setErr == None && store.stocks[2001] == Stock(2001, 100, 0);
    var r := store.ReduceStock(2001, 30, 1, true, NoFault);
    assert r == Success(Stock(2001, 70, 30));
    r := store.ReduceStock(2001, 80, 2, true, NoFault);
    assert r == Failure(Understock);
    assert FindPending(store.records, 1, 2001) == Some(0);
    var rollbackErr := store.RollbackStockByMsg(StockRecord(1, 2001, 30, 0), NoFault);
    assert rollbackErr == None && store.stocks[2001] == Stock(2001, 100, 0);
    var got := store.GetStockByGoodsId(2001, true);
    assert got == Success(Stock(2001, 100, 0));
  }
}
