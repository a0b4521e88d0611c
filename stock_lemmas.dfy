/** Properties that relate several calls of the stock store (dao/mysql/stock.go): the
    reserve/rollback round trip and the idempotence of the rollback. */
module StockLemmas {
  import opened Wrappers
  import opened Model
  import opened Errno
  import opened MysqlStock

  /** Once a rollback has marked the only pre-deducted record for (order, goods) rolled back,
      no pre-deducted record for that pair is left. */
  lemma SettledLeavesNoPending(t: Tables, data: StockRecord, fault: DbFault)
    requires AtMostOnePending(t.records, data.orderId, data.goodsId)
    requires Compensate(t, data, fault).after != t
    ensures FindPending(Compensate(t, data, fault).after.records, data.orderId, data.goodsId).None?
  {
  }

  /** A rollback delivered again after the first one took effect changes nothing, whatever
      the database does the second time, provided only one pre-deducted record existed for
      (order, goods); and a rollback that took no effect has the same outcome when repeated
      under the same conditions. */
  lemma RollbackIdempotent(t: Tables, data: StockRecord, fault: DbFault, again: DbFault)
    requires AtMostOnePending(t.records, data.orderId, data.goodsId)
    ensures var once := Compensate(t, data, fault).after;
      Compensate(once, data, fault).after == once &&
      (once != t ==> Compensate(once, data, again) == Step(once, if again == ReadFails then Some(StoreFailure) else None))
  {
  }

  /** A reservation followed by the rollback of the same (order, goods, num) commits and gives
      every stock row back its StockNum and Lock, as long as Lock was not negative before. */
  lemma ReserveThenRollbackRestores(t: Tables, goodsId: int, num: int, orderId: int)
    requires goodsId in t.stocks && t.stocks[goodsId].lock >= 0
    requires Available(t.stocks[goodsId]) >= num
    ensures var reserved := Reserve(t, goodsId, num, orderId, true, NoFault);
      var back := Compensate(reserved.after, StockRecord(orderId, goodsId, num, 0), NoFault);
      reserved.result.Success? && back.result == None && back.after.stocks == t.stocks
  {
    var reserved := Reserve(t, goodsId, num, orderId, true, NoFault);
    var rs := reserved.after.records;
    assert IsPendingFor(rs[|rs| - 1], orderId, goodsId);
    var back := Compensate(reserved.after, StockRecord(orderId, goodsId, num, 0), NoFault);
    assert back.after.stocks[goodsId] == t.stocks[goodsId];
    assert back.after.stocks == t.stocks;
  }

  /** When the order had no pre-deducted record for the goods before the reservation, the
      rollback marks exactly the record the reservation appended, and a redelivered rollback
      is a no-op. */
  lemma ReserveThenRollbackSettles(t: Tables, goodsId: int, num: int, orderId: int, again: DbFault)
    requires goodsId in t.stocks && t.stocks[goodsId].lock >= 0
    requires Available(t.stocks[goodsId]) >= num
    requires FindPending(t.records, orderId, goodsId).None?
    ensures var reserved := Reserve(t, goodsId, num, orderId, true, NoFault);
      var back := Compensate(reserved.after, StockRecord(orderId, goodsId, num, 0), NoFault);
      back.after.records == t.records + [StockRecord(orderId, goodsId, num, RolledBack)] &&
      Compensate(back.after, StockRecord(orderId, goodsId, num, 0), again).after == back.after
  {
  }
}
