/** The rows the stock service persists (model/stock.go and the stock-record row that
    dao/mysql/stock.go writes). The ORM bookkeeping fields of BaseModel carry no behaviour
    and are left out. */
module Model {

  /** A row of the `xx_stock` table: total stock and the quantity pre-deducted for open orders. */
  datatype Stock = Stock(goodsId: int, stockNum: int, lock: int)

  /** The value a lookup leaves behind when no row matches: every field zero. */
  const ZeroStock := Stock(0, 0, 0)

  /** Units a new reservation may still take: `StockNum - Lock`. */
  function Available(s: Stock): int { s.stockNum - s.lock }

  /** The sum that a reservation and a rollback move between the two counters. */
  function Total(s: Stock): int { s.stockNum + s.lock }

  /** Status of a stock record written by a reservation (pre-deducted). */
  const PreDeducted := 1

  /** Status a rollback gives to the record it compensates. */
  const RolledBack := 3

  /** A row of the stock-record table: one reservation of `num` units of a goods for an order. */
  datatype StockRecord = StockRecord(orderId: int, goodsId: int, num: int, status: int)
}
