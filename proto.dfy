/** The RPC messages the stock service exchanges. */
module Proto {

  /** Which of the service's fixed reply texts a Response carries. */
  datatype Message = NoMessage | RollbackFailedMessage | RollbackSucceededMessage

  /** The generic reply: a success flag and a message. */
  datatype Response = Response(success: bool, message: Message)

  /** The zero-valued Response that SetStock and ReduceStock send back on success. */
  const EmptyResponse := Response(false, NoMessage)

  /** Goods id with its stock: the SetStock request and the GetStock reply. */
  datatype GoodsStockInfo = GoodsStockInfo(goodsId: int, stock: int)

  /** The ReduceStock request. */
  datatype ReduceStockInfo = ReduceStockInfo(goodsId: int, num: int, orderId: int)

  /** The RollbackStock request. */
  datatype RollBackStockInfo = RollBackStockInfo(goodsId: int, orderId: int, rollbackNum: int)
}
