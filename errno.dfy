/** The error values the store and the service layer hand back. */
module Errno {

  datatype Err =
    | QueryFailed          // the service's "query failed" error
    | ReduceStockFailed    // the distributed lock could not be taken
    | Understock           // not enough available stock
    | RollbackStockFailed  // a rollback would drive Lock below zero
    | SetStockFailed       // the service's "set stock failed" error
    | RecordNotFound       // the ORM's "record not found" error
    | StoreFailure         // any other error the database reports
}
