/** The values shared by every component: orders, error kinds and 64-bit integers. */
module Records {

  datatype Option<+T> = None | Some(value: T)

  /** Why an operation was refused. Error texts are reduced to these kinds. */
  datatype Failure =
    | Cancelled
    | TransactionActive
    | TransactionComplete
    | TransactionDone
    | DuplicateKey
    | SchemaMissing
    | UnknownStatement
    | InvalidArguments
    | InvalidRecord
    | InvalidReservation
    | InsufficientStock
    | InvalidPayment
    | Declined
    | InvalidOrder
    | StockNotRestored
    | StorageFailed
    | MultipleRows
    | NoSuchHandle

  datatype Result<+T> = Ok(value: T) | Err(error: Failure)

  /** An order as persisted and as returned to the caller. */
  datatype Record = Record(
    id: string,
    sku: string,
    quantity: int,
    totalCents: int,
    authorizationID: string
  )

  const MAX_INT64: int := 0x7FFF_FFFF_FFFF_FFFF
  const MIN_INT64: int := -0x8000_0000_0000_0000

  predicate IsInt64(x: int) {
    MIN_INT64 <= x <= MAX_INT64
  }

  /** The 64-bit machine integer that represents x modulo 2^64. */
  function Wrap64(x: int): int {
    (x - MIN_INT64) % 0x1_0000_0000_0000_0000 + MIN_INT64
  }

  lemma WrapExact(x: int)
    ensures IsInt64(Wrap64(x))
    ensures Wrap64(x) == x <==> IsInt64(x)
    ensures (Wrap64(x) - x) % 0x1_0000_0000_0000_0000 == 0
  {
  }
}
