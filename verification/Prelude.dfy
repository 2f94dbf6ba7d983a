// Types shared by every part of the model.
module Prelude {

  datatype Option<+T> = None | Some(value: T)

  datatype Result<+T> = Ok(value: T) | Err(error: Error)

  // The sentinel errors of internal/domain/errors.go that the modelled code returns, plus the
  // wrapped infrastructure failures, which carry no sentinel.
  datatype Error =
    | InvalidDateRange
    | InventoryUnavailable
    | ReservationNotFound
    | InvalidStatusChange
    | UnexpectedRowsAffected(expected: int, affected: int)
    | ReconciliationRequired(token: string)
    | Infrastructure

  // What became of one round trip to a server: it ran and the reply arrived, it ran but the
  // reply was lost, or it never ran.
  datatype Delivery = Replied | ReplyLost | NotRun

  function Min(a: int, b: int): int { if a <= b then a else b }

  function Max(a: int, b: int): int { if a <= b then b else a }
}
