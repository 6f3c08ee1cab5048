/**
 * The exception hierarchy of the domain layer. Every exception the handlers
 * throw is a `DomainError` value here; an operation that throws returns
 * `Err(e)` instead of a new state.
 */
module DomainExceptions {
  import opened Wrappers

  datatype DomainError =
    /** The base exception, raised directly with a free-form message. */
    | DomainException(message: string)
    | UserNotFound(userId: string)
    | ProductNotFound(productId: int)
    | Unauthorized(message: string)
    | InsufficientFunds(required: int, available: int)
    | InsufficientStock(productName: string, requested: int, available: int)
    | InvalidCoin(coinValue: int)
    | InvalidRole(action: string, requiredRole: string)
    | DuplicateUsername(username: string)

  /** The outcome of a handler: its value, or the domain exception it threw. */
  type Outcome<T> = Result<T, DomainError>
}
