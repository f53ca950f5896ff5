/** The error kinds the ledger raises (one per exception class), the
    wrappers that carry them, and the configuration constants. */
module BankErrors {

  /** The reason carried by an IllegalArgumentException. */
  datatype ArgumentIssue =
    | SameAccount                          // transfer to the sender itself
    | RateOutOfRange(rate: real)           // savings rate outside [0, 20]
    | MissingTransactionType
    | NonPositiveTransactionAmount(amount: real)
    | BlankDescription
    | NonPositiveCustomerId(id: int)
    | BlankName                            // constructor: null or blank name
    | InvalidName                          // setter: null, blank, or raw length outside [2, 50]
    | MissingAccount
    | MissingAddress

  datatype BankError =
    | InvalidAmount(amount: real)
    | InsufficientFunds(attempted: real, available: real)
    | MinimumBalance(balance: real)
    | DailyLimitExceeded
    | InvalidIfsc(code: string)
    | DuplicateAccount(accNo: int)
    | AccountNotFound(id: int)
    | IllegalArgument(issue: ArgumentIssue)

  /** A reference or string that may be Java's null. */
  datatype Option<+T> = None | Some(value: T)

  /** A value, or the exception thrown instead of returning it. */
  datatype Result<+T> = Success(value: T) | Failure(error: BankError)

  /** A void operation: it completed, or it threw. */
  datatype Outcome = Pass | Fail(error: BankError)
}

/** Configuration constants the business logic reads. */
module BankConstants {
  /** The balance floor every account keeps. */
  const MIN_BALANCE: real := 1000.0
  /** The longest statement the service prints. */
  const MAX_STATEMENT: int := 50
}
