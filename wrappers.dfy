/** Option and Result types shared by every service module, and the errors the services raise. */
module Wrappers {

  datatype Option<+T> = None | Some(value: T) {
    /** The value, or the given default when there is none. */
    function GetOr(default: T): T {
      match this
      case Some(v) => v
      case None => default
    }
  }

  /** The errors thrown by the services, one constructor per distinct message. */
  datatype Error =
    // loans
    | ActiveApplicationExists
    | InsufficientSavings(minSavings: real)
    | LoanNotFound
    | Unauthorized
    | LimitExceeded(multiplier: real, maxLimit: real)
    | UnauthorizedRequest
    | InvalidLoanStatus
    | NotANumber
    | UserNotFound
    // payments
    | NullReference
    | DuplicateReference
    | InvalidDecision
    | TransactionNotFound
    | AlreadyClaimed
    // deposits
    | InvalidAmount
    | InsufficientWithdrawableSavings
    | FundsLockedByGuarantees(locked: real)
    // dividends
    | DividendAlreadyDeclared
    | DividendNotFound
    | NoEligibleMembers
    // auth
    | UserExists
    | MailFailed
    | InvalidCredentials
    | EmailNotVerified
    | AccountDeactivated
    | InvalidToken

  /** Either the value an operation returns or the error it throws. */
  datatype Result<+T> = Ok(value: T) | Err(error: Error)

  /** The outcome of an operation that returns nothing. */
  datatype Outcome = Done | Fail(error: Error)
}
