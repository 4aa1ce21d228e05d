/**
 * Why an instruction aborts. `BettingError` is the program's own error
 * enum; the other two kinds come from the token program and from the
 * runtime and account framework the instructions run on.
 */
module Errors {

  datatype BettingError =
    | MarketClosed
    | MarketResolved
    | InvalidOutcome
    | Overflow
    | Underflow
    | GameNotComplete
    | AlreadyResolved
    | MarketNotResolved
    | AlreadyClaimed
    | NotWinner
    | NoWinningPool
    | TooLateToCanel
    | Unauthorized
    | InvalidMarket

  /** The token program's refusals of a transfer. */
  datatype TokenError =
    | OwnerMismatch
    | InsufficientFunds
    | TokenOverflow

  /** Failures raised outside the handlers' own `require!` checks. */
  datatype RuntimeError =
    | AccountAlreadyInUse
    | MaxSeedLengthExceeded
    | AccountDidNotSerialize
    | AccountNotInitialized
    | ConstraintTokenOwner
    | ArithmeticOverflow

  datatype Error =
    | Betting(code: BettingError)
    | Token(reason: TokenError)
    | Runtime(fault: RuntimeError)
}
