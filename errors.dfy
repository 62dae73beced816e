/** The error taxonomy of fark/src/error.rs. */
module Errors {
  /** Every way an authentication or token call can fail. */
  datatype AuthError =
    | InvalidInput
    | UserError
    | StrategyNotFound
    | PasswordMismatch
    | InternalError
    | TokenError
    | SecretNotFound
    | InvalidToken

  /** The only failure of the wall-clock read. */
  datatype TimeError = TimeGenError
}
