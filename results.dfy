/** Errors the transfer path can raise, and the wrappers that carry them. */
module Results {

  /** The exceptions that can leave `AccountsService.transferFund` and `createAccount`. */
  datatype Error =
    | NullPointer                       // an account lookup found no account and the result was dereferenced (AccountsService.java, lines 62-63)
    | Arithmetic                        // BigDecimal.intValueExact refused the amount
    | BadRequest(message: string)       // the amount is not positive
    | InsufficientFund(amount: real)    // the message is formatted from the refused amount
    | DuplicateAccountId(id: string)    // an account with this id already exists

  datatype Result<T> = Ok(value: T) | Err(error: Error)

  /** What a void Java method that may throw ends with. */
  datatype Outcome = Pass | Fail(error: Error)

  /** A reference that may be null. */
  datatype Option<T> = None | Some(value: T)
}
