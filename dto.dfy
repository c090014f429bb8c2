/** The request and response records of a fund transfer. Amounts and balances are
    exact decimals (java.math.BigDecimal), modelled as `real`. */
module Dto {

  type AccountId = string

  datatype TransferFundRequest = TransferFundRequest(
    fromAccountNumber: AccountId,
    toAccountNumber: AccountId,
    amount: real)

  /** The response carries the three request fields and the resulting balance. */
  datatype TransferFundResponse = TransferFundResponse(
    fromAccountNumber: AccountId,
    toAccountNumber: AccountId,
    amount: real,
    balance: real)
}
