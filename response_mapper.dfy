/** FundTransferResponseMapper: builds the transfer response from ids, amount and balance. */
module ResponseMapper {
  import opened Dto

  /** `mapResponse` as written: the source id is stored in both id fields and
      `toAccountId` is never read. */
  function MapResponse(fromAccountId: AccountId, toAccountId: AccountId, amount: real, balance: real)
    : (r: TransferFundResponse)
    ensures r.fromAccountNumber == fromAccountId
    ensures r.toAccountNumber == fromAccountId
    ensures r.amount == amount
    ensures r.balance == balance
  {
    TransferFundResponse(fromAccountId, fromAccountId, amount, balance)
  }

  /** The response does not depend on the destination id it is given. */
  lemma MapResponseIgnoresToId(fromAccountId: AccountId, to1: AccountId, to2: AccountId, amount: real, balance: real)
    ensures MapResponse(fromAccountId, to1, amount, balance) == MapResponse(fromAccountId, to2, amount, balance)
  {
  }

  /** A concrete request whose destination is lost: A to B yields a response naming A twice. */
  lemma MapResponseLosesToId()
    ensures MapResponse("A", "B", 30.0, 70.0).toAccountNumber != "B"
  {
  }

  /** The mapping the response type evidently calls for: each field from its own argument. */
  function MapResponseFixed(fromAccountId: AccountId, toAccountId: AccountId, amount: real, balance: real)
    : (r: TransferFundResponse)
    ensures r.fromAccountNumber == fromAccountId
    ensures r.toAccountNumber == toAccountId
    ensures r.amount == amount
    ensures r.balance == balance
  {
    TransferFundResponse(fromAccountId, toAccountId, amount, balance)
  }

  /** The corrected mapping echoes the request's three fields; the one as written does so
      exactly when the request is a self-transfer. */
  lemma ResponseEchoesRequest(request: TransferFundRequest, balance: real)
    ensures var r := MapResponseFixed(request.fromAccountNumber, request.toAccountNumber, request.amount, balance);
      TransferFundRequest(r.fromAccountNumber, r.toAccountNumber, r.amount) == request
    ensures var r := MapResponse(request.fromAccountNumber, request.toAccountNumber, request.amount, balance);
      TransferFundRequest(r.fromAccountNumber, r.toAccountNumber, r.amount) == request
      <==> request.fromAccountNumber == request.toAccountNumber
  {
  }
}
