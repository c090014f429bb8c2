/** What `AccountsService.transferFund` does to the ledger, as a function of the balances
    before the call, and the properties it keeps. The class in accounts_service.dfy is
    proved to follow it. */
module TransferSpec {
  import opened Results
  import opened Dto
  import opened BigDecimals
  import opened ResponseMapper

  /** The ledger: each account id to its balance. */
  type Balances = map<AccountId, real>

  const POSITIVE_AMOUNT_MESSAGE: string := "Amount must be positive value."

  /** The new balance `withdraw` leaves, or the InsufficientFundException it throws
      when the balance is below the amount. */
  function Debit(balance: real, amount: real): (r: Result<real>)
    ensures r.Ok? <==> amount <= balance
    ensures r.Ok? ==> r.value + amount == balance && r.value >= 0.0
    ensures r.Err? ==> r.error == InsufficientFund(amount)
  {
    if balance < amount then Err(InsufficientFund(amount)) else Ok(balance - amount)
  }

  /** The balances after a successful transfer, and the response. */
  datatype Committed = Committed(balances: Balances, response: TransferFundResponse)

  /** The transfer, step by step as the service takes them: both lookups, the amount
      check, withdraw, deposit, then the response built with the source id twice and
      the source balance read after both updates. */
  function Transfer(b: Balances, request: TransferFundRequest): Result<Committed> {
    var fromId, toId, amount := request.fromAccountNumber, request.toAccountNumber, request.amount;
    if fromId !in b || toId !in b then Err(NullPointer)
    else
      var exact := IntValueExact(amount);
      if exact.Err? then Err(exact.error)
      else if exact.value <= 0 then Err(BadRequest(POSITIVE_AMOUNT_MESSAGE))
      else match Debit(b[fromId], amount)
        case Err(e) => Err(e)
        case Ok(debited) =>
          var withdrawn := b[fromId := debited];
          var deposited := withdrawn[toId := withdrawn[toId] + amount];
          Ok(Committed(deposited, MapResponse(fromId, fromId, amount, deposited[fromId])))
  }

  /** An amount the service accepts: a whole number from 1 up to the largest Java int. */
  predicate AcceptedAmount(amount: real) {
    amount.Floor as real == amount && 1 <= amount.Floor <= INT_MAX
  }

  /** The failures, in the order the service meets them; each earlier one wins over
      every later one, and a transfer that passes them all commits. */
  lemma TransferFailureOrder(b: Balances, request: TransferFundRequest)
    ensures var t, fromId, toId, amount := Transfer(b, request), request.fromAccountNumber,
                                           request.toAccountNumber, request.amount;
      && (fromId !in b || toId !in b ==> t == Err(NullPointer))
      && (fromId in b && toId in b && amount.Floor as real != amount ==> t == Err(Arithmetic))
      && (fromId in b && toId in b && amount.Floor as real == amount && !InIntRange(amount.Floor)
          ==> t == Err(Arithmetic))
      && (fromId in b && toId in b && amount.Floor as real == amount && INT_MIN <= amount.Floor <= 0
          ==> t == Err(BadRequest(POSITIVE_AMOUNT_MESSAGE)))
      && (fromId in b && toId in b && AcceptedAmount(amount) && b[fromId] < amount
          ==> t == Err(InsufficientFund(amount)))
      && (fromId in b && toId in b && AcceptedAmount(amount) && amount <= b[fromId] ==> t.Ok?)
  {
    var fromId, toId, amount := request.fromAccountNumber, request.toAccountNumber, request.amount;
    if fromId in b && toId in b && amount.Floor as real == amount && InIntRange(amount.Floor) {
      IntValueExactAcceptsInts(amount.Floor);
    }
  }

  /** Exactly the accepted amounts get past line 70. */
  lemma TransferCommitsIff(b: Balances, request: TransferFundRequest)
    ensures Transfer(b, request).Ok? <==>
      request.fromAccountNumber in b && request.toAccountNumber in b &&
      AcceptedAmount(request.amount) && request.amount <= b[request.fromAccountNumber]
  {
    TransferFailureOrder(b, request);
  }

  /** On success the source loses exactly the amount, the destination gains exactly the
      amount, and no other account changes. */
  lemma TransferMovesAmount(b: Balances, request: TransferFundRequest)
    requires Transfer(b, request).Ok?
    requires request.fromAccountNumber != request.toAccountNumber
    ensures var after, fromId, toId, amount := Transfer(b, request).value.balances,
                                               request.fromAccountNumber, request.toAccountNumber, request.amount;
      && after.Keys == b.Keys
      && after[fromId] == b[fromId] - amount
      && after[toId] == b[toId] + amount
      && (forall id | id in b && id != fromId && id != toId :: after[id] == b[id])
  {
  }

  /** For two distinct accounts, the sum of their balances is conserved. */
  lemma TransferConservesPair(b: Balances, request: TransferFundRequest)
    requires Transfer(b, request).Ok?
    ensures var after, fromId, toId := Transfer(b, request).value.balances,
                                       request.fromAccountNumber, request.toAccountNumber;
      after[fromId] + after[toId] == b[fromId] + b[toId]
  {
  }

  /** A self-transfer resolves to one account, so withdraw and deposit cancel out. */
  lemma SelfTransferNetsZero(b: Balances, request: TransferFundRequest)
    requires request.fromAccountNumber == request.toAccountNumber
    requires Transfer(b, request).Ok?
    ensures Transfer(b, request).value.balances == b
  {
  }

  /** A failed transfer ends in one of exactly four exceptions. */
  lemma TransferFailureKinds(b: Balances, request: TransferFundRequest)
    requires Transfer(b, request).Err?
    ensures Transfer(b, request).error in
      {NullPointer, Arithmetic, BadRequest(POSITIVE_AMOUNT_MESSAGE), InsufficientFund(request.amount)}
  {
  }

  /** The response: the request amount unchanged, the source balance after the update,
      and (as written) the source id in both id fields. */
  lemma TransferResponse(b: Balances, request: TransferFundRequest)
    requires Transfer(b, request).Ok?
    ensures var c, fromId := Transfer(b, request).value, request.fromAccountNumber;
      && c.response.amount == request.amount
      && c.response.balance == c.balances[fromId]
      && c.response.fromAccountNumber == fromId
      && c.response.toAccountNumber == fromId
    ensures request.fromAccountNumber != request.toAccountNumber ==>
      Transfer(b, request).value.response.balance == b[request.fromAccountNumber] - request.amount
  {
  }

  /** A successful transfer keeps every balance non-negative if all were so before. */
  lemma TransferKeepsNonNegative(b: Balances, request: TransferFundRequest)
    requires Transfer(b, request).Ok?
    requires forall id | id in b :: b[id] >= 0.0
    ensures var after := Transfer(b, request).value.balances;
      forall id | id in after :: after[id] >= 0.0
  {
  }

  /** The sum of all balances in the ledger. */
  ghost function Total(b: Balances): real
    decreases |b|
  {
    if b == map[] then 0.0
    else
      var id :| id in b;
      b[id] + Total(b - {id})
  }

  /** Any one account can be taken out of the sum first. */
  lemma {:induction false} TotalRemove(b: Balances, id: AccountId)
    requires id in b
    ensures Total(b) == b[id] + Total(b - {id})
    decreases |b|
  {
    var first :| first in b && Total(b) == b[first] + Total(b - {first});
    if first != id {
      assert b - {first} - {id} == b - {id} - {first};
      TotalRemove(b - {first}, id);
      TotalRemove(b - {id}, first);
    }
  }

  /** Replacing one balance changes the sum by the difference. */
  lemma TotalUpdate(b: Balances, id: AccountId, v: real)
    requires id in b
    ensures Total(b[id := v]) == Total(b) - b[id] + v
  {
    TotalRemove(b, id);
    TotalRemove(b[id := v], id);
    assert b[id := v] - {id} == b - {id};
  }

  /** Conservation: a successful transfer does not change the sum of all balances. */
  lemma TransferConservesTotal(b: Balances, request: TransferFundRequest)
    requires Transfer(b, request).Ok?
    ensures Total(Transfer(b, request).value.balances) == Total(b)
  {
    var fromId, toId, amount := request.fromAccountNumber, request.toAccountNumber, request.amount;
    var withdrawn := b[fromId := b[fromId] - amount];
    TotalUpdate(b, fromId, b[fromId] - amount);
    TotalUpdate(withdrawn, toId, withdrawn[toId] + amount);
  }

  /** A worked example: A holds 100 and B 50; moving 30 leaves 70 and 80, and the response
      names A twice. */
  lemma TransferExample()
    ensures var t := Transfer(map["A" := 100.0, "B" := 50.0], TransferFundRequest("A", "B", 30.0));
      && t.Ok?
      && t.value.balances == map["A" := 70.0, "B" := 80.0]
      && t.value.response == TransferFundResponse("A", "A", 30.0, 70.0)
  {
    IntValueExactAcceptsInts(30);
  }
}
