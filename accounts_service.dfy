/** AccountsService: the account ledger, the table of per-account locks and the
    transfer that mutates both. */
module Accounts {
  import opened Results
  import opened Dto
  import opened BigDecimals
  import opened ResponseMapper
  import opened TransferSpec

  /** A lock's identity. Each `new ReentrantLock()` is a fresh token. */
  type LockToken = nat

  class AccountsService {
    /** The accounts repository, reduced to each account id's balance. */
    var balances: Balances
    /** The lock table, one lock per account id ever transferred from or to. */
    var locks: map<AccountId, LockToken>
    /** The next token a new lock receives. */
    var nextLock: LockToken

    /** Every lock in the table was handed out before, and no two ids share a lock. */
    ghost predicate Valid()
      reads this
    {
      && (forall id | id in locks :: locks[id] < nextLock)
      && (forall id1, id2 | id1 in locks && id2 in locks && id1 != id2 :: locks[id1] != locks[id2])
    }

    constructor ()
      ensures Valid()
      ensures balances == map[] && locks == map[]
    {
      balances := map[];
      locks := map[];
      nextLock := 0;
    }

    /** Adds an account. Ids are unique keys of the repository, so an existing id is refused. */
    method CreateAccount(id: AccountId, balance: real) returns (o: Outcome)
      modifies this`balances
      ensures id in old(balances) ==> o == Fail(DuplicateAccountId(id)) && balances == old(balances)
      ensures id !in old(balances) ==> o == Pass && balances == old(balances)[id := balance]
    {
      if id in balances {
        return Fail(DuplicateAccountId(id));
      }
      balances := balances[id := balance];
      o := Pass;
    }

    /** The account's balance, or null for an unknown id. */
    method GetAccount(id: AccountId) returns (account: Option<real>)
      ensures account.Some? <==> id in balances
      ensures account.Some? ==> account.value == balances[id]
    {
      account := if id in balances then Some(balances[id]) else None;
    }

    /** Credits the account with the amount. */
    method Deposit(id: AccountId, amount: real)
      requires id in balances
      modifies this`balances
      ensures balances == old(balances)[id := old(balances)[id] + amount]
    {
      var balance := balances[id];
      balance := balance + amount;
      balances := balances[id := balance];
    }

    /** Debits the account, or throws InsufficientFundException before any update when the
        balance is below the amount. */
    method Withdraw(id: AccountId, amount: real) returns (o: Outcome)
      requires id in balances
      modifies this`balances
      ensures match Debit(old(balances)[id], amount)
        case Ok(debited) => o == Pass && balances == old(balances)[id := debited]
        case Err(e) => o == Fail(e) && balances == old(balances)
    {
      var balance := balances[id];
      if balance < amount {
        return Fail(InsufficientFund(amount));
      }
      balance := balance - amount;
      balances := balances[id := balance];
      o := Pass;
    }

    /** The lock stored for the id, creating and storing a fresh one only when there is none. */
    method GetLock(id: AccountId) returns (lock: LockToken)
      requires Valid()
      modifies this`locks, this`nextLock
      ensures Valid()
      ensures id in locks && locks[id] == lock
      ensures locks == old(locks)[id := lock]
      ensures id in old(locks) ==> lock == old(locks)[id] && locks == old(locks)
      ensures id !in old(locks) ==> lock !in old(locks).Values && locks == old(locks)[id := lock]
    {
      if id in locks {
        lock := locks[id];
      } else {
        lock := nextLock;
        nextLock := nextLock + 1;
        locks := locks[id := lock];
      }
    }

    /** Transfers the request's amount between its two accounts, following TransferSpec.Transfer.
        The lock table gains entries for both ids once both accounts are found, even when a
        later check fails. */
    method TransferFund(request: TransferFundRequest) returns (r: Result<TransferFundResponse>)
      requires Valid()
      modifies this`balances, this`locks, this`nextLock
      ensures Valid()
      ensures match Transfer(old(balances), request)
        case Ok(c) => r == Ok(c.response) && balances == c.balances
        case Err(e) => r == Err(e) && balances == old(balances)
      ensures var fromId, toId := request.fromAccountNumber, request.toAccountNumber;
        if fromId in old(balances) && toId in old(balances) then
          && fromId in locks && toId in locks
          && locks == old(locks)[fromId := locks[fromId]][toId := locks[toId]]
          && (fromId in old(locks) ==> locks[fromId] == old(locks)[fromId])
          && (toId in old(locks) ==> locks[toId] == old(locks)[toId])
        else
          locks == old(locks)
    {
      var fromAccount := GetAccount(request.fromAccountNumber);
      var toAccount := GetAccount(request.toAccountNumber);
      if fromAccount.None? || toAccount.None? {
        return Err(NullPointer);
      }
      var fromAccountId, toAccountId := request.fromAccountNumber, request.toAccountNumber;
      var lock := GetLock(fromAccountId);
      var lock2 := GetLock(toAccountId);
      // A self-transfer takes the same reentrant lock twice.
      assert fromAccountId == toAccountId ==> lock == lock2;
      r := MoveFunds(request);
    }

    /** The checks and updates made while both locks are held: the amount check, withdraw,
        deposit and the response, as TransferSpec.Transfer describes them for two known ids. */
    method MoveFunds(request: TransferFundRequest) returns (r: Result<TransferFundResponse>)
      requires request.fromAccountNumber in balances && request.toAccountNumber in balances
      modifies this`balances
      ensures match Transfer(old(balances), request)
        case Ok(c) => r == Ok(c.response) && balances == c.balances
        case Err(e) => r == Err(e) && balances == old(balances)
    {
      ghost var before := balances;
      var fromAccountId, toAccountId, amount := request.fromAccountNumber, request.toAccountNumber, request.amount;
      var exact := IntValueExact(amount);
      if exact.Err? {
        return Err(exact.error);
      }
      if exact.value <= 0 {
        return Err(BadRequest(POSITIVE_AMOUNT_MESSAGE));
      }
      var withdrawn := Withdraw(fromAccountId, amount);
      if withdrawn.Fail? {
        assert Transfer(before, request) == Err(withdrawn.error);
        return Err(withdrawn.error);
      }
      ghost var withdrawnBalances := balances;
      Deposit(toAccountId, amount);
      assert balances == withdrawnBalances[toAccountId := withdrawnBalances[toAccountId] + amount];
      r := Ok(MapResponse(fromAccountId, fromAccountId, amount, balances[fromAccountId]));
    }
  }
}
