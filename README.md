# Fund transfer: a model of `AccountsService.transferFund`

This project models the sequential logic of the fund-transfer service of the
`com.db.awmd.challenge` application. It covers the in-memory ledger that maps
account ids to exact-decimal balances, the static table of per-account locks,
the transfer with its checks in the order the code makes them, and the mapper
that builds the transfer response.

- `results.dfy`, module `Results`: the exceptions as an `Error` datatype. It holds
  `NullPointer` for an unknown account id dereferenced at lines 62-63,
  `Arithmetic` for `intValueExact`, `BadRequest`, `InsufficientFund` and
  `DuplicateAccountId`. It also holds `Result`, `Outcome` and `Option`.
- `dto.dfy`, module `Dto`: `TransferFundRequest` and `TransferFundResponse` as datatypes.
  `BigDecimal` is `real`, because it is exact decimal arithmetic.
- `big_decimals.dfy`, module `BigDecimals`: `intValueExact`, with the 32-bit int range.
- `response_mapper.dfy`, module `ResponseMapper`: `mapResponse` as written, and the corrected mapping.
- `transfer_spec.dfy`, module `TransferSpec`: the transfer as a function of the ledger
  (`Transfer`), and the lemmas about it. These cover the failure order, the amount
  moved, conservation of the pair and of the whole ledger, self-transfer,
  non-negative balances and the response fields.
- `accounts_service.dfy`, module `Accounts`: class `AccountsService`. Its fields are the
  ledger (`balances`), the lock table (`locks`) and a counter that gives each new
  lock its identity. Its methods update these fields in place, and `TransferFund`
  is proved to follow `TransferSpec.Transfer`.

In these places the model follows the code as written:
- Amount check: an amount must pass `intValueExact`. So it must be a whole number
  within the Java int range, not just any positive decimal.
- Unknown account: an unknown id is not a typed "not found" error. The lookup returns
  null, and dereferencing it at lines 62-63 throws before any lock is created.
- Lock table on failure: both lock-table entries are created before the amount is
  checked. A transfer that fails the amount check or the funds check still leaves
  the lock table grown.
- Response balance: the response's balance is read after both withdraw and deposit.
  For a self-transfer this is the balance before the transfer, not the balance
  right after the debit.
- Response ids: both id fields of the response carry the source id (see Findings).

## Model

| member | source | states |
|---|---|---|
| `BigDecimals.IntValueExact` | src/main/java/com/db/awmd/challenge/service/AccountsService.java:70 | a value is accepted only as an in-range int equal to it; anything else is ArithmeticException |
| `BigDecimals.IntValueExactAcceptsInts` | src/main/java/com/db/awmd/challenge/service/AccountsService.java:70 | every value of a Java int is accepted as itself (converse of the above) |
| `BigDecimals.IntValueExactRefuses` | src/main/java/com/db/awmd/challenge/service/AccountsService.java:70 | an amount with a fraction, or outside the int range, throws ArithmeticException |
| `ResponseMapper.MapResponse` | src/main/java/com/db/awmd/challenge/mapper/FundTransferResponseMapper.java:9-22 | from-number is the source id; to-number is also the source id; amount and balance are the arguments |
| `ResponseMapper.MapResponseIgnoresToId` | src/main/java/com/db/awmd/challenge/mapper/FundTransferResponseMapper.java:10-17 | the response does not depend on the `toAccountId` argument |
| `ResponseMapper.MapResponseLosesToId` | src/main/java/com/db/awmd/challenge/mapper/FundTransferResponseMapper.java:17 | mapping ids A and B yields a to-number other than B |
| `ResponseMapper.MapResponseFixed` | src/main/java/com/db/awmd/challenge/mapper/FundTransferResponseMapper.java:15-19 | corrected mapping: each response field comes from its own argument |
| `ResponseMapper.ResponseEchoesRequest` | src/main/java/com/db/awmd/challenge/mapper/FundTransferResponseMapper.java:16-18 | the corrected mapping echoes the request's ids and amount; the as-written mapping does so exactly for self-transfers |
| `TransferSpec.Debit` | src/main/java/com/db/awmd/challenge/service/AccountsService.java:110-117 | withdraw succeeds iff amount <= balance; it then leaves balance - amount, which is never negative; otherwise InsufficientFund(amount) |
| `TransferSpec.TransferFailureOrder` | src/main/java/com/db/awmd/challenge/service/AccountsService.java:57-78 | failure order: lookup (NullPointer), then a fractional or out-of-range amount (Arithmetic), then amount <= 0 (BadRequest), then balance < amount (InsufficientFund); past all four the transfer commits |
| `TransferSpec.TransferCommitsIff` | src/main/java/com/db/awmd/challenge/service/AccountsService.java:57-78 | a transfer commits iff both ids exist, the amount is a whole number in 1..2^31-1, and the source balance covers it |
| `TransferSpec.TransferMovesAmount` | src/main/java/com/db/awmd/challenge/service/AccountsService.java:77-78 | distinct accounts: source drops by exactly the amount, destination rises by exactly the amount, every other account and the id set unchanged |
| `TransferSpec.TransferConservesPair` | src/main/java/com/db/awmd/challenge/service/AccountsService.java:77-78 | balance(from) + balance(to) is the same before and after a successful transfer |
| `TransferSpec.TransferConservesTotal` | src/main/java/com/db/awmd/challenge/service/AccountsService.java:77-78 | the sum of all balances in the ledger is unchanged by a successful transfer |
| `TransferSpec.SelfTransferNetsZero` | src/main/java/com/db/awmd/challenge/service/AccountsService.java:57-78 | a successful transfer from an id to itself leaves the whole ledger unchanged |
| `TransferSpec.TransferFailureKinds` | src/main/java/com/db/awmd/challenge/service/AccountsService.java:55-90 | a failed transfer ends in one of exactly four exceptions |
| `TransferSpec.TransferResponse` | src/main/java/com/db/awmd/challenge/service/AccountsService.java:84 | response amount is the request amount, its balance is the source balance after the update (source balance minus amount for distinct accounts), and both ids are the source id |
| `TransferSpec.TransferKeepsNonNegative` | src/main/java/com/db/awmd/challenge/service/AccountsService.java:110-116 | if every balance is non-negative before a successful transfer, every balance is non-negative after it |
| `TransferSpec.TransferExample` | src/main/java/com/db/awmd/challenge/service/AccountsService.java:55-90 | A=100, B=50, transfer 30 from A to B: A=70, B=80, response (A, A, 30, 70) |
| `Accounts.AccountsService.constructor` | src/main/java/com/db/awmd/challenge/service/AccountsService.java:27 | the lock table starts empty and the invariant holds |
| `Accounts.AccountsService.CreateAccount` | src/main/java/com/db/awmd/challenge/service/AccountsService.java:41-43 | inserts a new id with its balance; an existing id is refused and the ledger is unchanged |
| `Accounts.AccountsService.GetAccount` | src/main/java/com/db/awmd/challenge/service/AccountsService.java:45-47 | returns the id's balance iff the id is in the ledger, null otherwise |
| `Accounts.AccountsService.Deposit` | src/main/java/com/db/awmd/challenge/service/AccountsService.java:98-102 | the account's balance rises by the amount; nothing else changes |
| `Accounts.AccountsService.Withdraw` | src/main/java/com/db/awmd/challenge/service/AccountsService.java:110-117 | new state as `Debit` says; on InsufficientFund the ledger is unchanged |
| `Accounts.AccountsService.GetLock` | src/main/java/com/db/awmd/challenge/service/AccountsService.java:135-144 | returns the stored lock for the id; if absent, stores a lock no other id holds; other entries are untouched; no two ids share a lock |
| `Accounts.AccountsService.MoveFunds` | src/main/java/com/db/awmd/challenge/service/AccountsService.java:70-84 | with both accounts known: result and new ledger are those of `TransferSpec.Transfer`; on the amount and funds failures the ledger is unchanged |
| `Accounts.AccountsService.TransferFund` | src/main/java/com/db/awmd/challenge/service/AccountsService.java:55-90 | result and new ledger are those of `TransferSpec.Transfer`; on each of the four modelled failures the ledger is unchanged (a notifier exception, not modelled, would come after the commit); once both accounts are found, the lock table gains both ids and keeps its old entries, else it is unchanged |

## Findings

| source | as written | input that shows it | evidently intended | confidence | as-written member | corrected member |
|---|---|---|---|---|---|---|
| src/main/java/com/db/awmd/challenge/mapper/FundTransferResponseMapper.java:17 | the to-number is set from `fromAccountId`, and `toAccountId` is never read | `mapResponse("A", "B", 30, 70)` gives a to-number of "A" | the to-number is `toAccountId` | high (not executed) | `ResponseMapper.MapResponseLosesToId` | `ResponseMapper.MapResponseFixed` |
| src/main/java/com/db/awmd/challenge/service/AccountsService.java:84 | the call passes `fromAccountId` as both ids | transfer 30 from A (100) to B (50) returns (A, A, 30, 70) | the response echoes the request's from and to ids | high (not executed) | `TransferSpec.TransferExample` | `ResponseMapper.ResponseEchoesRequest` |

The service model `Accounts.AccountsService.TransferFund` keeps the as-written
response, because that is what the code returns to its callers. The corrected
mapping is defined and proved alongside it. A transfer between distinct accounts
gets a correct response only when both lines are fixed.

## Left out

- Lock acquisition and release are not modelled. This covers `lock()`/`unlock()`, the
  `synchronized (locks)` block and `ReentrantLock` reentrancy (lines 64-69, 86-89, 136).
  These exist for concurrency. A self-transfer obtains the same lock twice, which
  `TransferFund` asserts. The code locks in "from, then to" argument order, so the
  model makes no claim of deadlock freedom or of a direction-independent lock order.
- Mutual exclusion, atomicity towards other threads and the concurrent scenarios
  are not modelled: the model is sequential.
- `sendFundTransferNotification` (lines 119-133) is not modelled. It sends e-mail
  through `EmailNotificationService`, which is not part of this model. It runs at line 83,
  after both balance updates, so an exception from it would reach the caller after the
  transfer had committed; the model's "ledger unchanged on failure" covers only the four
  modelled failures.
- Debug logging (lines 74-81) is not modelled. It has no effect on state.
- `InsufficientFund` carries the refused amount, not the `String.format("%f", …)`
  message text.
- `AccountsRepository` is not part of this model. The ledger is a map from id to balance.
  Each `Account`'s id is taken to be its key, so a self-transfer updates one entry.
  `CreateAccount` refuses an existing id because ids are unique keys. The
  repository's own handling of duplicates is not shown.
- The lock table is a static field in the code, shared by every service instance.
  The model has it as a field of one service object.
- Lock tokens stand for `ReentrantLock` identity and nothing more.
- Null request fields and a null amount are not modelled. These would throw
  NullPointerException at other points.
- Spring and Lombok annotations carry no logic and are not modelled.
