# Wallet and withdrawal ledger, in Dafny

This project models the ledger core of a wallet service. The service keeps one balance per user in integer cents. It takes deposits, answers balance queries, and runs withdrawals without overdrawing a balance. Withdrawals can be retried safely with an idempotency key.

The service keeps three document collections:

- **Wallets** (`Wallets`): one wallet per user. The balance is never below zero and starts at 0; the currency defaults to "INR". The store offers two atomic calls: a credit with upsert, and a debit that only applies when the balance covers the amount.
- **Withdrawals** (`Withdrawals`): withdrawal records. Each has a status (pending, processing, success or failed), an amount of at least one cent, a currency, a destination, an optional failure reason and an optional idempotency key. The schema declares a partial unique index meant to allow at most one record per (user, key) when a key is present. As declared, the server cannot build it (see "## Findings"). The model uses the index as intended.
- **Transaction log** (`TransactionLog`): a collection of ledger entries meant to be insert-only. Its hooks refuse `updateOne`, `findOneAndUpdate` and `deleteOne`; other update and delete calls are not hooked. Neither flow writes to it, and the model keeps it that way.

The two flows:

- `WalletController` models `deposit` and `getBalance`.
- `WithdrawalService` models `createWithdrawal`, in order:
  1. refuse a non-positive amount;
  2. answer a retry with the stored record;
  3. create a pending record;
  4. move it to processing, guarded on it still being pending;
  5. run the conditional debit;
  6. finish in success, or in failed with a reason.

`Ledger` runs any sequence of deposits and withdrawals and proves these properties over the whole run:
- money is conserved;
- withdrawals never succeed for more than was deposited (no double spending);
- stored records are never changed;
- a retry with a used key moves no money.

Each mutating store call is one method of a store class: `WalletStore`, `WithdrawalStore` or `TransactionLogStore`. Each of these methods is specified by a pure function of the old state. Read-only store calls (`findOne`, `findById`) are pure functions. `CreateWithdrawal` runs the store calls one by one and is proved equal to `WithdrawOutcome`. A ghost out-parameter of `CreateWithdrawal` records the status held by the new record after each store call that touches the record: the create and the updates, not the debit. The lifecycle properties are proved about those traces.

Modelling choices:
- Each store call is one atomic step, and requests run one after another.
- Generated ObjectIds are replaced by insertion positions.
- Users are opaque natural numbers.
- An absent currency, key or status is `None`.

## Notes on behaviour

These follow the code. Where the code differs from what a reader might expect, the model follows the code. There are two exceptions, both recorded under "## Findings": the transaction log's hooks, and the withdrawals' unique index. There the model uses the intended behaviour, and a separate member models the code as written.

- **The key check is a truthiness test.** An empty key `""` skips the idempotency lookup.
  - The key is still stored, and the unique index, as intended, covers it.
  - So, with the index in place, a second call by the same user with `""` is refused with a duplicate-key error. It is not answered with the first record (`EmptyKeyRetryIsDuplicate`).
  - As the index is declared, the server builds no index. The second `""` call is then stored as a new record and runs the debit again (`Withdrawals.SameKeyStoredTwiceAsWritten`).
  - A truthy key behaves the same either way when calls run one after another, because the lookup runs before `create`.
  - A key of `None` is never indexed.
- **A retry returns the stored record whatever its status.** This includes a failed record: a failed withdrawal uses up its key.
- **Deposits take the amount as cents as it stands.** Withdrawals take it already converted to cents.
- **The failure reason is fixed.** It is "Insufficient balance or wallet not found", for both no wallet and too little money.
- **Sequential withdrawals are limited only by the balance.** After a deposit of 1000, two withdrawals of 400 with distinct keys both succeed, leaving 200. A third then fails (`ThreeWithdrawalsOnThousand`).
- **The wallet upsert runs no schema validators** (`findOneAndUpdate`). The model therefore requires no particular currency on a wallet. Zero-or-more balances are proved to be preserved, not enforced.
- **A wallet's defaults.** A missing wallet counts as balance 0 (`Balance`), the schema's default balance. The schema's "INR" currency default is never reached: `deposit` always passes a currency, "INR" when the request names none (src/controllers/walletController.js:18), and the upsert stores it with `$setOnInsert`.
- **`Withdrawal.create` runs the schema validators.** Amount must be at least 1, and currency and destination are required (a required string cannot be empty). It then checks the unique index. Its refusals are `ValidationFailed` and `DuplicateKey`; neither changes anything.

## Model

| member | source | states |
|---|---|---|
| Common.StatusCode | src/middleware/errorHandler.js:3-12 | A non-positive amount and an insufficient balance are answered with 400, a missing wallet with 404, and every other error with 500 |
| Wallets.FindWallet | src/controllers/walletController.js:52-52 | `findOne({ user })` returns a stored wallet whose `user` field is the argument, and returns none exactly when no stored wallet has that owner |
| Wallets.Credited | src/controllers/walletController.js:27-37 | The credit with upsert raises the user's balance by exactly the amount. It creates a missing wallet holding exactly the amount in the given currency, and keeps an existing wallet's currency (`$setOnInsert`). It keeps every balance at or above zero and changes no other wallet |
| Wallets.Debited | src/services/withdrawalService.js:55-66 | The conditional debit lowers the balance by exactly the amount when the wallet exists and covers it, and otherwise changes nothing. Balances stay at or above zero, no currency changes, and no other wallet changes |
| Wallets.WalletStore.CreditUpsert | src/controllers/walletController.js:27-37 | One atomic store call: the wallets become `Credited` of the old wallets, and the updated document is returned |
| Wallets.WalletStore.DebitIfSufficient | src/services/withdrawalService.js:55-66 | One atomic store call: it returns a document exactly when the old balance covered the amount, and the wallets become `Debited` of the old wallets |
| Withdrawals.ParseStatus | src/models/Withdrawal.js:3-8 | The status enum accepts exactly the four names pending, processing, success and failed |
| Withdrawals.FindByKey | src/services/withdrawalService.js:32-32 | `findOne({ user, idempotencyKey })` returns a stored record of that user with that key, or none exactly when no such record exists |
| Withdrawals.FindByKeyExtended | src/services/withdrawalService.js:32-32 | On a longer collection the lookup still finds the earlier match, or else the first match among the added records |
| Withdrawals.FindById | src/services/withdrawalService.js:89-89 | `findById` finds the record with that id exactly when it exists |
| Withdrawals.Created | src/models/Withdrawal.js:18-62 | `create` refuses with a validation error exactly when the amount is below 1 or the currency or destination is empty. It refuses with a duplicate-key error exactly when the validators pass and the user already has a record with that present key. Otherwise it gives the next id, the request's fields, currency "INR" and status pending by default, and no failure reason, and the unique index and validators still hold |
| Withdrawals.CreatedAsWritten | src/models/Withdrawal.js:56-62 | As the index is declared, no unique index exists. `create` refuses only on the validators. Where the index would not object, it stores exactly what `Created` stores |
| Withdrawals.SameKeyStoredTwiceAsWritten | src/models/Withdrawal.js:56-62 | When the user already has a record with a key, a second `create` with that key succeeds as written and leaves two records of that user with that key. The intended `Created` refuses it as a duplicate |
| Withdrawals.UpdatedWhere | src/services/withdrawalService.js:49-52 | The update filtered on id and expected status applies exactly when the record exists and has that status, and otherwise changes nothing. It touches no other record |
| Withdrawals.Updated | src/services/withdrawalService.js:70-86 | The update filtered on id sets the status and, when given, the failure reason of that record only |
| Withdrawals.WithdrawalStore.Create | src/services/withdrawalService.js:39-46 | One store call: the result is `Created` of the old records, and an accepted record is appended |
| Withdrawals.WithdrawalStore.UpdateStatusWhere | src/services/withdrawalService.js:49-52 | One store call: the matched flag and the records are `UpdatedWhere` of the old records |
| Withdrawals.WithdrawalStore.Update | src/services/withdrawalService.js:70-86 | One store call: the matched flag and the records are `Updated` of the old records |
| TransactionLog.ParseType | src/models/TransactionLog.js:3-6 | The `type` enum accepts exactly "debit" and "credit" |
| TransactionLog.ParseContext | src/models/TransactionLog.js:8-11 | The `context` enum accepts exactly "withdrawal" and "deposit" |
| TransactionLog.Validated | src/models/TransactionLog.js:26-60 | An entry is accepted exactly when its type and context are in their enums, its amount is at least 1, both balances are at least 0 and its status is not empty. The stored entry carries the draft's fields, with status "committed" by default |
| TransactionLog.Step | src/models/TransactionLog.js:70-81 | Only an accepted insert succeeds, and it appends one entry. With the hooks refusing as intended (see Findings), `updateOne` and `findOneAndUpdate` fail with the "cannot be updated" text, `deleteOne` fails with the "cannot be deleted" text, and none of them changes the log |
| TransactionLog.StepAsWritten | src/models/TransactionLog.js:71-81 | As the hooks are written, each hooked call fails with the engine's "Maximum call stack size exceeded" error. The log is unchanged and an insert behaves as in `Step` |
| TransactionLog.HookErrorsDiffer | src/models/TransactionLog.js:71-81 | For every `updateOne`, `findOneAndUpdate` and `deleteOne`, the error text as written differs from the immutability text it is meant to carry |
| TransactionLog.AppendOnly | src/models/TransactionLog.js:70-81 | After any sequence of calls, the old entries are still there, unchanged and in place. The log has grown by exactly the number of accepted inserts and is still within the schema's bounds |
| TransactionLog.TransactionLogStore.Create | src/models/TransactionLog.js:13-68 | One store call: the entries and result are `Step` of an insert on the old entries |
| TransactionLog.TransactionLogStore.UpdateEntry | src/models/TransactionLog.js:71-73 | `updateOne` is always refused with the hook's intended immutability text, and the method cannot change the entries |
| TransactionLog.TransactionLogStore.FindEntryAndUpdate | src/models/TransactionLog.js:75-77 | `findOneAndUpdate` is always refused with the hook's intended immutability text, and the method cannot change the entries |
| TransactionLog.TransactionLogStore.DeleteEntry | src/models/TransactionLog.js:79-81 | `deleteOne` is always refused with the hook's intended immutability text, and the method cannot change the entries |
| WalletController.GetBalance | src/controllers/walletController.js:49-61 | The balance query is WalletNotFound exactly when the user has no wallet. Otherwise it is that wallet's balance and currency |
| WalletController.DepositOutcome | src/controllers/walletController.js:15-43 | A deposit of a non-positive amount is refused and changes nothing. Otherwise it is the credit with upsert of the amount as cents, with currency "INR" when none is given. The response equals what a balance query then reports, and balances stay at or above zero |
| WalletController.Deposit | src/controllers/walletController.js:15-43 | The handler's effect on the store and its response are `DepositOutcome` of the old wallets |
| WalletController.DepositMovesOnlyDepositor | src/controllers/walletController.js:27-37 | A deposit changes the depositor's balance by exactly the accepted amount and leaves every other wallet unchanged |
| WalletController.DepositKeepsCurrency | src/controllers/walletController.js:29-32 | A deposit on an existing wallet keeps its currency, whatever currency is passed |
| WalletController.FirstDepositThenBalance | src/controllers/walletController.js:15-61 | On a user without a wallet, a deposit answers with the amount and the given (or "INR") currency, and a balance query then reports the same |
| WithdrawalService.WithdrawOutcome | src/services/withdrawalService.js:16-91 | One `createWithdrawal` call keeps both collections consistent: a unique wallet per user, balances at or above zero, valid records, unique keys, and ids equal to positions |
| WithdrawalService.NonPositiveAmountRejected | src/services/withdrawalService.js:23-28 | An amount of 0 cents or less is refused before any collection is touched |
| WithdrawalService.ReplayReturnsStoredRecord | src/services/withdrawalService.js:31-36 | When the key is truthy and the user already has a record with it, that stored record is returned unchanged and nothing changes |
| WithdrawalService.OneRecordPerCall | src/services/withdrawalService.js:38-46 | Any other call is either refused by `create` with nothing changed, or appends exactly one record. That record carries the request's user, amount, currency, destination and key and ends in a terminal status, and the older records stay as they were |
| WithdrawalService.SuccessWhenFundsSuffice | src/services/withdrawalService.js:54-90 | When the wallet exists and covers the amount, the new record ends in success with no failure reason. That final record is returned, and the balance has dropped by exactly the amount |
| WithdrawalService.FailureLeavesBalances | src/services/withdrawalService.js:68-79 | Without a wallet or enough funds, the new record ends failed with reason "Insufficient balance or wallet not found". The insufficient-balance error is raised and no balance changes |
| WithdrawalService.OnlyCallerDebited | src/services/withdrawalService.js:55-66 | Only the caller's balance can change, and only down by the amount when a new record succeeds |
| WithdrawalService.EmptyKeyRetryIsDuplicate | src/services/withdrawalService.js:31-46 | With key `""` the lookup is skipped. If the user already has a `""` record, the call is refused by the unique index and nothing changes |
| WithdrawalService.CreateWithdrawal | src/services/withdrawalService.js:16-91 | The step-by-step orchestration over the two stores has exactly the effect and result of `WithdrawOutcome`. When it stores a record, the statuses it observes are pending, processing, then the record's final status, each step an allowed transition |
| Ledger.Run | src/services/withdrawalService.js:5-11 | Any sequence of deposits and withdrawals keeps the collections consistent, so no balance ever goes below zero |
| Ledger.StepConserves | src/services/withdrawalService.js:55-66 | One request keeps a user's balance plus their successful withdrawals equal to the previous sum plus what the request deposits |
| Ledger.Conservation | src/services/withdrawalService.js:55-66 | Over any run, balance plus successful withdrawals equals the starting sum plus everything deposited |
| Ledger.NoDoubleSpend | src/services/withdrawalService.js:5-11 | From an empty database, a user's successful withdrawals never exceed their deposits, and the balance is exactly the difference |
| Ledger.WithdrawalsBoundedByBalance | src/services/withdrawalService.js:5-11 | Withdrawals with no deposit in between never succeed, in total, for more than the starting balance |
| Ledger.RecordsOnlyGrow | src/services/withdrawalService.js:38-90 | A run only appends records, never changes a stored one, and every appended record is terminal |
| Ledger.RetryIsAnsweredWithStoredRecord | src/services/withdrawalService.js:30-36 | Once a call with a non-empty key has stored a record, any later call by that user with that key returns that same record and changes nothing, after any other requests. The balance is debited at most once per key |
| Ledger.ThreeWithdrawalsOnThousand | src/services/withdrawalService.js:54-79 | After depositing 1000, two withdrawals of 400 succeed and a third fails, leaving 200 |

## Left out

- Conversion of a decimal amount to cents (`toCents`, a floating-point multiply and round): withdrawals take an integer amount in cents.
- Deposits of fractional, non-numeric or NaN amounts: the deposit amount is an integer.
- Floating-point balances: the model's amounts and balances are exact unbounded integers. The source stores them as JavaScript numbers (doubles), which are exact only up to 2^53 cents. Above that a `$inc` rounds; for example, a deposit of 1 on a balance of 1e20 leaves it at 1e20. So `Ledger.Conservation` and `Ledger.NoDoubleSpend` hold for the source only while balances and totals stay below 2^53 cents.
- Request validation in the controllers (amount is a positive float, currency has 3 letters, destination has 3 to 255 characters), the ObjectId well-formedness check of the caller, authentication, routing and rate limiting: these are boundary plumbing. The core sees their outputs as plain values. Of the HTTP error handler, `Common.StatusCode` keeps only the status it answers with. The error body is left out: the handler replaces every 500 message with a generic one.
- Concurrency: requests run one after another, and each store call is one atomic step. The conditional debit is modelled as the single step the store performs.
- The crash window between the debit and the final status write: the model has no crashes, so a record is never left in processing. No reconciliation is modelled.
- Storage faults and driver error texts: `DuplicateKey` and `ValidationFailed` carry no message, and the texts the service attaches to its own 400 and 404 errors are not modelled.
- Timestamps (`createdAt`, `updatedAt`) and the free-form `metadata` of log entries. Generated ObjectIds are replaced by insertion positions.
- `Wallets.WalletStore.CreditUpsert`: requires a positive amount. The store would apply any `$inc`, but its only caller checks first.
- Transaction-log calls that the source leaves without a hook (`updateMany`, `deleteMany`, `findOneAndDelete`, `replaceOne`, saving a loaded document) are not modelled. Only the three hooked calls and `create` are.
- Audit entries are not written by deposits or withdrawals, as in the source.
- `findOne` on withdrawals returns the first match in insertion order. While the unique index holds, there is at most one match.

## Findings

| source | as written | input that shows it | evidently intended | confidence | as-written member | corrected member |
|---|---|---|---|---|---|---|
| src/models/TransactionLog.js:71-81 | Each hook is a function named `next` that takes no parameter, so the `next(new Error(...))` in its body calls the hook itself again. The recursion exhausts the call stack, and the store fails the call with that RangeError. The call is still refused and the log unchanged | any `updateOne`, `findOneAndUpdate` or `deleteOne` on the transaction log | the call fails with "TransactionLog documents are immutable and cannot be updated" (or "... deleted") | not executed | TransactionLog.StepAsWritten, TransactionLog.HookErrorsDiffer | TransactionLog.Step |
| src/models/Withdrawal.js:56-62 | The unique index on (user, idempotencyKey) has the partial filter `{ idempotencyKey: { $exists: true, $ne: null } }`. A partial index filter does not accept `$ne`, so building the index fails. With `autoIndex` on (src/config/db.js:13) and nothing listening for the failure, the service runs without the index | a second withdrawal by the same user with key `""`, which skips the lookup (src/services/withdrawalService.js:31): it is stored and debited again | at most one record per user and present key, so the second `""` call is refused as a duplicate | not executed | Withdrawals.CreatedAsWritten, Withdrawals.SameKeyStoredTwiceAsWritten | Withdrawals.Created |

The store class `TransactionLogStore` and the `AppendOnly` lemma use the corrected `Step`. `StepAsWritten` leaves the entries exactly as `Step` does, so the log stays append-only as written too. Either way, the error handler answers such a call with 500.

`WithdrawalStore`, `WithdrawalService` and `Ledger` use the corrected `Created`, so `KeysUnique` is part of the collection invariant they keep. A filter the server accepts, such as `{ idempotencyKey: { $type: "string" } }`, would give the intended index.
