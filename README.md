# demo-credit wallet core in Dafny

A model of the core of the demo-credit wallet backend. The backend is a TypeScript
service over a MySQL database reached through knex. Users register. Each user then owns
one account with a balance, and can fund it, withdraw from it and transfer to another
user's account, chosen by e-mail. Every balance change is recorded in a transaction log.

The modelled parts:

- **Ledger service** (`Ledger`, after `AccountService`):
  - Each operation is first stated as a step function from the store before to the
    response and the store after (`FundStep`, `WithdrawStep`, `TransferStep`).
  - The class `Ledger.AccountService` performs those steps imperatively. It reads the
    account, computes the new balance, writes it through the account model, then appends
    the log records.
  - Each method is proved to produce exactly its step function's response and state.
  - Lemmas about the step functions state what the ledger promises: overdrafts
    refused, totals, conservation, no change on failure, check order, the log records.
- **Account model** (`AccountStore.AccountModel`):
  - The lookups by owner and by owner's e-mail, and the joined account-and-user row.
  - The single-row balance update, which fails when no row matches.
  - The two-row transfer update inside one database transaction: both rows change or
    neither does.
  - The log append.
- **User model** (`UserStore.UserModel`): registration of a user together with the
  user's zero-balance account in one database transaction, and the two user lookups.
- **Transaction log and its service** (`TransactionLog`, `TransactionHistory`): one
  user's history, always answered with 200.
- **Registration validator** (`Validation`): seven guards run in order; the first that
  fails decides the 400 response.
- **`errorResponse`** (`Errors`).
- **The amount check of the account endpoints** (`AmountCheck`): the one part of the HTTP
  layer the ledger depends on, since it is what makes the amount positive.

The database is modelled by the class `Database.Db`, kept in memory:

- three tables as sequences of rows in primary-key order, plus three auto-increment
  counters;
- the constraints the schema declares: unique e-mail, and foreign keys from `accounts`
  and `transactions` to `users`;
- e-mails compared as the server's default collation compares them, without regard to
  letter case (`Database.SameEmail`), in the unique index and in both e-mail lookups;
- auto-increment ids that stay used when an insert is refused or rolled back, as InnoDB
  does;
- one method per statement the models issue;
- `Restore`, which rolls a database transaction back.

Money is an integer number of cents. The ledger methods take a positive amount as a
precondition. The HTTP layer is meant to guarantee it, but its check does not for every
input: see `AmountCheck` and "## Findings". `Ledger.LedgerValid` is the invariant the ledger keeps. It is the
schema's guarantees plus "no balance is negative", which the `balance` column itself
does not enforce.

The message `INVALID_PASSWORD` reads "Password must be more than 6 characters". The
check at src/modules/user/user.validation.ts:40 refuses only passwords shorter than 6,
so exactly 6 characters are accepted. The model follows the code: `Validation.PasswordDecidesLast`.

The account model's owner lookup is declared as `findAccountById(user_id)`, yet it
filters on `user_id`. The service calls it as `findAccountByUserId`. The model has one
lookup-by-owner, `AccountStore.AccountModel.FindAccountByUserId`.

## Model

| member | source | states |
|---|---|---|
| Errors.ErrorResponse | src/utils/errorResponse.ts:3-9 | The record carries exactly the given message and status; the status defaults to 400 when none is given. |
| Validation.ValidateRegistration | src/modules/user/user.validation.ts:15-45 | Every error it returns has status 400. |
| Validation.ValidationIsFirstFailure | src/modules/user/user.validation.ts:16-44 | The validator returns the message of the first guard, in the order address, name, email, city, date of birth, LGA id, password, that the body fails. It returns nothing when all seven hold. |
| Validation.AcceptedIffEveryGuardHolds | src/modules/user/user.validation.ts:44 | A body is accepted if and only if it meets all seven guards. |
| Validation.PasswordDecidesLast | src/modules/user/user.validation.ts:40-42 | Once the other six guards pass, the body is accepted iff a password of at least 6 characters is present, so exactly 6 passes. Otherwise the error is INVALID_PASSWORD with 400. |
| Validation.AddressCheckedFirst | src/modules/user/user.validation.ts:16-18 | A missing or empty address gives ADDRESS_REQUIRED with 400, whatever the other fields hold. |
| Database.Db.constructor | src/migrations/20241030061341_create_user_transaction_account_table.ts:3-50 | A fresh database has empty tables, counters at 1, and satisfies the schema's guarantees. |
| Database.Db.UpdateBalanceWhereId | src/modules/account/account.model.ts:51-53 | Sets the balance of the row with that key, leaves everything else alone, and reports at most one affected row; it reports none exactly when no row has the key. |
| Database.Db.InsertUser | src/migrations/20241030061341_create_user_transaction_account_table.ts:5-13 | A user is added under the next id unless the e-mail is taken, ignoring letter case. A refused insert changes no table but still uses up its id. |
| Database.Db.InsertAccount | src/migrations/20241030061341_create_user_transaction_account_table.ts:38-47 | An account for an existing owner is added under the next id with balance 0; for an unknown owner no table changes and the id is used up. |
| Database.Db.InsertTransaction | src/migrations/20241030061341_create_user_transaction_account_table.ts:16-35 | A record for an existing owner is appended under the next id; for an unknown owner no table changes and the id is used up. |
| Database.Db.Restore | src/modules/account/account.model.ts:70-71 | Rolling back puts the saved tables back exactly; the auto-increment counters keep their current values. |
| Database.FoldCase | src/migrations/20241030061341_create_user_transaction_account_table.ts:7 | Folding keeps the length, turns each ASCII capital into its small letter and leaves every other character alone. |
| Database.SameEmailIgnoresCase | src/migrations/20241030061341_create_user_transaction_account_table.ts:7 | "Bob@Example.com" and "bob@example.com" are the same e-mail to the database; "bob@" and "rob@" addresses are not. |
| Database.CountersRaisedKeepValid | src/migrations/20241030061341_create_user_transaction_account_table.ts:6 | Raising the auto-increment counters, as a refused insert or a rollback does, keeps every guarantee of the schema. |
| Database.Logged | src/modules/account/account.model.ts:99-101 | Appending a log record extends the log by that record, with the next id, and changes no other table. |
| Database.UserInsertKeepsValid | src/modules/user/user.model.ts:13 | Adding a user with a fresh id and an unused e-mail keeps every key, uniqueness and foreign-key guarantee. |
| Database.BalanceUpdateKeepsValid | src/modules/account/account.model.ts:51-53 | A balance update keeps every key, uniqueness and foreign-key guarantee. |
| Database.LoggedKeepsValid | src/modules/account/account.model.ts:99-101 | Appending a record whose owner exists keeps every guarantee. |
| Database.OwnersPrecedeNextUser | src/modules/user/user.model.ts:14-17 | Every account's owner id is below the next user id, so a newly registered user owns no account yet. |
| Tables.CountId | src/modules/account/account.model.ts:51-57 | The affected-row count is 0 exactly when no row has the key, and at most 1 under unique keys. |
| Tables.SetBalanceKeepsKeys | src/modules/account/account.model.ts:51-53 | A balance update changes no primary key. |
| Tables.SetBalanceAbsent | src/modules/account/account.model.ts:55-57 | An update that matches no row changes nothing. |
| Tables.SetBalanceTotal | src/modules/account/account.model.ts:51-53 | Setting one row's balance changes the sum of all balances by exactly the difference. |
| Tables.UpdateRow | src/modules/account/account.model.ts:51-53 | A balance update changes the total by the difference and leaves every row with another key unchanged. |
| Tables.SetBalanceRestores | src/modules/account/account.model.ts:51-53 | Writing a row's old balance back restores the whole table. |
| Tables.SetBalanceKeepsOthers | src/modules/account/account.model.ts:51-53 | A balance update keeps keys ascending and every other row present. |
| Tables.MoveKeepsTotal | src/modules/account/account.model.ts:72-82 | Moving an amount from one row to a different row keeps the total. |
| Tables.MoveRows | src/modules/account/account.model.ts:72-82 | After such a move, the two rows hold their new balances and every other row is unchanged. |
| AccountStore.OwnerLookupAfterUpdate | src/modules/account/account.model.ts:11-16 | After a balance update, the owner lookup finds the same row, with the new balance if it was the updated one. |
| AccountStore.AccountOfEmailIgnoresCase | src/modules/account/account.model.ts:21-22 | Two spellings of an e-mail that differ only in letter case find the same account. |
| AccountStore.AccountModel.FindAccountByUserId | src/modules/account/account.model.ts:11-16 | Returns an account owned by the user, and nothing exactly when no account has that owner. |
| AccountStore.AccountModel.FindAccountByEmail | src/modules/account/account.model.ts:18-25 | Returns an account whose owner has that e-mail, ignoring letter case, and nothing exactly when there is none. |
| AccountStore.AccountModel.FindUserAndAccountById | src/modules/account/account.model.ts:27-44 | Returns the user's account joined with that user's profile columns. It returns nothing exactly when the user has no account or no such user exists. |
| AccountStore.AccountModel.UpdateAccount | src/modules/account/account.model.ts:47-60 | On an existing id it sets that row's balance only and returns 1. On an unknown id it fails with "No account found with the provided id" and changes nothing. |
| AccountStore.AccountModel.UpdateTransfer | src/modules/account/account.model.ts:63-96 | Succeeds iff both ids exist: both balances set, 1 returned. A missing sender or receiver fails with "Transaction failed: " plus that side's message, and the store is as before. |
| AccountStore.AccountModel.CreateTransaction | src/modules/account/account.model.ts:99-101 | Appends the record to the log and changes no account. It fails only when the owner does not exist; then no table changes and the id is used up. |
| UserStore.FirstError | src/modules/user/user.model.ts:21-26 | Registration fails iff either insert failed. The message is the user insert's when it failed, otherwise the account insert's. |
| UserStore.UserModel.Insert | src/modules/user/user.model.ts:10-28 | Adds the user and exactly one account owned by the new id, with balance 0, and returns the new id. On failure (an e-mail already taken, ignoring case) it rethrows with "Transaction failed: " and neither row exists; the refused user id stays used. |
| UserStore.UserModel.FindUserByEmail | src/modules/user/user.model.ts:31-36 | Returns a user with that e-mail, ignoring letter case, and nothing exactly when there is none. |
| UserStore.UserModel.FindUserById | src/modules/user/user.model.ts:39-44 | Returns the user with that id, and nothing exactly when there is none. |
| TransactionLog.TransactionModel.GetUserTransactions | src/modules/transaction/transaction.model.ts:9-14 | Returns every log record of the user and only those, and the empty list exactly when the user has none. It reads the log without changing it. |
| TransactionHistory.TransactionService.GetAllUserTransactions | src/modules/transaction/transaction.service.ts:10-16 | Always 200 "success", carrying exactly the model's list for that user. |
| TransactionHistory.EmptyHistoryIsSuccess | src/modules/transaction/transaction.service.ts:13-15 | A user without records gets 200 with an empty list, not a 404. |
| Ledger.FundCommitted | src/modules/account/account.service.ts:30-43 | The update-then-append sequence the fund method performs is exactly the fund step, and it keeps the ledger invariant. |
| Ledger.WithdrawCommitted | src/modules/account/account.service.ts:63-77 | The same for withdraw. |
| Ledger.TransferCommitted | src/modules/account/account.service.ts:110-140 | The same for transfer: the pair update and the two appends are exactly the transfer step, and the invariant holds after. |
| Ledger.FoundRowFacts | src/modules/account/account.service.ts:23-27 | An account read from a valid store has an existing owner and a non-negative balance. |
| Ledger.FundStepKeepsLedgerValid | src/modules/account/account.service.ts:18-44 | Funding a positive amount keeps every balance non-negative and the schema's guarantees. |
| Ledger.WithdrawStepKeepsLedgerValid | src/modules/account/account.service.ts:57-67 | Withdrawing keeps every balance non-negative, because amounts above the balance are refused. |
| Ledger.TransferStepKeepsLedgerValid | src/modules/account/account.service.ts:93-122 | A transfer keeps every balance non-negative and the schema's guarantees. |
| Ledger.MoveKeepsLedgerValid | src/modules/account/account.service.ts:110-138 | Debiting a covered amount from one account, crediting another and logging both owners keeps the invariant. |
| Ledger.FundFailureChangesNothing | src/modules/account/account.service.ts:25-27 | A refused fund leaves the store and the log exactly as they were; a successful one appends one record. |
| Ledger.WithdrawFailureChangesNothing | src/modules/account/account.service.ts:53-60 | A refused withdraw (404 or 402) leaves store and log unchanged; a successful one appends one record. |
| Ledger.TransferFailureChangesNothing | src/modules/account/account.service.ts:86-107 | Each of the four refusals leaves store and log unchanged; a success appends two records. |
| Ledger.FundStepAdds | src/modules/account/account.service.ts:23-43 | Without an account, fund gives 404 ACCOUNT_NOT_FOUND. Otherwise the account holds old balance plus amount, in the store and in the 200 response, and one fund record for the user is appended. |
| Ledger.FundStepTotal | src/modules/account/account.service.ts:30-34 | A fund changes no other account and raises the total by exactly the amount. |
| Ledger.WithdrawStepSubtracts | src/modules/account/account.service.ts:51-77 | Without an account, withdraw gives 404. It gives 402 INSUFFICIENT_FUNDS iff the amount exceeds the balance, so the whole balance may be taken. On success the balance is old minus amount (not negative) and one withdraw record is appended. |
| Ledger.WithdrawStepTotal | src/modules/account/account.service.ts:63-67 | A withdraw changes no other account and lowers the total by exactly the amount. |
| Ledger.TransferChecksInOrder | src/modules/account/account.service.ts:86-107 | The checks run in order: sender missing 404; overdraft 402, before the receiver lookup; receiver missing 404 RECEIVER_ACCOUNT_NOT_FOUND; same account 402. Success iff all four pass. |
| Ledger.TransferStepLogs | src/modules/account/account.service.ts:124-140 | A successful transfer returns the debited sender account with 200. It appends exactly transferOut for the sender, then transferIn for the receiver's owner. |
| Ledger.TransferStepMoves | src/modules/account/account.service.ts:110-122 | A successful transfer debits the sender's row, credits the receiver's row and leaves every other row unchanged, so the total is conserved. |
| Ledger.FundThenWithdrawRestores | src/modules/account/account.service.ts:18-78 | Funding then withdrawing the same amount returns the original account and puts every balance back; only the two log records remain. |
| Ledger.FundTwiceAccumulates | src/modules/account/account.service.ts:30-43 | Two deposits accumulate: the account ends at its old balance plus both amounts. |
| Ledger.Profile | src/modules/account/account.service.ts:156-164 | The user part of the account query: profile columns copied from the joined row, with the user id taken from the row's owner column. |
| Ledger.ProfileAsWritten | src/modules/account/account.service.ts:163 | As written, the same profile but with its id copied from the row's `id`, the account's key. |
| Ledger.ProfileAsWrittenReportsAccountId | src/modules/account/account.service.ts:163 | For account 2 owned by user 1, the profile as written reports user id 2 where the owner is 1. |
| Ledger.AccountService.constructor | src/modules/account/account.service.ts:16 | The service works through the given account model. |
| Ledger.AccountService.FundUserAccount | src/modules/account/account.service.ts:18-44 | Returns exactly the fund step's response and leaves exactly its state, keeping the ledger invariant. |
| Ledger.AccountService.WithdrawAmount | src/modules/account/account.service.ts:46-78 | Returns exactly the withdraw step's response and leaves exactly its state, keeping the invariant. |
| Ledger.AccountService.TransferAmount | src/modules/account/account.service.ts:80-141 | Returns exactly the transfer step's response and leaves exactly its state, keeping the invariant. |
| Ledger.AccountService.GetUserAccount | src/modules/account/account.service.ts:143-167 | 404 ACCOUNT_NOT_FOUND when the joined row is absent. Otherwise 200 with the account's id, owner and balance and the owner's profile, whose id is the requested user. It changes nothing. |
| AmountCheck.CheckAmountAsWritten | src/modules/account/account.controller.ts:19-29 | As written: refused with 400 exactly when the raw value is falsy, unreadable by `parseFloat`, or `<= 0` under JavaScript coercion; otherwise the number `parseFloat` reads is passed on. The same check is at :52-62 and :85-100. |
| AmountCheck.AsWrittenNumbersArePositive | src/modules/account/account.controller.ts:19 | For a JSON number, the check as written passes exactly the positive amounts, unchanged. |
| AmountCheck.AsWrittenLetsNegativeTransferThrough | src/modules/account/account.controller.ts:85-100 | The string "-5abc" passes the check as written as -5. A transfer of -5 between two accounts at 0 credits the sender and leaves the receiver at -5, on a store that kept the ledger invariant. |
| AmountCheck.CheckAmount | src/modules/account/account.controller.ts:19-29 | Corrected: only a positive number read by `parseFloat` is passed on, and everything else is refused. |
| AmountCheck.ChecksAgreeOnNumbers | src/modules/account/account.controller.ts:19 | For a JSON number, the corrected check and the check as written give the same answer. |
| AmountCheck.CheckedAmountKeepsLedgerValid | src/modules/account/account.service.ts:18-141 | Whatever the corrected check passes on, fund, withdraw and transfer keep every balance non-negative and the schema's guarantees. |

## Left out

- Money is exact integer cents. The `decimal(10,2)` range and rounding, and the
  `parseFloat` conversion of the stored balance, are not modelled (floating point).
- The log is appended after the balance update, in order. In the source the appends are
  fire-and-forget promises; their timing relative to the response, and a failing append,
  are concurrency and not modelled.
- Concurrent requests racing on one account are not modelled.
- Timestamps (`created_at`, `updated_at`) are not modelled. The password column is stored
  as given; the hashing done before registration belongs to the user service, which is
  not modelled.
- Database engine error texts are stand-in constants (`Database.DuplicateEmailError`,
  `Database.ForeignKeyError`). Lost connections and other engine failures are not modelled.
- `validator.isEmail`, `isDate` and `isNumeric` are uninterpreted predicates (a foreign library).
- Database.Db.InsertUser: e-mails are compared ignoring ASCII letter case only. The
  accent-insensitive comparison and the case folding beyond ASCII of the server's default
  collation are not modelled.
- AccountStore.AccountModel.FindAccountByEmail: compares e-mails in the same way, with the
  same limit.
- UserStore.UserModel.FindUserByEmail: compares e-mails in the same way, with the same limit.
- JavaScript's number parsing is not modelled. In `AmountCheck`, a string amount carries
  the numbers `parseFloat` and the `<=` coercion read from it.
- In `Validation`, request-body fields are optional strings. JSON numbers, arrays or objects in those
  fields, and their JavaScript truthiness, are not modelled.
- Password length is counted in characters, not UTF-16 code units.
- HTTP controllers and routes (apart from the amount check), the user service (hashing,
  tokens, the blacklist HTTP call), the auth middleware and the knex configuration are
  not modelled. They are I/O or foreign libraries.
- The constructors of `AccountModel`, `UserModel`, `TransactionModel` and
  `TransactionService` only store their collaborator. They are modelled without rows.
- The exception the source would raise when a balance update or log append fails after
  a successful lookup is not modelled. On a store that keeps the schema's guarantees
  the ledger methods prove these calls succeed, so the path is unreachable in the model.

## Findings

| source | as written | input that shows it | evidently intended | confidence | as-written member | corrected member |
|---|---|---|---|---|---|---|
| src/modules/account/account.service.ts:163 | The user's `id` in the account query is copied from `userAccount.id`. The joined row selects `accounts.*`, so that is the account's primary key. | User 1 owning account 2: the query answers user id 2. User and account ids diverge after any refused registration, whose user id stays used. | The user's id, the row's `user_id`. | medium, not executed | Ledger.ProfileAsWritten (with Ledger.ProfileAsWrittenReportsAccountId) | Ledger.Profile (used by Ledger.AccountService.GetUserAccount, which ensures the profile id is the requested user) |
| src/modules/account/account.controller.ts:19 | The amount is checked on the raw body value (`amount <= 0`; the same check is at :52 and :85), but the number passed on is `parseFloat(amount)` (:29, :62, :100). For a string, `<=` compares NaN and is false, while `parseFloat` reads the numeric prefix. | The string "-5abc": it passes as -5, so a transfer from a sender to a receiver at 0 leaves the receiver at -5. Fund of -5 can also drive a balance negative, and withdraw of -5 adds money. | The check applies to the number passed on, so only a positive amount reaches the ledger. | high, not executed | AmountCheck.CheckAmountAsWritten (with AmountCheck.AsWrittenLetsNegativeTransferThrough) | AmountCheck.CheckAmount (with AmountCheck.CheckedAmountKeepsLedgerValid) |
