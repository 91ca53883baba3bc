/**
 * The records the ledger works with: the rows of the `users`, `accounts` and
 * `transactions` tables and the response records the services return.
 * Money (balances and amounts) is a whole number of cents: both columns are
 * decimal(10,2).
 */
module Interfaces {
  import opened Wrappers

  /** A row of `users`. */
  datatype User = User(
    id: nat,
    email: string,
    name: string,
    dateOfBirth: string,
    lgaId: int,
    city: string,
    address: string,
    password: string)

  /** A user as handed to the insert, before the database assigns its id. */
  datatype NewUser = NewUser(
    email: string,
    name: string,
    dateOfBirth: string,
    lgaId: int,
    city: string,
    address: string,
    password: string)
  {
    function WithId(id: nat): User {
      User(id, email, name, dateOfBirth, lgaId, city, address, password)
    }
  }

  /** A row of `accounts`: its own id, its owner's id and its balance in cents. */
  datatype Account = Account(id: nat, userId: nat, balance: int)

  /** The `transaction_type` enumeration of the `transactions` table. */
  datatype TransactionType = Fund | Withdraw | TransferIn | TransferOut

  /** A row of `transactions`, the append-only log. */
  datatype Transaction = Transaction(id: nat, userId: nat, transactionType: TransactionType, amount: int)

  /** A log record before the database assigns its id. */
  datatype NewTransaction = NewTransaction(userId: nat, transactionType: TransactionType, amount: int)
  {
    function WithId(id: nat): Transaction {
      Transaction(id, userId, transactionType, amount)
    }
  }

  /**
   * A row of `accounts` joined with its owner's profile: every column of the
   * account (so `id` is the ACCOUNT's id) and six columns of the user.
   */
  datatype UserAccount = UserAccount(
    id: nat,
    userId: nat,
    balance: int,
    email: string,
    name: string,
    dateOfBirth: string,
    city: string,
    address: string,
    lgaId: int)

  /** The joined row an account and its owner give. */
  function JoinRow(a: Account, u: User): UserAccount {
    UserAccount(a.id, a.userId, a.balance, u.email, u.name, u.dateOfBirth, u.city, u.address, u.lgaId)
  }

  /** The public part of a user that the account query returns. */
  datatype UserProfile = UserProfile(
    id: nat,
    name: string,
    address: string,
    city: string,
    dateOfBirth: string,
    email: string,
    lgaId: int)

  /** `{message, statusCode}`. */
  datatype ApiResponse = ApiResponse(message: string, statusCode: int)

  /** `{message, statusCode, account?, user?}`. */
  datatype AccountApiResponse = AccountApiResponse(
    message: string,
    statusCode: int,
    account: Option<Account>,
    user: Option<UserProfile>)

  /** `{message, statusCode, transactions}`. */
  datatype TransactionsApiResponse = TransactionsApiResponse(
    message: string,
    statusCode: int,
    transactions: seq<Transaction>)
}
