/**
 * The data-access object for accounts: the lookups the ledger reads through,
 * the single-row and two-row balance updates, and the append to the
 * transaction log.
 */
module AccountStore {
  import opened Wrappers
  import opened Interfaces
  import opened Seqs
  import opened Tables
  import opened Database

  const NoAccountFound: string := "No account found with the provided id"
  const NoSenderAccount: string := "No account found with the provided sender id"
  const NoReceiverAccount: string := "No account found with the provided receiver id"
  /** The prefix every failure inside the transfer's database transaction is rethrown with. */
  const TransactionFailed: string := "Transaction failed: "

  /**
   * The user with id `userId` has e-mail `email`, compared as the database
   * compares it (the join condition of the e-mail lookup).
   */
  predicate OwnerHasEmail(users: seq<User>, userId: nat, email: string) {
    exists i :: 0 <= i < |users| && users[i].id == userId && SameEmail(users[i].email, email)
  }

  /** The condition `accounts.user_id = userId`. */
  function OwnedBy(userId: nat): Account -> bool {
    (a: Account) => a.userId == userId
  }

  /** The first row owned by `userId`. */
  function AccountOfUser(accounts: seq<Account>, userId: nat): Option<Account> {
    FirstWhere(accounts, OwnedBy(userId))
  }

  /** The first row whose owner has e-mail `email`. */
  function AccountOfEmail(users: seq<User>, accounts: seq<Account>, email: string): Option<Account> {
    FirstWhere(accounts, (a: Account) => OwnerHasEmail(users, a.userId, email))
  }

  /** The e-mail lookup ignores letter case: two spellings that differ only in case find the same account. */
  lemma AccountOfEmailIgnoresCase(users: seq<User>, accounts: seq<Account>, email: string, other: string)
    requires SameEmail(email, other)
    ensures AccountOfEmail(users, accounts, email) == AccountOfEmail(users, accounts, other)
  {
    var p := (a: Account) => OwnerHasEmail(users, a.userId, email);
    var q := (a: Account) => OwnerHasEmail(users, a.userId, other);
    forall i | 0 <= i < |accounts|
      ensures p(accounts[i]) == q(accounts[i])
    {
      if p(accounts[i]) {
        var k :| 0 <= k < |users| && users[k].id == accounts[i].userId && SameEmail(users[k].email, email);
        assert SameEmail(users[k].email, other);
      }
      if q(accounts[i]) {
        var k :| 0 <= k < |users| && users[k].id == accounts[i].userId && SameEmail(users[k].email, other);
        assert SameEmail(users[k].email, email);
      }
    }
    FirstIndexSameCondition(accounts, p, q, 0);
  }

  /**
   * A balance update changes no owner, so the owner lookup afterwards finds
   * the same row, carrying the new balance when it is the updated one.
   */
  lemma OwnerLookupAfterUpdate(rows: seq<Account>, id: nat, balance: int, userId: nat)
    ensures AccountOfUser(SetBalance(rows, id, balance), userId) ==
      match AccountOfUser(rows, userId)
      case None => None
      case Some(a) => Some(if a.id == id then a.(balance := balance) else a)
  {
    FirstIndexSameSelection(rows, SetBalance(rows, id, balance), OwnedBy(userId), 0);
  }

  class AccountModel {
    const db: Db

    constructor (db: Db)
      ensures this.db == db
    {
      this.db := db;
    }

    /** The first account whose OWNER is `userId` (the lookup filters on `user_id`, not on the account id). */
    function FindAccountByUserId(userId: nat): (r: Option<Account>)
      reads db
      ensures r.Some? ==> r.value in db.accounts && r.value.userId == userId
      ensures r.None? <==> forall a :: a in db.accounts ==> a.userId != userId
    {
      AccountOfUser(db.accounts, userId)
    }

    /** The first account whose owner's e-mail is `email`, ignoring letter case (accounts joined with users). */
    function FindAccountByEmail(email: string): (r: Option<Account>)
      reads db
      ensures r.Some? ==> r.value in db.accounts && OwnerHasEmail(db.users, r.value.userId, email)
      ensures r.None? <==> forall a :: a in db.accounts ==> !OwnerHasEmail(db.users, a.userId, email)
    {
      AccountOfEmail(db.users, db.accounts, email)
    }

    /** The account of user `userId` joined with that user's profile columns. */
    function FindUserAndAccountById(userId: nat): (r: Option<UserAccount>)
      reads db
      ensures r.Some? ==> r.value.userId == userId
      ensures r.Some? ==> exists a, u :: a in db.accounts && u in db.users && u.id == userId && r.value == JoinRow(a, u)
      ensures r.None? <==> (forall a :: a in db.accounts ==> a.userId != userId) || (forall u :: u in db.users ==> u.id != userId)
    {
      match FindAccountByUserId(userId)
      case None => None
      case Some(a) =>
        match FirstWhere(db.users, (u: User) => u.id == userId)
        case None => None
        case Some(u) => Some(JoinRow(a, u))
    }

    /**
     * Sets the balance of the account with primary key `accountId`. Throws
     * when no row has that key; otherwise reports one affected row.
     */
    method UpdateAccount(accountId: nat, balance: int) returns (r: Result<nat>)
      requires db.Valid()
      modifies db
      ensures db.Valid()
      ensures r.Err? <==> !HasAccountId(old(db.accounts), accountId)
      ensures r.Err? ==> r.error == NoAccountFound && db.State() == old(db.State())
      ensures r.Ok? ==> r.value == 1
      ensures r.Ok? ==> db.State() == old(db.State()).(accounts := SetBalance(old(db.accounts), accountId, balance))
    {
      var count := db.UpdateBalanceWhereId(accountId, balance);
      if count == 0 {
        SetBalanceAbsent(old(db.accounts), accountId, balance);
        return Err(NoAccountFound);
      }
      r := Ok(count);
    }

    /**
     * Sets the sender's and then the receiver's balance inside one database
     * transaction. A missing sender aborts before the receiver row is
     * touched; a missing receiver rolls the sender's update back. Either
     * failure is rethrown with the "Transaction failed: " prefix.
     */
    method UpdateTransfer(senderAccountId: nat, senderBalance: int, receiverAccountId: nat, receiverBalance: int)
      returns (r: Result<nat>)
      requires db.Valid()
      modifies db
      ensures db.Valid()
      ensures r.Ok? <==> HasAccountId(old(db.accounts), senderAccountId) && HasAccountId(old(db.accounts), receiverAccountId)
      ensures !HasAccountId(old(db.accounts), senderAccountId) ==> r == Err(TransactionFailed + NoSenderAccount)
      ensures HasAccountId(old(db.accounts), senderAccountId) && !HasAccountId(old(db.accounts), receiverAccountId) ==>
        r == Err(TransactionFailed + NoReceiverAccount)
      ensures r.Err? ==> db.State() == old(db.State())
      ensures r.Ok? ==> r.value == 1
      ensures r.Ok? ==> db.State() == old(db.State()).(accounts :=
        SetBalance(SetBalance(old(db.accounts), senderAccountId, senderBalance), receiverAccountId, receiverBalance))
    {
      var saved := db.State();
      var senderCount := db.UpdateBalanceWhereId(senderAccountId, senderBalance);
      if senderCount == 0 {
        db.Restore(saved);
        return Err(TransactionFailed + NoSenderAccount);
      }
      var receiverCount := db.UpdateBalanceWhereId(receiverAccountId, receiverBalance);
      SetBalanceKeepsKeys(saved.accounts, senderAccountId, senderBalance, receiverAccountId);
      if receiverCount == 0 {
        db.Restore(saved);
        return Err(TransactionFailed + NoReceiverAccount);
      }
      r := Ok(receiverCount);
    }

    /**
     * Appends a record to the transaction log and changes no account; throws
     * when its owner does not exist, the refused row using up its id.
     */
    method CreateTransaction(t: NewTransaction) returns (r: Outcome)
      requires db.Valid()
      modifies db
      ensures db.Valid()
      ensures r.Fail? <==> !HasUser(old(db.users), t.userId)
      ensures r.Fail? ==> r.error == ForeignKeyError
      ensures r.Fail? ==> db.State() == old(db.State()).(nextTransactionId := old(db.nextTransactionId) + 1)
      ensures r.Pass? ==> db.State() == Logged(old(db.State()), t)
    {
      var inserted := db.InsertTransaction(t);
      r := match inserted
        case Ok(_) => Pass
        case Err(e) => Fail(e);
    }
  }
}
