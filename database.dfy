/**
 * The relational store the models run their queries against, kept in memory:
 * the three tables as sequences of rows in primary-key order, and the three
 * auto-increment counters. Its primitives are the statements the models
 * issue, each with the constraint the schema puts on it: the unique e-mail
 * of `users` and the foreign keys from `accounts` and `transactions` to
 * `users`.
 */
module Database {
  import opened Wrappers
  import opened Interfaces
  import opened Tables

  /** Stand-in for the engine's message when an insert repeats a user's e-mail. */
  const DuplicateEmailError: string := "Duplicate entry for key 'users_email_unique'"
  /** Stand-in for the engine's message when a row names an owner that does not exist. */
  const ForeignKeyError: string := "Cannot add or update a child row: a foreign key constraint fails"

  /** Everything the store holds, as one value. */
  datatype DbState = DbState(
    users: seq<User>,
    accounts: seq<Account>,
    transactions: seq<Transaction>,
    nextUserId: nat,
    nextAccountId: nat,
    nextTransactionId: nat)

  /** Some user has this id. */
  predicate HasUser(users: seq<User>, id: nat) {
    exists i :: 0 <= i < |users| && users[i].id == id
  }

  /**
   * A string with its ASCII capitals turned into small letters. The server's
   * default collation compares text without regard to letter case; this is
   * the part of it the model keeps.
   */
  function FoldCase(s: string): (r: string)
    ensures |r| == |s|
    ensures forall i :: 0 <= i < |s| && !('A' <= s[i] <= 'Z') ==> r[i] == s[i]
    ensures forall i :: 0 <= i < |s| && 'A' <= s[i] <= 'Z' ==> r[i] as int == s[i] as int + 32
  {
    seq(|s|, i requires 0 <= i < |s| => if 'A' <= s[i] <= 'Z' then (s[i] as int + 32) as char else s[i])
  }

  /** Two e-mails the database treats as equal: the same once letter case is ignored. */
  predicate SameEmail(a: string, b: string) {
    FoldCase(a) == FoldCase(b)
  }

  /** An e-mail written with capitals matches its small-letter spelling, and a different address does not. */
  lemma SameEmailIgnoresCase()
    ensures SameEmail("Bob@Example.com", "bob@example.com")
    ensures !SameEmail("bob@example.com", "rob@example.com")
  {
    var a, b := FoldCase("Bob@Example.com"), FoldCase("bob@example.com");
    assert a == b by {
      forall i | 0 <= i < |a| ensures a[i] == b[i] {
      }
    }
    assert FoldCase("bob@example.com")[0] != FoldCase("rob@example.com")[0];
  }

  /** Some user has this e-mail, in the database's comparison. */
  predicate EmailTaken(users: seq<User>, email: string) {
    exists i :: 0 <= i < |users| && SameEmail(users[i].email, email)
  }

  // Column accessors: the key and uniqueness constraints are stated
  // through them, so that the solver only compares the rows a proof asks about.

  function UserKeyAt(users: seq<User>, i: nat): nat
    requires i < |users|
  {
    users[i].id
  }

  function EmailAt(users: seq<User>, i: nat): string
    requires i < |users|
  {
    users[i].email
  }

  function LogKeyAt(log: seq<Transaction>, i: nat): nat
    requires i < |log|
  {
    log[i].id
  }

  ghost predicate UsersKeyed(users: seq<User>, next: nat) {
    && (forall i, j :: 0 <= i < j < |users| ==> UserKeyAt(users, i) < UserKeyAt(users, j))
    && (forall i :: 0 <= i < |users| ==> UserKeyAt(users, i) < next)
  }

  ghost predicate EmailsUnique(users: seq<User>) {
    forall i, j :: 0 <= i < j < |users| ==> !SameEmail(EmailAt(users, i), EmailAt(users, j))
  }

  ghost predicate AccountsKeyed(accounts: seq<Account>, next: nat) {
    IdsAscending(accounts) && forall i :: 0 <= i < |accounts| ==> KeyAt(accounts, i) < next
  }

  ghost predicate AccountsOwned(accounts: seq<Account>, users: seq<User>) {
    forall i :: 0 <= i < |accounts| ==> HasUser(users, accounts[i].userId)
  }

  ghost predicate LogKeyed(log: seq<Transaction>, next: nat) {
    && (forall i, j :: 0 <= i < j < |log| ==> LogKeyAt(log, i) < LogKeyAt(log, j))
    && (forall i :: 0 <= i < |log| ==> LogKeyAt(log, i) < next)
  }

  ghost predicate LogOwned(log: seq<Transaction>, users: seq<User>) {
    forall i :: 0 <= i < |log| ==> HasUser(users, log[i].userId)
  }

  /** What the schema guarantees of every committed state. */
  ghost predicate ValidState(s: DbState) {
    && UsersKeyed(s.users, s.nextUserId)
    && EmailsUnique(s.users)
    && AccountsKeyed(s.accounts, s.nextAccountId)
    && AccountsOwned(s.accounts, s.users)
    && LogKeyed(s.transactions, s.nextTransactionId)
    && LogOwned(s.transactions, s.users)
  }

  /** A user row appended under the next id, with an e-mail not yet taken, keeps the users table keyed and its e-mails unique. */
  lemma UsersAppendKeyed(users: seq<User>, u: User, next: nat)
    requires UsersKeyed(users, next) && EmailsUnique(users)
    requires u.id == next && !EmailTaken(users, u.email)
    ensures UsersKeyed(users + [u], next + 1) && EmailsUnique(users + [u])
  {
    var r := users + [u];
    forall i, j | 0 <= i < j < |r|
      ensures UserKeyAt(r, i) < UserKeyAt(r, j) && !SameEmail(EmailAt(r, i), EmailAt(r, j))
    {
      if j < |users| {
        assert UserKeyAt(users, i) < UserKeyAt(users, j) && !SameEmail(EmailAt(users, i), EmailAt(users, j));
      } else {
        assert UserKeyAt(users, i) < next;
      }
    }
    forall i | 0 <= i < |r|
      ensures UserKeyAt(r, i) < next + 1
    {
      if i < |users| {
        assert UserKeyAt(users, i) < next;
      }
    }
  }

  /** An account row appended under the next id keeps the accounts table keyed. */
  lemma AccountsAppendKeyed(accounts: seq<Account>, a: Account, next: nat)
    requires AccountsKeyed(accounts, next) && a.id == next
    ensures AccountsKeyed(accounts + [a], next + 1)
  {
    var r := accounts + [a];
    forall i, j | 0 <= i < j < |r|
      ensures KeyAt(r, i) < KeyAt(r, j)
    {
      if j < |accounts| {
        assert KeyAt(accounts, i) < KeyAt(accounts, j);
      } else {
        assert KeyAt(accounts, i) < next;
      }
    }
    forall i | 0 <= i < |r|
      ensures KeyAt(r, i) < next + 1
    {
      if i < |accounts| {
        assert KeyAt(accounts, i) < next;
      }
    }
  }

  /** A balance update changes no key, so the accounts table stays keyed. */
  lemma AccountsKeyedAfterUpdate(accounts: seq<Account>, id: nat, balance: int, next: nat)
    requires AccountsKeyed(accounts, next)
    ensures AccountsKeyed(SetBalance(accounts, id, balance), next)
  {
    var r := SetBalance(accounts, id, balance);
    forall i, j | 0 <= i < j < |r|
      ensures KeyAt(r, i) < KeyAt(r, j)
    {
      assert KeyAt(accounts, i) < KeyAt(accounts, j);
    }
    forall i | 0 <= i < |r|
      ensures KeyAt(r, i) < next
    {
      assert KeyAt(accounts, i) < next;
    }
  }

  /** A log record appended under the next id keeps the log keyed. */
  lemma LogAppendKeyed(log: seq<Transaction>, t: Transaction, next: nat)
    requires LogKeyed(log, next) && t.id == next
    ensures LogKeyed(log + [t], next + 1)
  {
    var r := log + [t];
    forall i, j | 0 <= i < j < |r|
      ensures LogKeyAt(r, i) < LogKeyAt(r, j)
    {
      if j < |log| {
        assert LogKeyAt(log, i) < LogKeyAt(log, j);
      } else {
        assert LogKeyAt(log, i) < next;
      }
    }
    forall i | 0 <= i < |r|
      ensures LogKeyAt(r, i) < next + 1
    {
      if i < |log| {
        assert LogKeyAt(log, i) < next;
      }
    }
  }

  /** Every account's owner exists, so every owner id is below the next user id. */
  lemma OwnersPrecedeNextUser(s: DbState)
    requires ValidState(s)
    ensures forall i :: 0 <= i < |s.accounts| ==> s.accounts[i].userId < s.nextUserId
  {
    forall i | 0 <= i < |s.accounts| ensures s.accounts[i].userId < s.nextUserId {
      var j :| 0 <= j < |s.users| && s.users[j].id == s.accounts[i].userId;
      assert UserKeyAt(s.users, j) < s.nextUserId;
    }
  }

  lemma HasUserGrows(users: seq<User>, u: User, id: nat)
    requires HasUser(users, id)
    ensures HasUser(users + [u], id)
  {
    var i :| 0 <= i < |users| && users[i].id == id;
    assert (users + [u])[i] == users[i];
  }

  /** Adding a user with a fresh id and an unused e-mail keeps the schema's guarantees. */
  lemma UserInsertKeepsValid(s: DbState, u: NewUser)
    requires ValidState(s)
    requires !EmailTaken(s.users, u.email)
    ensures ValidState(s.(users := s.users + [u.WithId(s.nextUserId)], nextUserId := s.nextUserId + 1))
  {
    var users := s.users + [u.WithId(s.nextUserId)];
    UsersAppendKeyed(s.users, u.WithId(s.nextUserId), s.nextUserId);
    forall i | 0 <= i < |s.accounts| ensures HasUser(users, s.accounts[i].userId) {
      HasUserGrows(s.users, u.WithId(s.nextUserId), s.accounts[i].userId);
    }
    forall i | 0 <= i < |s.transactions| ensures HasUser(users, s.transactions[i].userId) {
      HasUserGrows(s.users, u.WithId(s.nextUserId), s.transactions[i].userId);
    }
  }

  /** The state after appending `t` to the log under the next transaction id. */
  function Logged(s: DbState, t: NewTransaction): (r: DbState)
    ensures r.transactions == s.transactions + [t.WithId(s.nextTransactionId)]
    ensures r.nextTransactionId == s.nextTransactionId + 1
    ensures r.users == s.users && r.accounts == s.accounts
    ensures r.nextUserId == s.nextUserId && r.nextAccountId == s.nextAccountId
  {
    s.(transactions := s.transactions + [t.WithId(s.nextTransactionId)],
       nextTransactionId := s.nextTransactionId + 1)
  }

  /** A balance update keeps every key and owner, so the schema's guarantees survive it. */
  lemma BalanceUpdateKeepsValid(s: DbState, id: nat, balance: int)
    requires ValidState(s)
    ensures ValidState(s.(accounts := SetBalance(s.accounts, id, balance)))
  {
    AccountsKeyedAfterUpdate(s.accounts, id, balance, s.nextAccountId);
  }

  /** Appending a record whose owner exists keeps the schema's guarantees. */
  lemma LoggedKeepsValid(s: DbState, t: NewTransaction)
    requires ValidState(s)
    requires HasUser(s.users, t.userId)
    ensures ValidState(Logged(s, t))
  {
    LogAppendKeyed(s.transactions, t.WithId(s.nextTransactionId), s.nextTransactionId);
  }

  /** A balance update followed by a log append whose owner exists keeps the schema's guarantees. */
  lemma UpdateThenLogKeepsValid(s: DbState, id: nat, balance: int, t: NewTransaction)
    requires ValidState(s)
    requires HasUser(s.users, t.userId)
    ensures ValidState(Logged(s.(accounts := SetBalance(s.accounts, id, balance)), t))
  {
    BalanceUpdateKeepsValid(s, id, balance);
    LoggedKeepsValid(s.(accounts := SetBalance(s.accounts, id, balance)), t);
  }

  /** The two balance updates of a transfer followed by two log appends whose owners exist keep the schema's guarantees. */
  lemma TransferThenLogKeepsValid(s: DbState, sid: nat, sb: int, rid: nat, rb: int, t1: NewTransaction, t2: NewTransaction)
    requires ValidState(s)
    requires HasUser(s.users, t1.userId) && HasUser(s.users, t2.userId)
    ensures ValidState(Logged(Logged(s.(accounts := SetBalance(SetBalance(s.accounts, sid, sb), rid, rb)), t1), t2))
  {
    var first := s.(accounts := SetBalance(s.accounts, sid, sb));
    BalanceUpdateKeepsValid(s, sid, sb);
    UpdateThenLogKeepsValid(first, rid, rb, t1);
    LoggedKeepsValid(Logged(first.(accounts := SetBalance(first.accounts, rid, rb)), t1), t2);
  }

  /** Raising the auto-increment counters keeps the schema's guarantees: every key stays below its counter. */
  lemma CountersRaisedKeepValid(s: DbState, nextUser: nat, nextAccount: nat, nextTransaction: nat)
    requires ValidState(s)
    requires s.nextUserId <= nextUser && s.nextAccountId <= nextAccount && s.nextTransactionId <= nextTransaction
    ensures ValidState(s.(nextUserId := nextUser, nextAccountId := nextAccount, nextTransactionId := nextTransaction))
  {
    forall i | 0 <= i < |s.users| ensures UserKeyAt(s.users, i) < nextUser {
      assert UserKeyAt(s.users, i) < s.nextUserId;
    }
    forall i | 0 <= i < |s.accounts| ensures KeyAt(s.accounts, i) < nextAccount {
      assert KeyAt(s.accounts, i) < s.nextAccountId;
    }
    forall i | 0 <= i < |s.transactions| ensures LogKeyAt(s.transactions, i) < nextTransaction {
      assert LogKeyAt(s.transactions, i) < s.nextTransactionId;
    }
  }

  class Db {
    var users: seq<User>
    var accounts: seq<Account>
    var transactions: seq<Transaction>
    var nextUserId: nat
    var nextAccountId: nat
    var nextTransactionId: nat

    function State(): DbState
      reads this
    {
      DbState(users, accounts, transactions, nextUserId, nextAccountId, nextTransactionId)
    }

    ghost predicate Valid()
      reads this
    {
      ValidState(State())
    }

    /** An empty database; every auto-increment counter starts at 1. */
    constructor ()
      ensures Valid()
      ensures State() == DbState([], [], [], 1, 1, 1)
    {
      users, accounts, transactions := [], [], [];
      nextUserId, nextAccountId, nextTransactionId := 1, 1, 1;
    }

    /** `UPDATE accounts SET balance = :balance WHERE id = :id`, returning the affected-row count. */
    method UpdateBalanceWhereId(id: nat, balance: int) returns (count: nat)
      requires Valid()
      modifies this
      ensures Valid()
      ensures count == CountId(old(accounts), id)
      ensures count <= 1
      ensures State() == old(State()).(accounts := SetBalance(old(accounts), id, balance))
    {
      BalanceUpdateKeepsValid(State(), id, balance);
      count := CountId(accounts, id);
      accounts := SetBalance(accounts, id, balance);
    }

    /**
     * `INSERT INTO users`, refused when the e-mail is already in use; returns
     * the new id. A refused row still uses up its auto-increment id.
     */
    method InsertUser(u: NewUser) returns (r: Result<nat>)
      requires Valid()
      modifies this
      ensures Valid()
      ensures r.Err? <==> EmailTaken(old(users), u.email)
      ensures r.Err? ==> r.error == DuplicateEmailError && State() == old(State()).(nextUserId := old(nextUserId) + 1)
      ensures r.Ok? ==> r.value == old(nextUserId)
      ensures r.Ok? ==> State() == old(State()).(users := old(users) + [u.WithId(old(nextUserId))],
                                                 nextUserId := old(nextUserId) + 1)
    {
      if EmailTaken(users, u.email) {
        CountersRaisedKeepValid(State(), nextUserId + 1, nextAccountId, nextTransactionId);
        nextUserId := nextUserId + 1;
        return Err(DuplicateEmailError);
      }
      UserInsertKeepsValid(State(), u);
      r := Ok(nextUserId);
      users := users + [u.WithId(nextUserId)];
      nextUserId := nextUserId + 1;
    }

    /**
     * `INSERT INTO accounts (user_id)`: the balance takes its default, 0;
     * refused for an unknown owner, using up the id all the same.
     */
    method InsertAccount(userId: nat) returns (r: Result<nat>)
      requires Valid()
      modifies this
      ensures Valid()
      ensures r.Err? <==> !HasUser(old(users), userId)
      ensures r.Err? ==> r.error == ForeignKeyError && State() == old(State()).(nextAccountId := old(nextAccountId) + 1)
      ensures r.Ok? ==> r.value == old(nextAccountId)
      ensures r.Ok? ==> State() == old(State()).(accounts := old(accounts) + [Account(old(nextAccountId), userId, 0)],
                                                 nextAccountId := old(nextAccountId) + 1)
    {
      if !HasUser(users, userId) {
        CountersRaisedKeepValid(State(), nextUserId, nextAccountId + 1, nextTransactionId);
        nextAccountId := nextAccountId + 1;
        return Err(ForeignKeyError);
      }
      AccountsAppendKeyed(accounts, Account(nextAccountId, userId, 0), nextAccountId);
      r := Ok(nextAccountId);
      accounts := accounts + [Account(nextAccountId, userId, 0)];
      nextAccountId := nextAccountId + 1;
    }

    /** `INSERT INTO transactions`, refused for an unknown owner (using up the id); returns the new id. */
    method InsertTransaction(t: NewTransaction) returns (r: Result<nat>)
      requires Valid()
      modifies this
      ensures Valid()
      ensures r.Err? <==> !HasUser(old(users), t.userId)
      ensures r.Err? ==> r.error == ForeignKeyError && State() == old(State()).(nextTransactionId := old(nextTransactionId) + 1)
      ensures r.Ok? ==> r.value == old(nextTransactionId)
      ensures r.Ok? ==> State() == Logged(old(State()), t)
    {
      if !HasUser(users, t.userId) {
        CountersRaisedKeepValid(State(), nextUserId, nextAccountId, nextTransactionId + 1);
        nextTransactionId := nextTransactionId + 1;
        return Err(ForeignKeyError);
      }
      LoggedKeepsValid(State(), t);
      r := Ok(nextTransactionId);
      transactions := transactions + [t.WithId(nextTransactionId)];
      nextTransactionId := nextTransactionId + 1;
    }

    /**
     * Rolls a database transaction back to the tables saved when it began.
     * Ids handed out inside it stay used: the counters keep their values.
     */
    method Restore(s: DbState)
      requires ValidState(s)
      requires s.nextUserId <= nextUserId && s.nextAccountId <= nextAccountId && s.nextTransactionId <= nextTransactionId
      modifies this
      ensures Valid()
      ensures State() == s.(nextUserId := old(nextUserId), nextAccountId := old(nextAccountId),
                            nextTransactionId := old(nextTransactionId))
    {
      CountersRaisedKeepValid(s, nextUserId, nextAccountId, nextTransactionId);
      users, accounts, transactions := s.users, s.accounts, s.transactions;
    }
  }
}
