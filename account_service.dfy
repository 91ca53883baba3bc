/**
 * The ledger: funding, withdrawal and transfer between accounts, and the
 * account query. Each operation reads the account afresh, checks it,
 * computes the new balance, writes it through the account model and then
 * appends the log records; every expected failure is a response record, not
 * an exception.
 *
 * What each operation does to the store is first stated as a function from
 * the state before to the response and the state after (`FundStep`,
 * `WithdrawStep`, `TransferStep`); the lemmas below prove what the ledger
 * promises about those functions, and the methods of `AccountService` are
 * proved to perform exactly those steps.
 */
module Ledger {
  import opened Wrappers
  import opened Interfaces
  import opened Constants
  import opened Tables
  import opened Database
  import opened AccountStore

  /** `{message, statusCode}` with neither account nor user. */
  function Failure(message: string, statusCode: int): AccountApiResponse {
    AccountApiResponse(message, statusCode, None, None)
  }

  /** `{message: 'success', statusCode: 200, account}`. */
  function Success(account: Account): AccountApiResponse {
    AccountApiResponse(SuccessMsg, 200, Some(account), None)
  }

  /** The response an operation gives, and the store it leaves behind. */
  datatype Step = Step(response: AccountApiResponse, after: DbState)

  /** The schema's guarantees, and no balance is negative. */
  ghost predicate LedgerValid(s: DbState) {
    ValidState(s) && Solvent(s.accounts)
  }

  /** Fund: the user's account gains `amount`, and a `fund` record for the user is logged. */
  function FundStep(s: DbState, userId: nat, amount: int): Step {
    match AccountOfUser(s.accounts, userId)
    case None => Step(Failure(AccountNotFound, 404), s)
    case Some(a) =>
      Step(Success(a.(balance := a.balance + amount)),
           Logged(s.(accounts := SetBalance(s.accounts, a.id, a.balance + amount)), NewTransaction(userId, Fund, amount)))
  }

  /** Withdraw: refused when `amount` exceeds the balance; otherwise the account loses `amount` and a `withdraw` record is logged. */
  function WithdrawStep(s: DbState, userId: nat, amount: int): Step {
    match AccountOfUser(s.accounts, userId)
    case None => Step(Failure(AccountNotFound, 404), s)
    case Some(a) =>
      if amount > a.balance then Step(Failure(InsufficientFunds, 402), s)
      else
        Step(Success(a.(balance := a.balance - amount)),
             Logged(s.(accounts := SetBalance(s.accounts, a.id, a.balance - amount)), NewTransaction(userId, Withdraw, amount)))
  }

  /**
   * Transfer: the checks in their order (sender, funds, receiver, same
   * account), then both balances in one update, then a `transferOut` record
   * for the sender and a `transferIn` record for the receiver's owner.
   */
  function TransferStep(s: DbState, senderId: nat, amount: int, receiverEmail: string): Step {
    match AccountOfUser(s.accounts, senderId)
    case None => Step(Failure(AccountNotFound, 404), s)
    case Some(sender) =>
      if amount > sender.balance then Step(Failure(InsufficientFunds, 402), s)
      else match AccountOfEmail(s.users, s.accounts, receiverEmail)
      case None => Step(Failure(ReceiverAccountNotFound, 404), s)
      case Some(receiver) =>
        if receiver.id == sender.id then Step(Failure(TransferSameAccountError, 402), s)
        else
          Step(Success(sender.(balance := sender.balance - amount)),
               Logged(Logged(s.(accounts := SetBalance(SetBalance(s.accounts, sender.id, sender.balance - amount),
                                                       receiver.id, receiver.balance + amount)),
                             NewTransaction(senderId, TransferOut, amount)),
                      NewTransaction(receiver.userId, TransferIn, amount)))
  }

  // The successful branch of each step, spelled out for the proofs below.

  lemma FundShape(s: DbState, userId: nat, amount: int, a: Account)
    requires AccountOfUser(s.accounts, userId) == Some(a)
    ensures FundStep(s, userId, amount) ==
      Step(Success(a.(balance := a.balance + amount)),
           Logged(s.(accounts := SetBalance(s.accounts, a.id, a.balance + amount)), NewTransaction(userId, Fund, amount)))
  {
  }

  /** The states a successful fund passes through are those of `FundStep`. */
  lemma FundCommitted(before: DbState, updated: DbState, after: DbState, userId: nat, amount: int, a: Account)
    requires LedgerValid(before) && amount > 0
    requires AccountOfUser(before.accounts, userId) == Some(a)
    requires updated == before.(accounts := SetBalance(before.accounts, a.id, a.balance + amount))
    requires after == Logged(updated, NewTransaction(userId, Fund, amount))
    ensures FundStep(before, userId, amount) == Step(Success(a.(balance := a.balance + amount)), after)
    ensures LedgerValid(after)
  {
    FundShape(before, userId, amount, a);
    FundStepKeepsLedgerValid(before, userId, amount);
  }

  /** The states a successful withdrawal passes through are those of `WithdrawStep`. */
  lemma WithdrawCommitted(before: DbState, updated: DbState, after: DbState, userId: nat, amount: int, a: Account)
    requires LedgerValid(before) && amount > 0
    requires AccountOfUser(before.accounts, userId) == Some(a) && amount <= a.balance
    requires updated == before.(accounts := SetBalance(before.accounts, a.id, a.balance - amount))
    requires after == Logged(updated, NewTransaction(userId, Withdraw, amount))
    ensures WithdrawStep(before, userId, amount) == Step(Success(a.(balance := a.balance - amount)), after)
    ensures LedgerValid(after)
  {
    WithdrawShape(before, userId, amount, a);
    WithdrawStepKeepsLedgerValid(before, userId, amount);
  }

  lemma WithdrawShape(s: DbState, userId: nat, amount: int, a: Account)
    requires AccountOfUser(s.accounts, userId) == Some(a) && amount <= a.balance
    ensures WithdrawStep(s, userId, amount) ==
      Step(Success(a.(balance := a.balance - amount)),
           Logged(s.(accounts := SetBalance(s.accounts, a.id, a.balance - amount)), NewTransaction(userId, Withdraw, amount)))
  {
  }

  lemma TransferShape(s: DbState, senderId: nat, amount: int, receiverEmail: string, sa: Account, ra: Account)
    requires AccountOfUser(s.accounts, senderId) == Some(sa) && amount <= sa.balance
    requires AccountOfEmail(s.users, s.accounts, receiverEmail) == Some(ra) && ra.id != sa.id
    ensures TransferStep(s, senderId, amount, receiverEmail) ==
      Step(Success(sa.(balance := sa.balance - amount)),
           Logged(Logged(s.(accounts := SetBalance(SetBalance(s.accounts, sa.id, sa.balance - amount), ra.id, ra.balance + amount)),
                         NewTransaction(senderId, TransferOut, amount)),
                  NewTransaction(ra.userId, TransferIn, amount)))
  {
  }

  /**
   * The states a successful transfer passes through are those of
   * `TransferStep`; `sent` and `received` are the two rows as written back.
   */
  lemma TransferCommitted(before: DbState, updated: DbState, mid: DbState, after: DbState,
                          senderId: nat, amount: int, receiverEmail: string,
                          sa: Account, ra: Account, sent: Account, received: Account)
    requires LedgerValid(before) && amount > 0
    requires AccountOfUser(before.accounts, senderId) == Some(sa) && amount <= sa.balance
    requires AccountOfEmail(before.users, before.accounts, receiverEmail) == Some(ra) && ra.id != sa.id
    requires sent == sa.(balance := sa.balance - amount) && received == ra.(balance := ra.balance + amount)
    requires updated == before.(accounts := SetBalance(SetBalance(before.accounts, sent.id, sent.balance), received.id, received.balance))
    requires mid == Logged(updated, NewTransaction(senderId, TransferOut, amount))
    requires after == Logged(mid, NewTransaction(received.userId, TransferIn, amount))
    ensures TransferStep(before, senderId, amount, receiverEmail) == Step(Success(sent), after)
    ensures LedgerValid(after)
  {
    TransferShape(before, senderId, amount, receiverEmail, sa, ra);
    TransferStepKeepsLedgerValid(before, senderId, amount, receiverEmail);
  }

  /** A row the lookup returns is a row of the table, so its owner exists and its balance is not negative. */
  lemma FoundRowFacts(s: DbState, a: Account)
    requires LedgerValid(s)
    requires a in s.accounts
    ensures HasUser(s.users, a.userId) && a.balance >= 0
    ensures exists k :: 0 <= k < |s.accounts| && s.accounts[k] == a
  {
    var k :| 0 <= k < |s.accounts| && s.accounts[k] == a;
  }

  /** Funding keeps the schema's guarantees and every balance non-negative. */
  lemma FundStepKeepsLedgerValid(s: DbState, userId: nat, amount: int)
    requires LedgerValid(s) && amount > 0
    ensures LedgerValid(FundStep(s, userId, amount).after)
  {
    var found := AccountOfUser(s.accounts, userId);
    if found.Some? {
      var a := found.value;
      FundShape(s, userId, amount, a);
      FoundRowFacts(s, a);
      UpdateThenLogKeepsValid(s, a.id, a.balance + amount, NewTransaction(userId, Fund, amount));
      SetBalanceKeepsSolvent(s.accounts, a.id, a.balance + amount);
    }
  }

  /** Withdrawing keeps the schema's guarantees and, because overdrafts are refused, every balance non-negative. */
  lemma WithdrawStepKeepsLedgerValid(s: DbState, userId: nat, amount: int)
    requires LedgerValid(s) && amount > 0
    ensures LedgerValid(WithdrawStep(s, userId, amount).after)
  {
    var found := AccountOfUser(s.accounts, userId);
    if found.Some? && amount <= found.value.balance {
      var a := found.value;
      WithdrawShape(s, userId, amount, a);
      FoundRowFacts(s, a);
      UpdateThenLogKeepsValid(s, a.id, a.balance - amount, NewTransaction(userId, Withdraw, amount));
      SetBalanceKeepsSolvent(s.accounts, a.id, a.balance - amount);
    }
  }

  /** A transfer keeps the schema's guarantees and every balance non-negative. */
  lemma TransferStepKeepsLedgerValid(s: DbState, senderId: nat, amount: int, receiverEmail: string)
    requires LedgerValid(s) && amount > 0
    ensures LedgerValid(TransferStep(s, senderId, amount, receiverEmail).after)
  {
    var sender := AccountOfUser(s.accounts, senderId);
    var receiver := AccountOfEmail(s.users, s.accounts, receiverEmail);
    if sender.Some? && amount <= sender.value.balance && receiver.Some? && receiver.value.id != sender.value.id {
      var sa, ra := sender.value, receiver.value;
      TransferShape(s, senderId, amount, receiverEmail, sa, ra);
      MoveKeepsLedgerValid(s, sa, ra, amount, NewTransaction(senderId, TransferOut, amount), NewTransaction(ra.userId, TransferIn, amount));
    }
  }

  /** The balance moves and the two appends of a transfer keep the ledger valid. */
  lemma MoveKeepsLedgerValid(s: DbState, sa: Account, ra: Account, amount: int, t1: NewTransaction, t2: NewTransaction)
    requires LedgerValid(s) && sa in s.accounts && ra in s.accounts
    requires 0 < amount <= sa.balance
    requires t1.userId == sa.userId && t2.userId == ra.userId
    ensures LedgerValid(Logged(Logged(s.(accounts := SetBalance(SetBalance(s.accounts, sa.id, sa.balance - amount),
                                                                ra.id, ra.balance + amount)), t1), t2))
  {
    FoundRowFacts(s, sa);
    FoundRowFacts(s, ra);
    TransferThenLogKeepsValid(s, sa.id, sa.balance - amount, ra.id, ra.balance + amount, t1, t2);
    SetBalanceKeepsSolvent(s.accounts, sa.id, sa.balance - amount);
    SetBalanceKeepsSolvent(SetBalance(s.accounts, sa.id, sa.balance - amount), ra.id, ra.balance + amount);
  }

  /**
   * A refused fund leaves the store and the log exactly as they were; a
   * successful one appends one record, so the state changes if and only if
   * the call succeeded.
   */
  lemma FundFailureChangesNothing(s: DbState, userId: nat, amount: int)
    ensures var r := FundStep(s, userId, amount);
      && (r.response.statusCode != 200 ==> r.after == s)
      && (r.response.statusCode == 200 ==> |r.after.transactions| == |s.transactions| + 1)
  {
  }

  /** The same for withdraw: refusals change nothing, a success appends one record. */
  lemma WithdrawFailureChangesNothing(s: DbState, userId: nat, amount: int)
    ensures var r := WithdrawStep(s, userId, amount);
      && (r.response.statusCode != 200 ==> r.after == s)
      && (r.response.statusCode == 200 ==> |r.after.transactions| == |s.transactions| + 1)
  {
  }

  /** The same for transfer: each of the four refusals changes nothing, a success appends two records. */
  lemma TransferFailureChangesNothing(s: DbState, senderId: nat, amount: int, receiverEmail: string)
    ensures var r := TransferStep(s, senderId, amount, receiverEmail);
      && (r.response.statusCode != 200 ==> r.after == s)
      && (r.response.statusCode == 200 ==> |r.after.transactions| == |s.transactions| + 2)
  {
  }

  /**
   * Funding succeeds exactly when the user has an account; the account then
   * holds its old balance plus `amount`, in the store and in the response,
   * and one `fund` record for the user is logged.
   */
  lemma FundStepAdds(s: DbState, userId: nat, amount: int)
    ensures var r := FundStep(s, userId, amount);
      AccountOfUser(s.accounts, userId).None? ==> r.response == Failure(AccountNotFound, 404)
    ensures var r := FundStep(s, userId, amount);
      AccountOfUser(s.accounts, userId).Some? ==>
        var a := AccountOfUser(s.accounts, userId).value;
        && r.response == Success(a.(balance := a.balance + amount))
        && AccountOfUser(r.after.accounts, userId) == r.response.account
        && r.after.transactions == s.transactions + [Transaction(s.nextTransactionId, userId, Fund, amount)]
  {
    var found := AccountOfUser(s.accounts, userId);
    if found.Some? {
      var a := found.value;
      FundShape(s, userId, amount, a);
      OwnerLookupAfterUpdate(s.accounts, a.id, a.balance + amount, userId);
    }
  }

  /** A deposit changes no other account and raises the total by exactly `amount`. */
  lemma FundStepTotal(s: DbState, userId: nat, amount: int)
    requires IdsAscending(s.accounts)
    requires AccountOfUser(s.accounts, userId).Some?
    ensures var a := AccountOfUser(s.accounts, userId).value;
      var after := FundStep(s, userId, amount).after;
      && (forall i :: 0 <= i < |s.accounts| && s.accounts[i].id != a.id ==> after.accounts[i] == s.accounts[i])
      && TotalBalance(after.accounts) == TotalBalance(s.accounts) + amount
  {
    var a := AccountOfUser(s.accounts, userId).value;
    FundShape(s, userId, amount, a);
    UpdateRow(s.accounts, a, a.balance + amount);
  }

  /**
   * Withdrawing is refused with 402 exactly when `amount` exceeds the
   * balance, so the whole balance may be taken; on success the account
   * holds its old balance minus `amount`, which is not negative, and one
   * `withdraw` record is logged.
   */
  lemma WithdrawStepSubtracts(s: DbState, userId: nat, amount: int)
    requires LedgerValid(s)
    ensures var r := WithdrawStep(s, userId, amount);
      AccountOfUser(s.accounts, userId).None? ==> r.response == Failure(AccountNotFound, 404)
    ensures var r := WithdrawStep(s, userId, amount);
      AccountOfUser(s.accounts, userId).Some? ==>
        (r.response == Failure(InsufficientFunds, 402) <==> amount > AccountOfUser(s.accounts, userId).value.balance)
    ensures var r := WithdrawStep(s, userId, amount);
      AccountOfUser(s.accounts, userId).Some? && amount <= AccountOfUser(s.accounts, userId).value.balance ==>
        var a := AccountOfUser(s.accounts, userId).value;
        && r.response == Success(a.(balance := a.balance - amount))
        && a.balance - amount >= 0
        && AccountOfUser(r.after.accounts, userId) == r.response.account
        && r.after.transactions == s.transactions + [Transaction(s.nextTransactionId, userId, Withdraw, amount)]
  {
    var found := AccountOfUser(s.accounts, userId);
    if found.Some? && amount <= found.value.balance {
      var a := found.value;
      WithdrawShape(s, userId, amount, a);
      OwnerLookupAfterUpdate(s.accounts, a.id, a.balance - amount, userId);
    }
  }

  /** A withdrawal changes no other account and lowers the total by exactly `amount`. */
  lemma WithdrawStepTotal(s: DbState, userId: nat, amount: int)
    requires IdsAscending(s.accounts)
    requires AccountOfUser(s.accounts, userId).Some? && amount <= AccountOfUser(s.accounts, userId).value.balance
    ensures var a := AccountOfUser(s.accounts, userId).value;
      var after := WithdrawStep(s, userId, amount).after;
      && (forall i :: 0 <= i < |s.accounts| && s.accounts[i].id != a.id ==> after.accounts[i] == s.accounts[i])
      && TotalBalance(after.accounts) == TotalBalance(s.accounts) - amount
  {
    var a := AccountOfUser(s.accounts, userId).value;
    WithdrawShape(s, userId, amount, a);
    UpdateRow(s.accounts, a, a.balance - amount);
  }

  /**
   * The transfer's checks run in a fixed order, each decided by what the
   * earlier ones let through: an unknown sender is reported whatever the
   * receiver, and an overdraft is reported before the receiver is looked up.
   */
  lemma TransferChecksInOrder(s: DbState, senderId: nat, amount: int, receiverEmail: string)
    ensures var r := TransferStep(s, senderId, amount, receiverEmail);
      AccountOfUser(s.accounts, senderId).None? ==> r.response == Failure(AccountNotFound, 404)
    ensures var r := TransferStep(s, senderId, amount, receiverEmail);
      var sender := AccountOfUser(s.accounts, senderId);
      sender.Some? && amount > sender.value.balance ==> r.response == Failure(InsufficientFunds, 402)
    ensures var r := TransferStep(s, senderId, amount, receiverEmail);
      var sender := AccountOfUser(s.accounts, senderId);
      var receiver := AccountOfEmail(s.users, s.accounts, receiverEmail);
      sender.Some? && amount <= sender.value.balance && receiver.None? ==>
        r.response == Failure(ReceiverAccountNotFound, 404)
    ensures var r := TransferStep(s, senderId, amount, receiverEmail);
      var sender := AccountOfUser(s.accounts, senderId);
      var receiver := AccountOfEmail(s.users, s.accounts, receiverEmail);
      sender.Some? && amount <= sender.value.balance && receiver.Some? && receiver.value.id == sender.value.id ==>
        r.response == Failure(TransferSameAccountError, 402)
    ensures var r := TransferStep(s, senderId, amount, receiverEmail);
      var sender := AccountOfUser(s.accounts, senderId);
      var receiver := AccountOfEmail(s.users, s.accounts, receiverEmail);
      r.response.statusCode == 200 <==>
        sender.Some? && amount <= sender.value.balance && receiver.Some? && receiver.value.id != sender.value.id
  {
  }

  /**
   * A successful transfer returns the sender's debited account and logs a
   * `transferOut` record for the sender and then a `transferIn` record for
   * the receiver's owner.
   */
  lemma TransferStepLogs(s: DbState, senderId: nat, amount: int, receiverEmail: string)
    requires TransferStep(s, senderId, amount, receiverEmail).response.statusCode == 200
    ensures var r := TransferStep(s, senderId, amount, receiverEmail);
      var sa := AccountOfUser(s.accounts, senderId).value;
      var ra := AccountOfEmail(s.users, s.accounts, receiverEmail).value;
      && r.response == Success(sa.(balance := sa.balance - amount))
      && r.after.transactions == s.transactions + [Transaction(s.nextTransactionId, senderId, TransferOut, amount),
                                                   Transaction(s.nextTransactionId + 1, ra.userId, TransferIn, amount)]
  {
    var sa := AccountOfUser(s.accounts, senderId).value;
    var ra := AccountOfEmail(s.users, s.accounts, receiverEmail).value;
    TransferShape(s, senderId, amount, receiverEmail, sa, ra);
  }

  /**
   * A successful transfer debits the sender's row and credits the
   * receiver's row by `amount`, leaves every other row as it was, and so
   * keeps the total.
   */
  lemma TransferStepMoves(s: DbState, senderId: nat, amount: int, receiverEmail: string)
    requires IdsAscending(s.accounts)
    requires TransferStep(s, senderId, amount, receiverEmail).response.statusCode == 200
    ensures var after := TransferStep(s, senderId, amount, receiverEmail).after;
      var sa := AccountOfUser(s.accounts, senderId).value;
      var ra := AccountOfEmail(s.users, s.accounts, receiverEmail).value;
      && (forall i :: 0 <= i < |s.accounts| ==>
            after.accounts[i] ==
              if s.accounts[i].id == sa.id then sa.(balance := sa.balance - amount)
              else if s.accounts[i].id == ra.id then ra.(balance := ra.balance + amount)
              else s.accounts[i])
      && TotalBalance(after.accounts) == TotalBalance(s.accounts)
  {
    var sa := AccountOfUser(s.accounts, senderId).value;
    var ra := AccountOfEmail(s.users, s.accounts, receiverEmail).value;
    TransferShape(s, senderId, amount, receiverEmail, sa, ra);
    MoveRows(s.accounts, sa, ra, amount);
    MoveKeepsTotal(s.accounts, sa, ra, amount);
  }

  /**
   * Funding and then withdrawing the same amount leaves the store as it
   * was except for the two log records: every balance is put back.
   */
  lemma FundThenWithdrawRestores(s: DbState, userId: nat, amount: int)
    requires IdsAscending(s.accounts) && Solvent(s.accounts) && amount > 0
    requires AccountOfUser(s.accounts, userId).Some?
    ensures var funded := FundStep(s, userId, amount);
      var back := WithdrawStep(funded.after, userId, amount);
      && back.response == Success(AccountOfUser(s.accounts, userId).value)
      && back.after == Logged(Logged(s, NewTransaction(userId, Fund, amount)), NewTransaction(userId, Withdraw, amount))
  {
    var a := AccountOfUser(s.accounts, userId).value;
    var k :| 0 <= k < |s.accounts| && s.accounts[k] == a;
    var funded := a.(balance := a.balance + amount);
    FundShape(s, userId, amount, a);
    var mid := Logged(s.(accounts := SetBalance(s.accounts, a.id, a.balance + amount)), NewTransaction(userId, Fund, amount));
    OwnerLookupAfterUpdate(s.accounts, a.id, a.balance + amount, userId);
    WithdrawShape(mid, userId, amount, funded);
    SetBalanceRestores(s.accounts, a, a.balance + amount);
  }

  /** Two deposits accumulate: funding `x` and then `y` leaves the account at its old balance plus `x + y`. */
  lemma FundTwiceAccumulates(s: DbState, userId: nat, x: int, y: int)
    requires AccountOfUser(s.accounts, userId).Some?
    ensures var first := FundStep(s, userId, x);
      var second := FundStep(first.after, userId, y);
      var a := AccountOfUser(s.accounts, userId).value;
      second.response == Success(a.(balance := a.balance + x + y))
  {
    FundStepAdds(s, userId, x);
    FundStepAdds(FundStep(s, userId, x).after, userId, y);
  }

  /** The profile the account query returns, with the user's id taken from the row's `user_id`. */
  function Profile(row: UserAccount): (p: UserProfile)
    ensures p.id == row.userId
    ensures p.email == row.email && p.name == row.name && p.address == row.address
    ensures p.city == row.city && p.dateOfBirth == row.dateOfBirth && p.lgaId == row.lgaId
  {
    UserProfile(row.userId, row.name, row.address, row.city, row.dateOfBirth, row.email, row.lgaId)
  }

  /**
   * The profile as the source builds it: its `id` is copied from the row's
   * `id`, and the joined row's `id` is the ACCOUNT's primary key.
   */
  function ProfileAsWritten(row: UserAccount): (p: UserProfile)
    ensures p == Profile(row).(id := row.id)
  {
    UserProfile(row.id, row.name, row.address, row.city, row.dateOfBirth, row.email, row.lgaId)
  }

  /** Account 2 owned by user 1: the profile as written reports user id 2. */
  lemma ProfileAsWrittenReportsAccountId()
    ensures var row := UserAccount(2, 1, 0, "a@b.co", "Ada", "1990-01-01", "Lagos", "1 Main St", 7);
      ProfileAsWritten(row).id == 2 && row.userId == 1 && Profile(row).id == 1
  {
  }

  class AccountService {
    const accountModel: AccountModel

    constructor (accountModel: AccountModel)
      ensures this.accountModel == accountModel
    {
      this.accountModel := accountModel;
    }

    /** The store keeps the schema's guarantees and no balance is negative. */
    ghost predicate Valid()
      reads accountModel.db
    {
      LedgerValid(accountModel.db.State())
    }

    /**
     * Adds `amount` cents to the balance of `userId`'s account and logs a
     * `fund` record for `userId`; 404 when the user has no account.
     */
    method FundUserAccount(userId: nat, amount: int) returns (r: AccountApiResponse)
      requires amount > 0
      requires Valid()
      modifies accountModel.db
      ensures Valid()
      ensures r == FundStep(old(accountModel.db.State()), userId, amount).response
      ensures accountModel.db.State() == FundStep(old(accountModel.db.State()), userId, amount).after
    {
      ghost var before := accountModel.db.State();
      var found := accountModel.FindAccountByUserId(userId);
      if found.None? {
        return Failure(AccountNotFound, 404);
      }
      var account := found.value;
      FoundRowFacts(before, account);
      var newBalance := account.balance + amount;
      var updated := accountModel.UpdateAccount(account.id, newBalance);
      assert updated == Ok(1);  // the row was just read, so the update finds it
      ghost var mid := accountModel.db.State();
      // Not awaited by the caller: the outcome does not affect the response.
      var logged := accountModel.CreateTransaction(NewTransaction(userId, Fund, amount));
      assert logged == Pass;
      r := Success(account.(balance := newBalance));
      FundCommitted(before, mid, accountModel.db.State(), userId, amount, account);
    }

    /**
     * Takes `amount` cents from the balance of `userId`'s account and logs a
     * `withdraw` record; 404 without an account, 402 when the amount exceeds
     * the balance.
     */
    method WithdrawAmount(userId: nat, amount: int) returns (r: AccountApiResponse)
      requires amount > 0
      requires Valid()
      modifies accountModel.db
      ensures Valid()
      ensures r == WithdrawStep(old(accountModel.db.State()), userId, amount).response
      ensures accountModel.db.State() == WithdrawStep(old(accountModel.db.State()), userId, amount).after
    {
      ghost var before := accountModel.db.State();
      var found := accountModel.FindAccountByUserId(userId);
      if found.None? {
        return Failure(AccountNotFound, 404);
      }
      var account := found.value;
      var currentBalance := account.balance;
      if amount > currentBalance {
        return Failure(InsufficientFunds, 402);
      }
      FoundRowFacts(before, account);
      ghost var read := account;
      account := account.(balance := currentBalance - amount);
      var updated := accountModel.UpdateAccount(account.id, account.balance);
      assert updated == Ok(1);  // the row was just read, so the update finds it
      ghost var mid := accountModel.db.State();
      // Not awaited by the caller: the outcome does not affect the response.
      var logged := accountModel.CreateTransaction(NewTransaction(userId, Withdraw, amount));
      assert logged == Pass;
      r := AccountApiResponse(SuccessMsg, 200, Some(account), None);
      WithdrawCommitted(before, mid, accountModel.db.State(), userId, amount, read);
    }

    /**
     * Moves `amount` cents from `senderId`'s account to the account of the
     * user with e-mail `receiverEmail`, after the checks of `TransferStep`;
     * both balances change in one atomic update, then a `transferOut` and a
     * `transferIn` record are logged.
     */
    method TransferAmount(senderId: nat, amount: int, receiverEmail: string) returns (r: AccountApiResponse)
      requires amount > 0
      requires Valid()
      modifies accountModel.db
      ensures Valid()
      ensures r == TransferStep(old(accountModel.db.State()), senderId, amount, receiverEmail).response
      ensures accountModel.db.State() == TransferStep(old(accountModel.db.State()), senderId, amount, receiverEmail).after
    {
      ghost var before := accountModel.db.State();
      var found := accountModel.FindAccountByUserId(senderId);
      if found.None? {
        return Failure(AccountNotFound, 404);
      }
      var senderAccount := found.value;
      var senderBalance := senderAccount.balance;
      if amount > senderBalance {
        return Failure(InsufficientFunds, 402);
      }
      var receiverFound := accountModel.FindAccountByEmail(receiverEmail);
      if receiverFound.None? {
        return Failure(ReceiverAccountNotFound, 404);
      }
      var receiverAccount := receiverFound.value;
      if receiverAccount.id == senderAccount.id {
        return Failure(TransferSameAccountError, 402);
      }
      FoundRowFacts(before, senderAccount);
      FoundRowFacts(before, receiverAccount);
      ghost var sa, ra := senderAccount, receiverAccount;
      var updatedSenderBalance := senderBalance - amount;
      var updatedReceiverBalance := receiverAccount.balance + amount;
      senderAccount := senderAccount.(balance := updatedSenderBalance);
      receiverAccount := receiverAccount.(balance := updatedReceiverBalance);
      var updated := accountModel.UpdateTransfer(senderAccount.id, senderAccount.balance,
                                                 receiverAccount.id, receiverAccount.balance);
      assert updated == Ok(1);  // both rows were just read, so neither update misses
      ghost var moved := accountModel.db.State();
      // Neither append is awaited by the caller: their outcomes do not affect the response.
      var loggedOut := accountModel.CreateTransaction(NewTransaction(senderId, TransferOut, amount));
      assert loggedOut == Pass;
      ghost var mid := accountModel.db.State();
      var loggedIn := accountModel.CreateTransaction(NewTransaction(receiverAccount.userId, TransferIn, amount));
      assert loggedIn == Pass;
      r := AccountApiResponse(SuccessMsg, 200, Some(senderAccount), None);
      TransferCommitted(before, moved, mid, accountModel.db.State(), senderId, amount, receiverEmail,
                        sa, ra, senderAccount, receiverAccount);
    }

    /**
     * The account of `userId` with its owner's profile, 200; 404 when the
     * joined row is absent. A query: it changes nothing.
     */
    function GetUserAccount(userId: nat): (r: AccountApiResponse)
      reads accountModel.db
      ensures accountModel.FindUserAndAccountById(userId).None? ==> r == Failure(AccountNotFound, 404)
      ensures accountModel.FindUserAndAccountById(userId).Some? ==>
        var row := accountModel.FindUserAndAccountById(userId).value;
        && r.statusCode == 200 && r.message == SuccessMsg
        && r.account == Some(Account(row.id, row.userId, row.balance))
        && r.user == Some(Profile(row))
      ensures r.statusCode == 200 ==> r.account.Some? && r.account.value in accountModel.db.accounts
      ensures r.statusCode == 200 ==> r.user.Some? && r.user.value.id == userId && r.account.value.userId == userId
    {
      match accountModel.FindUserAndAccountById(userId)
      case None => Failure(AccountNotFound, 404)
      case Some(row) =>
        AccountApiResponse(SuccessMsg, 200, Some(Account(row.id, row.userId, row.balance)), Some(Profile(row)))
    }
  }
}
