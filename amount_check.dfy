/**
 * The check the three account endpoints run on the body's `amount` before
 * calling the ledger, and the number they pass on to it. The check tests the
 * raw body value, while the number passed on is what `parseFloat` reads from
 * it; for a string the two can disagree.
 */
module AmountCheck {
  import opened Wrappers
  import opened Interfaces
  import opened Tables
  import opened Database
  import opened AccountStore
  import opened Ledger

  /**
   * The `amount` field of a JSON body, in cents. A string is kept with the
   * two numbers JavaScript makes of it: `prefix`, what `parseFloat` reads
   * from its longest numeric prefix, and `whole`, what the coercion applied
   * by `<=` reads from the whole string. `None` stands for NaN.
   */
  datatype BodyAmount =
    | Absent
    | JsonNumber(value: int)
    | JsonText(text: string, prefix: Option<int>, whole: Option<int>)

  /** JavaScript truthiness of the field: present, and not 0 or the empty string. */
  predicate Truthy(v: BodyAmount) {
    match v
    case Absent => false
    case JsonNumber(n) => n != 0
    case JsonText(t, _, _) => t != []
  }

  /** `parseFloat(amount)`. */
  function ParseFloat(v: BodyAmount): Option<int> {
    match v
    case Absent => None
    case JsonNumber(n) => Some(n)
    case JsonText(_, p, _) => p
  }

  /** `amount <= 0` on the raw value: a comparison with NaN is false. */
  predicate AtMostZero(v: BodyAmount) {
    match v
    case Absent => false
    case JsonNumber(n) => n <= 0
    case JsonText(_, _, w) => w.Some? && w.value <= 0
  }

  /**
   * The check as the endpoints write it: refused (`None`, answered with 400
   * INVALID_AMOUNT) when the value is falsy, unreadable by `parseFloat` or at
   * most 0; otherwise the number `parseFloat` reads is passed on.
   */
  function CheckAmountAsWritten(v: BodyAmount): (r: Option<int>)
    ensures r.Some? ==> Truthy(v) && r == ParseFloat(v)
    ensures r.None? <==> !Truthy(v) || ParseFloat(v).None? || AtMostZero(v)
  {
    if !Truthy(v) || ParseFloat(v).None? || AtMostZero(v) then None
    else ParseFloat(v)
  }

  /** On a JSON number the check as written does what it means: only positive amounts pass. */
  lemma AsWrittenNumbersArePositive(n: int)
    ensures CheckAmountAsWritten(JsonNumber(n)).Some? <==> n > 0
    ensures CheckAmountAsWritten(JsonNumber(n)).Some? ==> CheckAmountAsWritten(JsonNumber(n)).value == n
  {
  }

  /**
   * The check on the number that is passed on: refused unless `parseFloat`
   * reads a positive amount, so the ledger's precondition always holds.
   */
  function CheckAmount(v: BodyAmount): (r: Option<int>)
    ensures r.Some? ==> r.value > 0 && r == ParseFloat(v)
    ensures r.None? <==> !Truthy(v) || ParseFloat(v).None? || ParseFloat(v).value <= 0
  {
    if !Truthy(v) then None
    else match ParseFloat(v)
      case Some(n) => if n > 0 then Some(n) else None
      case None => None
  }

  /** For a JSON number the corrected check and the check as written agree. */
  lemma ChecksAgreeOnNumbers(n: int)
    ensures CheckAmount(JsonNumber(n)) == CheckAmountAsWritten(JsonNumber(n))
  {
  }

  /** Whatever the corrected check passes on, fund, withdraw and transfer keep every balance non-negative. */
  lemma CheckedAmountKeepsLedgerValid(s: DbState, v: BodyAmount, userId: nat, receiverEmail: string)
    requires LedgerValid(s) && CheckAmount(v).Some?
    ensures LedgerValid(FundStep(s, userId, CheckAmount(v).value).after)
    ensures LedgerValid(WithdrawStep(s, userId, CheckAmount(v).value).after)
    ensures LedgerValid(TransferStep(s, userId, CheckAmount(v).value, receiverEmail).after)
  {
    var amount := CheckAmount(v).value;
    FundStepKeepsLedgerValid(s, userId, amount);
    WithdrawStepKeepsLedgerValid(s, userId, amount);
    TransferStepKeepsLedgerValid(s, userId, amount, receiverEmail);
  }

  /** Two users, Ann (user 1, account 1) and Bob (user 2, account 2), both at balance 0. */
  function TwoEmptyAccounts(): DbState {
    DbState(
      [User(1, "ann@x.io", "Ann", "1990-01-01", 1, "Lagos", "1 Main St", "secret"),
       User(2, "bob@x.io", "Bob", "1990-01-01", 1, "Lagos", "2 Main St", "secret")],
      [Account(1, 1, 0), Account(2, 2, 0)],
      [], 3, 3, 1)
  }

  /**
   * The check as written lets the string "-5abc" through as -5. A transfer of
   * -5 from Ann to Bob then credits Ann and leaves Bob at -5, on a store
   * that kept every guarantee before.
   */
  lemma AsWrittenLetsNegativeTransferThrough()
    ensures CheckAmountAsWritten(JsonText("-5abc", Some(-5), None)) == Some(-5)
    ensures LedgerValid(TwoEmptyAccounts())
    ensures TransferStep(TwoEmptyAccounts(), 1, -5, "bob@x.io").after.accounts == [Account(1, 1, 5), Account(2, 2, -5)]
    ensures !Solvent(TransferStep(TwoEmptyAccounts(), 1, -5, "bob@x.io").after.accounts)
  {
    var s := TwoEmptyAccounts();
    assert UserKeyAt(s.users, 0) == 1 && UserKeyAt(s.users, 1) == 2;
    assert FoldCase(EmailAt(s.users, 0))[0] == 'a' && FoldCase(EmailAt(s.users, 1))[0] == 'b';
    assert KeyAt(s.accounts, 0) == 1 && KeyAt(s.accounts, 1) == 2;
    assert s.users[0].id == 1 && s.users[1].id == 2;
    assert OwnerHasEmail(s.users, 2, "bob@x.io");
    assert !OwnerHasEmail(s.users, 1, "bob@x.io") by {
      assert FoldCase("ann@x.io")[0] == 'a' && FoldCase("bob@x.io")[0] == 'b';
    }
    assert AccountOfUser(s.accounts, 1) == Some(Account(1, 1, 0));
    assert AccountOfEmail(s.users, s.accounts, "bob@x.io") == Some(Account(2, 2, 0));
    TransferShape(s, 1, -5, "bob@x.io", Account(1, 1, 0), Account(2, 2, 0));
    var after := TransferStep(s, 1, -5, "bob@x.io").after;
    assert after.accounts[1].balance == -5;
  }
}
