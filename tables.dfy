/**
 * The `accounts` table as a sequence of rows in primary-key order, and the
 * single-statement update `UPDATE accounts SET balance = b WHERE id = i`
 * that every balance change goes through.
 */
module Tables {
  import opened Interfaces

  /**
   * The primary key of the row at position `i`. The key constraints below
   * are stated through it, so that the solver only compares keys that a
   * proof asks about.
   */
  function KeyAt(rows: seq<Account>, i: nat): nat
    requires i < |rows|
  {
    rows[i].id
  }

  /** Primary keys: strictly ascending, hence distinct. */
  ghost predicate IdsAscending(rows: seq<Account>) {
    forall i, j :: 0 <= i < j < |rows| ==> KeyAt(rows, i) < KeyAt(rows, j)
  }

  /** Two different positions hold different keys. */
  lemma KeysDistinct(rows: seq<Account>, i: nat, j: nat)
    requires IdsAscending(rows) && i < |rows| && j < |rows| && i != j
    ensures rows[i].id != rows[j].id
  {
    if i < j {
      assert KeyAt(rows, i) < KeyAt(rows, j);
    } else {
      assert KeyAt(rows, j) < KeyAt(rows, i);
    }
  }

  /** The rows after the first keep ascending keys, all above the first key. */
  lemma AscendingTail(rows: seq<Account>)
    requires rows != []
    ensures IdsAscending(rows) ==> IdsAscending(rows[1..])
    ensures IdsAscending(rows) ==> forall i :: 1 <= i < |rows| ==> rows[0].id < rows[i].id
  {
    if IdsAscending(rows) {
      forall i, j | 0 <= i < j < |rows| - 1
        ensures KeyAt(rows[1..], i) < KeyAt(rows[1..], j)
      {
        assert KeyAt(rows, i + 1) < KeyAt(rows, j + 1);
      }
      forall i | 1 <= i < |rows|
        ensures rows[0].id < rows[i].id
      {
        assert KeyAt(rows, 0) < KeyAt(rows, i);
      }
    }
  }

  /** Some row has primary key `id`. */
  predicate HasAccountId(rows: seq<Account>, id: nat) {
    exists i :: 0 <= i < |rows| && rows[i].id == id
  }

  /** No balance is negative: the ledger's invariant (the column itself does not enforce it). */
  ghost predicate Solvent(rows: seq<Account>) {
    forall i :: 0 <= i < |rows| ==> rows[i].balance >= 0
  }

  /** The table after `UPDATE accounts SET balance = :balance WHERE id = :id`. */
  function SetBalance(rows: seq<Account>, id: nat, balance: int): (r: seq<Account>)
    ensures |r| == |rows|
  {
    seq(|rows|, i requires 0 <= i < |rows| => if rows[i].id == id then rows[i].(balance := balance) else rows[i])
  }

  /** The number of rows that update reports as affected. */
  function CountId(rows: seq<Account>, id: nat): (n: nat)
    ensures n == 0 <==> !HasAccountId(rows, id)
    ensures IdsAscending(rows) ==> n <= 1
  {
    if rows == [] then 0
    else
      assert forall i :: 1 <= i < |rows| ==> rows[i] == rows[1..][i - 1];
      AscendingTail(rows);
      (if rows[0].id == id then 1 else 0) + CountId(rows[1..], id)
  }

  /** Setting a non-negative balance keeps every balance non-negative. */
  lemma SetBalanceKeepsSolvent(rows: seq<Account>, id: nat, balance: int)
    requires Solvent(rows) && balance >= 0
    ensures Solvent(SetBalance(rows, id, balance))
  {
  }

  /** The money held in all accounts together. */
  function TotalBalance(rows: seq<Account>): int {
    if rows == [] then 0 else rows[0].balance + TotalBalance(rows[1..])
  }

  /** An update changes no primary key, so the same keys are present afterwards. */
  lemma SetBalanceKeepsKeys(rows: seq<Account>, id: nat, balance: int, key: nat)
    ensures HasAccountId(SetBalance(rows, id, balance), key) <==> HasAccountId(rows, key)
  {
    var r := SetBalance(rows, id, balance);
    if HasAccountId(r, key) {
      var i :| 0 <= i < |r| && r[i].id == key;
      assert rows[i].id == key;
    }
    if HasAccountId(rows, key) {
      var i :| 0 <= i < |rows| && rows[i].id == key;
      assert r[i].id == key;
    }
  }

  /** An update that matches no row changes nothing. */
  lemma SetBalanceAbsent(rows: seq<Account>, id: nat, balance: int)
    requires !HasAccountId(rows, id)
    ensures SetBalance(rows, id, balance) == rows
  {
  }

  /** Setting one row's balance changes the total by exactly the difference. */
  lemma {:induction false} SetBalanceTotal(rows: seq<Account>, k: nat, balance: int)
    requires IdsAscending(rows)
    requires k < |rows|
    ensures TotalBalance(SetBalance(rows, rows[k].id, balance)) == TotalBalance(rows) - rows[k].balance + balance
  {
    var id := rows[k].id;
    var r := SetBalance(rows, id, balance);
    AscendingTail(rows);
    assert r == [r[0]] + SetBalance(rows[1..], id, balance);
    assert r[1..] == SetBalance(rows[1..], id, balance);
    if k == 0 {
      assert !HasAccountId(rows[1..], id);
      SetBalanceAbsent(rows[1..], id, balance);
    } else {
      SetBalanceTotal(rows[1..], k - 1, balance);
    }
  }

  /** Updating the balance of a row of the table changes the total by the difference and no other row. */
  lemma UpdateRow(rows: seq<Account>, a: Account, balance: int)
    requires IdsAscending(rows) && a in rows
    ensures TotalBalance(SetBalance(rows, a.id, balance)) == TotalBalance(rows) - a.balance + balance
    ensures forall i :: 0 <= i < |rows| && rows[i].id != a.id ==> SetBalance(rows, a.id, balance)[i] == rows[i]
  {
    var k :| 0 <= k < |rows| && rows[k] == a;
    SetBalanceTotal(rows, k, balance);
  }

  /** Putting a row's old balance back restores the whole table: a deposit and an equal withdrawal cancel. */
  lemma SetBalanceRestores(rows: seq<Account>, a: Account, balance: int)
    requires IdsAscending(rows) && a in rows
    ensures SetBalance(SetBalance(rows, a.id, balance), a.id, a.balance) == rows
  {
    var r := SetBalance(SetBalance(rows, a.id, balance), a.id, a.balance);
    forall i | 0 <= i < |rows|
      ensures r[i] == rows[i]
    {
      if rows[i].id == a.id {
        RowOfKey(rows, a, i);
      }
    }
  }

  /** An update keeps the keys ascending and every row with another key in the table. */
  lemma SetBalanceKeepsOthers(rows: seq<Account>, id: nat, balance: int, b: Account)
    requires IdsAscending(rows) && b in rows && b.id != id
    ensures IdsAscending(SetBalance(rows, id, balance)) && b in SetBalance(rows, id, balance)
  {
    var r := SetBalance(rows, id, balance);
    var k :| 0 <= k < |rows| && rows[k] == b;
    assert r[k] == b;
    forall i, j | 0 <= i < j < |r|
      ensures KeyAt(r, i) < KeyAt(r, j)
    {
      assert KeyAt(rows, i) < KeyAt(rows, j);
    }
  }

  /** Moving `amount` from row `from` to a different row `to` keeps the total. */
  lemma MoveKeepsTotal(rows: seq<Account>, from: Account, to: Account, amount: int)
    requires IdsAscending(rows) && from in rows && to in rows && from.id != to.id
    ensures TotalBalance(SetBalance(SetBalance(rows, from.id, from.balance - amount), to.id, to.balance + amount))
         == TotalBalance(rows)
  {
    UpdateRow(rows, from, from.balance - amount);
    SetBalanceKeepsOthers(rows, from.id, from.balance - amount, to);
    UpdateRow(SetBalance(rows, from.id, from.balance - amount), to, to.balance + amount);
  }

  /** The row with key `id` is `a` itself. */
  lemma RowOfKey(rows: seq<Account>, a: Account, i: nat)
    requires IdsAscending(rows) && a in rows && i < |rows| && rows[i].id == a.id
    ensures rows[i] == a
  {
    var k :| 0 <= k < |rows| && rows[k] == a;
    if i != k {
      KeysDistinct(rows, i, k);
    }
  }

  /**
   * After moving `amount` from row `from` to a different row `to`, those
   * two rows hold their new balances and every other row is as it was.
   */
  lemma MoveRows(rows: seq<Account>, from: Account, to: Account, amount: int)
    requires IdsAscending(rows) && from in rows && to in rows && from.id != to.id
    ensures var moved := SetBalance(SetBalance(rows, from.id, from.balance - amount), to.id, to.balance + amount);
      forall i :: 0 <= i < |rows| ==>
        moved[i] == if rows[i].id == from.id then from.(balance := from.balance - amount)
                    else if rows[i].id == to.id then to.(balance := to.balance + amount)
                    else rows[i]
  {
    forall i | 0 <= i < |rows| && (rows[i].id == from.id || rows[i].id == to.id)
      ensures rows[i] == if rows[i].id == from.id then from else to
    {
      if rows[i].id == from.id { RowOfKey(rows, from, i); } else { RowOfKey(rows, to, i); }
    }
  }
}
