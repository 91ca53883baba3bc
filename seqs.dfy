/**
 * Generic queries over the rows of a table, in table order: the first row a
 * condition selects (knex `.where(...).first()`) and every row it selects
 * (knex `.where(...)`).
 */
module Seqs {
  import opened Wrappers

  /** The position of the first row at or after `from` that satisfies `p`. */
  function FirstIndexFrom<T>(rows: seq<T>, p: T -> bool, from: nat): (r: Option<nat>)
    requires from <= |rows|
    ensures r.Some? ==> from <= r.value < |rows| && p(rows[r.value])
    ensures r.Some? ==> forall j :: from <= j < r.value ==> !p(rows[j])
    ensures r.None? <==> forall j :: from <= j < |rows| ==> !p(rows[j])
    decreases |rows| - from
  {
    if from == |rows| then None
    else if p(rows[from]) then Some(from)
    else FirstIndexFrom(rows, p, from + 1)
  }

  /**
   * Two tables of the same length in which `p` selects the same positions
   * have their first selected row at the same position.
   */
  lemma {:induction false} FirstIndexSameSelection<T>(rows: seq<T>, other: seq<T>, p: T -> bool, from: nat)
    requires |rows| == |other| && from <= |rows|
    requires forall i :: from <= i < |rows| ==> p(rows[i]) == p(other[i])
    ensures FirstIndexFrom(rows, p, from) == FirstIndexFrom(other, p, from)
    decreases |rows| - from
  {
    if from < |rows| && !p(rows[from]) {
      FirstIndexSameSelection(rows, other, p, from + 1);
    }
  }

  /**
   * Two conditions that agree on every row of a table select the same first
   * position in it.
   */
  lemma {:induction false} FirstIndexSameCondition<T>(rows: seq<T>, p: T -> bool, q: T -> bool, from: nat)
    requires from <= |rows|
    requires forall i :: from <= i < |rows| ==> p(rows[i]) == q(rows[i])
    ensures FirstIndexFrom(rows, p, from) == FirstIndexFrom(rows, q, from)
    decreases |rows| - from
  {
    if from < |rows| && !p(rows[from]) {
      FirstIndexSameCondition(rows, p, q, from + 1);
    }
  }

  /** The first row that satisfies `p`, or `None` when no row does. */
  function FirstWhere<T(!new)>(rows: seq<T>, p: T -> bool): (r: Option<T>)
    ensures r.Some? ==> r.value in rows && p(r.value)
    ensures r.None? <==> forall x :: x in rows ==> !p(x)
  {
    match FirstIndexFrom(rows, p, 0)
    case None => None
    case Some(k) => Some(rows[k])
  }

  /** Every row that satisfies `p`, in table order. */
  function FilterWhere<T(!new)>(rows: seq<T>, p: T -> bool): (r: seq<T>)
    ensures |r| <= |rows|
    ensures forall x :: x in r <==> x in rows && p(x)
    ensures r == [] <==> forall x :: x in rows ==> !p(x)
  {
    if rows == [] then []
    else
      assert rows == [rows[0]] + rows[1..];
      (if p(rows[0]) then [rows[0]] else []) + FilterWhere(rows[1..], p)
  }
}
