/** The answer store: the `triple` table with columns a, b, c, kept as the
    sequence of its rows in insertion order (`insert_triple`, `get_triple`,
    `find_triples`, `get_triples`). The table has no uniqueness constraint,
    so the same key may occur in several rows. */
module Answers {
  import opened Base
  import opened Seqs

  datatype Triple = Triple(a: string, b: string, c: string)

  /** The row is stored under the key `(a, b)` (`WHERE a = ? AND b = ?`). */
  predicate HasKey(t: Triple, a: string, b: string)
  {
    t.a == a && t.b == b
  }

  /** `x` occurs in one of the row's columns (`WHERE a = ? OR b = ? OR c = ?`). */
  predicate Touches(t: Triple, x: string)
  {
    t.a == x || t.b == x || t.c == x
  }

  /** The position of the first row stored under `(a, b)`, if there is one. */
  function FirstMatch(rows: seq<Triple>, a: string, b: string): (r: Option<nat>)
    ensures r.Some? ==> r.value < |rows| && HasKey(rows[r.value], a, b)
                        && forall j :: 0 <= j < r.value ==> !HasKey(rows[j], a, b)
    ensures r.None? ==> forall j :: 0 <= j < |rows| ==> !HasKey(rows[j], a, b)
  {
    if rows == [] then None
    else if HasKey(rows[0], a, b) then Some(0)
    else match FirstMatch(rows[1..], a, b)
      case None => None
      case Some(i) => Some(i + 1)
  }

  /** Appending a row does not move an existing first match, and the new row
      is the first match of its key when the key was absent before. */
  lemma {:induction false} FirstMatchAppend(rows: seq<Triple>, t: Triple, a: string, b: string)
    ensures FirstMatch(rows + [t], a, b) ==
      match FirstMatch(rows, a, b)
      case Some(i) => Some(i)
      case None => if HasKey(t, a, b) then Some(|rows|) else None
  {
    var all := rows + [t];
    assert forall j :: 0 <= j < |rows| ==> all[j] == rows[j];
    assert all[|rows|] == t;
  }

  /** The rows that mention `x` in any column, in insertion order. */
  function Matching(rows: seq<Triple>, x: string): (r: seq<Triple>)
    ensures forall t :: t in r <==> t in rows && Touches(t, x)
    ensures forall t :: Touches(t, x) ==> multiset(r)[t] == multiset(rows)[t]
    ensures IsSubsequence(r, rows)
  {
    if rows == [] then []
    else
      var init, last := rows[..|rows| - 1], rows[|rows| - 1];
      assert rows == init + [last];
      var m := Matching(init, x);
      if Touches(last, x) then
        assert (m + [last])[..|m|] == m;
        m + [last]
      else
        m
  }

  /** The in-memory table. Each operation takes a flag saying whether the
      storage engine fails with an I/O error on that call. */
  class Store {
    var rows: seq<Triple>

    constructor ()
      ensures rows == []
    {
      rows := [];
    }

    /** `insert_triple`: appends one row, without looking for an existing
        row under the same key. */
    method InsertTriple(a: string, b: string, c: string, fault: bool) returns (r: Result<()>)
      modifies this
      ensures fault ==> r == Err(StoreFailure) && rows == old(rows)
      ensures !fault ==> r == Ok(()) && rows == old(rows) + [Triple(a, b, c)]
    {
      if fault {
        return Err(StoreFailure);
      }
      rows := rows + [Triple(a, b, c)];
      r := Ok(());
    }

    /** `get_triple`: the first row stored under `(a, b)`; `NotFound` when
        there is none. */
    method GetTriple(a: string, b: string, fault: bool) returns (r: Result<Triple>)
      ensures fault ==> r == Err(StoreFailure)
      ensures !fault ==> r == match FirstMatch(rows, a, b)
                              case Some(i) => Ok(rows[i])
                              case None => Err(NotFound)
    {
      if fault {
        return Err(StoreFailure);
      }
      match FirstMatch(rows, a, b)
      case None => r := Err(NotFound);
      case Some(i) => r := Ok(rows[i]);
    }

    /** `find_triples`: every row that mentions `x`, in insertion order. */
    method FindTriples(x: string, fault: bool) returns (r: Result<seq<Triple>>)
      ensures fault ==> r == Err(StoreFailure)
      ensures !fault ==> r == Ok(Matching(rows, x))
    {
      if fault {
        return Err(StoreFailure);
      }
      r := Ok(Matching(rows, x));
    }

    /** `get_triples`: the whole table, unfiltered. */
    method GetTriples(fault: bool) returns (r: Result<seq<Triple>>)
      ensures fault ==> r == Err(StoreFailure)
      ensures !fault ==> r == Ok(rows)
    {
      if fault {
        return Err(StoreFailure);
      }
      r := Ok(rows);
    }
  }
}
