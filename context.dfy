/** The context builder (`get_examples`): up to five stored facts touching
    each operand, adjacent duplicates removed, rendered one per line. */
module Examples {
  import opened Base
  import opened Seqs
  import opened Pairs
  import opened Answers

  /** How many rows are taken from `find_triples` for each operand. */
  const PerOperand: nat := 5

  /** `Iterator::take`. */
  function Take<T>(s: seq<T>, n: nat): (r: seq<T>)
    ensures |r| == if |s| <= n then |s| else n
    ensures r == s[..|r|]
  {
    if |s| <= n then s else s[..n]
  }

  predicate NoAdjacentDuplicates<T(==)>(s: seq<T>)
  {
    forall i :: 0 < i < |s| ==> s[i - 1] != s[i]
  }

  /** `Vec::dedup`: of every run of equal neighbours, only the first stays.
      The result is never longer and ends with the same element. */
  function Dedup<T(==)>(s: seq<T>): (r: seq<T>)
    ensures |r| <= |s|
    ensures s != [] ==> r != [] && r[|r| - 1] == s[|s| - 1]
    decreases |s|
  {
    if |s| <= 1 then s
    else
      var init, last := s[..|s| - 1], s[|s| - 1];
      if last == init[|init| - 1] then Dedup(init) else Dedup(init) + [last]
  }

  /** Position `i` holds the same element as its left neighbour. */
  predicate Repeated<T(==)>(s: seq<T>, i: nat)
  {
    0 < i < |s| && s[i - 1] == s[i]
  }

  /** The positions whose element equals its left neighbour. */
  function Repeats<T(==)>(s: seq<T>): set<nat>
  {
    set i: nat | i < |s| && Repeated(s, i)
  }

  /** `Dedup` drops exactly one element per repeat. With `DedupSubsequence`
      and `DedupNoAdjacent` this fixes the result: a subsequence without
      adjacent duplicates can take at most one element of each run of equal
      neighbours, and this many elements means one of every run. */
  lemma {:induction false} DedupLength<T>(s: seq<T>)
    ensures |Dedup(s)| == |s| - |Repeats(s)|
    decreases |s|
  {
    if |s| <= 1 {
      assert Repeats(s) == {};
    } else {
      var init, last := s[..|s| - 1], s[|s| - 1];
      DedupLength(init);
      var top: set<nat> := if last == init[|init| - 1] then {|s| - 1} else {};
      assert forall i :: 0 <= i < |init| ==> s[i] == init[i];
      assert Repeats(s) == Repeats(init) + top;
      assert |s| - 1 !in Repeats(init);
    }
  }

  /** One step of `Dedup`: an element equal to the previous one is dropped,
      any other is kept. */
  lemma DedupSnoc<T>(s: seq<T>, x: T)
    ensures Dedup(s + [x]) == if s != [] && x == s[|s| - 1] then Dedup(s) else Dedup(s) + [x]
  {
    assert (s + [x])[..|s|] == s;
  }

  /** `DedupSnoc` for a prefix of `s` growing by one position. */
  lemma DedupStep<T>(s: seq<T>, i: nat)
    requires 0 < i < |s|
    ensures Dedup(s[..i + 1]) == if s[i] == s[i - 1] then Dedup(s[..i]) else Dedup(s[..i]) + [s[i]]
  {
    assert s[..i + 1] == s[..i] + [s[i]];
    DedupSnoc(s[..i], s[i]);
  }

  lemma {:induction false} DedupNoAdjacent<T>(s: seq<T>)
    ensures NoAdjacentDuplicates(Dedup(s))
    decreases |s|
  {
    if |s| > 1 {
      DedupNoAdjacent(s[..|s| - 1]);
    }
  }

  /** `Dedup` keeps the order of what it keeps. */
  lemma {:induction false} DedupSubsequence<T>(s: seq<T>)
    ensures IsSubsequence(Dedup(s), s)
    decreases |s|
  {
    if |s| > 1 {
      var init, last := s[..|s| - 1], s[|s| - 1];
      assert s == init + [last];
      DedupSubsequence(init);
      if last == init[|init| - 1] {
        SubsequenceExtend(Dedup(init), init, last);
      } else {
        assert (Dedup(init) + [last])[..|Dedup(init)|] == Dedup(init);
      }
    }
  }

  /** `Dedup` only removes repeats: every value of `s` survives. */
  lemma {:induction false} DedupMembers<T>(s: seq<T>)
    ensures forall x :: x in Dedup(s) <==> x in s
    decreases |s|
  {
    if |s| > 1 {
      var init, last := s[..|s| - 1], s[|s| - 1];
      assert s == init + [last];
      DedupMembers(init);
    }
  }

  /** A sequence without adjacent duplicates is left as it is, so `Dedup` is
      idempotent. */
  lemma {:induction false} DedupKeeps<T>(s: seq<T>)
    requires NoAdjacentDuplicates(s)
    ensures Dedup(s) == s
    decreases |s|
  {
    if |s| > 1 {
      var init := s[..|s| - 1];
      assert s == init + [s[|s| - 1]];
      DedupKeeps(init);
    }
  }

  lemma DedupIdempotent<T>(s: seq<T>)
    ensures Dedup(Dedup(s)) == Dedup(s)
  {
    DedupNoAdjacent(s);
    DedupKeeps(Dedup(s));
  }

  /** Writing `x` at position `len` extends the prefix before it by `x`. */
  lemma UpdatePrefix<T>(before: seq<T>, after: seq<T>, len: nat, x: T)
    requires len < |before| && after == before[len := x]
    ensures after[..len + 1] == before[..len] + [x]
  {
  }

  /** `merged.dedup()` in place: the array is compacted and `len` is the
      length it is truncated to. */
  method DedupInPlace<T(==)>(a: array<T>) returns (len: nat)
    modifies a
    ensures len <= a.Length
    ensures a[..len] == Dedup(old(a[..]))
  {
    ghost var s := a[..];
    if a.Length == 0 {
      return 0;
    }
    len := 1;
    var i := 1;
    assert s[..1] == [s[0]];
    while i < a.Length
      invariant 1 <= len <= i <= a.Length
      invariant forall k :: i <= k < a.Length ==> a[k] == s[k]
      invariant a[..len] == Dedup(s[..i])
      invariant a[len - 1] == s[i - 1]
    {
      DedupStep(s, i);
      if a[i] != a[len - 1] {
        ghost var before := a[..];
        a[len] := a[i];
        assert a[..] == before[len := s[i]];
        UpdatePrefix(before, a[..], len, s[i]);
        len := len + 1;
      }
      i := i + 1;
    }
    assert s[..a.Length] == s;
  }

  /** One context line, `format!("% {} + {} = {}", x.a, x.b, x.c)`. */
  function Line(t: Triple): (r: string)
    ensures |r| == |t.a| + |t.b| + |t.c| + 8
    ensures r[..2] == "% " && r[2..2 + |t.a|] == t.a
    ensures r[|r| - |t.c|..] == t.c
  {
    "% " + t.a + " + " + t.b + " = " + t.c
  }

  /** `[String]::join`: the pieces with `sep` between neighbours. */
  function Join(pieces: seq<string>, sep: string): (r: string)
    ensures pieces == [] ==> r == ""
    ensures |pieces| == 1 ==> r == pieces[0]
    ensures pieces != [] ==> pieces[0] <= r
    ensures pieces != [] ==> var last := pieces[|pieces| - 1];
      |last| <= |r| && r[|r| - |last|..] == last
    decreases |pieces|
  {
    if |pieces| == 0 then ""
    else if |pieces| == 1 then pieces[0]
    else
      var init := pieces[..|pieces| - 1];
      assert init[0] == pieces[0];
      Join(init, sep) + sep + pieces[|pieces| - 1]
  }

  /** Joining one more piece adds the separator and that piece. */
  lemma JoinSnoc(pieces: seq<string>, sep: string, p: string)
    requires pieces != []
    ensures Join(pieces + [p], sep) == Join(pieces, sep) + sep + p
  {
    assert (pieces + [p])[..|pieces|] == pieces;
  }

  function Lines(ts: seq<Triple>): (r: seq<string>)
    ensures |r| == |ts| && forall i :: 0 <= i < |ts| ==> r[i] == Line(ts[i])
  {
    seq(|ts|, i requires 0 <= i < |ts| => Line(ts[i]))
  }

  function Render(ts: seq<Triple>): (r: string)
    ensures ts == [] ==> r == ""
    ensures ts != [] ==> Line(ts[0]) <= r
    ensures ts != [] ==> var last := Line(ts[|ts| - 1]);
      |last| <= |r| && r[|r| - |last|..] == last
  {
    Join(Lines(ts), "\n")
  }

  /** The rendering is one line per fact, separated by single newlines. */
  lemma RenderShape(ts: seq<Triple>, t: Triple)
    ensures Render([]) == ""
    ensures Render([t]) == Line(t)
    ensures ts != [] ==> Render(ts + [t]) == Render(ts) + "\n" + Line(t)
  {
    if ts != [] {
      assert Lines(ts + [t]) == Lines(ts) + [Line(t)];
      JoinSnoc(Lines(ts), "\n", Line(t));
    }
  }

  /** The facts `get_examples` collects for `pair`, before rendering. */
  function ContextOf(rows: seq<Triple>, pair: Pair): (r: seq<Triple>)
    ensures |r| <= 2 * PerOperand
    ensures forall t :: t in r ==> t in rows && (Touches(t, pair.a) || Touches(t, pair.b))
  {
    DedupMembers(Take(Matching(rows, pair.a), PerOperand) + Take(Matching(rows, pair.b), PerOperand));
    Dedup(Take(Matching(rows, pair.a), PerOperand) + Take(Matching(rows, pair.b), PerOperand))
  }

  /** What the context is: at most ten stored facts, each touching one of the
      operands, drawn in order from the first five matches of `pair.a`
      followed by the first five of `pair.b`, with no two neighbours equal
      and no value of either prefix lost. */
  lemma ContextFacts(rows: seq<Triple>, pair: Pair)
    ensures var ta := Take(Matching(rows, pair.a), PerOperand);
            var tb := Take(Matching(rows, pair.b), PerOperand);
            var c := ContextOf(rows, pair);
            |c| <= 2 * PerOperand
            && (forall t :: t in c <==> t in ta || t in tb)
            && (forall t :: t in c ==> t in rows && (Touches(t, pair.a) || Touches(t, pair.b)))
            && NoAdjacentDuplicates(c)
            && IsSubsequence(c, ta + tb)
  {
    var ta := Take(Matching(rows, pair.a), PerOperand);
    var tb := Take(Matching(rows, pair.b), PerOperand);
    DedupMembers(ta + tb);
    DedupNoAdjacent(ta + tb);
    DedupSubsequence(ta + tb);
  }

  /** `get_examples`: both lookups must succeed; their failure is the
      request's failure. */
  method GetExamples(store: Store, pair: Pair, faultA: bool, faultB: bool) returns (r: Result<string>)
    ensures faultA || faultB ==> r == Err(StoreFailure)
    ensures !faultA && !faultB ==> r == Ok(Render(ContextOf(store.rows, pair)))
  {
    var ra := store.FindTriples(pair.a, faultA);
    if ra.Err? {
      return Err(ra.error);
    }
    var tsa := Take(ra.value, PerOperand);
    var rb := store.FindTriples(pair.b, faultB);
    if rb.Err? {
      return Err(rb.error);
    }
    var tsb := Take(rb.value, PerOperand);
    var m := tsa + tsb;
    var merged := new Triple[|m|](i requires 0 <= i < |m| => m[i]);
    assert merged[..] == m;
    var len := DedupInPlace(merged);
    r := Ok(Render(merged[..len]));
  }
}
