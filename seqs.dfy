/** Order-preserving selection of elements, used to say that filtering and
    de-duplication keep the original order. */
module Seqs {

  /** `x` can be obtained from `y` by deleting elements (matched greedily
      from the end). */
  predicate IsSubsequence<T(==)>(x: seq<T>, y: seq<T>)
    decreases |y|
  {
    if x == [] then true
    else if y == [] then false
    else if x[|x| - 1] == y[|y| - 1] then IsSubsequence(x[..|x| - 1], y[..|y| - 1])
    else IsSubsequence(x, y[..|y| - 1])
  }

  /** Appending to the larger sequence keeps a subsequence a subsequence. */
  lemma {:induction false} SubsequenceExtend<T>(x: seq<T>, y: seq<T>, e: T)
    requires IsSubsequence(x, y)
    ensures IsSubsequence(x, y + [e])
    decreases |y|, 1
  {
    assert (y + [e])[..|y|] == y;
    if x != [] && x[|x| - 1] == e {
      SubsequenceDropLast(x, y);
    }
  }

  /** Dropping the last element of a subsequence keeps it a subsequence. */
  lemma {:induction false} SubsequenceDropLast<T>(x: seq<T>, y: seq<T>)
    requires x != [] && IsSubsequence(x, y)
    ensures IsSubsequence(x[..|x| - 1], y)
    decreases |y|, 0
  {
    var y' := y[..|y| - 1];
    assert y == y' + [y[|y| - 1]];
    if x[|x| - 1] == y[|y| - 1] {
      SubsequenceExtend(x[..|x| - 1], y', y[|y| - 1]);
    } else {
      SubsequenceDropLast(x, y');
      SubsequenceExtend(x[..|x| - 1], y', y[|y| - 1]);
    }
  }

  /** Every element of a subsequence is an element of the larger sequence. */
  lemma {:induction false} SubsequenceMembers<T>(x: seq<T>, y: seq<T>)
    requires IsSubsequence(x, y)
    ensures forall e :: e in x ==> e in y
    decreases |y|
  {
    if x != [] {
      var y' := y[..|y| - 1];
      assert y == y' + [y[|y| - 1]];
      if x[|x| - 1] == y[|y| - 1] {
        var x' := x[..|x| - 1];
        assert x == x' + [x[|x| - 1]];
        SubsequenceMembers(x', y');
      } else {
        SubsequenceMembers(x, y');
      }
    }
  }

  /** A subsequence is never longer. */
  lemma {:induction false} SubsequenceLength<T>(x: seq<T>, y: seq<T>)
    requires IsSubsequence(x, y)
    ensures |x| <= |y|
    decreases |y|
  {
    if x != [] {
      if x[|x| - 1] == y[|y| - 1] {
        SubsequenceLength(x[..|x| - 1], y[..|y| - 1]);
      } else {
        SubsequenceLength(x, y[..|y| - 1]);
      }
    }
  }
}
