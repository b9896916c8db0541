/** Operations on strings as the source uses them: Rust's ordering of
    `String` and `str::trim`. */
module Text {

  /** Lexicographic order written out: `x` is a proper prefix of `y`, or at
      the first position where they differ `x` has the smaller character. */
  ghost predicate LexLess(x: string, y: string)
  {
    (|x| < |y| && x == y[..|x|])
    || exists k :: 0 <= k < |x| && k < |y| && x[..k] == y[..k] && x[k] < y[k]
  }

  /** A `LexLess` of the rests is one of the whole strings when the first
      characters agree. */
  lemma LexLessCons(x: string, y: string)
    requires |x| > 0 && |y| > 0 && x[0] == y[0]
    requires LexLess(x[1..], y[1..])
    ensures LexLess(x, y)
  {
    var x', y' := x[1..], y[1..];
    if |x'| < |y'| && x' == y'[..|x'|] {
      assert y[..|x|] == [y[0]] + y'[..|x'|];
      assert x == [x[0]] + x';
    } else {
      var k :| 0 <= k < |x'| && k < |y'| && x'[..k] == y'[..k] && x'[k] < y'[k];
      assert x[..k + 1] == [x[0]] + x'[..k] && y[..k + 1] == [y[0]] + y'[..k];
      assert x[k + 1] == x'[k] && y[k + 1] == y'[k];
    }
  }

  /** A `LexLess` of two strings with the same first character is one of
      their rests. */
  lemma LexLessUncons(x: string, y: string)
    requires |x| > 0 && |y| > 0 && x[0] == y[0]
    requires LexLess(x, y)
    ensures LexLess(x[1..], y[1..])
  {
    var x', y' := x[1..], y[1..];
    if |x| < |y| && x == y[..|x|] {
      assert x' == y'[..|x'|];
    } else {
      var k :| 0 <= k < |x| && k < |y| && x[..k] == y[..k] && x[k] < y[k];
      assert k > 0;
      assert x'[..k - 1] == x[1..k] == y[1..k] == y'[..k - 1];
      assert x'[k - 1] == x[k];
    }
  }

  /** Equal first characters do not decide `LexLess`: the rests do. */
  lemma LexLessTail(x: string, y: string)
    requires |x| > 0 && |y| > 0 && x[0] == y[0]
    ensures LexLess(x, y) <==> LexLess(x[1..], y[1..])
  {
    if LexLess(x, y) {
      LexLessUncons(x, y);
    }
    if LexLess(x[1..], y[1..]) {
      LexLessCons(x, y);
    }
  }

  /** Different first characters decide `LexLess`. */
  lemma LexLessHead(x: string, y: string)
    requires |x| > 0 && |y| > 0 && x[0] != y[0]
    ensures LexLess(x, y) <==> x[0] < y[0]
  {
    if x[0] < y[0] {
      assert x[..0] == y[..0];
    }
    assert |x| < |y| ==> y[..|x|][0] == y[0];
    if exists k :: 0 <= k < |x| && k < |y| && x[..k] == y[..k] && x[k] < y[k] {
      var k :| 0 <= k < |x| && k < |y| && x[..k] == y[..k] && x[k] < y[k];
      if k > 0 {
        assert x[..k][0] == y[..k][0];
      }
    }
  }

  /** Rust orders `String`s by their UTF-8 bytes, which is the same order as
      comparing code points one by one: lexicographic order on `seq<char>`
      (a proper prefix is smaller). */
  predicate Less(x: string, y: string)
    ensures Less(x, y) <==> LexLess(x, y)
  {
    if |x| == 0 then
      assert |y| > 0 ==> x == y[..0];
      |y| > 0
    else if |y| == 0 then false
    else if x[0] != y[0] then
      LexLessHead(x, y);
      x[0] < y[0]
    else
      LexLessTail(x, y);
      Less(x[1..], y[1..])
  }

  lemma {:induction false} LessIrreflexive(x: string)
    ensures !Less(x, x)
  {
    if |x| > 0 { LessIrreflexive(x[1..]); }
  }

  lemma {:induction false} LessAsymmetric(x: string, y: string)
    ensures Less(x, y) ==> !Less(y, x)
  {
    if |x| > 0 && |y| > 0 && x[0] == y[0] { LessAsymmetric(x[1..], y[1..]); }
  }

  /** Two different strings are always ordered one way or the other. */
  lemma {:induction false} LessTotal(x: string, y: string)
    ensures x != y ==> Less(x, y) || Less(y, x)
  {
    if |x| > 0 && |y| > 0 && x[0] == y[0] {
      if x != y {
        assert x == [x[0]] + x[1..] && y == [y[0]] + y[1..];
      }
      LessTotal(x[1..], y[1..]);
    }
  }

  /** The characters with the Unicode White_Space property, one by one. */
  const WhiteSpace: set<char> := {
    '\U{9}', '\U{A}', '\U{B}', '\U{C}', '\U{D}', ' ', '\U{85}', '\U{A0}', '\U{1680}',
    '\U{2000}', '\U{2001}', '\U{2002}', '\U{2003}', '\U{2004}', '\U{2005}',
    '\U{2006}', '\U{2007}', '\U{2008}', '\U{2009}', '\U{200A}',
    '\U{2028}', '\U{2029}', '\U{202F}', '\U{205F}', '\U{3000}'
  }

  /** Rust's `char::is_whitespace`, written with ranges. */
  predicate IsWhitespace(ch: char)
  {
    ('\U{9}' <= ch <= '\U{D}') || ch == ' ' || ch == '\U{85}' || ch == '\U{A0}'
    || ch == '\U{1680}' || ('\U{2000}' <= ch <= '\U{200A}') || ch == '\U{2028}'
    || ch == '\U{2029}' || ch == '\U{202F}' || ch == '\U{205F}' || ch == '\U{3000}'
  }

  /** The ranges of `IsWhitespace` hold exactly the White_Space
      characters. */
  lemma WhitespaceIsWhiteSpace(ch: char)
    ensures IsWhitespace(ch) <==> ch in WhiteSpace
  {
  }

  /** Neither end of `s` is whitespace. */
  predicate IsTrimmed(s: string)
  {
    s == [] || (!IsWhitespace(s[0]) && !IsWhitespace(s[|s| - 1]))
  }

  /** `str::trim_start`: drops the leading whitespace, and nothing else. */
  function TrimStart(s: string): (r: string)
    ensures |r| <= |s| && r == s[|s| - |r|..]
    ensures forall i :: 0 <= i < |s| - |r| ==> IsWhitespace(s[i])
    ensures r == [] || !IsWhitespace(r[0])
  {
    if |s| > 0 && IsWhitespace(s[0]) then TrimStart(s[1..]) else s
  }

  /** `str::trim_end`: drops the trailing whitespace, and nothing else. */
  function TrimEnd(s: string): (r: string)
    ensures |r| <= |s| && r == s[..|r|]
    ensures forall i :: |r| <= i < |s| ==> IsWhitespace(s[i])
    ensures r == [] || !IsWhitespace(r[|r| - 1])
  {
    if |s| > 0 && IsWhitespace(s[|s| - 1]) then TrimEnd(s[..|s| - 1]) else s
  }

  /** `str::trim`: the result is trimmed, it is a contiguous piece of `s`
      starting at `lead`, and everything cut off on either side is
      whitespace. */
  function Trim(s: string): (r: string)
    ensures IsTrimmed(r)
    ensures var lead := |s| - |TrimStart(s)|;
      lead + |r| <= |s| && r == s[lead..lead + |r|]
      && (forall i :: 0 <= i < lead ==> IsWhitespace(s[i]))
      && (forall i :: lead + |r| <= i < |s| ==> IsWhitespace(s[i]))
  {
    var t := TrimStart(s);
    var r := TrimEnd(t);
    TrimPieces(s, t, r);
    r
  }

  /** Trimming the end after the start keeps a contiguous middle piece. */
  lemma TrimPieces(s: string, t: string, r: string)
    requires |t| <= |s| && t == s[|s| - |t|..] && (t == [] || !IsWhitespace(t[0]))
    requires |r| <= |t| && r == t[..|r|] && (r == [] || !IsWhitespace(r[|r| - 1]))
    requires forall i :: |r| <= i < |t| ==> IsWhitespace(t[i])
    ensures IsTrimmed(r)
    ensures var lead := |s| - |t|;
      lead + |r| <= |s| && r == s[lead..lead + |r|]
      && (forall i :: lead + |r| <= i < |s| ==> IsWhitespace(s[i]))
  {
    var lead := |s| - |t|;
    if r != [] {
      assert r[0] == t[0];
    }
    assert r == s[lead..][..|r|];
    forall i | lead + |r| <= i < |s|
      ensures IsWhitespace(s[i])
    {
      assert s[i] == t[i - lead];
    }
  }

  /** Trimming a string that is already trimmed changes nothing, so `Trim` is
      idempotent. */
  lemma TrimTrimmed(s: string)
    ensures IsTrimmed(s) ==> Trim(s) == s
  {
    if IsTrimmed(s) {
      assert TrimStart(s) == s;
    }
  }

  lemma TrimIdempotent(s: string)
    ensures Trim(Trim(s)) == Trim(s)
  {
    TrimTrimmed(Trim(s));
  }
}
