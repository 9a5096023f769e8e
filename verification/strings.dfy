/**
  The handful of Python `str` operations the studio relies on, stated over
  `seq<char>`: substring search (`in`, `find`, `split(sep, 1)`), splitting
  on and joining with a separator, `strip`/`rstrip`, slicing (`s[:n]`) and
  `str(n)` for natural numbers.
 */
module Strings {
  import opened Base

  /** `t` occurs in `s` starting at position `i`. */
  predicate OccursAt(s: string, t: string, i: nat)
  {
    i + |t| <= |s| && s[i..i + |t|] == t
  }

  /** Python's `t in s` for two strings. */
  predicate Contains(s: string, t: string)
  {
    exists i: nat | i <= |s| :: OccursAt(s, t, i)
  }

  /** Python's `s.startswith(t)`. */
  predicate StartsWith(s: string, t: string)
  {
    |t| <= |s| && s[..|t|] == t
  }

  lemma OccursShift(s: string, t: string, k: nat)
    requires |s| > 0
    ensures OccursAt(s[1..], t, k) <==> OccursAt(s, t, k + 1)
  {
    if k + 1 + |t| <= |s| {
      assert s[1..][k..k + |t|] == s[k + 1..k + 1 + |t|];
    }
  }

  lemma IndexOfFoundLater(s: string, t: string, k: nat)
    requires |s| >= |t| && |s| > 0 && s[..|t|] != t
    requires OccursAt(s[1..], t, k)
    requires forall j: nat :: j < k ==> !OccursAt(s[1..], t, j)
    ensures OccursAt(s, t, k + 1)
    ensures forall j: nat :: j < k + 1 ==> !OccursAt(s, t, j)
  {
    OccursShift(s, t, k);
    forall j: nat | j < k + 1
      ensures !OccursAt(s, t, j)
    {
      if j > 0 {
        OccursShift(s, t, j - 1);
      }
    }
  }

  lemma IndexOfNotLater(s: string, t: string)
    requires |s| >= |t| && |s| > 0 && s[..|t|] != t
    requires !Contains(s[1..], t)
    ensures !Contains(s, t)
  {
    forall i: nat | i <= |s| && OccursAt(s, t, i)
      ensures false
    {
      OccursShift(s, t, i - 1);
    }
  }

  /** Position of the first occurrence of `t` in `s` (Python's `s.find(t)`, with `None` for -1). */
  function IndexOf(s: string, t: string): (r: Option<nat>)
    ensures r.Some? ==> OccursAt(s, t, r.value)
    ensures r.Some? ==> forall j: nat :: j < r.value ==> !OccursAt(s, t, j)
    ensures r.None? <==> !Contains(s, t)
    decreases |s|
  {
    if |s| < |t| then None
    else if s[..|t|] == t then assert OccursAt(s, t, 0); Some(0)
    else
      match IndexOf(s[1..], t)
      case None => IndexOfNotLater(s, t); None
      case Some(k) => IndexOfFoundLater(s, t, k); Some(k + 1)
  }

  /**
    Python's `s.split(t, 1)` when `t in s`: the text before and after the
    first occurrence of `t`; `None` when `t` does not occur.
   */
  function SplitOnce(s: string, t: string): (r: Option<(string, string)>)
    requires |t| > 0
    ensures r.None? <==> !Contains(s, t)
    ensures r.Some? ==> s == r.value.0 + t + r.value.1
    ensures r.Some? ==> !Contains(r.value.0, t)
  {
    match IndexOf(s, t)
    case None => None
    case Some(i) =>
      assert s == s[..i] + s[i..i + |t|] + s[i + |t|..];
      assert !Contains(s[..i], t) by {
        forall j: nat | OccursAt(s[..i], t, j)
          ensures false
        {
          assert s[..i][j..j + |t|] == s[j..j + |t|];
          assert OccursAt(s, t, j);
        }
      }
      Some((s[..i], s[i + |t|..]))
  }

  /** Python's `s.split(t)[0]`: everything before the first `t`, or all of `s`. */
  function Before(s: string, t: string): (r: string)
    requires |t| > 0
    ensures StartsWith(s, r)
    ensures !Contains(s, t) ==> r == s
    ensures Contains(s, t) ==> StartsWith(s, r + t) && !Contains(r, t)
  {
    match SplitOnce(s, t)
    case None => s
    case Some((a, b)) =>
      assert s[..|a|] == a;
      assert s[..|a + t|] == a + t;
      a
  }

  /** If `p` has no `t` inside and `t` follows it immediately, the text before the first `t` is `p`. */
  lemma BeforeStops(p: string, t: string, rest: string)
    requires !Contains(p, t)
    requires |t| > 0
    requires forall k: nat :: k < |p| ==> !OccursAt(p + t + rest, t, k)
    ensures Before(p + t + rest, t) == p
  {
    var s := p + t + rest;
    assert OccursAt(s, t, |p|) by { assert s[|p|..|p| + |t|] == t; }
    var i := IndexOf(s, t).value;
    assert i == |p|;
    assert s[..i] == p;
  }

  /** Join `parts` with `sep` in between (Python's `sep.join(parts)`). */
  function Join(parts: seq<string>, sep: string): string
  {
    if |parts| == 0 then ""
    else if |parts| == 1 then parts[0]
    else parts[0] + sep + Join(parts[1..], sep)
  }

  /** A joined text starts with its first part and ends with its last. */
  lemma {:induction false} JoinEnds(parts: seq<string>, sep: string)
    requires |parts| > 0
    ensures parts[0] <= Join(parts, sep)
    ensures var j, last := Join(parts, sep), parts[|parts| - 1];
      |last| <= |j| && j[|j| - |last|..] == last
    decreases |parts|
  {
    if |parts| > 1 {
      JoinEnds(parts[1..], sep);
      var rest, last := Join(parts[1..], sep), parts[|parts| - 1];
      var j := Join(parts, sep);
      assert j == parts[0] + sep + rest;
      assert parts[1..][|parts| - 2] == last;
      assert j[|j| - |last|..] == rest[|rest| - |last|..];
    }
  }

  /** A joined text opens like its first part and closes with the one-character last part. */
  lemma JoinFramed(parts: seq<string>, sep: string, first: string, close: char)
    requires |parts| > 0 && first <= parts[0] && parts[|parts| - 1] == [close]
    ensures var j := Join(parts, sep); first <= j && |j| > 0 && j[|j| - 1] == close
  {
    JoinEnds(parts, sep);
    var j := Join(parts, sep);
    assert j[|j| - 1..] == [close];
  }

  lemma JoinConsHead(x: string, parts: seq<string>, sep: string)
    requires |parts| > 0
    ensures Join([x + parts[0]] + parts[1..], sep) == x + Join(parts, sep)
  {
    var ps := [x + parts[0]] + parts[1..];
    assert ps[1..] == parts[1..];
  }

  /** Python's `s.split(c)` for a one-character separator. */
  function Split(s: string, c: char): (parts: seq<string>)
    ensures |parts| >= 1
    ensures forall i :: 0 <= i < |parts| ==> c !in parts[i]
    ensures Join(parts, [c]) == s
  {
    if |s| == 0 then [""]
    else if s[0] == c then
      var rest := Split(s[1..], c);
      assert Join([""] + rest, [c]) == [c] + Join(rest, [c]) by {
        assert ([""] + rest)[1..] == rest;
      }
      assert s == [c] + s[1..];
      [""] + rest
    else
      var rest := Split(s[1..], c);
      JoinConsHead([s[0]], rest, [c]);
      assert s == [s[0]] + s[1..];
      [[s[0]] + rest[0]] + rest[1..]
  }

  lemma {:induction false} SplitNoSep(s: string, c: char)
    requires c !in s
    ensures Split(s, c) == [s]
    decreases |s|
  {
    if |s| > 0 {
      assert c !in s[1..];
      SplitNoSep(s[1..], c);
    }
  }

  lemma {:induction false} SplitAfterPiece(a: string, c: char, t: string)
    requires c !in a
    ensures Split(a + [c] + t, c) == [a] + Split(t, c)
    decreases |a|
  {
    var s := a + [c] + t;
    if |a| == 0 {
      assert s[0] == c && s[1..] == t;
    } else {
      assert s[0] == a[0] && s[1..] == a[1..] + [c] + t;
      assert c !in a[1..];
      SplitAfterPiece(a[1..], c, t);
      assert [a[0]] + a[1..] == a;
    }
  }

  /** Splitting a joined list gives the list back when no piece holds the separator. */
  lemma {:induction false} SplitJoin(parts: seq<string>, c: char)
    requires |parts| >= 1
    requires forall i :: 0 <= i < |parts| ==> c !in parts[i]
    ensures Split(Join(parts, [c]), c) == parts
    decreases |parts|
  {
    if |parts| == 1 {
      SplitNoSep(parts[0], c);
    } else {
      SplitJoin(parts[1..], c);
      SplitAfterPiece(parts[0], c, Join(parts[1..], [c]));
      assert [parts[0]] + parts[1..] == parts;
    }
  }

  /** Python's `s or default` for a string argument: `None` and `""` fall back. */
  function OrString(s: Option<string>, default: string): (r: string)
    ensures r == default || (s.Some? && r == s.value && r != "")
    ensures s.Some? && s.value != "" ==> r == s.value
  {
    if s.Some? && s.value != "" then s.value else default
  }

  /** The first `n` characters of `s`, or all of `s` when it is shorter. */
  function Take(s: string, n: nat): (r: string)
    ensures |r| == if n < |s| then n else |s|
    ensures StartsWith(s, r)
  {
    if n < |s| then s[..n] else s
  }

  /** Characters Python's `str.isspace` accepts. */
  predicate IsSpace(ch: char)
  {
    || ch == ' '
    || ('\t' <= ch <= '\r')
    || ('\U{1c}' <= ch <= '\U{1f}')
    || ch == '\U{85}' || ch == '\U{a0}' || ch == '\U{1680}'
    || ('\U{2000}' <= ch <= '\U{200a}')
    || ch == '\U{2028}' || ch == '\U{2029}' || ch == '\U{202f}' || ch == '\U{205f}'
    || ch == '\U{3000}'
  }

  /** Drops the longest prefix whose characters all satisfy `drop`. */
  function TrimLeft(s: string, drop: char -> bool): (r: string)
    ensures |r| <= |s| && r == s[|s| - |r|..]
    ensures forall i :: 0 <= i < |s| - |r| ==> drop(s[i])
    ensures |r| > 0 ==> !drop(r[0])
  {
    if |s| > 0 && drop(s[0]) then
      var r := TrimLeft(s[1..], drop);
      assert s[1..][|s| - 1 - |r|..] == s[|s| - |r|..];
      assert forall i :: 1 <= i < |s| - |r| ==> s[i] == s[1..][i - 1];
      r
    else s
  }

  /** Drops the longest suffix whose characters all satisfy `drop` (Python's `rstrip`). */
  function TrimRight(s: string, drop: char -> bool): (r: string)
    ensures |r| <= |s| && r == s[..|r|]
    ensures forall i :: |r| <= i < |s| ==> drop(s[i])
    ensures |r| > 0 ==> !drop(r[|r| - 1])
  {
    if |s| > 0 && drop(s[|s| - 1]) then
      var r := TrimRight(s[..|s| - 1], drop);
      assert s[..|s| - 1][..|r|] == s[..|r|];
      r
    else s
  }

  /** No whitespace at either end. */
  predicate Trimmed(s: string)
  {
    |s| > 0 ==> !IsSpace(s[0]) && !IsSpace(s[|s| - 1])
  }

  /** Whitespace removed from both ends, as Python's `str.strip` with no argument does. */
  function Strip(s: string): (r: string)
    ensures Trimmed(r)
    ensures |r| <= |s|
  {
    TrimLeft(TrimRight(s, IsSpace), IsSpace)
  }

  /**
    `r` is `s[i..j]`, and every character cut off on either side
    satisfies `drop`.
   */
  predicate CutTo(s: string, i: int, j: int, r: string, drop: char -> bool)
  {
    && 0 <= i <= j <= |s| && r == s[i..j]
    && (forall k :: 0 <= k < i ==> drop(s[k]))
    && (forall k :: j <= k < |s| ==> drop(s[k]))
  }

  /**
    What `Strip` leaves is a middle slice of `s`, and everything it cut off
    on either side is whitespace.
   */
  lemma StripCutsWhitespace(s: string)
    ensures exists i, j :: CutTo(s, i, j, Strip(s), IsSpace)
  {
    TrimBothCuts(s, IsSpace);
    var i, j :| CutTo(s, i, j, TrimLeft(TrimRight(s, IsSpace), IsSpace), IsSpace);
    assert CutTo(s, i, j, Strip(s), IsSpace);
  }

  /** Trimming both ends leaves a middle slice, and only `drop` characters go. */
  lemma TrimBothCuts(s: string, drop: char -> bool)
    ensures exists i, j :: CutTo(s, i, j, TrimLeft(TrimRight(s, drop), drop), drop)
  {
    var t := TrimRight(s, drop);
    var u := TrimLeft(t, drop);
    var i, j := |t| - |u|, |t|;
    assert u == s[i..j];
    assert forall k :: 0 <= k < i ==> drop(s[k]) by {
      forall k | 0 <= k < i
        ensures drop(s[k])
      {
        assert s[k] == t[k];
      }
    }
    assert CutTo(s, i, j, u, drop);
  }

  /** Stripping text with no surrounding whitespace changes nothing. */
  lemma StripKeeps(s: string)
    requires Trimmed(s)
    ensures Strip(s) == s
  {
    var t := TrimRight(s, IsSpace);
    assert t == s;
    var u := TrimLeft(t, IsSpace);
  }

  /** Leading whitespace does not survive `strip`. */
  lemma StripDropsLeadingSpace(ch: char, s: string)
    requires IsSpace(ch)
    requires |s| > 0 && !IsSpace(s[|s| - 1])
    ensures Strip([ch] + s) == Strip(s)
  {
    var w := [ch] + s;
    var tw := TrimRight(w, IsSpace);
    assert tw == w;
    var ts := TrimRight(s, IsSpace);
    assert ts == s;
    assert w[1..] == s;
  }

  predicate IsDigit(ch: char)
  {
    '0' <= ch <= '9'
  }

  function DigitChar(d: nat): (ch: char)
    requires d < 10
    ensures IsDigit(ch)
  {
    ('0' as int + d) as char
  }

  /** The number a string of decimal digits denotes. */
  function DigitsValue(s: string): nat
    requires forall i :: 0 <= i < |s| ==> IsDigit(s[i])
  {
    if |s| == 0 then 0
    else
      assert IsDigit(s[|s| - 1]);
      DigitsValue(s[..|s| - 1]) * 10 + (s[|s| - 1] as int - '0' as int)
  }

  /** Python's `str(n)` for a natural number. */
  function NatToString(n: nat): (r: string)
    ensures |r| >= 1
    ensures forall i :: 0 <= i < |r| ==> IsDigit(r[i])
    ensures r[0] == '0' ==> n == 0
  {
    if n < 10 then [DigitChar(n)]
    else NatToString(n / 10) + [DigitChar(n % 10)]
  }

  /** `str(n)` reads back as `n`. */
  lemma {:induction false} NatToStringValue(n: nat)
    ensures DigitsValue(NatToString(n)) == n
  {
    var r := NatToString(n);
    if n >= 10 {
      NatToStringValue(n / 10);
      assert r[..|r| - 1] == NatToString(n / 10);
    }
  }
}
