/**
  List idioms the studio applies to its session lists: filtering out every
  occurrence of a value, keeping only the members of another list, and
  removing a value, which drops only its first occurrence.
 */
module Seqs {

  /** `a` is `b` with some elements left out, the rest in their original order. */
  predicate IsSubsequence<T(==)>(a: seq<T>, b: seq<T>)
    decreases |b|
  {
    if |a| == 0 then true
    else if |b| == 0 then false
    else if a[0] == b[0] then IsSubsequence(a[1..], b[1..])
    else IsSubsequence(a, b[1..])
  }

  lemma {:induction false} SubsequenceRefl<T>(a: seq<T>)
    ensures IsSubsequence(a, a)
    decreases |a|
  {
    if |a| > 0 {
      SubsequenceRefl(a[1..]);
    }
  }

  /** Putting one more element in front of `b` keeps every subsequence of `b` a subsequence. */
  lemma {:induction false} SubsequenceSkip<T>(a: seq<T>, x: T, b: seq<T>)
    requires IsSubsequence(a, b)
    ensures IsSubsequence(a, [x] + b)
    decreases |b|, 1
  {
    var xb := [x] + b;
    assert xb[1..] == b;
    if |a| > 0 && a[0] == x {
      SubsequenceDropFirst(a, b);
    }
  }

  /** Dropping the head of a subsequence leaves a subsequence. */
  lemma {:induction false} SubsequenceDropFirst<T>(a: seq<T>, b: seq<T>)
    requires IsSubsequence(a, b) && |a| > 0
    ensures IsSubsequence(a[1..], b)
    decreases |b|, 0
  {
    assert |b| > 0;
    assert [b[0]] + b[1..] == b;
    if a[0] == b[0] {
      SubsequenceSkip(a[1..], b[0], b[1..]);
    } else {
      SubsequenceDropFirst(a, b[1..]);
      SubsequenceSkip(a[1..], b[0], b[1..]);
    }
  }

  /** `f` applied to each element of `xs`, in order. */
  function Map<T, U>(xs: seq<T>, f: T -> U): (r: seq<U>)
    ensures |r| == |xs| && forall i :: 0 <= i < |xs| ==> r[i] == f(xs[i])
  {
    if |xs| == 0 then [] else [f(xs[0])] + Map(xs[1..], f)
  }

  /** Mapping a list with one more element in front. */
  lemma MapCons<T, U>(x: T, xs: seq<T>, f: T -> U)
    ensures Map([x] + xs, f) == [f(x)] + Map(xs, f)
  {
    assert ([x] + xs)[1..] == xs;
  }

  /** The lists of `xss` laid end to end, in order. */
  function Flatten<T>(xss: seq<seq<T>>): seq<T>
  {
    if |xss| == 0 then [] else xss[0] + Flatten(xss[1..])
  }

  /** Flattening a list with one more list in front. */
  lemma FlattenCons<T>(x: seq<T>, xss: seq<seq<T>>)
    ensures Flatten([x] + xss) == x + Flatten(xss)
  {
    assert ([x] + xss)[1..] == xss;
  }

  /** The elements of `xs` that satisfy `keep`, in their original order. */
  function Filter<T(==, !new)>(xs: seq<T>, keep: T -> bool): (r: seq<T>)
    ensures forall i :: 0 <= i < |r| ==> keep(r[i])
    ensures forall y :: y in r <==> y in xs && keep(y)
    ensures forall y :: multiset(r)[y] == if keep(y) then multiset(xs)[y] else 0
    ensures IsSubsequence(r, xs)
    decreases |xs|
  {
    if |xs| == 0 then []
    else
      var rest := Filter(xs[1..], keep);
      assert xs == [xs[0]] + xs[1..];
      if keep(xs[0]) then
        var r := [xs[0]] + rest;
        assert r[1..] == rest;
        r
      else
        SubsequenceSkip(rest, xs[0], xs[1..]);
        rest
  }

  /** A property of every element survives putting one more such element in front. */
  lemma AllCons<T>(x: T, xs: seq<T>, p: T -> bool)
    requires p(x) && forall i :: 0 <= i < |xs| ==> p(xs[i])
    ensures forall i :: 0 <= i < |xs| + 1 ==> p(([x] + xs)[i])
  {
    assert forall i :: 1 <= i < |xs| + 1 ==> ([x] + xs)[i] == xs[i - 1];
  }

  /** Mapping, then filtering, keeps the image of the first element exactly when it passes. */
  lemma FilterMapFirst<T, U(!new)>(xs: seq<T>, f: T -> U, keep: U -> bool)
    requires |xs| > 0
    ensures Filter(Map(xs, f), keep) ==
      if keep(f(xs[0])) then [f(xs[0])] + Filter(Map(xs[1..], f), keep) else Filter(Map(xs[1..], f), keep)
  {
    assert Map(xs, f)[1..] == Map(xs[1..], f);
  }

  /** Two lists related element by element stay so with one more pair in front. */
  lemma PairedCons<A, B>(x: A, xs: seq<A>, y: B, ys: seq<B>, rel: (A, B) -> bool)
    requires rel(x, y)
    requires |ys| == |xs| && forall k :: 0 <= k < |xs| ==> rel(xs[k], ys[k])
    ensures var a := [x] + xs;
      var b := [y] + ys;
      |b| == |a| && forall k :: 0 <= k < |a| ==> rel(a[k], b[k])
  {
    var a := [x] + xs;
    var b := [y] + ys;
    assert forall k :: 1 <= k < |a| ==> a[k] == xs[k - 1] && b[k] == ys[k - 1];
  }

  /** `xs` with every occurrence of `x` removed, the rest in order. */
  function RemoveAll<T(==, !new)>(xs: seq<T>, x: T): (r: seq<T>)
    ensures x !in r
    ensures forall y :: y != x ==> multiset(r)[y] == multiset(xs)[y]
    ensures x !in xs ==> r == xs
    ensures |r| <= |xs|
  {
    if |xs| == 0 then []
    else
      var rest := RemoveAll(xs[1..], x);
      assert xs == [xs[0]] + xs[1..];
      if xs[0] == x then rest else [xs[0]] + rest
  }

  /** `RemoveAll` keeps the survivors in order. */
  lemma {:induction false} RemoveAllOrdered<T(!new)>(xs: seq<T>, x: T)
    ensures IsSubsequence(RemoveAll(xs, x), xs)
    decreases |xs|
  {
    if |xs| > 0 {
      RemoveAllOrdered(xs[1..], x);
      var rest := RemoveAll(xs[1..], x);
      if xs[0] == x {
        SubsequenceSkip(rest, xs[0], xs[1..]);
        assert [xs[0]] + xs[1..] == xs;
      } else {
        var r := [xs[0]] + rest;
        assert r[1..] == rest;
      }
    }
  }

  /** The elements of `xs` that also occur in `known`, in order. */
  function KeepKnown<T(==, !new)>(xs: seq<T>, known: seq<T>): (r: seq<T>)
    ensures forall y :: multiset(r)[y] == if y in known then multiset(xs)[y] else 0
    ensures forall i :: 0 <= i < |r| ==> r[i] in known
    ensures |r| <= |xs|
  {
    if |xs| == 0 then []
    else
      var rest := KeepKnown(xs[1..], known);
      assert xs == [xs[0]] + xs[1..];
      assert forall i :: 1 <= i < |xs| ==> xs[i] == xs[1..][i - 1];
      if xs[0] in known then [xs[0]] + rest else rest
  }

  /** Keeping what is known changes nothing when everything is known already. */
  lemma {:induction false} KeepKnownAllKnown<T(!new)>(xs: seq<T>, known: seq<T>)
    requires forall i :: 0 <= i < |xs| ==> xs[i] in known
    ensures KeepKnown(xs, known) == xs
    decreases |xs|
  {
    if |xs| > 0 {
      KeepKnownAllKnown(xs[1..], known);
      assert xs == [xs[0]] + xs[1..];
    }
  }

  /** Filtering twice is filtering once. */
  lemma KeepKnownIdempotent<T(!new)>(xs: seq<T>, known: seq<T>)
    ensures KeepKnown(KeepKnown(xs, known), known) == KeepKnown(xs, known)
  {
    KeepKnownAllKnown(KeepKnown(xs, known), known);
  }

  /** Nothing is dropped exactly when everything is known. */
  lemma {:induction false} KeepKnownLength<T(!new)>(xs: seq<T>, known: seq<T>)
    ensures |KeepKnown(xs, known)| == |xs| <==> forall i :: 0 <= i < |xs| ==> xs[i] in known
    decreases |xs|
  {
    if |xs| > 0 {
      KeepKnownLength(xs[1..], known);
      assert forall i :: 1 <= i < |xs| ==> xs[i] == xs[1..][i - 1];
    }
  }

  /** `KeepKnown` keeps the survivors in order. */
  lemma {:induction false} KeepKnownOrdered<T(!new)>(xs: seq<T>, known: seq<T>)
    ensures IsSubsequence(KeepKnown(xs, known), xs)
    decreases |xs|
  {
    if |xs| > 0 {
      KeepKnownOrdered(xs[1..], known);
      var rest := KeepKnown(xs[1..], known);
      if xs[0] in known {
        var r := [xs[0]] + rest;
        assert r[1..] == rest;
      } else {
        SubsequenceSkip(rest, xs[0], xs[1..]);
        assert [xs[0]] + xs[1..] == xs;
      }
    }
  }

  /** Position of the first occurrence of `x` (Python's `xs.index(x)`). */
  function FirstIndex<T(==)>(xs: seq<T>, x: T): (i: nat)
    requires x in xs
    ensures i < |xs| && xs[i] == x && x !in xs[..i]
  {
    if xs[0] == x then 0
    else
      var k := FirstIndex(xs[1..], x);
      assert xs[..k + 1] == [xs[0]] + xs[1..][..k];
      k + 1
  }

  /** Python's `xs.remove(x)` when `x in xs`; unchanged otherwise. */
  function RemoveFirst<T(==)>(xs: seq<T>, x: T): (r: seq<T>)
    ensures x !in xs ==> r == xs
    ensures x in xs ==> |r| == |xs| - 1 && multiset(r) == multiset(xs) - multiset{x}
    ensures x in xs ==> r == xs[..FirstIndex(xs, x)] + xs[FirstIndex(xs, x) + 1..]
  {
    if x !in xs then xs
    else
      var i := FirstIndex(xs, x);
      assert xs == xs[..i] + [x] + xs[i + 1..];
      xs[..i] + xs[i + 1..]
  }

  /** Removing the only occurrence leaves none behind. */
  lemma RemoveFirstOnly<T>(xs: seq<T>, x: T)
    requires multiset(xs)[x] <= 1
    ensures x !in RemoveFirst(xs, x)
  {
  }

  /** The four parts of a four-way concatenation, cut back out. */
  lemma ConcatSlices<T>(a: seq<T>, b: seq<T>, c: seq<T>, d: seq<T>)
    ensures var r := a + b + c + d;
      && r[..|a|] == a && r[|a|..|a| + |b|] == b
      && r[|a| + |b|..|a| + |b| + |c|] == c && r[|a| + |b| + |c|..] == d
  {
    var r := a + b + c + d;
    assert r[..|a|] == a;
    assert r[|a|..|a| + |b|] == b;
    assert r[|a| + |b|..|a| + |b| + |c|] == c;
    assert r[|a| + |b| + |c|..] == d;
  }

  /** `xs` then `ys`, framed by `a` in front and `b` behind; the parts cut back out. */
  function Frame<T>(a: T, xs: seq<T>, ys: seq<T>, b: T): (r: seq<T>)
    ensures |r| == 2 + |xs| + |ys| && r[0] == a && r[|r| - 1] == b
    ensures forall i :: 0 <= i < |xs| ==> r[1 + i] == xs[i]
    ensures r[1 + |xs|..|r| - 1] == ys
  {
    var r := [a] + xs + ys + [b];
    assert r[1 + |xs|..|r| - 1] == ys;
    r
  }
}
