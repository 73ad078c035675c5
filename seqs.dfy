/** Sequence helpers shared by the list filters, the pre-order walks and the report. */
module Seqs {
  import opened Wrappers

  /** `a` is an order-preserving sub-list of `b`: it is `b` with some elements deleted. */
  predicate Subseq<T(==)>(a: seq<T>, b: seq<T>)
    decreases |b|
  {
    a == [] || (b != [] && ((a[0] == b[0] && Subseq(a[1..], b[1..])) || Subseq(a, b[1..])))
  }

  lemma {:induction false} SubseqRefl<T>(s: seq<T>)
    ensures Subseq(s, s)
    decreases |s|
  {
    if s != [] {
      SubseqRefl(s[1..]);
    }
  }

  /** Adding elements in front of the larger list keeps the relation. */
  lemma {:induction false} SubseqPrepend<T>(a: seq<T>, b: seq<T>, c: seq<T>)
    requires Subseq(a, b)
    ensures Subseq(a, c + b)
    decreases |c|
  {
    if c != [] {
      SubseqPrepend(a, b, c[1..]);
      assert (c + b)[1..] == c[1..] + b;
      if a != [] {
        assert Subseq(a, (c + b)[1..]);
      }
    } else {
      assert c + b == b;
    }
  }

  /** Sub-lists of two consecutive pieces concatenate to a sub-list of the whole. */
  lemma {:induction false} SubseqConcat<T>(a1: seq<T>, b1: seq<T>, a2: seq<T>, b2: seq<T>)
    requires Subseq(a1, b1) && Subseq(a2, b2)
    ensures Subseq(a1 + a2, b1 + b2)
    decreases |b1|
  {
    if a1 == [] {
      assert a1 + a2 == a2;
      SubseqPrepend(a2, b2, b1);
    } else {
      assert b1 != [];
      assert (b1 + b2)[1..] == b1[1..] + b2;
      if a1[0] == b1[0] && Subseq(a1[1..], b1[1..]) {
        SubseqConcat(a1[1..], b1[1..], a2, b2);
        assert (a1 + a2)[1..] == a1[1..] + a2;
      } else {
        SubseqConcat(a1, b1[1..], a2, b2);
      }
    }
  }

  /** The elements of `s` that satisfy `p`, in their original order (JavaScript's `filter`). */
  function Filter<T(==)>(s: seq<T>, p: T -> bool): (r: seq<T>)
    ensures |r| <= |s|
    ensures forall i :: 0 <= i < |r| ==> r[i] in s && p(r[i])
    ensures forall i :: 0 <= i < |s| && p(s[i]) ==> s[i] in r
    ensures Subseq(r, s)
    decreases |s|
  {
    if s == [] then []
    else
      var rest := Filter(s[1..], p);
      if p(s[0]) then
        assert ([s[0]] + rest)[1..] == rest;
        [s[0]] + rest
      else
        SubseqPrepend(rest, s[1..], [s[0]]);
        assert [s[0]] + s[1..] == s;
        rest
  }

  lemma {:induction false} FilterConcat<T>(a: seq<T>, b: seq<T>, p: T -> bool)
    ensures Filter(a + b, p) == Filter(a, p) + Filter(b, p)
    decreases |a|
  {
    if a != [] {
      assert (a + b)[0] == a[0];
      assert (a + b)[1..] == a[1..] + b;
      FilterConcat(a[1..], b, p);
      if p(a[0]) {
        assert Filter(a + b, p) == [a[0]] + Filter(a[1..] + b, p);
      } else {
        assert Filter(a + b, p) == Filter(a[1..] + b, p);
      }
    } else {
      assert a + b == b;
    }
  }

  /** A filter that every element passes keeps the whole sequence. */
  lemma {:induction false} FilterAll<T>(s: seq<T>, p: T -> bool)
    requires forall i :: 0 <= i < |s| ==> p(s[i])
    ensures Filter(s, p) == s
    decreases |s|
  {
    if s != [] {
      FilterAll(s[1..], p);
      assert [s[0]] + s[1..] == s;
    }
  }

  /** One step of the filter over a sequence with a known head. */
  lemma FilterCons<T>(x: T, t: seq<T>, p: T -> bool)
    ensures Filter([x] + t, p) == if p(x) then [x] + Filter(t, p) else Filter(t, p)
  {
    assert ([x] + t)[1..] == t;
  }

  /** The filter keeps an element exactly as often as the input holds it, when it qualifies. */
  lemma {:induction false} FilterMultiset<T>(s: seq<T>, p: T -> bool, x: T)
    ensures multiset(Filter(s, p))[x] == if p(x) then multiset(s)[x] else 0
    decreases |s|
  {
    if s != [] {
      FilterMultiset(s[1..], p, x);
      assert s == [s[0]] + s[1..];
    }
  }

  /** The filter keeps every element exactly as often as the input holds it, when it qualifies. */
  lemma FilterCounts<T>(s: seq<T>, p: T -> bool)
    ensures forall x :: multiset(Filter(s, p))[x] == if p(x) then multiset(s)[x] else 0
  {
    forall x
      ensures multiset(Filter(s, p))[x] == if p(x) then multiset(s)[x] else 0
    {
      FilterMultiset(s, p, x);
    }
  }

  /** Position of the first occurrence of `x` (JavaScript's `indexOf` when `x` is present). */
  function IndexOf<T(==)>(s: seq<T>, x: T): (k: nat)
    requires x in s
    ensures k < |s| && s[k] == x
    ensures forall j :: 0 <= j < k ==> s[j] != x
  {
    if s[0] == x then 0 else 1 + IndexOf(s[1..], x)
  }

  lemma {:induction false} IndexOfConcat<T>(a: seq<T>, b: seq<T>, x: T)
    requires x in a + b
    ensures IndexOf(a + b, x) == if x in a then IndexOf(a, x) else |a| + IndexOf(b, x)
  {
    var k := IndexOf(a + b, x);
    if x in a {
      var i := IndexOf(a, x);
      assert (a + b)[i] == x;
      assert k <= i;
      assert a[k] == x;
    } else {
      var i := IndexOf(b, x);
      assert (a + b)[|a| + i] == x;
      assert forall j :: 0 <= j < |a| ==> (a + b)[j] != x;
      assert b[k - |a|] == x;
      assert forall j :: 0 <= j < k - |a| ==> b[j] == (a + b)[|a| + j];
    }
  }

  /** Past a head that differs from `x`, the position of `x` moves on by one. */
  lemma IndexOfPastHead<T>(h: T, s: seq<T>, x: T)
    requires x in s && x != h
    ensures x in [h] + s
    ensures IndexOf([h] + s, x) == 1 + IndexOf(s, x)
  {
    assert ([h] + s)[1..] == s;
  }

  /**
   * Position of the first element satisfying `p`, or `None` when there is none
   * (`findIndex`, with `-1` as `None`).
   */
  function FirstIndex<T>(s: seq<T>, p: T -> bool): (r: Option<nat>)
    ensures r.Some? ==> r.value < |s| && p(s[r.value]) && forall j :: 0 <= j < r.value ==> !p(s[j])
    ensures r.None? ==> forall j :: 0 <= j < |s| ==> !p(s[j])
  {
    if s == [] then None
    else if p(s[0]) then Some(0)
    else match FirstIndex(s[1..], p)
         case None => None
         case Some(k) => Some(k + 1)
  }

  /** No element occurs twice. */
  predicate Distinct<T(==)>(s: seq<T>) {
    forall i, j :: 0 <= i < j < |s| ==> s[i] != s[j]
  }

  lemma DistinctConcat<T>(a: seq<T>, b: seq<T>)
    requires Distinct(a + b)
    ensures Distinct(a) && Distinct(b)
    ensures forall x :: x in a ==> x !in b
  {
    assert forall i :: 0 <= i < |a| ==> (a + b)[i] == a[i];
    assert forall i :: 0 <= i < |b| ==> (a + b)[|a| + i] == b[i];
    forall x | x in a
      ensures x !in b
    {
      var i :| 0 <= i < |a| && a[i] == x;
      forall j | 0 <= j < |b|
        ensures b[j] != x
      {
        assert (a + b)[i] != (a + b)[|a| + j];
      }
    }
  }

  /** Slices of `a + b` that fall within `a`. */
  lemma SlicesLeft<T>(a: seq<T>, b: seq<T>, k: nat, m: nat)
    requires k + m <= |a|
    ensures (a + b)[..k] == a[..k]
    ensures (a + b)[k..k + m] == a[k..k + m]
    ensures (a + b)[k + m..] == a[k + m..] + b
    ensures k < |a| ==> (a + b)[k] == a[k]
  {
  }

  /** Slices of `a + b` that fall within `b`. */
  lemma SlicesRight<T>(a: seq<T>, b: seq<T>, k: nat, m: nat)
    requires k + m <= |b|
    ensures (a + b)[..|a| + k] == a + b[..k]
    ensures (a + b)[|a| + k..|a| + k + m] == b[k..k + m]
    ensures (a + b)[|a| + k + m..] == b[k + m..]
    ensures k < |b| ==> (a + b)[|a| + k] == b[k]
  {
  }
}
