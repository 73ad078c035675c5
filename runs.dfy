/**
 * Run-length bucketing of a day sequence, as the month headers of
 * `generateDateHeaders` and the month and week headers of the plan page build
 * it: walk the days in order, extend the last bucket while the key repeats,
 * open a new bucket when it changes.
 */
module Runs {

  /** A bucket: the key its items share, the item that opened it, and how many items it holds. */
  datatype Run = Run(key: int, first: int, count: nat)

  /** One step of the bucketing loop for item `x` with key `k`. */
  function Push(runs: seq<Run>, x: int, k: int): seq<Run> {
    if runs != [] && runs[|runs| - 1].key == k then
      runs[..|runs| - 1] + [runs[|runs| - 1].(count := runs[|runs| - 1].count + 1)]
    else
      runs + [Run(k, x, 1)]
  }

  /** The buckets of `xs` under the key function `f`, built item by item. */
  function RunsOf(xs: seq<int>, f: int -> int): seq<Run>
    decreases |xs|
  {
    if xs == [] then [] else Push(RunsOf(xs[..|xs| - 1], f), xs[|xs| - 1], f(xs[|xs| - 1]))
  }

  function Repeat(k: int, n: nat): (r: seq<int>)
    ensures |r| == n
    ensures forall i :: 0 <= i < n ==> r[i] == k
  {
    seq(n, _ => k)
  }

  /** The key of every item, in order. */
  function Keys(xs: seq<int>, f: int -> int): (r: seq<int>)
    ensures |r| == |xs|
    ensures forall i :: 0 <= i < |xs| ==> r[i] == f(xs[i])
  {
    seq(|xs|, i requires 0 <= i < |xs| => f(xs[i]))
  }

  /** The buckets spelled out: each key repeated as often as its bucket counts. */
  function Expand(runs: seq<Run>): seq<int>
    decreases |runs|
  {
    if runs == [] then [] else Expand(runs[..|runs| - 1]) + Repeat(runs[|runs| - 1].key, runs[|runs| - 1].count)
  }

  /** The number of items over all buckets. */
  function Total(runs: seq<Run>): nat
    decreases |runs|
  {
    if runs == [] then 0 else Total(runs[..|runs| - 1]) + runs[|runs| - 1].count
  }

  /** No empty bucket, and neighbouring buckets have different keys. */
  predicate WellFormed(runs: seq<Run>) {
    (forall i :: 0 <= i < |runs| ==> runs[i].count >= 1)
    && (forall i :: 0 < i < |runs| ==> runs[i - 1].key != runs[i].key)
  }

  /** Each bucket was opened by one of the items, and carries that item's key. */
  predicate OpenedBy(runs: seq<Run>, xs: seq<int>, f: int -> int) {
    forall j :: 0 <= j < |runs| ==> runs[j].first in xs && f(runs[j].first) == runs[j].key
  }

  lemma {:induction false} ExpandLength(runs: seq<Run>)
    ensures |Expand(runs)| == Total(runs)
    decreases |runs|
  {
    if runs != [] {
      ExpandLength(runs[..|runs| - 1]);
    }
  }

  /** Opening the expansion's last bucket: one unfolding of `Expand`. */
  lemma {:induction false} ExpandLast(pre: seq<Run>, last: Run)
    ensures Expand(pre + [last]) == Expand(pre) + Repeat(last.key, last.count)
  {
    var r := pre + [last];
    assert r[..|r| - 1] == pre;
  }

  lemma {:induction false} RepeatSnoc(k: int, c: nat)
    ensures Repeat(k, c + 1) == Repeat(k, c) + [k]
  {
  }

  /** Growing the last bucket by one adds one more copy of its key. */
  lemma {:induction false} GrowLast(pre: seq<Run>, last: Run)
    ensures Expand(pre + [last.(count := last.count + 1)]) == Expand(pre + [last]) + [last.key]
  {
    ExpandLast(pre, last);
    ExpandLast(pre, last.(count := last.count + 1));
    RepeatSnoc(last.key, last.count);
  }

  lemma {:induction false} PushExtends(runs: seq<Run>, x: int, k: int)
    requires runs != [] && runs[|runs| - 1].key == k
    ensures Expand(Push(runs, x, k)) == Expand(runs) + [k]
  {
    var pre, last := runs[..|runs| - 1], runs[|runs| - 1];
    assert runs == pre + [last];
    assert Push(runs, x, k) == pre + [last.(count := last.count + 1)];
    GrowLast(pre, last);
  }

  lemma {:induction false} PushOpens(runs: seq<Run>, x: int, k: int)
    requires runs == [] || runs[|runs| - 1].key != k
    ensures Expand(Push(runs, x, k)) == Expand(runs) + [k]
  {
    ExpandLast(runs, Run(k, x, 1));
    assert Repeat(k, 1) == [k];
  }

  /** The buckets spelled out give the keys of the items in order. */
  lemma {:induction false} RunsOfExpand(xs: seq<int>, f: int -> int)
    ensures Expand(RunsOf(xs, f)) == Keys(xs, f)
    ensures xs != [] ==> RunsOf(xs, f) != [] && RunsOf(xs, f)[|RunsOf(xs, f)| - 1].key == f(xs[|xs| - 1])
    decreases |xs|
  {
    if xs != [] {
      var init, x := xs[..|xs| - 1], xs[|xs| - 1];
      var runs := RunsOf(init, f);
      RunsOfExpand(init, f);
      assert xs == init + [x];
      assert Keys(xs, f) == Keys(init, f) + [f(x)];
      if runs != [] && runs[|runs| - 1].key == f(x) {
        PushExtends(runs, x, f(x));
      } else {
        PushOpens(runs, x, f(x));
      }
    }
  }

  /** The buckets are non-empty, neighbours differ, and each was opened by an item with its key. */
  lemma {:induction false} RunsOfWellFormed(xs: seq<int>, f: int -> int)
    ensures WellFormed(RunsOf(xs, f))
    ensures OpenedBy(RunsOf(xs, f), xs, f)
    decreases |xs|
  {
    if xs != [] {
      var init, x := xs[..|xs| - 1], xs[|xs| - 1];
      RunsOfWellFormed(init, f);
      assert xs == init + [x];
      PushWellFormed(RunsOf(init, f), x, f(x));
      PushOpenedBy(RunsOf(init, f), init, x, f);
    }
  }

  /** Adding an item keeps the buckets non-empty and neighbours distinct. */
  lemma PushWellFormed(runs: seq<Run>, x: int, k: int)
    requires WellFormed(runs)
    ensures WellFormed(Push(runs, x, k))
  {
    var r := Push(runs, x, k);
    if runs != [] && runs[|runs| - 1].key == k {
      assert forall j :: 0 <= j < |r| - 1 ==> r[j] == runs[j];
      assert r[|r| - 1].key == runs[|runs| - 1].key;
    } else {
      assert forall j :: 0 <= j < |runs| ==> r[j] == runs[j];
    }
  }

  /** Adding an item keeps every bucket opened by an item with its key. */
  lemma PushOpenedBy(runs: seq<Run>, init: seq<int>, x: int, f: int -> int)
    requires OpenedBy(runs, init, f)
    ensures OpenedBy(Push(runs, x, f(x)), init + [x], f)
  {
    var r := Push(runs, x, f(x));
    var xs := init + [x];
    if runs != [] && runs[|runs| - 1].key == f(x) {
      assert forall j :: 0 <= j < |r| - 1 ==> r[j] == runs[j];
      assert r[|r| - 1].key == runs[|runs| - 1].key && r[|r| - 1].first == runs[|runs| - 1].first;
    } else {
      assert forall j :: 0 <= j < |runs| ==> r[j] == runs[j];
    }
    forall j | 0 <= j < |r|
      ensures r[j].first in xs && f(r[j].first) == r[j].key
    {
      if j < |runs| {
        assert runs[j].first in init;
      }
    }
  }

  /** The counts add up to the number of items. */
  lemma {:induction false} RunsTotal(xs: seq<int>, f: int -> int)
    ensures Total(RunsOf(xs, f)) == |xs|
  {
    RunsOfExpand(xs, f);
    ExpandLength(RunsOf(xs, f));
  }

  lemma {:induction false} PushAppend(p: seq<Run>, q: seq<Run>, x: int, k: int)
    requires q != []
    ensures Push(p + q, x, k) == p + Push(q, x, k)
  {
    assert (p + q)[|p + q| - 1] == q[|q| - 1];
    assert (p + q)[..|p + q| - 1] == p + q[..|q| - 1];
  }

  /** Two stretches whose meeting items have different keys are bucketed separately. */
  lemma {:induction false} RunsConcat(a: seq<int>, b: seq<int>, f: int -> int)
    requires a != [] && b != [] && f(a[|a| - 1]) != f(b[0])
    ensures RunsOf(a + b, f) == RunsOf(a, f) + RunsOf(b, f)
    decreases |b|
  {
    var y := b[|b| - 1];
    var b' := b[..|b| - 1];
    assert (a + b)[..|a + b| - 1] == a + b';
    assert (a + b)[|a + b| - 1] == y;
    RunsOfExpand(a, f);
    if b' == [] {
      assert RunsOf(b, f) == Push([], y, f(y));
    } else {
      RunsConcat(a, b', f);
      RunsOfExpand(b', f);
      PushAppend(RunsOf(a, f), RunsOf(b', f), y, f(y));
    }
  }

  /** Items that all share one key form one bucket. */
  lemma {:induction false} RunsUniform(xs: seq<int>, f: int -> int, k: int)
    requires xs != []
    requires forall i :: 0 <= i < |xs| ==> f(xs[i]) == k
    ensures RunsOf(xs, f) == [Run(k, xs[0], |xs|)]
    decreases |xs|
  {
    var init := xs[..|xs| - 1];
    if init != [] {
      RunsUniform(init, f, k);
    }
  }

  /** Extending the last bucket, written as the in-place update the loops perform. */
  lemma {:induction false} PushUpdate(runs: seq<Run>, x: int, k: int)
    requires runs != [] && runs[|runs| - 1].key == k
    ensures Push(runs, x, k) == runs[|runs| - 1 := runs[|runs| - 1].(count := runs[|runs| - 1].count + 1)]
  {
  }

  /** One step of the bucketing loop, as the loops write it: extend the last bucket in place or open a new one. */
  method Bucket(runs: seq<Run>, x: int, k: int) returns (r: seq<Run>)
    ensures r == Push(runs, x, k)
    ensures |r| == |runs| || r == runs + [Run(k, x, 1)]
    ensures forall j :: 0 <= j < |runs| ==> r[j].first == runs[j].first
  {
    if runs == [] || runs[|runs| - 1].key != k {
      r := runs + [Run(k, x, 1)];
    } else {
      PushUpdate(runs, x, k);
      var last := runs[|runs| - 1];
      r := runs[|runs| - 1 := last.(count := last.count + 1)];
    }
  }

  /** The buckets of one more item of `xs` are one more step of the loop. */
  lemma {:induction false} StepRuns(xs: seq<int>, i: nat, f: int -> int)
    requires i < |xs|
    ensures RunsOf(xs[..i + 1], f) == Push(RunsOf(xs[..i], f), xs[i], f(xs[i]))
  {
    var p := xs[..i + 1];
    assert p[..|p| - 1] == xs[..i];
  }
}
