/**
 * The one loop shape the scrapers share: walk a list in order and append the value each
 * element yields, skipping the elements that yield nothing.
 */
module Seqs {
  import opened Wrappers

  /** The values `f` yields for the elements of `xs`, in order; elements yielding `None` are skipped. */
  function Collect<T, U>(xs: seq<T>, f: T -> Option<U>): seq<U>
  {
    if xs == [] then []
    else
      var last := f(xs[|xs| - 1]);
      Collect(xs[..|xs| - 1], f) + (if last.Some? then [last.value] else [])
  }

  /** The step a collecting loop takes at index `i`. */
  lemma CollectSnoc<T, U>(xs: seq<T>, i: nat, f: T -> Option<U>)
    requires i < |xs|
    ensures Collect(xs[..i + 1], f) == Collect(xs[..i], f) + (if f(xs[i]).Some? then [f(xs[i]).value] else [])
  {
    assert xs[..i + 1][..i] == xs[..i];
  }

  /** Collecting keeps input order: it distributes over concatenation. */
  lemma {:induction false} CollectAppend<T, U>(xs: seq<T>, ys: seq<T>, f: T -> Option<U>)
    ensures Collect(xs + ys, f) == Collect(xs, f) + Collect(ys, f)
  {
    if ys == [] {
      assert xs + ys == xs;
    } else {
      var n := |ys|;
      assert (xs + ys)[..|xs + ys| - 1] == xs + ys[..n - 1];
      assert (xs + ys)[|xs + ys| - 1] == ys[n - 1];
      CollectAppend(xs, ys[..n - 1], f);
    }
  }

  /** Every collected value was yielded by some element. */
  lemma {:induction false} CollectFrom<T, U>(xs: seq<T>, f: T -> Option<U>, u: U)
    requires u in Collect(xs, f)
    ensures exists k :: 0 <= k < |xs| && f(xs[k]) == Some(u)
  {
    var n := |xs|;
    var init := xs[..n - 1];
    if u in Collect(init, f) {
      CollectFrom(init, f, u);
      var k :| 0 <= k < n - 1 && f(init[k]) == Some(u);
      assert init[k] == xs[k];
    } else {
      assert f(xs[n - 1]) == Some(u);
    }
  }

  /** Every value an element yields is collected. */
  lemma {:induction false} CollectHas<T, U>(xs: seq<T>, f: T -> Option<U>, k: nat)
    requires k < |xs| && f(xs[k]).Some?
    ensures f(xs[k]).value in Collect(xs, f)
  {
    var n := |xs|;
    var init := xs[..n - 1];
    if k < n - 1 {
      assert init[k] == xs[k];
      CollectHas(init, f, k);
    }
  }

  /** A value is collected exactly when some element yields it. */
  lemma CollectMember<T, U>(xs: seq<T>, f: T -> Option<U>, u: U)
    ensures u in Collect(xs, f) <==> exists k :: 0 <= k < |xs| && f(xs[k]) == Some(u)
  {
    if u in Collect(xs, f) {
      CollectFrom(xs, f, u);
    }
    forall k | 0 <= k < |xs| && f(xs[k]) == Some(u)
      ensures u in Collect(xs, f)
    {
      CollectHas(xs, f, k);
    }
  }

  /** When every element yields a value, the values are collected one for one. */
  lemma {:induction false} CollectEvery<T, U>(xs: seq<T>, f: T -> Option<U>, ys: seq<U>)
    requires |xs| == |ys|
    requires forall k :: 0 <= k < |xs| ==> f(xs[k]) == Some(ys[k])
    ensures Collect(xs, f) == ys
  {
    if xs != [] {
      var n := |xs|;
      assert forall k :: 0 <= k < n - 1 ==> xs[..n - 1][k] == xs[k] && ys[..n - 1][k] == ys[k];
      CollectEvery(xs[..n - 1], f, ys[..n - 1]);
      assert ys == ys[..n - 1] + [ys[n - 1]];
    }
  }

  /** Collecting never yields more values than there are elements. */
  lemma {:induction false} CollectLength<T, U>(xs: seq<T>, f: T -> Option<U>)
    ensures |Collect(xs, f)| <= |xs|
    ensures |Collect(xs, f)| == |xs| <==> forall k :: 0 <= k < |xs| ==> f(xs[k]).Some?
  {
    if xs != [] {
      var n := |xs|;
      CollectLength(xs[..n - 1], f);
      assert forall k :: 0 <= k < n - 1 ==> xs[..n - 1][k] == xs[k];
    }
  }

  /** No element occurs twice. */
  predicate Distinct<T(==)>(xs: seq<T>) {
    forall i, j :: 0 <= i < j < |xs| ==> xs[i] != xs[j]
  }

  /** No two elements share a key. */
  predicate DistinctBy<T, K(==)>(xs: seq<T>, key: T -> K) {
    forall i, j :: 0 <= i < j < |xs| ==> key(xs[i]) != key(xs[j])
  }

  lemma DistinctSnoc<T>(xs: seq<T>, x: T)
    requires Distinct(xs) && x !in xs
    ensures Distinct(xs + [x])
  {
  }

  /** `f` keeps or drops each element as it is, as a list comprehension with an `if` does. */
  ghost predicate Filters<T(!new)>(f: T -> Option<T>) {
    forall x :: f(x) == None || f(x) == Some(x)
  }

  /** `ys` is `xs` with some elements dropped: `idx` lists the positions kept, in increasing order. */
  predicate Picks<T(==)>(xs: seq<T>, ys: seq<T>, idx: seq<nat>) {
    && |idx| == |ys|
    && (forall i :: 0 <= i < |idx| ==> idx[i] < |xs| && xs[idx[i]] == ys[i])
    && (forall i, j :: 0 <= i < j < |idx| ==> idx[i] < idx[j])
  }

  /** A filter keeps its elements in their original order. */
  lemma {:induction false} CollectPicks<T(!new)>(xs: seq<T>, f: T -> Option<T>) returns (idx: seq<nat>)
    requires Filters(f)
    ensures Picks(xs, Collect(xs, f), idx)
  {
    if xs == [] {
      idx := [];
    } else {
      var n := |xs|;
      var before := CollectPicks(xs[..n - 1], f);
      assert forall i :: 0 <= i < |before| ==> xs[..n - 1][before[i]] == xs[before[i]];
      if f(xs[n - 1]).Some? {
        assert f(xs[n - 1]) == Some(xs[n - 1]);
        idx := before + [n - 1];
      } else {
        idx := before;
      }
    }
  }

  /** Dropping elements cannot make two keys equal. */
  lemma PicksDistinctBy<T, K>(xs: seq<T>, ys: seq<T>, idx: seq<nat>, key: T -> K)
    requires Picks(xs, ys, idx) && DistinctBy(xs, key)
    ensures DistinctBy(ys, key)
  {
    forall i, j | 0 <= i < j < |ys| ensures key(ys[i]) != key(ys[j]) {
      assert idx[i] < idx[j];
      assert ys[i] == xs[idx[i]] && ys[j] == xs[idx[j]];
    }
  }

  /** Being a prefix is transitive. */
  lemma PrefixTrans<T>(a: seq<T>, b: seq<T>, c: seq<T>)
    requires a <= b && b <= c
    ensures a <= c
  {
    assert c[..|b|][..|a|] == c[..|a|];
  }
}
