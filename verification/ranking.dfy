/** Top-N selection: the meaning of an ORM query with `orderBy: { k: 'desc' }`
    and `take: n`. The database does not promise an order among equal keys,
    and neither do the contracts here; the definition happens to keep the
    first of several maxima. */
module Ranking {
  import opened Common

  /** Keys never increase along `xs`. */
  predicate SortedDesc<T>(xs: seq<T>, key: T -> int) {
    forall i, j :: 0 <= i < j < |xs| ==> key(xs[i]) >= key(xs[j])
  }

  /** Every element left out ranks no higher than any element that was kept. */
  ghost predicate Outranks<T>(kept: seq<T>, left: multiset<T>, key: T -> int) {
    forall x, i :: x in left && 0 <= i < |kept| ==> key(x) <= key(kept[i])
  }

  /** Position of a largest key (the first one, when several are equal). */
  function ArgMax<T>(xs: seq<T>, key: T -> int): (m: nat)
    requires |xs| > 0
    ensures m < |xs|
    ensures forall j :: 0 <= j < |xs| ==> key(xs[j]) <= key(xs[m])
    decreases |xs|
  {
    if |xs| == 1 then 0
    else
      var k := ArgMax(xs[1..], key);
      if key(xs[0]) >= key(xs[1 + k]) then 0 else 1 + k
  }

  function RemoveAt<T>(xs: seq<T>, i: nat): (r: seq<T>)
    requires i < |xs|
    ensures |r| == |xs| - 1
    ensures multiset(r) + multiset{xs[i]} == multiset(xs)
  {
    assert xs == xs[..i] + [xs[i]] + xs[i + 1..];
    xs[..i] + xs[i + 1..]
  }

  /** The first `n` elements of `xs` ordered by `key`, largest first. */
  function TopBy<T>(xs: seq<T>, key: T -> int, n: nat): (r: seq<T>)
    ensures |r| == Min(n, |xs|)
    ensures multiset(r) <= multiset(xs)
    ensures n >= |xs| ==> multiset(r) == multiset(xs)
    ensures SortedDesc(r, key)
    ensures Outranks(r, multiset(xs) - multiset(r), key)
    decreases n
  {
    if n == 0 || |xs| == 0 then []
    else
      var m := ArgMax(xs, key);
      var rest := TopBy(RemoveAt(xs, m), key, n - 1);
      TopByStep(xs, key, m, rest);
      [xs[m]] + rest
  }

  /** The inductive step of `TopBy`: putting a maximum in front of the top of
      what remains keeps the order and the ranking. */
  lemma TopByStep<T>(xs: seq<T>, key: T -> int, m: nat, rest: seq<T>)
    requires m < |xs|
    requires forall j :: 0 <= j < |xs| ==> key(xs[j]) <= key(xs[m])
    requires multiset(rest) <= multiset(RemoveAt(xs, m))
    requires SortedDesc(rest, key)
    requires Outranks(rest, multiset(RemoveAt(xs, m)) - multiset(rest), key)
    ensures SortedDesc([xs[m]] + rest, key)
    ensures Outranks([xs[m]] + rest, multiset(xs) - multiset([xs[m]] + rest), key)
  {
    var left := multiset(RemoveAt(xs, m)) - multiset(rest);
    MaxBoundsMultiset(xs, key, m);
    MaxBoundsSub(xs, key, m, rest);
    PrependSorted(xs[m], key, rest);
    LeftAfterPrepend(xs, m, rest);
    assert forall x :: x in left ==> x in multiset(xs);
    PrependOutranks(xs[m], key, rest, left);
  }

  lemma MaxBoundsMultiset<T>(xs: seq<T>, key: T -> int, m: nat)
    requires m < |xs|
    requires forall j :: 0 <= j < |xs| ==> key(xs[j]) <= key(xs[m])
    ensures forall x :: x in multiset(xs) ==> key(x) <= key(xs[m])
  {
    forall x | x in multiset(xs) ensures key(x) <= key(xs[m]) {
      var j :| 0 <= j < |xs| && xs[j] == x;
    }
  }

  lemma MaxBoundsSub<T>(xs: seq<T>, key: T -> int, m: nat, rest: seq<T>)
    requires m < |xs|
    requires forall x :: x in multiset(xs) ==> key(x) <= key(xs[m])
    requires multiset(rest) <= multiset(RemoveAt(xs, m))
    ensures forall j :: 0 <= j < |rest| ==> key(rest[j]) <= key(xs[m])
  {
    forall j | 0 <= j < |rest| ensures key(rest[j]) <= key(xs[m]) {
      assert rest[j] in multiset(rest);
      assert rest[j] in multiset(xs);
    }
  }

  /** What is left out after the step is what the recursive call left out. */
  lemma LeftAfterPrepend<T>(xs: seq<T>, m: nat, rest: seq<T>)
    requires m < |xs|
    ensures multiset(xs) - multiset([xs[m]] + rest) == multiset(RemoveAt(xs, m)) - multiset(rest)
  {
    assert multiset([xs[m]] + rest) == multiset(rest) + multiset{xs[m]};
  }

  /** A key no smaller than all of a sorted sequence can go in front. */
  lemma PrependSorted<T>(top: T, key: T -> int, rest: seq<T>)
    requires forall j :: 0 <= j < |rest| ==> key(rest[j]) <= key(top)
    requires SortedDesc(rest, key)
    ensures SortedDesc([top] + rest, key)
  {
    var r := [top] + rest;
    forall i, j | 0 <= i < j < |r| ensures key(r[i]) >= key(r[j]) {
      assert r[j] == rest[j - 1];
      if i > 0 {
        assert r[i] == rest[i - 1];
      }
    }
  }

  /** Prepending an element that outranks everything left out keeps the
      ranking. */
  lemma PrependOutranks<T>(top: T, key: T -> int, rest: seq<T>, left: multiset<T>)
    requires forall x :: x in left ==> key(x) <= key(top)
    requires Outranks(rest, left, key)
    ensures Outranks([top] + rest, left, key)
  {
    var r := [top] + rest;
    forall x, i | x in left && 0 <= i < |r| ensures key(x) <= key(r[i]) {
      if i > 0 {
        assert r[i] == rest[i - 1];
      }
    }
  }

  /** A multiset has at most one copy of each element of a distinct sequence. */
  lemma {:induction false} DistinctMultiplicity<T>(xs: seq<T>, x: T)
    requires Distinct(xs)
    ensures multiset(xs)[x] <= 1
    decreases |xs|
  {
    if |xs| > 0 {
      var init := xs[..|xs| - 1];
      assert xs == init + [xs[|xs| - 1]];
      DistinctMultiplicity(init, x);
      if x == xs[|xs| - 1] {
        assert x !in init;
      }
    }
  }

  /** Selecting from a sequence without repetitions selects no element twice. */
  lemma SubMultisetOfDistinct<T>(r: seq<T>, xs: seq<T>)
    requires Distinct(xs)
    requires multiset(r) <= multiset(xs)
    ensures Distinct(r)
  {
    forall i, j | 0 <= i < j < |r| ensures r[i] != r[j] {
      if r[i] == r[j] {
        var x := r[i];
        assert r == r[..j] + [r[j]] + r[j + 1..];
        assert x in r[..j];
        assert multiset(r)[x] >= 2;
        DistinctMultiplicity(xs, x);
        assert false;
      }
    }
  }
}
