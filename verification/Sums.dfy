/** Sums of an integer measure over a list of keys. */
module Sums {
  import opened Basics

  function SumBy<K>(keys: seq<K>, f: K -> int): int {
    if keys == [] then 0 else f(keys[0]) + SumBy(keys[1..], f)
  }

  lemma {:induction false} SumExt<K>(keys: seq<K>, f: K -> int, g: K -> int)
    requires forall k :: k in keys ==> f(k) == g(k)
    ensures SumBy(keys, f) == SumBy(keys, g)
  {
    if keys == [] {
    } else {
      SumExt(keys[1..], f, g);
    }
  }

  lemma {:induction false} SumLe<K>(keys: seq<K>, f: K -> int, g: K -> int)
    requires forall k :: k in keys ==> f(k) <= g(k)
    ensures SumBy(keys, f) <= SumBy(keys, g)
  {
    if keys == [] {
    } else {
      SumLe(keys[1..], f, g);
    }
  }

  lemma {:induction false} SumNonNegative<K>(keys: seq<K>, f: K -> int)
    requires forall k :: k in keys ==> f(k) >= 0
    ensures SumBy(keys, f) >= 0
  {
    if keys == [] {
    } else {
      SumNonNegative(keys[1..], f);
    }
  }

  /** A sum of amounts that are not negative is at least each of them. */
  lemma {:induction false} SumAtLeast<K>(keys: seq<K>, f: K -> int, p: K)
    requires p in keys && forall k :: k in keys ==> f(k) >= 0
    ensures SumBy(keys, f) >= f(p)
  {
    assert forall k :: k in keys[1..] ==> k in keys;
    SumNonNegative(keys[1..], f);
    if keys[0] == p {
    } else {
      SumAtLeast(keys[1..], f, p);
    }
  }

  /** Changing the measure of one key moves the sum by exactly that change. */
  lemma {:induction false} SumChange<K>(keys: seq<K>, f: K -> int, g: K -> int, p: K)
    requires Distinct(keys) && p in keys
    requires forall k :: k in keys && k != p ==> f(k) == g(k)
    ensures SumBy(keys, g) == SumBy(keys, f) + g(p) - f(p)
  {
    DistinctTail(keys);
    if keys[0] == p {
      SumExt(keys[1..], f, g);
    } else {
      SumChange(keys[1..], f, g, p);
    }
  }

  lemma {:induction false} SumConcat<K>(xs: seq<K>, ys: seq<K>, f: K -> int)
    ensures SumBy(xs + ys, f) == SumBy(xs, f) + SumBy(ys, f)
  {
    if xs == [] {
      assert xs + ys == ys;
    } else {
      SumConcat(xs[1..], ys, f);
      assert (xs + ys)[1..] == xs[1..] + ys;
    }
  }

  lemma SumSnoc<K>(xs: seq<K>, x: K, f: K -> int)
    ensures SumBy(xs + [x], f) == SumBy(xs, f) + f(x)
  {
    SumConcat(xs, [x], f);
    assert [x][1..] == [];
  }

  /** The prefix sum grows by one element at a time. */
  lemma SumPrefix<K>(xs: seq<K>, i: nat, f: K -> int)
    requires i < |xs|
    ensures SumBy(xs[..i + 1], f) == SumBy(xs[..i], f) + f(xs[i])
  {
    assert xs[..i + 1] == xs[..i] + [xs[i]];
    SumSnoc(xs[..i], xs[i], f);
  }
}
