/** Result types and list helpers shared by every component. */
module Basics {
  datatype Option<+T> = None | Some(value: T)

  datatype Result<+T, +E> = Ok(value: T) | Err(error: E)

  function Min(x: int, y: int): int {
    if x < y then x else y
  }

  function Max(x: int, y: int): int {
    if x < y then y else x
  }

  /** Math.max(lo, Math.min(hi, x)), the clamp used on leases, lifetimes and limits. */
  function Clamp(lo: int, hi: int, x: int): int {
    Max(lo, Min(hi, x))
  }

  /** n divided by d, rounded up: how many portions of size d cover n. */
  function CeilDiv(n: int, d: int): (q: nat)
    requires d > 0
    ensures n > 0 ==> q > 0
    decreases n
  {
    if n <= 0 then 0 else 1 + CeilDiv(n - d, d)
  }

  /** n portions of size s. */
  function Portions(n: nat, s: int): int {
    if n == 0 then 0 else Portions(n - 1, s) + s
  }

  lemma {:induction false} PortionsIsProduct(n: nat, s: int)
    ensures Portions(n, s) == n * s
  {
    if n == 0 {
    } else {
      PortionsIsProduct(n - 1, s);
    }
  }

  lemma {:induction false} PortionsAtLeast(n: nat, s: int)
    requires n >= 1 && s >= 0
    ensures Portions(n, s) >= s
  {
    if n <= 1 {
    } else {
      PortionsAtLeast(n - 1, s);
    }
  }

  /** d portions of the rounded-up share cover n, with less than one unit per portion to spare. */
  lemma CeilDivBounds(n: int, d: int)
    requires d > 0 && n > 0
    ensures Portions(d, CeilDiv(n, d)) - (d - 1) <= n <= Portions(d, CeilDiv(n, d))
  {
    CeilDivCovers(n, d);
    PortionsIsProduct(d, CeilDiv(n, d));
    PortionsIsProduct(CeilDiv(n, d), d);
  }

  lemma {:induction false} CeilDivCovers(n: int, d: int)
    requires d > 0 && n > 0
    ensures Portions(CeilDiv(n, d), d) - (d - 1) <= n <= Portions(CeilDiv(n, d), d)
    decreases n
  {
    if n > d {
      CeilDivCovers(n - d, d);
    } else {
      assert CeilDiv(n - d, d) == 0;
    }
  }

  /** The division the source writes. */
  lemma CeilDivIsDivision(n: int, d: int)
    requires d > 0 && n > 0
    ensures CeilDiv(n, d) == (n + d - 1) / d
  {
    CeilDivCovers(n, d);
    DivisionPortions(n + d - 1, d);
    PortionsUnique(CeilDiv(n, d), (n + d - 1) / d, n + d - 1, d);
  }

  lemma DivisionPortions(m: nat, d: int)
    requires d > 0
    ensures m / d >= 0 && Portions(m / d, d) <= m < Portions(m / d, d) + d
  {
    PortionsIsProduct(m / d, d);
  }

  lemma PortionsUnique(a: nat, b: nat, m: int, d: int)
    requires d > 0
    requires Portions(a, d) <= m < Portions(a, d) + d
    requires Portions(b, d) <= m < Portions(b, d) + d
    ensures a == b
  {
    PortionsGap(a, b, d);
    PortionsGap(b, a, d);
  }

  lemma {:induction false} PortionsGap(a: nat, b: nat, s: int)
    requires s >= 0
    ensures a < b ==> Portions(a, s) + s <= Portions(b, s)
    decreases b
  {
    if a >= b {
    } else {
      PortionsGap(a, b - 1, s);
    }
  }

  lemma Associative<T>(xs: seq<T>, ys: seq<T>, zs: seq<T>)
    ensures (xs + ys) + zs == xs + (ys + zs)
  {
  }

  /** No element occurs twice. */
  predicate Distinct<T(==)>(xs: seq<T>) {
    forall i, j :: 0 <= i < j < |xs| ==> xs[i] != xs[j]
  }

  lemma DistinctTail<T>(xs: seq<T>)
    requires Distinct(xs) && xs != []
    ensures Distinct(xs[1..]) && xs[0] !in xs[1..]
    ensures forall x :: x in xs <==> x == xs[0] || x in xs[1..]
  {
  }
}
