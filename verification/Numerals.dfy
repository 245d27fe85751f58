/** Positional numerals in any base, most significant digit first. */
module Numerals {

  predicate DigitsBelow(ds: seq<int>, base: int) {
    forall i :: 0 <= i < |ds| ==> 0 <= ds[i] < base
  }

  /** The number the digits denote. */
  function Value(ds: seq<int>, base: int): int {
    if ds == [] then 0 else base * Value(ds[..|ds| - 1], base) + ds[|ds| - 1]
  }

  /** The shortest digits of n; zero has none. */
  function Digits(n: nat, base: int): (ds: seq<int>)
    requires base >= 2
    ensures DigitsBelow(ds, base)
    ensures ds != [] ==> ds[0] != 0
  {
    if n == 0 then [] else
      Smaller(n, base);
      Digits(n / base, base) + [n % base]
  }

  lemma Smaller(n: nat, base: int)
    requires base >= 2 && n > 0
    ensures 0 <= n / base < n && 0 <= n % base < base
    ensures n < base ==> n % base == n && n / base == 0
  {
    assert n == base * (n / base) + n % base;
    if n / base < 0 { Scale(n / base, -1, base); }
    if n / base >= n { Scale(n, n / base, base); }
    if n < base && n / base > 0 { Scale(1, n / base, base); }
  }

  lemma Scale(a: int, b: int, base: int)
    requires a <= b && base >= 0
    ensures base * a <= base * b
  {
  }

  /** Division undoes one positional step. */
  lemma Split(q: int, r: int, base: int)
    requires 0 <= r < base
    ensures (base * q + r) / base == q && (base * q + r) % base == r
  {
    var n := base * q + r;
    assert n == base * (n / base) + n % base;
    if n / base < q { Scale(n / base + 1, q, base); }
    if n / base > q { Scale(q + 1, n / base, base); }
  }

  lemma {:induction false} ValueNonNegative(ds: seq<int>, base: int)
    requires base >= 2 && DigitsBelow(ds, base)
    ensures Value(ds, base) >= 0
    ensures ds != [] && ds[0] != 0 ==> Value(ds, base) > 0
  {
    if ds == [] {
    } else {
      ValueNonNegative(ds[..|ds| - 1], base);
      Scale(0, Value(ds[..|ds| - 1], base), base);
      if |ds| > 1 && ds[0] != 0 { Scale(1, Value(ds[..|ds| - 1], base), base); }
    }
  }

  lemma ValueSnoc(ds: seq<int>, d: int, base: int)
    ensures Value(ds + [d], base) == base * Value(ds, base) + d
  {
    assert (ds + [d])[..|ds|] == ds;
  }

  lemma Recompose(n: int, base: int, q: int)
    requires base >= 2 && q == n / base
    ensures base * q + n % base == n
  {
  }

  lemma {:induction false} ValueOfDigits(n: nat, base: int)
    requires base >= 2
    ensures Value(Digits(n, base), base) == n
  {
    if n == 0 {
    } else {
      Smaller(n, base);
      var q, r := n / base, n % base;
      ValueOfDigits(q, base);
      ValueSnoc(Digits(q, base), r, base);
      Recompose(n, base, q);
    }
  }

  /** Digits without a leading zero are the digits of their value. */
  lemma {:induction false} DigitsOfValue(ds: seq<int>, base: int)
    requires base >= 2 && DigitsBelow(ds, base)
    requires ds != [] ==> ds[0] != 0
    ensures Value(ds, base) >= 0 && Digits(Value(ds, base), base) == ds
  {
    ValueNonNegative(ds, base);
    if ds == [] {
    } else {
      var front, last := ds[..|ds| - 1], ds[|ds| - 1];
      DigitsOfValue(front, base);
      Split(Value(front, base), last, base);
      assert ds == front + [last];
    }
  }

  function Zeros(n: nat): (z: seq<int>)
    ensures |z| == n && forall i :: 0 <= i < n ==> z[i] == 0
  {
    seq(n, _ => 0)
  }

  function LeadingZeros(ds: seq<int>): (n: nat)
    ensures n <= |ds|
    ensures forall i :: 0 <= i < n ==> ds[i] == 0
    ensures n < |ds| ==> ds[n] != 0
  {
    if ds != [] && ds[0] == 0 then
      var n := LeadingZeros(ds[1..]);
      assert forall i :: 0 < i <= n ==> ds[i] == ds[1..][i - 1];
      1 + n
    else 0
  }

  /** Leading zeros followed by digits that do not start with one are counted exactly. */
  lemma LeadingZerosPadded(n: nat, ds: seq<int>)
    requires ds != [] ==> ds[0] != 0
    ensures LeadingZeros(Zeros(n) + ds) == n
  {
    var all := Zeros(n) + ds;
    assert forall i :: 0 <= i < n ==> all[i] == 0;
    assert ds != [] ==> all[n] == ds[0];
  }

  /** Leading zeros do not change the value. */
  lemma {:induction false} ValuePadded(n: nat, ds: seq<int>, base: int)
    ensures Value(Zeros(n) + ds, base) == Value(ds, base)
    decreases |ds|, n
  {
    if ds != [] {
      ValuePadded(n, ds[..|ds| - 1], base);
      assert (Zeros(n) + ds)[..n + |ds| - 1] == Zeros(n) + ds[..|ds| - 1];
    } else if n > 0 {
      ValuePadded(n - 1, ds, base);
      assert (Zeros(n) + ds)[..n - 1] == Zeros(n - 1) + ds;
    }
  }

  /** Any digits are their leading zeros followed by the shortest digits of their value. */
  lemma Normal(ds: seq<int>, base: int)
    requires base >= 2 && DigitsBelow(ds, base)
    ensures Value(ds, base) >= 0
    ensures ds == Zeros(LeadingZeros(ds)) + Digits(Value(ds, base), base)
  {
    var z := LeadingZeros(ds);
    var rest := ds[z..];
    assert ds == Zeros(z) + rest;
    ValuePadded(z, rest, base);
    DigitsOfValue(rest, base);
  }

  function Reverse(ds: seq<int>): (r: seq<int>)
    ensures |r| == |ds| && forall i :: 0 <= i < |ds| ==> r[i] == ds[|ds| - 1 - i]
  {
    seq(|ds|, i requires 0 <= i < |ds| => ds[|ds| - 1 - i])
  }

  /** The number of digits listed least significant first. */
  function LittleEndian(ds: seq<int>, base: int): int {
    if ds == [] then 0 else ds[0] + base * LittleEndian(ds[1..], base)
  }

  lemma {:induction false} ReverseValue(ds: seq<int>, base: int)
    ensures Value(Reverse(ds), base) == LittleEndian(ds, base)
  {
    if ds == [] {
    } else {
      ReverseValue(ds[1..], base);
      assert Reverse(ds)[..|ds| - 1] == Reverse(ds[1..]);
    }
  }
}
