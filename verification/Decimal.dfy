/** Decimal text of natural numbers: BigInt.prototype.toString and BigInt(text). */
module Decimal {

  predicate IsDigit(c: char) {
    '0' <= c <= '9'
  }

  predicate AllDigits(s: string) {
    forall i :: 0 <= i < |s| ==> IsDigit(s[i])
  }

  function DigitOf(d: nat): (c: char)
    requires d < 10
    ensures IsDigit(c) && ValueOf(c) == d
  {
    '0' + d as char
  }

  function ValueOf(c: char): (d: nat)
    requires IsDigit(c)
    ensures d < 10
  {
    (c - '0') as nat
  }

  /** The shortest decimal text of n. */
  function Print(n: nat): (s: string)
    ensures Canonical(s)
    ensures n > 0 ==> s[0] != '0'
  {
    if n < 10 then [DigitOf(n)] else Print(n / 10) + [DigitOf(n % 10)]
  }

  /** The text of a bigint, with a leading minus sign when negative. */
  function PrintInt(n: int): string {
    if n < 0 then "-" + Print(-n) else Print(n)
  }

  /** The number a digit string denotes; the empty string denotes zero, as BigInt("") does. */
  function Parse(s: string): nat
    requires AllDigits(s)
  {
    if s == [] then 0 else 10 * Parse(s[..|s| - 1]) + ValueOf(s[|s| - 1])
  }

  /** Digits without a superfluous leading zero: `0|[1-9]\d*`. */
  predicate Canonical(s: string) {
    s != [] && AllDigits(s) && (s[0] == '0' ==> |s| == 1)
  }

  function Pow10(n: nat): (p: nat)
    ensures p > 0
  {
    if n == 0 then 1 else 10 * Pow10(n - 1)
  }

  lemma {:induction false} ParsePrint(n: nat)
    ensures Parse(Print(n)) == n
  {
    if n >= 10 {
      ParsePrint(n / 10);
      var s := Print(n);
      assert s[..|s| - 1] == Print(n / 10);
    } else {
      assert Print(n)[..0] == [];
    }
  }

  lemma DigitOfValue(c: char)
    requires IsDigit(c)
    ensures DigitOf(ValueOf(c)) == c && (c != '0' ==> ValueOf(c) > 0)
  {
  }

  lemma ParseSnoc(front: string, c: char)
    requires AllDigits(front) && IsDigit(c)
    ensures AllDigits(front + [c]) && Parse(front + [c]) == 10 * Parse(front) + ValueOf(c)
  {
    assert (front + [c])[..|front|] == front;
  }

  lemma PrintSnoc(n: nat, c: char)
    requires n > 0 && IsDigit(c)
    ensures Print(10 * n + ValueOf(c)) == Print(n) + [c]
  {
    DigitOfValue(c);
    assert (10 * n + ValueOf(c)) / 10 == n && (10 * n + ValueOf(c)) % 10 == ValueOf(c);
  }

  lemma {:induction false} PrintParse(s: string)
    requires Canonical(s)
    ensures Print(Parse(s)) == s
    ensures s[0] != '0' ==> Parse(s) > 0
  {
    var front, last := s[..|s| - 1], s[|s| - 1];
    assert s == front + [last];
    DigitOfValue(last);
    ParseSnoc(front, last);
    if front == [] {
    } else {
      PrintParse(front);
      PrintSnoc(Parse(front), last);
    }
  }

  lemma PrintInjective(m: nat, n: nat)
    requires Print(m) == Print(n)
    ensures m == n
  {
    ParsePrint(m);
    ParsePrint(n);
  }

  lemma Rebase(a: int, p: int, b: int, c: int)
    ensures 10 * (a * p + b) + c == a * (10 * p) + (10 * b + c)
  {
  }

  lemma {:induction false} ParseConcat(s: string, t: string)
    requires AllDigits(s) && AllDigits(t)
    ensures AllDigits(s + t)
    ensures Parse(s + t) == Parse(s) * Pow10(|t|) + Parse(t)
  {
    if t == [] {
      assert s + t == s;
    } else {
      var front := t[..|t| - 1];
      ParseConcat(s, front);
      assert (s + t)[..|s + t| - 1] == s + front;
      Rebase(Parse(s), Pow10(|front|), Parse(front), ValueOf(t[|t| - 1]));
    }
  }

  lemma {:induction false} ParseBound(s: string)
    requires AllDigits(s)
    ensures Parse(s) < Pow10(|s|)
  {
    if s == [] {
    } else {
      ParseBound(s[..|s| - 1]);
    }
  }

  lemma PrintUnsigned(n: nat)
    ensures Print(n)[0] != '-'
  {
    assert IsDigit(Print(n)[0]);
  }

  lemma PrintIntInjective(m: int, n: int)
    requires PrintInt(m) == PrintInt(n)
    ensures m == n
  {
    if m >= 0 { PrintUnsigned(m); }
    if n >= 0 { PrintUnsigned(n); }
    if m < 0 {
      assert Print(-m) == PrintInt(m)[1..] == PrintInt(n)[1..] == Print(-n);
      PrintInjective(-m, -n);
    } else {
      PrintInjective(m, n);
    }
  }

  function Zeros(n: nat): (s: string)
    ensures |s| == n && AllDigits(s)
  {
    if n == 0 then "" else Zeros(n - 1) + "0"
  }

  lemma {:induction false} ZerosConcat(k: nat, m: nat)
    ensures Zeros(k) + Zeros(m) == Zeros(k + m)
  {
    if m > 0 {
      ZerosConcat(k, m - 1);
      assert Zeros(k) + (Zeros(m - 1) + "0") == (Zeros(k) + Zeros(m - 1)) + "0";
    } else {
      assert Zeros(k) + "" == Zeros(k);
    }
  }

  lemma {:induction false} ParseZeros(n: nat)
    ensures Parse(Zeros(n)) == 0
  {
    if n == 0 {
    } else {
      ParseZeros(n - 1);
      ParseSnoc(Zeros(n - 1), '0');
    }
  }

  lemma {:induction false} PrintLength(n: nat, d: nat)
    requires d > 0 && n < Pow10(d)
    ensures |Print(n)| <= d
  {
    if n < 10 {
    } else {
      PrintLength(n / 10, d - 1);
    }
  }
}
