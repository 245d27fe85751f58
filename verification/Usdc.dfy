/**
  USDC amounts as decimal text with six decimals: parseUsdc of packages/application/src/contracts.ts, atomicToUsd of
  packages/persistence/src/policies.ts, and both functions of apps/web/src/lib/money.ts.
 */
module Usdc {
  import opened Basics
  import opened Decimal
  import Text

  const DECIMALS := 6
  const SCALE: int := 1_000_000

  // ----- text helpers -----

  function DotIndex(s: string): (i: nat)
    ensures i <= |s| && '.' !in s[..i] && (i < |s| ==> s[i] == '.')
  {
    if s == [] || s[0] == '.' then 0
    else
      assert forall i :: 0 <= i <= |s[1..]| ==> s[..i + 1] == [s[0]] + s[1..][..i];
      1 + DotIndex(s[1..])
  }

  function Whole(s: string): string {
    s[..DotIndex(s)]
  }

  predicate HasDot(s: string) {
    DotIndex(s) < |s|
  }

  /** The text after the first dot, or nothing. */
  function Fraction(s: string): string {
    if HasDot(s) then s[DotIndex(s) + 1..] else ""
  }

  /** text.padEnd(width, "0"). */
  function PadEnd(s: string, width: nat): string {
    if |s| >= width then s else s + Zeros(width - |s|)
  }

  /** text.padStart(width, "0"). */
  function PadStart(s: string, width: nat): string {
    if |s| >= width then s else Zeros(width - |s|) + s
  }

  /** text.replace(/0+$/, ""). */
  function StripZeros(s: string): string {
    if s != [] && s[|s| - 1] == '0' then StripZeros(s[..|s| - 1]) else s
  }

  /** What is stripped is zeros, and no zero is left at the end. */
  lemma {:induction false} StripSplit(s: string)
    ensures var t := StripZeros(s);
      |t| <= |s| && s == t + Zeros(|s| - |t|) && (t != [] ==> t[|t| - 1] != '0')
  {
    if s != [] && s[|s| - 1] == '0' {
      var front := s[..|s| - 1];
      StripSplit(front);
      assert s == front + "0";
      Associative(StripZeros(s), Zeros(|front| - |StripZeros(s)|), "0");
    } else {
      assert s + Zeros(0) == s;
    }
  }

  lemma StrippedDigits(s: string)
    requires AllDigits(s)
    ensures AllDigits(StripZeros(s)) && Shortened(s, StripZeros(s))
  {
    StripSplit(s);
    var t := StripZeros(s);
    forall i | 0 <= i < |t| ensures IsDigit(t[i]) {
      assert t[i] == s[i];
    }
  }

  // ----- the accepted grammars -----

  /** `^(0|[1-9]\d*)(\.\d{1,6})?$`, the money schema of tasks and policies. */
  predicate IsMoney(s: string) {
    && Canonical(Whole(s))
    && (HasDot(s) ==> AllDigits(Fraction(s)) && 1 <= |Fraction(s)| <= DECIMALS)
  }

  /** `^(\d+)(?:\.(\d{0,6}))?$`, what the web form accepts after trimming. */
  predicate IsFormMoney(s: string) {
    && AllDigits(Whole(s)) && Whole(s) != []
    && (HasDot(s) ==> AllDigits(Fraction(s)) && |Fraction(s)| <= DECIMALS)
  }

  /** parseUsdc of the application, on text its schema has accepted. */
  function ParseUsdc(s: string): int
    requires IsMoney(s)
  {
    SixDigits(Fraction(s));
    Amount(Whole(s), (Fraction(s) + "000000")[..6])
  }

  function Amount(whole: string, sixDigits: string): nat
    requires AllDigits(whole) && AllDigits(sixDigits)
  {
    Parse(whole) * SCALE + Parse(sixDigits)
  }

  lemma SixDigits(fraction: string)
    requires AllDigits(fraction) && |fraction| <= DECIMALS
    ensures (fraction + "000000")[..6] == PadEnd(fraction, DECIMALS)
    ensures AllDigits(PadEnd(fraction, DECIMALS)) && |PadEnd(fraction, DECIMALS)| == DECIMALS
  {
    SixZeros(DECIMALS - |fraction|);
  }

  lemma SixZeros(n: nat)
    requires n <= DECIMALS
    ensures "000000"[..n] == Zeros(n)
  {
    if n > 0 {
      SixZeros(n - 1);
      assert "000000"[..n] == "000000"[..n - 1] + "0";
    }
  }

  /** parseUsdc of the web form; None when it throws. */
  function ParseForm(s: string): Option<int> {
    var normalized := Text.Trim(s);
    if !IsFormMoney(normalized) then None
    else
      SixDigits(Fraction(normalized));
      Some(Amount(Whole(normalized), PadEnd(Fraction(normalized), DECIMALS)))
  }

  function Join(whole: string, fraction: string): string {
    if fraction == "" then whole else whole + "." + fraction
  }

  /** The six fraction digits of an amount. */
  function FractionDigits(n: nat): string {
    PadStart(Print(n % SCALE), DECIMALS)
  }

  /** atomicToUsd. */
  function AtomicToUsd(n: nat): string {
    Join(Print(n / SCALE), StripZeros(FractionDigits(n)))
  }

  /** formatUsdcAtomic: at most `digits` fraction digits, cut off and never rounded. */
  function FormatUsdcAtomic(value: int, digits: int): string {
    var absolute := if value < 0 then -value else value;
    var shown := Max(0, Min(digits, DECIMALS));
    FractionDigitsShape(absolute);
    (if value < 0 then "-" else "") + Join(Print(absolute / SCALE), StripZeros(FractionDigits(absolute)[..shown]))
  }

  lemma FractionDigitsShape(n: nat)
    ensures |FractionDigits(n)| == DECIMALS && AllDigits(FractionDigits(n))
    ensures Parse(FractionDigits(n)) == n % SCALE
  {
    var m := n % SCALE;
    assert m < Pow10(6);
    PrintLength(m, 6);
    var z := DECIMALS - |Print(m)|;
    ParsePrint(m);
    ParseZeros(z);
    ParseConcat(Zeros(z), Print(m));
    assert Zeros(0) + Print(m) == Print(m);
  }

  // ----- round trips -----

  /** Joined text splits into the same parts again. */
  lemma Splits(whole: string, fraction: string)
    requires AllDigits(whole) && AllDigits(fraction)
    ensures Whole(Join(whole, fraction)) == whole && Fraction(Join(whole, fraction)) == fraction
    ensures HasDot(Join(whole, fraction)) <==> fraction != ""
  {
    var s := Join(whole, fraction);
    assert forall i :: 0 <= i < |whole| ==> s[i] == whole[i] && IsDigit(s[i]);
    DotAt(s, |whole|);
    if fraction != "" { assert s[|whole| + 1..] == fraction; }
  }

  lemma {:induction false} DotAt(s: string, k: nat)
    requires k <= |s| && (forall i :: 0 <= i < k ==> s[i] != '.') && (k < |s| ==> s[k] == '.')
    ensures DotIndex(s) == k
  {
    if k == 0 {
    } else {
      DotAt(s[1..], k - 1);
    }
  }

  /** f is t without some of its trailing zeros. */
  predicate Shortened(t: string, f: string) {
    |f| <= |t| && t == f + Zeros(|t| - |f|)
  }

  /** Dropping trailing zeros before padding makes no difference. */
  lemma PadShortened(t: string, f: string, width: nat)
    requires |t| <= width && Shortened(t, f)
    ensures PadEnd(f, width) == t + Zeros(width - |t|)
  {
    var k, m := |t| - |f|, width - |t|;
    ZerosConcat(k, m);
    Associative(f, Zeros(k), Zeros(m));
    if k + m == 0 { assert f + Zeros(0) == f; }
  }

  /** The text of w whole units and a digit string, with trailing zeros dropped. */
  lemma JoinedText(w: nat, t: string, f: string)
    requires AllDigits(t) && AllDigits(f) && |t| <= DECIMALS && Shortened(t, f)
    ensures var s := Join(Print(w), f);
      IsMoney(s) && ParseUsdc(s) == w * SCALE + Parse(t + Zeros(DECIMALS - |t|))
  {
    PadShortened(t, f, DECIMALS);
    Splits(Print(w), f);
    ParsePrint(w);
    SixDigits(f);
  }

  lemma StrippedText(w: nat, t: string, text: string)
    requires AllDigits(t) && |t| <= DECIMALS && text == Join(Print(w), StripZeros(t))
    ensures IsMoney(text) && ParseUsdc(text) == w * SCALE + Parse(t + Zeros(DECIMALS - |t|))
  {
    StrippedDigits(t);
    JoinedText(w, t, StripZeros(t));
  }

  /** Printing any amount and parsing it returns the amount, in the accepted grammar. */
  lemma ParseOfPrint(n: nat)
    ensures IsMoney(AtomicToUsd(n)) && ParseUsdc(AtomicToUsd(n)) == n
  {
    FractionDigitsShape(n);
    var t := FractionDigits(n);
    StrippedText(n / SCALE, t, AtomicToUsd(n));
    assert t + Zeros(0) == t;
  }

  /** A whole USDC is a million atomic units. */
  lemma WholeUnits(w: nat)
    ensures IsMoney(Print(w)) && ParseUsdc(Print(w)) == w * SCALE
  {
    ParseZeros(DECIMALS);
    assert "" + Zeros(DECIMALS) == Zeros(DECIMALS);
    JoinedText(w, "", "");
  }

  /** Fraction digits count from the left: the missing ones are zeros. */
  lemma FractionUnits(w: nat, t: string)
    requires AllDigits(t) && 1 <= |t| <= DECIMALS
    ensures IsMoney(Print(w) + "." + t)
    ensures ParseUsdc(Print(w) + "." + t) == w * SCALE + Parse(t + Zeros(DECIMALS - |t|))
  {
    assert t + Zeros(0) == t;
    JoinedText(w, t, t);
  }

  /** Parsing loses exactly the trailing zeros of the fraction. */
  lemma PrintOfParse(s: string)
    requires IsMoney(s)
    ensures ParseUsdc(s) >= 0
    ensures AtomicToUsd(ParseUsdc(s)) == Join(Whole(s), StripZeros(Fraction(s)))
  {
    var padded := PadEnd(Fraction(s), DECIMALS);
    SixDigits(Fraction(s));
    ParseBound(padded);
    var n := ParseUsdc(s);
    assert Parse(padded) < Pow10(6) == SCALE;
    assert n / SCALE == Parse(Whole(s)) && n % SCALE == Parse(padded);
    PrintParse(Whole(s));
    FractionDigitsShape(n);
    SameDigits(FractionDigits(n), padded);
    StripPadded(Fraction(s));
  }

  /** Text and amount correspond one to one once trailing zeros are excluded. */
  lemma PrintOfParseExactly(s: string)
    requires IsMoney(s)
    ensures ParseUsdc(s) >= 0
    ensures AtomicToUsd(ParseUsdc(s)) == s <==> !HasDot(s) || s[|s| - 1] != '0'
  {
    PrintOfParse(s);
    Rejoined(s);
    var f := Fraction(s);
    if HasDot(s) {
      assert f[|f| - 1] == s[|s| - 1];
      StripSplit(f);
      if StripZeros(f) != f { JoinLength(Whole(s), StripZeros(f), f); }
    }
  }

  lemma Rejoined(s: string)
    requires IsMoney(s)
    ensures s == Join(Whole(s), Fraction(s))
  {
  }

  lemma JoinLength(whole: string, f: string, g: string)
    requires |f| < |g|
    ensures |Join(whole, f)| < |Join(whole, g)|
  {
  }

  lemma {:induction false} SameDigits(s: string, t: string)
    requires AllDigits(s) && AllDigits(t) && |s| == |t| && Parse(s) == Parse(t)
    ensures s == t
  {
    if s == [] {
    } else {
      var k := |s| - 1;
      SameDigits(s[..k], t[..k]);
      assert s == s[..k] + [s[k]] && t == t[..k] + [t[k]];
    }
  }

  lemma {:induction false} StripPadded(f: string)
    requires |f| <= DECIMALS
    ensures StripZeros(PadEnd(f, DECIMALS)) == StripZeros(f)
  {
    StripAppended(f, DECIMALS - |f|);
    assert f + Zeros(0) == f;
  }

  lemma {:induction false} StripAppended(f: string, n: nat)
    ensures StripZeros(f + Zeros(n)) == StripZeros(f)
  {
    if n == 0 {
      assert f + Zeros(0) == f;
    } else {
      StripAppended(f, n - 1);
      assert (f + Zeros(n))[..|f| + n - 1] == f + Zeros(n - 1);
    }
  }

  // ----- the two parsers -----

  lemma MoneyIsVisible(s: string)
    requires IsMoney(s)
    ensures s != [] && !Text.IsWhitespace(s[0]) && !Text.IsWhitespace(s[|s| - 1])
  {
    assert IsDigit(Whole(s)[0]);
    if HasDot(s) {
      assert IsDigit(Fraction(s)[|Fraction(s)| - 1]);
    } else {
      assert IsDigit(Whole(s)[|s| - 1]);
    }
  }

  /** On the schema's grammar both parsers agree, with any white space around the form's text. */
  lemma ParsersAgree(left: string, s: string, right: string)
    requires IsMoney(s) && Text.AllWhitespace(left) && Text.AllWhitespace(right)
    ensures ParseForm(left + s + right) == Some(ParseUsdc(s))
  {
    MoneyIsVisible(s);
    Text.TrimPadded(left, s, right);
    SixDigits(Fraction(s));
  }

  /** What the form accepts is some amount the schema's text also denotes. */
  lemma FormAmountsAreMoney(s: string)
    requires ParseForm(s).Some?
    ensures ParseForm(s).value >= 0
    ensures var text := AtomicToUsd(ParseForm(s).value);
      IsMoney(text) && ParseUsdc(text) == ParseForm(s).value && ParseForm(text) == ParseForm(s)
  {
    var n := ParseForm(s).value;
    ParseOfPrint(n);
    ParsersAgree("", AtomicToUsd(n), "");
    assert "" + AtomicToUsd(n) + "" == AtomicToUsd(n);
  }

  // ----- the grammars -----

  /** Digits, and a fraction that is nothing, or a dot and digits. */
  predicate Spelled(s: string, w: string, f: string) {
    s == w + f && AllDigits(w) && (f != "" ==> f[0] == '.' && AllDigits(f[1..]))
  }

  lemma SpelledParts(s: string, w: string, f: string)
    requires Spelled(s, w, f)
    ensures Whole(s) == w && (HasDot(s) <==> f != "") && Fraction(s) == if f == "" then "" else f[1..]
  {
    assert forall i :: 0 <= i < |w| ==> s[i] == w[i] && IsDigit(s[i]);
    DotAt(s, |w|);
    if f != "" { assert s[|w| + 1..] == f[1..]; }
  }

  /** The fraction of a text with its dot. */
  function Tail(s: string): string {
    s[DotIndex(s)..]
  }

  lemma SpelledByParts(s: string)
    requires AllDigits(Whole(s)) && AllDigits(Fraction(s))
    ensures Spelled(s, Whole(s), Tail(s))
    ensures |Tail(s)| == if HasDot(s) then |Fraction(s)| + 1 else 0
  {
    assert s == s[..DotIndex(s)] + s[DotIndex(s)..];
    if HasDot(s) { assert Tail(s)[1..] == Fraction(s); }
  }

  /** Text of the schema: digits without a superfluous zero, and perhaps a dot and one to six digits. */
  lemma MoneyExactly(s: string)
    ensures IsMoney(s) <==> exists w, f :: Spelled(s, w, f) && Canonical(w) && |f| != 1 && |f| <= 7
  {
    if IsMoney(s) {
      SpelledByParts(s);
    }
    if w, f :| Spelled(s, w, f) && Canonical(w) && |f| != 1 && |f| <= 7 {
      SpelledParts(s, w, f);
    }
  }

  lemma SpelledForm(t: string, w: string, f: string)
    requires Spelled(t, w, f) && w != "" && |f| <= 7
    ensures var digits := if f == "" then "" else f[1..];
      && IsFormMoney(t) && Whole(t) == w && Fraction(t) == digits
      && AllDigits(digits + Zeros(6 - |digits|)) && PadEnd(digits, DECIMALS) == digits + Zeros(6 - |digits|)
  {
    var digits := if f == "" then "" else f[1..];
    SpelledParts(t, w, f);
    SixDigits(digits);
    assert digits + Zeros(0) == digits;
  }

  /** What the form reads: the whole units and six fraction digits, zeros for missing ones. */
  lemma FormReads(s: string, w: string, f: string)
    requires Spelled(Text.Trim(s), w, f) && w != "" && |f| <= 7
    ensures var digits := if f == "" then "" else f[1..];
      AllDigits(digits + Zeros(6 - |digits|))
      && ParseForm(s) == Some(Parse(w) * 1_000_000 + Parse(digits + Zeros(6 - |digits|)))
  {
    SpelledForm(Text.Trim(s), w, f);
  }

  /** The form reads exactly one or more digits and perhaps a dot and up to six digits, between white space. */
  lemma FormExactly(s: string)
    ensures ParseForm(s).Some? <==> exists w, f :: Spelled(Text.Trim(s), w, f) && w != "" && |f| <= 7
  {
    var t := Text.Trim(s);
    if IsFormMoney(t) { SpelledByParts(t); }
    if w, f :| Spelled(t, w, f) && w != "" && |f| <= 7 {
      FormReads(s, w, f);
    }
  }

  // ----- formatting -----

  /** The fraction digits that formatting shows and those it hides. */
  function Shown(value: nat, digits: nat): (t: string)
    requires digits <= DECIMALS
    ensures AllDigits(t) && |t| == digits
  {
    FractionDigitsShape(value);
    FractionDigits(value)[..digits]
  }

  function Hidden(value: nat, digits: nat): (t: string)
    requires digits <= DECIMALS
    ensures AllDigits(t) && |t| == DECIMALS - digits
  {
    FractionDigitsShape(value);
    FractionDigits(value)[digits..]
  }

  lemma ShownAndHidden(value: nat, digits: nat)
    requires digits <= DECIMALS
    ensures Parse(Shown(value, digits) + Hidden(value, digits)) == value % SCALE
  {
    FractionDigitsShape(value);
    assert Shown(value, digits) + Hidden(value, digits) == FractionDigits(value);
  }

  lemma FormatJoins(value: nat, digits: nat)
    requires digits <= DECIMALS
    ensures FormatUsdcAtomic(value, digits) == Join(Print(value / SCALE), StripZeros(Shown(value, digits)))
  {
    var s := Join(Print(value / SCALE), StripZeros(Shown(value, digits)));
    assert "" + s == s;
  }

  lemma FormReadsMoney(s: string)
    requires IsMoney(s)
    ensures ParseForm(s) == Some(ParseUsdc(s))
  {
    ParsersAgree("", s, "");
    assert "" + s + "" == s;
  }

  /**
    Formatting to d digits loses less than one unit of the last shown digit and never rounds up,
    and the amount read back shows the same text.
   */
  lemma FormatTruncates(value: nat, digits: nat)
    requires digits <= DECIMALS
    ensures var shown := ParseForm(FormatUsdcAtomic(value, digits));
      && shown.Some?
      && 0 <= value - shown.value < Pow10(DECIMALS - digits)
      && FormatUsdcAtomic(shown.value, digits) == FormatUsdcAtomic(value, digits)
  {
    LossBound(value, digits);
    FormatReads(value, digits);
    SameTextAgain(value, digits);
  }

  /** The amount that is left when the hidden digits become zeros. */
  function Truncated(value: nat, digits: nat): nat
    requires digits <= DECIMALS
  {
    (value / SCALE) * SCALE + Parse(Shown(value, digits) + Zeros(DECIMALS - digits))
  }

  lemma LossBound(value: nat, digits: nat)
    requires digits <= DECIMALS
    ensures 0 <= value - Truncated(value, digits) < Pow10(DECIMALS - digits)
  {
    ShownAndHidden(value, digits);
    var t, rest := Shown(value, digits), Hidden(value, digits);
    CutDigits(t, rest);
    assert DECIMALS - digits == |rest|;
    assert Truncated(value, digits) == (value / SCALE) * SCALE + Parse(t + Zeros(|rest|));
  }

  lemma FormatParses(value: nat, digits: nat)
    requires digits <= DECIMALS
    ensures IsMoney(FormatUsdcAtomic(value, digits))
    ensures ParseUsdc(FormatUsdcAtomic(value, digits)) == Truncated(value, digits)
  {
    FormatJoins(value, digits);
    StrippedText(value / SCALE, Shown(value, digits), FormatUsdcAtomic(value, digits));
  }

  lemma FormatReads(value: nat, digits: nat)
    requires digits <= DECIMALS
    ensures ParseForm(FormatUsdcAtomic(value, digits)) == Some(Truncated(value, digits))
  {
    FormatParses(value, digits);
    FormReadsMoney(FormatUsdcAtomic(value, digits));
  }

  lemma SameTextAgain(value: nat, digits: nat)
    requires digits <= DECIMALS
    ensures FormatUsdcAtomic(Truncated(value, digits), digits) == FormatUsdcAtomic(value, digits)
  {
    var x := Truncated(value, digits);
    FormatJoins(value, digits);
    ShownAgain(value / SCALE, Shown(value, digits), DECIMALS - digits, x);
    FormatJoins(x, digits);
  }

  /** The amount with zeros for the hidden digits shows the same digits. */
  lemma ShownAgain(w: nat, t: string, k: nat, x: nat)
    requires AllDigits(t) && |t| + k == DECIMALS
    requires x == w * SCALE + Parse(t + Zeros(k))
    ensures x / SCALE == w && Shown(x, |t|) == t
  {
    var all := t + Zeros(k);
    ParseBound(all);
    assert Pow10(6) == SCALE;
    assert x / SCALE == w && x % SCALE == Parse(all);
    FractionDigitsShape(x);
    SameDigits(FractionDigits(x), all);
    Prefix(t, Zeros(k));
    assert Shown(x, |t|) == FractionDigits(x)[..|t|];
  }

  lemma Prefix(t: string, u: string)
    ensures (t + u)[..|t|] == t
  {
  }

  lemma CutDigits(t: string, rest: string)
    requires AllDigits(t) && AllDigits(rest)
    ensures 0 <= Parse(t + rest) - Parse(t + Zeros(|rest|)) < Pow10(|rest|)
  {
    ParseConcat(t, rest);
    ParseBound(rest);
    ParseConcat(t, Zeros(|rest|));
    ParseZeros(|rest|);
  }

  /** Digits outside 0..6 are clamped, and a negative amount is its absolute value with a minus sign. */
  lemma FormatSigns(value: int, digits: int)
    ensures FormatUsdcAtomic(value, digits) == FormatUsdcAtomic(value, Max(0, Min(digits, DECIMALS)))
    ensures value > 0 ==> FormatUsdcAtomic(-value, digits) == "-" + FormatUsdcAtomic(value, digits)
  {
  }

  /** Showing all digits is the server's text. */
  lemma FormatInFull(value: nat)
    ensures FormatUsdcAtomic(value, DECIMALS) == AtomicToUsd(value)
  {
    FractionDigitsShape(value);
    assert FractionDigits(value)[..DECIMALS] == FractionDigits(value);
  }
}
