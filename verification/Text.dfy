/** Blank text: String.prototype.trim over UTF-16 code units. */
module Text {

  /** The white space and line terminators of ECMA-262, which trim removes and \s matches. */
  predicate IsWhitespace(c: char) {
    || c == '\t' || c == '\n' || c == '\r' || c == ' '
    || c == '\U{000B}' || c == '\U{000C}' || c == '\U{00A0}' || c == '\U{FEFF}'
    || c == '\U{1680}' || '\U{2000}' <= c <= '\U{200A}'
    || c == '\U{2028}' || c == '\U{2029}' || c == '\U{202F}' || c == '\U{205F}' || c == '\U{3000}'
  }

  predicate AllWhitespace(s: string) {
    forall i :: 0 <= i < |s| ==> IsWhitespace(s[i])
  }

  function TrimStart(s: string): (t: string)
    ensures t != [] ==> !IsWhitespace(t[0])
  {
    if s != [] && IsWhitespace(s[0]) then TrimStart(s[1..]) else s
  }

  function TrimEnd(s: string): (t: string)
    ensures t != [] ==> !IsWhitespace(t[|t| - 1])
    ensures t <= s
  {
    if s != [] && IsWhitespace(s[|s| - 1]) then TrimEnd(s[..|s| - 1]) else s
  }

  function Trim(s: string): string {
    TrimEnd(TrimStart(s))
  }

  predicate Blank(s: string) {
    Trim(s) == ""
  }

  lemma {:induction false} TrimStartPadding(pad: string, s: string)
    requires AllWhitespace(pad)
    ensures TrimStart(pad + s) == TrimStart(s)
  {
    if pad == [] {
      assert pad + s == s;
    } else {
      TrimStartPadding(pad[1..], s);
      assert (pad + s)[1..] == pad[1..] + s;
    }
  }

  lemma {:induction false} TrimEndPadding(s: string, pad: string)
    requires AllWhitespace(pad)
    ensures TrimEnd(s + pad) == TrimEnd(s)
  {
    if pad == [] {
      assert s + pad == s;
    } else {
      TrimEndPadding(s, pad[..|pad| - 1]);
      assert (s + pad)[..|s + pad| - 1] == s + pad[..|pad| - 1];
    }
  }

  /** Trimming removes exactly the padding around text that has none of its own. */
  lemma TrimPadded(left: string, s: string, right: string)
    requires AllWhitespace(left) && AllWhitespace(right)
    requires s != [] ==> !IsWhitespace(s[0]) && !IsWhitespace(s[|s| - 1])
    ensures Trim(left + s + right) == s
  {
    assert left + s + right == left + (s + right);
    TrimStartPadding(left, s + right);
    if s == [] {
      assert s + right == right + [];
      TrimStartPadding(right, []);
    } else {
      TrimEndPadding(s, right);
    }
  }

  // ----- runs of characters -----

  const LOWER := "abcdefghijklmnopqrstuvwxyz"
  const UPPER := "ABCDEFGHIJKLMNOPQRSTUVWXYZ"
  const DIGITS := "0123456789"

  /** Consecutive characters. */
  predicate IsRun(run: string, first: char) {
    forall i :: 0 <= i < |run| ==> run[i] as int == first as int + i
  }

  lemma InRun(run: string, first: char, c: char)
    requires IsRun(run, first)
    ensures c in run <==> first as int <= c as int < first as int + |run|
  {
    if first as int <= c as int < first as int + |run| { assert run[c as int - first as int] == c; }
  }

  lemma Runs()
    ensures IsRun(LOWER, 'a') && IsRun(UPPER, 'A') && IsRun(DIGITS, '0')
    ensures |LOWER| == 26 && |UPPER| == 26 && |DIGITS| == 10
  {
  }

  /** The white space of ECMA-262, one by one. */
  lemma WhitespaceExactly(c: char)
    ensures IsWhitespace(c) <==> c in "\t\n\r " || c as int in {
      0x0B, 0x0C, 0xA0, 0x1680, 0x2000, 0x2001, 0x2002, 0x2003, 0x2004, 0x2005, 0x2006, 0x2007, 0x2008, 0x2009, 0x200A,
      0x2028, 0x2029, 0x202F, 0x205F, 0x3000, 0xFEFF}
  {
  }
}
