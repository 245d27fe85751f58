/** Splitting and unquoting invert what a sender prints. */
module AuthParamProofs {
  import opened Basics
  import opened Text
  import opened AuthParams

  // ----- two replacements are one unescaping -----

  lemma QuotesInPair(c: char, rest: string)
    requires c != '"' && Interior(rest)
    ensures ReplaceEscapedQuotes(['\\', c] + rest) == ['\\', c] + ReplaceEscapedQuotes(rest)
  {
    var s := ['\\', c] + rest;
    assert s[1..] == [c] + rest && ([c] + rest)[1..] == rest;
    assert rest != "" ==> ([c] + rest)[1] == rest[0];
  }

  /** On the inside of any quoted string, the two global replacements are one left-to-right pass. */
  lemma {:induction false} TwoPassesAreOne(s: string)
    requires Interior(s)
    ensures ReplaceEscapedBackslashes(ReplaceEscapedQuotes(s)) == UnescapeOnce(s)
    decreases |s|
  {
    if s == "" {
    } else if s[0] == '\\' {
      var c, rest := s[1], s[2..];
      TwoPassesAreOne(rest);
      assert s == ['\\', c] + rest;
      PairStep(c, rest);
    } else {
      TwoPassesAreOne(s[1..]);
      PlainStep(s[0], ReplaceEscapedQuotes(s[1..]));
    }
  }

  lemma PlainStep(c: char, rest: string)
    requires c != '\\'
    ensures ReplaceEscapedBackslashes([c] + rest) == [c] + ReplaceEscapedBackslashes(rest)
  {
    assert ([c] + rest)[1..] == rest;
  }

  lemma PairStep(c: char, rest: string)
    requires Interior(rest)
    requires ReplaceEscapedBackslashes(ReplaceEscapedQuotes(rest)) == UnescapeOnce(rest)
    ensures ReplaceEscapedBackslashes(ReplaceEscapedQuotes(['\\', c] + rest)) == UnescapeOnce(['\\', c] + rest)
  {
    var s, q := ['\\', c] + rest, ReplaceEscapedQuotes(rest);
    assert s[2..] == rest;
    if c == '"' {
      PlainStep('"', q);
    } else {
      QuotesInPair(c, rest);
      var t := ['\\', c] + q;
      assert t[2..] == q && t[1..] == [c] + q;
      if c != '\\' {
        PlainStep(c, q);
        assert s[1..] == [c] + rest && ([c] + rest)[1..] == rest;
      }
    }
  }

  /** The single pass never makes the text shorter than the standard's, and equals it only without other pairs. */
  lemma {:induction false} UnescapeExactly(s: string)
    requires Interior(s)
    ensures |UnescapeOnce(s)| >= |RfcUnescape(s)|
    ensures UnescapeOnce(s) == RfcUnescape(s) <==> PlainPairs(s)
    ensures PlainPairs(s) <==> |UnescapeOnce(s)| == |RfcUnescape(s)|
    decreases |s|
  {
    if s == "" {
    } else if s[0] == '\\' {
      UnescapeExactly(s[2..]);
      if s[1] != '"' && s[1] != '\\' {
        assert s[1..][1..] == s[2..];
        assert UnescapeOnce(s) == ['\\'] + ([s[1]] + UnescapeOnce(s[2..]));
      } else {
        SameTails(s[1], UnescapeOnce(s[2..]), RfcUnescape(s[2..]));
      }
    } else {
      UnescapeExactly(s[1..]);
      SameTails(s[0], UnescapeOnce(s[1..]), RfcUnescape(s[1..]));
    }
  }

  lemma SameTails(c: char, a: string, b: string)
    ensures [c] + a == [c] + b <==> a == b
  {
    if [c] + a == [c] + b {
      assert ([c] + a)[1..] == a && ([c] + b)[1..] == b;
    }
  }

  /** The code unescapes as the standard says exactly when \" and \\ are the only quoted pairs. */
  lemma UnquoteMeetsTheStandardExactly(s: string)
    requires Interior(s)
    ensures Unquote("\"" + s + "\"") == RfcUnescape(s) <==> PlainPairs(s)
  {
    UnquoteInner(s);
    TwoPassesAreOne(s);
    UnescapeExactly(s);
  }

  lemma UnquoteInner(s: string)
    ensures Unquote("\"" + s + "\"") == ReplaceEscapedBackslashes(ReplaceEscapedQuotes(s))
  {
    var t := "\"" + s + "\"";
    TrimPadded("", t, "");
    assert "" + t + "" == t;
    assert t[1..|t| - 1] == s;
  }

  lemma {:induction false} EscapeIsInterior(v: string)
    ensures Interior(Escape(v)) && PlainPairs(Escape(v)) && RfcUnescape(Escape(v)) == v
    decreases |v|
  {
    if v == "" {
    } else {
      EscapeIsInterior(v[1..]);
      var e := Escape(v);
      if v[0] == '"' || v[0] == '\\' {
        assert e[2..] == Escape(v[1..]);
      } else {
        assert e[1..] == Escape(v[1..]);
      }
      assert v == [v[0]] + v[1..];
    }
  }

  lemma UnquotePrinted(e: Element)
    requires WellFormed(e) && !e.Empty?
    ensures Unquote(e.right + ValueText(e)) == e.value
  {
    var t := ValueText(e);
    assert e.right + t == e.right + t + "";
    if e.QuotedParam? {
      EscapeIsInterior(e.value);
      UnquoteMeetsTheStandardExactly(Escape(e.value));
      TrimPadded(e.right, t, "");
      TrimPadded("", t, "");
      assert "" + t + "" == t;
    } else {
      TokenEnds(t);
      TrimPadded(e.right, t, "");
    }
  }

  lemma TokenEnds(s: string)
    requires IsToken(s)
    ensures !IsWhitespace(s[0]) && !IsWhitespace(s[|s| - 1]) && s[0] != '"'
    ensures forall i :: 0 <= i < |s| ==> s[i] != '"' && s[i] != ',' && s[i] != '=' && !IsWhitespace(s[i])
  {
    forall i | 0 <= i < |s| ensures s[i] != '"' && s[i] != ',' && s[i] != '=' && !IsWhitespace(s[i]) {
      assert IsTokenChar(s[i]);
    }
  }

  // ----- splitting -----

  /** Text without quotes and commas belongs to one element. */
  lemma {:induction false} ScanPlain(s: string, rest: string, current: string)
    requires forall i :: 0 <= i < |s| ==> s[i] != '"' && s[i] != ','
    ensures SplitFrom(s + rest, current, false, false) == SplitFrom(rest, current + s, false, false)
    decreases |s|
  {
    if s == "" {
      assert s + rest == rest && current + s == current;
    } else {
      ScanPlain(s[1..], rest, current + [s[0]]);
      assert (s + rest)[1..] == s[1..] + rest;
      assert current + [s[0]] + s[1..] == current + s;
    }
  }

  /** The inside of a quoted string belongs to one element, commas and escaped quotes included. */
  lemma {:induction false} ScanInterior(s: string, rest: string, current: string)
    requires Interior(s)
    ensures SplitFrom(s + rest, current, true, false) == SplitFrom(rest, current + s, true, false)
    decreases |s|
  {
    if s == "" {
      assert s + rest == rest && current + s == current;
    } else if s[0] == '\\' {
      ScanInterior(s[2..], rest, current + ['\\'] + [s[1]]);
      var t := s + rest;
      assert t[1..][1..] == s[2..] + rest && t[1..][0] == s[1];
      assert current + ['\\'] + [s[1]] + s[2..] == current + s;
    } else {
      ScanInterior(s[1..], rest, current + [s[0]]);
      assert (s + rest)[1..] == s[1..] + rest;
      assert current + [s[0]] + s[1..] == current + s;
    }
  }

  lemma ScanQuoted(s: string, rest: string, current: string)
    requires Interior(s)
    ensures SplitFrom("\"" + s + "\"" + rest, current, false, false)
      == SplitFrom(rest, current + ("\"" + s + "\""), false, false)
  {
    var t := "\"" + s + "\"" + rest;
    assert t[1..] == s + ("\"" + rest);
    ScanInterior(s, "\"" + rest, current + "\"");
    assert ("\"" + rest)[1..] == rest;
    assert current + "\"" + s + "\"" == current + ("\"" + s + "\"");
  }

  lemma WhitespaceIsPlain(s: string)
    requires AllWhitespace(s)
    ensures forall i :: 0 <= i < |s| ==> s[i] != '"' && s[i] != ','
  {
  }

  /** The part of a parameter before its value. */
  function Head(e: Element): string
    requires !e.Empty?
  {
    e.before + e.key + e.left + "=" + e.right
  }

  lemma HeadIsPlain(e: Element)
    requires WellFormed(e) && !e.Empty?
    ensures forall i :: 0 <= i < |Head(e)| ==> Head(e)[i] != '"' && Head(e)[i] != ','
  {
    WhitespaceIsPlain(e.before);
    WhitespaceIsPlain(e.left);
    WhitespaceIsPlain(e.right);
    TokenEnds(e.key);
  }

  lemma Regrouped(e: Element, rest: string, current: string)
    requires !e.Empty?
    ensures ElementText(e) + rest == Head(e) + (ValueText(e) + (e.after + rest))
    ensures current + Head(e) + ValueText(e) + e.after == current + ElementText(e)
  {
    FlattenParam(e.before, e.key, e.left, e.right, ValueText(e), e.after);
    var h, v := Head(e), ValueText(e);
    assert (h + v + e.after) + rest == h + (v + (e.after + rest));
    assert current + h + v + e.after == current + (h + v + e.after);
  }

  lemma FlattenParam(before: string, key: string, left: string, right: string, v: string, after: string)
    ensures before + (key + left + "=" + (right + v)) + after == (before + key + left + "=" + right) + v + after
  {
  }

  /** An element's text is scanned as one piece. */
  lemma ScanElement(e: Element, rest: string, current: string)
    requires WellFormed(e)
    ensures SplitFrom(ElementText(e) + rest, current, false, false)
      == SplitFrom(rest, current + ElementText(e), false, false)
  {
    if e.Empty? {
      WhitespaceIsPlain(e.pad);
      ScanPlain(e.pad, rest, current);
    } else {
      HeadIsPlain(e);
      WhitespaceIsPlain(e.after);
      var h, v := Head(e), ValueText(e);
      ScanPlain(h, v + (e.after + rest), current);
      ScanValue(e, e.after + rest, current + h);
      ScanPlain(e.after, rest, current + h + v);
      Regrouped(e, rest, current);
    }
  }

  lemma ScanValue(e: Element, rest: string, current: string)
    requires WellFormed(e) && !e.Empty?
    ensures SplitFrom(ValueText(e) + rest, current, false, false)
      == SplitFrom(rest, current + ValueText(e), false, false)
  {
    if e.QuotedParam? {
      EscapeIsInterior(e.value);
      ScanQuoted(Escape(e.value), rest, current);
    } else {
      TokenEnds(e.value);
      ScanPlain(e.value, rest, current);
    }
  }

  function Texts(es: seq<Element>): seq<string> {
    if es == [] then [] else [ElementText(es[0])] + Texts(es[1..])
  }

  /** Splitting a printed list returns the elements' texts. */
  lemma {:induction false} SplitList(es: seq<Element>)
    requires es != [] && forall i :: 0 <= i < |es| ==> WellFormed(es[i])
    ensures SplitFrom(ListText(es), "", false, false) == Texts(es)
    decreases |es|
  {
    var first := ElementText(es[0]);
    assert "" + first == first;
    if |es| == 1 {
      assert first + "" == first;
      ScanElement(es[0], "", "");
      assert es[1..] == [];
    } else {
      var rest := "," + ListText(es[1..]);
      assert ListText(es) == first + rest;
      ScanElement(es[0], rest, "");
      assert rest[1..] == ListText(es[1..]);
      SplitList(es[1..]);
    }
  }

  // ----- reading one element -----

  lemma {:induction false} EqualsAt(s: string, rest: string)
    requires forall i :: 0 <= i < |s| ==> s[i] != '='
    ensures EqualsIndex(s + "=" + rest) == |s|
    decreases |s|
  {
    if s == "" {
    } else {
      EqualsAt(s[1..], rest);
      assert (s + "=" + rest)[1..] == s[1..] + "=" + rest;
    }
  }

  lemma ReadElement(e: Element, params: Params)
    requires WellFormed(e) && !e.Empty?
    ensures !Blank(ElementText(e))
    ensures WithPart(params, Trim(ElementText(e))) == params[e.key := e.value]
  {
    ElementTrims(e);
    NoEqualsIn(e);
    KeyTrims(e);
    UnquotePrinted(e);
    ReadPart(e.key + e.left, e.right + ValueText(e), params);
  }

  lemma ElementTrims(e: Element)
    requires WellFormed(e) && !e.Empty?
    ensures Trim(ElementText(e)) == (e.key + e.left) + "=" + (e.right + ValueText(e))
  {
    var part := (e.key + e.left) + "=" + (e.right + ValueText(e));
    PartEnds(e, part);
    TrimPadded(e.before, part, e.after);
  }

  lemma ReadPart(name: string, rest: string, params: Params)
    requires name != "" && forall i :: 0 <= i < |name| ==> name[i] != '='
    ensures WithPart(params, name + "=" + rest) == params[Trim(name) := Unquote(rest)]
  {
    EqualsAt(name, rest);
    CutAtEquals(name, rest);
  }

  lemma PartEnds(e: Element, part: string)
    requires WellFormed(e) && !e.Empty? && part == e.key + e.left + "=" + (e.right + ValueText(e))
    ensures part != "" && !IsWhitespace(part[0]) && !IsWhitespace(part[|part| - 1])
  {
    TokenEnds(e.key);
    ValueEnds(e);
    assert part[0] == e.key[0] && part[|part| - 1] == ValueText(e)[|ValueText(e)| - 1];
  }

  lemma KeyTrims(e: Element)
    requires WellFormed(e) && !e.Empty?
    ensures Trim(e.key + e.left) == e.key
  {
    TokenEnds(e.key);
    TrimPadded("", e.key, e.left);
    assert "" + e.key + e.left == e.key + e.left;
  }

  lemma CutAtEquals(name: string, rest: string)
    ensures (name + "=" + rest)[..|name|] == name && (name + "=" + rest)[|name| + 1..] == rest
  {
  }

  lemma ValueEnds(e: Element)
    requires WellFormed(e) && !e.Empty?
    ensures ValueText(e) != "" && !IsWhitespace(ValueText(e)[|ValueText(e)| - 1])
  {
    if e.TokenParam? { TokenEnds(e.value); }
  }

  lemma NoEqualsIn(e: Element)
    requires WellFormed(e) && !e.Empty?
    ensures forall i :: 0 <= i < |e.key + e.left| ==> (e.key + e.left)[i] != '='
  {
    TokenEnds(e.key);
    assert forall i :: 0 <= i < |e.left| ==> e.left[i] != '=';
  }

  lemma {:induction false} ReadList(es: seq<Element>, params: Params)
    requires forall i :: 0 <= i < |es| ==> WellFormed(es[i])
    ensures WithParts(params, Kept(Texts(es))) == Meaning(es, params)
    decreases |es|
  {
    if es == [] {
    } else {
      var kept := Kept(Texts(es[1..]));
      assert Texts(es)[1..] == Texts(es[1..]);
      if es[0].Empty? {
        TrimPadded(es[0].pad, "", "");
        assert es[0].pad + "" + "" == es[0].pad;
        ReadList(es[1..], params);
        assert [] + kept == kept;
      } else {
        ReadElement(es[0], params);
        ReadList(es[1..], params[es[0].key := es[0].value]);
        assert ([Trim(ElementText(es[0]))] + kept)[1..] == kept;
      }
    }
  }

  /**
    For every list of parameters, with quoted or token values, empty elements and white space anywhere the standard
    allows it, parsing the printed list returns the parameters.
   */
  lemma ParseOfList(es: seq<Element>)
    requires es != [] && forall i :: 0 <= i < |es| ==> WellFormed(es[i])
    ensures ParseParams(ListText(es)) == Meaning(es, map[])
  {
    SplitList(es);
    ReadList(es, map[]);
  }

  /** White space before the first element belongs to the marker. */
  function Stripped(es: seq<Element>): seq<Element>
    requires es != []
  {
    [if es[0].Empty? then es[0].(pad := "") else es[0].(before := "")] + es[1..]
  }

  function FirstPad(es: seq<Element>): string
    requires es != []
  {
    if es[0].Empty? then es[0].pad else es[0].before
  }

  lemma StrippedMeaning(es: seq<Element>)
    requires es != []
    ensures Meaning(Stripped(es), map[]) == Meaning(es, map[])
  {
    assert Stripped(es)[1..] == es[1..];
  }

  lemma StrippedWellFormed(es: seq<Element>)
    requires es != [] && forall i :: 0 <= i < |es| ==> WellFormed(es[i])
    ensures forall i :: 0 <= i < |es| ==> WellFormed(Stripped(es)[i])
  {
    StrippedFirst(es[0]);
    forall i | 0 <= i < |es| ensures WellFormed(Stripped(es)[i]) {
      if i > 0 { assert Stripped(es)[i] == es[i]; }
    }
  }

  lemma StrippedFirst(e: Element)
    requires WellFormed(e)
    ensures WellFormed(Stripped([e])[0])
  {
  }

  lemma StrippedText(es: seq<Element>)
    requires es != []
    ensures ListText(es) == FirstPad(es) + ListText(Stripped(es))
  {
    var f := Stripped(es);
    assert f[1..] == es[1..] && f[0] == Stripped([es[0]])[0] && |f| == |es|;
    StrippedElement(es[0]);
    if |es| > 1 {
      Associative(FirstPad(es), ElementText(f[0]), "," + ListText(es[1..]));
      assert ListText(es) == ElementText(es[0]) + ("," + ListText(es[1..]));
      assert ListText(f) == ElementText(f[0]) + ("," + ListText(es[1..]));
    }
  }

  lemma StrippedElement(e: Element)
    ensures ElementText(e) == FirstPad([e]) + ElementText(Stripped([e])[0])
  {
    if e.Empty? {
      assert e.pad == e.pad + "";
    } else {
      var part := e.key + e.left + "=" + (e.right + ValueText(e));
      assert "" + part == part;
      assert e.before + part + e.after == e.before + (part + e.after);
    }
  }

  lemma StrippedStart(es: seq<Element>)
    requires es != [] && WellFormed(es[0])
    ensures var text := ListText(Stripped(es)); text == "" || !IsWhitespace(text[0])
  {
    if !es[0].Empty? {
      TokenEnds(es[0].key);
      assert ListText(Stripped(es))[0] == es[0].key[0];
    }
  }

  /** The whole header: the marker in any case, white space, and the list. */
  lemma ParseOfHeader(marker: string, space: string, es: seq<Element>)
    requires |marker| == 7 && forall i :: 0 <= i < 7 ==> Lower(marker[i]) == "payment"[i]
    requires space != "" && AllWhitespace(space)
    requires es != [] && forall i :: 0 <= i < |es| ==> WellFormed(es[i])
    ensures var params := Meaning(es, map[]);
      ParseHeader(marker + space + ListText(es)) ==
        match FirstMissing(params, REQUIRED)
        case Some(name) => Err(MissingParam(name))
        case None => Ok(params)
  {
    MarkerFound(marker, space, ListText(es));
    StrippedWellFormed(es);
    StrippedText(es);
    StrippedMeaning(es);
    StrippedStart(es);
    TrimStartPadding(space, ListText(es));
    TrimStartPadding(FirstPad(es), ListText(Stripped(es)));
    ParseOfList(Stripped(es));
  }

  lemma MarkerFound(marker: string, space: string, list: string)
    requires |marker| == 7 && forall i :: 0 <= i < 7 ==> Lower(marker[i]) == "payment"[i]
    requires space != "" && AllWhitespace(space)
    ensures HasMarker(marker + space + list) && (marker + space + list)[7..] == space + list
  {
    var header := marker + space + list;
    assert header == marker + (space + list);
    assert forall i :: 0 <= i < 7 ==> header[i] == marker[i];
    assert header[7] == space[0];
  }
}
