/** The canonical text determines the value, and the value determines the text. */
module CanonicalJsonProofs {
  import opened Basics
  import opened CanonicalJson

  // ----- strings are self-delimiting -----

  function HexValue(c: int): int {
    if c <= 57 then c - 48 else c - 87
  }

  /** The unit a two-character escape stands for. */
  function Unescape(c: int): int {
    if c == 98 then 8 else if c == 116 then 9 else if c == 110 then 10 else if c == 102 then 12
    else if c == 114 then 13 else c
  }

  /** Reads string text up to the closing quote: the units, and what follows. */
  function ReadString(text: Units): Option<(Units, Units)>
    decreases |text|
  {
    if text == [] then None
    else if text[0] == QUOTE then Some(([], text[1..]))
    else if text[0] != BACKSLASH then Prepend(text[0], ReadString(text[1..]))
    else if |text| < 2 then None
    else if text[1] != 117 then Prepend(Unescape(text[1]), ReadString(text[2..]))
    else if |text| < 6 then None
    else
      var u := FourHex(HexValue(text[2]), HexValue(text[3]), HexValue(text[4]), HexValue(text[5]));
      Prepend(u, ReadString(text[6..]))
  }

  function Prepend(u: int, r: Option<(Units, Units)>): Option<(Units, Units)> {
    if r.None? then None else Some(([u] + r.value.0, r.value.1))
  }

  lemma HexRoundTrip(d: int)
    requires 0 <= d < 16
    ensures HexValue(HexDigit(d)) == d
  {
  }

  lemma FourDigits(u: int)
    requires IsUnit(u)
    ensures 0 <= u / 16 / 16 / 16 < 16
    ensures FourHex(u / 16 / 16 / 16, u / 16 / 16 % 16, u / 16 % 16, u % 16) == u
  {
    var a := u / 16;
    var b := a / 16;
  }

  function FourHex(a: int, b: int, c: int, d: int): int {
    ((a * 16 + b) * 16 + c) * 16 + d
  }

  lemma ReadShort(u: int, more: Units)
    requires ShortEscape(u) != 0
    ensures ReadString([BACKSLASH, ShortEscape(u)] + more) == Prepend(u, ReadString(more))
  {
    var text := [BACKSLASH, ShortEscape(u)] + more;
    assert text[0] == BACKSLASH && text[1] == ShortEscape(u) && text[2..] == more;
  }

  lemma ReadUnicode(u: int, more: Units)
    requires IsUnit(u)
    ensures ReadString(UnicodeEscape(u) + more) == Prepend(u, ReadString(more))
  {
    FourDigits(u);
    HexRoundTrip(u / 16 / 16 / 16);
    HexRoundTrip(u / 16 / 16 % 16);
    HexRoundTrip(u / 16 % 16);
    HexRoundTrip(u % 16);
    ReadHex(HexDigit(u / 16 / 16 / 16), HexDigit(u / 16 / 16 % 16), HexDigit(u / 16 % 16), HexDigit(u % 16), more);
  }

  lemma ReadHex(a: int, b: int, c: int, d: int, more: Units)
    ensures ReadString([BACKSLASH, 117, a, b, c, d] + more)
      == Prepend(FourHex(HexValue(a), HexValue(b), HexValue(c), HexValue(d)), ReadString(more))
  {
    var text := [BACKSLASH, 117, a, b, c, d] + more;
    assert text[0] == BACKSLASH && text[1] == 117 && text[2] == a && text[3] == b && text[4] == c && text[5] == d;
    assert text[6..] == more;
  }

  lemma ReadPlain(u: int, more: Units)
    requires u != QUOTE && u != BACKSLASH
    ensures ReadString([u] + more) == Prepend(u, ReadString(more))
  {
    assert ([u] + more)[1..] == more;
  }

  lemma ReadUnit(u: int, more: Units)
    requires IsUnit(u)
    ensures ReadString(UnitText(u) + more) == Prepend(u, ReadString(more))
  {
    if ShortEscape(u) != 0 {
      ReadShort(u, more);
    } else if u < 32 || IsLead(u) || IsTrail(u) {
      ReadUnicode(u, more);
    } else {
      ReadPlain(u, more);
    }
  }

  lemma {:induction false} ReadBody(s: Units, more: Units)
    requires AllUnits(s)
    ensures ReadString(Body(s) + ([QUOTE] + more)) == Some((s, more))
    decreases |s|
  {
    if s == [] {
      assert [] + ([QUOTE] + more) == [QUOTE] + more;
      assert ([QUOTE] + more)[1..] == more;
    } else if StartsWithPair(s) {
      ReadBody(s[2..], more);
      ReadPair(s[0], s[1], Body(s[2..]), more);
      assert s == [s[0]] + ([s[1]] + s[2..]);
    } else {
      ReadBody(s[1..], more);
      Associative(UnitText(s[0]), Body(s[1..]), [QUOTE] + more);
      ReadUnit(s[0], Body(s[1..]) + ([QUOTE] + more));
      assert s == [s[0]] + s[1..];
    }
  }

  lemma ReadPair(lead: int, trail: int, body: Units, more: Units)
    requires IsLead(lead) && IsTrail(trail)
    ensures ReadString(([lead, trail] + body) + ([QUOTE] + more))
      == Prepend(lead, Prepend(trail, ReadString(body + ([QUOTE] + more))))
  {
    var tail := body + ([QUOTE] + more);
    assert ([lead, trail] + body) + ([QUOTE] + more) == [lead] + ([trail] + tail);
    ReadPlain(lead, [trail] + tail);
    ReadPlain(trail, tail);
  }

  /** Two quoted strings that begin the same text are the same string. */
  lemma QuotePrefix(s: Units, t: Units, r: Units, q: Units)
    requires AllUnits(s) && AllUnits(t) && Quote(s) + r == Quote(t) + q
    ensures s == t && r == q
  {
    ReadBody(s, r);
    ReadBody(t, q);
    Unquoted(Body(s), r);
    Unquoted(Body(t), q);
  }

  lemma Unquoted(body: Units, r: Units)
    ensures (([QUOTE] + body + [QUOTE]) + r)[1..] == body + ([QUOTE] + r)
  {
  }

  // ----- printing members in the order they have -----

  function Text(j: Json): Units
    decreases j, 0
  {
    match j
    case Null => NULL_TEXT
    case Bool(b) => if b then TRUE_TEXT else FALSE_TEXT
    case Num(n) => n
    case Str(s) => Quote(s)
    case Arr(items) => [OPEN_BRACKET] + TextItems(items)
    case Obj(members) => [OPEN_BRACE] + TextMembers(members)
  }

  function AfterItem(t: Items): Units
    decreases t, 1
  {
    if t.NoItems? then [CLOSE_BRACKET] else [COMMA] + TextItems(t)
  }

  function TextItems(x: Items): Units
    decreases x, 0
  {
    match x
    case NoItems => [CLOSE_BRACKET]
    case Item(h, t) => Text(h) + AfterItem(t)
  }

  function AfterMember(rest: Members): Units
    decreases rest, 1
  {
    if rest.NoMembers? then [CLOSE_BRACE] else [COMMA] + TextMembers(rest)
  }

  function TextMembers(ms: Members): Units
    decreases ms, 0
  {
    match ms
    case NoMembers => [CLOSE_BRACE]
    case Member(k, v, rest) => Quote(k) + ([COLON] + (Text(v) + AfterMember(rest)))
  }

  /** What may follow a value. */
  predicate Delimited(r: Units) {
    r == [] || r[0] == COMMA || r[0] == CLOSE_BRACKET || r[0] == CLOSE_BRACE
  }

  /** The first unit of a value's text tells its kind. */
  datatype Kind = KNull | KTrue | KFalse | KNum | KStr | KArr | KObj

  function KindOf(j: Json): Kind {
    match j
    case Null => KNull
    case Bool(b) => if b then KTrue else KFalse
    case Num(_) => KNum
    case Str(_) => KStr
    case Arr(_) => KArr
    case Obj(_) => KObj
  }

  function KindBy(u: int): Kind {
    if u == 110 then KNull else if u == 116 then KTrue else if u == 102 then KFalse
    else if u == QUOTE then KStr else if u == OPEN_BRACKET then KArr else if u == OPEN_BRACE then KObj else KNum
  }

  lemma FirstUnit(j: Json)
    requires Valid(j)
    ensures Text(j) != [] && KindBy(Text(j)[0]) == KindOf(j)
    ensures Text(j)[0] != CLOSE_BRACKET && Text(j)[0] != CLOSE_BRACE && Text(j)[0] != COMMA
  {
  }

  lemma NumeralPrefix(s: Units, t: Units, r: Units, q: Units)
    requires IsNumeral(s) && IsNumeral(t) && Delimited(r) && Delimited(q) && s + r == t + q
    ensures s == t && r == q
  {
    FirstAfter(s, r, t, q);
    FirstAfter(t, q, s, r);
    assert |s| == |t|;
    SameLength(s, t, r, q);
  }

  lemma FirstAfter(s: Units, r: Units, t: Units, q: Units)
    requires s + r == t + q
    ensures |s| < |t| ==> r != [] && r[0] == t[|s|]
  {
    if |s| < |t| {
      assert (s + r)[|s|] == (t + q)[|s|] == t[|s|];
    }
  }

  lemma DropFirst(u: int, a: Units, r: Units, b: Units, q: Units)
    requires ([u] + a) + r == ([u] + b) + q
    ensures a + r == b + q
  {
    assert (([u] + a) + r)[1..] == a + r && (([u] + b) + q)[1..] == b + q;
  }

  /** A value's text, followed by a delimiter, can be read in one way only. */
  lemma {:induction false} TextPrefix(a: Json, b: Json, r: Units, q: Units)
    requires Valid(a) && Valid(b) && Delimited(r) && Delimited(q)
    requires Text(a) + r == Text(b) + q
    ensures a == b && r == q
    decreases a, 1
  {
    FirstUnit(a);
    FirstUnit(b);
    assert Text(a)[0] == (Text(a) + r)[0] == (Text(b) + q)[0] == Text(b)[0];
    match a
    case Null => SameLength(Text(a), Text(b), r, q);
    case Bool(_) => SameLength(Text(a), Text(b), r, q);
    case Num(n) => NumeralPrefix(n, b.numeral, r, q);
    case Str(s) => QuotePrefix(s, b.units, r, q);
    case Arr(x) =>
      DropFirst(OPEN_BRACKET, TextItems(x), r, TextItems(b.items), q);
      ItemsPrefix(x, b.items, r, q);
    case Obj(ms) =>
      DropFirst(OPEN_BRACE, TextMembers(ms), r, TextMembers(b.members), q);
      MembersPrefix(ms, b.members, r, q);
  }

  lemma SameLength(s: Units, t: Units, r: Units, q: Units)
    requires |s| == |t| && s + r == t + q
    ensures s == t && r == q
  {
    assert s == (s + r)[..|s|] == (t + q)[..|t|] == t;
    assert r == (s + r)[|s|..] == (t + q)[|t|..] == q;
  }

  lemma {:induction false} ItemsPrefix(x: Items, y: Items, r: Units, q: Units)
    requires ValidItems(x) && ValidItems(y) && TextItems(x) + r == TextItems(y) + q
    ensures x == y && r == q
    decreases x, 0
  {
    assert (TextItems(x) + r)[0] == TextItems(x)[0] && (TextItems(y) + q)[0] == TextItems(y)[0];
    if x.Item? { FirstUnit(x.head); }
    if y.Item? { FirstUnit(y.head); }
    if x.NoItems? {
      SameLength(TextItems(x), TextItems(y), r, q);
    } else {
      Associative(Text(x.head), AfterItem(x.tail), r);
      Associative(Text(y.head), AfterItem(y.tail), q);
      TextPrefix(x.head, y.head, AfterItem(x.tail) + r, AfterItem(y.tail) + q);
      assert (AfterItem(x.tail) + r)[0] == AfterItem(x.tail)[0] && (AfterItem(y.tail) + q)[0] == AfterItem(y.tail)[0];
      if x.tail.NoItems? {
        SameLength(AfterItem(x.tail), AfterItem(y.tail), r, q);
      } else {
        DropFirst(COMMA, TextItems(x.tail), r, TextItems(y.tail), q);
        ItemsPrefix(x.tail, y.tail, r, q);
      }
    }
  }

  lemma {:induction false} MembersPrefix(x: Members, y: Members, r: Units, q: Units)
    requires ValidMembers(x) && ValidMembers(y) && TextMembers(x) + r == TextMembers(y) + q
    ensures x == y && r == q
    decreases x, 0
  {
    assert (TextMembers(x) + r)[0] == TextMembers(x)[0] && (TextMembers(y) + q)[0] == TextMembers(y)[0];
    if x.NoMembers? {
      SameLength(TextMembers(x), TextMembers(y), r, q);
    } else {
      var xv, yv := Text(x.value) + AfterMember(x.rest), Text(y.value) + AfterMember(y.rest);
      Associative(Quote(x.key), [COLON] + xv, r);
      Associative(Quote(y.key), [COLON] + yv, q);
      QuotePrefix(x.key, y.key, ([COLON] + xv) + r, ([COLON] + yv) + q);
      DropFirst(COLON, xv, r, yv, q);
      Associative(Text(x.value), AfterMember(x.rest), r);
      Associative(Text(y.value), AfterMember(y.rest), q);
      var xr, yr := AfterMember(x.rest) + r, AfterMember(y.rest) + q;
      assert xr[0] == AfterMember(x.rest)[0] && yr[0] == AfterMember(y.rest)[0];
      TextPrefix(x.value, y.value, xr, yr);
      if x.rest.NoMembers? {
        SameLength(AfterMember(x.rest), AfterMember(y.rest), r, q);
      } else {
        DropFirst(COMMA, TextMembers(x.rest), r, TextMembers(y.rest), q);
        MembersPrefix(x.rest, y.rest, r, q);
      }
    }
  }
}
