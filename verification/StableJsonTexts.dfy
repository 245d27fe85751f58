/** The order of keys and the literal texts of canonical JSON. */
module CanonicalJsonTexts {
  import opened Basics
  import opened CanonicalJson
  import opened CanonicalJsonTheorems

  // ----- the order of keys -----

  /** a and b agree up to k, where a ends before b does or has the smaller unit. */
  predicate DiffersAt(a: Units, b: Units, k: nat) {
    && k <= |a| && k < |b| && a[..k] == b[..k]
    && (k == |a| || a[k] < b[k])
  }

  /** Keys are ordered by the first unit in which they differ, a prefix before its extensions. */
  lemma {:induction false} LessExactly(a: Units, b: Units)
    ensures Less(a, b) <==> exists k :: 0 <= k <= |a| && DiffersAt(a, b, k)
    decreases |a|
  {
    if a == [] || b == [] {
      if b != [] { assert DiffersAt(a, b, 0); }
    } else {
      LessExactly(a[1..], b[1..]);
      if Less(a, b) {
        if a[0] < b[0] {
          assert DiffersAt(a, b, 0);
        } else {
          var k :| 0 <= k <= |a[1..]| && DiffersAt(a[1..], b[1..], k);
          DiffersNext(a, b, k);
        }
      }
      if k :| 0 <= k <= |a| && DiffersAt(a, b, k) {
        if k > 0 { DiffersNext(a, b, k - 1); }
      }
    }
  }

  lemma DiffersNext(a: Units, b: Units, k: nat)
    requires a != [] && b != []
    ensures DiffersAt(a, b, k + 1) <==> a[0] == b[0] && DiffersAt(a[1..], b[1..], k)
  {
    if k + 1 <= |a| && k + 1 <= |b| {
      assert a[..k + 1] == [a[0]] + a[1..][..k] && b[..k + 1] == [b[0]] + b[1..][..k];
    }
  }

  // ----- literal texts -----

  /** The code units of ASCII text. */
  function UnitsOf(s: string): (us: Units)
    ensures |us| == |s|
  {
    seq(|s|, i requires 0 <= i < |s| => s[i] as int)
  }

  lemma ConstantTexts()
    ensures StableJson(Null) == UnitsOf("null")
    ensures StableJson(Bool(true)) == UnitsOf("true") && StableJson(Bool(false)) == UnitsOf("false")
    ensures StableJson(Arr(NoItems)) == UnitsOf("[]") && StableJson(Obj(NoMembers)) == UnitsOf("{}")
  {
    assert Sort(NoMembers) == NoMembers;
  }

  const HEX := "0123456789abcdef"

  /** The text of one unit inside quotes: the seven short escapes, four hexadecimal digits, or itself. */
  function UnitLiteral(u: int): Units
    requires IsUnit(u)
  {
    if u == 8 then UnitsOf("\\b") else if u == 9 then UnitsOf("\\t") else if u == 10 then UnitsOf("\\n")
    else if u == 12 then UnitsOf("\\f") else if u == 13 then UnitsOf("\\r")
    else if u == '"' as int then UnitsOf("\\\"") else if u == '\\' as int then UnitsOf("\\\\")
    else if u < 32 || 0xD800 <= u < 0xE000 then
      UnitsOf("\\u" + [HEX[u / 4096], HEX[u / 256 % 16], HEX[u / 16 % 16], HEX[u % 16]])
    else [u]
  }

  /** One unit that does not begin a surrogate pair: its text comes first. */
  lemma UnitsExactly(u: int, rest: Units)
    requires IsUnit(u) && AllUnits(rest)
    requires !(0xD800 <= u < 0xDC00 && rest != [] && 0xDC00 <= rest[0] < 0xE000)
    ensures Body([u] + rest) == UnitLiteral(u) + Body(rest)
  {
    assert ([u] + rest)[1..] == rest;
    UnitTextExactly(u);
  }

  lemma UnitTextExactly(u: int)
    requires IsUnit(u)
    ensures UnitText(u) == UnitLiteral(u)
  {
    if ShortEscape(u) == 0 && (u < 32 || IsLead(u) || IsTrail(u)) { UnicodeEscapeExactly(u); }
  }

  lemma UnicodeEscapeExactly(u: int)
    requires IsUnit(u)
    ensures UnicodeEscape(u) == UnitsOf("\\u" + [HEX[u / 4096], HEX[u / 256 % 16], HEX[u / 16 % 16], HEX[u % 16]])
  {
    Nibbles(u);
    HexExactly(u / 4096);
    HexExactly(u / 256 % 16);
    HexExactly(u / 16 % 16);
    HexExactly(u % 16);
  }

  lemma Nibbles(u: int)
    requires IsUnit(u)
    ensures u / 16 / 16 / 16 == u / 4096 < 16 && u / 16 / 16 % 16 == u / 256 % 16
  {
  }

  lemma HexExactly(d: int)
    requires 0 <= d < 16
    ensures HexDigit(d) == HEX[d] as int
  {
  }

  /** A surrogate pair stands for itself. */
  lemma PairsExactly(lead: int, trail: int, rest: Units)
    requires 0xD800 <= lead < 0xDC00 <= trail < 0xE000
    ensures Body([lead, trail] + rest) == [lead, trail] + Body(rest)
  {
    assert ([lead, trail] + rest)[2..] == rest;
  }

  /** Quotes stand around the text of a string. */
  lemma QuotesExactly(s: Units)
    ensures StableJson(Str(s)) == UnitsOf("\"") + Body(s) + UnitsOf("\"") && Body([]) == []
  {
  }

  // ----- arrays and objects -----

  /** parts.join(","). */
  function Joined(parts: seq<Units>): Units {
    if parts == [] then []
    else if |parts| == 1 then parts[0]
    else parts[0] + UnitsOf(",") + Joined(parts[1..])
  }

  function ItemTexts(x: Items): seq<Units> {
    match x
    case NoItems => []
    case Item(h, t) => [StableJson(h)] + ItemTexts(t)
  }

  function MemberTexts(ms: Members): seq<Units> {
    match ms
    case NoMembers => []
    case Member(k, v, rest) => [StableJson(Str(k)) + UnitsOf(":") + StableJson(v)] + MemberTexts(rest)
  }

  lemma {:induction false} ItemsJoined(x: Items)
    ensures StableItems(x) == Joined(ItemTexts(x)) + UnitsOf("]")
  {
    if x.NoItems? {
    } else {
      var texts := ItemTexts(x);
      ItemsJoined(x.tail);
      assert texts[1..] == ItemTexts(x.tail);
      if x.tail.Item? { Associative(texts[0] + UnitsOf(","), Joined(texts[1..]), UnitsOf("]")); }
    }
  }

  lemma {:induction false} MembersJoined(ms: Members)
    ensures StableMembers(ms) == Joined(MemberTexts(ms)) + UnitsOf("}")
  {
    if ms.NoMembers? {
    } else {
      var texts := MemberTexts(ms);
      MembersJoined(ms.rest);
      assert texts[1..] == MemberTexts(ms.rest);
      if ms.rest.Member? { Associative(texts[0] + UnitsOf(","), Joined(texts[1..]), UnitsOf("}")); }
    }
  }

  /**
    An array's text joins its items' texts by commas inside brackets; an object's joins, inside braces, the quoted keys,
    colons and texts of its members, all of them and in strictly ascending order of their keys.
   */
  lemma CollectionsExactly(x: Items, ms: Members)
    requires ValidMembers(ms)
    ensures StableJson(Arr(x)) == UnitsOf("[") + (Joined(ItemTexts(x)) + UnitsOf("]"))
    ensures StableJson(Obj(ms)) == UnitsOf("{") + (Joined(MemberTexts(Sort(ms))) + UnitsOf("}"))
    ensures Sorted(Sort(ms)) && MeaningMembers(Sort(ms)) == MeaningMembers(ms)
  {
    ItemsJoined(x);
    MembersJoined(Sort(ms));
    SortWell(ms);
  }
}
