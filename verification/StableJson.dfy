/**
  stableJson of packages/providers/src/execute.ts: the canonical text that receipts hash.
  Text is a sequence of UTF-16 code units. A number is its JSON text, so 0 and -0 are one number;
  undefined, functions, NaN and infinities are not JSON values.
 */
module CanonicalJson {
  import opened Basics

  type Units = seq<int>

  datatype Json =
    | Null
    | Bool(b: bool)
    | Num(numeral: Units)
    | Str(units: Units)
    | Arr(items: Items)
    | Obj(members: Members)

  datatype Items = NoItems | Item(head: Json, tail: Items)

  /** The members of an object in the order they were added. */
  datatype Members = NoMembers | Member(key: Units, value: Json, rest: Members)

  const QUOTE := 34
  const COMMA := 44
  const COLON := 58
  const OPEN_BRACKET := 91
  const BACKSLASH := 92
  const CLOSE_BRACKET := 93
  const OPEN_BRACE := 123
  const CLOSE_BRACE := 125

  // ----- JavaScript values -----

  predicate IsUnit(u: int) {
    0 <= u < 0x1_0000
  }

  predicate AllUnits(s: Units) {
    forall i :: 0 <= i < |s| ==> IsUnit(s[i])
  }

  predicate IsDigitUnit(u: int) {
    48 <= u <= 57
  }

  /** Digits, '-', '+', '.' and 'e', starting with a digit or '-': the shape of every finite number's text. */
  predicate IsNumeral(s: Units) {
    && s != [] && (IsDigitUnit(s[0]) || s[0] == 45)
    && forall i :: 0 <= i < |s| ==> IsDigitUnit(s[i]) || s[i] == 45 || s[i] == 43 || s[i] == 46 || s[i] == 101
  }

  function Keys(ms: Members): set<Units> {
    match ms
    case NoMembers => {}
    case Member(k, _, rest) => {k} + Keys(rest)
  }

  /** Keys of one object are distinct, and all text is made of code units. */
  predicate Valid(j: Json) {
    match j
    case Null => true
    case Bool(_) => true
    case Num(n) => IsNumeral(n)
    case Str(s) => AllUnits(s)
    case Arr(items) => ValidItems(items)
    case Obj(members) => ValidMembers(members)
  }

  predicate ValidItems(x: Items) {
    match x
    case NoItems => true
    case Item(h, t) => Valid(h) && ValidItems(t)
  }

  predicate ValidMembers(ms: Members) {
    match ms
    case NoMembers => true
    case Member(k, v, rest) => AllUnits(k) && k !in Keys(rest) && Valid(v) && ValidMembers(rest)
  }

  /** What a value means: objects are unordered maps. */
  datatype Value =
    | VNull
    | VBool(b: bool)
    | VNum(numeral: Units)
    | VStr(units: Units)
    | VArr(items: seq<Value>)
    | VObj(members: map<Units, Value>)

  function Meaning(j: Json): Value {
    match j
    case Null => VNull
    case Bool(b) => VBool(b)
    case Num(n) => VNum(n)
    case Str(s) => VStr(s)
    case Arr(items) => VArr(MeaningItems(items))
    case Obj(members) => VObj(MeaningMembers(members))
  }

  function MeaningItems(x: Items): seq<Value> {
    match x
    case NoItems => []
    case Item(h, t) => [Meaning(h)] + MeaningItems(t)
  }

  function MeaningMembers(ms: Members): map<Units, Value> {
    match ms
    case NoMembers => map[]
    case Member(k, v, rest) => MeaningMembers(rest)[k := Meaning(v)]
  }

  // ----- sorting keys -----

  /** The order of Array.prototype.sort on strings: code unit by code unit, a prefix before its extensions. */
  predicate Less(a: Units, b: Units)
    decreases |a|
  {
    if b == [] then false
    else if a == [] then true
    else a[0] < b[0] || (a[0] == b[0] && Less(a[1..], b[1..]))
  }

  function Insert(k: Units, v: Json, ms: Members): Members {
    match ms
    case NoMembers => Member(k, v, NoMembers)
    case Member(l, w, rest) =>
      if Less(l, k) then Member(l, w, Insert(k, v, rest)) else Member(k, v, ms)
  }

  function Sort(ms: Members): Members {
    match ms
    case NoMembers => NoMembers
    case Member(k, v, rest) => Insert(k, v, Sort(rest))
  }

  function Size(j: Json): nat {
    match j
    case Null => 0
    case Bool(_) => 0
    case Num(_) => 0
    case Str(_) => 0
    case Arr(items) => 1 + SizeItems(items)
    case Obj(members) => 1 + SizeMembers(members)
  }

  function SizeItems(x: Items): nat {
    match x
    case NoItems => 0
    case Item(h, t) => 1 + Size(h) + SizeItems(t)
  }

  function SizeMembers(ms: Members): nat {
    match ms
    case NoMembers => 0
    case Member(_, v, rest) => 1 + Size(v) + SizeMembers(rest)
  }

  lemma {:induction false} InsertSize(k: Units, v: Json, ms: Members)
    ensures SizeMembers(Insert(k, v, ms)) == 1 + Size(v) + SizeMembers(ms)
  {
    if ms.NoMembers? || !Less(ms.key, k) {
    } else {
      InsertSize(k, v, ms.rest);
    }
  }

  lemma {:induction false} SortSize(ms: Members)
    ensures SizeMembers(Sort(ms)) == SizeMembers(ms)
  {
    if ms.NoMembers? {
    } else {
      SortSize(ms.rest);
      InsertSize(ms.key, ms.value, Sort(ms.rest));
    }
  }

  // ----- string text: QuoteJSONString of ECMA-262 -----

  predicate IsLead(u: int) {
    0xD800 <= u < 0xDC00
  }

  predicate IsTrail(u: int) {
    0xDC00 <= u < 0xE000
  }

  function HexDigit(d: int): int {
    if d < 10 then 48 + d else 87 + d
  }

  function UnicodeEscape(u: int): Units {
    [BACKSLASH, 117, HexDigit(u / 16 / 16 / 16), HexDigit(u / 16 / 16 % 16), HexDigit(u / 16 % 16), HexDigit(u % 16)]
  }

  /** The letter of a two-character escape, or 0. */
  function ShortEscape(u: int): int {
    if u == 8 then 98 else if u == 9 then 116 else if u == 10 then 110 else if u == 12 then 102
    else if u == 13 then 114 else if u == QUOTE then QUOTE else if u == BACKSLASH then BACKSLASH else 0
  }

  /** One code unit that is not part of a surrogate pair. */
  function UnitText(u: int): Units {
    if ShortEscape(u) != 0 then [BACKSLASH, ShortEscape(u)]
    else if u < 32 || IsLead(u) || IsTrail(u) then UnicodeEscape(u)
    else [u]
  }

  predicate StartsWithPair(s: Units) {
    |s| >= 2 && IsLead(s[0]) && IsTrail(s[1])
  }

  function Body(s: Units): Units {
    if s == [] then []
    else if StartsWithPair(s) then [s[0], s[1]] + Body(s[2..])
    else UnitText(s[0]) + Body(s[1..])
  }

  function Quote(s: Units): Units {
    [QUOTE] + Body(s) + [QUOTE]
  }

  // ----- stableJson -----

  const NULL_TEXT: Units := [110, 117, 108, 108]
  const TRUE_TEXT: Units := [116, 114, 117, 101]
  const FALSE_TEXT: Units := [102, 97, 108, 115, 101]

  function StableJson(j: Json): Units
    decreases Size(j)
  {
    match j
    case Null => NULL_TEXT
    case Bool(b) => if b then TRUE_TEXT else FALSE_TEXT
    case Num(n) => n
    case Str(s) => Quote(s)
    case Arr(items) => [OPEN_BRACKET] + StableItems(items)
    case Obj(members) =>
      SortSize(members);
      [OPEN_BRACE] + StableMembers(Sort(members))
  }

  /** The items joined by commas, and the closing bracket. */
  function StableItems(x: Items): Units
    decreases SizeItems(x)
  {
    match x
    case NoItems => [CLOSE_BRACKET]
    case Item(h, NoItems) => StableJson(h) + [CLOSE_BRACKET]
    case Item(h, t) => StableJson(h) + [COMMA] + StableItems(t)
  }

  function StableMembers(ms: Members): Units
    decreases SizeMembers(ms)
  {
    match ms
    case NoMembers => [CLOSE_BRACE]
    case Member(k, v, NoMembers) => Quote(k) + [COLON] + StableJson(v) + [CLOSE_BRACE]
    case Member(k, v, rest) => Quote(k) + [COLON] + StableJson(v) + [COMMA] + StableMembers(rest)
  }
}
