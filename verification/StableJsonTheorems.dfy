/**
  Two JSON values print to the same canonical text exactly when they are equal with objects taken as unordered maps.
 */
module CanonicalJsonTheorems {
  import opened Basics
  import opened CanonicalJson
  import opened CanonicalJsonProofs

  // ----- the key order -----

  lemma {:induction false} LessTotal(a: Units, b: Units)
    ensures Less(a, b) || a == b || Less(b, a)
    ensures !(Less(a, b) && Less(b, a)) && (a == b ==> !Less(a, b))
    decreases |a|
  {
    if a == [] || b == [] {
    } else {
      LessTotal(a[1..], b[1..]);
      assert a == [a[0]] + a[1..] && b == [b[0]] + b[1..];
    }
  }

  lemma {:induction false} LessTransitive(a: Units, b: Units, c: Units)
    requires Less(a, b) && Less(b, c)
    ensures Less(a, c)
    decreases |a|
  {
    if a == [] || a[0] != b[0] || b[0] != c[0] {
    } else {
      LessTransitive(a[1..], b[1..], c[1..]);
    }
  }

  ghost predicate Sorted(ms: Members) {
    match ms
    case NoMembers => true
    case Member(k, _, rest) => (forall l :: l in Keys(rest) ==> Less(k, l)) && Sorted(rest)
  }

  /** Inserting a new key keeps the members sorted and adds exactly that member. */
  lemma {:induction false} InsertWell(k: Units, v: Json, ms: Members)
    requires ValidMembers(ms) && Sorted(ms) && AllUnits(k) && Valid(v) && k !in Keys(ms)
    ensures var r := Insert(k, v, ms);
      ValidMembers(r) && Sorted(r) && Keys(r) == Keys(ms) + {k}
      && MeaningMembers(r) == MeaningMembers(ms)[k := Meaning(v)]
  {
    if ms.NoMembers? {
    } else if Less(ms.key, k) {
      InsertWell(k, v, ms.rest);
    } else {
      LessTotal(ms.key, k);
      FirstIsLeast(k, ms);
    }
  }

  /** What comes before the first member comes before all of them. */
  lemma FirstIsLeast(k: Units, ms: Members)
    requires ms.Member? && ValidMembers(ms) && Sorted(ms) && Less(k, ms.key)
    ensures forall l :: l in Keys(ms) ==> Less(k, l)
  {
    forall l | l in Keys(ms) ensures Less(k, l) {
      if l != ms.key { LessTransitive(k, ms.key, l); }
    }
  }

  lemma {:induction false} SortWell(ms: Members)
    requires ValidMembers(ms)
    ensures ValidMembers(Sort(ms)) && Sorted(Sort(ms)) && Keys(Sort(ms)) == Keys(ms)
    ensures MeaningMembers(Sort(ms)) == MeaningMembers(ms)
  {
    if ms.NoMembers? {
    } else {
      SortWell(ms.rest);
      InsertWell(ms.key, ms.value, Sort(ms.rest));
    }
  }

  lemma {:induction false} MeaningKeys(ms: Members)
    ensures MeaningMembers(ms).Keys == Keys(ms)
  {
    if ms.NoMembers? {
    } else {
      MeaningKeys(ms.rest);
    }
  }

  // ----- canonical forms -----

  /** The value with the members of every object sorted. */
  function Canon(j: Json): Json
    decreases Size(j)
  {
    match j
    case Arr(items) => Arr(CanonItems(items))
    case Obj(members) =>
      SortSize(members);
      Obj(CanonMembers(Sort(members)))
    case _ => j
  }

  function CanonItems(x: Items): Items
    decreases SizeItems(x)
  {
    match x
    case NoItems => NoItems
    case Item(h, t) => Item(Canon(h), CanonItems(t))
  }

  function CanonMembers(ms: Members): Members
    decreases SizeMembers(ms)
  {
    match ms
    case NoMembers => NoMembers
    case Member(k, v, rest) => Member(k, Canon(v), CanonMembers(rest))
  }

  /** stableJson prints the canonical form. */
  lemma {:induction false} StableIsText(j: Json)
    ensures StableJson(j) == Text(Canon(j))
    decreases Size(j), 1
  {
    match j
    case Arr(items) => StableItemsIsText(items);
    case Obj(members) =>
      SortSize(members);
      StableMembersIsText(Sort(members));
    case _ =>
  }

  lemma {:induction false} StableItemsIsText(x: Items)
    ensures StableItems(x) == TextItems(CanonItems(x))
    decreases SizeItems(x), 0
  {
    if x.NoItems? {
    } else {
      StableIsText(x.head);
      StableItemsIsText(x.tail);
      if x.tail.Item? { Associative(StableJson(x.head), [COMMA], StableItems(x.tail)); }
    }
  }

  lemma {:induction false} StableMembersIsText(ms: Members)
    ensures StableMembers(ms) == TextMembers(CanonMembers(ms))
    decreases SizeMembers(ms), 0
  {
    if ms.NoMembers? {
    } else {
      StableIsText(ms.value);
      StableMembersIsText(ms.rest);
      var last := if ms.rest.NoMembers? then [CLOSE_BRACE] else [COMMA] + StableMembers(ms.rest);
      var v := StableJson(ms.value);
      if ms.rest.Member? { Associative(Quote(ms.key) + [COLON] + v, [COMMA], StableMembers(ms.rest)); }
      Associative(Quote(ms.key), [COLON], v);
      Associative(Quote(ms.key), [COLON] + v, last);
      Associative([COLON], v, last);
    }
  }

  lemma {:induction false} CanonKeys(ms: Members)
    ensures Keys(CanonMembers(ms)) == Keys(ms)
  {
    if ms.NoMembers? {
    } else {
      CanonKeys(ms.rest);
    }
  }

  /** Canonical forms are valid and mean the same. */
  lemma {:induction false} CanonMeans(j: Json)
    requires Valid(j)
    ensures Valid(Canon(j)) && Meaning(Canon(j)) == Meaning(j)
    decreases Size(j), 1
  {
    match j
    case Arr(items) => CanonItemsMean(items);
    case Obj(members) =>
      SortSize(members);
      SortWell(members);
      CanonMembersMean(Sort(members));
    case _ =>
  }

  lemma {:induction false} CanonItemsMean(x: Items)
    requires ValidItems(x)
    ensures ValidItems(CanonItems(x)) && MeaningItems(CanonItems(x)) == MeaningItems(x)
    decreases SizeItems(x), 0
  {
    if x.NoItems? {
    } else {
      CanonMeans(x.head);
      CanonItemsMean(x.tail);
    }
  }

  lemma {:induction false} CanonMembersMean(ms: Members)
    requires ValidMembers(ms)
    ensures ValidMembers(CanonMembers(ms)) && MeaningMembers(CanonMembers(ms)) == MeaningMembers(ms)
    decreases SizeMembers(ms), 0
  {
    if ms.NoMembers? {
    } else {
      CanonMeans(ms.value);
      CanonMembersMean(ms.rest);
      CanonKeys(ms.rest);
    }
  }

  // ----- equal meaning, equal canonical form -----

  lemma {:induction false} CanonOfMeaning(a: Json, b: Json)
    requires Valid(a) && Valid(b) && Meaning(a) == Meaning(b)
    ensures Canon(a) == Canon(b)
    decreases Size(a), 1
  {
    match a
    case Arr(items) => ItemsOfMeaning(items, b.items);
    case Obj(members) =>
      SortSize(members);
      SortWell(members);
      SortWell(b.members);
      SortedOfMeaning(Sort(members), Sort(b.members));
    case _ =>
  }

  lemma {:induction false} ItemsOfMeaning(x: Items, y: Items)
    requires ValidItems(x) && ValidItems(y) && MeaningItems(x) == MeaningItems(y)
    ensures CanonItems(x) == CanonItems(y)
    decreases SizeItems(x), 0
  {
    if x.NoItems? {
    } else {
      assert MeaningItems(x)[0] == MeaningItems(y)[0] && MeaningItems(x)[1..] == MeaningItems(y)[1..];
      CanonOfMeaning(x.head, y.head);
      ItemsOfMeaning(x.tail, y.tail);
    }
  }

  /** Sorted members are determined by the map they denote. */
  lemma {:induction false} SortedOfMeaning(x: Members, y: Members)
    requires ValidMembers(x) && ValidMembers(y) && Sorted(x) && Sorted(y)
    requires MeaningMembers(x) == MeaningMembers(y)
    ensures CanonMembers(x) == CanonMembers(y)
    decreases SizeMembers(x), 0
  {
    MeaningKeys(x);
    MeaningKeys(y);
    if x.NoMembers? {
      SameFirst(x, y);
    } else {
      SameFirst(x, y);
      RestMeaning(x);
      RestMeaning(y);
      CanonOfMeaning(x.value, y.value);
      SortedOfMeaning(x.rest, y.rest);
    }
  }

  lemma SameFirst(x: Members, y: Members)
    requires Sorted(x) && Sorted(y) && Keys(x) == Keys(y)
    ensures x.Member? <==> y.Member?
    ensures x.Member? ==> x.key == y.key
  {
    if x.Member? { assert x.key in Keys(x); }
    if y.Member? { assert y.key in Keys(y); }
    if x.Member? && y.Member? { LessTotal(x.key, y.key); }
  }

  lemma RestMeaning(ms: Members)
    requires ValidMembers(ms) && ms.Member?
    ensures MeaningMembers(ms.rest) == MeaningMembers(ms) - {ms.key}
    ensures MeaningMembers(ms)[ms.key] == Meaning(ms.value)
  {
    MeaningKeys(ms.rest);
  }

  // ----- the theorem -----

  lemma StableJsonIsCanonical(a: Json, b: Json)
    requires Valid(a) && Valid(b)
    ensures StableJson(a) == StableJson(b) <==> Meaning(a) == Meaning(b)
  {
    StableIsText(a);
    StableIsText(b);
    CanonMeans(a);
    CanonMeans(b);
    if StableJson(a) == StableJson(b) {
      assert Text(Canon(a)) + [] == Text(Canon(b)) + [];
      TextPrefix(Canon(a), Canon(b), [], []);
    }
    if Meaning(a) == Meaning(b) {
      CanonOfMeaning(a, b);
    }
  }

  /** Object keys may be listed in any order: swapping two neighbours changes nothing. */
  lemma MemberOrderIsIrrelevant(k: Units, v: Json, l: Units, w: Json, rest: Members)
    requires Valid(Obj(Member(k, v, Member(l, w, rest))))
    ensures StableJson(Obj(Member(k, v, Member(l, w, rest)))) == StableJson(Obj(Member(l, w, Member(k, v, rest))))
  {
    var a, b := Obj(Member(k, v, Member(l, w, rest))), Obj(Member(l, w, Member(k, v, rest)));
    assert Keys(Member(l, w, rest)) == {l} + Keys(rest) && Keys(Member(k, v, rest)) == {k} + Keys(rest);
    assert ValidMembers(Member(l, w, rest)) && ValidMembers(Member(k, v, rest));
    assert MeaningMembers(a.members) == MeaningMembers(rest)[l := Meaning(w)][k := Meaning(v)];
    assert MeaningMembers(b.members) == MeaningMembers(rest)[k := Meaning(v)][l := Meaning(w)];
    StableJsonIsCanonical(a, b);
  }

  /** The form of the text, on one value: {"a":[true,null],"b":7}. */
  lemma TextOfAnExample()
    ensures var a, b := Arr(Item(Bool(true), Item(Null, NoItems))), Num([55]);
      StableJson(Obj(Member([98], b, Member([97], a, NoMembers))))
      == [OPEN_BRACE, QUOTE, 97, QUOTE, COLON, OPEN_BRACKET] + TRUE_TEXT + [COMMA] + NULL_TEXT
         + [CLOSE_BRACKET, COMMA, QUOTE, 98, QUOTE, COLON, 55, CLOSE_BRACE]
  {
    TextOfTwo(Arr(Item(Bool(true), Item(Null, NoItems))), Num([55]));
    TextOfPair();
    Flatten(TRUE_TEXT, NULL_TEXT);
  }

  lemma TextOfPair()
    ensures StableJson(Arr(Item(Bool(true), Item(Null, NoItems))))
      == [OPEN_BRACKET] + TRUE_TEXT + [COMMA] + NULL_TEXT + [CLOSE_BRACKET]
  {
  }

  lemma TextOfTwo(v: Json, w: Json)
    ensures StableJson(Obj(Member([98], w, Member([97], v, NoMembers))))
      == [OPEN_BRACE] + ([QUOTE, 97, QUOTE] + [COLON] + StableJson(v) + [COMMA]
         + ([QUOTE, 98, QUOTE] + [COLON] + StableJson(w) + [CLOSE_BRACE]))
  {
    SortTwo([97], v, [98], w);
    var last := Member([98], w, NoMembers);
    assert Quote([97]) == [QUOTE, 97, QUOTE] && Quote([98]) == [QUOTE, 98, QUOTE];
    assert StableMembers(last) == Quote([98]) + [COLON] + StableJson(w) + [CLOSE_BRACE];
  }

  lemma SortTwo(k: Units, v: Json, l: Units, w: Json)
    requires Less(k, l)
    ensures Sort(Member(l, w, Member(k, v, NoMembers))) == Member(k, v, Member(l, w, NoMembers))
  {
    assert Sort(Member(k, v, NoMembers)) == Member(k, v, NoMembers);
    assert Insert(l, w, Member(k, v, NoMembers)) == Member(k, v, Member(l, w, NoMembers));
  }

  lemma Flatten(x: Units, y: Units)
    ensures [OPEN_BRACE] + ([QUOTE, 97, QUOTE] + [COLON] + ([OPEN_BRACKET] + x + [COMMA] + y + [CLOSE_BRACKET])
              + [COMMA]
              + ([QUOTE, 98, QUOTE] + [COLON] + [55] + [CLOSE_BRACE]))
      == [OPEN_BRACE, QUOTE, 97, QUOTE, COLON, OPEN_BRACKET] + x + [COMMA] + y
         + [CLOSE_BRACKET, COMMA, QUOTE, 98, QUOTE, COLON, 55, CLOSE_BRACE]
  {
  }
}
