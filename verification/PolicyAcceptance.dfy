/** Which reusable policies are accepted, and what overriding one validates. */
module PolicyAcceptance {
  import opened Basics
  import opened Sums
  import opened Usdc
  import opened PolicyRules
  import opened PolicyTheorems
  import Text

  /** The cap of a provider, in atomic units. */
  function CapIn(caps: map<string, string>): string -> int {
    p => if p in caps then Atomic(caps[p]) else 0
  }

  /** The lists a policy brings, by their lengths and entries. */
  predicate ListsFit(r: Rules<string>) {
    && 1 <= |r.allowedProviders| <= 24 && |r.blockedProviders| <= 24
    && |r.allowedNetworks| <= 12 && |r.allowedMints| <= 12 && 1 <= |r.allowedProtocols| <= 3
    && 1 <= r.durationMinutes <= 7 * 24 * 60
    && (forall s :: s in r.allowedNetworks + r.allowedMints ==> Text.Trim(s) == s && 1 <= |s| <= 160)
    && (forall s :: s in r.allowedProtocols ==> s == "demo" || s == "x402" || s == "mpp")
    && (forall p :: p in r.allowedProviders + r.blockedProviders ==> IsProviderId(p))
    && (forall p :: p in r.providerCaps ==> IsProviderId(p))
  }

  /** The amounts, in atomic units: positive ceilings in order, and caps that fit. */
  predicate AmountsFit(r: Rules<string>) {
    && IsMoney(r.totalCeiling) && IsMoney(r.maxPerCall)
    && 0 < ParseUsdc(r.maxPerCall) <= ParseUsdc(r.totalCeiling)
    && CapsFit(r)
  }

  /** Every cap is of an allowed provider, and within the ceiling. */
  predicate CapsFit(r: Rules<string>)
    requires IsMoney(r.totalCeiling)
  {
    forall p :: p in r.providerCaps ==>
      && IsMoney(r.providerCaps[p]) && p in r.allowedProviders
      && 0 < ParseUsdc(r.providerCaps[p]) <= ParseUsdc(r.totalCeiling)
  }

  /** No provider is both allowed and blocked. */
  predicate Parted(r: Rules<string>) {
    forall p :: p in r.allowedProviders ==> p !in r.blockedProviders
  }

  /** The ceiling can be spent: some allowed provider has no cap, or the caps add up to it. */
  predicate CapsCover(r: Rules<string>) {
    || (exists p :: p in r.allowedProviders && p !in r.providerCaps)
    || SumBy(Unique(r.allowedProviders), CapIn(r.providerCaps)) >= Atomic(r.totalCeiling)
  }

  lemma CapacityExactly(a: Rules<int>, caps: string -> int)
    requires a.totalCeiling > 0
    requires forall p :: p in a.providerCaps ==> caps(p) == a.providerCaps[p] > 0
    ensures EffectiveCapacity(a) >= a.totalCeiling <==>
      || (exists p :: p in a.allowedProviders && p !in a.providerCaps)
      || SumBy(a.allowedProviders, caps) >= a.totalCeiling
  {
    if p :| p in a.allowedProviders && p !in a.providerCaps {
      SumAtLeast(a.allowedProviders, q => CapOf(a, q), p);
    } else {
      SumExt(a.allowedProviders, q => CapOf(a, q), caps);
    }
  }

  lemma CapsInAtomic(r: Rules<string>, a: Rules<int>)
    requires AmountsFit(r) && a == InAtomic(WithUnique(r))
    ensures a.totalCeiling == Atomic(r.totalCeiling) > 0 && a.providerCaps.Keys == r.providerCaps.Keys
    ensures a.allowedProviders == Unique(r.allowedProviders)
    ensures forall p :: p in a.providerCaps ==> CapIn(r.providerCaps)(p) == a.providerCaps[p] > 0
  {
  }

  lemma CoverExactly(r: Rules<string>, a: Rules<int>)
    requires ListsFit(r) && AmountsFit(r) && a == InAtomic(WithUnique(r))
    ensures EffectiveCapacity(a) >= a.totalCeiling <==> CapsCover(r)
  {
    CapsInAtomic(r, a);
    CapacityExactly(a, CapIn(r.providerCaps));
    UniqueIds(r.allowedProviders);
  }

  lemma SchemaExactly(r: Rules<string>)
    ensures PricedRight(r) && ListedRight(r) <==>
      && ListsFit(r) && IsMoney(r.totalCeiling) && IsMoney(r.maxPerCall)
      && forall p :: p in r.providerCaps ==> IsMoney(r.providerCaps[p])
  {
  }

  lemma CapsExactly(r: Rules<string>, a: Rules<int>)
    requires PricedRight(r) && ListedRight(r) && Parted(r) && a == InAtomic(WithUnique(r))
    ensures (exists p :: p in a.providerCaps && CapProblem(a, p)) <==> !CapsFit(r)
  {
    UniqueLists(r);
    forall p | p in r.providerCaps
      ensures !CapProblem(a, p) <==>
        p in r.allowedProviders && 0 < ParseUsdc(r.providerCaps[p]) <= ParseUsdc(r.totalCeiling)
    {
      assert p in a.providerCaps && a.providerCaps[p] == Atomic(r.providerCaps[p]);
    }
  }

  /** The same entries, once each. */
  ghost predicate SameEntries(xs: seq<string>, ys: seq<string>) {
    Distinct(xs) && forall x :: x in xs <==> x in ys
  }

  lemma EntriesStay(r: Rules<string>)
    requires ListedRight(r)
    ensures var u := WithUnique(r);
      && SameEntries(u.allowedProviders, r.allowedProviders) && SameEntries(u.blockedProviders, r.blockedProviders)
      && SameEntries(u.allowedNetworks, r.allowedNetworks) && SameEntries(u.allowedMints, r.allowedMints)
      && SameEntries(u.allowedProtocols, r.allowedProtocols)
  {
    UniqueLists(r);
    UniqueIsSet(r.allowedNetworks);
    UniqueIsSet(r.allowedMints);
    DedupeIsSet(r.allowedProtocols, []);
  }

  lemma ObjectionParts(a: Rules<int>)
    ensures Objection(a).None? <==>
      && 0 < a.maxPerCall <= a.totalCeiling
      && !(exists p :: p in a.allowedProviders && p in a.blockedProviders)
      && !(exists p :: p in a.providerCaps && CapProblem(a, p))
      && EffectiveCapacity(a) >= a.totalCeiling
  {
  }

  /** After the schema, the checks object to nothing exactly when the amounts fit, the lists part and the caps cover. */
  lemma ObjectionExactly(r: Rules<string>)
    requires PricedRight(r) && ListedRight(r)
    ensures Objection(InAtomic(WithUnique(r))).None? <==> AmountsFit(r) && CapsCover(r) && Parted(r)
  {
    var a := InAtomic(WithUnique(r));
    assert a.totalCeiling == ParseUsdc(r.totalCeiling) && a.maxPerCall == ParseUsdc(r.maxPerCall);
    ObjectionParts(a);
    PartedExactly(r, a);
    if Parted(r) {
      CapsExactly(r, a);
      if AmountsFit(r) { CoverListed(r, a); }
    }
  }

  lemma CoverListed(r: Rules<string>, a: Rules<int>)
    requires PricedRight(r) && ListedRight(r) && AmountsFit(r) && a == InAtomic(WithUnique(r))
    ensures EffectiveCapacity(a) >= a.totalCeiling <==> CapsCover(r)
  {
    SchemaExactly(r);
    CoverExactly(r, a);
  }

  lemma PartedExactly(r: Rules<string>, a: Rules<int>)
    requires ListedRight(r) && a == InAtomic(WithUnique(r))
    ensures (exists p :: p in a.allowedProviders && p in a.blockedProviders)
      <==> !Parted(r)
  {
    UniqueLists(r);
  }

  /**
    A policy is accepted if and only if its lists and amounts fit, no provider is both allowed and blocked, and its
    caps cover its ceiling. It is stored with the repetitions of its lists removed and nothing else changed.
   */
  lemma AcceptedExactly(input: Rules<string>)
    ensures Validate(input).Ok? <==>
      ListsFit(input) && AmountsFit(input) && CapsCover(input) && Parted(input)
    ensures Validate(input).Ok? ==>
      var r := Validate(input).value;
      && r.totalCeiling == input.totalCeiling && r.maxPerCall == input.maxPerCall
      && r.providerCaps == input.providerCaps && r.durationMinutes == input.durationMinutes
      && SameEntries(r.allowedProviders, input.allowedProviders)
      && SameEntries(r.blockedProviders, input.blockedProviders)
      && SameEntries(r.allowedNetworks, input.allowedNetworks)
      && SameEntries(r.allowedMints, input.allowedMints)
      && SameEntries(r.allowedProtocols, input.allowedProtocols)
  {
    SchemaExactly(input);
    if PricedRight(input) && ListedRight(input) {
      EntriesStay(input);
      ObjectionExactly(input);
    }
  }

  /** Merging validates the base with every field that is overridden replaced, and every other field kept. */
  lemma MergeExactly(base: Rules<string>, o: Overrides, merged: Rules<string>)
    requires merged.totalCeiling == match o.totalCeiling case Some(v) => v case None => base.totalCeiling
    requires merged.maxPerCall == match o.maxPerCall case Some(v) => v case None => base.maxPerCall
    requires merged.providerCaps == match o.providerCaps case Some(v) => v case None => base.providerCaps
    requires merged.allowedProviders == match o.allowedProviders case Some(v) => v case None => base.allowedProviders
    requires merged.blockedProviders == match o.blockedProviders case Some(v) => v case None => base.blockedProviders
    requires merged.durationMinutes == match o.durationMinutes case Some(v) => v case None => base.durationMinutes
    requires merged.allowedNetworks == match o.allowedNetworks case Some(v) => v case None => base.allowedNetworks
    requires merged.allowedMints == match o.allowedMints case Some(v) => v case None => base.allowedMints
    requires merged.allowedProtocols == match o.allowedProtocols case Some(v) => v case None => base.allowedProtocols
    ensures Merge(base, o) == Validate(merged)
  {
    assert Spread(base, o) == merged;
  }

  // ----- which error -----

  /** What each objection says is wrong, each on its own. */
  predicate Wrong(a: Rules<int>, e: PolicyError) {
    match e
    case TotalNotPositive => a.totalCeiling <= 0
    case PerCallNotPositive => a.maxPerCall <= 0
    case PerCallAboveTotal => a.totalCeiling < a.maxPerCall
    case AllowedAndBlocked => exists p :: p in a.blockedProviders && p in a.allowedProviders
    case BadCap =>
      exists p :: p in a.providerCaps
        && !(p in a.allowedProviders && p !in a.blockedProviders && 0 < a.providerCaps[p] <= a.totalCeiling)
    case CapsCannotCoverTotal => !(a.totalCeiling <= EffectiveCapacity(a))
    case SchemaRejected => false
  }

  /** The order in which the objections are raised. */
  function Place(e: PolicyError): nat {
    match e
    case TotalNotPositive => 0 case PerCallNotPositive => 1 case PerCallAboveTotal => 2 case AllowedAndBlocked => 3
    case BadCap => 4 case CapsCannotCoverTotal => 5 case SchemaRejected => 6
  }

  /** The objection raised is the first that applies; a policy outside the schema is refused as such. */
  lemma ErrorsExactly(input: Rules<string>, e: PolicyError)
    ensures Validate(input) == Err(SchemaRejected) <==> !(PricedRight(input) && ListedRight(input))
    ensures PricedRight(input) && ListedRight(input) ==>
      var a := InAtomic(WithUnique(input));
      Validate(input) == Err(e) <==> Wrong(a, e) && forall d :: Place(d) < Place(e) ==> !Wrong(a, d)
  {
    if PricedRight(input) && ListedRight(input) {
      RaisedInOrder(InAtomic(WithUnique(input)), e);
    }
  }

  lemma RaisedInOrder(a: Rules<int>, e: PolicyError)
    ensures Objection(a) == Some(e) <==> Wrong(a, e) && forall d :: Place(d) < Place(e) ==> !Wrong(a, d)
    ensures Objection(a) != Some(SchemaRejected)
  {
    CapsWrong(a);
    FirstWrong(a);
    if Wrong(a, e) && forall d :: Place(d) < Place(e) ==> !Wrong(a, d) {
      assert Objection(a).Some? && Place(Objection(a).value) == Place(e);
    }
  }

  lemma CapsWrong(a: Rules<int>)
    ensures Wrong(a, BadCap) <==> exists p :: p in a.providerCaps && CapProblem(a, p)
  {
    forall p | p in a.providerCaps
      ensures CapProblem(a, p) <==>
        !(p in a.allowedProviders && p !in a.blockedProviders && 0 < a.providerCaps[p] <= a.totalCeiling)
    {
    }
  }

  lemma FirstWrong(a: Rules<int>)
    ensures match Objection(a)
      case Some(e) => Wrong(a, e) && forall d :: Place(d) < Place(e) ==> !Wrong(a, d)
      case None => forall d :: !Wrong(a, d)
  {
    CapsWrong(a);
  }

  // ----- provider ids -----

  lemma AlphanumericExactly(c: char)
    ensures Alphanumeric(c) <==> c in Text.LOWER || c in Text.UPPER || c in Text.DIGITS
  {
    Text.Runs();
    Text.InRun(Text.LOWER, 'a', c);
    Text.InRun(Text.UPPER, 'A', c);
    Text.InRun(Text.DIGITS, '0', c);
  }

  /** Ids are two to eighty letters, digits, dots, underscores, colons and hyphens, the first a letter or digit. */
  lemma ProviderIdsExactly(s: string)
    ensures IsProviderId(s) <==>
      && 2 <= |s| && |s| <= 80
      && (s[0] in Text.LOWER || s[0] in Text.UPPER || s[0] in Text.DIGITS)
      && forall c :: c in s ==> c in Text.LOWER || c in Text.UPPER || c in Text.DIGITS || c in "._:-"
  {
    forall c: char ensures Alphanumeric(c) <==> c in Text.LOWER || c in Text.UPPER || c in Text.DIGITS {
      AlphanumericExactly(c);
    }
    assert forall c :: c in "._:-" <==> c in {'.', '_', ':', '-'};
  }
}
