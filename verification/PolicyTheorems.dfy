/** What accepted policies guarantee: to later edits, to the database, and to the reservations of their tasks. */
module PolicyTheorems {
  import opened Basics
  import opened Sums
  import opened Usdc
  import opened PolicyRules
  import Decimal
  import R = Reservations
  import Text

  // ----- validating twice -----

  lemma IdsAreTrimmed(s: string)
    requires IsProviderId(s)
    ensures s != "" && Text.Trim(s) == s
  {
    assert !Text.IsWhitespace(s[0]) && !Text.IsWhitespace(s[|s| - 1]);
    Text.TrimPadded("", s, "");
    assert "" + s + "" == s;
  }

  /** Removing repetitions keeps every entry, and the result passes the schema and is its own result. */
  lemma UniqueLists<M>(input: Rules<M>)
    requires ListedRight(input)
    ensures var r := WithUnique(input);
      && Distinct(r.allowedProviders) && Distinct(r.blockedProviders)
      && (forall p :: p in r.allowedProviders <==> p in input.allowedProviders)
      && (forall p :: p in r.blockedProviders <==> p in input.blockedProviders)
      && ListedRight(r) && WithUnique(r) == r
  {
    UniqueIds(input.allowedProviders);
    UniqueIds(input.blockedProviders);
    UniqueIsSet(input.allowedNetworks);
    UniqueIsSet(input.allowedMints);
    DedupeIsSet(input.allowedProtocols, []);
    DedupeKeepsDistinct(Dedupe(input.allowedProtocols, []), []);
    assert input.allowedProtocols[0] in Dedupe(input.allowedProtocols, []);
  }

  lemma UniqueIds(ids: seq<string>)
    requires forall p :: p in ids ==> IsProviderId(p)
    ensures Distinct(Unique(ids)) && forall x :: x in Unique(ids) <==> x in ids
    ensures Unique(Unique(ids)) == Unique(ids)
    ensures ids != [] ==> Unique(ids) != []
  {
    forall p | p in ids ensures p != "" && Text.Trim(p) == p {
      IdsAreTrimmed(p);
    }
    UniqueIsSet(ids);
  }

  /** Accepted rules are accepted again unchanged, so merging no overrides changes nothing. */
  lemma ValidateTwice(input: Rules<string>)
    requires Validate(input).Ok?
    ensures Validate(Validate(input).value) == Validate(input)
    ensures Merge(Validate(input).value, NO_OVERRIDES) == Validate(input)
  {
    UniqueLists(input);
  }

  // ----- the stored version -----

  /** The text an amount has after a trip through the database. */
  function Reloaded(usd: string): string {
    FromAtomicText(ToAtomicText(usd))
  }

  lemma AtomicTextRoundTrip(usd: string)
    requires IsMoney(usd)
    ensures IsMoney(Reloaded(usd))
    ensures Atomic(Reloaded(usd)) == Atomic(usd)
    ensures ToAtomicText(Reloaded(usd)) == ToAtomicText(usd)
  {
    PrintOfParse(usd);
    Decimal.ParsePrint(ParseUsdc(usd));
    ParseOfPrint(ParseUsdc(usd));
  }

  ghost predicate HasAmount<A(!new)>(r: Rules<A>, a: A) {
    a == r.totalCeiling || a == r.maxPerCall || a in r.providerCaps.Values
  }

  lemma Composed<A(!new), B, C>(r: Rules<A>, f: A -> B, g: B -> C, h: A -> C)
    requires forall a :: HasAmount(r, a) ==> g(f(a)) == h(a)
    ensures MapAmounts(MapAmounts(r, f), g) == MapAmounts(r, h)
  {
    assert HasAmount(r, r.totalCeiling) && HasAmount(r, r.maxPerCall);
    forall p | p in r.providerCaps ensures g(f(r.providerCaps[p])) == h(r.providerCaps[p]) {
      assert HasAmount(r, r.providerCaps[p]);
    }
    assert MapAmounts(MapAmounts(r, f), g).providerCaps == MapAmounts(r, h).providerCaps;
  }

  lemma LoadStore(r: Rules<string>)
    ensures Load(Store(r)) == MapAmounts(r, Reloaded)
  {
    Composed(r, ToAtomicText, FromAtomicText, Reloaded);
  }

  /** A stored version reads back with identical amounts and lists, and storing it again writes the same row. */
  lemma ReloadKeepsAmounts(r: Rules<string>)
    requires PricedRight(r)
    ensures PricedRight(Load(Store(r)))
    ensures InAtomic(Load(Store(r))) == InAtomic(r)
    ensures Store(Load(Store(r))) == Store(r)
  {
    LoadStore(r);
    forall usd | HasAmount(r, usd)
      ensures IsMoney(Reloaded(usd))
      ensures Atomic(Reloaded(usd)) == Atomic(usd) && ToAtomicText(Reloaded(usd)) == ToAtomicText(usd)
    {
      AtomicTextRoundTrip(usd);
    }
    Composed(r, Reloaded, Atomic, Atomic);
    Composed(r, Reloaded, ToAtomicText, ToAtomicText);
    ReloadIsPriced(r);
  }

  lemma ReloadIsPriced(r: Rules<string>)
    requires PricedRight(r)
    ensures PricedRight(MapAmounts(r, Reloaded))
  {
    AtomicTextRoundTrip(r.totalCeiling);
    AtomicTextRoundTrip(r.maxPerCall);
    forall p | p in r.providerCaps ensures IsMoney(Reloaded(r.providerCaps[p])) {
      AtomicTextRoundTrip(r.providerCaps[p]);
    }
  }

  /** Accepted rules stay accepted, with the same amounts, after a trip through the database. */
  lemma ReloadedRulesAreAccepted(input: Rules<string>)
    requires Validate(input).Ok?
    ensures var reloaded := Load(Store(Validate(input).value));
      Validate(reloaded) == Ok(reloaded) && InAtomic(reloaded) == InAtomic(Validate(input).value)
  {
    UniqueLists(input);
    var r := Validate(input).value;
    assert PricedRight(r) by { assert r.providerCaps == input.providerCaps; }
    ReloadKeepsAmounts(r);
    SameVerdict(r, Load(Store(r)));
  }

  lemma SameVerdict(a: Rules<string>, b: Rules<string>)
    requires PricedRight(b) && ListedRight(a) && WithUnique(a) == a
    requires InAtomic(a) == InAtomic(b) && Objection(InAtomic(a)).None?
    ensures Validate(b) == Ok(b)
  {
    assert b.providerCaps.Keys == InAtomic(b).providerCaps.Keys == a.providerCaps.Keys;
    assert ListedRight(b);
    assert WithUnique(b) == b;
  }

  // ----- the reservations of a task created from a policy -----

  /** With a budget within the ceiling, the caps of an accepted policy can always hold the budget. */
  lemma CapacitySuffices(r: Rules<int>, budget: int)
    requires Objection(r).None? && 0 < budget <= r.totalCeiling
    ensures SumBy(r.allowedProviders, R.At(R.CapsFor(budget, r.allowedProviders, r.providerCaps))) >= budget
    ensures forall p :: p in r.allowedProviders ==> R.Get(R.CapsFor(budget, r.allowedProviders, r.providerCaps), p) > 0
  {
    var ids, caps := r.allowedProviders, R.CapsFor(budget, r.allowedProviders, r.providerCaps);
    forall p | p in ids ensures R.Get(caps, p) > 0 {
      if p in r.providerCaps { assert !CapProblem(r, p); }
    }
    if p :| p in ids && p !in r.providerCaps {
      SumAtLeast(ids, R.At(caps), p);
    } else {
      SumExt(ids, p => CapOf(r, p), R.At(caps));
    }
  }

  /**
    For every accepted policy and every task budget within its ceiling, reserving succeeds exactly when the budget
    holds at least one atomic unit per provider; no other error of the allocation can occur.
   */
  lemma PolicyReservesExactly(input: Rules<string>, budget: int)
    requires Validate(input).Ok? && 0 < budget <= Atomic(input.totalCeiling)
    ensures var r := InAtomic(Validate(input).value);
      var result := R.Allocate(budget, r.allowedProviders, r.providerCaps);
      && Distinct(r.allowedProviders)
      && (result.Ok? <==> budget >= |r.allowedProviders|)
      && (result.Err? ==> result == Err(R.BudgetTooSmall))
  {
    UniqueLists(input);
    CapacitySuffices(InAtomic(Validate(input).value), budget);
  }
}
