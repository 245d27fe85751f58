/**
  Reusable spending policies: validatePolicyRules and mergePolicyRules of packages/application/src/policy-workspace.ts,
  and the stored form of a policy version in packages/persistence/src/policies.ts.
 */
module PolicyRules {
  import opened Basics
  import opened Sums
  import opened Usdc
  import Decimal
  import Text

  /** The rules of a policy over amounts of type M: decimal text, stored atomic text, or atomic units. */
  datatype Rules<M> = Rules(
    totalCeiling: M,
    maxPerCall: M,
    providerCaps: map<string, M>,
    allowedProviders: seq<string>,
    blockedProviders: seq<string>,
    durationMinutes: int,
    allowedNetworks: seq<string>,
    allowedMints: seq<string>,
    allowedProtocols: seq<string>)

  function MapAmounts<A, B>(r: Rules<A>, f: A -> B): Rules<B> {
    Rules(f(r.totalCeiling), f(r.maxPerCall), map p | p in r.providerCaps :: f(r.providerCaps[p]),
          r.allowedProviders, r.blockedProviders, r.durationMinutes,
          r.allowedNetworks, r.allowedMints, r.allowedProtocols)
  }

  datatype PolicyError =
    | SchemaRejected
    | TotalNotPositive
    | PerCallNotPositive
    | PerCallAboveTotal
    | AllowedAndBlocked
    | BadCap
    | CapsCannotCoverTotal

  predicate Alphanumeric(c: char) {
    'a' <= c <= 'z' || 'A' <= c <= 'Z' || '0' <= c <= '9'
  }

  predicate IsProviderId(s: string) {
    && 2 <= |s| <= 80 && Alphanumeric(s[0])
    && forall i :: 0 <= i < |s| ==> Alphanumeric(s[i]) || s[i] in {'.', '_', ':', '-'}
  }

  predicate IsLabel(s: string) {
    Text.Trim(s) == s && 1 <= |s| <= 160
  }

  /** What reusablePolicyRulesSchema asks of the amounts, trimmed. */
  predicate PricedRight(r: Rules<string>) {
    && IsMoney(r.totalCeiling) && IsMoney(r.maxPerCall)
    && forall p :: p in r.providerCaps ==> IsMoney(r.providerCaps[p])
  }

  /** What it asks of everything else. */
  predicate ListedRight<M>(r: Rules<M>) {
    && 1 <= |r.allowedProviders| <= 24 && |r.blockedProviders| <= 24
    && (forall p :: p in r.allowedProviders ==> IsProviderId(p))
    && (forall p :: p in r.blockedProviders ==> IsProviderId(p))
    && (forall p :: p in r.providerCaps ==> IsProviderId(p))
    && 1 <= r.durationMinutes <= 10_080
    && |r.allowedNetworks| <= 12 && (forall s :: s in r.allowedNetworks ==> IsLabel(s))
    && |r.allowedMints| <= 12 && (forall s :: s in r.allowedMints ==> IsLabel(s))
    && 1 <= |r.allowedProtocols| <= 3 && (forall s :: s in r.allowedProtocols ==> s in {"demo", "x402", "mpp"})
  }

  // ----- unique -----

  /** The elements not seen before, each at its first occurrence: [...new Set(values)]. */
  function Dedupe(values: seq<string>, seen: seq<string>): (r: seq<string>)
    ensures |r| <= |values|
    decreases |values|
  {
    if values == [] then []
    else if values[0] in seen then Dedupe(values[1..], seen)
    else [values[0]] + Dedupe(values[1..], seen + [values[0]])
  }

  /** Trimmed values that are not blank. */
  function Clean(values: seq<string>): (r: seq<string>)
    ensures |r| <= |values|
    decreases |values|
  {
    if values == [] then []
    else (if Text.Blank(values[0]) then [] else [Text.Trim(values[0])]) + Clean(values[1..])
  }

  function Unique(values: seq<string>): (r: seq<string>)
    ensures |r| <= |values|
  {
    Dedupe(Clean(values), [])
  }

  lemma {:induction false} DedupeIsSet(values: seq<string>, seen: seq<string>)
    ensures Distinct(Dedupe(values, seen))
    ensures forall x :: x in Dedupe(values, seen) <==> x in values && x !in seen
    decreases |values|
  {
    if values == [] {
    } else {
      var first, rest := values[0], values[1..];
      if first in seen {
        DedupeIsSet(rest, seen);
      } else {
        DedupeIsSet(rest, seen + [first]);
        assert first !in Dedupe(rest, seen + [first]);
        DistinctCons(first, Dedupe(rest, seen + [first]));
      }
    }
  }

  /** Where an element first occurs. */
  function FirstIndex(values: seq<string>, x: string): (i: nat)
    requires x in values
    ensures i < |values| && values[i] == x && x !in values[..i]
  {
    if values[0] == x then 0
    else
      assert values[..1 + FirstIndex(values[1..], x)] == [values[0]] + values[1..][..FirstIndex(values[1..], x)];
      1 + FirstIndex(values[1..], x)
  }

  /** What is kept stands in the order of first occurrence. */
  lemma {:induction false} DedupeInOrder(values: seq<string>, seen: seq<string>, i: nat, j: nat)
    requires i < j < |Dedupe(values, seen)|
    ensures var r := Dedupe(values, seen);
      r[i] in values && r[j] in values && FirstIndex(values, r[i]) < FirstIndex(values, r[j])
    decreases |values|
  {
    var first, rest := values[0], values[1..];
    if first in seen {
      DedupeIsSet(rest, seen);
      DedupeInOrder(rest, seen, i, j);
    } else {
      DedupeIsSet(rest, seen + [first]);
      var r := Dedupe(rest, seen + [first]);
      assert r[j - 1] in rest && r[j - 1] != first;
      if i > 0 {
        DedupeInOrder(rest, seen + [first], i - 1, j - 1);
        assert r[i - 1] in r;
      }
    }
  }

  lemma DistinctCons(x: string, xs: seq<string>)
    requires Distinct(xs) && x !in xs
    ensures Distinct([x] + xs)
  {
  }

  lemma {:induction false} DedupeKeepsDistinct(values: seq<string>, seen: seq<string>)
    requires Distinct(values) && forall x :: x in values ==> x !in seen
    ensures Dedupe(values, seen) == values
    decreases |values|
  {
    if values == [] {
    } else {
      DistinctTail(values);
      DedupeKeepsDistinct(values[1..], seen + [values[0]]);
    }
  }

  lemma {:induction false} CleanKeeps(values: seq<string>)
    requires forall x :: x in values ==> x != "" && Text.Trim(x) == x
    ensures Clean(values) == values
    decreases |values|
  {
    if values == [] {
    } else {
      assert values[0] in values && forall x :: x in values[1..] ==> x in values;
      CleanKeeps(values[1..]);
    }
  }

  /** On clean text, unique lists the same values once each, and listing them again changes nothing. */
  lemma UniqueIsSet(values: seq<string>)
    requires forall x :: x in values ==> x != "" && Text.Trim(x) == x
    ensures Distinct(Unique(values)) && forall x :: x in Unique(values) <==> x in values
    ensures Unique(Unique(values)) == Unique(values)
    ensures values != [] ==> Unique(values) != []
  {
    CleanKeeps(values);
    DedupeIsSet(values, []);
    CleanKeeps(Unique(values));
    DedupeKeepsDistinct(Unique(values), []);
    if values != [] { assert values[0] in Unique(values); }
  }

  // ----- validation -----

  /** Atomic units of an amount; the schema has accepted the text by then. */
  function Atomic(usd: string): int {
    if IsMoney(usd) then ParseUsdc(usd) else 0
  }

  function InAtomic(r: Rules<string>): Rules<int> {
    MapAmounts(r, Atomic)
  }

  function CapOf(r: Rules<int>, p: string): int {
    if p in r.providerCaps then r.providerCaps[p] else r.totalCeiling
  }

  function EffectiveCapacity(r: Rules<int>): int {
    SumBy(r.allowedProviders, p => CapOf(r, p))
  }

  function WithUnique<M>(r: Rules<M>): Rules<M> {
    r.(allowedProviders := Unique(r.allowedProviders),
       blockedProviders := Unique(r.blockedProviders),
       allowedNetworks := Unique(r.allowedNetworks),
       allowedMints := Unique(r.allowedMints),
       allowedProtocols := Dedupe(r.allowedProtocols, []))
  }

  predicate CapProblem(r: Rules<int>, p: string) {
    && p in r.providerCaps
    && (|| p !in r.allowedProviders || p in r.blockedProviders
        || r.providerCaps[p] <= 0 || r.providerCaps[p] > r.totalCeiling)
  }

  /** The checks after parsing, first failure first; None when all pass. */
  function Objection(r: Rules<int>): Option<PolicyError> {
    if r.totalCeiling <= 0 then Some(TotalNotPositive)
    else if r.maxPerCall <= 0 then Some(PerCallNotPositive)
    else if r.maxPerCall > r.totalCeiling then Some(PerCallAboveTotal)
    else if exists p :: p in r.allowedProviders && p in r.blockedProviders then Some(AllowedAndBlocked)
    else if exists p :: p in r.providerCaps && CapProblem(r, p) then Some(BadCap)
    else if EffectiveCapacity(r) < r.totalCeiling then Some(CapsCannotCoverTotal)
    else None
  }

  /** validatePolicyRules. */
  function Validate(input: Rules<string>): Result<Rules<string>, PolicyError> {
    if !PricedRight(input) || !ListedRight(input) then Err(SchemaRejected)
    else
      match Objection(InAtomic(WithUnique(input)))
      case Some(e) => Err(e)
      case None => Ok(WithUnique(input))
  }

  datatype Overrides = Overrides(
    totalCeiling: Option<string>,
    maxPerCall: Option<string>,
    providerCaps: Option<map<string, string>>,
    allowedProviders: Option<seq<string>>,
    blockedProviders: Option<seq<string>>,
    durationMinutes: Option<int>,
    allowedNetworks: Option<seq<string>>,
    allowedMints: Option<seq<string>>,
    allowedProtocols: Option<seq<string>>)

  const NO_OVERRIDES := Overrides(None, None, None, None, None, None, None, None, None)

  function Or<T>(o: Option<T>, base: T): T {
    if o.Some? then o.value else base
  }

  /** { ...base, ...overrides }. */
  function Spread(base: Rules<string>, o: Overrides): Rules<string> {
    Rules(Or(o.totalCeiling, base.totalCeiling), Or(o.maxPerCall, base.maxPerCall),
          Or(o.providerCaps, base.providerCaps),
          Or(o.allowedProviders, base.allowedProviders), Or(o.blockedProviders, base.blockedProviders),
          Or(o.durationMinutes, base.durationMinutes), Or(o.allowedNetworks, base.allowedNetworks),
          Or(o.allowedMints, base.allowedMints), Or(o.allowedProtocols, base.allowedProtocols))
  }

  /** mergePolicyRules. */
  function Merge(base: Rules<string>, o: Overrides): Result<Rules<string>, PolicyError> {
    Validate(Spread(base, o))
  }

  // ----- the stored version -----

  /** parseUsdc(usd).toString(). */
  function ToAtomicText(usd: string): string {
    Decimal.PrintInt(Atomic(usd))
  }

  /** atomicToUsd on a stored amount. */
  function FromAtomicText(text: string): string {
    if Decimal.AllDigits(text) then AtomicToUsd(Decimal.Parse(text)) else ""
  }

  /** versionInsert with atomicCaps: a row of reusable_policy_versions. */
  function Store(r: Rules<string>): Rules<string> {
    MapAmounts(r, ToAtomicText)
  }

  /** rulesFromRow with capsToUsd. */
  function Load(row: Rules<string>): Rules<string> {
    MapAmounts(row, FromAtomicText)
  }
}
