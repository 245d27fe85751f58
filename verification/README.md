# Canalis in Dafny

Canalis bounds what an agent may spend. A task's budget becomes one payment-channel ceiling per provider, each paid
request becomes a cumulative voucher authorization, and at the end the channels are sealed, distributed and the rest of
the budget comes back. This project models that money logic, the two protocols around it and the codecs it relies on,
and proves what they promise. `dafny verify dfyconfig.toml` checks everything.

Amounts are `bigint` in the source and unbounded `int` here. Where a width matters (vouchers) it is written out.

## How it is organised

| component | specification | proofs and theorems | imperative form |
|---|---|---|---|
| route orchestrator and spend policy | `Domain`, `SpendPolicy`, `Routing` | `RoutingProofs`, `RoutingTheorems`, `RouteOpening`, `RouteOutcomes` | `Orchestrator` |
| splitting a budget into ceilings | `Reservations` | `ReservationProofs`, `ReservationTheorems` | `Allocator` |
| channel finalization | `Channels`, `Finalization` | `FinalizationProofs`, `FinalizationReports`, `FinalizationSignatures`, `TaskReconciliation` | `ChannelAdapter` |
| idempotency, locks, rate limits | `SecurityTables`, `LeaseProtocol`, `RateLimits` | `LeaseProofs`, `LockProofs`, `ResponseProofs`, `LeaseRuns`, `Lifetimes`, `Fingerprints`, `RateLimitProofs` | `SecurityStore`, `MutationClient` |
| base58 and wallet addresses | `Numerals`, `Base58` | `Base58` | `Base58Carry`, `Base58Decoder` |
| canonical JSON | `CanonicalJson` | `CanonicalJsonProofs`, `CanonicalJsonTheorems`, `CanonicalJsonTexts` | |
| challenge parameters | `AuthParams` | `AuthParamProofs`, `AuthParamNames`, `AuthParamHeaders` | `AuthParamParser` |
| voucher payload | `Vouchers` | `Vouchers` | `Vouchers` |
| USDC text and policies | `Decimal`, `Usdc`, `PolicyRules` | `Usdc`, `PolicyTheorems`, `PolicyAcceptance` | |
| request to reconciliation | | `EndToEnd` | |

Code the source writes as loops or updates is a method or a class here, proved equal to a pure specification; the
theorems are about that specification.

**Concurrency.** `execute` in the orchestrator runs without interruption between its awaits, so a run is a list of events
(launch, quote, payment, settlement) over any number of executions in flight. The idempotency protocol interleaves the
single SQL statements of any number of callers, with a clock that only moves forward, callers that die and completions
that fail before or after their effect. Finalization meets a chain on which other parties act before every adapter call,
and every call may fail before or after it takes effect.

## What the code does not meet

These follow the code as it is, each with the exact condition.

* `allocateReservations` can hand out more than the budget: the branch that fills a provider to its cap is not limited
  to what remains. The excess is at most the number of providers less two, that much occurs for every number of
  providers from three on, and the total is exact if and only if the last pass does not spill. The orchestrator's
  constructor refuses every overfilled task.
* A caller that abandons its claim after its lease has run out can delete the claim of the caller who took it over, and
  then two callers hold a live lease on one key. A late completion cannot do that. An abandon leaves exclusion intact in
  every continuation whose further abandons are prompt if and only if it does not remove an open claim another live holder
  relies on, and leases are exclusive in every run whose abandons meet that condition.
* The holder key of a mutation lock is made of the idempotency key and the request's hash, and names no owner. Two wallets
  that send one request for one task under one key hold its lock at the same time, with nobody late. A lock statement
  keeps exclusion if and only if no other live holder of the resource has the same holder key under another identity (or
  the asker's own lease is over); a run of prompt callers is exclusive throughout if and only if all its lock statements
  meet that condition.
* A caller that is late with its release can delete the row of the caller that took its claim and lock over. A release
  leaves lock exclusion intact in every continuation of safe steps, with newcomers the server accepts, if and only if no
  other live holder of the resource has its holder key.
* A caller that is late with its completion returns its response although another caller's is recorded, and replays then
  give the other one. What is returned is what is recorded if and only if the claim is still open, or that very response
  is recorded already, at the completing statement.
* A fixed window lets through more than the limit in some intervals of one window length: exactly when a window begins
  strictly inside the interval and what it and the window before it let through there exceeds the limit. The two counts
  are given exactly; together they reach twice the limit and never more.
* When a distribution lands but its answer is lost, the record asks to distribute again and no later call ever reports
  the channel finalized, although docs/settlement-finalization.md calls finalization retry-safe. For every call: it reports
  the channel finalized if and only if its last request paid and the answer arrived. An undisturbed retry after a failed
  distribution finalizes if and only if nothing has been paid out. No money moves twice.
* `unquote` undoes only `\"` and `\\`. It agrees with section 5.6.4 of RFC 9110 exactly when no other quoted pair occurs.
* Parameter names are looked up as they are written, while section 11.2 of RFC 9110 matches them without regard to case:
  in `Payment ID="x"` the id is missing. In a list without repeated names the two readings agree if and only if every
  parameter with a value whose name is one of those read, ignoring case, has it in lower case.
* Loading a stored policy drops the trailing zeros of its amounts' text, and changes no other text; the amounts are
  identical.

## Model

| member | source | states |
|---|---|---|
| RoutingProofs.OpenInvariant | packages/core/src/route.ts:111-167 | every list of reservations the constructor accepts, under any budget, yields a state that satisfies the whole invariant |
| RouteOpening.OpensExactly | packages/core/src/route.ts:111-167 | reservations are accepted exactly when nothing is wrong with any of them, otherwise with the first thing wrong; the opened route has the reserved providers in order, each with its reserved ceiling and nothing spent, and no others |
| RouteOpening.CeilingsLast | packages/core/src/route.ts:159-164 | after every run the providers, their order and their ceilings are those of the reservations |
| RouteOpening.ChargedWithinReservation | packages/core/src/policy.ts:14-137 | after every run a positive quote is charged exactly when its mint is the budget's, the policy admits it and the provider's charges plus its price stay within the reserved ceiling |
| RoutingProofs.DecideExactly | packages/core/src/policy.ts:14-137 | in a state satisfying the invariant, a positive quote is charged exactly when its mint is the budget's, the policy admits it and the channel ceiling has room; budget and provider cap need no check of their own |
| SpendPolicy.RejectsFirstViolation | packages/core/src/policy.ts:29-136 | the decision names the first violated requirement in the source's order, and a proposal is allowed exactly when it violates none |
| RoutingProofs.BudgetHasRoom | packages/core/src/policy.ts:122-128 | room under one ceiling is room under the budget |
| RoutingProofs.StepInvariant | packages/core/src/route.ts:187-325 | every event of every interleaving keeps the balances, the chains, the flow records and the executions in flight |
| RoutingTheorems.RunInvariant | packages/core/src/route.ts:111-325 | the invariant holds after every run from accepted reservations |
| RoutingTheorems.SpendingIsBounded | packages/core/src/route.ts:124-267 | after every run: authorized = spent = ledger entry per provider, within ceiling within cap; the ledger total is the sum over providers and at most the sum of ceilings, which is at most the budget, or zero when nothing was reserved under a negative one |
| RoutingTheorems.AuthorizationsArePermanent | packages/core/src/route.ts:235-255 | later events only raise authorizations and extend chains and settlements |
| RoutingTheorems.ChargesFormAChain | packages/core/src/route.ts:188-255 | per provider the non-rejected flows, failed ones included, are a gap-free ascending chain from 0 whose quotes add up to the cumulative authorization |
| RoutingTheorems.ReferenceDetermines | packages/core/src/route.ts:240-240 | a payment reference determines provider and cumulative amount, whatever characters the ids contain |
| RoutingTheorems.ReferencesAreDistinct | packages/core/src/route.ts:240-255 | no two charges of a run share a payment reference |
| RoutingTheorems.ImpliedRejectionsNeverHappen | packages/core/src/policy.ts:29-128 | eight of the policy's rejections are never recorded in any run |
| RoutingTheorems.SettlementTagsAPrefix | packages/core/src/route.ts:315-324 | an accepted settlement tags exactly the fulfilled flows in the prefix of its provider's chain that it covers, changes no other flow, and the tagged quotes sum to at most the settled amount |
| RoutingTheorems.SettlementsStayAuthorized | packages/core/src/route.ts:303-325 | a recorded settlement is within its provider's authorization then and after every further run; a tagged flow is fulfilled and covered by a recorded settlement |
| RoutingTheorems.SettledExactly | packages/core/src/route.ts:315-324 | after every run a flow carries a signature if and only if a settlement that covers it was recorded after its fulfilment, and it is the last such settlement's |
| RouteOutcomes.PaymentSucceeds | packages/core/src/route.ts:269-288 | for every run and every execution awaiting payment: its flow is fulfilled with the receipt of its quote, authorization, response and time exactly when the adapter announces the id it is registered under, and failed otherwise; no other flow, balance or settlement changes and the execution is over |
| RouteOutcomes.PaymentFails | packages/core/src/route.ts:289-300 | a failed payment marks exactly its flow failed, without a receipt, and leaves the charge |
| RouteOutcomes.WrongQuote | packages/providers/src/execute.ts:13-27 | a quote of another adapter, for another request or without a positive price ends the execution and changes nothing else |
| RouteOutcomes.QuoteCharged | packages/core/src/route.ts:216-266 | a quote in the budget's mint that violates no requirement is charged, and its execution goes on to pay with the authorization answered |
| RouteOutcomes.ChargeOutcome | packages/core/src/route.ts:239-265 | every field of the authorization and of the flow recorded with it |
| RouteOutcomes.ChargeBalances | packages/core/src/route.ts:235-237 | a charge raises exactly the provider's two balances and the ledger's two entries by the price |
| RouteOutcomes.QuoteRejected | packages/core/src/route.ts:194-233 | any other quote records one rejected flow with its amounts under the mint mismatch or the first violated requirement, answers with that code, and charges nothing |
| RouteOutcomes.LaunchOutcome | packages/core/src/route.ts:169-183 | an unregistered provider, then an unreserved one, gets a rejected flow of zeros; any other execution waits for its quote |
| RouteOutcomes.QuoteFails | packages/core/src/route.ts:289-300 | an adapter that fails before it quotes ends its execution and leaves the route as it is |
| RouteOutcomes.NothingHappens | packages/core/src/route.ts:169-300 | an event of an execution that does not wait for it changes nothing |
| RouteOutcomes.SettlementOutcome | packages/core/src/route.ts:303-325 | a settlement is recorded exactly when its provider is reserved and its amount is between zero and the provider's charges, both included; then exactly the fulfilled flows it covers are tagged |
| Orchestrator.CanalisRouteOrchestrator.Create | packages/core/src/route.ts:111-167 | the constructor loop accepts or refuses, with the first error, exactly as the specification |
| Orchestrator.CanalisRouteOrchestrator.Launch | packages/core/src/route.ts:173-183 | the checks before anything is awaited record a rejected flow or change nothing |
| Orchestrator.CanalisRouteOrchestrator.AuthorizeQuote | packages/core/src/route.ts:188-266 | the whole new state and the answer of the authorize callback |
| Orchestrator.CanalisRouteOrchestrator.MarkFulfilled | packages/core/src/route.ts:281-282 | only the active flow changes, and it receives its receipt |
| Orchestrator.CanalisRouteOrchestrator.MarkFailed | packages/core/src/route.ts:294-298 | only the active flow's status changes; its charge stays |
| Orchestrator.CanalisRouteOrchestrator.RecordSettlement | packages/core/src/route.ts:303-325 | refused exactly for an unknown provider, a negative amount or one above the authorization; otherwise appended and tagged |
| Orchestrator.CanalisRouteOrchestrator.GetPaymentGraph | packages/core/src/route.ts:327-347 | spent plus remaining is the budget, reserved is the sum of ceilings, and in every state satisfying the invariant spent, reserved and budget are ordered (with nothing reserved, if the budget is not negative) |
| ReservationTheorems.AllocationWithinCaps | packages/application/src/service.ts:52-94 | every provider gets one reservation, in order, between 1 and its cap |
| ReservationTheorems.AllocationTotal | packages/application/src/service.ts:69-94 | the total is at least the budget and at most max(0, n - 2) above it, and equals it if and only if the last pass does not spill |
| ReservationTheorems.AllocationFair | packages/application/src/service.ts:69-94 | whoever ends below its cap is at most n - 1 units behind anybody else |
| ReservationTheorems.RoomyCapsAreExact | packages/application/src/service.ts:76-83 | with no cap below the first share the total is exactly the budget |
| ReservationTheorems.OvershootIsReached | packages/application/src/service.ts:82-82 | for every n >= 3 the excess n - 2 occurs |
| ReservationTheorems.CreatedTasksOpenExactly | packages/application/src/service.ts:211-237 | a created task with registered providers can be opened for execution exactly when it is not overfilled, and always with one or two providers |
| ReservationTheorems.RefusalsExactly | packages/application/src/service.ts:38-67 | reserving is refused exactly for a budget below one unit per provider, else for a cap that is not positive, else for caps that together cannot hold the budget |
| ReservationProofs.PassConserves | packages/application/src/service.ts:78-87 | within a pass what providers gain is what remaining loses |
| ReservationProofs.RoundsSound | packages/application/src/service.ts:70-92 | water-filling as a whole: bounds, level, and total against the closed form of the water level |
| ReservationProofs.RoundsCount | packages/application/src/service.ts:70-92 | at most one pass per provider, because every unfinished pass saturates one |
| Reservations.PassProgresses | packages/application/src/service.ts:89-91 | a pass over a non-empty eligible list always hands something out |
| Allocator.RunPass | packages/application/src/service.ts:78-88 | the inner loop computes one pass and reports progress truthfully |
| Allocator.Fill | packages/application/src/service.ts:70-92 | the outer loop ends after at most as many passes as providers and neither of its throws is reachable |
| Allocator.AllocateReservations | packages/application/src/service.ts:38-95 | the function as a whole equals its specification, errors included |
| Channels.ActAllKeeps | packages/solana/src/types.ts:3-9 | whatever other parties do, an escrow pays out at most once, then exactly the settled amount and the rest; watermarks rise and freeze at sealing |
| FinalizationProofs.CallIsSafe | packages/solana/src/finalization.ts:225-339 | one call, any acts of others and any failures: distribution is requested only on a channel sealed at exactly the authorized watermark, a sealed channel is never sealed again, and "finalized" means this call triggered the first payout |
| FinalizationProofs.SealIsSafe | packages/solana/src/finalization.ts:154-204 | a verified settlement means the chain is sealed at the authorized watermark with the expected deposit |
| FinalizationProofs.CampaignIsSafe | packages/solana/src/finalization.ts:225-339 | over any list of calls every request is proper for one of the inputs and no channel's distribution lands twice |
| FinalizationProofs.FinalizedMeansPaid | packages/solana/src/finalization.ts:319-338 | a call reported finalized left exactly the authorized amount for the provider and the rest for the payer on chain, for good |
| FinalizationProofs.FinalizedOnce | packages/solana/src/finalization.ts:247-255 | over any list of calls at most one reports a given channel finalized |
| FinalizationProofs.PaidChannelsAreNotFinalized | packages/solana/src/finalization.ts:247-255 | once a payout has happened, no later call reports the channel finalized |
| FinalizationReports.FinalizedExactly | packages/solana/src/finalization.ts:283-338 | every call, any acts of others and any failures: it reports the channel finalized if and only if its last request paid and the answer to it arrived; a lost answer leaves the exact payout on chain and a record that asks to distribute again |
| FinalizationReports.RetryFinalizesExactly | packages/solana/src/finalization.ts:283-295 | an undisturbed retry of any failed distribution finalizes if and only if the channel has not been paid out |
| FinalizationReports.LostReceiptIsPermanent | packages/solana/src/finalization.ts:247-295 | once the answer to a payout is lost, no later call reports the channel finalized |
| FinalizationProofs.LostReceipt | packages/solana/src/finalization.ts:283-295 | such a call, for every sealed channel that nobody disturbs |
| FinalizationProofs.QuietCallFinalizesExactly | packages/solana/src/finalization.ts:154-192 | an undisturbed call finalizes exactly the channels that are sealed at the watermark, open at it, or open below it with a final voucher |
| FinalizationProofs.RetryAfterFailedDistribution | packages/solana/src/finalization.ts:154-165 | after a failed distribution of a sealed channel a retry requests only the distribution and finalizes |
| FinalizationProofs.RecoveryAdvice | packages/solana/src/finalization.ts:110-137 | for every adapter, phase and recovery action fit what the call found, and signatures are kept exactly where the phase has them |
| FinalizationSignatures.SignaturesExactly | packages/solana/src/finalization.ts:274-338 | for every adapter: which adapter call's signature a record carries as its settlement and its distribution, which amounts it carries, and how many calls and requests led to it |
| FinalizationSignatures.HonestSignatures | packages/solana/src/finalization.ts:319-338 | with an adapter that reports the chain: the distribution's signature is the last call's, the settlement's that of the call before it, or none when the channel was found sealed or that signature is empty; a mismatch never occurs |
| FinalizationSignatures.InspectionExactly | packages/solana/src/finalization.ts:139-152 | for every adapter: a call goes past its inspection exactly when it is shown the right channel, not yet paid out |
| FinalizationSignatures.SettlementExactly | packages/solana/src/finalization.ts:194-204 | it distributes exactly when the settlement it is answered is this channel's at the authorized amount |
| FinalizationSignatures.DistributionExactly | packages/solana/src/finalization.ts:206-223 | it finalizes exactly when the distribution it is answered is this channel's with both expected amounts |
| TaskReconciliation.ChecksExactly | packages/solana/src/finalization.ts:346-367 | the checking loop accepts exactly the lists of valid inputs without repeated providers or channels |
| TaskReconciliation.ReconciliationExact | packages/solana/src/finalization.ts:376-398 | for every adapter: reconciled if and only if fully finalized, and reconciled plus unresolved escrow is the budget plus the amounts reported by channels that failed in the reconcile phase |
| TaskReconciliation.ReconciledMeansPaid | packages/solana/src/finalization.ts:376-398 | with an adapter that reports the chain, reconciled plus unresolved is the budget, and a reconciled task paid every channel as authorized |
| TaskReconciliation.ProblemExactly | packages/solana/src/finalization.ts:341-374 | the checks name a negative budget, else the first thing wrong with the first wrong channel, else ceilings above the budget, and pass otherwise |
| TaskReconciliation.SummaryExactly | packages/solana/src/finalization.ts:376-418 | every amount and count of the summary as a sum over the channels and their records |
| ChannelAdapters.SealAtWatermark | packages/solana/src/finalization.ts:154-192 | the sealing step driven on the stateful adapter, branch by branch |
| ChannelAdapters.FinalizeProvider | packages/solana/src/finalization.ts:225-339 | the whole call on the stateful adapter: record and new chain state |
| ChannelAdapters.CheckChannels | packages/solana/src/finalization.ts:346-367 | the loop with its sets and running totals finds the first problem and the two sums |
| ChannelAdapters.FinalizeTask | packages/solana/src/finalization.ts:341-418 | the task-level function: summary, errors and new chain state |
| SecurityStore.SecurityRepository.BeginIdempotency | packages/persistence/src/security.ts:49-116 | the statements in order, each at its own time and after any change others make to the table before it: the table left and the answer |
| SecurityStore.SecurityRepository.CompleteIdempotency | packages/persistence/src/security.ts:118-144 | only an open claim with the same hash is completed |
| SecurityStore.SecurityRepository.AbandonIdempotency | packages/persistence/src/security.ts:146-160 | only an open claim with the same hash is removed |
| SecurityStore.SecurityRepository.AcquireMutationLock | packages/persistence/src/security.ts:162-188 | granted exactly when the resource is free, run out, or held under the same holder key |
| SecurityStore.SecurityRepository.ReleaseMutationLock | packages/persistence/src/security.ts:190-195 | removes the lock only under the holder's own key |
| SecurityStore.SecurityRepository.ConsumeRateLimit | packages/persistence/src/security.ts:197-233 | the upsert and the answer computed from it |
| LeaseProofs.LeasesAreExclusive | packages/persistence/src/security.ts:57-160 | in every run whose abandons remove no other live holder's claim, no two callers hold a live lease on one identity, and the sweep never removes a live lease |
| LeaseProofs.PromptRunsAreSafe | packages/persistence/src/security.ts:146-160 | a run whose abandons all come before their own leases end is such a run |
| LeaseProofs.AbandonIsSafeExactly | packages/persistence/src/security.ts:146-160 | after an abandon leases stay exclusive in every continuation whose further abandons are prompt if and only if it does not remove an open claim another live holder relies on |
| LeaseProofs.LateAbandonBreaksExclusion | apps/web/src/server/security.ts:187-200 | an abandon that removes another live holder's claim lets the next caller acquire a second live lease |
| LeaseProofs.CompletedRecordStays | packages/persistence/src/security.ts:118-144 | a completed record never changes until it expires |
| LeaseProofs.ReplaysAreExact | packages/persistence/src/security.ts:84-102 | until then every caller that reads it is given exactly its response, or a conflict when the request differs |
| LockProofs.AcquisitionIsSafeExactly | packages/persistence/src/security.ts:162-188 | a lock statement keeps at most one live holder per resource if and only if the asker's own lease is over or no other live holder of the resource has its holder key under another identity |
| LockProofs.LocksAreExclusive | packages/persistence/src/security.ts:162-195 | in every run whose abandons, lock statements and releases are safe, late or not, at most one caller holds a resource |
| LockProofs.PromptLocksAreExclusiveExactly | apps/web/src/server/security.ts:184-225 | a run of prompt callers has at most one holder per resource at every moment if and only if all its lock statements are safe |
| LockProofs.ReleaseIsSafeExactly | packages/persistence/src/security.ts:190-195 | after a release locks stay exclusive in every continuation of safe steps with requests the server accepts if and only if it deletes no other live holder's row, whenever some acceptable request for the resource has a free identity and a holder key of its own |
| LockProofs.UnsafeReleaseBreaksLocks | packages/persistence/src/security.ts:190-195 | once it has, any newcomer with a free identity and another holder key holds the lock as well |
| ResponseProofs.ReturnedIsRecordedExactly | apps/web/src/server/security.ts:202-217 | in every run whose abandons are safe, the response a caller returns is the recorded one if and only if its claim was open, or that response recorded already, at its completing statement |
| ResponseProofs.ReplaysAgreeExactly | apps/web/src/server/security.ts:170-178 | a later repetition, until the record expires, is given the returned response if and only if the same condition held |
| ResponseProofs.ReturnedResponseIsRecorded | apps/web/src/server/security.ts:202-217 | in runs of prompt callers it always holds: the record keeps exactly the returned response |
| ResponseProofs.HandlersRunAtMostOnce | apps/web/src/server/security.ts:140-226 | after any run of prompt callers that ends in a completion, and until the record expires, no caller acquires the identity and only the completer, on its way to the release, holds a lease on it |
| Lifetimes.ClaimLasts | packages/persistence/src/security.ts:57-82 | a claim can be taken over exactly from the end of its lease on (30 to 300 seconds, 300 by default) and is swept exactly after its lifetime (300 to 172800 seconds, 86400 by default) |
| Lifetimes.ReclaimLasts | packages/persistence/src/security.ts:104-115 | a claim is taken over exactly when it is open, of the same request and its lease is over, and then lasts as long as a new one |
| Lifetimes.ResponseLasts | packages/persistence/src/security.ts:128-143 | a response is kept for exactly that lifetime, counted from its completion |
| Lifetimes.LockLasts | packages/persistence/src/security.ts:162-188 | a lock is granted exactly when it is free, over or under the same holder key, and keeps other holder keys out for exactly its 30 to 300 seconds |
| Lifetimes.ReplayedForALifetime | packages/persistence/src/security.ts:84-102 | in every run whoever looks a completed request up within that lifetime is given its response |
| Lifetimes.RepeatedAfter | apps/web/src/server/security.ts:150-178 | a newcomer that repeats a completed request is answered from the record for exactly that lifetime, and acquires the identity again afterwards |
| LeaseRuns.HolderKeyExactly | apps/web/src/server/security.ts:184-184 | two legal requests have one holder key exactly when their keys and the first sixteen digits of their hashes agree |
| Fingerprints.FingerprintsExactly | apps/web/src/server/security.ts:94-108 | for a digest without collisions and one-line verbs, operations and resources, two fingerprints agree exactly when verb, operation, resource and body do |
| LeaseRuns.LegalKeysExactly | apps/web/src/server/security.ts:8-8 | explicit keys are 8 to 128 letters, digits, dots, underscores, colons and hyphens |
| LeaseRuns.SharedHolderKeySharesLock | apps/web/src/server/security.ts:184-200 | any two identities with one holder key hold one lock at once, in a run from the empty store in which nobody is late |
| LeaseRuns.TwoWalletsShareTheTaskLock | apps/web/src/server/security.ts:94-108 | such a run for any two wallets that execute any task with one body under any one key, whatever the digest function, since its input names no owner |
| LeaseRuns.LateAbandonHappens | apps/web/src/server/security.ts:187-200 | for any two requests for one resource under different holder keys, a run from the empty store, prompt but for one abandon, to two live leases on one identity |
| LeaseRuns.LateAbandonOfATask | apps/web/src/server/security.ts:110-200 | such a run for any two keys of any wallet and any task, with keys, hashes and times the server accepts |
| LeaseRuns.LateReleaseHappens | apps/web/src/server/security.ts:221-225 | a run from the empty store, prompt but for one completion and the release after it, to two live holders of one resource |
| LeaseRuns.LateReleaseOfATask | apps/web/src/server/security.ts:110-225 | such a run with requests the server accepts |
| LeaseRuns.LateCompletionHappens | apps/web/src/server/security.ts:211-220 | for any two answers of a handler, a run, prompt but for one completion, in which one caller returns the first and a later repetition is given the second |
| LeaseRuns.LateCompletionOfATask | apps/web/src/server/security.ts:110-220 | such a run with a request the server accepts |
| MutationClient.RunIdempotentMutation | apps/web/src/server/security.ts:140-226 | whether completing succeeds or fails before or after its effect, the sequence of store calls, the locked flag and the release in finally leave exactly the tables and the answer of the protocol's state machine |
| MutationClient.CallAnswers | apps/web/src/server/security.ts:140-226 | every answer of a call that nobody interrupts: conflict, replay, refusal while an open claim's lease lasts, refusal while the resource is locked under another holder key, the handler's answer, or the failure of completing |
| MutationClient.RepeatIsReplayed | apps/web/src/server/security.ts:164-178 | repeating a request whose completion took effect returns the first response without running the handler, until the record expires, even if the first caller was told that completing failed |
| MutationClient.UnrecordedIsRetried | packages/persistence/src/security.ts:104-115 | if completing had no effect, a repetition is turned away exactly while the lease lasts |
| MutationClient.LockIsReleased | apps/web/src/server/security.ts:221-225 | however completing ends, a caller that ran its handler under a lock leaves no lock under its holder key |
| RateLimitProofs.WithinOneWindow | packages/persistence/src/security.ts:204-232 | of consecutive requests of one counter window exactly those among its first `limit` are allowed |
| RateLimitProofs.AnswersExactly | packages/persistence/src/security.ts:197-233 | every answer of every trace: the count is the request's place in its window, it is allowed exactly among the first `limit` (1 to 10000), and the seconds to wait are the fewest, but at least one, that outlast the window (1 to 3600 seconds) |
| RateLimitProofs.RestartsExactly | packages/persistence/src/security.ts:206-215 | a window begins exactly with the first request and whenever the one before is over |
| RateLimitProofs.OneSecondShort | packages/persistence/src/security.ts:218-232 | coming back one second before the time asked for is refused, whenever that time exceeds one second |
| RateLimitProofs.IntervalCountExactly | packages/persistence/src/security.ts:204-232 | for every trace with a clock that does not go back, how many requests of an interval of one window length, its ends included, are allowed: those of the last window and those left of the one before |
| RateLimitProofs.LimitExceededExactly | packages/persistence/src/security.ts:204-232 | more than the limit is allowed in such an interval if and only if a window begins strictly inside it and the two parts together exceed the limit |
| RateLimitProofs.AtMostTwiceTheLimit | packages/persistence/src/security.ts:204-232 | at most twice the limit is allowed in any such interval |
| RateLimitProofs.TwiceTheLimitHappens | packages/persistence/src/security.ts:204-232 | twice the limit occurs, for every limit and window |
| RateLimitProofs.RetryAfterSuffices | packages/persistence/src/security.ts:218-232 | a refused caller that waits the returned time, with nobody in between, is allowed |
| RateLimitProofs.EarlierRetryIsRefused | packages/persistence/src/security.ts:204-216 | a retry before the window ends is refused |
| Base58.DecodeIsExact | packages/application/src/auth.ts:58-82 | the decoded bytes have the string's base-58 value and as many leading zero bytes as the string has leading '1's |
| Base58.DecodeEncode | packages/application/src/auth.ts:58-82 | every byte sequence is the decoding of its base58 encoding |
| Base58.EncodeDecode | packages/application/src/auth.ts:58-82 | every valid string is the encoding of its decoding |
| Base58.DecodeIsInjective | packages/application/src/auth.ts:58-82 | distinct strings decode to distinct bytes |
| Base58.AlphabetSpelled | packages/application/src/auth.ts:8-8 | the digit characters are the source's alphabet |
| Base58.EveryKeyHasAnAddress | packages/application/src/auth.ts:84-95 | every 32-byte key has an address that is accepted with any white space around it |
| Base58.AcceptedAddressesAreKeys | packages/application/src/auth.ts:84-95 | an accepted address is the one encoding of the key it decodes to |
| Base58.AddressesExactly | packages/application/src/auth.ts:84-95 | text is accepted exactly when, trimmed, it is the encoding of 32 bytes, and normalises to its trimmed self |
| Text.WhitespaceExactly | packages/application/src/auth.ts:88-88 | trimming removes exactly the white space and line terminators of ECMA-262 |
| Base58Carry.MulAdd | packages/application/src/auth.ts:66-74 | multiply-and-carry computes 58 times the number plus the digit, in at most one byte more |
| Base58Decoder.Absorb | packages/application/src/auth.ts:65-74 | the in-place loop does so; the carry stays below 58 and at most one byte is appended |
| Base58Decoder.DecodeBase58 | packages/application/src/auth.ts:58-82 | the function equals the reference decoder and fails exactly on characters outside the alphabet |
| CanonicalJsonTheorems.StableJsonIsCanonical | packages/providers/src/execute.ts:51-65 | two values print to the same text if and only if they are equal with objects taken as unordered maps |
| CanonicalJsonTheorems.SortWell | packages/providers/src/execute.ts:61-62 | sorting the keys keeps the members and orders them strictly by code units |
| CanonicalJsonTheorems.SortedOfMeaning | packages/providers/src/execute.ts:60-64 | members in key order are determined by the map they denote |
| CanonicalJsonTheorems.MemberOrderIsIrrelevant | packages/providers/src/execute.ts:60-64 | the order in which keys were added does not show in the text |
| CanonicalJsonTexts.LessExactly | packages/providers/src/execute.ts:61-62 | keys are ordered by the first code unit in which they differ, a prefix before its extensions |
| CanonicalJsonTexts.ConstantTexts | packages/providers/src/execute.ts:51-58 | the texts of null, true, false and empty collections |
| CanonicalJsonTexts.UnitsExactly | packages/providers/src/execute.ts:53-53 | the text of every code unit of a string: short escapes, four hexadecimal digits, or itself |
| CanonicalJsonTexts.PairsExactly | packages/providers/src/execute.ts:53-53 | a surrogate pair stands for itself |
| CanonicalJsonTexts.CollectionsExactly | packages/providers/src/execute.ts:56-65 | the texts of arrays and objects join those of their items and sorted members by commas |
| CanonicalJsonProofs.TextPrefix | packages/providers/src/execute.ts:52-64 | a value's text followed by a delimiter can be read in one way only |
| CanonicalJsonProofs.QuotePrefix | packages/providers/src/execute.ts:53-53 | string text is self-delimiting and determines the string, lone surrogates included |
| AuthParamProofs.TwoPassesAreOne | packages/providers/src/mpp.ts:120-127 | on the inside of any quoted string the two global replacements are one left-to-right pass |
| AuthParamProofs.UnquoteMeetsTheStandardExactly | packages/providers/src/mpp.ts:120-127 | unquote agrees with section 5.6.4 of RFC 9110 if and only if no pair other than \" and \\ occurs |
| AuthParamProofs.SplitList | packages/providers/src/mpp.ts:91-118 | splitting a printed list returns its elements, commas and quotes inside values included |
| AuthParamProofs.ParseOfList | packages/providers/src/mpp.ts:138-146 | parsing any printed list, with empty elements and white space anywhere allowed, returns its parameters |
| AuthParamProofs.ParseOfHeader | packages/providers/src/mpp.ts:129-155 | the whole header, with its marker in any letter case: the parameters, or the first required one that is missing |
| AuthParamNames.NamesReadExactly | packages/providers/src/mpp.ts:138-167 | for any printed list without repeated names, what is read agrees with the case-insensitive reading of section 11.2 of RFC 9110 if and only if every parameter with a value whose name is a read one, ignoring case, has it in lower case |
| AuthParamNames.CapitalIdIsMissing | packages/providers/src/mpp.ts:148-155 | ID="x" counts as a missing id, for every value |
| AuthParamHeaders.SchemeExactly | packages/providers/src/mpp.ts:129-136 | a header is refused as no Payment challenge exactly when it does not start with that word, in any letter case, and white space |
| AuthParamHeaders.LowerExactly | packages/providers/src/mpp.ts:130-130 | ignoring case identifies exactly the two cases of each letter |
| AuthParamHeaders.ChallengeExactly | packages/providers/src/mpp.ts:148-155 | a challenge parses exactly when id, realm, method, intent and request all have a value, and otherwise the first of them without one is named |
| AuthParamHeaders.SplitExactly | packages/providers/src/mpp.ts:91-118 | any text, well formed or not, is cut exactly at its commas outside quotes |
| AuthParamHeaders.PartsExactly | packages/providers/src/mpp.ts:139-145 | a part counts from its first "=" on if something stands before it, and is skipped otherwise |
| AuthParamHeaders.UnquoteExactly | packages/providers/src/mpp.ts:120-127 | which values are unquoted, and what of them |
| AuthParamParser.Split | packages/providers/src/mpp.ts:91-118 | the loop with its flags and slices computes the pieces |
| AuthParamParser.Parse | packages/providers/src/mpp.ts:138-146 | the loop fills exactly the specified map |
| Vouchers.DecodeEncode | packages/solana/src/voucher.ts:46-80 | every voucher in range decodes back to itself, negative expiries included |
| Vouchers.EncodeDecode | packages/solana/src/voucher.ts:46-80 | every buffer that decodes re-encodes to itself |
| Vouchers.WireFormat | packages/solana/src/voucher.ts:37-60 | magic, channel id, amount and expiry stand at their offsets, low bytes first |
| Vouchers.EncodeIsInjective | packages/solana/src/voucher.ts:46-60 | distinct vouchers have distinct encodings |
| Vouchers.Accepts | packages/solana/src/voucher.ts:17-70 | exactly the encodings decode, and exactly the vouchers in range encode |
| Vouchers.MonotonicExactly | packages/solana/src/voucher.ts:89-105 | a voucher amount is accepted exactly when it rises within a ceiling below 2^64, and which fault is named otherwise |
| Vouchers.EncodeVoucher | packages/solana/src/voucher.ts:46-60 | the buffer writes produce the payload; errors in the source's order |
| Vouchers.LowBytes | packages/solana/src/voucher.ts:56-57 | a 64-bit word is written low byte first |
| Usdc.ParseOfPrint | packages/persistence/src/policies.ts:20-25 | printing any amount gives text of the money grammar that parses back to the amount |
| Usdc.WholeUnits | packages/application/src/contracts.ts:77-81 | a whole USDC is a million atomic units |
| Usdc.FractionUnits | packages/application/src/contracts.ts:77-81 | fraction digits count from the left, the missing ones being zeros |
| Usdc.PrintOfParseExactly | packages/persistence/src/policies.ts:20-25 | parsing then printing returns the text if and only if it has no trailing zero in its fraction |
| Usdc.ParsersAgree | apps/web/src/lib/money.ts:4-14 | on the schema's grammar the form's parser agrees with the application's, white space around it ignored |
| Usdc.FormAmountsAreMoney | apps/web/src/lib/money.ts:4-14 | whatever the form accepts is an amount the schema's text denotes as well |
| Usdc.MoneyExactly | packages/application/src/policy-workspace.ts:13-13 | the schema's text is digits without a superfluous zero and perhaps a dot and one to six digits |
| Usdc.FormExactly | apps/web/src/lib/money.ts:4-14 | the form accepts exactly, between white space, one or more digits and perhaps a dot and up to six digits |
| Usdc.FormReads | apps/web/src/lib/money.ts:11-13 | and reads them as whole units and six fraction digits |
| Usdc.FormatTruncates | apps/web/src/lib/money.ts:16-27 | formatting to d digits loses at least 0 and less than 10^(6-d) units, and what is read back formats the same |
| Usdc.FormatSigns | apps/web/src/lib/money.ts:16-27 | digit counts are clamped to 0..6 and negative amounts carry a minus sign |
| Usdc.FormatInFull | apps/web/src/lib/money.ts:16-27 | with all digits the web text is the server's text |
| PolicyTheorems.ValidateTwice | packages/application/src/policy-workspace.ts:106-173 | accepted rules are accepted again unchanged, so merging no overrides changes nothing |
| PolicyAcceptance.AcceptedExactly | packages/application/src/policy-workspace.ts:106-151 | a policy is accepted exactly when its lists fit, its ceilings are positive and in order, every cap is of an allowed provider and within the ceiling, no provider is both allowed and blocked, and either some allowed provider has no cap or the caps add up to the ceiling; only repetitions are removed |
| PolicyAcceptance.ErrorsExactly | packages/application/src/policy-workspace.ts:106-150 | a policy outside the schema is refused as such, and any other refusal names the first objection that applies |
| PolicyAcceptance.ProviderIdsExactly | packages/application/src/contracts.ts:22-27 | provider ids are two to eighty letters, digits, dots, underscores, colons and hyphens, the first a letter or digit |
| PolicyAcceptance.MergeExactly | packages/application/src/policy-workspace.ts:171-173 | overriding validates the base with every overridden field replaced and every other kept |
| PolicyTheorems.ReloadKeepsAmounts | packages/persistence/src/policies.ts:27-46 | a stored version reads back with identical ceilings, caps and lists, and storing it again writes the same row |
| PolicyTheorems.ReloadedRulesAreAccepted | packages/persistence/src/policies.ts:34-100 | accepted rules stay accepted after a trip through the database |
| PolicyTheorems.PolicyReservesExactly | packages/application/src/policy-workspace.ts:119-149 | for every accepted policy and every budget within its ceiling, reserving succeeds exactly when there is one unit per provider, and no other error can occur |
| PolicyRules.UniqueIsSet | packages/application/src/policy-workspace.ts:102-104 | unique lists the same entries once each and is idempotent |
| EndToEnd.TaskProvidersExactly | packages/application/src/contracts.ts:66-75 | the lists are accepted exactly when some provider is allowed and none is both, no provider at all being named first, and come out without repetitions, the allowed ones in the order of their first occurrence |
| EndToEnd.ChargesMakeVouchers | packages/solana/src/voucher.ts:46-105 | every charge of every run passes the monotonic check of its channel if and only if the ceiling fits an unsigned 64-bit amount; its voucher encodes if and only if its amount fits, and then decodes back |
| EndToEnd.RunsCanBeFinalized | packages/solana/src/finalization.ts:346-367 | the channels of a run never fail the checks of the task finalization, which refuses a negative budget only |
| EndToEnd.ReconciledRunsPayTheLedger | packages/solana/src/finalization.ts:341-418 | if finalizing a run's channels reconciles, every provider was paid on chain exactly its ledger entry and the rest of the budget came back |

## Left out

* The database, SQL text and drivers: tables are maps and each statement is one atomic step at a time given as a parameter.
* HTTP, DNS checks, health checks, webhooks, the x402 flow and the Solana SDK calls of `live-x402.ts`.
* Cryptography: hashes, wallet signatures and voucher signatures are plain values; that a chain rejects a bad voucher
  signature is one of the failures before effect.
* The decoding of the challenge's request field (base64url and JSON), receipts' metadata and `parseAtomic`.
* Schema parsing by zod beyond the conditions the code relies on; policies start from parsed, trimmed values.
* User interface, settings, provider registry, roles, task listings and `channelActionFor`: case tables a reading settles.
* Error messages, explorer links, random ids and the wall clock. Finalization assumes non-blank transaction signatures,
  because a blank one makes the link builder throw.
* Inherited names such as `__proto__` or `constructor` as provider ids or parameter names, which JavaScript objects treat
  specially.
* Number text of JSON is taken as given: 0 and -0 have one text, and undefined, functions, NaN, infinities and objects
  with their own `toJSON` are not JSON values.
* Text is a sequence of characters; the scanners only look for ASCII characters and white space. Canonical JSON works on
  UTF-16 code units.
* Database limits of stored amounts (78 digits) and the handling of a policy's name, status and version counter: they
  would only add easy members.
* `executeTask`, `getTask` and the serializers, which call the parts above and copy fields.
* The chain rejects a second seal or distribution; an adapter that answers such a request as if it had succeeded is
  covered only by the statements about every adapter.
- PolicyRules.Validate: reports that some cap is wrong, not which of several comes first in key order.
