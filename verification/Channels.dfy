/**
  The payment channel on chain, as packages/solana/src/types.ts and docs/settlement-finalization.md describe it,
  and the requests an adapter sends to it. Other parties move channels between our calls, and a call may fail
  before or after it takes effect.
 */
module Channels {
  import opened Basics

  datatype Phase = Opening | Open | Closing | Sealed | Distributed | Reclaimed

  datatype Payout = Payout(toProvider: int, toPayer: int)

  /** `payouts` is the history of transfers out of the escrow. */
  datatype Channel = Channel(deposit: int, settled: int, phase: Phase, payouts: seq<Payout>)

  /** The signed part of a voucher besides its amount. */
  datatype FinalVoucher = FinalVoucher(expiresAt: int, voucherSignature: seq<int>)

  datatype Move =
    | FinishOpening
    | Settle(cumulative: int)
    | RequestClose
    | Seal
    | SettleAndSeal(cumulative: int, voucher: FinalVoucher)
    | Distribute
    | Reclaim

  predicate Unsealed(phase: Phase) {
    phase == Open || phase == Closing
  }

  predicate Final(phase: Phase) {
    phase == Sealed || phase == Distributed || phase == Reclaimed
  }

  /** The channel after a move, or None when the program rejects it. */
  function Apply(c: Channel, m: Move): Option<Channel> {
    match m
    case FinishOpening =>
      if c.phase == Opening then Some(c.(phase := Open)) else None
    case Settle(a) =>
      if Unsealed(c.phase) && c.settled <= a <= c.deposit then Some(c.(settled := a)) else None
    case RequestClose =>
      if c.phase == Open then Some(c.(phase := Closing)) else None
    case Seal =>
      if Unsealed(c.phase) then Some(c.(phase := Sealed)) else None
    case SettleAndSeal(a, _) =>
      if Unsealed(c.phase) && c.settled <= a <= c.deposit then Some(c.(settled := a, phase := Sealed)) else None
    case Distribute =>
      if c.phase == Sealed then
        Some(c.(phase := Distributed, payouts := c.payouts + [Payout(c.settled, c.deposit - c.settled)]))
      else None
    case Reclaim =>
      if c.phase == Distributed then Some(c.(phase := Reclaimed)) else None
  }

  type Accounts = map<string, Channel>

  function Lookup(accounts: Accounts, address: string): Option<Channel> {
    if address in accounts then Some(accounts[address]) else None
  }

  /** What someone else does to the chain: open a new channel, or move an existing one. */
  datatype Act = OpenNew(address: string, deposit: nat) | MoveIt(address: string, move: Move)

  function ActOn(accounts: Accounts, act: Act): Accounts {
    match act
    case OpenNew(address, deposit) =>
      if address in accounts then accounts else accounts[address := Channel(deposit, 0, Opening, [])]
    case MoveIt(address, move) =>
      if address in accounts && Apply(accounts[address], move).Some? then
        accounts[address := Apply(accounts[address], move).value]
      else accounts
  }

  function ActAll(accounts: Accounts, acts: seq<Act>): Accounts
    decreases |acts|
  {
    if acts == [] then accounts else ActAll(ActOn(accounts, acts[0]), acts[1..])
  }

  // ----- the adapter boundary -----

  datatype Descriptor = Descriptor(channelAddress: string, depositCeiling: int, settledAmount: int, state: Phase)

  datatype SettlementResult = SettlementResult(
    channelAddress: string, settledAmount: int, transactionSignature: string)

  datatype DistributionResult = DistributionResult(
    channelAddress: string, providerAmount: int, payerRefund: int, transactionSignature: string)

  datatype Fault = NoFault | FailsBefore | FailsAfter

  /**
    What surrounds one adapter call: the other parties' acts since the previous call, whether the call fails,
    the signature it returns, and, for an adapter that does not report the chain, a forged answer.
   */
  datatype Behaviour = Behaviour(
    others: seq<Act>,
    fault: Fault,
    signature: string,
    forgedView: Option<Option<Descriptor>>,
    forgedSettlement: Option<SettlementResult>,
    forgedDistribution: Option<DistributionResult>)

  /** The behaviour of the n-th call, for every n. */
  type Script = nat -> Behaviour

  /** The adapter reports what the chain did. */
  ghost predicate Honest(script: Script) {
    forall n: nat ::
      && script(n).forgedView.None?
      && script(n).forgedSettlement.None?
      && script(n).forgedDistribution.None?
  }

  /** The n-th call neither fails nor follows anyone else's act. */
  predicate Quiet(script: Script, n: nat) {
    script(n).others == [] && script(n).fault == NoFault
  }

  /** A request as the chain met it: the channel it found and whether it took effect. */
  datatype Request = Request(address: string, move: Move, found: Option<Channel>, landed: bool)

  datatype World = World(accounts: Accounts, calls: nat, log: seq<Request>)

  datatype Reply<T> = Returned(value: T) | Failed

  function Arrive(w: World, script: Script): World {
    w.(accounts := ActAll(w.accounts, script(w.calls).others), calls := w.calls + 1)
  }

  function Inspect(w: World, script: Script, address: string): (World, Reply<Option<Descriptor>>) {
    var b := script(w.calls);
    var now := Arrive(w, script);
    var found := Lookup(now.accounts, address);
    var view :=
      if b.forgedView.Some? then b.forgedView.value
      else if found.None? then None
      else Some(Descriptor(address, found.value.deposit, found.value.settled, found.value.phase));
    (now, if b.fault == NoFault then Returned(view) else Failed)
  }

  /** A transaction: it takes effect unless it fails beforehand or the program rejects it. */
  function Submit(w: World, script: Script, address: string, move: Move): (World, bool) {
    var now := Arrive(w, script);
    var found := Lookup(now.accounts, address);
    var landed := script(w.calls).fault != FailsBefore && found.Some? && Apply(found.value, move).Some?;
    var accounts := if landed then now.accounts[address := Apply(found.value, move).value] else now.accounts;
    (now.(accounts := accounts, log := w.log + [Request(address, move, found, landed)]), landed)
  }

  function SubmitSeal(w: World, script: Script, address: string, move: Move): (World, Reply<SettlementResult>) {
    var b := script(w.calls);
    var (after, landed) := Submit(w, script, address, move);
    var reply :=
      if b.fault != NoFault then Failed
      else if b.forgedSettlement.Some? then Returned(b.forgedSettlement.value)
      else if landed then Returned(SettlementResult(address, after.accounts[address].settled, b.signature))
      else Failed;
    (after, reply)
  }

  function SubmitDistribute(w: World, script: Script, address: string): (World, Reply<DistributionResult>) {
    var b := script(w.calls);
    var (after, landed) := Submit(w, script, address, Distribute);
    var reply :=
      if b.fault != NoFault then Failed
      else if b.forgedDistribution.Some? then Returned(b.forgedDistribution.value)
      else if landed then
        var c := after.accounts[address];
        Returned(DistributionResult(address, c.settled, c.deposit - c.settled, b.signature))
      else Failed;
    (after, reply)
  }

  // ----- what every channel keeps -----

  /** The escrow pays out at most once, and then exactly the settled amount and the rest. */
  predicate ChannelSound(c: Channel) {
    && 0 <= c.settled <= c.deposit
    && c.payouts == (if c.phase == Distributed || c.phase == Reclaimed
                     then [Payout(c.settled, c.deposit - c.settled)] else [])
  }

  ghost predicate Sound(accounts: Accounts) {
    forall a :: a in accounts ==> ChannelSound(accounts[a])
  }

  function Rank(phase: Phase): nat {
    match phase
    case Opening => 0 case Open => 1 case Closing => 2 case Sealed => 3 case Distributed => 4 case Reclaimed => 5
  }

  /** d is a later state of c: the watermark only rises, freezes once sealed, and payouts are permanent. */
  predicate Later(c: Channel, d: Channel) {
    && d.deposit == c.deposit
    && c.settled <= d.settled
    && Rank(c.phase) <= Rank(d.phase)
    && (Final(c.phase) ==> d.settled == c.settled)
    && c.payouts <= d.payouts
  }

  ghost predicate Evolves(before: Accounts, after: Accounts) {
    forall a :: a in before ==> a in after && Later(before[a], after[a])
  }

  lemma ApplyKeeps(c: Channel, m: Move)
    requires ChannelSound(c) && Apply(c, m).Some?
    ensures ChannelSound(Apply(c, m).value) && Later(c, Apply(c, m).value)
  {
  }

  lemma LaterTransitive(c: Channel, d: Channel, e: Channel)
    requires Later(c, d) && Later(d, e)
    ensures Later(c, e)
  {
  }

  lemma EvolvesTransitive(x: Accounts, y: Accounts, z: Accounts)
    requires Evolves(x, y) && Evolves(y, z)
    ensures Evolves(x, z)
  {
    forall a | a in x ensures a in z && Later(x[a], z[a]) {
      LaterTransitive(x[a], y[a], z[a]);
    }
  }

  lemma ActOnKeeps(accounts: Accounts, act: Act)
    requires Sound(accounts)
    ensures Sound(ActOn(accounts, act)) && Evolves(accounts, ActOn(accounts, act))
  {
    if act.MoveIt? && act.address in accounts && Apply(accounts[act.address], act.move).Some? {
      ApplyKeeps(accounts[act.address], act.move);
    }
  }

  lemma {:induction false} ActAllKeeps(accounts: Accounts, acts: seq<Act>)
    requires Sound(accounts)
    ensures Sound(ActAll(accounts, acts)) && Evolves(accounts, ActAll(accounts, acts))
    decreases |acts|
  {
    if acts == [] {
    } else {
      ActOnKeeps(accounts, acts[0]);
      ActAllKeeps(ActOn(accounts, acts[0]), acts[1..]);
      EvolvesTransitive(accounts, ActOn(accounts, acts[0]), ActAll(accounts, acts));
    }
  }

  lemma SubmitKeeps(w: World, script: Script, address: string, move: Move)
    requires Sound(w.accounts)
    ensures Sound(Submit(w, script, address, move).0.accounts)
    ensures Evolves(w.accounts, Submit(w, script, address, move).0.accounts)
  {
    var now := Arrive(w, script).accounts;
    ActAllKeeps(w.accounts, script(w.calls).others);
    var (after, landed) := Submit(w, script, address, move);
    if landed {
      ApplyKeeps(now[address], move);
    }
    assert Evolves(now, after.accounts);
    EvolvesTransitive(w.accounts, now, after.accounts);
  }
}
