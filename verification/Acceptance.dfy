/** Exactly which calls a market accepts, in every reachable state, written out from the
    configuration, the state and the caller. */
module Acceptance {
  import opened Prelude
  import opened Ledger
  import opened LedgerInvariant
  import opened Market
  import opened MarketInvariant
  import opened MarketRuns
  import opened MarketTheorems
  import opened Reverts
  import opened Rewards
  import opened Execution

  /** Everyone with a part in deciding the outcome, the gate and the router, and who was
      listed at creation. */
  predicate Barred(c: Config, additional: set<Address>, p: Address) {
    || p in c.resolvers || p in additional
    || p == c.participantA || p == c.participantB || p == c.rewardAddressA || p == c.rewardAddressB
    || p == c.gateOracle || (p == c.liquidityRouter && p != ZERO_ADDRESS)
  }

  /** Both participants stand behind the market with their bonds. */
  predicate Backed(m: Market, c: Config, msg: Msg) {
    if c.roomBound then msg.roomReady
    else
      && Get(m.bonds.integrityBondOf, c.participantA) == 100_000_000
      && Get(m.bonds.integrityBondOf, c.participantB) == 100_000_000
  }

  /** The gate is open, trading has begun, and the deadline is still to come. */
  predicate InWindow(m: Market, c: Config, now: Uint64, deadline: Uint64) {
    m.gate.state.Open? && c.opensAt <= now < deadline
  }

  predicate AcceptsSubmission(m: Market, c: Config, additional: set<Address>, msg: Msg, call: Call) {
    var trader := Backed(m, c, msg) && !Barred(c, additional, msg.sender);
    match call
    case BuyCall(_, amount, _, deadline) =>
      && trader && 0 < m.book.fees.totalLpShares
      && 1_000_000 <= amount <= 1_000_000_000_000_000 && InWindow(m, c, msg.now, deadline)
    case AddLiquidityCall(amount, _, deadline) =>
      trader && 1_000_000 <= amount <= 1_000_000_000_000_000 && InWindow(m, c, msg.now, deadline)
    case AddLiquidityForCall(provider, amount, _, deadline) =>
      && msg.sender == c.liquidityRouter != ZERO_ADDRESS && Backed(m, c, msg)
      && provider != ZERO_ADDRESS && !Barred(c, additional, provider)
      && 1_000_000 <= amount <= 1_000_000_000_000_000 && InWindow(m, c, msg.now, deadline)
    case SellCall(outcomeA, amount, _, deadline) =>
      && trader && 0 < amount <= 1_000_000_000_000_000 && InWindow(m, c, msg.now, deadline)
      && amount <= PositionOf(m.book.wallets, msg.sender, outcomeA)
    case TransferCall(outcomeA, recipient, amount, deadline) =>
      && trader && recipient != ZERO_ADDRESS && !Barred(c, additional, recipient)
      && 0 < amount <= 1_000_000_000_000_000 && InWindow(m, c, msg.now, deadline)
      && amount <= PositionOf(m.book.wallets, msg.sender, outcomeA)
    case _ => false
  }

  predicate AcceptsGateCall(m: Market, c: Config, msg: Msg, call: Call) {
    var g := m.gate;
    match call
    case MarkSafeCall(epoch, sequence) =>
      && msg.sender == c.gateOracle && (epoch + 1) * c.epochDuration + c.sourceFinalityDelay <= msg.now
      && epoch !in g.epochSafe && g.lastSafeSequence < sequence
      && (g.state.Closed? ==> epoch < g.closedEpoch && sequence < g.decisiveSequence)
    case ProcessCall(epoch, maximum) =>
      || maximum == 0 || |Ids(m.queue, epoch)| <= Get(m.queue.epochCursor, epoch)
      || IsCleared(g, epoch) || IsOver(g, c, epoch, msg.now)
    case SuspendCall(sequence) => msg.sender == c.gateOracle && g.state.Open? && g.lastSafeSequence <= sequence
    case ReopenCall(sequence) => msg.sender == c.gateOracle && g.state.Suspended? && g.lastSafeSequence < sequence
    case CloseCall(sequence) => msg.sender == c.gateOracle && !g.state.Closed? && g.lastSafeSequence < sequence
    case _ => false
  }

  predicate AcceptsRulingCall(m: Market, c: Config, msg: Msg, call: Call) {
    var r := m.ruling;
    match call
    case AttestCall(outcome, evidence) =>
      && msg.sender in c.resolvers && m.gate.state.Closed? && r.provisionalOutcome.Unset? && r.finalOutcome.Unset?
      && msg.now <= m.gate.resolutionDueAt && !outcome.Unset? && evidence != 0
      && msg.sender !in AttestedBy(r, (outcome, evidence))
    case ChallengeCall(evidence, bond) =>
      && AwaitsWindow(r) && msg.now < r.provisionalAt + c.challengeWindow < TWO_64
      && evidence != 0 && bond == 10_000_000
    case VerdictCall(accept) => msg.sender in c.resolvers && AwaitsVerdict(r) && msg.sender !in VerdictBy(r, accept)
    case FinalizeCall => AwaitsWindow(r) && r.provisionalAt + c.challengeWindow <= msg.now
    case ExpireCall => AwaitsVerdict(r) && r.challengedAt + c.challengeTimeout <= msg.now
    case InvalidateCall =>
      && m.gate.state.Closed? && r.provisionalOutcome.Unset? && r.finalOutcome.Unset?
      && m.gate.resolutionDueAt <= msg.now
    case _ => false
  }

  predicate AcceptsClaim(m: Market, c: Config, msg: Msg, call: Call) {
    var participant := msg.sender == c.participantA || msg.sender == c.participantB;
    var bond, final := Get(m.bonds.integrityBondOf, msg.sender), m.ruling.finalOutcome;
    match call
    case PostBondCall => participant && !c.roomBound && bond == 0
    case ClaimBondCall =>
      participant && !c.roomBound && bond != 0 && !final.Unset? && msg.sender !in m.bonds.integrityBondClaimed
    case ClaimFeesCall => 0 < Owed(m.book.fees, msg.sender) <= m.book.fees.unclaimedLpFees
    case RedeemCall =>
      && !final.Unset?
      && PositionOf(m.book.wallets, msg.sender, true) + PositionOf(m.book.wallets, msg.sender, false) != 0
    case SettleLpCall => !final.Unset? && Get(m.book.fees.lpShares, msg.sender) != 0
    case ClaimRewardCall =>
      && msg.sender !in m.winnerRewardClaimed && m.book.rewards.winnerRewardPool != 0
      && (|| (msg.sender == c.rewardAddressA && (final.ParticipantA? || final.Tie?))
          || (msg.sender == c.rewardAddressB && (final.ParticipantB? || final.Tie?)))
    case RefundFeeCall => final.Invalid? && Get(m.book.rewards.winnerFeePaid, msg.sender) != 0
    case _ => false
  }

  predicate Accepts(m: Market, c: Config, additional: set<Address>, msg: Msg, call: Call) {
    || AcceptsSubmission(m, c, additional, msg, call)
    || AcceptsGateCall(m, c, msg, call)
    || AcceptsRulingCall(m, c, msg, call)
    || AcceptsClaim(m, c, msg, call)
  }

  lemma BarredAreRestricted(c: Config, additional: set<Address>, p: Address)
    ensures p in RestrictedBy(c, additional) <==> Barred(c, additional, p)
  {
  }

  lemma SubmissionsAccepted(m: Market, c: Config, additional: set<Address>, msg: Msg, call: Call)
    requires m.config == c && m.restricted == RestrictedBy(c, additional)
    requires call.BuyCall? || call.AddLiquidityCall? || call.AddLiquidityForCall? || call.SellCall?
      || call.TransferCall?
    ensures Apply(m, msg, call).Ok? <==> Accepts(m, c, additional, msg, call)
  {
    BarredAreRestricted(c, additional, msg.sender);
    if call.TransferCall? {
      BarredAreRestricted(c, additional, call.recipient);
    } else if call.AddLiquidityForCall? {
      BarredAreRestricted(c, additional, call.provider);
    }
    hide RestrictedBy, Barred, CurrentEpoch;
  }

  lemma EpochHasEnded(c: Config, epoch: Uint64, now: Uint64)
    ensures epoch < CurrentEpoch(c, now) <==> (epoch + 1) * c.epochDuration <= now
  {
    var d: nat, q: nat := c.epochDuration, CurrentEpoch(c, now);
    DivisionBounds(now, d);
    assert (q + 1) * d == q * d + d;
    if epoch < q {
      MulMono(epoch + 1, q, d);
    } else {
      MulMono(q + 1, epoch + 1, d);
    }
  }

  lemma GateCallsAccepted(m: Market, c: Config, additional: set<Address>, msg: Msg, call: Call)
    requires m.config == c
    requires call.MarkSafeCall? || call.SuspendCall? || call.ReopenCall? || call.CloseCall?
    ensures Apply(m, msg, call).Ok? <==> Accepts(m, c, additional, msg, call)
  {
    if call.MarkSafeCall? {
      EpochHasEnded(c, call.epoch, msg.now);
    }
    hide CurrentEpoch;
  }

  /** But for failures of arithmetic or money, which other results exclude. */
  lemma RulingCallsAccepted(m: Market, c: Config, additional: set<Address>, msg: Msg, call: Call)
    requires m.config == c
    requires call.AttestCall? || call.ChallengeCall? || call.VerdictCall? || call.FinalizeCall? || call.ExpireCall?
      || call.InvalidateCall?
    requires Apply(m, msg, call) != Revert(TransferFailed)
    requires Apply(m, msg, call) == Revert(Panic) <==> Panics(m, msg, call)
    ensures Apply(m, msg, call).Ok? <==> Accepts(m, c, additional, msg, call)
  {
    hide Attested, Voted, AttestedBy, VerdictBy;
  }

  lemma ProcessingAccepted(m: Market, c: Config, additional: set<Address>, msg: Msg, call: Call)
    requires Inv(m, msg.now) && m.config == c && call.ProcessCall?
    ensures Apply(m, msg, call).Ok? <==> Accepts(m, c, additional, msg, call)
  {
    hide Inv, Drain, Ids;
    DrainKeeps(m, msg.now, call.epoch, Min(call.maximum, Remaining(m.queue, call.epoch)));
  }

  /** Exactly which calls are accepted, whoever makes them, in every reachable state and at
      every time. */
  lemma AcceptedIff(c: Config, additional: set<Address>, start: Uint64, events: seq<Event>, msg: Msg, call: Call)
    requires ConfigOk(c) && Chronological(start, events) && End(start, events) <= msg.now
    ensures
      var m := Reached(c, additional, events);
      Apply(m, msg, call).Ok? <==> Accepts(m, c, additional, msg, call)
  {
    hide Run, Inv, Apply, Accepts, Panics;
    ReachableOk(c, additional, start, events);
    RunEvolves(NewMarket(c, additional), events);
    var m := Reached(c, additional, events);
    InvLater(m, End(start, events), msg.now);
    NoUnexpectedReverts(c, additional, start, events, msg, call);
    match call
    case ProcessCall(_, _) => ProcessingAccepted(m, c, additional, msg, call);
    case MarkSafeCall(_, _) => GateCallsAccepted(m, c, additional, msg, call);
    case SuspendCall(_) => GateCallsAccepted(m, c, additional, msg, call);
    case ReopenCall(_) => GateCallsAccepted(m, c, additional, msg, call);
    case CloseCall(_) => GateCallsAccepted(m, c, additional, msg, call);
    case AttestCall(_, _) => RulingCallsAccepted(m, c, additional, msg, call);
    case ChallengeCall(_, _) => RulingCallsAccepted(m, c, additional, msg, call);
    case VerdictCall(_) => RulingCallsAccepted(m, c, additional, msg, call);
    case FinalizeCall => RulingCallsAccepted(m, c, additional, msg, call);
    case ExpireCall => RulingCallsAccepted(m, c, additional, msg, call);
    case InvalidateCall => RulingCallsAccepted(m, c, additional, msg, call);
    case PostBondCall => ClaimsAccepted(c, additional, start, events, msg, call);
    case ClaimFeesCall => ClaimsAccepted(c, additional, start, events, msg, call);
    case RedeemCall => ClaimsAccepted(c, additional, start, events, msg, call);
    case SettleLpCall => ClaimsAccepted(c, additional, start, events, msg, call);
    case ClaimRewardCall => ClaimsAccepted(c, additional, start, events, msg, call);
    case RefundFeeCall => ClaimsAccepted(c, additional, start, events, msg, call);
    case ClaimBondCall => ClaimsAccepted(c, additional, start, events, msg, call);
    case _ => SubmissionsAccepted(m, c, additional, msg, call);
  }

  lemma ClaimsAccepted(c: Config, additional: set<Address>, start: Uint64, events: seq<Event>, msg: Msg, call: Call)
    requires ConfigOk(c) && Chronological(start, events) && End(start, events) <= msg.now
    requires call.PostBondCall? || call.ClaimFeesCall? || call.RedeemCall? || call.SettleLpCall?
      || call.ClaimRewardCall? || call.RefundFeeCall? || call.ClaimBondCall?
    ensures
      var m := Reached(c, additional, events);
      Apply(m, msg, call).Ok? <==> Accepts(m, c, additional, msg, call)
  {
    hide Reached, ClaimFees, RedeemPositions, SettleLpInventory, ClaimWinnerReward, ClaimIntegrityBond, RefundWinnerFee,
      Owed;
    ReachedRules(c, additional, events);
    match call
    case PostBondCall =>
    case ClaimFeesCall => FeeClaimIff(c, additional, start, events, msg);
    case ClaimBondCall => BondClaimIff(c, additional, start, events, msg);
    case _ => PayoutsAccepted(c, additional, start, events, msg, call);
  }

  lemma PayoutsAccepted(c: Config, additional: set<Address>, start: Uint64, events: seq<Event>, msg: Msg, call: Call)
    requires ConfigOk(c) && Chronological(start, events) && End(start, events) <= msg.now
    requires call.RedeemCall? || call.SettleLpCall? || call.ClaimRewardCall? || call.RefundFeeCall?
    ensures
      var m := Reached(c, additional, events);
      Apply(m, msg, call).Ok? <==> Accepts(m, c, additional, msg, call)
  {
    hide Reached, RedeemPositions, SettleLpInventory, ClaimWinnerReward, RefundWinnerFee;
    ReachedRules(c, additional, events);
    match call
    case RedeemCall => SettlementNeverFails(c, additional, start, events, msg.sender, msg.now);
    case SettleLpCall => SettlementNeverFails(c, additional, start, events, msg.sender, msg.now);
    case ClaimRewardCall => RewardClaimIff(c, additional, start, events, msg);
    case RefundFeeCall => InvalidMarketRefundsEveryPayer(c, additional, start, events, msg.sender, msg.now);
  }
}
