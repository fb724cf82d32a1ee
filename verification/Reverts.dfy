/** Exactly which calls fail on arithmetic, and what follows for a market whose
    challenge periods reach past the 64-bit clock. */
module Reverts {
  import opened Prelude
  import opened Ledger
  import opened LedgerInvariant
  import opened Market
  import opened MarketInvariant
  import opened MarketRuns
  import opened MarketTheorems

  /** Past its other guards, a sale or a transfer takes this many positions. */
  predicate TakesPositions(m: Market, msg: Msg, amount: nat, deadline: Uint64) {
    && RequireTrader(m, msg).Ok?
    && 0 < amount <= MAX_ACTION_AMOUNT
    && RequireActionWindow(m, msg.now, deadline).Ok?
  }

  /** There is a provisional result that nobody has challenged, and no outcome. */
  predicate AwaitsWindow(r: Ruling) {
    !r.provisionalOutcome.Unset? && r.finalOutcome.Unset? && !r.challenged
  }

  /** There is a challenge, and no outcome. */
  predicate AwaitsVerdict(r: Ruling) {
    r.challenged && r.finalOutcome.Unset?
  }

  /** The calls that fail on arithmetic: selling or transferring more than one holds,
      claiming more fees than are set aside, and challenging, finalizing or expiring
      where the challenge period ends beyond the 64-bit clock. */
  ghost predicate Panics(m: Market, msg: Msg, call: Call) {
    match call
    case SellCall(outcomeA, amount, _, deadline) =>
      TakesPositions(m, msg, amount, deadline) && PositionOf(m.book.wallets, msg.sender, outcomeA) < amount
    case TransferCall(outcomeA, recipient, amount, deadline) =>
      && TakesPositions(m, msg, amount, deadline) && PositionOf(m.book.wallets, msg.sender, outcomeA) < amount
      && recipient != ZERO_ADDRESS && recipient !in m.restricted
    case ClaimFeesCall => m.book.fees.unclaimedLpFees < Owed(m.book.fees, msg.sender)
    case ChallengeCall(_, _) => AwaitsWindow(m.ruling) && TWO_64 <= m.ruling.provisionalAt + m.config.challengeWindow
    case FinalizeCall => AwaitsWindow(m.ruling) && TWO_64 <= m.ruling.provisionalAt + m.config.challengeWindow
    case ExpireCall => AwaitsVerdict(m.ruling) && TWO_64 <= m.ruling.challengedAt + m.config.challengeTimeout
    case _ => false
  }

  lemma ClaimsDoNotPanic(m: Market, msg: Msg, call: Call)
    requires Inv(m, msg.now)
    requires call.ClaimFeesCall? || call.RedeemCall? || call.SettleLpCall? || call.ClaimRewardCall?
      || call.RefundFeeCall?
    ensures Apply(m, msg, call) != Revert(TransferFailed)
    ensures Apply(m, msg, call) == Revert(Panic) <==> Panics(m, msg, call)
  {
    hide Inv, ClaimFees, Redeem, SettleLp, ClaimWinnerReward, ClaimInvalidWinnerFeeRefund;
    match call
    case ClaimFeesCall => FeesDoNotPanic(m, msg);
    case RedeemCall => InventoryDoesNotPanic(m, msg);
    case SettleLpCall => InventoryDoesNotPanic(m, msg);
    case _ => RewardsDoNotPanic(m, msg);
  }

  lemma FeesDoNotPanic(m: Market, msg: Msg)
    requires Inv(m, msg.now)
    ensures ClaimFees(m, msg) != Revert(TransferFailed)
    ensures ClaimFees(m, msg) == Revert(Panic) <==> m.book.fees.unclaimedLpFees < Owed(m.book.fees, msg.sender)
  {
    hide BookOk, QueueOk, GateOk, RulingOk, ConfigOk, TallyOf, ClaimLpFees, Owed;
    var o, t, bonds, paid := m.ruling.finalOutcome, TallyOf(m.queue.actions), BondsHeld(m), m.winnerRewardClaimed != {};
    ClaimLpFeesKeeps(m.book, o, t, bonds, paid, msg.sender);
    NothingOwed(m.book, o, t, bonds, paid, msg.sender);
    FeeReverts(m.book, o, t, bonds, paid, msg.sender);
  }

  lemma InventoryDoesNotPanic(m: Market, msg: Msg)
    requires Inv(m, msg.now)
    ensures Redeem(m, msg) != Revert(TransferFailed) && Redeem(m, msg) != Revert(Panic)
    ensures SettleLp(m, msg) != Revert(TransferFailed) && SettleLp(m, msg) != Revert(Panic)
  {
    hide BookOk, QueueOk, GateOk, RulingOk, ConfigOk, TallyOf, MulDiv, ResolvedValue, BurnShares;
    var o, t, bonds, paid := m.ruling.finalOutcome, TallyOf(m.queue.actions), BondsHeld(m), m.winnerRewardClaimed != {};
    if !o.Unset? {
      RedeemKeeps(m.book, o, t, bonds, paid, msg.sender);
      SettleKeeps(m.book, o, t, bonds, paid, msg.sender);
    }
  }

  lemma RewardsDoNotPanic(m: Market, msg: Msg)
    requires Inv(m, msg.now)
    ensures ClaimWinnerReward(m, msg) != Revert(TransferFailed) && ClaimWinnerReward(m, msg) != Revert(Panic)
    ensures ClaimInvalidWinnerFeeRefund(m, msg) != Revert(TransferFailed)
      && ClaimInvalidWinnerFeeRefund(m, msg) != Revert(Panic)
  {
    hide BookOk, QueueOk, GateOk, RulingOk, ConfigOk, TallyOf;
    var o, t, bonds, paid := m.ruling.finalOutcome, TallyOf(m.queue.actions), BondsHeld(m), m.winnerRewardClaimed != {};
    if o.Invalid? {
      RefundFeeKeeps(m.book, o, t, bonds, msg.sender);
    } else if WinnerReward(m, msg.sender).Ok? {
      PayWinnerKeeps(m.book, o, t, bonds, paid, msg.sender, WinnerReward(m, msg.sender).value);
    }
  }

  lemma NothingOwed(b: Book, outcome: Outcome, t: Tally, bonds: nat, winnerPaid: bool, user: Address)
    requires BookOk(b, outcome, t, bonds, winnerPaid)
    ensures Owed(b.fees, user) == 0 ==> ClaimLpFees(b, user) == Revert(NothingToClaim)
    ensures 0 <= Owed(b.fees, user)
  {
    hide Sum, MulDiv, Pay;
    AccrueKeeps(b.fees, user, t.additions);
    assert Get(b.fees.lpFeeDebt, user) <= Accumulated(b.fees, user);
  }

  lemma FeeReverts(b: Book, outcome: Outcome, t: Tally, bonds: nat, winnerPaid: bool, user: Address)
    requires BookOk(b, outcome, t, bonds, winnerPaid)
    ensures ClaimLpFees(b, user) != Revert(TransferFailed)
    ensures b.fees.unclaimedLpFees < Owed(b.fees, user) ==> ClaimLpFees(b, user) == Revert(Panic)
  {
    hide Sum, MulDiv, Pay;
    AccrueKeeps(b.fees, user, t.additions);
    assert Get(b.fees.lpFeeDebt, user) <= Accumulated(b.fees, user);
    FeesFit(b, outcome, t, bonds, winnerPaid, user);
  }

  lemma FeesFit(b: Book, outcome: Outcome, t: Tally, bonds: nat, winnerPaid: bool, user: Address)
    requires BookOk(b, outcome, t, bonds, winnerPaid)
    ensures ClaimLpFees(b, user) != Revert(TransferFailed)
  {
    hide Sum, MulDiv, FeesOk;
  }

  lemma ResolutionDoesNotPanic(m: Market, msg: Msg, call: Call)
    requires Inv(m, msg.now)
    requires call.VerdictCall? || call.ExpireCall? || call.ClaimBondCall?
    ensures Apply(m, msg, call) != Revert(TransferFailed)
    ensures Apply(m, msg, call) == Revert(Panic) <==> Panics(m, msg, call)
  {
    hide Inv, ClaimIntegrityBond, AttestChallengeVerdict, ExpireChallenge;
    match call
    case ClaimBondCall => BondDoesNotPanic(m, msg);
    case VerdictCall(accept) => VerdictDoesNotPanic(m, msg, accept);
    case ExpireCall => ExpiryDoesNotPanic(m, msg);
  }

  lemma VerdictDoesNotPanic(m: Market, msg: Msg, accept: bool)
    requires Inv(m, msg.now)
    ensures AttestChallengeVerdict(m, msg, accept) != Revert(TransferFailed)
    ensures AttestChallengeVerdict(m, msg, accept) != Revert(Panic)
  {
    hide BookOk, QueueOk, GateOk, ConfigOk, TallyOf, CountsOk, VerdictBy;
    BondMoves(m.book, m.ruling.finalOutcome, TallyOf(m.queue.actions), BondsHeld(m), m.winnerRewardClaimed != {},
              HeldChallengeBond(m.ruling));
  }

  lemma ExpiryDoesNotPanic(m: Market, msg: Msg)
    requires Inv(m, msg.now)
    ensures ExpireChallenge(m, msg) != Revert(TransferFailed)
    ensures ExpireChallenge(m, msg) == Revert(Panic)
       <==> AwaitsVerdict(m.ruling) && TWO_64 <= m.ruling.challengedAt + m.config.challengeTimeout
  {
    hide BookOk, QueueOk, GateOk, ConfigOk, TallyOf, CountsOk;
    BondMoves(m.book, m.ruling.finalOutcome, TallyOf(m.queue.actions), BondsHeld(m), m.winnerRewardClaimed != {},
              HeldChallengeBond(m.ruling));
  }

  lemma BondDoesNotPanic(m: Market, msg: Msg)
    requires Inv(m, msg.now)
    ensures ClaimIntegrityBond(m, msg) != Revert(TransferFailed) && ClaimIntegrityBond(m, msg) != Revert(Panic)
  {
    hide BookOk, QueueOk, GateOk, RulingOk, ConfigOk, TallyOf, Sum, Pay;
    SumAtLeast(m.bonds.integrityBondOf, msg.sender);
    BondMoves(m.book, m.ruling.finalOutcome, TallyOf(m.queue.actions), BondsHeld(m), m.winnerRewardClaimed != {},
              Get(m.bonds.integrityBondOf, msg.sender));
  }

  lemma PanicsIff(m: Market, msg: Msg, call: Call)
    requires Inv(m, msg.now)
    ensures Apply(m, msg, call) != Revert(TransferFailed)
    ensures Apply(m, msg, call) == Revert(Panic) <==> Panics(m, msg, call)
  {
    if call.ProcessCall? {
      ProcessingDoesNotPanic(m, msg, call);
    } else if call.VerdictCall? || call.ExpireCall? || call.ClaimBondCall? {
      ResolutionDoesNotPanic(m, msg, call);
    } else if call.ClaimFeesCall? || call.RedeemCall? || call.SettleLpCall? || call.ClaimRewardCall?
      || call.RefundFeeCall? {
      ClaimsDoNotPanic(m, msg, call);
    } else {
      OthersDoNotPanic(m, msg, call);
    }
  }

  lemma ProcessingDoesNotPanic(m: Market, msg: Msg, call: Call)
    requires Inv(m, msg.now) && call.ProcessCall?
    ensures Apply(m, msg, call) != Revert(TransferFailed)
    ensures Apply(m, msg, call) == Revert(Panic) <==> Panics(m, msg, call)
  {
    hide Inv, Drain;
    DrainKeeps(m, msg.now, call.epoch, Min(call.maximum, Remaining(m.queue, call.epoch)));
  }

  /** In every reachable state no call fails for lack of tokens, and a call fails on
      arithmetic exactly where Panics says. */
  lemma NoUnexpectedReverts(c: Config, additional: set<Address>, start: Uint64, events: seq<Event>, msg: Msg,
                            call: Call)
    requires ConfigOk(c) && Chronological(start, events) && End(start, events) <= msg.now
    ensures
      var m := Reached(c, additional, events);
      && Apply(m, msg, call) != Revert(TransferFailed)
      && (Apply(m, msg, call) == Revert(Panic) <==> Panics(m, msg, call))
  {
    hide Run, Inv, Apply, Panics;
    ReachableOk(c, additional, start, events);
    InvLater(Reached(c, additional, events), End(start, events), msg.now);
    PanicsIff(Reached(c, additional, events), msg, call);
  }

  lemma OthersDoNotPanic(m: Market, msg: Msg, call: Call)
    requires !(call.VerdictCall? || call.ExpireCall? || call.ClaimBondCall? || call.ProcessCall?)
    requires !(call.ClaimFeesCall? || call.RedeemCall? || call.SettleLpCall? || call.ClaimRewardCall?
               || call.RefundFeeCall?)
    ensures Apply(m, msg, call) != Revert(TransferFailed)
    ensures Apply(m, msg, call) == Revert(Panic) <==> Panics(m, msg, call)
  {
    hide Owed, CurrentEpoch;
  }

  // ------------------------------------------------- periods past the clock

  /** A provisional result can be finalized at some time exactly when its window
      ends within the 64-bit clock, and challenged at some time exactly when that
      end is also still to come. */
  lemma WindowWorksIff(c: Config, additional: set<Address>, start: Uint64, events: seq<Event>, anyone: Address)
    requires ConfigOk(c) && Chronological(start, events) && AwaitsWindow(Reached(c, additional, events).ruling)
    ensures
      var m := Reached(c, additional, events);
      (exists now: Uint64 :: End(start, events) <= now && FinalizeUnchallenged(m, Msg(anyone, now, false)).Ok?)
      <==> m.ruling.provisionalAt + c.challengeWindow < TWO_64
    ensures
      var m := Reached(c, additional, events);
      (exists now: Uint64 ::
         End(start, events) <= now && ChallengeResult(m, Msg(anyone, now, false), 1, CHALLENGE_BOND).Ok?)
      <==> End(start, events) < m.ruling.provisionalAt + c.challengeWindow < TWO_64
  {
    hide Run;
    RunEvolves(NewMarket(c, additional), events);
    var m := Reached(c, additional, events);
    var end: Uint64 := End(start, events);
    if m.ruling.provisionalAt + c.challengeWindow < TWO_64 {
      var late: Uint64 := Max(end, m.ruling.provisionalAt + c.challengeWindow);
      assert FinalizeUnchallenged(m, Msg(anyone, late, false)).Ok?;
      if end < m.ruling.provisionalAt + c.challengeWindow {
        assert ChallengeResult(m, Msg(anyone, end, false), 1, CHALLENGE_BOND).Ok?;
      }
    }
  }

  /** A challenge can be expired at some time exactly when its timeout ends within
      the 64-bit clock. */
  lemma TimeoutWorksIff(c: Config, additional: set<Address>, start: Uint64, events: seq<Event>, anyone: Address)
    requires ConfigOk(c) && Chronological(start, events) && AwaitsVerdict(Reached(c, additional, events).ruling)
    ensures
      var m := Reached(c, additional, events);
      (exists now: Uint64 :: End(start, events) <= now && ExpireChallenge(m, Msg(anyone, now, false)).Ok?)
      <==> m.ruling.challengedAt + c.challengeTimeout < TWO_64
  {
    hide Run, Inv, Decide;
    ReachableOk(c, additional, start, events);
    RunEvolves(NewMarket(c, additional), events);
    var m := Reached(c, additional, events);
    if m.ruling.challengedAt + c.challengeTimeout < TWO_64 {
      var late: Uint64 := Max(End(start, events), m.ruling.challengedAt + c.challengeTimeout);
      InvLater(m, End(start, events), late);
      BondCanBePaid(m, late);
      assert ExpireChallenge(m, Msg(anyone, late, false)).Ok?;
    }
  }

  lemma BondCanBePaid(m: Market, now: Uint64)
    requires Inv(m, now) && AwaitsVerdict(m.ruling)
    ensures Decide(m, m.ruling.challenger, Invalid).Ok?
  {
    hide BookOk, QueueOk, GateOk, ConfigOk, TallyOf, CountsOk;
    BondMoves(m.book, m.ruling.finalOutcome, TallyOf(m.queue.actions), BondsHeld(m), m.winnerRewardClaimed != {},
              HeldChallengeBond(m.ruling));
  }

  /** A provisional result whose window ends beyond the clock. */
  predicate Stranded(m: Market) {
    AwaitsWindow(m.ruling) && TWO_64 <= m.ruling.provisionalAt + m.config.challengeWindow
  }

  lemma ApplyKeepsStranded(m: Market, msg: Msg, call: Call)
    requires Stranded(m) && Apply(m, msg, call).Ok?
    ensures Stranded(Apply(m, msg, call).value)
  {
    hide Pay, ClaimLpFees, RedeemPositions, SettleLpInventory, PayWinnerReward, RefundWinnerFee, CurrentEpoch,
      RequireTrader, RequireActionWindow, DebitPosition, WinnerReward, Drain, Receive, Attested, VerdictBy, Voted;
    if call.ProcessCall? && 0 < Remaining(m.queue, call.epoch) && call.maximum != 0 {
      DrainLeavesRuling(m, msg.now, call.epoch, Min(call.maximum, Remaining(m.queue, call.epoch)));
    }
  }

  /** A challenge whose timeout ends beyond the clock; only resolvers can end it. */
  predicate Deadlocked(m: Market) {
    && AwaitsVerdict(m.ruling) && !m.ruling.provisionalOutcome.Unset?
    && TWO_64 <= m.ruling.challengedAt + m.config.challengeTimeout
  }

  lemma ApplyKeepsDeadlock(m: Market, msg: Msg, call: Call)
    requires Deadlocked(m) && Apply(m, msg, call).Ok? && (call.VerdictCall? ==> msg.sender !in m.config.resolvers)
    ensures Deadlocked(Apply(m, msg, call).value) && Apply(m, msg, call).value.config == m.config
  {
    hide Pay, ClaimLpFees, RedeemPositions, SettleLpInventory, PayWinnerReward, RefundWinnerFee, CurrentEpoch,
      RequireTrader, RequireActionWindow, DebitPosition, WinnerReward, Drain, Receive, Attested, VerdictBy, Voted;
    if call.ProcessCall? && 0 < Remaining(m.queue, call.epoch) && call.maximum != 0 {
      DrainLeavesRuling(m, msg.now, call.epoch, Min(call.maximum, Remaining(m.queue, call.epoch)));
    }
  }

  lemma {:induction false} DrainLeavesRuling(m: Market, now: Uint64, epoch: Uint64, count: nat)
    requires Drain(m, now, epoch, count).Ok?
    ensures Drain(m, now, epoch, count).value.ruling == m.ruling && Drain(m, now, epoch, count).value.config == m.config
    decreases count
  {
    hide TryExecute, Refund;
    if count != 0 {
      DrainLeavesRuling(SettleNext(m, now, epoch).value, now, epoch, count - 1);
    }
  }

  lemma StepKeepsStranded(m: Market, msg: Msg, call: Call)
    requires Stranded(m)
    ensures Stranded(Step(m, msg, call))
  {
    hide Apply, Stranded;
    if Apply(m, msg, call).Ok? {
      ApplyKeepsStranded(m, msg, call);
    }
  }

  lemma {:induction false} RunKeepsStranded(m: Market, events: seq<Event>)
    requires Stranded(m)
    ensures Stranded(Run(m, events))
    decreases |events|
  {
    hide Step, Stranded;
    if events != [] {
      StepKeepsStranded(m, events[0].msg, events[0].call);
      RunKeepsStranded(Step(m, events[0].msg, events[0].call), events[1..]);
    }
  }

  /** A market in that state is stuck for ever: whatever anyone does, it is never
      challenged and never final, and no position, share, reward or bond is paid. */
  lemma OverlongWindowStrands(c: Config, additional: set<Address>, events: seq<Event>, more: seq<Event>, msg: Msg)
    ensures
      var m := Reached(c, additional, events);
      AwaitsWindow(m.ruling) && TWO_64 <= m.ruling.provisionalAt + c.challengeWindow ==>
        var n := Run(m, more);
        && n.ruling.finalOutcome.Unset? && !n.ruling.challenged
        && Redeem(n, msg).Revert? && SettleLp(n, msg).Revert? && ClaimWinnerReward(n, msg).Revert?
        && ClaimInvalidWinnerFeeRefund(n, msg).Revert? && ClaimIntegrityBond(n, msg).Revert?
  {
    hide Run, RedeemPositions, SettleLpInventory, PayWinnerReward, RefundWinnerFee, Pay;
    RunEvolves(NewMarket(c, additional), events);
    var m := Reached(c, additional, events);
    if AwaitsWindow(m.ruling) && TWO_64 <= m.ruling.provisionalAt + c.challengeWindow {
      RunKeepsStranded(m, more);
    }
  }
}
