/** Whole runs of one market: what holds in every reachable state, and what no
    run can undo. */
module MarketRuns {
  import opened Prelude
  import opened Ledger
  import opened Market
  import opened MarketInvariant

  datatype Event = Event(msg: Msg, call: Call)

  /** Block timestamps never go back. */
  ghost predicate Chronological(start: Uint64, events: seq<Event>)
    decreases |events|
  {
    events != [] ==> start <= events[0].msg.now && Chronological(events[0].msg.now, events[1..])
  }

  function Run(m: Market, events: seq<Event>): Market
    decreases |events|
  {
    if events == [] then m else Run(Step(m, events[0].msg, events[0].call), events[1..])
  }

  function End(start: Uint64, events: seq<Event>): Uint64 {
    if events == [] then start else events[|events| - 1].msg.now
  }

  // ------------------------------------------------------ reachable states

  lemma StepKeeps(m: Market, t: Uint64, msg: Msg, call: Call)
    requires Inv(m, t) && t <= msg.now
    ensures Inv(Step(m, msg, call), msg.now)
  {
    hide Inv, Apply;
    InvLater(m, t, msg.now);
    if Apply(m, msg, call).Ok? {
      ApplyKeeps(m, msg, call);
    }
  }

  lemma {:induction false} RunKeeps(m: Market, t: Uint64, events: seq<Event>)
    requires Inv(m, t) && Chronological(t, events)
    ensures Inv(Run(m, events), End(t, events))
    decreases |events|
  {
    hide Inv, Step;
    if events != [] {
      StepKeeps(m, t, events[0].msg, events[0].call);
      RunKeeps(Step(m, events[0].msg, events[0].call), events[0].msg.now, events[1..]);
    }
  }

  /** Every state a run reaches from a new market satisfies the invariant. */
  lemma ReachableOk(c: Config, additional: set<Address>, start: Uint64, events: seq<Event>)
    requires ConfigOk(c) && Chronological(start, events)
    ensures Inv(Run(NewMarket(c, additional), events), End(start, events))
  {
    hide Inv, Run;
    NewMarketOk(c, additional, start);
    RunKeeps(NewMarket(c, additional), start, events);
  }

  // ------------------------------------------------- what no run can undo

  /** Submitted actions stay as they are, except that a pending one may settle,
      once. */
  ghost predicate ActionsEvolve(a: seq<Action>, b: seq<Action>) {
    && |a| <= |b|
    && (forall i :: 0 <= i < |a| ==>
          && b[i] == a[i].(status := b[i].status)
          && (!a[i].status.Pending? ==> b[i] == a[i]))
  }

  /** Cleared epochs keep their sequence, the watermark never falls, and a closed
      gate stays closed at the same time, epoch and sequence. */
  ghost predicate GateEvolves(g: Gate, h: Gate) {
    && g.epochSafe <= h.epochSafe
    && (forall e :: e in g.epochSafe && e in g.epochSafeSequence ==>
          e in h.epochSafeSequence && h.epochSafeSequence[e] == g.epochSafeSequence[e])
    && g.lastSafeSequence <= h.lastSafeSequence
    && (g.state.Closed? ==>
          && h.state.Closed?
          && h.closedAt == g.closedAt && h.closedEpoch == g.closedEpoch
          && h.resolutionDueAt == g.resolutionDueAt && h.decisiveSequence == g.decisiveSequence)
  }

  /** A provisional result, a challenge and the final outcome are each written
      once. */
  ghost predicate RulingEvolves(r: Ruling, s: Ruling) {
    && (!r.provisionalOutcome.Unset? ==>
          && s.provisionalOutcome == r.provisionalOutcome
          && s.provisionalEvidence == r.provisionalEvidence
          && s.provisionalAt == r.provisionalAt)
    && (r.challenged ==> s.challenged && s.challenger == r.challenger && s.challengedAt == r.challengedAt)
    && (!r.finalOutcome.Unset? ==> s.finalOutcome == r.finalOutcome)
  }

  ghost predicate Evolves(m: Market, n: Market) {
    && n.config == m.config && n.restricted == m.restricted
    && ActionsEvolve(m.queue.actions, n.queue.actions)
    && GateEvolves(m.gate, n.gate)
    && RulingEvolves(m.ruling, n.ruling)
    && m.bonds.integrityBondClaimed <= n.bonds.integrityBondClaimed
    && m.winnerRewardClaimed <= n.winnerRewardClaimed
  }

  lemma SettleNextEvolves(m: Market, now: Uint64, epoch: Uint64)
    requires SettleNext(m, now, epoch).Ok?
    ensures Evolves(m, SettleNext(m, now, epoch).value)
  {
    hide TryExecute, Refund;
  }

  lemma {:induction false} DrainEvolves(m: Market, now: Uint64, epoch: Uint64, count: nat)
    requires Drain(m, now, epoch, count).Ok?
    ensures Evolves(m, Drain(m, now, epoch, count).value)
    decreases count
  {
    hide SettleNext;
    if count != 0 {
      SettleNextEvolves(m, now, epoch);
      DrainEvolves(SettleNext(m, now, epoch).value, now, epoch, count - 1);
    }
  }

  lemma SubmissionEvolves(m: Market, msg: Msg, call: Call)
    requires call.BuyCall? || call.AddLiquidityCall? || call.AddLiquidityForCall? || call.SellCall?
      || call.TransferCall?
    ensures Apply(m, msg, call).Ok? ==> Evolves(m, Apply(m, msg, call).value)
  {
    hide CurrentEpoch, RequireTrader, RequireActionWindow, DebitPosition, Receive;
  }

  lemma ApplyEvolves(m: Market, msg: Msg, call: Call)
    requires Apply(m, msg, call).Ok?
    ensures Evolves(m, Apply(m, msg, call).value)
  {
    hide Pay, ClaimLpFees, RedeemPositions, SettleLpInventory, PayWinnerReward, RefundWinnerFee, CurrentEpoch,
      SubmitBuy, SubmitLiquidityAction, SubmitPositionAction, WinnerReward, Drain, Receive;
    if call.BuyCall? || call.AddLiquidityCall? || call.AddLiquidityForCall? || call.SellCall? || call.TransferCall? {
      SubmissionEvolves(m, msg, call);
    } else if call.ProcessCall? && 0 < Remaining(m.queue, call.epoch) && call.maximum != 0 {
      DrainEvolves(m, msg.now, call.epoch, Min(call.maximum, Remaining(m.queue, call.epoch)));
    }
  }

  lemma EvolvesTransitive(a: Market, b: Market, c: Market)
    requires Evolves(a, b) && Evolves(b, c)
    ensures Evolves(a, c)
  {
  }

  /** No run rewrites history: the outcome, the provisional result, the closing of
      the gate, the cleared epochs and every settled action stay. */
  lemma {:induction false} RunEvolves(m: Market, events: seq<Event>)
    ensures Evolves(m, Run(m, events))
    decreases |events|
  {
    hide Evolves, Apply;
    if events == [] {
      EvolvesReflexive(m);
    } else {
      var next := Step(m, events[0].msg, events[0].call);
      if Apply(m, events[0].msg, events[0].call).Ok? {
        ApplyEvolves(m, events[0].msg, events[0].call);
      } else {
        EvolvesReflexive(m);
      }
      RunEvolves(next, events[1..]);
      EvolvesTransitive(m, next, Run(m, events));
    }
  }

  lemma EvolvesReflexive(m: Market)
    ensures Evolves(m, m)
  {
  }
}
