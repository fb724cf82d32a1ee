/** The clock of a market, counted from the calls that start it: what a challenge, a
    second attestation and a closing at some time make possible from which time on,
    over every run, and how late an epoch is cleared. */
module Timing {
  import opened Prelude
  import opened Ledger
  import opened Market
  import opened MarketInvariant
  import opened MarketRuns
  import opened MarketTheorems
  import opened Reverts
  import opened UserEffects

  /** The state after a call in a reached state, and any run after it. */
  lemma AfterCall(c: Config, additional: set<Address>, start: Uint64, events: seq<Event>, msg: Msg, call: Call,
                  more: seq<Event>)
    requires ConfigOk(c) && Chronological(start, events) && End(start, events) <= msg.now
    requires Chronological(msg.now, more) && Apply(Reached(c, additional, events), msg, call).Ok?
    ensures
      var m := Reached(c, additional, events);
      var n := Apply(m, msg, call).value;
      && Inv(m, msg.now) && Inv(Run(n, more), End(msg.now, more))
      && m.config == n.config == Run(n, more).config == c
      && Evolves(n, Run(n, more))
  {
    hide Inv, Run, Apply;
    ReachableOk(c, additional, start, events);
    RunEvolves(NewMarket(c, additional), events);
    var m := Reached(c, additional, events);
    InvLater(m, End(start, events), msg.now);
    ApplyKeeps(m, msg, call);
    ApplyEvolves(m, msg, call);
    var n := Apply(m, msg, call).value;
    RunKeeps(n, msg.now, more);
    RunEvolves(n, more);
  }

  // ---------------------------------------------------------------- challenge

  /** From a challenge at some time on, and whatever happens: anyone can expire it
      exactly while it is undecided and from that time plus the timeout on; then the
      market is invalid and the challenger has the bond back. It cannot be challenged
      again or finalized as unchallenged. */
  lemma AfterChallenge(c: Config, additional: set<Address>, start: Uint64, events: seq<Event>, caller: Msg,
                       evidence: nat, bond: nat, more: seq<Event>, msg: Msg)
    requires ConfigOk(c) && Chronological(start, events) && End(start, events) <= caller.now
    requires Chronological(caller.now, more) && End(caller.now, more) <= msg.now
    ensures
      var m := Reached(c, additional, events);
      var made := ChallengeResult(m, caller, evidence, bond);
      made.Ok? ==>
        var n := Run(made.value, more);
        var expired := ExpireChallenge(n, msg);
        && made.value.book.purse.held == m.book.purse.held + 10_000_000
        && n.ruling.challenged && n.ruling.challenger == caller.sender
        && (expired.Ok? <==> n.ruling.finalOutcome.Unset? && caller.now + c.challengeTimeout <= msg.now)
        && (expired.Ok? ==>
              && expired.value.ruling.finalOutcome.Invalid?
              && Get(expired.value.book.purse.sent, caller.sender)
                 == Get(n.book.purse.sent, caller.sender) + 10_000_000)
        && FinalizeUnchallenged(n, msg).Revert?
        && ChallengeResult(n, msg, evidence, bond).Revert?
  {
    hide Reached, Run, Inv, Decide, Pay;
    var m := Reached(c, additional, events);
    if ChallengeResult(m, caller, evidence, bond).Ok? {
      AfterCall(c, additional, start, events, caller, ChallengeCall(evidence, bond), more);
      var n := Run(ChallengeResult(m, caller, evidence, bond).value, more);
      InvLater(n, End(caller.now, more), msg.now);
      ExpiryIff(n, msg);
    }
  }

  lemma ExpiryIff(m: Market, msg: Msg)
    requires Inv(m, msg.now) && m.ruling.challenged
    ensures
      var r := ExpireChallenge(m, msg);
      && (r.Ok? <==> m.ruling.finalOutcome.Unset? && m.ruling.challengedAt + m.config.challengeTimeout <= msg.now)
      && (r.Ok? ==>
            && r.value.ruling.finalOutcome.Invalid?
            && Get(r.value.book.purse.sent, m.ruling.challenger)
               == Get(m.book.purse.sent, m.ruling.challenger) + CHALLENGE_BOND)
  {
    hide Inv, Decide;
    if m.ruling.finalOutcome.Unset? {
      BondCanBePaid(m, msg.now);
      BondIsHeld(m, msg.now);
      DecisionPays(m, m.ruling.challenger, Invalid);
    }
  }

  // ------------------------------------------------------------- attestations

  /** An attestation makes the result provisional exactly when another resolver has
      attested the same outcome on the same evidence; then, from its time on and
      whatever happens: anyone can finalize the result exactly while it is unchallenged
      and from that time plus the window on, anyone can challenge it exactly until then
      and with the bond and evidence, and no run makes it final before without a
      challenge. */
  lemma AfterSecondAttestation(c: Config, additional: set<Address>, start: Uint64, events: seq<Event>, caller: Msg,
                               outcome: Outcome, evidence: nat, more: seq<Event>, msg: Msg, proof: nat, bond: nat)
    requires ConfigOk(c) && Chronological(start, events) && End(start, events) <= caller.now
    requires Chronological(caller.now, more) && End(caller.now, more) <= msg.now
    ensures
      var m := Reached(c, additional, events);
      var attested := AttestResult(m, caller, outcome, evidence);
      attested.Ok? ==>
        && (!attested.value.ruling.provisionalOutcome.Unset? <==> AttestedBy(m.ruling, (outcome, evidence)) != {})
        && caller.sender in AttestedBy(attested.value.ruling, (outcome, evidence))
        && (!attested.value.ruling.provisionalOutcome.Unset? ==>
              var n := Run(attested.value, more);
              var finalized := FinalizeUnchallenged(n, msg);
              var open := n.ruling.finalOutcome.Unset? && !n.ruling.challenged;
              && n.ruling.provisionalOutcome == outcome
              && (finalized.Ok? <==> open && caller.now + c.challengeWindow <= msg.now)
              && (finalized.Ok? ==> finalized.value.ruling.finalOutcome == outcome)
              && (ChallengeResult(n, msg, proof, bond).Ok?
                  <==> && open && msg.now < caller.now + c.challengeWindow < TWO_64
                       && proof != 0 && bond == 10_000_000)
              && (!n.ruling.finalOutcome.Unset? && !n.ruling.challenged ==>
                    n.ruling.finalOutcome == outcome && caller.now + c.challengeWindow <= End(caller.now, more)))
  {
    hide Reached, Run, Inv;
    var m := Reached(c, additional, events);
    if AttestResult(m, caller, outcome, evidence).Ok? {
      AfterCall(c, additional, start, events, caller, AttestCall(outcome, evidence), more);
      SecondAttests(m, caller, outcome, evidence);
      var n := Run(AttestResult(m, caller, outcome, evidence).value, more);
      FinalMeansWaited(n, End(caller.now, more));
    }
  }

  lemma SecondAttests(m: Market, msg: Msg, outcome: Outcome, evidence: nat)
    requires Inv(m, msg.now) && AttestResult(m, msg, outcome, evidence).Ok?
    ensures
      var r := AttestResult(m, msg, outcome, evidence).value.ruling;
      && (!r.provisionalOutcome.Unset? <==> AttestedBy(m.ruling, (outcome, evidence)) != {})
      && msg.sender in AttestedBy(r, (outcome, evidence))
      && (!r.provisionalOutcome.Unset? ==> r.provisionalOutcome == outcome && r.provisionalAt == msg.now)
  {
    hide MoneyOk, QueueOk, GateOk, ConfigOk;
    assert CountOk(m.ruling, m.config, (outcome, evidence));
  }

  /** A final outcome without a challenge waited for its window. */
  lemma FinalMeansWaited(m: Market, t: Uint64)
    requires Inv(m, t)
    ensures !m.ruling.provisionalOutcome.Unset? && !m.ruling.finalOutcome.Unset? && !m.ruling.challenged ==>
      && m.ruling.finalOutcome == m.ruling.provisionalOutcome
      && m.ruling.provisionalAt + m.config.challengeWindow <= t
  {
    hide MoneyOk, QueueOk, GateOk, ConfigOk, CountsOk;
  }

  // ------------------------------------------------------------------ closing

  /** From a closing at some time and sequence on, and whatever happens: nothing can be
      submitted; only epochs that ended before the closing can still be cleared, before
      its sequence; resolvers can attest exactly while nothing is provisional or final
      and until half an hour after the closing, and from then on anyone can invalidate
      the market exactly while that is so. The deadline is truncated to 64 bits. */
  lemma AfterClosing(c: Config, additional: set<Address>, start: Uint64, events: seq<Event>, caller: Msg, sequence: nat,
                     more: seq<Event>, msg: Msg, outcome: Outcome, evidence: nat, epoch: Uint64, later: nat,
                     call: Call)
    requires ConfigOk(c) && Chronological(start, events) && End(start, events) <= caller.now
    requires Chronological(caller.now, more) && End(caller.now, more) <= msg.now
    ensures
      var m := Reached(c, additional, events);
      var closed := CloseForDecisiveEvent(m, caller, sequence);
      closed.Ok? ==>
        var n, due := Run(closed.value, more), (caller.now + 1800) % TWO_64;
        var open := n.ruling.finalOutcome.Unset? && n.ruling.provisionalOutcome.Unset?;
        && n.gate.state.Closed? && n.gate.closedEpoch == caller.now / c.epochDuration
        && (AttestResult(n, msg, outcome, evidence).Ok?
            <==> && msg.sender in c.resolvers && open && msg.now <= due && !outcome.Unset? && evidence != 0
                 && msg.sender !in AttestedBy(n.ruling, (outcome, evidence)))
        && (InvalidateUnresolved(n, msg).Ok? <==> open && due <= msg.now)
        && (MarkEpochSafe(n, msg, epoch, later).Ok? ==> epoch < caller.now / c.epochDuration && later < sequence)
        && (IsSubmission(call) ==> Apply(n, msg, call).Revert?)
  {
    hide Reached, Run, Inv, Attested, CurrentEpoch, Apply;
    var m := Reached(c, additional, events);
    if CloseForDecisiveEvent(m, caller, sequence).Ok? {
      assert Apply(m, caller, CloseCall(sequence)) == CloseForDecisiveEvent(m, caller, sequence) by {
        CloseIs(m, caller, sequence);
      }
      AfterCall(c, additional, start, events, caller, CloseCall(sequence), more);
      EpochIs(c, caller.now);
      ClosedRefuses(Run(CloseForDecisiveEvent(m, caller, sequence).value, more), msg, call);
    }
  }

  predicate IsSubmission(call: Call) {
    call.BuyCall? || call.AddLiquidityCall? || call.AddLiquidityForCall? || call.SellCall? || call.TransferCall?
  }

  lemma ClosedRefuses(m: Market, msg: Msg, call: Call)
    requires m.gate.state.Closed?
    ensures IsSubmission(call) ==> Apply(m, msg, call).Revert?
  {
    hide RequireTrader, DebitPosition, CurrentEpoch;
  }

  lemma CloseIs(m: Market, msg: Msg, sequence: nat)
    ensures Apply(m, msg, CloseCall(sequence)) == CloseForDecisiveEvent(m, msg, sequence)
  {
  }

  lemma EpochIs(c: Config, now: Uint64)
    ensures CurrentEpoch(c, now) == now / c.epochDuration
  {
  }

  // ----------------------------------------------------------------- clearing

  /** Every cleared epoch has been over for the finality delay. */
  ghost predicate ClearedLate(m: Market, now: Uint64) {
    forall e :: e in m.gate.epochSafe ==> (e + 1) * m.config.epochDuration + m.config.sourceFinalityDelay <= now
  }

  lemma ApplyClearsLate(m: Market, msg: Msg, call: Call)
    requires ClearedLate(m, msg.now) && Apply(m, msg, call).Ok?
    ensures ClearedLate(Apply(m, msg, call).value, msg.now)
  {
    if call.MarkSafeCall? {
      hide CurrentEpoch;
    } else {
      OthersClearNothing(m, msg, call);
    }
  }

  lemma OthersClearNothing(m: Market, msg: Msg, call: Call)
    requires Apply(m, msg, call).Ok? && !call.MarkSafeCall?
    ensures Apply(m, msg, call).value.gate.epochSafe == m.gate.epochSafe
    ensures Apply(m, msg, call).value.config == m.config
  {
    hide Pay, ClaimLpFees, RedeemPositions, SettleLpInventory, PayWinnerReward, RefundWinnerFee, CurrentEpoch,
      RequireTrader, RequireActionWindow, DebitPosition, WinnerReward, Drain, Receive, Attested, Voted;
    if call.ProcessCall? && 0 < Remaining(m.queue, call.epoch) && call.maximum != 0 {
      DrainClearsNothing(m, msg.now, call.epoch, Min(call.maximum, Remaining(m.queue, call.epoch)));
    }
  }

  lemma {:induction false} DrainClearsNothing(m: Market, now: Uint64, epoch: Uint64, count: nat)
    requires Drain(m, now, epoch, count).Ok?
    ensures
      var n := Drain(m, now, epoch, count).value;
      n.gate == m.gate && n.config == m.config
    decreases count
  {
    hide TryExecute, Refund;
    if count != 0 {
      DrainClearsNothing(SettleNext(m, now, epoch).value, now, epoch, count - 1);
    }
  }

  lemma {:induction false} RunClearsLate(m: Market, t: Uint64, events: seq<Event>)
    requires ClearedLate(m, t) && Chronological(t, events)
    ensures ClearedLate(Run(m, events), End(t, events))
    decreases |events|
  {
    hide Apply;
    if events != [] {
      var e := events[0];
      if Apply(m, e.msg, e.call).Ok? {
        ApplyClearsLate(m, e.msg, e.call);
      }
      RunClearsLate(Step(m, e.msg, e.call), e.msg.now, events[1..]);
    }
  }

  /** No epoch is cleared before it has been over for the finality delay. */
  lemma ClearedAfterFinality(c: Config, additional: set<Address>, start: Uint64, events: seq<Event>, epoch: Uint64)
    requires ConfigOk(c) && Chronological(start, events)
    ensures
      epoch in Reached(c, additional, events).gate.epochSafe ==>
        (epoch + 1) * c.epochDuration + c.sourceFinalityDelay <= End(start, events)
  {
    hide Run;
    RunClearsLate(NewMarket(c, additional), start, events);
    RunEvolves(NewMarket(c, additional), events);
  }
}
