/** The gate and the votes of a market, read off the calls that it has accepted: over
    every run the state says exactly what those calls said, and nothing else. */
module GateHistory {
  import opened Prelude
  import opened Ledger
  import opened Market
  import opened MarketRuns
  import opened MarketTheorems

  /** The accepted calls of a run, in order. */
  function Accepted(m: Market, events: seq<Event>): seq<Event>
    decreases |events|
  {
    if events == [] then []
    else
      var e := events[0];
      (if Apply(m, e.msg, e.call).Ok? then [e] else []) + Accepted(Step(m, e.msg, e.call), events[1..])
  }

  // --------------------------------------------------------------------- gate

  /** The sequence with which an epoch was last cleared or trading reopened, or 0. */
  function LastSequence(done: seq<Event>): nat {
    if done == [] then 0
    else
      match done[|done| - 1].call
      case MarkSafeCall(_, sequence) => sequence
      case ReopenCall(sequence) => sequence
      case _ => LastSequence(done[..|done| - 1])
  }

  /** Trading begins open; the last call that says otherwise decides. */
  function LastState(done: seq<Event>): GateState {
    if done == [] then Open
    else
      match done[|done| - 1].call
      case SuspendCall(_) => Suspended
      case ReopenCall(_) => Open
      case CloseCall(_) => Closed
      case _ => LastState(done[..|done| - 1])
  }

  /** This call cleared the epoch, with the sequence on record. */
  predicate Clears(e: Event, epoch: Uint64, g: Gate) {
    && e.call.MarkSafeCall? && e.call.epoch == epoch
    && epoch in g.epochSafeSequence && g.epochSafeSequence[epoch] == e.call.sequence
  }

  /** This call closed the gate; what it fixed is on record. */
  predicate Closes(e: Event, g: Gate, c: Config) {
    && e.call.CloseCall? && g.decisiveSequence == e.call.sequence && g.closedAt == e.msg.now
    && g.closedEpoch == e.msg.now / c.epochDuration && g.resolutionDueAt == (e.msg.now + 1800) % TWO_64
  }

  ghost predicate GateFollows(g: Gate, c: Config, done: seq<Event>) {
    && g.state == LastState(done) && g.lastSafeSequence == LastSequence(done)
    && (forall epoch: Uint64 :: epoch in g.epochSafe <==> exists e :: e in done && Clears(e, epoch, g))
    && (g.state.Closed? <==> exists e :: e in done && Closes(e, g, c))
  }

  predicate IsGateCall(call: Call) {
    call.MarkSafeCall? || call.SuspendCall? || call.ReopenCall? || call.CloseCall?
  }

  // -------------------------------------------------------------------- votes

  predicate Attests(e: Event, voter: Address, key: Verdict) {
    e.call == AttestCall(key.0, key.1) && e.msg.sender == voter
  }

  predicate Votes(e: Event, voter: Address, accept: bool) {
    e.call == VerdictCall(accept) && e.msg.sender == voter
  }

  /** This call made the result provisional. */
  predicate Provides(e: Event, r: Ruling) {
    && e.call == AttestCall(r.provisionalOutcome, r.provisionalEvidence) && !r.provisionalOutcome.Unset?
    && r.provisionalAt == e.msg.now
  }

  /** This call challenged the result. */
  predicate Challenges(e: Event, r: Ruling) {
    && e.call.ChallengeCall? && e.call.evidence == r.challengeEvidence
    && r.challenger == e.msg.sender && r.challengedAt == e.msg.now
  }

  ghost predicate VotesFollow(r: Ruling, done: seq<Event>) {
    && (forall voter: Address, key: Verdict ::
          voter in AttestedBy(r, key) <==> exists e :: e in done && Attests(e, voter, key))
    && (forall voter: Address, accept: bool ::
          voter in VerdictBy(r, accept) <==> exists e :: e in done && Votes(e, voter, accept))
    && (!r.provisionalOutcome.Unset? <==> exists e :: e in done && Provides(e, r))
    && (r.challenged <==> exists e :: e in done && Challenges(e, r))
  }

  // -------------------------------------------------------------------- calls

  /** Settling actions touches neither the gate nor the ruling. */
  lemma {:induction false} DrainKeepsGate(m: Market, now: Uint64, epoch: Uint64, count: nat)
    requires Drain(m, now, epoch, count).Ok?
    ensures
      var n := Drain(m, now, epoch, count).value;
      n.gate == m.gate && n.ruling == m.ruling && n.config == m.config
    decreases count
  {
    hide TryExecute, Refund;
    if count != 0 {
      DrainKeepsGate(SettleNext(m, now, epoch).value, now, epoch, count - 1);
    }
  }

  lemma OthersKeepGate(m: Market, msg: Msg, call: Call)
    requires Apply(m, msg, call).Ok?
    ensures
      var n := Apply(m, msg, call).value;
      && n.config == m.config
      && (!IsGateCall(call) ==> n.gate == m.gate)
      && (!call.AttestCall? && !call.ChallengeCall? && !call.VerdictCall? ==>
            n.ruling == m.ruling.(finalOutcome := n.ruling.finalOutcome, challengeBond := n.ruling.challengeBond))
  {
    hide Pay, ClaimLpFees, RedeemPositions, SettleLpInventory, PayWinnerReward, RefundWinnerFee, CurrentEpoch,
      RequireTrader, RequireActionWindow, DebitPosition, WinnerReward, Drain, Receive, Attested, Voted;
    if call.ProcessCall? && 0 < Remaining(m.queue, call.epoch) && call.maximum != 0 {
      DrainKeepsGate(m, msg.now, call.epoch, Min(call.maximum, Remaining(m.queue, call.epoch)));
    }
  }

  /** What a gate call does to the gate. */
  ghost predicate GateMoves(g: Gate, e: Event, c: Config, h: Gate) {
    match e.call
    case MarkSafeCall(epoch, sequence) =>
      && epoch !in g.epochSafe
      && h == g.(epochSafe := g.epochSafe + {epoch}, epochSafeSequence := g.epochSafeSequence[epoch := sequence],
                 lastSafeSequence := sequence)
    case SuspendCall(_) => g.state.Open? && h == g.(state := Suspended)
    case ReopenCall(sequence) => g.state.Suspended? && h == g.(state := Open, lastSafeSequence := sequence)
    case CloseCall(sequence) =>
      && !g.state.Closed?
      && h == g.(state := Closed, closedAt := e.msg.now, closedEpoch := e.msg.now / c.epochDuration,
                 decisiveSequence := sequence, resolutionDueAt := (e.msg.now + 1800) % TWO_64)
    case _ => h == g
  }

  lemma CallMovesGate(m: Market, e: Event)
    requires Apply(m, e.msg, e.call).Ok?
    ensures GateMoves(m.gate, e, m.config, Apply(m, e.msg, e.call).value.gate)
  {
    OthersKeepGate(m, e.msg, e.call);
    if !IsGateCall(e.call) {
      hide Apply;
    }
  }

  lemma LastOf(done: seq<Event>, e: Event)
    ensures LastState(done + [e])
         == match e.call
            case SuspendCall(_) => Suspended case ReopenCall(_) => Open case CloseCall(_) => Closed
            case _ => LastState(done)
    ensures LastSequence(done + [e])
         == match e.call
            case MarkSafeCall(_, sequence) => sequence case ReopenCall(sequence) => sequence
            case _ => LastSequence(done)
    ensures forall d :: d in done + [e] <==> d in done || d == e
  {
    assert (done + [e])[..|done + [e]| - 1] == done;
  }

  /** Epochs cleared before stay cleared by the same call. */
  lemma MovesKeepClearing(g: Gate, e: Event, c: Config, h: Gate, done: seq<Event>)
    requires GateFollows(g, c, done) && GateMoves(g, e, c, h)
    ensures forall epoch: Uint64 :: epoch in h.epochSafe <==> exists d :: d in done + [e] && Clears(d, epoch, h)
  {
    hide LastState, LastSequence;
    LastOf(done, e);
    forall epoch: Uint64
      ensures epoch in h.epochSafe <==> exists d :: d in done + [e] && Clears(d, epoch, h)
    {
      if e.call.MarkSafeCall? && epoch == e.call.epoch {
        assert e in done + [e] && Clears(e, epoch, h);
      } else {
        assert forall d :: d in done ==> (Clears(d, epoch, g) <==> Clears(d, epoch, h));
        assert !Clears(e, epoch, h);
        if d :| d in done && Clears(d, epoch, g) {
          assert d in done + [e] && Clears(d, epoch, h);
        }
      }
    }
  }

  lemma MovesKeepClosing(g: Gate, e: Event, c: Config, h: Gate, done: seq<Event>)
    requires GateFollows(g, c, done) && GateMoves(g, e, c, h)
    ensures h.state.Closed? <==> exists d :: d in done + [e] && Closes(d, h, c)
  {
    hide LastState, LastSequence;
    LastOf(done, e);
    if e.call.CloseCall? {
      assert e in done + [e] && Closes(e, h, c);
    } else {
      assert forall d :: Closes(d, g, c) <==> Closes(d, h, c);
      if d :| d in done && Closes(d, g, c) {
        assert d in done + [e] && Closes(d, h, c);
      }
    }
  }

  lemma MovesFollow(g: Gate, e: Event, c: Config, h: Gate, done: seq<Event>)
    requires GateFollows(g, c, done) && GateMoves(g, e, c, h)
    ensures GateFollows(h, c, done + [e])
  {
    hide Clears, Closes, LastState, LastSequence;
    MovesKeepClearing(g, e, c, h, done);
    MovesKeepClosing(g, e, c, h, done);
    LastOf(done, e);
  }

  /** What a call does to the votes, the provisional result and the challenge. */
  ghost predicate VotesMove(r: Ruling, e: Event, q: Ruling) {
    match e.call
    case AttestCall(outcome, evidence) =>
      && r.provisionalOutcome.Unset? && !outcome.Unset?
      && q.verdictBy == r.verdictBy && SameChallenge(r, q)
      && q.attestedBy == r.attestedBy[(outcome, evidence) := AttestedBy(r, (outcome, evidence)) + {e.msg.sender}]
      && (if q.provisionalOutcome.Unset? then SameResult(r, q) else Provides(e, q))
    case VerdictCall(accept) =>
      && q.attestedBy == r.attestedBy && SameResult(r, q) && SameChallenge(r, q)
      && q.verdictBy == r.verdictBy[accept := VerdictBy(r, accept) + {e.msg.sender}]
    case ChallengeCall(_, _) =>
      && q.attestedBy == r.attestedBy && q.verdictBy == r.verdictBy && SameResult(r, q)
      && q.challenged && Challenges(e, q)
    case _ => q.attestedBy == r.attestedBy && q.verdictBy == r.verdictBy && SameResult(r, q) && SameChallenge(r, q)
  }

  predicate SameResult(r: Ruling, q: Ruling) {
    && q.provisionalOutcome == r.provisionalOutcome && q.provisionalEvidence == r.provisionalEvidence
    && q.provisionalAt == r.provisionalAt
  }

  predicate SameChallenge(r: Ruling, q: Ruling) {
    && q.challenged == r.challenged && q.challenger == r.challenger
    && q.challengeEvidence == r.challengeEvidence && q.challengedAt == r.challengedAt
  }

  lemma CallMovesVotes(m: Market, e: Event)
    requires Apply(m, e.msg, e.call).Ok?
    ensures VotesMove(m.ruling, e, Apply(m, e.msg, e.call).value.ruling)
  {
    OthersKeepGate(m, e.msg, e.call);
    if !e.call.AttestCall? && !e.call.ChallengeCall? && !e.call.VerdictCall? {
      hide Apply;
    } else {
      hide Pay, Receive;
    }
  }

  lemma MovesKeepAttestations(r: Ruling, e: Event, q: Ruling, done: seq<Event>, voter: Address, key: Verdict)
    requires VotesFollow(r, done) && VotesMove(r, e, q)
    ensures voter in AttestedBy(q, key) <==> exists d :: d in done + [e] && Attests(d, voter, key)
  {
    LastOf(done, e);
    if Attests(e, voter, key) {
      assert e in done + [e];
    } else {
      assert voter in AttestedBy(q, key) <==> voter in AttestedBy(r, key);
      if d :| d in done && Attests(d, voter, key) {
        assert d in done + [e];
      }
    }
  }

  lemma MovesKeepVerdicts(r: Ruling, e: Event, q: Ruling, done: seq<Event>, voter: Address, accept: bool)
    requires VotesFollow(r, done) && VotesMove(r, e, q)
    ensures voter in VerdictBy(q, accept) <==> exists d :: d in done + [e] && Votes(d, voter, accept)
  {
    LastOf(done, e);
    if Votes(e, voter, accept) {
      assert e in done + [e];
    } else {
      assert voter in VerdictBy(q, accept) <==> voter in VerdictBy(r, accept);
      if d :| d in done && Votes(d, voter, accept) {
        assert d in done + [e];
      }
    }
  }

  lemma MovesKeepResult(r: Ruling, e: Event, q: Ruling, done: seq<Event>)
    requires VotesFollow(r, done) && VotesMove(r, e, q)
    ensures !q.provisionalOutcome.Unset? <==> exists d :: d in done + [e] && Provides(d, q)
    ensures q.challenged <==> exists d :: d in done + [e] && Challenges(d, q)
  {
    LastOf(done, e);
    if e.call.AttestCall? && !q.provisionalOutcome.Unset? {
      assert e in done + [e] && Provides(e, q);
    } else if SameResult(r, q) {
      assert forall d :: Provides(d, r) <==> Provides(d, q);
      if d :| d in done && Provides(d, r) {
        assert d in done + [e] && Provides(d, q);
      }
    }
    if e.call.ChallengeCall? {
      assert e in done + [e] && Challenges(e, q);
    } else {
      assert forall d :: Challenges(d, r) <==> Challenges(d, q);
      if d :| d in done && Challenges(d, r) {
        assert d in done + [e] && Challenges(d, q);
      }
    }
  }

  lemma VotesStillFollow(r: Ruling, e: Event, q: Ruling, done: seq<Event>)
    requires VotesFollow(r, done) && VotesMove(r, e, q)
    ensures VotesFollow(q, done + [e])
  {
    hide Attests, Votes, Provides, Challenges, VotesMove, AttestedBy, VerdictBy;
    forall voter: Address, key: Verdict
      ensures voter in AttestedBy(q, key) <==> exists d :: d in done + [e] && Attests(d, voter, key)
    {
      MovesKeepAttestations(r, e, q, done, voter, key);
    }
    forall voter: Address, accept: bool
      ensures voter in VerdictBy(q, accept) <==> exists d :: d in done + [e] && Votes(d, voter, accept)
    {
      MovesKeepVerdicts(r, e, q, done, voter, accept);
    }
    MovesKeepResult(r, e, q, done);
  }

  // --------------------------------------------------------------------- runs

  lemma {:induction false} RunFollows(m: Market, done: seq<Event>, events: seq<Event>)
    requires GateFollows(m.gate, m.config, done) && VotesFollow(m.ruling, done)
    ensures
      var n := Run(m, events);
      && n.config == m.config
      && GateFollows(n.gate, m.config, done + Accepted(m, events)) && VotesFollow(n.ruling, done + Accepted(m, events))
    decreases |events|
  {
    hide Apply, GateFollows, VotesFollow;
    if events == [] {
      assert done + Accepted(m, events) == done;
    } else {
      var e := events[0];
      var next, rest := Step(m, e.msg, e.call), Accepted(Step(m, e.msg, e.call), events[1..]);
      if Apply(m, e.msg, e.call).Ok? {
        OthersKeepGate(m, e.msg, e.call);
        CallMovesGate(m, e);
        MovesFollow(m.gate, e, m.config, next.gate, done);
        CallMovesVotes(m, e);
        VotesStillFollow(m.ruling, e, next.ruling, done);
        RunFollows(next, done + [e], events[1..]);
        assert (done + [e]) + rest == done + Accepted(m, events);
      } else {
        RunFollows(next, done, events[1..]);
        assert [] + rest == rest;
      }
    }
  }

  /** Over every run the gate says what the accepted gate calls said: its state is that of
      the last suspension, reopening or closing, its sequence that of the last clearing
      or reopening; exactly the epochs marked safe are cleared, with their sequences; and
      a closing records its own time, epoch and sequence and the deadline for a result.
      Exactly those resolvers have attested or voted whose calls were accepted; and what
      is provisional or challenged became so by one of those calls, at its time. */
  lemma StateFollowsCalls(c: Config, additional: set<Address>, events: seq<Event>)
    ensures
      var m := Reached(c, additional, events);
      var done := Accepted(NewMarket(c, additional), events);
      GateFollows(m.gate, c, done) && VotesFollow(m.ruling, done)
  {
    hide Run, Accepted;
    var m := NewMarket(c, additional);
    var done := Accepted(m, events);
    RunFollows(m, [], events);
    assert [] + done == done;
  }
}
