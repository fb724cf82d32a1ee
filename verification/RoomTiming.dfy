/** The clock of a room, counted from the calls that start it: the stall of its gate, its
    closing and its claims, over every run. */
module RoomTiming {
  import opened Prelude
  import opened Market
  import opened Room
  import opened RoomInvariant
  import opened RoomRuns
  import opened RoomBonds

  // -------------------------------------------------------------------- stall

  /** The calls by which a gate shows that it is alive. */
  predicate IsGateAction(call: RoomCall) {
    || call.MarkEpochsSafeCall? || call.SuspendRoomCall? || call.ReopenRoomCall? || call.CloseSlotsCall?
    || call.CloseRoomCall?
  }

  /** When the last gate action of a run was accepted, or `t` if none was. */
  function LatestGateAction(r: Room, t: Uint64, events: seq<RoomEvent>): Uint64
    decreases |events|
  {
    if events == [] then t
    else
      var e := events[0];
      var acted := IsGateAction(e.call) && ApplyRoom(r, e.sender, e.now, e.call).Ok?;
      LatestGateAction(StepRoom(r, e.sender, e.now, e.call), if acted then e.now else t, events[1..])
  }

  lemma CallMovesStall(r: Room, sender: Address, now: Uint64, call: RoomCall)
    requires ApplyRoom(r, sender, now, call).Ok?
    ensures
      var w := ApplyRoom(r, sender, now, call).value.watch;
      w.lastGateActivityAt == if IsGateAction(call) then now else r.watch.lastGateActivityAt
  {
    hide CallEach, CloseEach, FromRoom, ParticipantsReady, PostBond, ClaimBond, FileClaim, AdjudicateClaim,
      ExpireClaim, ValidatePermit, ValidateRequest, NewMarket, ConfigOk, Apply, SlotConfig, RoomRestricted, AddOpen;
  }

  lemma {:induction false} RunMovesStall(r: Room, t: Uint64, events: seq<RoomEvent>)
    requires r.watch.lastGateActivityAt == t
    ensures RunRoom(r, events).watch.lastGateActivityAt == LatestGateAction(r, t, events)
    decreases |events|
  {
    hide ApplyRoom, IsGateAction;
    if events != [] {
      var e := events[0];
      if ApplyRoom(r, e.sender, e.now, e.call).Ok? {
        CallMovesStall(r, e.sender, e.now, e.call);
      }
      RunMovesStall(StepRoom(r, e.sender, e.now, e.call),
                    if IsGateAction(e.call) && ApplyRoom(r, e.sender, e.now, e.call).Ok? then e.now else t,
                    events[1..]);
    }
  }

  /** Anyone can close a room for a stall exactly while it is open and from the stall
      timeout after the last accepted gate action on, or after its creation. */
  lemma StallClosesIff(c: RoomConfig, start: Uint64, events: seq<RoomEvent>, now: Uint64)
    requires RoomConfigOk(c) && Plausible(c, start, events)
    ensures
      var r := ReachedRoom(c, start, events);
      CloseRoomOnGateStall(r, now).Ok?
      <==> && r.watch.roomClosedSequence == 0
           && LatestGateAction(NewRoom(c, start), start, events) + c.gateStallTimeout <= now
  {
    hide RunRoom, LatestGateAction;
    RoomReachable(c, start, events);
    RunMovesStall(NewRoom(c, start), start, events);
  }

  lemma {:induction false} LatestIsLater(r: Room, t: Uint64, events: seq<RoomEvent>)
    requires Plausible(r.config, t, events)
    ensures t <= LatestGateAction(r, t, events)
    decreases |events|
  {
    hide ApplyRoom, IsGateAction;
    if events != [] {
      var e := events[0];
      var next := StepRoom(r, e.sender, e.now, e.call);
      SameRules(r, e.sender, e.now, e.call);
      if IsGateAction(e.call) && ApplyRoom(r, e.sender, e.now, e.call).Ok? {
        LatestIsLater(next, e.now, events[1..]);
      } else {
        PlausibleFrom(r.config, t, e.now, events[1..]);
        LatestIsLater(next, t, events[1..]);
      }
    }
  }

  lemma PlausibleFrom(c: RoomConfig, t: Uint64, now: Uint64, events: seq<RoomEvent>)
    requires t <= now && Plausible(c, now, events)
    ensures Plausible(c, t, events)
  {
  }

  /** A gate that acts is not closed out: after an accepted gate action no stall close is
      accepted before the stall timeout has run from it, whatever happens in between. */
  lemma GateActionHoldsStall(c: RoomConfig, start: Uint64, events: seq<RoomEvent>, e: RoomEvent, more: seq<RoomEvent>,
                             now: Uint64)
    requires RoomConfigOk(c) && Plausible(c, start, events) && IsGateAction(e.call)
    requires Plausible(c, e.now, more)
    ensures
      var acted := ApplyRoom(ReachedRoom(c, start, events), e.sender, e.now, e.call);
      acted.Ok? && now < e.now + c.gateStallTimeout ==> CloseRoomOnGateStall(RunRoom(acted.value, more), now).Revert?
  {
    hide ReachedRoom, RunRoom, ApplyRoom, LatestGateAction, RoomInv, SlotsEvolve;
    RoomReachable(c, start, events);
    var r := ReachedRoom(c, start, events);
    if ApplyRoom(r, e.sender, e.now, e.call).Ok? {
      var n := ApplyRoom(r, e.sender, e.now, e.call).value;
      CallMovesStall(r, e.sender, e.now, e.call);
      ApplyRoomEvolves(r, e.sender, e.now, e.call);
      RunMovesStall(n, e.now, more);
      LatestIsLater(n, e.now, more);
      RunRoomEvolves(n, more);
    }
  }

  // ---------------------------------------------------------------- watermark

  /** The sequence up to which the room has observed its source: the last one that the
      gate gave in an accepted call or a publication permit; its closing counts as one
      more than that when it gives less. */
  function LatestSequence(r: Room, last: nat, events: seq<RoomEvent>): nat
    decreases |events|
  {
    if events == [] then last
    else
      var e := events[0];
      var accepted := ApplyRoom(r, e.sender, e.now, e.call).Ok?;
      LatestSequence(StepRoom(r, e.sender, e.now, e.call), if accepted then SequenceAfter(last, e.call) else last,
                     events[1..])
  }

  function SequenceAfter(last: nat, call: RoomCall): nat {
    match call
    case PublishCall(_, permit, _, _) => permit.undecidedThroughSequence
    case MarkEpochsSafeCall(sequence, _, _) => sequence
    case SuspendRoomCall(sequence) => sequence
    case ReopenRoomCall(sequence) => sequence
    case CloseSlotsCall(sequence, _) => sequence
    case CloseRoomCall(sequence) => if last < sequence then sequence else last + 1
    case _ => last
  }

  lemma CallMovesWatermark(r: Room, sender: Address, now: Uint64, call: RoomCall)
    requires ApplyRoom(r, sender, now, call).Ok?
    ensures
      var w := ApplyRoom(r, sender, now, call).value.watch;
      && r.watch.lastObservedSequence <= w.lastObservedSequence == SequenceAfter(r.watch.lastObservedSequence, call)
      && w.roomClosedSequence == (if call.CloseRoomCall? then SequenceAfter(r.watch.lastObservedSequence, call)
                                  else if call.StallCloseCall? then r.watch.lastObservedSequence + 1
                                  else r.watch.roomClosedSequence)
      && w.closedByStall == (call.StallCloseCall? || r.watch.closedByStall)
  {
    hide CallEach, CloseEach, FromRoom, ParticipantsReady, PostBond, ClaimBond, FileClaim, AdjudicateClaim,
      ExpireClaim, ValidateRequest, NewMarket, ConfigOk, Apply, SlotConfig, RoomRestricted, AddOpen;
  }

  lemma {:induction false} RunMovesWatermark(r: Room, events: seq<RoomEvent>)
    ensures RunRoom(r, events).watch.lastObservedSequence == LatestSequence(r, r.watch.lastObservedSequence, events)
    decreases |events|
  {
    hide ApplyRoom, SequenceAfter;
    if events != [] {
      var e := events[0];
      if ApplyRoom(r, e.sender, e.now, e.call).Ok? {
        CallMovesWatermark(r, e.sender, e.now, e.call);
      }
      RunMovesWatermark(StepRoom(r, e.sender, e.now, e.call), events[1..]);
    }
  }

  /** The watermark is exactly what the gate has said last, and no accepted call takes it
      back. */
  lemma WatermarkIs(c: RoomConfig, start: Uint64, events: seq<RoomEvent>, e: RoomEvent)
    ensures
      var r := ReachedRoom(c, start, events);
      && r.watch.lastObservedSequence == LatestSequence(NewRoom(c, start), 0, events)
      && (ApplyRoom(r, e.sender, e.now, e.call).Ok? ==>
            r.watch.lastObservedSequence <= SequenceAfter(r.watch.lastObservedSequence, e.call))
  {
    hide RunRoom, LatestSequence, ApplyRoom, SequenceAfter;
    RunMovesWatermark(NewRoom(c, start), events);
    var r := ReachedRoom(c, start, events);
    if ApplyRoom(r, e.sender, e.now, e.call).Ok? {
      CallMovesWatermark(r, e.sender, e.now, e.call);
    }
  }

  /** An open room was not closed for a stall. */
  lemma {:induction false} RunRecordsStall(r: Room, events: seq<RoomEvent>)
    requires r.watch.closedByStall ==> r.watch.roomClosedSequence != 0
    ensures RunRoom(r, events).watch.closedByStall ==> RunRoom(r, events).watch.roomClosedSequence != 0
    decreases |events|
  {
    hide ApplyRoom, SequenceAfter;
    if events != [] {
      var e := events[0];
      if ApplyRoom(r, e.sender, e.now, e.call).Ok? {
        CallMovesWatermark(r, e.sender, e.now, e.call);
        SequenceIsPositive(r.watch.lastObservedSequence, e.call);
      }
      RunRecordsStall(StepRoom(r, e.sender, e.now, e.call), events[1..]);
    }
  }

  lemma SequenceIsPositive(last: nat, call: RoomCall)
    ensures call.CloseRoomCall? ==> 0 < SequenceAfter(last, call)
  {
  }

  // ------------------------------------------------------------------ closing

  /** From the closing of a room at some time on, by its gate or for a stall, and
      whatever happens: claims can be filed, against participants with a bond, exactly
      until the claim window from that time is over, and no bond is claimed before. The
      closing sequence is the gate's, raised to one above the watermark where it is not
      above it, and one above the watermark after a stall. */
  lemma AfterRoomClosing(c: RoomConfig, start: Uint64, events: seq<RoomEvent>, e: RoomEvent, more: seq<RoomEvent>,
                         sender: Address, now: Uint64, participant: Address, code: nat, evidence: nat)
    requires RoomConfigOk(c) && Plausible(c, start, events) && (e.call.CloseRoomCall? || e.call.StallCloseCall?)
    ensures
      var r := ReachedRoom(c, start, events);
      var closed := ApplyRoom(r, e.sender, e.now, e.call);
      closed.Ok? ==>
        var n := RunRoom(closed.value, more);
        && n.watch == closed.value.watch && n.watch.closedByStall == e.call.StallCloseCall?
        && n.watch.roomClosedSequence
           == (if e.call.CloseRoomCall? && r.watch.lastObservedSequence < e.call.sequence then e.call.sequence
               else r.watch.lastObservedSequence + 1)
        && (FileClaim(c, n.watch, n.deposits, sender, now, participant, code, evidence).Ok?
            <==> && (participant == c.participantA || participant == c.participantB)
                 && code != 0 && evidence != 0
                 && now < e.now + c.integrityClaimWindow && Get(n.deposits.integrityBondOf, participant) != 0)
        && (now < e.now + c.integrityClaimWindow ==> ClaimBond(n, sender, now).Revert?)
  {
    hide ReachedRoom, RunRoom, RoomInv, SlotsEvolve, AllFinal;
    RoomReachable(c, start, events);
    var r := ReachedRoom(c, start, events);
    RunRecordsStall(NewRoom(c, start), events);
    assert r.watch.closedByStall ==> r.watch.roomClosedSequence != 0 by {
      ReachedIs(c, start, events);
    }
    if ApplyRoom(r, e.sender, e.now, e.call).Ok? {
      RunRoomEvolves(ApplyRoom(r, e.sender, e.now, e.call).value, more);
    }
  }

  lemma ReachedIs(c: RoomConfig, start: Uint64, events: seq<RoomEvent>)
    ensures ReachedRoom(c, start, events) == RunRoom(NewRoom(c, start), events)
  {
  }

  // ------------------------------------------------------------------- claims

  /** From the filing of a claim at some time on, and whatever happens: the claim is the
      claimant's and against that participant; while it is open the adjudicator can
      decide it exactly until the timeout from that time, which must end within the
      clock, and anyone can expire it exactly from then on. Filing takes 10 USDC. */
  lemma AfterClaim(c: RoomConfig, start: Uint64, events: seq<RoomEvent>, e: RoomEvent, more: seq<RoomEvent>,
                   sender: Address, now: Uint64, uphold: bool)
    requires RoomConfigOk(c) && Plausible(c, start, events) && RoomEnd(start, events) <= e.now && e.sender != c.self
    requires e.call.FileClaimCall? && Plausible(c, e.now, more) && RoomEnd(e.now, more) <= now
    ensures
      var r := ReachedRoom(c, start, events);
      var filed, id := ApplyRoom(r, e.sender, e.now, e.call), |r.deposits.claims|;
      filed.Ok? ==>
        var n := RunRoom(filed.value, more);
        && filed.value.deposits.purse.held == r.deposits.purse.held + 10_000_000
        && id < |n.deposits.claims|
        && var claim := n.deposits.claims[id];
        && claim.claimant == e.sender && claim.participant == e.call.participant
        && (AdjudicateClaim(c, n.deposits, sender, now, id, uphold).Ok?
            <==> && sender == c.integrityAdjudicator && claim.status.Outstanding?
                 && now < e.now + c.integrityClaimTimeout < TWO_64)
        && (ExpireClaim(c, n.deposits, now, id).Ok?
            <==> claim.status.Outstanding? && e.now + c.integrityClaimTimeout <= now)
  {
    hide ReachedRoom, RunRoom, RoomInv, ClaimsEvolve, AdjudicateClaim, ExpireClaim;
    RoomReachable(c, start, events);
    var r := ReachedRoom(c, start, events);
    RoomLater(r, RoomEnd(start, events), e.now);
    if ApplyRoom(r, e.sender, e.now, e.call).Ok? {
      var filed := ApplyRoom(r, e.sender, e.now, e.call).value;
      ApplyRoomKeeps(r, e.sender, e.now, e.call);
      RunRoomKeeps(filed, e.now, more);
      var n := RunRoom(filed, more);
      SameRulesOverRun(filed, more);
      RoomLater(n, RoomEnd(e.now, more), now);
      RunEvolvesClaims(filed, more);
      ClaimKept(filed.deposits.claims, n.deposits.claims, |r.deposits.claims|);
      DecisionIff(n, sender, now, |r.deposits.claims|, uphold);
      SoundDeposits(n, now);
      ClaimExpiredOk(n.deposits, c, n.watch, now, |r.deposits.claims|);
    }
  }

  lemma SameRulesOverRun(r: Room, events: seq<RoomEvent>)
    ensures RunRoom(r, events).config == r.config
  {
    hide RunRoom, SlotsEvolve;
    RunRoomEvolves(r, events);
  }

  lemma ClaimKept(a: seq<IntegrityClaim>, b: seq<IntegrityClaim>, id: nat)
    requires ClaimsEvolve(a, b) && id < |a|
    ensures id < |b| && b[id] == a[id].(status := b[id].status)
  {
  }
}
