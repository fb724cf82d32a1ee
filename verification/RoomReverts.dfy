/** Exactly which room calls fail on arithmetic, and what becomes of a room whose
    periods end beyond the 64-bit clock. */
module RoomReverts {
  import opened Prelude
  import opened Market
  import opened MarketInvariant
  import opened Reverts
  import opened Room
  import opened RoomInvariant
  import opened RoomRuns
  import opened RoomTheorems

  /** There is no such claim, or it is open and its timeout ends beyond the clock. */
  predicate BadClaim(r: Room, id: nat) {
    id < |r.deposits.claims| ==>
      && r.deposits.claims[id].status.Outstanding?
      && TWO_64 <= r.deposits.claims[id].filedAt + r.config.integrityClaimTimeout
  }

  /** The room calls that fail on arithmetic: publishing a slot that would open
      beyond the 64-bit clock, and deciding or expiring a claim that does not exist
      or whose timeout ends beyond it; and the calls on a slot that do. */
  ghost predicate RoomPanics(r: Room, e: RoomEvent) {
    match e.call
    case PublishCall(request, permit, signer, restricted) =>
      && e.sender == r.config.publisher && r.watch.roomClosedSequence == 0 && ParticipantsReady(r.config, r.deposits)
      && ValidatePermit(r, e.now, request, permit, signer, restricted).Ok? && ValidateRequest(r, request).Ok?
      && TWO_64 <= e.now + request.announceDelay
    case AdjudicateCall(id, _) => e.sender == r.config.integrityAdjudicator && BadClaim(r, id)
    case ExpireClaimCall(id) => BadClaim(r, id)
    case SlotCall(slot, call) =>
      slot < |r.slots| && Panics(r.slots[slot], Msg(e.sender, e.now, ParticipantsReady(r.config, r.deposits)), call)
    case _ => false
  }

  /** In every reachable room no call fails for lack of tokens, and a call, on the room
      or on a slot, fails on arithmetic exactly where RoomPanics says. */
  lemma NoUnexpectedRoomReverts(c: RoomConfig, start: Uint64, events: seq<RoomEvent>, e: RoomEvent)
    requires RoomConfigOk(c) && Plausible(c, start, events) && RoomEnd(start, events) <= e.now
    ensures
      var r := ReachedRoom(c, start, events);
      var n := ApplyRoom(r, e.sender, e.now, e.call);
      && n != Revert(TransferFailed)
      && (n == Revert(Panic) <==> RoomPanics(r, e))
  {
    hide ReachedRoom, RoomInv, CallEach, CloseEach, ParticipantsReady, AllFinal, NewMarket, ConfigOk, ValidatePermit,
      ValidateRequest, AdjudicateClaim, ExpireClaim, ClaimBond, CallSlot, Panics, BadClaim;
    RoomReachable(c, start, events);
    var r := ReachedRoom(c, start, events);
    RoomLater(r, RoomEnd(start, events), e.now);
    match e.call
    case PublishCall(request, permit, signer, restricted) =>
      PermitReverts(r, e.now, request, permit, signer, restricted);
    case AdjudicateCall(id, uphold) => AdjudicationReverts(r, e.sender, e.now, id, uphold);
    case ExpireClaimCall(id) => ExpiryReverts(r, e.now, id);
    case ClaimRoomBondCall => BondReverts(r, e.sender, e.now);
    case SlotCall(slot, call) => SlotReverts(r, e.sender, e.now, slot, call);
    case PostRoomBondCall =>
    case FileClaimCall(_, _, _) =>
    case _ => BatchReverts(r, e);
  }

  lemma SlotReverts(r: Room, sender: Address, now: Uint64, slot: nat, call: Call)
    requires RoomInv(r, now)
    ensures
      var n := CallSlot(r, sender, now, slot, call);
      && n != Revert(TransferFailed)
      && (n == Revert(Panic) <==>
            slot < |r.slots| && Panics(r.slots[slot], Msg(sender, now, ParticipantsReady(r.config, r.deposits)), call))
  {
    hide Inv, OpenOk, DepositsOk, Apply, Panics, ParticipantsReady;
    if slot < |r.slots| {
      assert SlotOk(r.slots[slot], r.config, r.watch, now);
      PanicsIff(r.slots[slot], Msg(sender, now, ParticipantsReady(r.config, r.deposits)), call);
    }
  }

  lemma PermitReverts(r: Room, now: Uint64, request: SlotRequest, permit: PublicationPermit, signer: Address,
                      restricted: seq<Address>)
    ensures ValidatePermit(r, now, request, permit, signer, restricted).Revert? ==>
      ValidatePermit(r, now, request, permit, signer, restricted).error !in {Panic, TransferFailed}
    ensures ValidateRequest(r, request).Revert? ==> ValidateRequest(r, request).error !in {Panic, TransferFailed}
  {
    hide HasLiquidity;
  }

  lemma AdjudicationReverts(r: Room, sender: Address, now: Uint64, id: nat, uphold: bool)
    requires RoomInv(r, now)
    ensures
      var n := AdjudicateClaim(r.config, r.deposits, sender, now, id, uphold);
      && n != Revert(TransferFailed)
      && (n == Revert(Panic) <==> sender == r.config.integrityAdjudicator && BadClaim(r, id))
  {
    hide SlotsOk, OpenOk, Sum, OpenClaims, OpenAgainst, SettleClaim;
    var d := r.deposits;
    if id < |d.claims| && d.claims[id].status.Outstanding? {
      ClaimSettles(d, r.config, r.watch, now, id, if uphold then Upheld else Rejected);
      BondInPurse(d, r.config, r.watch, now, d.claims[id].participant);
    }
  }

  lemma ExpiryReverts(r: Room, now: Uint64, id: nat)
    requires RoomInv(r, now)
    ensures
      var n := ExpireClaim(r.config, r.deposits, now, id);
      && n != Revert(TransferFailed)
      && (n == Revert(Panic) <==> BadClaim(r, id))
  {
    hide SlotsOk, OpenOk, Sum, OpenClaims, OpenAgainst, SettleClaim;
    var d := r.deposits;
    if id < |d.claims| && d.claims[id].status.Outstanding? {
      ClaimSettles(d, r.config, r.watch, now, id, Expired);
    }
  }

  lemma BondReverts(r: Room, sender: Address, now: Uint64)
    requires RoomInv(r, now)
    ensures ClaimBond(r, sender, now) != Revert(TransferFailed) && ClaimBond(r, sender, now) != Revert(Panic)
  {
    hide SlotsOk, OpenOk, Sum, OpenClaims, OpenAgainst, AllFinal;
    BondInPurse(r.deposits, r.config, r.watch, now, sender);
  }

  predicate Expected(n: Result<Room>) {
    n.Revert? ==> n.error !in {Panic, TransferFailed}
  }

  lemma BatchReverts(r: Room, e: RoomEvent)
    requires RoomInv(r, e.now)
    requires e.call.MarkEpochsSafeCall? || e.call.SuspendRoomCall? || e.call.ReopenRoomCall? || e.call.CloseSlotsCall?
             || e.call.CloseRoomCall? || e.call.StallCloseCall? || e.call.CloseRemainingCall? || e.call.ProcessRoomCall?
    ensures Expected(ApplyRoom(r, e.sender, e.now, e.call))
  {
    hide RoomInv, MarkRoomEpochsSafe, SuspendRoom, ReopenRoom, CloseSlots, CloseRemainingSlots, ProcessRoom;
    match e.call
    case MarkEpochsSafeCall(s, markets, epochs) => ListedCallsRevert(r, e.sender, e.now, s, markets, epochs);
    case SuspendRoomCall(s) => GatedCallsRevert(r, e.sender, e.now, s);
    case ReopenRoomCall(s) => GatedCallsRevert(r, e.sender, e.now, s);
    case CloseSlotsCall(s, markets) => ClosingCallsRevert(r, e.sender, e.now, s, markets);
    case CloseRemainingCall(markets) => ClosingCallsRevert(r, e.sender, e.now, 0, markets);
    case ProcessRoomCall(markets, epochs, maximum) => ProcessingReverts(r, e.now, markets, epochs, maximum);
    case _ =>
  }

  lemma ListedCallsRevert(r: Room, sender: Address, now: Uint64, s: nat, markets: seq<nat>, epochs: seq<Uint64>)
    requires RoomInv(r, now)
    ensures Expected(MarkRoomEpochsSafe(r, sender, now, s, markets, epochs))
  {
    hide OpenOk, SlotsOk, DepositsOk, CallEach, ParticipantsReady, RoomConfigOk;
    if |markets| == |epochs| && AdvanceSequence(r.watch, now, s).Ok? {
      WatchRaised(r, now, s);
      CallEachOk(r.slots, r.config, AdvanceSequence(r.watch, now, s).value, FromRoom(r, now),
                 MarkSafeCalls(s, markets, epochs));
    }
  }

  lemma GatedCallsRevert(r: Room, sender: Address, now: Uint64, s: nat)
    requires RoomInv(r, now)
    ensures Expected(SuspendRoom(r, sender, now, s)) && Expected(ReopenRoom(r, sender, now, s))
  {
    hide RoomInv, CallEach, FromRoom;
    GatedBatch(r, now, s, SuspendCall(s));
    GatedBatch(r, now, s, ReopenCall(s));
  }

  lemma ClosingCallsRevert(r: Room, sender: Address, now: Uint64, s: nat, markets: seq<nat>)
    requires RoomInv(r, now)
    ensures Expected(CloseSlots(r, sender, now, s, markets)) && Expected(CloseRemainingSlots(r, now, markets))
  {
    hide OpenOk, SlotsOk, DepositsOk, CloseEach, ParticipantsReady, RoomConfigOk;
    CloseEachOk(r.slots, r.open, r.config, r.watch, FromRoom(r, now), s, markets);
    CloseEachOk(r.slots, r.open, r.config, r.watch, FromRoom(r, now), r.watch.roomClosedSequence, markets);
  }

  lemma ProcessingReverts(r: Room, now: Uint64, markets: seq<nat>, epochs: seq<Uint64>, maximum: nat)
    requires RoomInv(r, now)
    ensures Expected(ProcessRoom(r, now, markets, epochs, maximum))
  {
    hide OpenOk, SlotsOk, DepositsOk, CallEach, ParticipantsReady, RoomConfigOk;
    if |markets| == |epochs| {
      CallEachOk(r.slots, r.config, r.watch, FromRoom(r, now), ProcessCalls(markets, epochs, maximum));
    }
  }

  // ------------------------------------------------------ beyond the clock

  lemma {:induction false} CallEachKeepsStranded(slots: seq<Market>, msg: Msg, calls: seq<(nat, Call)>, slot: nat)
    requires slot < |slots| && Stranded(slots[slot]) && CallEach(slots, msg, calls).Ok?
    ensures |CallEach(slots, msg, calls).value| == |slots| && Stranded(CallEach(slots, msg, calls).value[slot])
    decreases |calls|
  {
    hide Step, Stranded;
    if calls != [] {
      var (touched, call) := calls[0];
      StepKeepsStranded(slots[slot], msg, call);
      CallEachKeepsStranded(slots[touched := Step(slots[touched], msg, call)], msg, calls[1..], slot);
    }
  }

  lemma {:induction false} CloseEachKeepsStranded(slots: seq<Market>, o: OpenIndex, msg: Msg, sequence: nat,
                                                  markets: seq<nat>, slot: nat)
    requires slot < |slots| && Stranded(slots[slot]) && CloseEach(slots, o, msg, sequence, markets).Ok?
    ensures
      var next := CloseEach(slots, o, msg, sequence, markets).value.0;
      |next| == |slots| && Stranded(next[slot])
    decreases |markets|
  {
    hide RemoveOpen, CurrentEpoch;
    if markets != [] {
      var (next, rest) := CloseOne(slots, o, msg, sequence, markets[0]).value;
      CloseEachKeepsStranded(next, rest, msg, sequence, markets[1..], slot);
    }
  }

  lemma ApplyRoomKeepsStranded(r: Room, sender: Address, now: Uint64, call: RoomCall, slot: nat)
    requires slot < |r.slots| && Stranded(r.slots[slot]) && ApplyRoom(r, sender, now, call).Ok?
    ensures slot < |ApplyRoom(r, sender, now, call).value.slots|
      && Stranded(ApplyRoom(r, sender, now, call).value.slots[slot])
  {
    hide CallEach, CloseEach, Stranded, FromRoom, ParticipantsReady, PostBond, ClaimBond, FileClaim, AdjudicateClaim,
      ExpireClaim, ValidatePermit, ValidateRequest, NewMarket, ConfigOk, Apply;
    match call
    case MarkEpochsSafeCall(sequence, markets, epochs) =>
      CallEachKeepsStranded(r.slots, FromRoom(r, now), MarkSafeCalls(sequence, markets, epochs), slot);
    case SuspendRoomCall(sequence) =>
      CallEachKeepsStranded(r.slots, FromRoom(r, now), SameCalls(r.open.openSlots, SuspendCall(sequence)), slot);
    case ReopenRoomCall(sequence) =>
      CallEachKeepsStranded(r.slots, FromRoom(r, now), SameCalls(r.open.openSlots, ReopenCall(sequence)), slot);
    case CloseSlotsCall(sequence, markets) =>
      CloseEachKeepsStranded(r.slots, r.open, FromRoom(r, now), sequence, markets, slot);
    case CloseRemainingCall(markets) =>
      CloseEachKeepsStranded(r.slots, r.open, FromRoom(r, now), r.watch.roomClosedSequence, markets, slot);
    case ProcessRoomCall(markets, epochs, maximum) =>
      CallEachKeepsStranded(r.slots, FromRoom(r, now), ProcessCalls(markets, epochs, maximum), slot);
    case SlotCall(touched, inner) =>
      if touched == slot {
        ApplyKeepsStranded(r.slots[slot], Msg(sender, now, ParticipantsReady(r.config, r.deposits)), inner);
      }
    case _ =>
  }

  lemma {:induction false} RunRoomKeepsStranded(r: Room, events: seq<RoomEvent>, slot: nat)
    requires slot < |r.slots| && Stranded(r.slots[slot])
    ensures slot < |RunRoom(r, events).slots| && Stranded(RunRoom(r, events).slots[slot])
    decreases |events|
  {
    hide ApplyRoom, Stranded;
    if events != [] {
      var e := events[0];
      if ApplyRoom(r, e.sender, e.now, e.call).Ok? {
        ApplyRoomKeepsStranded(r, e.sender, e.now, e.call, slot);
      }
      RunRoomKeepsStranded(StepRoom(r, e.sender, e.now, e.call), events[1..], slot);
    }
  }

  /** One slot whose window ends beyond the clock locks the room for ever: the slots
      are never all final, and no bond of a participant is ever claimed. */
  lemma StrandedSlotLocksRoom(r: Room, more: seq<RoomEvent>, slot: nat, p: Address, now: Uint64)
    requires slot < |r.slots| && Stranded(r.slots[slot])
    ensures
      var t := RunRoom(r, more);
      !AllFinal(t.slots) && ClaimBond(t, p, now).Revert?
  {
    hide RunRoom, PayOut;
    RunRoomKeepsStranded(r, more, slot);
    assert RunRoom(r, more).slots[slot].ruling.finalOutcome.Unset?;
  }

  /** An open claim whose timeout ends beyond the clock. */
  predicate StrandedClaim(c: RoomConfig, claims: seq<IntegrityClaim>, id: nat) {
    && id < |claims| && claims[id].status.Outstanding?
    && TWO_64 <= claims[id].filedAt + c.integrityClaimTimeout
  }

  lemma ApplyRoomKeepsClaim(r: Room, sender: Address, now: Uint64, call: RoomCall, id: nat)
    requires StrandedClaim(r.config, r.deposits.claims, id) && ApplyRoom(r, sender, now, call).Ok?
    ensures
      var n := ApplyRoom(r, sender, now, call).value;
      StrandedClaim(n.config, n.deposits.claims, id) && n.deposits.claims[id] == r.deposits.claims[id]
  {
    hide CallEach, CloseEach, FromRoom, ParticipantsReady, AllFinal, ValidatePermit, ValidateRequest, NewMarket,
      ConfigOk, Apply, PayOut, AdvanceSequence, SlotConfig, RoomRestricted, AddOpen;
  }

  lemma {:induction false} RunRoomKeepsClaim(r: Room, events: seq<RoomEvent>, id: nat)
    requires StrandedClaim(r.config, r.deposits.claims, id)
    ensures
      var t := RunRoom(r, events);
      StrandedClaim(t.config, t.deposits.claims, id) && t.deposits.claims[id] == r.deposits.claims[id]
    decreases |events|
  {
    hide ApplyRoom, StrandedClaim;
    if events != [] {
      var e := events[0];
      assert StrandedClaim(r.config, r.deposits.claims, id) ==> id < |r.deposits.claims| by {
        InRange(r, id);
      }
      if ApplyRoom(r, e.sender, e.now, e.call).Ok? {
        ApplyRoomKeepsClaim(r, e.sender, e.now, e.call, id);
      }
      RunRoomKeepsClaim(StepRoom(r, e.sender, e.now, e.call), events[1..], id);
    }
  }

  lemma InRange(r: Room, id: nat)
    requires StrandedClaim(r.config, r.deposits.claims, id)
    ensures id < |r.deposits.claims|
  {
  }

  /** A claim in that state can never be decided or expired, so the bond of the
      participant it is about is never claimed. */
  lemma StrandedClaimLocksBond(c: RoomConfig, start: Uint64, events: seq<RoomEvent>, more: seq<RoomEvent>, id: nat,
                               e: RoomEvent, uphold: bool)
    requires RoomConfigOk(c) && Plausible(c, start, events)
    requires StrandedClaim(c, ReachedRoom(c, start, events).deposits.claims, id)
    requires Plausible(c, RoomEnd(start, events), more)
    ensures
      var r := ReachedRoom(c, start, events);
      var t := RunRoom(r, more);
      && ExpireClaim(c, t.deposits, e.now, id) == Revert(Panic)
      && AdjudicateClaim(c, t.deposits, c.integrityAdjudicator, e.now, id, uphold) == Revert(Panic)
      && ClaimBond(t, r.deposits.claims[id].participant, e.now).Revert?
  {
    hide RunRoom, ReachedRoom, SlotsOk, OpenOk, AllFinal, OpenAgainst, PayOut, SettleClaim;
    var r := ReachedRoom(c, start, events);
    RoomReachable(c, start, events);
    RunRoomKeepsClaim(r, more, id);
    RunRoomKeeps(r, RoomEnd(start, events), more);
    var t := RunRoom(r, more);
    var p: Address := r.deposits.claims[id].participant;
    CountedOnce(t.deposits.claims, id, p);
    assert Get(t.deposits.openClaimsAgainst, p) == OpenAgainst(t.deposits.claims, p);
  }

  lemma {:induction false} CountedOnce(claims: seq<IntegrityClaim>, id: nat, p: Address)
    requires id < |claims| && claims[id].status.Outstanding? && claims[id].participant == p
    ensures 0 < OpenAgainst(claims, p)
    decreases |claims|
  {
    var n := |claims| - 1;
    if id < n {
      assert claims[..n][id] == claims[id];
      CountedOnce(claims[..n], id, p);
    }
  }

  /** Such a claim can be brought about in every room whose claim timeout is long
      enough: a participant posts a bond, the silent gate's room is closed, and
      anybody files the claim. */
  function Accusation(c: RoomConfig, now: Uint64, claimant: Address): seq<RoomEvent> {
    [RoomEvent(c.participantA, now, PostRoomBondCall), RoomEvent(claimant, now, StallCloseCall),
     RoomEvent(claimant, now, FileClaimCall(c.participantA, 1, 1))]
  }

  lemma StrandedClaimHappens(c: RoomConfig, start: Uint64, now: Uint64, claimant: Address)
    requires RoomConfigOk(c) && c.self !in {claimant, c.participantA}
    requires start + c.gateStallTimeout <= now && TWO_64 <= now + c.integrityClaimTimeout
    ensures Plausible(c, start, Accusation(c, now, claimant))
    ensures StrandedClaim(c, ReachedRoom(c, start, Accusation(c, now, claimant)).deposits.claims, 0)
  {
    var a := Accusation(c, now, claimant);
    var r0 := NewRoom(c, start);
    var r1 := StepRoom(r0, a[0].sender, now, a[0].call);
    var r2 := StepRoom(r1, a[1].sender, now, a[1].call);
    var r3 := StepRoom(r2, a[2].sender, now, a[2].call);
    assert a[1..][1..][1..] == [] && a[1..][0] == a[1] && a[1..][1..][0] == a[2];
    assert Plausible(c, now, a[1..][1..][1..]);
    assert Plausible(c, now, a[1..][1..]);
    assert RunRoom(r2, a[1..][1..]) == RunRoom(r3, []) == r3;
    assert RunRoom(r1, a[1..]) == r3;
    assert RunRoom(r0, a) == r3;
  }
}
