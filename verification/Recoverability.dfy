/** Exactly which rooms can be recovered without a privileged key, and exactly which
    bonds come back: what the 64-bit clock leaves possible from each reachable
    state. */
module Recoverability {
  import opened Prelude
  import opened Market
  import opened MarketInvariant
  import opened Reverts
  import opened Room
  import opened RoomInvariant
  import opened RoomRuns
  import opened RoomRecovery
  import opened RoomReverts

  /** The last second of the clock. */
  const LAST: Uint64 := TWO_64 - 1

  /** An account that holds none of the keys of the room or of its slots. */
  predicate Outsider(c: RoomConfig, a: Address) {
    a !in {c.self, c.gateSigner, c.publisher, c.integrityAdjudicator} && a !in c.resolvers
  }

  ghost predicate ByOutsiders(c: RoomConfig, events: seq<RoomEvent>) {
    forall i :: 0 <= i < |events| ==> Outsider(c, events[i].sender)
  }

  /** A call by `anyone` that is open to everybody. */
  ghost predicate Open(e: RoomEvent, anyone: Address) {
    Permissionless([e], anyone, e.now)
  }

  predicate Recovered(r: Room) {
    r.watch.roomClosedSequence != 0 && AllFinal(r.slots) && OpenClaims(r.deposits.claims) == 0
  }

  /** From time `end` on, these calls by `anyone`, all open to everybody, all succeed
      and recover the room. */
  ghost predicate Rescues(r: Room, end: Uint64, anyone: Address, rescue: seq<RoomEvent>) {
    && Plausible(r.config, end, rescue)
    && (forall i :: 0 <= i < |rescue| ==> Open(rescue[i], anyone))
    && Leads(r, rescue, RunRoom(r, rescue))
    && Recovered(RunRoom(r, rescue))
  }

  /** From time `end` on, these calls of any kind by accounts without a key leave the
      room recovered, whether or not each of them succeeds. */
  ghost predicate OutsidersRescue(r: Room, end: Uint64, rescue: seq<RoomEvent>) {
    && Plausible(r.config, end, rescue) && ByOutsiders(r.config, rescue)
    && Recovered(RunRoom(r, rescue))
  }

  // ----------------------------------------------------------- the conditions

  /** The room is closed, or its gate times out within the clock. */
  predicate CanClose(r: Room) {
    r.watch.roomClosedSequence != 0 || r.watch.lastGateActivityAt + r.config.gateStallTimeout < TWO_64
  }

  /** The slot is final, has no result yet, or its challenge period ends within the
      clock. */
  predicate CanFinish(m: Market) {
    || !m.ruling.finalOutcome.Unset?
    || m.ruling.provisionalOutcome.Unset?
    || (if m.ruling.challenged then m.ruling.challengedAt + m.config.challengeTimeout < TWO_64
        else m.ruling.provisionalAt + m.config.challengeWindow < TWO_64)
  }

  predicate SlotsCanFinish(slots: seq<Market>) {
    forall i :: 0 <= i < |slots| ==> CanFinish(slots[i])
  }

  /** Every open claim against one of `who` times out within the clock. */
  predicate CanExpire(r: Room, who: set<Address>) {
    forall i :: 0 <= i < |r.deposits.claims| && Waiting(r.deposits.claims[i], who) ==>
      r.deposits.claims[i].filedAt + r.config.integrityClaimTimeout < TWO_64
  }

  predicate Recoverable(r: Room) {
    CanClose(r) && SlotsCanFinish(r.slots) && CanExpire(r, Participants(r.config))
  }

  /** When the room closed or, where it has not, the earliest time at which it can
      be closed without its gate. */
  function Closure(r: Room, end: Uint64): nat {
    if r.watch.roomClosedSequence != 0 then r.watch.roomClosedAt
    else Max(end, r.watch.lastGateActivityAt + r.config.gateStallTimeout)
  }

  predicate BondCanReturn(r: Room, end: Uint64, p: Address) {
    Closure(r, end) + r.config.integrityClaimWindow < TWO_64 && SlotsCanFinish(r.slots) && CanExpire(r, {p})
  }

  // -------------------------------------------------------------- sufficiency

  lemma InTimeAtLast(r: Room, who: set<Address>, now: Uint64, early: Uint64)
    requires RoomInv(r, now) && SlotsCanFinish(r.slots) && CanExpire(r, who)
    requires r.watch.roomClosedSequence == 0 ==> r.watch.lastGateActivityAt + r.config.gateStallTimeout <= early
    ensures InTime(r, who, early, LAST)
  {
    hide OpenOk, DepositsOk, SlotOk, SlotInTime, CanFinish;
    forall i | 0 <= i < |r.slots| ensures SlotInTime(r.slots[i], early, LAST) {
      assert CanFinish(r.slots[i]);
      FinishesByLast(r.slots[i], early);
    }
  }

  lemma FinishesByLast(m: Market, early: Uint64)
    requires CanFinish(m)
    ensures SlotInTime(m, early, LAST)
  {
  }

  /** The moments `early` and the last second serve wherever the conditions hold. */
  lemma RecoveredAtLast(r: Room, end: Uint64, who: set<Address>, anyone: Address, early: Uint64)
    returns (rescue: seq<RoomEvent>, t: Room)
    requires RoomInv(r, end) && end <= early && anyone != r.config.self
    requires SlotsCanFinish(r.slots) && CanExpire(r, who)
    requires r.watch.roomClosedSequence == 0 ==> r.watch.lastGateActivityAt + r.config.gateStallTimeout <= early
    ensures Plausible(r.config, end, rescue) && Leads(r, rescue, t) && RunRoom(r, rescue) == t
    ensures forall i :: 0 <= i < |rescue| ==> Open(rescue[i], anyone)
    ensures RoomInv(t, LAST) && t.config == r.config && t.watch.roomClosedSequence != 0
    ensures RoomEnd(end, rescue) <= LAST
    ensures if r.watch.roomClosedSequence == 0 then t.watch.roomClosedAt == early else t.watch == r.watch
    ensures AllFinal(t.slots) && SettledBefore(t.deposits.claims, who, |t.deposits.claims|)
    ensures t.deposits.integrityBondOf == r.deposits.integrityBondOf
    ensures t.deposits.integrityBondClaimed == r.deposits.integrityBondClaimed
  {
    hide RoomInv, InTime, SlotsCanFinish, CanExpire, Leads, RunRoom, AllFinal, SettledBefore, Plausible;
    InTimeAtLast(r, who, end, early);
    t := RecoveryWorks(r, end, who, anyone, early, LAST);
    rescue := Recovery(r, who, anyone, early, LAST);
    AllOpen(r, who, anyone, early, LAST);
  }

  lemma AllOpen(r: Room, who: set<Address>, anyone: Address, early: Uint64, late: Uint64)
    requires Permissionless(Closing(r, anyone, early), anyone, early)
      && Permissionless(Finishing(r, who, anyone, late), anyone, late)
    ensures forall i :: 0 <= i < |Recovery(r, who, anyone, early, late)| ==>
      Open(Recovery(r, who, anyone, early, late)[i], anyone)
  {
    hide Closing, Finishing;
    var a, b := Closing(r, anyone, early), Finishing(r, who, anyone, late);
    forall i | 0 <= i < |a + b| ensures Open((a + b)[i], anyone) {
      assert (a + b)[i] == if i < |a| then a[i] else b[i - |a|];
    }
  }

  lemma OpenIsOutside(c: RoomConfig, anyone: Address, rescue: seq<RoomEvent>)
    requires Outsider(c, anyone) && forall i :: 0 <= i < |rescue| ==> Open(rescue[i], anyone)
    ensures ByOutsiders(c, rescue)
  {
    forall i | 0 <= i < |rescue| ensures Outsider(c, rescue[i].sender) {
      assert Open(rescue[i], anyone);
      assert [rescue[i]][0] == rescue[i];
    }
  }

  // ---------------------------------------------------------------- necessity

  /** A deadlocked slot whose resolvers are the room's. */
  predicate DeadSlot(slots: seq<Market>, c: RoomConfig, slot: nat) {
    slot < |slots| && Deadlocked(slots[slot]) && slots[slot].config.resolvers == c.resolvers
  }

  lemma {:induction false} CallEachKeepsDeadlock(slots: seq<Market>, c: RoomConfig, msg: Msg, calls: seq<(nat, Call)>,
                                                 slot: nat)
    requires DeadSlot(slots, c, slot) && CallEach(slots, msg, calls).Ok?
    requires forall i :: 0 <= i < |calls| ==> !calls[i].1.VerdictCall?
    ensures DeadSlot(CallEach(slots, msg, calls).value, c, slot)
    decreases |calls|
  {
    hide Apply, Deadlocked;
    if calls != [] {
      var (touched, call) := calls[0];
      assert !calls[0].1.VerdictCall?;
      if touched == slot && Apply(slots[slot], msg, call).Ok? {
        ApplyKeepsDeadlock(slots[slot], msg, call);
      }
      CallEachKeepsDeadlock(slots[touched := Step(slots[touched], msg, call)], c, msg, calls[1..], slot);
    }
  }

  lemma {:induction false} CloseEachKeepsDeadlock(slots: seq<Market>, o: OpenIndex, c: RoomConfig, msg: Msg,
                                                  sequence: nat, markets: seq<nat>, slot: nat)
    requires DeadSlot(slots, c, slot) && CloseEach(slots, o, msg, sequence, markets).Ok?
    ensures DeadSlot(CloseEach(slots, o, msg, sequence, markets).value.0, c, slot)
    decreases |markets|
  {
    hide RemoveOpen, CurrentEpoch;
    if markets != [] {
      var (next, rest) := CloseOne(slots, o, msg, sequence, markets[0]).value;
      CloseEachKeepsDeadlock(next, rest, c, msg, sequence, markets[1..], slot);
    }
  }

  lemma ApplyRoomKeepsDeadlock(r: Room, sender: Address, now: Uint64, call: RoomCall, slot: nat)
    requires DeadSlot(r.slots, r.config, slot) && Outsider(r.config, sender) && ApplyRoom(r, sender, now, call).Ok?
    ensures DeadSlot(ApplyRoom(r, sender, now, call).value.slots, r.config, slot)
  {
    hide CallEach, CloseEach, Deadlocked, FromRoom, ParticipantsReady, PostBond, ClaimBond, FileClaim, AdjudicateClaim,
      ExpireClaim, ValidatePermit, ValidateRequest, NewMarket, ConfigOk, Apply;
    match call
    case CloseRemainingCall(markets) =>
      CloseEachKeepsDeadlock(r.slots, r.open, r.config, FromRoom(r, now), r.watch.roomClosedSequence, markets, slot);
    case ProcessRoomCall(markets, epochs, maximum) =>
      CallEachKeepsDeadlock(r.slots, r.config, FromRoom(r, now), ProcessCalls(markets, epochs, maximum), slot);
    case SlotCall(touched, inner) =>
      if touched == slot {
        ApplyKeepsDeadlock(r.slots[slot], Msg(sender, now, ParticipantsReady(r.config, r.deposits)), inner);
      }
    case _ =>
  }

  /** Only the gate resets the stall, and outsiders close a room only by it. */
  lemma OutsidersOnlyStall(r: Room, sender: Address, now: Uint64, call: RoomCall)
    requires Outsider(r.config, sender) && ApplyRoom(r, sender, now, call).Ok?
    ensures
      var n := ApplyRoom(r, sender, now, call).value;
      && n.config == r.config
      && (n.watch == r.watch
          || (&& r.watch.roomClosedSequence == 0 && n.watch.roomClosedSequence != 0
              && n.watch.roomClosedAt == now && r.watch.lastGateActivityAt + r.config.gateStallTimeout <= now))
  {
    hide CallEach, CloseEach, FromRoom, ParticipantsReady, PostBond, ClaimBond, FileClaim, AdjudicateClaim,
      ExpireClaim, ValidatePermit, ValidateRequest, NewMarket, ConfigOk, Apply;
  }

  lemma StuckSlotStays(r: Room, sender: Address, now: Uint64, call: RoomCall, slot: nat)
    requires slot < |r.slots| && !CanFinish(r.slots[slot]) && r.slots[slot].config.resolvers == r.config.resolvers
    requires Outsider(r.config, sender) && ApplyRoom(r, sender, now, call).Ok?
    ensures slot < |ApplyRoom(r, sender, now, call).value.slots|
    ensures !CanFinish(ApplyRoom(r, sender, now, call).value.slots[slot])
  {
    hide ApplyRoom;
    if r.slots[slot].ruling.challenged {
      ApplyRoomKeepsDeadlock(r, sender, now, call, slot);
    } else {
      ApplyRoomKeepsStranded(r, sender, now, call, slot);
    }
  }

  lemma StuckClaimStays(r: Room, sender: Address, now: Uint64, call: RoomCall, who: set<Address>)
    requires !CanExpire(r, who) && ApplyRoom(r, sender, now, call).Ok?
    ensures !CanExpire(ApplyRoom(r, sender, now, call).value, who)
  {
    hide ApplyRoom;
    var claims := r.deposits.claims;
    var id :| 0 <= id < |claims| && Waiting(claims[id], who)
              && TWO_64 <= claims[id].filedAt + r.config.integrityClaimTimeout;
    ApplyRoomKeepsClaim(r, sender, now, call, id);
    assert Waiting(ApplyRoom(r, sender, now, call).value.deposits.claims[id], who);
    SameRules(r, sender, now, call);
  }

  /** In a room, every slot has the room's resolvers. */
  lemma SlotsShareResolvers(r: Room, now: Uint64)
    requires RoomInv(r, now)
    ensures forall i :: 0 <= i < |r.slots| ==> r.slots[i].config.resolvers == r.config.resolvers
  {
    hide OpenOk, DepositsOk, Inv, RoomConfigOk;
    forall i | 0 <= i < |r.slots| ensures r.slots[i].config.resolvers == r.config.resolvers {
      assert SlotOk(r.slots[i], r.config, r.watch, now);
    }
  }

  lemma SlotsStayStuck(r: Room, e: RoomEvent)
    requires RoomInv(r, e.now) && Outsider(r.config, e.sender) && ApplyRoom(r, e.sender, e.now, e.call).Ok?
    requires !SlotsCanFinish(r.slots)
    ensures !SlotsCanFinish(ApplyRoom(r, e.sender, e.now, e.call).value.slots)
  {
    hide RoomInv, ApplyRoom, CanFinish;
    SlotsShareResolvers(r, e.now);
    var slot :| 0 <= slot < |r.slots| && !CanFinish(r.slots[slot]);
    StuckSlotStays(r, e.sender, e.now, e.call, slot);
  }

  /** What an outsider does, succeeding or not, makes nothing possible that was not. */
  lemma StepGainsNothing(r: Room, t: Uint64, e: RoomEvent, p: Address)
    requires RoomInv(r, e.now) && t <= e.now && Outsider(r.config, e.sender)
    ensures
      var n := StepRoom(r, e.sender, e.now, e.call);
      && n.config == r.config
      && (CanClose(n) ==> CanClose(r))
      && (Recoverable(n) ==> Recoverable(r))
      && (BondCanReturn(n, e.now, p) ==> BondCanReturn(r, t, p))
  {
    hide RoomInv, ApplyRoom, SlotsCanFinish, CanExpire;
    if ApplyRoom(r, e.sender, e.now, e.call).Ok? {
      OutsidersOnlyStall(r, e.sender, e.now, e.call);
      if !SlotsCanFinish(r.slots) {
        SlotsStayStuck(r, e);
      }
      if !CanExpire(r, Participants(r.config)) {
        StuckClaimStays(r, e.sender, e.now, e.call, Participants(r.config));
      }
      if !CanExpire(r, {p}) {
        StuckClaimStays(r, e.sender, e.now, e.call, {p});
      }
    }
  }

  lemma {:induction false} RunGainsNothing(r: Room, t: Uint64, events: seq<RoomEvent>, p: Address)
    requires RoomInv(r, t) && Plausible(r.config, t, events) && ByOutsiders(r.config, events)
    ensures
      var n := RunRoom(r, events);
      && n.config == r.config
      && (CanClose(n) ==> CanClose(r))
      && (Recoverable(n) ==> Recoverable(r))
      && (BondCanReturn(n, RoomEnd(t, events), p) ==> BondCanReturn(r, t, p))
    decreases |events|
  {
    hide RoomInv, StepRoom, CanClose, Recoverable, BondCanReturn;
    if events != [] {
      var e := events[0];
      var next := StepRoom(r, e.sender, e.now, e.call);
      RoomLater(r, t, e.now);
      StepGainsNothing(r, t, e, p);
      assert [e] + events[1..] == events;
      RunRoomKeeps(r, t, [e]);
      assert RunRoom(r, [e]) == next by {
        assert [e][1..] == [];
      }
      RunGainsNothing(next, e.now, events[1..], p);
    }
  }

  lemma RecoveredIsRecoverable(r: Room)
    requires Recovered(r)
    ensures Recoverable(r)
  {
    forall i | 0 <= i < |r.deposits.claims| ensures !r.deposits.claims[i].status.Outstanding? {
      if r.deposits.claims[i].status.Outstanding? {
        CountedOnce(r.deposits.claims, i, r.deposits.claims[i].participant);
        OpenAgainstSome(r.deposits.claims, r.deposits.claims[i].participant);
      }
    }
  }

  lemma {:induction false} OpenAgainstSome(claims: seq<IntegrityClaim>, p: Address)
    ensures OpenAgainst(claims, p) <= OpenClaims(claims)
    decreases |claims|
  {
    if claims != [] {
      OpenAgainstSome(claims[..|claims| - 1], p);
    }
  }

  lemma ClaimedCouldReturn(r: Room, now: Uint64, p: Address)
    requires RoomInv(r, now) && ClaimBond(r, p, now).Ok?
    ensures BondCanReturn(r, now, p)
  {
    hide SlotsOk, OpenOk, Sum, OpenClaims, OpenAgainst, PayOut;
    assert Get(r.deposits.openClaimsAgainst, p) == OpenAgainst(r.deposits.claims, p);
    forall i | 0 <= i < |r.deposits.claims| ensures !Waiting(r.deposits.claims[i], {p}) {
      if Waiting(r.deposits.claims[i], {p}) {
        CountedOnce(r.deposits.claims, i, p);
      }
    }
  }

  // ----------------------------------------------------------------- theorems

  /** A room can be recovered without a key exactly when it is closed or its gate times
      out within the 64-bit clock, the challenge period of each slot that has a result
      and is not final ends within it, and so does the timeout of every open claim.
      Anyone can then do it with calls that are open to everybody and all succeed;
      and where it does not hold, no calls at all by accounts without a key do it. */
  lemma RecoverableIff(c: RoomConfig, start: Uint64, events: seq<RoomEvent>, anyone: Address)
    requires RoomConfigOk(c) && Plausible(c, start, events) && Outsider(c, anyone)
    ensures
      var r, end := ReachedRoom(c, start, events), RoomEnd(start, events);
      var recoverable := CanClose(r) && SlotsCanFinish(r.slots) && CanExpire(r, Participants(c));
      && ((exists rescue :: Rescues(r, end, anyone, rescue)) <==> recoverable)
      && ((exists rescue :: OutsidersRescue(r, end, rescue)) <==> recoverable)
  {
    hide ReachedRoom, RunRoom, RoomInv, Leads, Plausible, CanClose, SlotsCanFinish, CanExpire, Recovered, ByOutsiders,
      SettledBefore;
    RoomReachable(c, start, events);
    var r, end := ReachedRoom(c, start, events), RoomEnd(start, events);
    if CanClose(r) && SlotsCanFinish(r.slots) && CanExpire(r, Participants(c)) {
      RecoverableIsRescued(r, end, anyone);
    }
    forall rescue | Rescues(r, end, anyone, rescue) ensures OutsidersRescue(r, end, rescue) {
      OpenIsOutside(c, anyone, rescue);
    }
    forall rescue | OutsidersRescue(r, end, rescue) ensures Recoverable(r) {
      RunGainsNothing(r, end, rescue, anyone);
      RecoveredIsRecoverable(RunRoom(r, rescue));
    }
  }

  lemma RecoverableIsRescued(r: Room, end: Uint64, anyone: Address)
    requires RoomInv(r, end) && anyone != r.config.self && Recoverable(r)
    ensures exists rescue :: Rescues(r, end, anyone, rescue)
  {
    hide RunRoom, RoomInv, Leads, Plausible, SlotsCanFinish, CanExpire, SettledBefore, AllFinal, OpenClaims;
    var rescue, t := RecoveredAtLast(r, end, Participants(r.config), anyone, LAST);
    AllClaimsSettled(t, LAST);
    assert Rescues(r, end, anyone, rescue);
  }

  /** From time `end` on, accounts without a key can bring it about that the claim of
      `p` succeeds. */
  ghost predicate Returns(r: Room, end: Uint64, p: Address, rescue: seq<RoomEvent>, now: Uint64) {
    && Plausible(r.config, end, rescue) && ByOutsiders(r.config, rescue)
    && RoomEnd(end, rescue) <= now
    && ClaimBond(RunRoom(r, rescue), p, now).Ok?
  }

  /** A bond that is posted and was never claimed can come back without a key exactly
      when the claim window ends within the clock, counted from the closing of the
      room or from the earliest moment at which it can be closed, every slot can
      finish, and every open claim against that participant can expire. */
  lemma BondReturnsIff(c: RoomConfig, start: Uint64, events: seq<RoomEvent>, anyone: Address, p: Address)
    requires RoomConfigOk(c) && Plausible(c, start, events) && Outsider(c, anyone)
    ensures
      var r, end := ReachedRoom(c, start, events), RoomEnd(start, events);
      p !in r.deposits.integrityBondClaimed && Get(r.deposits.integrityBondOf, p) != 0 ==>
        ((exists rescue: seq<RoomEvent>, now: Uint64 :: Returns(r, end, p, rescue, now))
         <==> && Closure(r, end) + c.integrityClaimWindow < TWO_64
              && SlotsCanFinish(r.slots) && CanExpire(r, {p}))
  {
    hide ReachedRoom, RunRoom, RoomInv, Plausible, Closure, SlotsCanFinish, CanExpire, ByOutsiders, ClaimBond;
    RoomReachable(c, start, events);
    var r, end := ReachedRoom(c, start, events), RoomEnd(start, events);
    if p !in r.deposits.integrityBondClaimed && Get(r.deposits.integrityBondOf, p) != 0 && BondCanReturn(r, end, p) {
      BondReturns(r, end, anyone, p);
    }
    forall rescue: seq<RoomEvent>, now: Uint64 | Returns(r, end, p, rescue, now) ensures BondCanReturn(r, end, p) {
      RunGainsNothing(r, end, rescue, p);
      RunRoomKeeps(r, end, rescue);
      var t := RunRoom(r, rescue);
      RoomLater(t, RoomEnd(end, rescue), now);
      ClaimedCouldReturn(t, now, p);
      SoonerIsEasier(t, RoomEnd(end, rescue), now, p);
    }
  }

  lemma SoonerIsEasier(r: Room, t: Uint64, now: Uint64, p: Address)
    requires t <= now && BondCanReturn(r, now, p)
    ensures BondCanReturn(r, t, p)
  {
    hide SlotsCanFinish, CanExpire;
  }

  lemma BondReturns(r: Room, end: Uint64, anyone: Address, p: Address)
    requires RoomInv(r, end) && Outsider(r.config, anyone) && BondCanReturn(r, end, p)
    requires p !in r.deposits.integrityBondClaimed && Get(r.deposits.integrityBondOf, p) != 0
    ensures exists rescue: seq<RoomEvent>, now: Uint64 :: Returns(r, end, p, rescue, now)
  {
    hide RunRoom, RoomInv, Leads, Plausible, SlotsCanFinish, CanExpire, SettledBefore, AllFinal, ClaimBond, ByOutsiders;
    var early: Uint64 := if r.watch.roomClosedSequence == 0 then Closure(r, end) else end;
    var rescue, t := RecoveredAtLast(r, end, {p}, anyone, early);
    OpenIsOutside(r.config, anyone, rescue);
    BondIsFree(t, {p}, LAST, p);
    assert Returns(r, end, p, rescue, LAST);
  }

  // ----------------------------------------------------- a stall that never ends

  /** In a room whose stall timeout ends beyond the clock when it is created, a
      posted bond is at the mercy of the gate: whatever accounts without a key do,
      the room is never closed and the bond never claimed. */
  lemma OverlongStallStrands(c: RoomConfig, start: Uint64, post: Uint64, more: seq<RoomEvent>, now: Uint64)
    requires RoomConfigOk(c) && c.participantA != c.self && start <= post
    requires TWO_64 <= start + c.gateStallTimeout
    requires Plausible(c, post, more) && ByOutsiders(c, more) && RoomEnd(post, more) <= now
    ensures
      var events := [RoomEvent(c.participantA, post, PostRoomBondCall)];
      var r := ReachedRoom(c, start, events);
      && Plausible(c, start, events)
      && Get(r.deposits.integrityBondOf, c.participantA) == ROOM_INTEGRITY_BOND
      && RunRoom(r, more).watch.roomClosedSequence == 0
      && ClaimBond(RunRoom(r, more), c.participantA, now).Revert?
  {
    var e := RoomEvent(c.participantA, post, PostRoomBondCall);
    var r := StepRoom(NewRoom(c, start), e.sender, e.now, e.call);
    assert [e][1..] == [] && RunRoom(r, []) == r;
    assert Plausible(c, post, []);
    assert ReachedRoom(c, start, [e]) == r;
    hide NewRoom, StepRoom, RunRoom;
    RoomReachable(c, start, [e]);
    RunGainsNothing(r, post, more, c.participantA);
  }
}
