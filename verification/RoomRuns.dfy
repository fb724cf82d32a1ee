/** Whole runs of a room, of calls on it and on its slots by anyone: what holds in
    every reachable state, and what no run can undo. */
module RoomRuns {
  import opened Prelude
  import opened Market
  import opened MarketRuns
  import opened Room
  import opened RoomInvariant

  datatype RoomEvent = RoomEvent(sender: Address, now: Uint64, call: RoomCall)

  /** Time does not go back, and only the room itself sends from its address. */
  ghost predicate Plausible(c: RoomConfig, start: Uint64, events: seq<RoomEvent>)
    decreases |events|
  {
    events != [] ==>
      && start <= events[0].now
      && events[0].sender != c.self
      && Plausible(c, events[0].now, events[1..])
  }

  function RunRoom(r: Room, events: seq<RoomEvent>): Room
    decreases |events|
  {
    if events == [] then r
    else RunRoom(StepRoom(r, events[0].sender, events[0].now, events[0].call), events[1..])
  }

  function RoomEnd(start: Uint64, events: seq<RoomEvent>): Uint64 {
    if events == [] then start else events[|events| - 1].now
  }

  function ReachedRoom(c: RoomConfig, start: Uint64, events: seq<RoomEvent>): Room {
    RunRoom(NewRoom(c, start), events)
  }

  // ---------------------------------------------------- what no run can undo

  ghost predicate SlotsEvolve(slots: seq<Market>, next: seq<Market>) {
    && |slots| <= |next|
    && (forall i :: 0 <= i < |slots| ==> Evolves(slots[i], next[i]))
  }

  /** The watermark never falls; a closed room stays closed at the same sequence
      and time. */
  ghost predicate WatchEvolves(w: Watch, v: Watch) {
    && w.lastObservedSequence <= v.lastObservedSequence
    && (w.roomClosedSequence != 0 ==> v == w)
  }

  ghost predicate RoomEvolves(r: Room, s: Room) {
    && s.config == r.config
    && SlotsEvolve(r.slots, s.slots)
    && WatchEvolves(r.watch, s.watch)
    && (r.watch.roomClosedSequence != 0 ==> |s.slots| == |r.slots|)
    && r.usedNonces <= s.usedNonces
    && r.deposits.integrityBondClaimed <= s.deposits.integrityBondClaimed
  }

  lemma SlotsEvolveTransitive(a: seq<Market>, b: seq<Market>, c: seq<Market>)
    requires SlotsEvolve(a, b) && SlotsEvolve(b, c)
    ensures SlotsEvolve(a, c)
  {
    hide Evolves;
    forall i | 0 <= i < |a| ensures Evolves(a[i], c[i]) {
      EvolvesTransitive(a[i], b[i], c[i]);
    }
  }

  lemma OneSlotEvolves(slots: seq<Market>, slot: nat, m: Market)
    requires slot < |slots| && Evolves(slots[slot], m)
    ensures SlotsEvolve(slots, slots[slot := m])
  {
    hide Evolves;
    forall i | 0 <= i < |slots| ensures Evolves(slots[i], slots[slot := m][i]) {
      EvolvesReflexive(slots[i]);
    }
  }

  lemma StepEvolves(m: Market, msg: Msg, call: Call)
    ensures Evolves(m, Step(m, msg, call))
  {
    hide Evolves, Apply;
    EvolvesReflexive(m);
    if Apply(m, msg, call).Ok? {
      ApplyEvolves(m, msg, call);
    }
  }

  lemma {:induction false} CallEachEvolves(slots: seq<Market>, msg: Msg, calls: seq<(nat, Call)>)
    requires CallEach(slots, msg, calls).Ok?
    ensures SlotsEvolve(slots, CallEach(slots, msg, calls).value)
    ensures |CallEach(slots, msg, calls).value| == |slots|
    decreases |calls|
  {
    hide Step, SlotsEvolve;
    if calls == [] {
      SlotsEvolveReflexive(slots);
    } else {
      var (slot, call) := calls[0];
      StepEvolves(slots[slot], msg, call);
      OneSlotEvolves(slots, slot, Step(slots[slot], msg, call));
      CallEachEvolves(slots[slot := Step(slots[slot], msg, call)], msg, calls[1..]);
      SlotsEvolveTransitive(slots, slots[slot := Step(slots[slot], msg, call)], CallEach(slots, msg, calls).value);
    }
  }

  lemma SlotsEvolveReflexive(slots: seq<Market>)
    ensures SlotsEvolve(slots, slots)
  {
    hide Evolves;
    forall i | 0 <= i < |slots| ensures Evolves(slots[i], slots[i]) {
      EvolvesReflexive(slots[i]);
    }
  }

  lemma {:induction false} CloseEachEvolves(slots: seq<Market>, o: OpenIndex, msg: Msg, sequence: nat,
                                            markets: seq<nat>)
    requires CloseEach(slots, o, msg, sequence, markets).Ok?
    ensures SlotsEvolve(slots, CloseEach(slots, o, msg, sequence, markets).value.0)
    ensures |CloseEach(slots, o, msg, sequence, markets).value.0| == |slots|
    decreases |markets|
  {
    hide CloseForDecisiveEvent, RemoveOpen, SlotsEvolve;
    if markets == [] {
      SlotsEvolveReflexive(slots);
    } else {
      var slot := markets[0];
      var (next, rest) := CloseOne(slots, o, msg, sequence, slot).value;
      CloseOneEvolves(slots, o, msg, sequence, slot);
      CloseEachEvolves(next, rest, msg, sequence, markets[1..]);
      SlotsEvolveTransitive(slots, next, CloseEach(slots, o, msg, sequence, markets).value.0);
    }
  }

  lemma CloseOneEvolves(slots: seq<Market>, o: OpenIndex, msg: Msg, sequence: nat, slot: nat)
    requires slot < |slots| && CloseOne(slots, o, msg, sequence, slot).Ok?
    ensures SlotsEvolve(slots, CloseOne(slots, o, msg, sequence, slot).value.0)
    ensures |CloseOne(slots, o, msg, sequence, slot).value.0| == |slots|
  {
    hide CloseForDecisiveEvent, RemoveOpen, SlotsEvolve, Evolves;
    SlotsEvolveReflexive(slots);
    if CloseForDecisiveEvent(slots[slot], msg, sequence).Ok? {
      assert Apply(slots[slot], msg, CloseCall(sequence)) == CloseForDecisiveEvent(slots[slot], msg, sequence);
      hide Apply;
      ApplyEvolves(slots[slot], msg, CloseCall(sequence));
      OneSlotEvolves(slots, slot, CloseForDecisiveEvent(slots[slot], msg, sequence).value);
    }
  }

  lemma SlotAddedEvolves(slots: seq<Market>, m: Market)
    ensures SlotsEvolve(slots, slots + [m])
  {
    hide Evolves;
    forall i | 0 <= i < |slots| ensures Evolves(slots[i], (slots + [m])[i]) {
      EvolvesReflexive(slots[i]);
    }
  }

  lemma ApplyRoomEvolves(r: Room, sender: Address, now: Uint64, call: RoomCall)
    requires ApplyRoom(r, sender, now, call).Ok?
    ensures RoomEvolves(r, ApplyRoom(r, sender, now, call).value)
  {
    hide CallEach, CloseEach, SlotsEvolve, FromRoom, ParticipantsReady, PostBond, ClaimBond, FileClaim, AdjudicateClaim,
      ExpireClaim, PublishSlot, Apply;
    SlotsEvolveReflexive(r.slots);
    match call
    case PublishCall(request, permit, signer, restricted) =>
      PublishEvolves(r, sender, now, request, permit, signer, restricted);
    case MarkEpochsSafeCall(sequence, markets, epochs) =>
      CallEachEvolves(r.slots, FromRoom(r, now), MarkSafeCalls(sequence, markets, epochs));
    case SuspendRoomCall(sequence) =>
      CallEachEvolves(r.slots, FromRoom(r, now), SameCalls(r.open.openSlots, SuspendCall(sequence)));
    case ReopenRoomCall(sequence) =>
      CallEachEvolves(r.slots, FromRoom(r, now), SameCalls(r.open.openSlots, ReopenCall(sequence)));
    case CloseSlotsCall(sequence, markets) => CloseEachEvolves(r.slots, r.open, FromRoom(r, now), sequence, markets);
    case CloseRoomCall(sequence) =>
    case StallCloseCall =>
    case CloseRemainingCall(markets) =>
      CloseEachEvolves(r.slots, r.open, FromRoom(r, now), r.watch.roomClosedSequence, markets);
    case ProcessRoomCall(markets, epochs, maximum) =>
      CallEachEvolves(r.slots, FromRoom(r, now), ProcessCalls(markets, epochs, maximum));
    case SlotCall(slot, inner) =>
      ApplyEvolves(r.slots[slot], Msg(sender, now, ParticipantsReady(r.config, r.deposits)), inner);
      OneSlotEvolves(r.slots, slot, ApplyRoom(r, sender, now, call).value.slots[slot]);
    case _ => DepositsEvolve(r, sender, now, call);
  }

  lemma PublishEvolves(r: Room, sender: Address, now: Uint64, request: SlotRequest, permit: PublicationPermit,
                       signer: Address, restricted: seq<Address>)
    requires PublishSlot(r, sender, now, request, permit, signer, restricted).Ok?
    ensures RoomEvolves(r, PublishSlot(r, sender, now, request, permit, signer, restricted).value)
  {
    hide SlotsEvolve, ValidatePermit, ValidateRequest, NewMarket, RoomRestricted, ConfigOk, SlotConfig,
      ParticipantsReady, AddOpen;
    PermitFresh(r, now, request, permit, signer, restricted);
    SlotAddedEvolves(r.slots, PublishSlot(r, sender, now, request, permit, signer, restricted).value.slots[|r.slots|]);
  }

  lemma DepositsEvolve(r: Room, sender: Address, now: Uint64, call: RoomCall)
    requires ApplyRoom(r, sender, now, call).Ok?
    requires call.PostRoomBondCall? || call.ClaimRoomBondCall? || call.FileClaimCall? || call.AdjudicateCall?
      || call.ExpireClaimCall?
    ensures RoomEvolves(r, ApplyRoom(r, sender, now, call).value)
  {
    hide SlotsEvolve, AllFinal;
    SlotsEvolveReflexive(r.slots);
  }

  lemma RoomEvolvesReflexive(r: Room)
    ensures RoomEvolves(r, r)
  {
    hide SlotsEvolve;
    SlotsEvolveReflexive(r.slots);
  }

  lemma RoomEvolvesTransitive(a: Room, b: Room, c: Room)
    requires RoomEvolves(a, b) && RoomEvolves(b, c)
    ensures RoomEvolves(a, c)
  {
    hide SlotsEvolve;
    SlotsEvolveTransitive(a.slots, b.slots, c.slots);
  }

  lemma StepRoomEvolves(r: Room, sender: Address, now: Uint64, call: RoomCall)
    ensures RoomEvolves(r, StepRoom(r, sender, now, call))
  {
    hide RoomEvolves, ApplyRoom;
    RoomEvolvesReflexive(r);
    if ApplyRoom(r, sender, now, call).Ok? {
      ApplyRoomEvolves(r, sender, now, call);
    }
  }

  /** No run rewrites a room's history or that of any of its slots. */
  lemma {:induction false} RunRoomEvolves(r: Room, events: seq<RoomEvent>)
    ensures RoomEvolves(r, RunRoom(r, events))
    decreases |events|
  {
    hide RoomEvolves, StepRoom;
    if events == [] {
      RoomEvolvesReflexive(r);
    } else {
      var next := StepRoom(r, events[0].sender, events[0].now, events[0].call);
      StepRoomEvolves(r, events[0].sender, events[0].now, events[0].call);
      RunRoomEvolves(next, events[1..]);
      RoomEvolvesTransitive(r, next, RunRoom(r, events));
    }
  }

  // --------------------------------------------------------- reachable states

  lemma {:induction false} RunRoomKeeps(r: Room, t: Uint64, events: seq<RoomEvent>)
    requires RoomInv(r, t) && Plausible(r.config, t, events)
    ensures RoomInv(RunRoom(r, events), RoomEnd(t, events))
    decreases |events|
  {
    hide RoomInv, ApplyRoom, RoomEvolves;
    if events != [] {
      var e := events[0];
      RoomLater(r, t, e.now);
      if ApplyRoom(r, e.sender, e.now, e.call).Ok? {
        ApplyRoomKeeps(r, e.sender, e.now, e.call);
      }
      SameRules(r, e.sender, e.now, e.call);
      RunRoomKeeps(StepRoom(r, e.sender, e.now, e.call), e.now, events[1..]);
    }
  }

  lemma SameRules(r: Room, sender: Address, now: Uint64, call: RoomCall)
    ensures StepRoom(r, sender, now, call).config == r.config
  {
    hide StepRoom, SlotsEvolve;
    StepRoomEvolves(r, sender, now, call);
  }

  /** Every state a run reaches from a new room satisfies the invariant. */
  lemma RoomReachable(c: RoomConfig, start: Uint64, events: seq<RoomEvent>)
    requires RoomConfigOk(c) && Plausible(c, start, events)
    ensures RoomInv(ReachedRoom(c, start, events), RoomEnd(start, events))
    ensures ReachedRoom(c, start, events).config == c
  {
    hide RoomInv, RunRoom, SlotsEvolve;
    NewRoomOk(c, start);
    RunRoomKeeps(NewRoom(c, start), start, events);
    RunRoomEvolves(NewRoom(c, start), events);
  }
}
