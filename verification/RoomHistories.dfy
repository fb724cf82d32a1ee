/** Concrete runs of a room, each ending in a state that shows a result elsewhere to be
    about something that happens. */
module RoomHistories {
  import opened Prelude
  import opened Ledger
  import opened Market
  import opened Reverts
  import opened Room
  import opened RoomRuns
  import opened RoomTheorems
  import opened RoomRecovery
  import opened RoomReverts

  lemma {:induction false} AtOnce(c: RoomConfig, start: Uint64, events: seq<RoomEvent>, now: Uint64)
    requires start <= now && forall i :: 0 <= i < |events| ==> events[i].now == now && events[i].sender != c.self
    ensures Plausible(c, start, events)
    decreases |events|
  {
    if events != [] {
      AtOnce(c, now, events[1..], now);
    }
  }

  /** One more call, which succeeds. */
  lemma ThenRoom(r: Room, events: seq<RoomEvent>, s: Room, e: RoomEvent, t: Room)
    requires Leads(r, events, s) && ApplyRoom(s, e.sender, e.now, e.call) == Ok(t)
    ensures Leads(r, events + [e], t)
  {
    hide ApplyRoom, Leads;
    LeadsOne(s, e);
    LeadsOn(r, events, s, [e], t);
  }

  // ----------------------------------------------------------- reposted bond

  /** A participant posts a bond, the room is closed because its gate is silent, the
      bond is claimed after the claim window, and posted again. */
  function Reposting(c: RoomConfig, anyone: Address, closing: Uint64, claiming: Uint64): seq<RoomEvent> {
    [RoomEvent(c.participantA, closing, PostRoomBondCall)]
    + [RoomEvent(anyone, closing, StallCloseCall)]
    + [RoomEvent(c.participantA, claiming, ClaimRoomBondCall)]
    + [RoomEvent(c.participantA, claiming, PostRoomBondCall)]
  }

  /** In every room whose periods leave time for it: each of these calls is accepted, and
      no claim of the second bond ever succeeds. */
  lemma RoomRepostHappens(c: RoomConfig, start: Uint64, anyone: Address, closing: Uint64, claiming: Uint64,
                          more: seq<RoomEvent>, now: Uint64)
    requires RoomConfigOk(c) && c.self !in {anyone, c.participantA}
    requires start + c.gateStallTimeout <= closing && closing + c.integrityClaimWindow <= claiming
    ensures
      var run := Reposting(c, anyone, closing, claiming);
      var r := ReachedRoom(c, start, run);
      && Plausible(c, start, run) && Leads(NewRoom(c, start), run, r)
      && c.participantA in r.deposits.integrityBondClaimed
      && Get(r.deposits.integrityBondOf, c.participantA) == r.deposits.purse.held == ROOM_INTEGRITY_BOND
      && ClaimBond(RunRoom(r, more), c.participantA, now).Revert?
  {
    var run := Reposting(c, anyone, closing, claiming);
    var r0 := NewRoom(c, start);
    var r1 := ApplyRoom(r0, run[0].sender, closing, run[0].call).value;
    var r2 := ApplyRoom(r1, run[1].sender, closing, run[1].call).value;
    var r3 := ApplyRoom(r2, run[2].sender, claiming, run[2].call).value;
    var r4 := ApplyRoom(r3, run[3].sender, claiming, run[3].call).value;
    RepostedRoomBondIsLocked(r2, c.participantA, claiming, more, now);
    hide ApplyRoom, Leads, RunRoom, ClaimBond;
    LeadsNowhere(r0);
    ThenRoom(r0, [], r0, run[0], r1);
    ThenRoom(r0, [] + [run[0]], r1, run[1], r2);
    ThenRoom(r0, [] + [run[0]] + [run[1]], r2, run[2], r3);
    ThenRoom(r0, [] + [run[0]] + [run[1]] + [run[2]], r3, run[3], r4);
    assert [] + [run[0]] + [run[1]] + [run[2]] + [run[3]] == run;
    LeadsIsRun(r0, run, r4);
    AtOnce(c, start, run[..2], closing);
    AtOnce(c, closing, run[2..], claiming);
    PlausibleInTurn(c, start, run[..2], run[2..], closing);
    assert run[..2] + run[2..] == run;
  }

  // ----------------------------------------------------------- stranded slot

  const ROOM: Address := 100
  const GATE_SIGNER: Address := 101
  const PUBLISHER: Address := 102

  /** A room whose slots can be challenged for as long as the clock goes on. */
  const RULES: RoomConfig :=
    RoomConfig(ROOM, 1, GATE_SIGNER, PUBLISHER, 103, 5, 6, 7, 8, 10, ZERO_ADDRESS, [11, 12, 13], 10, 1, 1000,
               TWO_64 - 1, 5, 0, 10, 5, 5, 5, 1, map[1 := 100], {})

  const REQUEST: SlotRequest := SlotRequest(1, 0, 0, 0, 100, "")
  const PERMIT: PublicationPermit := PublicationPermit(0, (REQUEST, []), 0, 0, 0, 1, 2, 0)

  /** Both bonds are posted, one slot is published, the gate closes the room and anyone
      the slot. */
  function Bonded(): seq<RoomEvent> {
    [RoomEvent(5, 1, PostRoomBondCall), RoomEvent(6, 1, PostRoomBondCall)]
  }

  function Publication(): RoomEvent {
    RoomEvent(PUBLISHER, 1, PublishCall(REQUEST, PERMIT, GATE_SIGNER, []))
  }

  function Closed(): seq<RoomEvent> {
    Bonded() + [Publication()] + [RoomEvent(GATE_SIGNER, 1, CloseRoomCall(1))]
    + [RoomEvent(4, 1, CloseRemainingCall([0]))]
  }

  /** And two resolvers find that A won. */
  function Ruled(): seq<RoomEvent> {
    Closed()
    + [RoomEvent(11, 1, SlotCall(0, AttestCall(ParticipantA, 1)))]
    + [RoomEvent(12, 1, SlotCall(0, AttestCall(ParticipantA, 1)))]
  }

  lemma RulesHold()
    ensures RoomConfigOk(RULES) && ConfigOk(SlotConfig(RULES, 100, 1))
    ensures 11 in RULES.resolvers && 12 in RULES.resolvers
  {
    assert RULES.resolvers[0] == 11 && RULES.resolvers[1] == 12;
  }

  lemma BondsPosted() returns (r: Room)
    ensures Leads(NewRoom(RULES, 1), Bonded(), r)
    ensures r == NewRoom(RULES, 1).(deposits := r.deposits) && ParticipantsReady(RULES, r.deposits)
    ensures r.deposits.purse.held == 2 * ROOM_INTEGRITY_BOND
  {
    var r0 := NewRoom(RULES, 1);
    var r1 := ApplyRoom(r0, 5, 1, PostRoomBondCall).value;
    r := ApplyRoom(r1, 6, 1, PostRoomBondCall).value;
    hide ApplyRoom, Leads;
    LeadsNowhere(r0);
    ThenRoom(r0, [], r0, RoomEvent(5, 1, PostRoomBondCall), r1);
    ThenRoom(r0, [] + [RoomEvent(5, 1, PostRoomBondCall)], r1, RoomEvent(6, 1, PostRoomBondCall), r);
    assert [] + [RoomEvent(5, 1, PostRoomBondCall)] + [RoomEvent(6, 1, PostRoomBondCall)] == Bonded();
  }

  /** A fresh slot, not closed yet, with the rules of this room. */
  predicate FreshSlot(m: Market) {
    && m.config == SlotConfig(RULES, 100, 1)
    && m.ruling == NewMarket(m.config, {}).ruling
  }

  lemma Publishes(s: Room) returns (r: Room)
    requires s == NewRoom(RULES, 1).(deposits := s.deposits) && ParticipantsReady(RULES, s.deposits)
    ensures PublishSlot(s, PUBLISHER, 1, REQUEST, PERMIT, GATE_SIGNER, []) == Ok(r)
    ensures r.config == RULES && |r.slots| == 1 && FreshSlot(r.slots[0]) && r.slots[0].gate.state.Open?
    ensures r.slots[0].gate.lastSafeSequence == 0 && r.open == OpenIndex([0], map[0 := 1])
    ensures r.watch == Watch(0, 0, 0, 1, false) && r.deposits == s.deposits
  {
    RulesHold();
    hide ParticipantsReady, RoomRestricted, ConfigOk, SlotConfig, RestrictedBy;
    assert ValidatePermit(s, 1, REQUEST, PERMIT, GATE_SIGNER, []).Ok?;
    assert ValidateRequest(s, REQUEST).Ok?;
    hide ValidatePermit, ValidateRequest;
    r := PublishSlot(s, PUBLISHER, 1, REQUEST, PERMIT, GATE_SIGNER, []).value;
    assert [] + [0] == [0];
  }

  lemma SlotPublished() returns (r: Room)
    ensures Leads(NewRoom(RULES, 1), Bonded() + [Publication()], r)
    ensures r.config == RULES && |r.slots| == 1 && FreshSlot(r.slots[0]) && r.slots[0].gate.state.Open?
    ensures r.slots[0].gate.lastSafeSequence == 0 && r.open == OpenIndex([0], map[0 := 1])
    ensures r.watch == Watch(0, 0, 0, 1, false) && r.deposits.purse.held == 2 * ROOM_INTEGRITY_BOND
  {
    var s := BondsPosted();
    r := Publishes(s);
    hide Leads, NewRoom, FreshSlot, PublishSlot, Bonded;
    ThenRoom(NewRoom(RULES, 1), Bonded(), s, Publication(), r);
  }

  /** The gate closes the room. */
  lemma RoomClosed() returns (r: Room)
    ensures Leads(NewRoom(RULES, 1), Bonded() + [Publication()] + [RoomEvent(GATE_SIGNER, 1, CloseRoomCall(1))], r)
    ensures r.config == RULES && |r.slots| == 1 && FreshSlot(r.slots[0]) && r.slots[0].gate.state.Open?
    ensures r.slots[0].gate.lastSafeSequence == 0 && r.open == OpenIndex([0], map[0 := 1])
    ensures r.watch.roomClosedSequence == 1 && r.deposits.purse.held == 2 * ROOM_INTEGRITY_BOND
  {
    var s := SlotPublished();
    hide Leads, NewRoom, FreshSlot, Bonded, Publication;
    r := CloseRoom(s, GATE_SIGNER, 1, 1).value;
    ThenRoom(NewRoom(RULES, 1), Bonded() + [Publication()], s, RoomEvent(GATE_SIGNER, 1, CloseRoomCall(1)), r);
  }

  lemma OneCloses(m: Market, msg: Msg)
    requires msg.sender == m.config.gateOracle && m.gate.state.Open? && m.gate.lastSafeSequence == 0 && msg.now == 1
    ensures
      var r := CloseEach([m], OpenIndex([0], map[0 := 1]), msg, 1, [0]);
      && r.Ok? && |r.value.0| == 1
      && var n := r.value.0[0];
      && n == m.(gate := n.gate) && n.gate.state.Closed? && n.gate.resolutionDueAt == 1801
  {
    hide CurrentEpoch;
    var closed := CloseForDecisiveEvent(m, msg, 1).value;
    var rest := OpenIndex([0][..0], map[0 := 1][0 := 0]);
    assert CloseOne([m], OpenIndex([0], map[0 := 1]), msg, 1, 0) == Ok(([m][0 := closed], rest));
    assert [0][1..] == [] && CloseEach([m][0 := closed], rest, msg, 1, []) == Ok(([m][0 := closed], rest));
  }

  lemma SlotClosed() returns (r: Room)
    ensures Leads(NewRoom(RULES, 1), Closed(), r)
    ensures r.config == RULES && |r.slots| == 1 && FreshSlot(r.slots[0]) && r.slots[0].gate.state.Closed?
    ensures r.slots[0].gate.resolutionDueAt == 1801 && r.deposits.purse.held == 2 * ROOM_INTEGRITY_BOND
  {
    var s := RoomClosed();
    hide ParticipantsReady, FreshSlot, Leads, CloseEach, NewRoom, Bonded, Publication;
    GateIsRoom(s.slots[0]);
    OneCloses(s.slots[0], FromRoom(s, 1));
    assert s.slots == [s.slots[0]];
    r := CloseRemainingSlots(s, 1, [0]).value;
    StillFresh(s.slots[0], r.slots[0]);
    ThenRoom(NewRoom(RULES, 1), Bonded() + [Publication()] + [RoomEvent(GATE_SIGNER, 1, CloseRoomCall(1))], s,
             RoomEvent(4, 1, CloseRemainingCall([0])), r);
  }

  lemma GateIsRoom(m: Market)
    requires FreshSlot(m)
    ensures m.config.gateOracle == ROOM
  {
  }

  lemma StillFresh(m: Market, n: Market)
    requires FreshSlot(m) && n == m.(gate := n.gate)
    ensures FreshSlot(n)
  {
  }

  /** Two attestations strand a slot whose window ends beyond the clock. */
  lemma TwoAttestations(m: Market, ready: bool) returns (one: Market, two: Market)
    requires FreshSlot(m) && m.gate.state.Closed? && m.gate.resolutionDueAt == 1801
    ensures Apply(m, Msg(11, 1, ready), AttestCall(ParticipantA, 1)) == Ok(one)
    ensures Apply(one, Msg(12, 1, ready), AttestCall(ParticipantA, 1)) == Ok(two)
    ensures Stranded(two)
  {
    RulesHold();
    one := AttestResult(m, Msg(11, 1, ready), ParticipantA, 1).value;
    two := AttestResult(one, Msg(12, 1, ready), ParticipantA, 1).value;
  }

  lemma SlotRuled() returns (r: Room)
    ensures Leads(NewRoom(RULES, 1), Ruled(), r)
    ensures |r.slots| == 1 && Stranded(r.slots[0]) && r.deposits.purse.held == 2 * ROOM_INTEGRITY_BOND
  {
    var s := SlotClosed();
    var one, two := TwoAttestations(s.slots[0], ParticipantsReady(RULES, s.deposits));
    var call := AttestCall(ParticipantA, 1);
    hide Apply, Stranded, FreshSlot, Leads, Closed, ParticipantsReady, NewRoom;
    var t := s.(slots := s.slots[0 := one]);
    r := t.(slots := t.slots[0 := two]);
    SlotAttested(s, 11, one);
    SlotAttested(t, 12, two);
    hide ApplyRoom;
    ThenRoom(NewRoom(RULES, 1), Closed(), s, RoomEvent(11, 1, SlotCall(0, call)), t);
    ThenRoom(NewRoom(RULES, 1), Closed() + [RoomEvent(11, 1, SlotCall(0, call))], t,
             RoomEvent(12, 1, SlotCall(0, call)), r);
  }

  lemma SlotAttested(s: Room, resolver: Address, m: Market)
    requires 0 < |s.slots|
    requires Apply(s.slots[0], Msg(resolver, 1, ParticipantsReady(s.config, s.deposits)), AttestCall(ParticipantA, 1))
             == Ok(m)
    ensures ApplyRoom(s, resolver, 1, SlotCall(0, AttestCall(ParticipantA, 1))) == Ok(s.(slots := s.slots[0 := m]))
  {
    hide Apply, ParticipantsReady;
  }

  lemma AllAtOnce()
    ensures Plausible(RULES, 1, Ruled())
  {
    AtOnce(RULES, 1, Ruled(), 1);
  }

  /** A slot of a room is stranded by this run of accepted calls, and after any further
      run the slots are not all final and no bond is ever claimed. */
  lemma StrandedSlotHappens(more: seq<RoomEvent>, p: Address, now: Uint64)
    ensures
      var r := ReachedRoom(RULES, 1, Ruled());
      && RoomConfigOk(RULES) && Plausible(RULES, 1, Ruled()) && Leads(NewRoom(RULES, 1), Ruled(), r)
      && |r.slots| == 1 && Stranded(r.slots[0])
      && r.deposits.purse.held == 2 * ROOM_INTEGRITY_BOND
      && !AllFinal(RunRoom(r, more).slots) && ClaimBond(RunRoom(r, more), p, now).Revert?
  {
    RulesHold();
    AllAtOnce();
    var r := SlotRuled();
    hide Stranded, Leads, RunRoom, Ruled, AllFinal, ClaimBond, NewRoom, Plausible;
    LeadsIsRun(NewRoom(RULES, 1), Ruled(), r);
    StrandedSlotLocksRoom(r, more, 0, p, now);
  }
}
