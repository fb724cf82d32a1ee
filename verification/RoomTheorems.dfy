/** What holds of a room in every reachable state. */
module RoomTheorems {
  import opened Prelude
  import opened Market
  import opened MarketInvariant
  import opened Room
  import opened RoomInvariant
  import opened RoomRuns

  // -------------------------------------------------------------- watermark

  /** Watermark dominance: no slot is ever ahead of the room's watermark, and once
      the room is closed, however it closed, every slot stays strictly behind the
      closing sequence. */
  lemma WatermarkDominance(c: RoomConfig, start: Uint64, events: seq<RoomEvent>, slot: nat)
    requires RoomConfigOk(c) && Plausible(c, start, events)
    requires slot < |ReachedRoom(c, start, events).slots|
    ensures
      var r := ReachedRoom(c, start, events);
      var g := r.slots[slot].gate;
      && g.lastSafeSequence <= r.watch.lastObservedSequence
      && (r.watch.roomClosedSequence != 0 ==> g.lastSafeSequence < r.watch.roomClosedSequence)
  {
    hide Inv, ReachedRoom, OpenOk, DepositsOk;
    RoomReachable(c, start, events);
    assert SlotOk(ReachedRoom(c, start, events).slots[slot], c, ReachedRoom(c, start, events).watch,
                  RoomEnd(start, events));
  }

  /** A room closes once: from then on its closing sequence, time and slots are
      fixed, and publication and every gate action revert. */
  lemma RoomClosesOnce(c: RoomConfig, start: Uint64, events: seq<RoomEvent>, more: seq<RoomEvent>, now: Uint64, s: nat,
                       markets: seq<nat>, epochs: seq<Uint64>)
    requires RoomConfigOk(c) && Plausible(c, start, events)
    ensures
      var r := ReachedRoom(c, start, events);
      var later := RunRoom(r, more);
      r.watch.roomClosedSequence != 0 ==>
        && later.watch == r.watch && |later.slots| == |r.slots|
        && CloseRoom(later, c.gateSigner, now, s).Revert? && CloseRoomOnGateStall(later, now).Revert?
        && SuspendRoom(later, c.gateSigner, now, s).Revert? && ReopenRoom(later, c.gateSigner, now, s).Revert?
        && CloseSlots(later, c.gateSigner, now, s, markets).Revert?
        && MarkRoomEpochsSafe(later, c.gateSigner, now, s, markets, epochs).Revert?
  {
    hide ReachedRoom, RunRoom, RoomInv, SlotsEvolve, CallEach, CloseEach, ParticipantsReady;
    RoomReachable(c, start, events);
    RunRoomEvolves(ReachedRoom(c, start, events), more);
  }

  /** In a closed room anyone can close slots: a batch of at most 16 known slots is
      accepted, and afterwards every one of them is closed; nothing but gates
      changed. */
  lemma CloseRemainingSkipsNothing(c: RoomConfig, start: Uint64, events: seq<RoomEvent>, now: Uint64, markets: seq<nat>)
    requires RoomConfigOk(c) && Plausible(c, start, events) && RoomEnd(start, events) <= now
    requires forall i :: 0 <= i < |markets| ==> markets[i] < |ReachedRoom(c, start, events).slots|
    ensures
      var r := ReachedRoom(c, start, events);
      var n := CloseRemainingSlots(r, now, markets);
      r.watch.roomClosedSequence != 0 && |markets| <= 16 ==>
        && n.Ok?
        && GateMoved(r.slots, n.value.slots)
        && n.value == r.(slots := n.value.slots, open := n.value.open)
        && (forall i :: 0 <= i < |markets| ==> n.value.slots[markets[i]].gate.state.Closed?)
  {
    hide ReachedRoom, RoomInv, CloseRemainingSlots, GateMoved;
    RoomReachable(c, start, events);
    var r := ReachedRoom(c, start, events);
    RoomLater(r, RoomEnd(start, events), now);
    CloseRemainingKeeps(r, now, markets);
    if CloseRemainingSlots(r, now, markets).Ok? {
      SameLength(r.slots, CloseRemainingSlots(r, now, markets).value.slots);
    }
  }

  lemma SameLength(slots: seq<Market>, next: seq<Market>)
    requires GateMoved(slots, next)
    ensures |next| == |slots|
  {
  }

  // ------------------------------------------------------------- open slots

  /** The index of open slots is exact: list and positions are inverse, no slot is
      listed twice, the slots listed are exactly the published ones whose gate is
      not closed, and there are never more than the frozen maximum. */
  lemma OpenIndexIsExact(c: RoomConfig, start: Uint64, events: seq<RoomEvent>)
    requires RoomConfigOk(c) && Plausible(c, start, events)
    ensures
      var r := ReachedRoom(c, start, events);
      var o := r.open;
      && (forall i :: 0 <= i < |o.openSlots| ==> Get(o.indexPlusOne, o.openSlots[i]) == i + 1)
      && (forall i, j :: 0 <= i < j < |o.openSlots| ==> o.openSlots[i] != o.openSlots[j])
      && (forall s: nat :: s in o.openSlots <==> s < |r.slots| && !r.slots[s].gate.state.Closed?)
      && (forall s: nat :: Get(o.indexPlusOne, s) != 0 <==> s in o.openSlots)
      && |o.openSlots| <= c.maxOpenSlots
  {
    hide ReachedRoom, SlotsOk, DepositsOk;
    RoomReachable(c, start, events);
    ListedIffIndexed(ReachedRoom(c, start, events).open);
  }

  lemma ListedIffIndexed(o: OpenIndex)
    requires IndexInverse(o)
    ensures forall s: nat :: Get(o.indexPlusOne, s) != 0 <==> s in o.openSlots
    ensures forall i, j :: 0 <= i < j < |o.openSlots| ==> o.openSlots[i] != o.openSlots[j]
  {
    forall s: nat ensures Get(o.indexPlusOne, s) != 0 <==> s in o.openSlots {
      if s in o.openSlots {
        var i :| 0 <= i < |o.openSlots| && o.openSlots[i] == s;
        assert Get(o.indexPlusOne, o.openSlots[i]) == i + 1;
      }
    }
  }

  /** Suspending and reopening a slot again changes nothing more. */
  lemma TwiceIsOnce(m: Market, msg: Msg, call: Call)
    requires call.SuspendCall? || call.ReopenCall?
    ensures Step(Step(m, msg, call), msg, call) == Step(m, msg, call)
  {
  }

  /** The same call on each of a list of slots, some perhaps repeated. */
  lemma {:induction false} SameCallOnEach(slots: seq<Market>, msg: Msg, markets: seq<nat>, call: Call)
    requires call.SuspendCall? || call.ReopenCall?
    requires CallEach(slots, msg, SameCalls(markets, call)).Ok?
    ensures
      var next := CallEach(slots, msg, SameCalls(markets, call)).value;
      && |next| == |slots|
      && (forall i: nat :: i < |slots| ==>
            next[i] == if i in markets then Step(slots[i], msg, call) else slots[i])
    decreases |markets|
  {
    hide Step;
    if markets != [] {
      var first := markets[0];
      var once := slots[first := Step(slots[first], msg, call)];
      assert SameCalls(markets, call)[1..] == SameCalls(markets[1..], call);
      SameCallOnEach(once, msg, markets[1..], call);
      TwiceIsOnce(slots[first], msg, call);
      assert markets == [first] + markets[1..];
    }
  }

  /** After a suspension every open slot is suspended, and nothing else changed. */
  lemma SuspensionReachesEverySlot(c: RoomConfig, start: Uint64, events: seq<RoomEvent>, sender: Address, now: Uint64,
                                   sequence: nat)
    requires RoomConfigOk(c) && Plausible(c, start, events) && RoomEnd(start, events) <= now
    ensures
      var r := ReachedRoom(c, start, events);
      var n := SuspendRoom(r, sender, now, sequence);
      && (n.Ok?
          <==> sender == c.gateSigner && r.watch.roomClosedSequence == 0 && r.watch.lastObservedSequence <= sequence)
      && (n.Ok? ==>
            && |n.value.slots| == |r.slots|
            && (forall i :: 0 <= i < |r.slots| ==>
                  n.value.slots[i] == if r.slots[i].gate.state.Closed? then r.slots[i]
                                      else r.slots[i].(gate := r.slots[i].gate.(state := Suspended))))
  {
    hide ReachedRoom, RunRoom, Inv, DepositsOk, CallEach;
    RoomReachable(c, start, events);
    var r := ReachedRoom(c, start, events);
    RoomLater(r, RoomEnd(start, events), now);
    GatedBatch(r, now, sequence, SuspendCall(sequence));
    if SuspendRoom(r, sender, now, sequence).Ok? {
      forall i: nat | i < |r.slots|
        ensures SuspendRoom(r, sender, now, sequence).value.slots[i]
             == if r.slots[i].gate.state.Closed? then r.slots[i]
                else r.slots[i].(gate := r.slots[i].gate.(state := Suspended))
      {
        assert SlotOk(r.slots[i], c, r.watch, now);
        if !r.slots[i].gate.state.Closed? {
          SuspendStep(r.slots[i], FromRoom(r, now), sequence);
        }
      }
    }
  }

  lemma SuspendStep(m: Market, msg: Msg, sequence: nat)
    requires msg.sender == m.config.gateOracle && m.gate.lastSafeSequence <= sequence && !m.gate.state.Closed?
    ensures Step(m, msg, SuspendCall(sequence)) == m.(gate := m.gate.(state := Suspended))
  {
  }

  /** The batch a suspension or a reopening makes, in any reachable room. */
  lemma GatedBatch(r: Room, now: Uint64, sequence: nat, call: Call)
    requires RoomInv(r, now) && (call == SuspendCall(sequence) || call == ReopenCall(sequence))
    ensures
      var next := CallEach(r.slots, FromRoom(r, now), SameCalls(r.open.openSlots, call));
      r.watch.roomClosedSequence == 0 && r.watch.lastObservedSequence <= sequence ==>
        && next.Ok?
        && |next.value| == |r.slots|
        && (forall i: nat :: i < |r.slots| ==>
              next.value[i] == if r.slots[i].gate.state.Closed? then r.slots[i]
                else Step(r.slots[i], FromRoom(r, now), call))
  {
    hide SlotsOk, DepositsOk, Step, CallEach, ParticipantsReady, RoomConfigOk;
    if r.watch.roomClosedSequence == 0 && r.watch.lastObservedSequence <= sequence {
      WatchRaised(r, now, sequence);
      ListedIffIndexed(r.open);
      var v := AdvanceSequence(r.watch, now, sequence).value;
      BatchKeeps(r, v, now, SameCalls(r.open.openSlots, call));
      assert forall i :: 0 <= i < |r.open.openSlots| ==> r.open.openSlots[i] in r.open.openSlots;
      SameCallOnEach(r.slots, FromRoom(r, now), r.open.openSlots, call);
    }
  }

  /** A reopening reopens exactly the suspended slots whose watermark lies below its
      sequence, and raises theirs to it. */
  lemma ReopeningIsExact(c: RoomConfig, start: Uint64, events: seq<RoomEvent>, sender: Address, now: Uint64,
                         sequence: nat)
    requires RoomConfigOk(c) && Plausible(c, start, events) && RoomEnd(start, events) <= now
    ensures
      var r := ReachedRoom(c, start, events);
      var n := ReopenRoom(r, sender, now, sequence);
      && (n.Ok?
          <==> sender == c.gateSigner && r.watch.roomClosedSequence == 0 && r.watch.lastObservedSequence <= sequence)
      && (n.Ok? ==>
            && |n.value.slots| == |r.slots|
            && (forall i :: 0 <= i < |r.slots| ==>
                  var g := r.slots[i].gate;
                  n.value.slots[i] == if g.state.Suspended? && g.lastSafeSequence < sequence
                                      then r.slots[i].(gate := g.(state := Open, lastSafeSequence := sequence))
                                      else r.slots[i]))
  {
    hide ReachedRoom, RunRoom, Inv, DepositsOk, CallEach;
    RoomReachable(c, start, events);
    var r := ReachedRoom(c, start, events);
    RoomLater(r, RoomEnd(start, events), now);
    GatedBatch(r, now, sequence, ReopenCall(sequence));
    if ReopenRoom(r, sender, now, sequence).Ok? {
      forall i: nat | i < |r.slots|
        ensures
          var g := r.slots[i].gate;
          ReopenRoom(r, sender, now, sequence).value.slots[i]
          == if g.state.Suspended? && g.lastSafeSequence < sequence
             then r.slots[i].(gate := g.(state := Open, lastSafeSequence := sequence)) else r.slots[i]
      {
        assert SlotOk(r.slots[i], c, r.watch, now);
        ReopenStep(r.slots[i], FromRoom(r, now), sequence);
      }
    }
  }

  lemma ReopenStep(m: Market, msg: Msg, sequence: nat)
    requires msg.sender == m.config.gateOracle
    ensures Step(m, msg, ReopenCall(sequence))
         == if m.gate.state.Suspended? && m.gate.lastSafeSequence < sequence
            then m.(gate := m.gate.(state := Open, lastSafeSequence := sequence)) else m
  {
  }

  // ------------------------------------------------------------ publication

  /** One new open slot, of an approved template at its frozen reward and after the
      minimum notice: the headline first, and others only while it has liquidity. */
  ghost predicate PublishedWell(r: Room, now: Uint64, request: SlotRequest, n: Room) {
    var index, c := |r.slots|, r.config;
    && |n.slots| == index + 1 && n.slots[..index] == r.slots
    && request.templateId in c.templates && c.templates[request.templateId] == n.slots[index].config.winnerRewardBps
    && n.slots[index].config.opensAt == now + request.announceDelay >= now + c.minAnnounceDelay
    && n.slots[index].gate.state.Open? && n.slots[index].config.gateOracle == c.self
    && c.participantA in n.slots[index].restricted && c.publisher in n.slots[index].restricted
    && Get(r.deposits.integrityBondOf, c.participantA) == Get(r.deposits.integrityBondOf, c.participantB)
      == ROOM_INTEGRITY_BOND
    && (if index == 0 then request.templateId == c.headlineTemplateId else HasLiquidity(r.slots[0]))
  }

  /** A slot can be published only by the publisher with a permit the gate signed
      for exactly this request, not older than the frozen lifetime, which no permit is
      ever refused for alone; and a nonce works once, whatever happens in between. */
  lemma PermitPublishesOnce(c: RoomConfig, start: Uint64, events: seq<RoomEvent>, e: RoomEvent, more: seq<RoomEvent>,
                            again: RoomEvent)
    requires RoomConfigOk(c) && Plausible(c, start, events)
    requires e.call.PublishCall? && again.call.PublishCall?
    ensures
      var r := ReachedRoom(c, start, events);
      var n := ApplyRoom(r, e.sender, e.now, e.call);
      n != Revert(PermitTooOld) && (n.Ok? ==>
        && e.sender == c.publisher && e.call.signer == c.gateSigner
        && e.call.permit.requestHash == (e.call.request, e.call.restricted)
        && e.call.permit.issuedAt <= e.now < e.call.permit.expiresAt <= e.call.permit.issuedAt + c.maxPermitLifetime
        && r.watch.lastObservedSequence <= e.call.permit.undecidedThroughSequence == n.value.watch.lastObservedSequence
        && PublishedWell(r, e.now, e.call.request, n.value)
        && (again.call.permit.nonce == e.call.permit.nonce ==>
              ApplyRoom(RunRoom(n.value, more), again.sender, again.now, again.call).Revert?))
  {
    hide ReachedRoom, RunRoom, RoomInv, SlotsEvolve, NewMarket, ConfigOk, ValidateRequest, ParticipantsReady,
      RoomRestricted, PublishedWell;
    RoomReachable(c, start, events);
    AgeGuardNeverFires(ReachedRoom(c, start, events), e);
    var n := ApplyRoom(ReachedRoom(c, start, events), e.sender, e.now, e.call);
    if n.Ok? {
      PublicationIsGood(ReachedRoom(c, start, events), e);
      RunRoomEvolves(n.value, more);
    }
  }

  /** The age guard never fires: a permit older than the frozen lifetime has expired
      already or was signed for too long. */
  lemma AgeGuardNeverFires(r: Room, e: RoomEvent)
    requires e.call.PublishCall?
    ensures ApplyRoom(r, e.sender, e.now, e.call) != Revert(PermitTooOld)
  {
    hide ConfigOk, ValidateRequest, ParticipantsReady, NewMarket, RoomRestricted;
    RequestIsNoPermit(r, e.call.request);
  }

  lemma RequestIsNoPermit(r: Room, request: SlotRequest)
    ensures ValidateRequest(r, request) != Revert(PermitTooOld)
  {
  }

  lemma PublicationIsGood(r: Room, e: RoomEvent)
    requires e.call.PublishCall? && ApplyRoom(r, e.sender, e.now, e.call).Ok?
    ensures PublishedWell(r, e.now, e.call.request, ApplyRoom(r, e.sender, e.now, e.call).value)
  {
    hide ConfigOk, ValidatePermit, AddOpen, HasLiquidity;
  }

  // ------------------------------------------------------- bonds and claims

  /** The room's balance is its posted bonds and one claim bond per open claim, and
      the open claims against each participant are counted exactly. */
  lemma RoomBalance(c: RoomConfig, start: Uint64, events: seq<RoomEvent>, p: Address)
    requires RoomConfigOk(c) && Plausible(c, start, events)
    ensures
      var d := ReachedRoom(c, start, events).deposits;
      && d.purse.held == Get(d.integrityBondOf, c.participantA) + Get(d.integrityBondOf, c.participantB)
                         + 10_000_000 * OpenClaims(d.claims)
      && Get(d.openClaimsAgainst, p) == OpenAgainst(d.claims, p)
      && Get(d.integrityBondOf, p) in {0, 100_000_000}
  {
    hide ReachedRoom, SlotsOk, OpenOk, Sum, OpenClaims, OpenAgainst;
    RoomReachable(c, start, events);
    var d := ReachedRoom(c, start, events).deposits;
    assert BondOk(d, c, p);
    TwoBonds(d, c);
  }

  /** Nobody but the two participants ever has a bond. */
  lemma TwoBonds(d: Deposits, c: RoomConfig)
    requires c.participantA != c.participantB
    requires forall p: Address :: BondOk(d, c, p)
    ensures Sum(d.integrityBondOf) == Get(d.integrityBondOf, c.participantA) + Get(d.integrityBondOf, c.participantB)
  {
    var m, a, b := d.integrityBondOf, c.participantA, c.participantB;
    SumUpdate(m, a, 0);
    SumUpdate(m[a := 0], b, 0);
    assert Get(m[a := 0], b) == Get(m, b);
    var rest := m[a := 0][b := 0];
    forall p | p in rest ensures rest[p] == 0 {
      assert BondOk(d, c, p);
    }
    AllZero(rest);
  }

  /** A participant's bond can be claimed exactly when the room is closed, every
      slot is final, the claim window is over, no claim against the participant is
      open, and a bond is posted and none was claimed before. */
  lemma RoomBondClaimIff(c: RoomConfig, start: Uint64, events: seq<RoomEvent>, p: Address, now: Uint64)
    requires RoomConfigOk(c) && Plausible(c, start, events) && RoomEnd(start, events) <= now
    ensures
      var r := ReachedRoom(c, start, events);
      var d := r.deposits;
      ClaimBond(r, p, now).Ok? <==>
        && r.watch.roomClosedSequence != 0
        && AllFinal(r.slots)
        && r.watch.roomClosedAt + c.integrityClaimWindow <= now
        && OpenAgainst(d.claims, p) == 0
        && p !in d.integrityBondClaimed && Get(d.integrityBondOf, p) != 0
  {
    hide ReachedRoom, SlotsOk, OpenOk, AllFinal, OpenAgainst, OpenClaims, Sum;
    RoomReachable(c, start, events);
    var r := ReachedRoom(c, start, events);
    RoomLater(r, RoomEnd(start, events), now);
    assert BondOk(r.deposits, c, p);
    BondInPurse(r.deposits, c, r.watch, now, p);
    assert Get(r.deposits.openClaimsAgainst, p) == OpenAgainst(r.deposits.claims, p);
  }

  /** Whoever has claimed a bond can post one again at once, and can never claim that
      one: the post is accepted, and after any further run every claim of it reverts. */
  lemma RepostedRoomBondIsLocked(r: Room, p: Address, now: Uint64, more: seq<RoomEvent>, again: Uint64)
    ensures
      var claimed := ClaimBond(r, p, now);
      claimed.Ok? ==>
        var posted := PostBond(r.config, claimed.value, p);
        && posted.Ok?
        && Get(posted.value.integrityBondOf, p) == ROOM_INTEGRITY_BOND
        && posted.value.purse.held == claimed.value.purse.held + ROOM_INTEGRITY_BOND
        && ClaimBond(RunRoom(r.(deposits := posted.value), more), p, again).Revert?
  {
    hide RunRoom, SlotsEvolve, AllFinal;
    var claimed := ClaimBond(r, p, now);
    if claimed.Ok? {
      RunRoomEvolves(r.(deposits := PostBond(r.config, claimed.value, p).value), more);
    }
  }

  /** An upheld claim costs the participant the bond, if it is still there, and
      returns the claim bond; a rejected one costs the claimant the claim bond and
      leaves the participant's alone; an expired one returns the claim bond and
      leaves the participant's alone. */
  lemma BondsOfClaim(d: Deposits, c: RoomConfig, w: Watch, now: Uint64, sender: Address, id: nat, uphold: bool)
    requires DepositsOk(d, c, w, now) && id < |d.claims|
    ensures
      var claim, decided := d.claims[id], AdjudicateClaim(c, d, sender, now, id, uphold);
      decided.Ok? ==>
        var bond := Get(d.integrityBondOf, claim.participant);
        && sender == c.integrityAdjudicator && claim.status.Outstanding?
          && now < claim.filedAt + c.integrityClaimTimeout
        && decided.value.claims[id].status == (if uphold then Upheld else Rejected)
        && Get(decided.value.integrityBondOf, claim.participant) == (if uphold then 0 else bond)
        && (forall x: Address ::
              Get(decided.value.purse.sent, x) == Get(d.purse.sent, x)
                + (if uphold && x == claim.claimant then INTEGRITY_CLAIM_BOND else 0)
                + (if x == c.bondRecipient then (if uphold then bond else INTEGRITY_CLAIM_BOND) else 0))
    ensures
      var claim, expired := d.claims[id], ExpireClaim(c, d, now, id);
      expired.Ok? ==>
        && claim.status.Outstanding? && claim.filedAt + c.integrityClaimTimeout <= now
        && expired.value.claims[id].status.Expired?
        && expired.value.integrityBondOf == d.integrityBondOf
        && (forall x: Address ::
              Get(expired.value.purse.sent, x)
                == Get(d.purse.sent, x) + (if x == claim.claimant then INTEGRITY_CLAIM_BOND else 0))
  {
    hide Sum, OpenClaims, OpenAgainst;
  }
}
