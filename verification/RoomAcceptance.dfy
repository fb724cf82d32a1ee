/** Exactly which calls a room accepts, in every reachable state, what a batch does to each
    slot, and the rules that every slot has from its room. */
module RoomAcceptance {
  import opened Prelude
  import opened Market
  import opened MarketRuns
  import opened Room
  import opened RoomInvariant
  import opened RoomRuns
  import opened RoomTheorems
  import opened RoomBonds

  // --------------------------------------------------------------- acceptance

  /** Every listed number is that of a published slot. */
  predicate AllKnown(r: Room, markets: seq<nat>) {
    forall i :: 0 <= i < |markets| ==> markets[i] < |r.slots|
  }

  /** The gate calls, the room is open, and the sequence does not go back. */
  predicate FromGate(r: Room, c: RoomConfig, sender: Address, sequence: nat) {
    sender == c.gateSigner && r.watch.roomClosedSequence == 0 && r.watch.lastObservedSequence <= sequence
  }

  /** Both participants have their bonds posted. */
  predicate BothBonded(r: Room, c: RoomConfig) {
    && Get(r.deposits.integrityBondOf, c.participantA) == 100_000_000
    && Get(r.deposits.integrityBondOf, c.participantB) == 100_000_000
  }

  /** The rules of a slot at this reward are acceptable to the market. */
  predicate SlotRulesOk(c: RoomConfig, reward: nat) {
    && c.self != ZERO_ADDRESS && reward <= 100
    && c.participantA != ZERO_ADDRESS && c.participantB != ZERO_ADDRESS && c.participantA != c.participantB
    && c.rewardAddressA != ZERO_ADDRESS && c.rewardAddressB != ZERO_ADDRESS && c.bondRecipient != ZERO_ADDRESS
    && |c.resolvers| == 3 && ZERO_ADDRESS !in c.resolvers
    && c.resolvers[0] != c.resolvers[1] && c.resolvers[0] != c.resolvers[2] && c.resolvers[1] != c.resolvers[2]
  }

  predicate AcceptsPublication(r: Room, c: RoomConfig, sender: Address, now: Uint64, request: SlotRequest,
                               permit: PublicationPermit, signer: Address, restricted: seq<Address>)
  {
    && sender == c.publisher && r.watch.roomClosedSequence == 0 && BothBonded(r, c)
    // the permit: signed for this request and this slot, fresh, unused, and not behind
    && signer == c.gateSigner && permit.slotIndex == |r.slots|
    && permit.requestHash == (request, restricted) && permit.conditionHash == request.conditionHash
    && permit.announceDelay == request.announceDelay
    && permit.issuedAt <= now < permit.expiresAt <= permit.issuedAt + c.maxPermitLifetime
    && permit.nonce !in r.usedNonces && r.watch.lastObservedSequence <= permit.undecidedThroughSequence
    // the request: an approved template, enough notice, a free place, the headline first and backed
    && request.templateId in c.templates && c.templates[request.templateId] == request.winnerRewardBps
    && c.minAnnounceDelay <= request.announceDelay && now + request.announceDelay < TWO_64
    && |r.open.openSlots| < c.maxOpenSlots
    && (if r.slots == [] then request.templateId == c.headlineTemplateId
        else 0 < r.slots[0].book.fees.totalLpShares)
    && SlotRulesOk(c, request.winnerRewardBps)
  }

  predicate AcceptsRoomCall(r: Room, c: RoomConfig, sender: Address, now: Uint64, call: RoomCall) {
    var d, participant := r.deposits, sender == c.participantA || sender == c.participantB;
    match call
    case PublishCall(request, permit, signer, restricted) =>
      AcceptsPublication(r, c, sender, now, request, permit, signer, restricted)
    case MarkEpochsSafeCall(sequence, markets, epochs) =>
      FromGate(r, c, sender, sequence) && |markets| == |epochs| <= 16 && AllKnown(r, markets)
    case SuspendRoomCall(sequence) => FromGate(r, c, sender, sequence)
    case ReopenRoomCall(sequence) => FromGate(r, c, sender, sequence)
    case CloseSlotsCall(sequence, markets) =>
      FromGate(r, c, sender, sequence) && |markets| <= 16 && AllKnown(r, markets)
    case CloseRoomCall(_) => sender == c.gateSigner && r.watch.roomClosedSequence == 0
    case StallCloseCall =>
      r.watch.roomClosedSequence == 0 && r.watch.lastGateActivityAt + c.gateStallTimeout <= now
    case CloseRemainingCall(markets) =>
      r.watch.roomClosedSequence != 0 && |markets| <= 16 && AllKnown(r, markets)
    case ProcessRoomCall(markets, epochs, _) => |markets| == |epochs| <= 16 && AllKnown(r, markets)
    case PostRoomBondCall => participant && Get(d.integrityBondOf, sender) == 0
    case ClaimRoomBondCall =>
      && r.watch.roomClosedSequence != 0 && AllFinal(r.slots)
      && r.watch.roomClosedAt + c.integrityClaimWindow <= now && OpenAgainst(d.claims, sender) == 0
      && sender !in d.integrityBondClaimed && Get(d.integrityBondOf, sender) != 0
    case FileClaimCall(accused, code, evidence) =>
      && (accused == c.participantA || accused == c.participantB) && code != 0 && evidence != 0
      && r.watch.roomClosedSequence != 0 && now < r.watch.roomClosedAt + c.integrityClaimWindow
      && Get(d.integrityBondOf, accused) != 0
    case AdjudicateCall(id, _) =>
      && sender == c.integrityAdjudicator && id < |d.claims| && d.claims[id].status.Outstanding?
      && now < d.claims[id].filedAt + c.integrityClaimTimeout < TWO_64
    case ExpireClaimCall(id) =>
      id < |d.claims| && d.claims[id].status.Outstanding? && d.claims[id].filedAt + c.integrityClaimTimeout <= now
    case SlotCall(slot, inner) =>
      slot < |r.slots| && Apply(r.slots[slot], Msg(sender, now, BothBonded(r, c)), inner).Ok?
  }

  lemma PublicationAccepted(r: Room, c: RoomConfig, sender: Address, now: Uint64, request: SlotRequest,
                            permit: PublicationPermit, signer: Address, restricted: seq<Address>)
    requires r.config == c
    ensures PublishSlot(r, sender, now, request, permit, signer, restricted).Ok?
            <==> AcceptsPublication(r, c, sender, now, request, permit, signer, restricted)
  {
    hide NewMarket, RoomRestricted, AddOpen;
  }

  lemma BatchAccepted(r: Room, sender: Address, now: Uint64, call: RoomCall)
    requires RoomInv(r, now)
    requires call.MarkEpochsSafeCall? || call.SuspendRoomCall? || call.ReopenRoomCall? || call.CloseSlotsCall?
      || call.CloseRemainingCall? || call.ProcessRoomCall?
    ensures ApplyRoom(r, sender, now, call).Ok? <==> AcceptsRoomCall(r, r.config, sender, now, call)
  {
    match call
    case MarkEpochsSafeCall(sequence, markets, epochs) => MarkingAccepted(r, sender, now, sequence, markets, epochs);
    case SuspendRoomCall(sequence) => GatedAccepted(r, sender, now, sequence);
    case ReopenRoomCall(sequence) => GatedAccepted(r, sender, now, sequence);
    case CloseSlotsCall(sequence, markets) => ClosingAccepted(r, sender, now, sequence, markets);
    case CloseRemainingCall(markets) =>
      hide RoomInv, CloseRemainingSlots, GateMoved;
      CloseRemainingKeeps(r, now, markets);
    case ProcessRoomCall(markets, epochs, maximum) => ProcessingAccepted(r, now, markets, epochs, maximum);
  }

  lemma MarkingAccepted(r: Room, sender: Address, now: Uint64, sequence: nat, markets: seq<nat>, epochs: seq<Uint64>)
    requires RoomInv(r, now)
    ensures MarkRoomEpochsSafe(r, sender, now, sequence, markets, epochs).Ok?
            <==> FromGate(r, r.config, sender, sequence) && |markets| == |epochs| <= 16 && AllKnown(r, markets)
  {
    hide SlotsOk, OpenOk, DepositsOk, RoomConfigOk, CallEach, ParticipantsReady;
    if |markets| == |epochs| && AdvanceSequence(r.watch, now, sequence).Ok? {
      WatchRaised(r, now, sequence);
      var calls := MarkSafeCalls(sequence, markets, epochs);
      BatchKeeps(r, AdvanceSequence(r.watch, now, sequence).value, now, calls);
      assert forall i :: 0 <= i < |markets| ==> calls[i].0 == markets[i];
    }
  }

  lemma GatedAccepted(r: Room, sender: Address, now: Uint64, sequence: nat)
    requires RoomInv(r, now)
    ensures SuspendRoom(r, sender, now, sequence).Ok? <==> FromGate(r, r.config, sender, sequence)
    ensures ReopenRoom(r, sender, now, sequence).Ok? <==> FromGate(r, r.config, sender, sequence)
  {
    hide RoomInv, CallEach, FromRoom;
    GatedBatch(r, now, sequence, SuspendCall(sequence));
    GatedBatch(r, now, sequence, ReopenCall(sequence));
  }

  lemma ClosingAccepted(r: Room, sender: Address, now: Uint64, sequence: nat, markets: seq<nat>)
    requires RoomInv(r, now)
    ensures CloseSlots(r, sender, now, sequence, markets).Ok?
            <==> FromGate(r, r.config, sender, sequence) && |markets| <= 16 && AllKnown(r, markets)
  {
    hide SlotsOk, OpenOk, DepositsOk, RoomConfigOk, CloseEach, ParticipantsReady, GateMoved;
    if AdvanceSequence(r.watch, now, sequence).Ok? {
      WatchRaised(r, now, sequence);
      CloseListKeeps(r, AdvanceSequence(r.watch, now, sequence).value, now, sequence, markets);
    }
  }

  lemma ProcessingAccepted(r: Room, now: Uint64, markets: seq<nat>, epochs: seq<Uint64>, maximum: nat)
    requires RoomInv(r, now)
    ensures ProcessRoom(r, now, markets, epochs, maximum).Ok? <==> |markets| == |epochs| <= 16 && AllKnown(r, markets)
  {
    hide SlotsOk, OpenOk, DepositsOk, RoomConfigOk, CallEach, ParticipantsReady;
    if |markets| == |epochs| {
      var calls := ProcessCalls(markets, epochs, maximum);
      BatchKeeps(r, r.watch, now, calls);
      assert forall i :: 0 <= i < |markets| ==> calls[i].0 == markets[i];
    }
  }

  lemma SimpleAccepted(r: Room, sender: Address, now: Uint64, call: RoomCall)
    requires call.CloseRoomCall? || call.StallCloseCall? || call.PostRoomBondCall? || call.FileClaimCall?
      || call.SlotCall?
    ensures ApplyRoom(r, sender, now, call).Ok? <==> AcceptsRoomCall(r, r.config, sender, now, call)
  {
    hide Apply;
  }

  /** Exactly which calls a room accepts, whoever makes them, in every reachable state and
      at every time. */
  lemma RoomAcceptedIff(c: RoomConfig, start: Uint64, events: seq<RoomEvent>, sender: Address, now: Uint64,
                        call: RoomCall)
    requires RoomConfigOk(c) && Plausible(c, start, events) && RoomEnd(start, events) <= now
    ensures
      var r := ReachedRoom(c, start, events);
      ApplyRoom(r, sender, now, call).Ok? <==> AcceptsRoomCall(r, c, sender, now, call)
  {
    hide ReachedRoom, RoomInv, PublishSlot, AcceptsPublication, AllFinal, OpenAgainst, ClaimBond, AdjudicateClaim,
      ExpireClaim;
    RoomReachable(c, start, events);
    var r := ReachedRoom(c, start, events);
    RoomLater(r, RoomEnd(start, events), now);
    match call
    case PublishCall(request, permit, signer, restricted) =>
      PublicationAccepted(r, c, sender, now, request, permit, signer, restricted);
    case ClaimRoomBondCall => RoomBondClaimIff(c, start, events, sender, now);
    case AdjudicateCall(id, uphold) => ClaimBondsGo(c, start, events, sender, now, id, uphold);
    case ExpireClaimCall(id) => ClaimBondsGo(c, start, events, sender, now, id, true);
    case CloseRoomCall(_) => SimpleAccepted(r, sender, now, call);
    case StallCloseCall => SimpleAccepted(r, sender, now, call);
    case PostRoomBondCall => SimpleAccepted(r, sender, now, call);
    case FileClaimCall(_, _, _) => SimpleAccepted(r, sender, now, call);
    case SlotCall(_, _) => SimpleAccepted(r, sender, now, call);
    case _ => BatchAccepted(r, sender, now, call);
  }

  // ------------------------------------------------------------------ batches

  /** One slot after the calls listed for it, in their order; those it refuses are
      skipped. */
  function Seen(m: Market, msg: Msg, calls: seq<(nat, Call)>, slot: nat): Market
    decreases |calls|
  {
    if calls == [] then m
    else Seen(if calls[0].0 == slot then Step(m, msg, calls[0].1) else m, msg, calls[1..], slot)
  }

  lemma {:induction false} CallsAreSeen(slots: seq<Market>, msg: Msg, calls: seq<(nat, Call)>, slot: nat)
    requires CallEach(slots, msg, calls).Ok? && slot < |slots|
    ensures
      var next := CallEach(slots, msg, calls).value;
      |next| == |slots| && next[slot] == Seen(slots[slot], msg, calls, slot)
    decreases |calls|
  {
    hide Step;
    if calls != [] {
      var (touched, call) := calls[0];
      CallsAreSeen(slots[touched := Step(slots[touched], msg, call)], msg, calls[1..], slot);
    }
  }

  lemma {:induction false} ClosesAreSeen(slots: seq<Market>, o: OpenIndex, msg: Msg, sequence: nat,
                                         markets: seq<nat>, slot: nat)
    requires CloseEach(slots, o, msg, sequence, markets).Ok? && slot < |slots|
    ensures
      var next := CloseEach(slots, o, msg, sequence, markets).value.0;
      |next| == |slots| && next[slot] == Seen(slots[slot], msg, SameCalls(markets, CloseCall(sequence)), slot)
    decreases |markets|
  {
    hide CloseForDecisiveEvent, RemoveOpen;
    var calls := SameCalls(markets, CloseCall(sequence));
    if markets != [] {
      var (next, rest) := CloseOne(slots, o, msg, sequence, markets[0]).value;
      assert Step(slots[markets[0]], msg, CloseCall(sequence)) == next[markets[0]];
      ClosesAreSeen(next, rest, msg, sequence, markets[1..], slot);
      assert calls[1..] == SameCalls(markets[1..], CloseCall(sequence));
      assert calls[0] == (markets[0], CloseCall(sequence));
    }
  }

  /** What a batch tells the slots. */
  function Told(call: RoomCall, w: Watch): seq<(nat, Call)>
    requires (call.MarkEpochsSafeCall? || call.ProcessRoomCall?) ==> |call.markets| == |call.epochs|
  {
    match call
    case MarkEpochsSafeCall(sequence, markets, epochs) =>
      seq(|markets|, i requires 0 <= i < |markets| => (markets[i], MarkSafeCall(epochs[i], sequence)))
    case ProcessRoomCall(markets, epochs, maximum) =>
      seq(|markets|, i requires 0 <= i < |markets| => (markets[i], ProcessCall(epochs[i], maximum)))
    case CloseSlotsCall(sequence, markets) =>
      seq(|markets|, i requires 0 <= i < |markets| => (markets[i], CloseCall(sequence)))
    case CloseRemainingCall(markets) =>
      seq(|markets|, i requires 0 <= i < |markets| => (markets[i], CloseCall(w.roomClosedSequence)))
    case _ => []
  }

  /** An accepted batch reaches every slot with exactly the calls listed for it, in their
      order and from the room's address, and changes nothing else about the slots; it
      moves neither deposits nor nonces, and the watermark and the stall clock exactly if
      it is the gate's. */
  lemma BatchReachesSlots(c: RoomConfig, start: Uint64, events: seq<RoomEvent>, sender: Address, now: Uint64,
                          call: RoomCall)
    requires RoomConfigOk(c) && Plausible(c, start, events)
    requires call.MarkEpochsSafeCall? || call.ProcessRoomCall? || call.CloseSlotsCall? || call.CloseRemainingCall?
    ensures
      var r := ReachedRoom(c, start, events);
      var n := ApplyRoom(r, sender, now, call);
      n.Ok? ==>
        && ((call.MarkEpochsSafeCall? || call.ProcessRoomCall?) ==> |call.markets| == |call.epochs|)
        && n.value == r.(slots := n.value.slots, open := n.value.open, watch := n.value.watch)
        && |n.value.slots| == |r.slots|
        && (forall i: nat :: i < |r.slots| ==>
              n.value.slots[i] == Seen(r.slots[i], Msg(c.self, now, BothBonded(r, c)), Told(call, r.watch), i))
        && n.value.watch == (if call.MarkEpochsSafeCall? || call.CloseSlotsCall?
                             then r.watch.(lastObservedSequence := call.sequence, lastGateActivityAt := now)
                             else r.watch)
  {
    hide ReachedRoom, ApplyRoom, Seen;
    RoomReachable(c, start, events);
    var r := ReachedRoom(c, start, events);
    if ApplyRoom(r, sender, now, call).Ok? {
      BatchMovesWatch(r, sender, now, call);
      forall i: nat | i < |r.slots|
        ensures
          && i < |ApplyRoom(r, sender, now, call).value.slots|
          && ApplyRoom(r, sender, now, call).value.slots[i]
             == Seen(r.slots[i], FromRoom(r, now), Told(call, r.watch), i)
      {
        SlotIsTold(r, sender, now, call, i);
      }
      SameNumber(r, sender, now, call);
    }
  }

  lemma BatchMovesWatch(r: Room, sender: Address, now: Uint64, call: RoomCall)
    requires ApplyRoom(r, sender, now, call).Ok?
    requires call.MarkEpochsSafeCall? || call.ProcessRoomCall? || call.CloseSlotsCall? || call.CloseRemainingCall?
    ensures
      var n := ApplyRoom(r, sender, now, call).value;
      && ((call.MarkEpochsSafeCall? || call.ProcessRoomCall?) ==> |call.markets| == |call.epochs|)
      && n == r.(slots := n.slots, open := n.open, watch := n.watch)
      && n.watch == (if call.MarkEpochsSafeCall? || call.CloseSlotsCall?
                     then r.watch.(lastObservedSequence := call.sequence, lastGateActivityAt := now)
                     else r.watch)
  {
    hide CallEach, CloseEach, FromRoom;
  }

  lemma SameNumber(r: Room, sender: Address, now: Uint64, call: RoomCall)
    requires ApplyRoom(r, sender, now, call).Ok?
    requires call.MarkEpochsSafeCall? || call.ProcessRoomCall? || call.CloseSlotsCall? || call.CloseRemainingCall?
    ensures |ApplyRoom(r, sender, now, call).value.slots| == |r.slots|
  {
    hide CallEach, CloseEach, ParticipantsReady, SlotsEvolve;
    match call
    case MarkEpochsSafeCall(sequence, markets, epochs) =>
      CallEachEvolves(r.slots, FromRoom(r, now), MarkSafeCalls(sequence, markets, epochs));
    case ProcessRoomCall(markets, epochs, maximum) =>
      CallEachEvolves(r.slots, FromRoom(r, now), ProcessCalls(markets, epochs, maximum));
    case CloseSlotsCall(sequence, markets) => CloseEachEvolves(r.slots, r.open, FromRoom(r, now), sequence, markets);
    case CloseRemainingCall(markets) =>
      CloseEachEvolves(r.slots, r.open, FromRoom(r, now), r.watch.roomClosedSequence, markets);
  }

  lemma SlotIsTold(r: Room, sender: Address, now: Uint64, call: RoomCall, slot: nat)
    requires ApplyRoom(r, sender, now, call).Ok? && slot < |r.slots|
    requires call.MarkEpochsSafeCall? || call.ProcessRoomCall? || call.CloseSlotsCall? || call.CloseRemainingCall?
    ensures (call.MarkEpochsSafeCall? || call.ProcessRoomCall?) ==> |call.markets| == |call.epochs|
    ensures
      var n := ApplyRoom(r, sender, now, call).value;
      slot < |n.slots| && n.slots[slot] == Seen(r.slots[slot], FromRoom(r, now), Told(call, r.watch), slot)
  {
    hide CallEach, CloseEach, ParticipantsReady, Seen;
    match call
    case MarkEpochsSafeCall(sequence, markets, epochs) =>
      assert Told(call, r.watch) == MarkSafeCalls(sequence, markets, epochs);
      CallsAreSeen(r.slots, FromRoom(r, now), MarkSafeCalls(sequence, markets, epochs), slot);
    case ProcessRoomCall(markets, epochs, maximum) =>
      assert Told(call, r.watch) == ProcessCalls(markets, epochs, maximum);
      CallsAreSeen(r.slots, FromRoom(r, now), ProcessCalls(markets, epochs, maximum), slot);
    case CloseSlotsCall(sequence, markets) =>
      assert Told(call, r.watch) == SameCalls(markets, CloseCall(sequence));
      ClosesAreSeen(r.slots, r.open, FromRoom(r, now), sequence, markets, slot);
    case CloseRemainingCall(markets) =>
      assert Told(call, r.watch) == SameCalls(markets, CloseCall(r.watch.roomClosedSequence));
      ClosesAreSeen(r.slots, r.open, FromRoom(r, now), r.watch.roomClosedSequence, markets, slot);
  }

  // -------------------------------------------------------------- slot rules

  /** The slot has the room's rules, one by one, with the room as its gate and its word
      for readiness, and the reward of its template; the room's and the slot's officers
      may not trade on it. */
  ghost predicate FollowsRoom(m: Market, templateId: nat, c: RoomConfig) {
    && m.config.gateOracle == c.self && m.config.roomBound
    && m.config.participantA == c.participantA && m.config.participantB == c.participantB
    && m.config.rewardAddressA == c.rewardAddressA && m.config.rewardAddressB == c.rewardAddressB
    && m.config.bondRecipient == c.bondRecipient && m.config.resolvers == c.resolvers
    && m.config.epochDuration == c.epochDuration && m.config.sourceFinalityDelay == c.sourceFinalityDelay
    && m.config.maxPendingTime == c.maxPendingTime
    && m.config.challengeWindow == c.challengeWindow && m.config.challengeTimeout == c.challengeTimeout
    && m.config.liquidityRouter == c.liquidityRouter
    && templateId in c.templates && m.config.winnerRewardBps == c.templates[templateId]
    && (forall p: Address ::
          (|| p in c.restricted || p in {c.publisher, c.gateSigner, c.integrityAdjudicator, c.self}
           || p in c.resolvers || p in {c.participantA, c.participantB, c.rewardAddressA, c.rewardAddressB}
           || (p == c.liquidityRouter && p != ZERO_ADDRESS)) ==> p in m.restricted)
  }

  ghost predicate AllFollow(r: Room) {
    && |r.templateOf| == |r.slots|
    && (forall i :: 0 <= i < |r.slots| ==> FollowsRoom(r.slots[i], r.templateOf[i], r.config))
  }

  lemma NewSlotFollows(c: RoomConfig, templateId: nat, reward: nat, opensAt: Uint64, extra: set<Address>)
    requires templateId in c.templates && c.templates[templateId] == reward
    ensures FollowsRoom(NewMarket(SlotConfig(c, reward, opensAt), RoomRestricted(c) + extra), templateId, c)
  {
  }

  lemma EvolvedFollows(m: Market, n: Market, templateId: nat, c: RoomConfig)
    requires FollowsRoom(m, templateId, c) && Evolves(m, n)
    ensures FollowsRoom(n, templateId, c)
  {
    hide ActionsEvolve, GateEvolves, RulingEvolves;
  }

  lemma CallKeepsFollowing(r: Room, sender: Address, now: Uint64, call: RoomCall)
    requires AllFollow(r) && ApplyRoom(r, sender, now, call).Ok?
    ensures AllFollow(ApplyRoom(r, sender, now, call).value)
  {
    hide FollowsRoom, Evolves;
    var n := ApplyRoom(r, sender, now, call).value;
    ApplyRoomEvolves(r, sender, now, call);
    TemplatesStay(r, sender, now, call);
    forall i | 0 <= i < |n.slots| ensures FollowsRoom(n.slots[i], n.templateOf[i], n.config) {
      if i < |r.slots| {
        EvolvedFollows(r.slots[i], n.slots[i], r.templateOf[i], r.config);
      }
    }
  }

  /** Only publication adds a slot, a new market with its template; no template
      changes. */
  lemma TemplatesStay(r: Room, sender: Address, now: Uint64, call: RoomCall)
    requires ApplyRoom(r, sender, now, call).Ok? && |r.templateOf| == |r.slots|
    ensures
      var n := ApplyRoom(r, sender, now, call).value;
      && |n.templateOf| == |n.slots| && |r.slots| <= |n.slots| <= |r.slots| + 1
      && (forall i :: 0 <= i < |r.slots| ==> n.templateOf[i] == r.templateOf[i])
      && (|n.slots| == |r.slots| + 1 ==>
            FollowsRoom(n.slots[|r.slots|], n.templateOf[|r.slots|], r.config))
  {
    hide CallEach, CloseEach, FromRoom, ParticipantsReady, PostBond, ClaimBond, FileClaim, AdjudicateClaim,
      ExpireClaim, PublishSlot, Apply, FollowsRoom;
    match call
    case PublishCall(request, permit, signer, restricted) =>
      PublicationFollows(r, sender, now, request, permit, signer, restricted);
    case MarkEpochsSafeCall(_, _, _) => SameNumber(r, sender, now, call);
    case ProcessRoomCall(_, _, _) => SameNumber(r, sender, now, call);
    case CloseSlotsCall(_, _) => SameNumber(r, sender, now, call);
    case CloseRemainingCall(_) => SameNumber(r, sender, now, call);
    case SuspendRoomCall(sequence) =>
      CallEachEvolves(r.slots, FromRoom(r, now), SameCalls(r.open.openSlots, SuspendCall(sequence)));
    case ReopenRoomCall(sequence) =>
      CallEachEvolves(r.slots, FromRoom(r, now), SameCalls(r.open.openSlots, ReopenCall(sequence)));
    case _ =>
  }

  lemma PublicationFollows(r: Room, sender: Address, now: Uint64, request: SlotRequest, permit: PublicationPermit,
                           signer: Address, restricted: seq<Address>)
    requires PublishSlot(r, sender, now, request, permit, signer, restricted).Ok? && |r.templateOf| == |r.slots|
    ensures
      var n := PublishSlot(r, sender, now, request, permit, signer, restricted).value;
      && |n.templateOf| == |n.slots| == |r.slots| + 1
      && (forall i :: 0 <= i < |r.slots| ==> n.templateOf[i] == r.templateOf[i])
      && FollowsRoom(n.slots[|r.slots|], n.templateOf[|r.slots|], r.config)
  {
    hide FollowsRoom, ValidatePermit, NewMarket, SlotConfig, RoomRestricted, ConfigOk, ParticipantsReady, AddOpen,
      HasLiquidity;
    NewSlotFollows(r.config, request.templateId, request.winnerRewardBps, Add64(now, request.announceDelay).value,
                   set a | a in restricted);
  }

  lemma {:induction false} RunKeepsFollowing(r: Room, events: seq<RoomEvent>)
    requires AllFollow(r)
    ensures AllFollow(RunRoom(r, events))
    decreases |events|
  {
    hide AllFollow, ApplyRoom;
    if events != [] {
      var e := events[0];
      if ApplyRoom(r, e.sender, e.now, e.call).Ok? {
        CallKeepsFollowing(r, e.sender, e.now, e.call);
      }
      RunKeepsFollowing(StepRoom(r, e.sender, e.now, e.call), events[1..]);
    }
  }

  /** Every slot of every reachable room follows the room. */
  lemma SlotsFollowRoom(c: RoomConfig, start: Uint64, events: seq<RoomEvent>, slot: nat)
    requires RoomConfigOk(c) && Plausible(c, start, events)
    requires slot < |ReachedRoom(c, start, events).slots|
    ensures
      var r := ReachedRoom(c, start, events);
      && |r.templateOf| == |r.slots| && FollowsRoom(r.slots[slot], r.templateOf[slot], c)
  {
    hide RunRoom, FollowsRoom, RoomInv;
    RunKeepsFollowing(NewRoom(c, start), events);
    RoomReachable(c, start, events);
  }

  // -------------------------------------------------------------- publication

  /** Exactly who may not trade on a slot of the room published with this list. */
  predicate OffLimits(c: RoomConfig, listed: seq<Address>, p: Address) {
    || p in c.restricted || p in listed || p in c.resolvers
    || p == c.publisher || p == c.gateSigner || p == c.integrityAdjudicator || p == c.self
    || p == c.participantA || p == c.participantB || p == c.rewardAddressA || p == c.rewardAddressB
    || (p == c.liquidityRouter && p != ZERO_ADDRESS)
  }

  /** Nothing has happened on the market yet. */
  predicate IsFresh(m: Market) {
    && m.gate.state.Open? && m.gate.lastSafeSequence == 0 && m.gate.epochSafe == {}
    && m.queue.actions == [] && m.ruling.provisionalOutcome.Unset? && m.ruling.finalOutcome.Unset?
    && !m.ruling.challenged && m.book.purse.held == 0 && m.book.fees.totalLpShares == 0
  }

  /** A publication adds one fresh slot, under the template of the request and last in the
      list; trading begins after the announced delay, and exactly the listed wallets and
      the officers may not trade. The template, the rules and the restrictions stay,
      whatever happens. */
  lemma PublicationIs(c: RoomConfig, start: Uint64, events: seq<RoomEvent>, e: RoomEvent, more: seq<RoomEvent>)
    requires RoomConfigOk(c) && Plausible(c, start, events) && e.call.PublishCall?
    ensures
      var r := ReachedRoom(c, start, events);
      var published, slot := ApplyRoom(r, e.sender, e.now, e.call), |r.slots|;
      published.Ok? ==>
        var n, later := published.value, RunRoom(published.value, more);
        && n.slots[..slot] == r.slots && |n.slots| == slot + 1 && IsFresh(n.slots[slot])
        && n.open.openSlots == r.open.openSlots + [slot]
        && slot < |later.slots| && slot < |later.templateOf|
        && later.templateOf[slot] == e.call.request.templateId
        && later.slots[slot].config == n.slots[slot].config
        && later.slots[slot].config.opensAt == e.now + e.call.request.announceDelay
        && (forall p: Address :: p in later.slots[slot].restricted <==> OffLimits(c, e.call.restricted, p))
  {
    hide ReachedRoom, RunRoom, RoomInv, SlotsEvolve, OffLimits, ApplyRoom;
    RoomReachable(c, start, events);
    var r := ReachedRoom(c, start, events);
    var published := ApplyRoom(r, e.sender, e.now, e.call);
    if published.Ok? {
      NewSlotIs(r, e);
      TemplatesMatch(r, RoomEnd(start, events));
      RunRoomEvolves(published.value, more);
      TemplateKept(published.value, more, |r.slots|);
      SlotKept(published.value.slots, RunRoom(published.value, more).slots, |r.slots|);
    }
  }

  lemma TemplatesMatch(r: Room, t: Uint64)
    requires RoomInv(r, t)
    ensures |r.templateOf| == |r.slots|
  {
  }

  lemma SlotKept(a: seq<Market>, b: seq<Market>, slot: nat)
    requires SlotsEvolve(a, b) && slot < |a|
    ensures slot < |b| && b[slot].config == a[slot].config && b[slot].restricted == a[slot].restricted
  {
    hide ActionsEvolve, GateEvolves, RulingEvolves;
    assert Evolves(a[slot], b[slot]);
  }

  lemma NewSlotIs(r: Room, e: RoomEvent)
    requires e.call.PublishCall? && ApplyRoom(r, e.sender, e.now, e.call).Ok?
    ensures
      var n, slot := ApplyRoom(r, e.sender, e.now, e.call).value, |r.slots|;
      && n.config == r.config
      && n.slots[..slot] == r.slots && |n.slots| == slot + 1 && IsFresh(n.slots[slot])
      && n.open.openSlots == r.open.openSlots + [slot]
      && n.templateOf == r.templateOf + [e.call.request.templateId]
      && n.slots[slot].config.opensAt == e.now + e.call.request.announceDelay
      && (forall p: Address :: p in n.slots[slot].restricted <==> OffLimits(r.config, e.call.restricted, p))
  {
    hide ValidatePermit, ValidateRequest, ConfigOk, ParticipantsReady;
  }

  lemma {:induction false} TemplateKept(r: Room, events: seq<RoomEvent>, slot: nat)
    requires slot < |r.templateOf| == |r.slots|
    ensures
      var n := RunRoom(r, events);
      slot < |n.templateOf| && n.templateOf[slot] == r.templateOf[slot]
    decreases |events|
  {
    hide ApplyRoom;
    if events != [] {
      var e := events[0];
      if ApplyRoom(r, e.sender, e.now, e.call).Ok? {
        TemplatesStay(r, e.sender, e.now, e.call);
      }
      TemplateKept(StepRoom(r, e.sender, e.now, e.call), events[1..], slot);
    }
  }
}
