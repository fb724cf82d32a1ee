/** The invariant of a room and its preservation by every call, on the room or on
    one of its slots. */
module RoomInvariant {
  import opened Prelude
  import opened Ledger
  import opened Market
  import opened MarketInvariant
  import opened MarketRuns
  import opened Room

  // ------------------------------------------------------------------ slots

  /** A slot is a sound market of this room, behind the room's watermark and, once
      the room is closed, strictly behind the closing sequence. */
  ghost predicate SlotOk(m: Market, c: RoomConfig, w: Watch, now: Uint64) {
    && Inv(m, now)
    && m.config == SlotConfig(c, m.config.winnerRewardBps, m.config.opensAt)
    && Behind(m.gate, w)
  }

  ghost predicate Behind(g: Gate, w: Watch) {
    && g.lastSafeSequence <= w.lastObservedSequence
    && (w.roomClosedSequence != 0 ==> g.lastSafeSequence < w.roomClosedSequence)
  }

  ghost predicate SlotsOk(slots: seq<Market>, c: RoomConfig, w: Watch, now: Uint64) {
    forall i :: 0 <= i < |slots| ==> SlotOk(slots[i], c, w, now)
  }

  /** The two halves of the index are inverse to each other, and the slots in it
      are exactly those whose gate is not closed. */
  ghost predicate OpenOk(o: OpenIndex, slots: seq<Market>) {
    && IndexInverse(o)
    && (forall s: nat :: Get(o.indexPlusOne, s) != 0 <==> s < |slots| && !slots[s].gate.state.Closed?)
  }

  ghost predicate IndexInverse(o: OpenIndex) {
    && (forall i :: 0 <= i < |o.openSlots| ==> Get(o.indexPlusOne, o.openSlots[i]) == i + 1)
    && (forall s: nat :: Get(o.indexPlusOne, s) != 0 ==>
          Get(o.indexPlusOne, s) <= |o.openSlots| && o.openSlots[Get(o.indexPlusOne, s) - 1] == s)
  }

  // --------------------------------------------------------------- deposits

  function OpenClaims(claims: seq<IntegrityClaim>): nat
    decreases |claims|
  {
    if claims == [] then 0
    else OpenClaims(claims[..|claims| - 1]) + (if claims[|claims| - 1].status.Outstanding? then 1 else 0)
  }

  function OpenAgainst(claims: seq<IntegrityClaim>, p: Address): nat
    decreases |claims|
  {
    if claims == [] then 0
    else
      var last := claims[|claims| - 1];
      OpenAgainst(claims[..|claims| - 1], p) + (if last.status.Outstanding? && last.participant == p then 1 else 0)
  }

  ghost predicate ClaimOk(claim: IntegrityClaim, c: RoomConfig, w: Watch, now: Uint64) {
    && IsParticipant(c, claim.participant)
    && claim.filedAt <= now
    && w.roomClosedSequence != 0
    && claim.filedAt < ClaimWindowEnd(c, w)
  }

  /** The balance is the posted bonds and one claim bond per open claim. */
  ghost predicate DepositsOk(d: Deposits, c: RoomConfig, w: Watch, now: Uint64) {
    && d.purse.held == Sum(d.integrityBondOf) + INTEGRITY_CLAIM_BOND * OpenClaims(d.claims)
    && (forall p: Address :: Get(d.openClaimsAgainst, p) == OpenAgainst(d.claims, p))
    && (forall p: Address :: BondOk(d, c, p))
    && (forall i :: 0 <= i < |d.claims| ==> ClaimOk(d.claims[i], c, w, now))
  }

  ghost predicate BondOk(d: Deposits, c: RoomConfig, p: Address) {
    var bond := Get(d.integrityBondOf, p);
    bond == 0 || (bond == ROOM_INTEGRITY_BOND && IsParticipant(c, p))
  }

  ghost predicate WatchOk(w: Watch, now: Uint64) {
    && w.lastGateActivityAt <= now
    && w.roomClosedAt <= now
  }

  ghost predicate RoomInv(r: Room, now: Uint64) {
    && RoomConfigOk(r.config)
    && SlotsOk(r.slots, r.config, r.watch, now)
    && OpenOk(r.open, r.slots)
    && |r.open.openSlots| <= r.config.maxOpenSlots
    && |r.templateOf| == |r.slots|
    && WatchOk(r.watch, now)
    && DepositsOk(r.deposits, r.config, r.watch, now)
  }

  // ---------------------------------------------------------- start and time

  lemma NewRoomOk(c: RoomConfig, now: Uint64)
    requires RoomConfigOk(c)
    ensures RoomInv(NewRoom(c, now), now)
  {
    hide RoomConfigOk;
    SumEmpty(NewRoom(c, now).deposits.integrityBondOf);
  }

  lemma SlotLater(m: Market, c: RoomConfig, w: Watch, t: Uint64, now: Uint64)
    requires SlotOk(m, c, w, t) && t <= now
    ensures SlotOk(m, c, w, now)
  {
    hide Inv;
    InvLater(m, t, now);
  }

  lemma SlotsLater(slots: seq<Market>, c: RoomConfig, w: Watch, t: Uint64, now: Uint64)
    requires SlotsOk(slots, c, w, t) && t <= now
    ensures SlotsOk(slots, c, w, now)
  {
    hide SlotOk;
    forall i | 0 <= i < |slots| ensures SlotOk(slots[i], c, w, now) {
      SlotLater(slots[i], c, w, t, now);
    }
  }

  lemma RoomLater(r: Room, t: Uint64, now: Uint64)
    requires RoomInv(r, t) && t <= now
    ensures RoomInv(r, now)
  {
    hide SlotsOk, OpenOk, RoomConfigOk, Sum, OpenClaims, OpenAgainst, BondOk;
    SlotsLater(r.slots, r.config, r.watch, t, now);
  }

  // -------------------------------------------------------- calls on one slot

  /** Only the room moves a slot's gate. */
  lemma GateUntouched(m: Market, msg: Msg, call: Call)
    requires Apply(m, msg, call).Ok? && (msg.sender != m.config.gateOracle || call.ProcessCall?)
    ensures Apply(m, msg, call).value.gate == m.gate
  {
    hide Pay, ClaimLpFees, RedeemPositions, SettleLpInventory, PayWinnerReward, RefundWinnerFee, CurrentEpoch,
      RequireTrader, RequireActionWindow, DebitPosition, WinnerReward, Drain, Receive;
    if call.ProcessCall? && 0 < Remaining(m.queue, call.epoch) && call.maximum != 0 {
      DrainLeavesGate(m, msg.now, call.epoch, Min(call.maximum, Remaining(m.queue, call.epoch)));
    }
  }

  lemma {:induction false} DrainLeavesGate(m: Market, now: Uint64, epoch: Uint64, count: nat)
    requires Drain(m, now, epoch, count).Ok?
    ensures Drain(m, now, epoch, count).value.gate == m.gate
    decreases count
  {
    hide TryExecute, Refund;
    if count != 0 {
      DrainLeavesGate(SettleNext(m, now, epoch).value, now, epoch, count - 1);
    }
  }

  /** The calls a room makes in batches, none of them past the watermark. */
  predicate Tame(call: Call, watermark: nat) {
    match call
    case MarkSafeCall(_, sequence) => sequence <= watermark
    case SuspendCall(sequence) => sequence <= watermark
    case ReopenCall(sequence) => sequence <= watermark
    case ProcessCall(_, _) => true
    case _ => false
  }

  /** A slot stays sound under a call from outside, or a batched call by the room
      while it is open; whether it is closed does not change. */
  lemma SlotStepOk(m: Market, c: RoomConfig, w: Watch, msg: Msg, call: Call)
    requires SlotOk(m, c, w, msg.now)
    requires msg.sender != c.self
      || (Tame(call, w.lastObservedSequence) && (w.roomClosedSequence == 0 || call.ProcessCall?))
    ensures SlotOk(Step(m, msg, call), c, w, msg.now)
    ensures Step(m, msg, call).gate.state.Closed? <==> m.gate.state.Closed?
  {
    hide Inv, Apply;
    StepKeeps(m, msg.now, msg, call);
    if Apply(m, msg, call).Ok? {
      ApplyEvolves(m, msg, call);
      if msg.sender != c.self || call.ProcessCall? {
        GateUntouched(m, msg, call);
      } else {
        TameGate(m, msg, call, w.lastObservedSequence);
      }
    }
  }

  lemma TameGate(m: Market, msg: Msg, call: Call, watermark: nat)
    requires Tame(call, watermark) && !call.ProcessCall? && Apply(m, msg, call).Ok?
    requires m.gate.lastSafeSequence <= watermark
    ensures
      var g := Apply(m, msg, call).value.gate;
      g.lastSafeSequence <= watermark && (g.state.Closed? <==> m.gate.state.Closed?)
  {
    hide CurrentEpoch, EpochEndsAt;
  }

  lemma {:induction false} CallEachOk(slots: seq<Market>, c: RoomConfig, w: Watch, msg: Msg, calls: seq<(nat, Call)>)
    requires SlotsOk(slots, c, w, msg.now) && msg.sender == c.self
    requires forall i :: 0 <= i < |calls| ==>
      Tame(calls[i].1, w.lastObservedSequence) && (w.roomClosedSequence == 0 || calls[i].1.ProcessCall?)
    ensures
      var r := CallEach(slots, msg, calls);
      && (r.Ok? <==> forall i :: 0 <= i < |calls| ==> calls[i].0 < |slots|)
      && (r.Revert? ==> r.error == UnknownMarket)
      && (r.Ok? ==>
            && SlotsOk(r.value, c, w, msg.now)
            && |r.value| == |slots|
            && (forall i :: 0 <= i < |slots| ==> (r.value[i].gate.state.Closed? <==> slots[i].gate.state.Closed?)))
    decreases |calls|
  {
    hide SlotOk, Step, Tame;
    if calls != [] && calls[0].0 < |slots| {
      SlotStepOk(slots[calls[0].0], c, w, msg, calls[0].1);
      CallEachOk(slots[calls[0].0 := Step(slots[calls[0].0], msg, calls[0].1)], c, w, msg, calls[1..]);
      assert calls == [calls[0]] + calls[1..];
    }
  }

  lemma SameOpen(o: OpenIndex, slots: seq<Market>, next: seq<Market>)
    requires OpenOk(o, slots) && |next| == |slots|
    requires forall i :: 0 <= i < |slots| ==> (next[i].gate.state.Closed? <==> slots[i].gate.state.Closed?)
    ensures OpenOk(o, next)
  {
  }

  /** Raising the watermark of an open room. */
  lemma AdvanceOk(slots: seq<Market>, c: RoomConfig, w: Watch, now: Uint64, sequence: nat)
    requires SlotsOk(slots, c, w, now) && AdvanceSequence(w, now, sequence).Ok?
    ensures SlotsOk(slots, c, AdvanceSequence(w, now, sequence).value, now)
  {
    hide Inv, SlotConfig;
    var v := AdvanceSequence(w, now, sequence).value;
    forall i | 0 <= i < |slots| ensures SlotOk(slots[i], c, v, now) {
      assert SlotOk(slots[i], c, w, now);
    }
  }

  // ---------------------------------------------------------------- closing

  /** Swap-and-pop takes exactly one slot out of the index. */
  lemma RemoveOpenOk(o: OpenIndex, slot: nat)
    requires IndexInverse(o) && Get(o.indexPlusOne, slot) != 0
    ensures
      var r := RemoveOpen(o, slot);
      && r.Ok?
      && IndexInverse(r.value)
      && |r.value.openSlots| == |o.openSlots| - 1
      && (forall s: nat :: Get(r.value.indexPlusOne, s) != 0 <==> s != slot && Get(o.indexPlusOne, s) != 0)
  {
    if Get(o.indexPlusOne, slot) == |o.openSlots| {
      LastDropped(o, slot);
    } else {
      LastMoved(o, slot);
    }
  }

  lemma LastDropped(o: OpenIndex, slot: nat)
    requires IndexInverse(o) && Get(o.indexPlusOne, slot) == |o.openSlots| != 0
    ensures
      var next := OpenIndex(o.openSlots[..|o.openSlots| - 1], o.indexPlusOne[slot := 0]);
      && IndexInverse(next)
      && (forall s: nat :: Get(next.indexPlusOne, s) != 0 <==> s != slot && Get(o.indexPlusOne, s) != 0)
  {
    var next := OpenIndex(o.openSlots[..|o.openSlots| - 1], o.indexPlusOne[slot := 0]);
    forall s: nat | Get(next.indexPlusOne, s) != 0
      ensures Get(next.indexPlusOne, s) <= |next.openSlots| && next.openSlots[Get(next.indexPlusOne, s) - 1] == s
    {
      assert Get(next.indexPlusOne, s) == Get(o.indexPlusOne, s);
    }
  }

  lemma LastMoved(o: OpenIndex, slot: nat)
    requires IndexInverse(o) && 0 < Get(o.indexPlusOne, slot) < |o.openSlots|
    ensures
      var plusOne, last := Get(o.indexPlusOne, slot), |o.openSlots| - 1;
      var moved := o.openSlots[last];
      var next := OpenIndex(o.openSlots[plusOne - 1 := moved][..last], o.indexPlusOne[moved := plusOne][slot := 0]);
      && IndexInverse(next)
      && (forall s: nat :: Get(next.indexPlusOne, s) != 0 <==> s != slot && Get(o.indexPlusOne, s) != 0)
  {
    var plusOne, last := Get(o.indexPlusOne, slot), |o.openSlots| - 1;
    var moved := o.openSlots[last];
    var next := OpenIndex(o.openSlots[plusOne - 1 := moved][..last], o.indexPlusOne[moved := plusOne][slot := 0]);
    assert Get(o.indexPlusOne, moved) == last + 1 && o.openSlots[plusOne - 1] == slot;
    forall i | 0 <= i < |next.openSlots| ensures Get(next.indexPlusOne, next.openSlots[i]) == i + 1 {
      if i != plusOne - 1 {
        assert Get(o.indexPlusOne, o.openSlots[i]) == i + 1;
      }
    }
    forall s: nat | Get(next.indexPlusOne, s) != 0
      ensures Get(next.indexPlusOne, s) <= |next.openSlots| && next.openSlots[Get(next.indexPlusOne, s) - 1] == s
    {
      if s != moved {
        assert Get(next.indexPlusOne, s) == Get(o.indexPlusOne, s);
      }
    }
  }

  /** Closing one slot at a sequence past all watermarks always works on a slot that
      is not closed. */
  lemma CloseOneOk(slots: seq<Market>, o: OpenIndex, c: RoomConfig, w: Watch, msg: Msg, sequence: nat, slot: nat)
    requires SlotsOk(slots, c, w, msg.now) && OpenOk(o, slots) && msg.sender == c.self && slot < |slots|
    ensures
      var r := CloseOne(slots, o, msg, sequence, slot);
      && r.Ok?
      && SlotsOk(r.value.0, c, w, msg.now)
      && OpenOk(r.value.1, r.value.0)
      && |r.value.1.openSlots| <= |o.openSlots|
      && GateMoved(slots, r.value.0)
      && (Above(slots, sequence) ==> r.value.0[slot].gate.state.Closed?)
  {
    hide Inv, CloseForDecisiveEvent;
    var m := slots[slot];
    assert SlotOk(m, c, w, msg.now);
    CloseEffects(m, msg, sequence);
    var closed := CloseForDecisiveEvent(m, msg, sequence);
    if closed.Ok? {
      assert Get(o.indexPlusOne, slot) != 0;
      hide RemoveOpen;
      RemoveOpenOk(o, slot);
    }
  }

  lemma CloseEffects(m: Market, msg: Msg, sequence: nat)
    requires Inv(m, msg.now) && msg.sender == m.config.gateOracle
    ensures
      var r := CloseForDecisiveEvent(m, msg, sequence);
      && (r.Ok? <==> !m.gate.state.Closed? && m.gate.lastSafeSequence < sequence)
      && (r.Ok? ==>
            && Inv(r.value, msg.now)
            && r.value == m.(gate := r.value.gate)
            && r.value.gate.state.Closed?
            && r.value.gate.lastSafeSequence == m.gate.lastSafeSequence)
  {
    hide Inv, CurrentEpoch;
    if CloseForDecisiveEvent(m, msg, sequence).Ok? {
      CloseKeeps(m, msg, sequence);
    }
  }

  /** Only gates differ, and a closed one has stayed as it was. */
  ghost predicate GateMoved(slots: seq<Market>, next: seq<Market>) {
    && |next| == |slots|
    && (forall i :: 0 <= i < |slots| ==>
          && next[i] == slots[i].(gate := next[i].gate)
          && next[i].gate.lastSafeSequence == slots[i].gate.lastSafeSequence
          && (slots[i].gate.state.Closed? ==> next[i] == slots[i]))
  }

  /** The sequence lies past the watermark of every slot. */
  ghost predicate Above(slots: seq<Market>, sequence: nat) {
    forall i :: 0 <= i < |slots| ==> slots[i].gate.lastSafeSequence < sequence
  }

  lemma {:induction false} CloseEachOk(slots: seq<Market>, o: OpenIndex, c: RoomConfig, w: Watch, msg: Msg,
                                       sequence: nat, markets: seq<nat>)
    requires SlotsOk(slots, c, w, msg.now) && OpenOk(o, slots) && msg.sender == c.self
    ensures
      var r := CloseEach(slots, o, msg, sequence, markets);
      && (r.Ok? <==> forall i :: 0 <= i < |markets| ==> markets[i] < |slots|)
      && (r.Revert? ==> r.error == UnknownMarket)
      && (r.Ok? ==>
            && SlotsOk(r.value.0, c, w, msg.now)
            && OpenOk(r.value.1, r.value.0)
            && |r.value.1.openSlots| <= |o.openSlots|
            && GateMoved(slots, r.value.0)
            && (Above(slots, sequence) ==>
                  forall i :: 0 <= i < |markets| ==> markets[i] < |slots| && r.value.0[markets[i]].gate.state.Closed?))
    decreases |markets|
  {
    hide SlotsOk, OpenOk, CloseOne;
    if markets != [] && markets[0] < |slots| {
      CloseOneOk(slots, o, c, w, msg, sequence, markets[0]);
      var (next, rest) := CloseOne(slots, o, msg, sequence, markets[0]).value;
      CloseEachOk(next, rest, c, w, msg, sequence, markets[1..]);
      assert markets == [markets[0]] + markets[1..];
    }
  }

  /** Past the room's watermark is past every slot's. */
  lemma AboveAll(slots: seq<Market>, c: RoomConfig, w: Watch, now: Uint64, sequence: nat)
    requires SlotsOk(slots, c, w, now)
    requires w.lastObservedSequence < sequence || (w.roomClosedSequence != 0 && w.roomClosedSequence <= sequence)
    ensures Above(slots, sequence)
  {
    hide Inv, SlotConfig;
    forall i | 0 <= i < |slots| ensures slots[i].gate.lastSafeSequence < sequence {
      assert SlotOk(slots[i], c, w, now);
    }
  }

  // ---------------------------------------------------------------- deposits

  lemma {:induction false} SettledCounts(claims: seq<IntegrityClaim>, id: nat, status: ClaimStatus, p: Address)
    requires id < |claims| && claims[id].status.Outstanding? && !status.Outstanding?
    ensures
      var next := claims[id := claims[id].(status := status)];
      && OpenClaims(next) == OpenClaims(claims) - 1
      && OpenAgainst(next, p) == OpenAgainst(claims, p) - (if claims[id].participant == p then 1 else 0)
    decreases |claims|
  {
    var next := claims[id := claims[id].(status := status)];
    var n := |claims| - 1;
    if id == n {
      assert next[..n] == claims[..n];
    } else {
      assert next[..n] == claims[..n][id := claims[id].(status := status)];
      SettledCounts(claims[..n], id, status, p);
    }
  }

  lemma FiledCounts(claims: seq<IntegrityClaim>, claim: IntegrityClaim, p: Address)
    requires claim.status.Outstanding?
    ensures OpenClaims(claims + [claim]) == OpenClaims(claims) + 1
    ensures OpenAgainst(claims + [claim], p) == OpenAgainst(claims, p) + (if claim.participant == p then 1 else 0)
  {
    assert (claims + [claim])[..|claims|] == claims;
  }

  lemma BondPostedOk(d: Deposits, c: RoomConfig, w: Watch, now: Uint64, sender: Address)
    requires DepositsOk(d, c, w, now) && PostBond(c, d, sender).Ok?
    ensures DepositsOk(PostBond(c, d, sender).value, c, w, now)
  {
    hide Sum, OpenClaims, OpenAgainst, ClaimOk;
    SumUpdate(d.integrityBondOf, sender, ROOM_INTEGRITY_BOND);
    var e := PostBond(c, d, sender).value;
    forall p: Address ensures BondOk(e, c, p) {
      assert BondOk(d, c, p);
    }
  }

  /** A bond is part of the balance whatever claims are open. */
  lemma BondInPurse(d: Deposits, c: RoomConfig, w: Watch, now: Uint64, p: Address)
    requires DepositsOk(d, c, w, now)
    ensures Get(d.integrityBondOf, p) + INTEGRITY_CLAIM_BOND * OpenClaims(d.claims) <= d.purse.held
  {
    hide OpenClaims, OpenAgainst, ClaimOk, Sum;
    SumAtLeast(d.integrityBondOf, p);
  }

  lemma BondReleasedOk(r: Room, sender: Address, now: Uint64)
    requires DepositsOk(r.deposits, r.config, r.watch, now) && ClaimBond(r, sender, now).Ok?
    ensures DepositsOk(ClaimBond(r, sender, now).value, r.config, r.watch, now)
  {
    hide Sum, OpenClaims, OpenAgainst, ClaimOk, AllFinal;
    var d, e := r.deposits, ClaimBond(r, sender, now).value;
    SumUpdate(d.integrityBondOf, sender, 0);
    forall p: Address ensures BondOk(e, r.config, p) {
      assert BondOk(d, r.config, p);
    }
  }

  lemma ClaimFiledOk(d: Deposits, c: RoomConfig, w: Watch, now: Uint64, sender: Address, participant: Address,
                     code: nat, evidence: nat)
    requires DepositsOk(d, c, w, now) && FileClaim(c, w, d, sender, now, participant, code, evidence).Ok?
    ensures DepositsOk(FileClaim(c, w, d, sender, now, participant, code, evidence).value, c, w, now)
  {
    hide Sum, OpenClaims, OpenAgainst;
    var e := FileClaim(c, w, d, sender, now, participant, code, evidence).value;
    var claim := IntegrityClaim(sender, participant, code, evidence, now, Outstanding);
    forall p: Address ensures Get(e.openClaimsAgainst, p) == OpenAgainst(e.claims, p) && BondOk(e, c, p) {
      FiledCounts(d.claims, claim, p);
      assert BondOk(d, c, p);
    }
    FiledCounts(d.claims, claim, sender);
  }

  /** An open claim can always be settled and its bond paid. */
  lemma ClaimSettles(d: Deposits, c: RoomConfig, w: Watch, now: Uint64, id: nat, status: ClaimStatus)
    requires DepositsOk(d, c, w, now) && id < |d.claims| && d.claims[id].status.Outstanding? && !status.Outstanding?
    ensures INTEGRITY_CLAIM_BOND <= d.purse.held
    ensures SettleClaim(d, id, status).Ok?
    ensures
      var e := SettleClaim(d, id, status).value;
      && (forall p: Address :: Get(e.openClaimsAgainst, p) == OpenAgainst(e.claims, p))
      && OpenClaims(e.claims) == OpenClaims(d.claims) - 1
      && (forall i :: 0 <= i < |e.claims| ==> ClaimOk(e.claims[i], c, w, now))
      && e == d.(claims := e.claims, openClaimsAgainst := e.openClaimsAgainst)
      && e.claims == d.claims[id := d.claims[id].(status := status)]
  {
    hide Sum, OpenClaims, OpenAgainst;
    var claim := d.claims[id];
    assert Get(d.openClaimsAgainst, claim.participant) == OpenAgainst(d.claims, claim.participant);
    SettledCounts(d.claims, id, status, claim.participant);
    var e := SettleClaim(d, id, status).value;
    forall p: Address ensures Get(e.openClaimsAgainst, p) == OpenAgainst(e.claims, p) {
      SettledCounts(d.claims, id, status, p);
    }
    forall i | 0 <= i < |e.claims| ensures ClaimOk(e.claims[i], c, w, now) {
      assert ClaimOk(d.claims[i], c, w, now);
    }
  }

  lemma ClaimExpiredOk(d: Deposits, c: RoomConfig, w: Watch, now: Uint64, id: nat)
    requires DepositsOk(d, c, w, now)
    ensures
      var r := ExpireClaim(c, d, now, id);
      && (r.Ok? <==> id < |d.claims| && d.claims[id].status.Outstanding?
                     && d.claims[id].filedAt + c.integrityClaimTimeout <= now)
      && (r.Ok? ==>
            && DepositsOk(r.value, c, w, now)
            && r.value.integrityBondOf == d.integrityBondOf && r.value.integrityBondClaimed == d.integrityBondClaimed
            && r.value.claims == d.claims[id := d.claims[id].(status := Expired)])
  {
    hide Sum, OpenClaims, OpenAgainst, SettleClaim, ClaimOk, BondOk;
    if id < |d.claims| && d.claims[id].status.Outstanding? {
      ClaimSettles(d, c, w, now, id, Expired);
      if ExpireClaim(c, d, now, id).Ok? {
        SameBonds(d, ExpireClaim(c, d, now, id).value, c);
      }
    }
  }

  lemma SameBonds(d: Deposits, e: Deposits, c: RoomConfig)
    requires e.integrityBondOf == d.integrityBondOf
    ensures forall p: Address :: BondOk(e, c, p) == BondOk(d, c, p)
  {
  }

  lemma ClaimAdjudicatedOk(d: Deposits, c: RoomConfig, w: Watch, now: Uint64, sender: Address, id: nat, uphold: bool)
    requires DepositsOk(d, c, w, now) && AdjudicateClaim(c, d, sender, now, id, uphold).Ok?
    ensures DepositsOk(AdjudicateClaim(c, d, sender, now, id, uphold).value, c, w, now)
  {
    hide Sum, OpenClaims, OpenAgainst, SettleClaim, ClaimOk;
    ClaimSettles(d, c, w, now, id, if uphold then Upheld else Rejected);
    var e := AdjudicateClaim(c, d, sender, now, id, uphold).value;
    SumUpdate(d.integrityBondOf, d.claims[id].participant, 0);
    forall p: Address ensures BondOk(e, c, p) {
      assert BondOk(d, c, p);
    }
  }

  /** Deposits look at the room's clock only through the time it closed. */
  lemma DepositsCarryOver(d: Deposits, c: RoomConfig, w: Watch, v: Watch, now: Uint64)
    requires DepositsOk(d, c, w, now)
    requires w.roomClosedSequence != 0 ==> v.roomClosedSequence != 0 && v.roomClosedAt == w.roomClosedAt
    ensures DepositsOk(d, c, v, now)
  {
    hide Sum, OpenClaims, OpenAgainst, BondOk;
    forall i | 0 <= i < |d.claims| ensures ClaimOk(d.claims[i], c, v, now) {
      assert ClaimOk(d.claims[i], c, w, now);
    }
  }

  // --------------------------------------------------------------- the room

  lemma PublishKeeps(r: Room, sender: Address, now: Uint64, request: SlotRequest, permit: PublicationPermit,
                     signer: Address, restricted: seq<Address>)
    requires RoomInv(r, now) && PublishSlot(r, sender, now, request, permit, signer, restricted).Ok?
    ensures RoomInv(PublishSlot(r, sender, now, request, permit, signer, restricted).value, now)
  {
    hide Inv, DepositsOk, ValidatePermit, RoomConfigOk, NewMarket, ConfigOk, SlotsOk, OpenOk, RoomRestricted;
    PermitFresh(r, now, request, permit, signer, restricted);
    var n := PublishSlot(r, sender, now, request, permit, signer, restricted).value;
    var config := SlotConfig(r.config, request.winnerRewardBps, now + request.announceDelay);
    var m := FreshSlot(config, RoomRestricted(r.config) + (set a | a in restricted), now);
    DepositsCarryOver(r.deposits, r.config, r.watch, n.watch, now);
    SlotAdded(r.slots, r.config, r.watch, n.watch, now, m);
    OpenAdded(r.open, r.slots, m);
  }

  lemma FreshSlot(config: Config, restricted: set<Address>, now: Uint64) returns (m: Market)
    requires ConfigOk(config)
    ensures m == NewMarket(config, restricted)
    ensures Inv(m, now) && m.config == config && m.gate.state.Open? && m.gate.lastSafeSequence == 0
  {
    hide Inv, ConfigOk;
    NewMarketOk(config, restricted, now);
    m := NewMarket(config, restricted);
  }

  lemma PermitFresh(r: Room, now: Uint64, request: SlotRequest, permit: PublicationPermit, signer: Address,
                    restricted: seq<Address>)
    requires ValidatePermit(r, now, request, permit, signer, restricted).Ok?
    ensures permit.undecidedThroughSequence >= r.watch.lastObservedSequence
  {
  }

  lemma SlotAdded(slots: seq<Market>, c: RoomConfig, w: Watch, v: Watch, now: Uint64, m: Market)
    requires SlotsOk(slots, c, w, now) && SlotOk(m, c, v, now)
    requires w.roomClosedSequence == 0 == v.roomClosedSequence && w.lastObservedSequence <= v.lastObservedSequence
    ensures SlotsOk(slots + [m], c, v, now)
  {
    hide Inv, SlotConfig;
    forall i | 0 <= i < |slots| ensures SlotOk(slots[i], c, v, now) {
      assert SlotOk(slots[i], c, w, now);
    }
  }

  lemma OpenAdded(o: OpenIndex, slots: seq<Market>, m: Market)
    requires OpenOk(o, slots) && !m.gate.state.Closed?
    ensures OpenOk(AddOpen(o, |slots|), slots + [m])
  {
    var p, next := AddOpen(o, |slots|), slots + [m];
    var added: nat := |slots|;
    assert Get(o.indexPlusOne, added) == 0;
    forall i | 0 <= i < |p.openSlots| ensures Get(p.indexPlusOne, p.openSlots[i]) == i + 1 {
      if i < |o.openSlots| {
        assert Get(o.indexPlusOne, o.openSlots[i]) == i + 1;
      }
    }
    forall s: nat ensures Get(p.indexPlusOne, s) != 0 <==> s < |next| && !next[s].gate.state.Closed? {
      if s != added {
        assert Get(p.indexPlusOne, s) == Get(o.indexPlusOne, s);
        assert s < |slots| ==> next[s] == slots[s];
      }
    }
  }

  lemma WatchRaised(r: Room, now: Uint64, sequence: nat)
    requires RoomInv(r, now) && AdvanceSequence(r.watch, now, sequence).Ok?
    ensures
      var v := AdvanceSequence(r.watch, now, sequence).value;
      && SlotsOk(r.slots, r.config, v, now)
      && DepositsOk(r.deposits, r.config, v, now)
      && WatchOk(v, now)
      && v.roomClosedSequence == 0 && v.lastObservedSequence == sequence
  {
    hide SlotsOk, OpenOk, DepositsOk, RoomConfigOk;
    AdvanceOk(r.slots, r.config, r.watch, now, sequence);
    DepositsCarryOver(r.deposits, r.config, r.watch, AdvanceSequence(r.watch, now, sequence).value, now);
  }

  /** A batch of calls on slots, under a watermark that covers it. */
  lemma BatchKeeps(r: Room, v: Watch, now: Uint64, calls: seq<(nat, Call)>)
    requires RoomInv(r.(watch := v), now)
    requires forall i :: 0 <= i < |calls| ==>
      Tame(calls[i].1, v.lastObservedSequence) && (v.roomClosedSequence == 0 || calls[i].1.ProcessCall?)
    ensures
      var slots := CallEach(r.slots, FromRoom(r, now), calls);
      && (slots.Ok? <==> forall i :: 0 <= i < |calls| ==> calls[i].0 < |r.slots|)
      && (slots.Ok? ==> RoomInv(r.(watch := v, slots := slots.value), now))
  {
    hide SlotsOk, DepositsOk, OpenOk, RoomConfigOk, Tame, ParticipantsReady;
    CallEachOk(r.slots, r.config, v, FromRoom(r, now), calls);
    if CallEach(r.slots, FromRoom(r, now), calls).Ok? {
      SameOpen(r.open, r.slots, CallEach(r.slots, FromRoom(r, now), calls).value);
    }
  }

  lemma MarkRoomKeeps(r: Room, sender: Address, now: Uint64, sequence: nat, markets: seq<nat>, epochs: seq<Uint64>)
    requires RoomInv(r, now) && MarkRoomEpochsSafe(r, sender, now, sequence, markets, epochs).Ok?
    ensures RoomInv(MarkRoomEpochsSafe(r, sender, now, sequence, markets, epochs).value, now)
  {
    hide SlotsOk, DepositsOk, OpenOk, RoomConfigOk, FromRoom, CallEach;
    WatchRaised(r, now, sequence);
    BatchKeeps(r, AdvanceSequence(r.watch, now, sequence).value, now, MarkSafeCalls(sequence, markets, epochs));
  }

  lemma SuspendRoomKeeps(r: Room, sender: Address, now: Uint64, sequence: nat)
    requires RoomInv(r, now) && SuspendRoom(r, sender, now, sequence).Ok?
    ensures RoomInv(SuspendRoom(r, sender, now, sequence).value, now)
  {
    hide SlotsOk, DepositsOk, OpenOk, RoomConfigOk, FromRoom, CallEach;
    WatchRaised(r, now, sequence);
    BatchKeeps(r, AdvanceSequence(r.watch, now, sequence).value, now,
               SameCalls(r.open.openSlots, SuspendCall(sequence)));
  }

  lemma ReopenRoomKeeps(r: Room, sender: Address, now: Uint64, sequence: nat)
    requires RoomInv(r, now) && ReopenRoom(r, sender, now, sequence).Ok?
    ensures RoomInv(ReopenRoom(r, sender, now, sequence).value, now)
  {
    hide SlotsOk, DepositsOk, OpenOk, RoomConfigOk, FromRoom, CallEach;
    WatchRaised(r, now, sequence);
    BatchKeeps(r, AdvanceSequence(r.watch, now, sequence).value, now,
               SameCalls(r.open.openSlots, ReopenCall(sequence)));
  }

  lemma ProcessRoomKeeps(r: Room, now: Uint64, markets: seq<nat>, epochs: seq<Uint64>, maximum: nat)
    requires RoomInv(r, now) && ProcessRoom(r, now, markets, epochs, maximum).Ok?
    ensures RoomInv(ProcessRoom(r, now, markets, epochs, maximum).value, now)
  {
    hide SlotsOk, DepositsOk, OpenOk, RoomConfigOk, FromRoom, CallEach;
    BatchKeeps(r, r.watch, now, ProcessCalls(markets, epochs, maximum));
  }

  /** Closing a list of slots at `sequence`. */
  lemma CloseListKeeps(r: Room, v: Watch, now: Uint64, sequence: nat, markets: seq<nat>)
    requires RoomInv(r.(watch := v), now)
    ensures
      var closed := CloseEach(r.slots, r.open, FromRoom(r, now), sequence, markets);
      && (closed.Ok? <==> forall i :: 0 <= i < |markets| ==> markets[i] < |r.slots|)
      && (closed.Ok? ==>
            && RoomInv(r.(watch := v, slots := closed.value.0, open := closed.value.1), now)
            && GateMoved(r.slots, closed.value.0)
            && (Above(r.slots, sequence) ==>
                  forall i :: 0 <= i < |markets| ==>
                    markets[i] < |r.slots| && closed.value.0[markets[i]].gate.state.Closed?))
  {
    hide SlotsOk, DepositsOk, OpenOk, RoomConfigOk, ParticipantsReady, Above;
    CloseEachOk(r.slots, r.open, r.config, v, FromRoom(r, now), sequence, markets);
  }

  lemma CloseSlotsKeeps(r: Room, sender: Address, now: Uint64, sequence: nat, markets: seq<nat>)
    requires RoomInv(r, now) && CloseSlots(r, sender, now, sequence, markets).Ok?
    ensures RoomInv(CloseSlots(r, sender, now, sequence, markets).value, now)
  {
    hide SlotsOk, DepositsOk, OpenOk, RoomConfigOk, FromRoom, CloseEach;
    WatchRaised(r, now, sequence);
    CloseListKeeps(r, AdvanceSequence(r.watch, now, sequence).value, now, sequence, markets);
  }

  lemma CloseRemainingKeeps(r: Room, now: Uint64, markets: seq<nat>)
    requires RoomInv(r, now)
    ensures
      var n := CloseRemainingSlots(r, now, markets);
      && (n.Ok? <==> r.watch.roomClosedSequence != 0 && |markets| <= MAX_BATCH
                     && forall i :: 0 <= i < |markets| ==> markets[i] < |r.slots|)
      && (n.Ok? ==>
            && RoomInv(n.value, now)
            && n.value == r.(slots := n.value.slots, open := n.value.open)
            && GateMoved(r.slots, n.value.slots)
            && (forall i :: 0 <= i < |markets| ==>
                markets[i] < |r.slots| && n.value.slots[markets[i]].gate.state.Closed?))
  {
    hide SlotsOk, DepositsOk, OpenOk, RoomConfigOk, FromRoom, CloseEach, Above, GateMoved;
    CloseListKeeps(r, r.watch, now, r.watch.roomClosedSequence, markets);
    if r.watch.roomClosedSequence != 0 {
      AboveAll(r.slots, r.config, r.watch, now, r.watch.roomClosedSequence);
    }
  }

  /** Closing the room at a sequence past the watermark. */
  lemma RoomClosedOk(r: Room, v: Watch, now: Uint64)
    requires RoomInv(r, now) && r.watch.roomClosedSequence == 0
    requires r.watch.lastObservedSequence < v.roomClosedSequence
      && r.watch.lastObservedSequence <= v.lastObservedSequence
    requires WatchOk(v, now)
    ensures RoomInv(r.(watch := v), now)
  {
    hide Inv, DepositsOk, OpenOk, RoomConfigOk, SlotConfig;
    forall i | 0 <= i < |r.slots| ensures SlotOk(r.slots[i], r.config, v, now) {
      assert SlotOk(r.slots[i], r.config, r.watch, now);
    }
    DepositsCarryOver(r.deposits, r.config, r.watch, v, now);
  }

  lemma CloseRoomKeeps(r: Room, sender: Address, now: Uint64, sequence: nat)
    requires RoomInv(r, now)
    ensures CloseRoom(r, sender, now, sequence).Ok?
      <==> sender == r.config.gateSigner && r.watch.roomClosedSequence == 0
    ensures CloseRoom(r, sender, now, sequence).Ok? ==> RoomInv(CloseRoom(r, sender, now, sequence).value, now)
  {
    hide SlotsOk, DepositsOk, OpenOk, RoomConfigOk;
    if CloseRoom(r, sender, now, sequence).Ok? {
      RoomClosedOk(r, CloseRoom(r, sender, now, sequence).value.watch, now);
    }
  }

  lemma StallCloseKeeps(r: Room, now: Uint64)
    requires RoomInv(r, now) && CloseRoomOnGateStall(r, now).Ok?
    ensures RoomInv(CloseRoomOnGateStall(r, now).value, now)
  {
    hide SlotsOk, DepositsOk, OpenOk, RoomConfigOk;
    RoomClosedOk(r, CloseRoomOnGateStall(r, now).value.watch, now);
  }

  lemma DepositCallKeeps(r: Room, sender: Address, now: Uint64, call: RoomCall)
    requires RoomInv(r, now) && ApplyRoom(r, sender, now, call).Ok?
    requires call.PostRoomBondCall? || call.ClaimRoomBondCall? || call.FileClaimCall? || call.AdjudicateCall?
      || call.ExpireClaimCall?
    ensures RoomInv(ApplyRoom(r, sender, now, call).value, now)
  {
    hide SlotsOk, DepositsOk, OpenOk, RoomConfigOk, PostBond, ClaimBond, FileClaim, AdjudicateClaim, ExpireClaim;
    match call
    case PostRoomBondCall => BondPostedOk(r.deposits, r.config, r.watch, now, sender);
    case ClaimRoomBondCall => BondReleasedOk(r, sender, now);
    case FileClaimCall(participant, code, evidence) =>
      ClaimFiledOk(r.deposits, r.config, r.watch, now, sender, participant, code, evidence);
    case AdjudicateCall(claimId, uphold) =>
      ClaimAdjudicatedOk(r.deposits, r.config, r.watch, now, sender, claimId, uphold);
    case ExpireClaimCall(claimId) => ClaimExpiredOk(r.deposits, r.config, r.watch, now, claimId);
  }

  /** Calls on a slot from outside the room. */
  lemma SlotCallKeeps(r: Room, sender: Address, now: Uint64, slot: nat, call: Call)
    requires RoomInv(r, now) && sender != r.config.self && CallSlot(r, sender, now, slot, call).Ok?
    ensures RoomInv(CallSlot(r, sender, now, slot, call).value, now)
  {
    hide SlotOk, DepositsOk, OpenOk, RoomConfigOk, Apply, ParticipantsReady;
    SlotStepOk(r.slots[slot], r.config, r.watch, Msg(sender, now, ParticipantsReady(r.config, r.deposits)), call);
    SameOpen(r.open, r.slots, CallSlot(r, sender, now, slot, call).value.slots);
  }

  lemma ApplyRoomKeeps(r: Room, sender: Address, now: Uint64, call: RoomCall)
    requires RoomInv(r, now) && sender != r.config.self && ApplyRoom(r, sender, now, call).Ok?
    ensures RoomInv(ApplyRoom(r, sender, now, call).value, now)
  {
    hide RoomInv, PublishSlot, MarkRoomEpochsSafe, SuspendRoom, ReopenRoom, CloseSlots, CloseRoom, CloseRoomOnGateStall,
      CloseRemainingSlots, ProcessRoom, CallSlot, WithDeposits;
    match call
    case PublishCall(request, permit, signer, restricted) =>
      PublishKeeps(r, sender, now, request, permit, signer, restricted);
    case MarkEpochsSafeCall(sequence, markets, epochs) => MarkRoomKeeps(r, sender, now, sequence, markets, epochs);
    case SuspendRoomCall(sequence) => SuspendRoomKeeps(r, sender, now, sequence);
    case ReopenRoomCall(sequence) => ReopenRoomKeeps(r, sender, now, sequence);
    case CloseSlotsCall(sequence, markets) => CloseSlotsKeeps(r, sender, now, sequence, markets);
    case CloseRoomCall(sequence) => CloseRoomKeeps(r, sender, now, sequence);
    case StallCloseCall => StallCloseKeeps(r, now);
    case CloseRemainingCall(markets) => CloseRemainingKeeps(r, now, markets);
    case ProcessRoomCall(markets, epochs, maximum) => ProcessRoomKeeps(r, now, markets, epochs, maximum);
    case SlotCall(slot, inner) => SlotCallKeeps(r, sender, now, slot, inner);
    case _ => DepositCallKeeps(r, sender, now, call);
  }
}
