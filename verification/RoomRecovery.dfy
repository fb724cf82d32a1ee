/** A room is never stuck: once its gate has been silent for the stall timeout,
    anyone can bring every slot to a final outcome, settle every claim and free
    every bond, without a privileged key. */
module RoomRecovery {
  import opened Prelude
  import opened Market
  import opened MarketInvariant
  import opened MarketTheorems
  import opened Room
  import opened RoomInvariant
  import opened RoomRuns

  // ----------------------------------------------------- runs that all succeed

  /** From `r`, every one of these calls succeeds, and they end in `s`. */
  ghost predicate Leads(r: Room, events: seq<RoomEvent>, s: Room)
    decreases |events|
  {
    if events == [] then r == s
    else
      var next := ApplyRoom(r, events[0].sender, events[0].now, events[0].call);
      next.Ok? && Leads(next.value, events[1..], s)
  }

  lemma {:induction false} LeadsOn(r: Room, a: seq<RoomEvent>, s: Room, b: seq<RoomEvent>, t: Room)
    requires Leads(r, a, s) && Leads(s, b, t)
    ensures Leads(r, a + b, t)
    decreases |a|
  {
    hide ApplyRoom;
    if a == [] {
      assert a + b == b;
    } else {
      assert (a + b)[1..] == a[1..] + b;
      LeadsOn(ApplyRoom(r, a[0].sender, a[0].now, a[0].call).value, a[1..], s, b, t);
    }
  }

  lemma LeadsOne(r: Room, e: RoomEvent)
    requires ApplyRoom(r, e.sender, e.now, e.call).Ok?
    ensures Leads(r, [e], ApplyRoom(r, e.sender, e.now, e.call).value)
  {
    hide ApplyRoom;
    LeadsNowhere(ApplyRoom(r, e.sender, e.now, e.call).value);
  }

  lemma LeadsNowhere(r: Room)
    ensures Leads(r, [], r)
  {
  }

  lemma {:induction false} LeadsIsRun(r: Room, events: seq<RoomEvent>, s: Room)
    requires Leads(r, events, s)
    ensures RunRoom(r, events) == s
    decreases |events|
  {
    hide ApplyRoom;
    if events != [] {
      LeadsIsRun(ApplyRoom(r, events[0].sender, events[0].now, events[0].call).value, events[1..], s);
    }
  }

  /** All calls come from one account at one time, and none needs a privileged
      key. */
  ghost predicate Permissionless(events: seq<RoomEvent>, anyone: Address, now: Uint64) {
    forall i :: 0 <= i < |events| ==>
      && events[i].sender == anyone && events[i].now == now
      && match events[i].call
         case StallCloseCall => true
         case CloseRemainingCall(markets) => |markets| <= 16
         case SlotCall(_, call) => call.InvalidateCall? || call.FinalizeCall? || call.ExpireCall?
         case ExpireClaimCall(_) => true
         case _ => false
  }

  lemma OneMore(r: Room, e: RoomEvent, rest: seq<RoomEvent>, s: Room)
    requires ApplyRoom(r, e.sender, e.now, e.call).Ok? && Leads(ApplyRoom(r, e.sender, e.now, e.call).value, rest, s)
    requires Permissionless([e], e.sender, e.now) && Permissionless(rest, e.sender, e.now)
    ensures Leads(r, [e] + rest, s) && Permissionless([e] + rest, e.sender, e.now)
  {
    hide ApplyRoom;
    assert ([e] + rest)[1..] == rest;
    assert [e][0] == e;
  }

  lemma {:induction false} PermissionlessIsPlausible(c: RoomConfig, start: Uint64, events: seq<RoomEvent>,
                                                     anyone: Address, now: Uint64)
    requires Permissionless(events, anyone, now) && anyone != c.self && start <= now
    ensures Plausible(c, start, events)
    decreases |events|
  {
    if events != [] {
      PermissionlessIsPlausible(c, now, events[1..], anyone, now);
    }
  }

  lemma {:induction false} PlausibleInTurn(c: RoomConfig, start: Uint64, a: seq<RoomEvent>, b: seq<RoomEvent>,
                                           middle: Uint64)
    requires Plausible(c, start, a) && Plausible(c, middle, b) && start <= middle
    requires forall i :: 0 <= i < |a| ==> a[i].now <= middle
    ensures Plausible(c, start, a + b)
    decreases |a|
  {
    if a == [] {
      assert a + b == b;
    } else {
      assert (a + b)[1..] == a[1..] + b;
      PlausibleInTurn(c, a[0].now, a[1..], b, middle);
    }
  }

  // --------------------------------------------------------- closing the slots

  function Batch(first: nat, count: nat): (markets: seq<nat>)
    ensures |markets| == count
    ensures forall i :: 0 <= i < count ==> markets[i] == first + i
  {
    seq(count, i requires 0 <= i < count => first + i)
  }

  /** Closes the slots from `first` to `total` in batches of at most 16. */
  function CloseBatches(anyone: Address, now: Uint64, first: nat, total: nat): seq<RoomEvent>
    decreases total - first
  {
    if total <= first then []
    else
      var count := Min(MAX_BATCH, total - first);
      [RoomEvent(anyone, now, CloseRemainingCall(Batch(first, count)))]
        + CloseBatches(anyone, now, first + count, total)
  }

  ghost predicate ClosedFrom(slots: seq<Market>, first: nat) {
    forall i :: first <= i < |slots| ==> slots[i].gate.state.Closed?
  }

  /** In a closed room the batches close every slot from `first` on and change
      nothing but gates. */
  lemma {:induction false} BatchesClose(r: Room, anyone: Address, now: Uint64, first: nat) returns (s: Room)
    requires RoomInv(r, now) && r.watch.roomClosedSequence != 0 && first <= |r.slots|
    ensures Leads(r, CloseBatches(anyone, now, first, |r.slots|), s)
    ensures Permissionless(CloseBatches(anyone, now, first, |r.slots|), anyone, now)
    ensures RoomInv(s, now) && s == r.(slots := s.slots, open := s.open)
    ensures GateMoved(r.slots, s.slots) && ClosedFrom(s.slots, first)
    decreases |r.slots| - first
  {
    hide RoomInv, GateMoved, CloseRemainingSlots;
    if first == |r.slots| {
      s := r;
      StayedPut(r.slots);
    } else {
      var count := Min(MAX_BATCH, |r.slots| - first);
      var markets := Batch(first, count);
      CloseRemainingKeeps(r, now, markets);
      var next := CloseRemainingSlots(r, now, markets).value;
      MovedLength(r.slots, next.slots);
      s := BatchesClose(next, anyone, now, first + count);
      BatchThenRest(r.slots, next.slots, s.slots, first, count);
    }
  }

  lemma StayedPut(slots: seq<Market>)
    ensures GateMoved(slots, slots)
  {
  }

  lemma MovedLength(slots: seq<Market>, next: seq<Market>)
    requires GateMoved(slots, next)
    ensures |next| == |slots|
  {
  }

  lemma BatchThenRest(a: seq<Market>, b: seq<Market>, c: seq<Market>, first: nat, count: nat)
    requires GateMoved(a, b) && GateMoved(b, c) && first + count <= |a|
    requires forall i :: 0 <= i < count ==> b[Batch(first, count)[i]].gate.state.Closed?
    requires ClosedFrom(c, first + count)
    ensures GateMoved(a, c) && ClosedFrom(c, first)
  {
    forall i | first <= i < |c| ensures c[i].gate.state.Closed? {
      if i < first + count {
        assert b[Batch(first, count)[i - first]].gate.state.Closed?;
      }
    }
    forall i | 0 <= i < |a|
      ensures
        && c[i] == a[i].(gate := c[i].gate)
        && c[i].gate.lastSafeSequence == a[i].gate.lastSafeSequence
        && (a[i].gate.state.Closed? ==> c[i] == a[i])
    {
      assert b[i] == a[i].(gate := b[i].gate);
    }
  }

  // ------------------------------------------------------- finalizing the slots

  function FinishOf(m: Market, anyone: Address, now: Uint64, slot: nat): seq<RoomEvent> {
    if m.ruling.finalOutcome.Unset? then [RoomEvent(anyone, now, SlotCall(slot, Finisher(m)))] else []
  }

  /** Finalizes every slot from `first` on that is not final. */
  function FinishSlots(slots: seq<Market>, anyone: Address, now: Uint64, first: nat): seq<RoomEvent>
    decreases |slots| - first
  {
    if |slots| <= first then []
    else
      FinishOf(slots[first], anyone, now, first) + FinishSlots(slots, anyone, now, first + 1)
  }

  lemma {:induction false} SameFinish(slots: seq<Market>, next: seq<Market>, anyone: Address, now: Uint64, first: nat)
    requires |next| == |slots|
    requires forall i :: first <= i < |slots| ==> next[i].ruling == slots[i].ruling
    ensures FinishSlots(next, anyone, now, first) == FinishSlots(slots, anyone, now, first)
    decreases |slots| - first
  {
    hide FinishOf;
    if first < |slots| {
      SameFinisher(slots[first], next[first], anyone, now, first);
      SameFinish(slots, next, anyone, now, first + 1);
    }
  }

  lemma SameFinisher(m: Market, n: Market, anyone: Address, now: Uint64, slot: nat)
    requires n.ruling == m.ruling
    ensures FinishOf(n, anyone, now, slot) == FinishOf(m, anyone, now, slot)
  {
  }

  /** Every slot is closed, and is final or has waited long enough. */
  ghost predicate Overdue(slots: seq<Market>, now: Uint64) {
    forall i :: 0 <= i < |slots| ==>
      slots[i].gate.state.Closed? && (slots[i].ruling.finalOutcome.Unset? ==> Ripe(slots[i], now))
  }

  ghost predicate FinalBefore(slots: seq<Market>, first: nat) {
    forall i :: 0 <= i < |slots| && i < first ==> !slots[i].ruling.finalOutcome.Unset?
  }

  /** Anyone can finalize one overdue slot. */
  lemma FinishOne(r: Room, anyone: Address, now: Uint64, slot: nat)
    requires RoomInv(r, now) && anyone != r.config.self && slot < |r.slots| && Overdue(r.slots, now)
    requires r.slots[slot].ruling.finalOutcome.Unset?
    ensures
      var n := CallSlot(r, anyone, now, slot, Finisher(r.slots[slot]));
      && n.Ok?
      && RoomInv(n.value, now)
      && n.value == r.(slots := n.value.slots)
      && |n.value.slots| == |r.slots|
      && (forall i :: 0 <= i < |r.slots| && i != slot ==> n.value.slots[i] == r.slots[i])
      && n.value.slots[slot].gate == r.slots[slot].gate
      && !n.value.slots[slot].ruling.finalOutcome.Unset?
  {
    hide Inv, Apply, OpenOk, DepositsOk, ParticipantsReady, Finisher, Ripe;
    assert SlotOk(r.slots[slot], r.config, r.watch, now);
    FinisherWorks(r.slots[slot], now, now, anyone, ParticipantsReady(r.config, r.deposits));
    hide SlotsOk;
    SlotCallKeeps(r, anyone, now, slot, Finisher(r.slots[slot]));
  }

  lemma {:induction false} SlotsFinish(r: Room, anyone: Address, now: Uint64, first: nat) returns (s: Room)
    requires RoomInv(r, now) && anyone != r.config.self && first <= |r.slots|
    requires Overdue(r.slots, now) && FinalBefore(r.slots, first)
    ensures Leads(r, FinishSlots(r.slots, anyone, now, first), s)
    ensures Permissionless(FinishSlots(r.slots, anyone, now, first), anyone, now)
    ensures RoomInv(s, now) && s == r.(slots := s.slots) && |s.slots| == |r.slots| && AllFinal(s.slots)
    decreases |r.slots| - first
  {
    hide RoomInv, CallSlot, Overdue, AllFinal, Finisher, Leads, FinalBefore, Permissionless;
    if first == |r.slots| {
      s := r;
      AllBefore(r.slots, first);
      LeadsNowhere(r);
      NothingAsked(anyone, now);
    } else if r.slots[first].ruling.finalOutcome.Unset? {
      FinishOne(r, anyone, now, first);
      var e := RoomEvent(anyone, now, SlotCall(first, Finisher(r.slots[first])));
      var next := CallSlot(r, anyone, now, first, e.call.call).value;
      StillOverdue(r.slots, next.slots, first, now);
      OneMoreFinal(r.slots, next.slots, first);
      s := SlotsFinish(next, anyone, now, first + 1);
      SameFinish(r.slots, next.slots, anyone, now, first + 1);
      FinisherIsOpen(r.slots[first], e);
      OneMore(r, e, FinishSlots(r.slots, anyone, now, first + 1), s);
    } else {
      OneMoreFinal(r.slots, r.slots, first);
      s := SlotsFinish(r, anyone, now, first + 1);
      assert FinishSlots(r.slots, anyone, now, first) == FinishSlots(r.slots, anyone, now, first + 1);
    }
  }

  lemma OneMoreFinal(slots: seq<Market>, next: seq<Market>, first: nat)
    requires FinalBefore(slots, first) && |next| == |slots| && first < |slots|
    requires forall i :: 0 <= i < |slots| && i != first ==> next[i] == slots[i]
    requires !next[first].ruling.finalOutcome.Unset?
    ensures FinalBefore(next, first + 1)
  {
  }

  lemma NothingAsked(anyone: Address, now: Uint64)
    ensures Permissionless([], anyone, now)
  {
  }

  lemma AllBefore(slots: seq<Market>, first: nat)
    requires FinalBefore(slots, first) && first == |slots|
    ensures AllFinal(slots)
  {
  }

  lemma StillOverdue(slots: seq<Market>, next: seq<Market>, finished: nat, now: Uint64)
    requires Overdue(slots, now) && |next| == |slots| && finished < |slots|
    requires forall i :: 0 <= i < |slots| && i != finished ==> next[i] == slots[i]
    requires next[finished].gate == slots[finished].gate && !next[finished].ruling.finalOutcome.Unset?
    ensures Overdue(next, now)
  {
    hide Ripe;
  }

  lemma FinisherIsOpen(m: Market, e: RoomEvent)
    requires e.call.SlotCall? && e.call.call == Finisher(m)
    ensures Permissionless([e], e.sender, e.now)
  {
  }

  // ------------------------------------------------------- settling the claims

  /** An open claim against one of `who`. */
  predicate Waiting(claim: IntegrityClaim, who: set<Address>) {
    claim.status.Outstanding? && claim.participant in who
  }

  /** Expires every open claim against one of `who` from `first` on. */
  function ExpireClaims(claims: seq<IntegrityClaim>, who: set<Address>, anyone: Address, now: Uint64, first: nat)
    : seq<RoomEvent>
    decreases |claims| - first
  {
    if |claims| <= first then []
    else
      (if Waiting(claims[first], who) then [RoomEvent(anyone, now, ExpireClaimCall(first))] else [])
      + ExpireClaims(claims, who, anyone, now, first + 1)
  }

  lemma {:induction false} ExpiryIgnoresEarlier(claims: seq<IntegrityClaim>, next: seq<IntegrityClaim>,
                                                who: set<Address>, anyone: Address, now: Uint64, first: nat)
    requires |next| == |claims|
    requires forall i :: first <= i < |claims| ==> next[i] == claims[i]
    ensures ExpireClaims(next, who, anyone, now, first) == ExpireClaims(claims, who, anyone, now, first)
    decreases |claims| - first
  {
    if first < |claims| {
      ExpiryIgnoresEarlier(claims, next, who, anyone, now, first + 1);
    }
  }

  ghost predicate TimedOut(claims: seq<IntegrityClaim>, who: set<Address>, c: RoomConfig, now: Uint64) {
    forall i :: 0 <= i < |claims| && Waiting(claims[i], who) ==> claims[i].filedAt + c.integrityClaimTimeout <= now
  }

  ghost predicate SettledBefore(claims: seq<IntegrityClaim>, who: set<Address>, first: nat) {
    forall i :: 0 <= i < |claims| && i < first ==> !Waiting(claims[i], who)
  }

  lemma ExpireOne(r: Room, anyone: Address, now: Uint64, id: nat)
    requires RoomInv(r, now) && id < |r.deposits.claims| && r.deposits.claims[id].status.Outstanding?
    requires r.deposits.claims[id].filedAt + r.config.integrityClaimTimeout <= now
    ensures
      var n := ApplyRoom(r, anyone, now, ExpireClaimCall(id));
      && n.Ok?
      && RoomInv(n.value, now)
      && n.value == r.(deposits := n.value.deposits)
      && n.value.deposits.integrityBondOf == r.deposits.integrityBondOf
      && n.value.deposits.integrityBondClaimed == r.deposits.integrityBondClaimed
      && n.value.deposits.claims == r.deposits.claims[id := r.deposits.claims[id].(status := Expired)]
  {
    hide SlotsOk, OpenOk, DepositsOk, RoomConfigOk, ExpireClaim;
    ClaimExpiredOk(r.deposits, r.config, r.watch, now, id);
  }

  lemma {:induction false} ClaimsExpire(r: Room, who: set<Address>, anyone: Address, now: Uint64, first: nat)
    returns (s: Room)
    requires RoomInv(r, now) && first <= |r.deposits.claims|
    requires TimedOut(r.deposits.claims, who, r.config, now) && SettledBefore(r.deposits.claims, who, first)
    ensures Leads(r, ExpireClaims(r.deposits.claims, who, anyone, now, first), s)
    ensures Permissionless(ExpireClaims(r.deposits.claims, who, anyone, now, first), anyone, now)
    ensures RoomInv(s, now) && s == r.(deposits := s.deposits)
    ensures SettledBefore(s.deposits.claims, who, |s.deposits.claims|)
    ensures s.deposits.integrityBondOf == r.deposits.integrityBondOf
    ensures s.deposits.integrityBondClaimed == r.deposits.integrityBondClaimed
    decreases |r.deposits.claims| - first
  {
    hide RoomInv, ApplyRoom;
    var claims := r.deposits.claims;
    if first == |claims| {
      s := r;
    } else if Waiting(claims[first], who) {
      ExpireOne(r, anyone, now, first);
      var next := ApplyRoom(r, anyone, now, ExpireClaimCall(first)).value;
      s := ClaimsExpire(next, who, anyone, now, first + 1);
      ExpiryIgnoresEarlier(claims, next.deposits.claims, who, anyone, now, first + 1);
    } else {
      s := ClaimsExpire(r, who, anyone, now, first + 1);
      assert ExpireClaims(claims, who, anyone, now, first) == ExpireClaims(claims, who, anyone, now, first + 1);
    }
  }

  lemma {:induction false} NothingOpen(claims: seq<IntegrityClaim>, p: Address)
    requires forall i :: 0 <= i < |claims| ==> !claims[i].status.Outstanding?
    ensures OpenClaims(claims) == 0
    decreases |claims|
  {
    if claims != [] {
      NothingOpen(claims[..|claims| - 1], p);
    }
  }

  lemma {:induction false} NothingOpenAgainst(claims: seq<IntegrityClaim>, who: set<Address>, p: Address)
    requires SettledBefore(claims, who, |claims|) && p in who
    ensures OpenAgainst(claims, p) == 0
    decreases |claims|
  {
    if claims != [] {
      NothingOpenAgainst(claims[..|claims| - 1], who, p);
    }
  }

  // ------------------------------------------------------------------ recovery

  /** At `early` closes the room if it is not closed, and then all its slots; at
      `late` finalizes the slots and expires the claims against `who`. */
  function Recovery(r: Room, who: set<Address>, anyone: Address, early: Uint64, late: Uint64): seq<RoomEvent> {
    Closing(r, anyone, early) + Finishing(r, who, anyone, late)
  }

  function Closing(r: Room, anyone: Address, early: Uint64): seq<RoomEvent> {
    (if r.watch.roomClosedSequence == 0 then [RoomEvent(anyone, early, StallCloseCall)] else [])
    + CloseBatches(anyone, early, 0, |r.slots|)
  }

  function Finishing(r: Room, who: set<Address>, anyone: Address, late: Uint64): seq<RoomEvent> {
    FinishSlots(r.slots, anyone, late, 0) + ExpireClaims(r.deposits.claims, who, anyone, late, 0)
  }

  /** At `early` the room is closed or its gate has been silent for the stall
      timeout, and at `late` every period is over that a slot or a claim against `who`
      will be waiting for. A deadline is truncated to the 64-bit clock. */
  ghost predicate InTime(r: Room, who: set<Address>, early: Uint64, late: Uint64) {
    && early <= late
    && (r.watch.roomClosedSequence == 0 ==> r.watch.lastGateActivityAt + r.config.gateStallTimeout <= early)
    && (forall i :: 0 <= i < |r.slots| ==> SlotInTime(r.slots[i], early, late))
    && TimedOut(r.deposits.claims, who, r.config, late)
  }

  predicate SlotInTime(m: Market, early: Uint64, late: Uint64) {
    if !m.ruling.finalOutcome.Unset? then true
    else if m.gate.state.Closed? then Ripe(m, late)
    else Min(early + RESOLUTION_TIME, TWO_64 - 1) <= late
  }

  lemma CloseUp(r: Room, anyone: Address, early: Uint64) returns (s: Room)
    requires RoomInv(r, early)
    requires r.watch.roomClosedSequence == 0 ==> r.watch.lastGateActivityAt + r.config.gateStallTimeout <= early
    ensures Leads(r, Closing(r, anyone, early), s) && Permissionless(Closing(r, anyone, early), anyone, early)
    ensures RoomInv(s, early) && s.config == r.config && s.deposits == r.deposits && s.watch.roomClosedSequence != 0
    ensures if r.watch.roomClosedSequence == 0 then s.watch.roomClosedAt == early else s.watch == r.watch
    ensures GateMoved(r.slots, s.slots) && ClosedFrom(s.slots, 0)
  {
    hide RoomInv, GateMoved, Leads;
    var closed := r;
    LeadsNowhere(r);
    var opening: seq<RoomEvent> := [];
    if r.watch.roomClosedSequence == 0 {
      var e := RoomEvent(anyone, early, StallCloseCall);
      opening := [e];
      closed := CloseRoomOnGateStall(r, early).value;
      StallCloseKeeps(r, early);
      assert ApplyRoom(r, e.sender, e.now, e.call) == Ok(closed);
      LeadsOne(r, e);
    }
    s := BatchesClose(closed, anyone, early, 0);
    LeadsOn(r, opening, closed, CloseBatches(anyone, early, 0, |r.slots|), s);
    assert Closing(r, anyone, early) == opening + CloseBatches(anyone, early, 0, |r.slots|);
  }

  /** Closed by `early`, everything is overdue at `late`. */
  lemma ThenOverdue(r: Room, s: Room, who: set<Address>, early: Uint64, late: Uint64)
    requires RoomInv(r, early) && RoomInv(s, early) && InTime(r, who, early, late)
    requires GateMoved(r.slots, s.slots) && ClosedFrom(s.slots, 0)
    ensures Overdue(s.slots, late)
  {
    hide OpenOk, DepositsOk, SlotOk, Ripe, SlotInTime;
    forall i | 0 <= i < |s.slots|
      ensures s.slots[i].gate.state.Closed? && (s.slots[i].ruling.finalOutcome.Unset? ==> Ripe(s.slots[i], late))
    {
      assert SlotOk(r.slots[i], r.config, r.watch, early) && SlotOk(s.slots[i], s.config, s.watch, early);
      assert SlotInTime(r.slots[i], early, late);
      SlotOverdue(r.slots[i], s.slots[i], r.config, s.config, r.watch, s.watch, early, late);
    }
  }

  lemma SlotOverdue(m: Market, n: Market, c: RoomConfig, d: RoomConfig, w: Watch, v: Watch, early: Uint64, late: Uint64)
    requires SlotOk(m, c, w, early) && SlotOk(n, d, v, early) && SlotInTime(m, early, late)
    requires n == m.(gate := n.gate) && n.gate.state.Closed? && (m.gate.state.Closed? ==> n == m)
    ensures n.ruling.finalOutcome.Unset? ==> Ripe(n, late)
  {
    hide QueueOk, CountsOk, ConfigOk, MoneyOk, CurrentEpoch;
    DueWithin(n.gate.closedAt);
  }

  lemma DueWithin(closedAt: Uint64)
    ensures (closedAt + RESOLUTION_TIME) % TWO_64 <= Min(closedAt + RESOLUTION_TIME, TWO_64 - 1)
  {
  }

  lemma FinishUp(s: Room, who: set<Address>, anyone: Address, late: Uint64) returns (t: Room)
    requires RoomInv(s, late) && anyone != s.config.self
    requires Overdue(s.slots, late) && TimedOut(s.deposits.claims, who, s.config, late)
    ensures Leads(s, Finishing(s, who, anyone, late), t)
      && Permissionless(Finishing(s, who, anyone, late), anyone, late)
    ensures RoomInv(t, late) && t == s.(slots := t.slots, deposits := t.deposits) && |t.slots| == |s.slots|
    ensures AllFinal(t.slots) && SettledBefore(t.deposits.claims, who, |t.deposits.claims|)
    ensures t.deposits.integrityBondOf == s.deposits.integrityBondOf
    ensures t.deposits.integrityBondClaimed == s.deposits.integrityBondClaimed
  {
    hide RoomInv, Leads, Overdue, TimedOut, AllFinal, SettledBefore;
    var u := SlotsFinish(s, anyone, late, 0);
    NoneBefore(u.deposits.claims, who);
    t := ClaimsExpire(u, who, anyone, late, 0);
    LeadsOn(s, FinishSlots(s.slots, anyone, late, 0), u, ExpireClaims(s.deposits.claims, who, anyone, late, 0), t);
  }

  lemma NoneBefore(claims: seq<IntegrityClaim>, who: set<Address>)
    ensures SettledBefore(claims, who, 0)
  {
  }

  /** Closing does not touch what finishing looks at. */
  lemma SameFinishing(r: Room, s: Room, who: set<Address>, anyone: Address, now: Uint64)
    requires GateMoved(r.slots, s.slots) && s.deposits == r.deposits
    ensures Finishing(s, who, anyone, now) == Finishing(r, who, anyone, now)
  {
    hide FinishSlots, ExpireClaims;
    forall i | 0 <= i < |r.slots| ensures s.slots[i].ruling == r.slots[i].ruling {
      assert s.slots[i] == r.slots[i].(gate := s.slots[i].gate);
    }
    SameFinish(r.slots, s.slots, anyone, now, 0);
  }

  lemma RecoveryPlausible(r: Room, who: set<Address>, anyone: Address, start: Uint64, early: Uint64, late: Uint64)
    requires Permissionless(Closing(r, anyone, early), anyone, early)
      && Permissionless(Finishing(r, who, anyone, late), anyone, late)
    requires anyone != r.config.self && start <= early <= late
    ensures Plausible(r.config, start, Recovery(r, who, anyone, early, late))
  {
    hide Closing, Finishing;
    PermissionlessIsPlausible(r.config, start, Closing(r, anyone, early), anyone, early);
    PermissionlessIsPlausible(r.config, early, Finishing(r, who, anyone, late), anyone, late);
    PlausibleInTurn(r.config, start, Closing(r, anyone, early), Finishing(r, who, anyone, late), early);
  }

  /** The recovery works from every sound room and at any two moments that are in
      time. */
  lemma RecoveryWorks(r: Room, end: Uint64, who: set<Address>, anyone: Address, early: Uint64, late: Uint64)
    returns (t: Room)
    requires RoomInv(r, end) && end <= early && anyone != r.config.self && InTime(r, who, early, late)
    ensures Leads(r, Recovery(r, who, anyone, early, late), t)
    ensures Permissionless(Closing(r, anyone, early), anyone, early)
      && Permissionless(Finishing(r, who, anyone, late), anyone, late)
    ensures RunRoom(r, Recovery(r, who, anyone, early, late)) == t
    ensures Plausible(r.config, end, Recovery(r, who, anyone, early, late))
    ensures RoomInv(t, late) && t.config == r.config && |t.slots| == |r.slots| && t.watch.roomClosedSequence != 0
    ensures if r.watch.roomClosedSequence == 0 then t.watch.roomClosedAt == early else t.watch == r.watch
    ensures AllFinal(t.slots) && SettledBefore(t.deposits.claims, who, |t.deposits.claims|)
    ensures t.deposits.integrityBondOf == r.deposits.integrityBondOf
    ensures t.deposits.integrityBondClaimed == r.deposits.integrityBondClaimed
  {
    hide RoomInv, RunRoom, Leads, ClosedFrom, Overdue, TimedOut, GateMoved, AllFinal, Permissionless, Closing,
      Finishing, SettledBefore, SlotInTime;
    RoomLater(r, end, early);
    var s := CloseUp(r, anyone, early);
    ThenOverdue(r, s, who, early, late);
    RoomLater(s, early, late);
    t := FinishUp(s, who, anyone, late);
    SameFinishing(r, s, who, anyone, late);
    LeadsOn(r, Closing(r, anyone, early), s, Finishing(r, who, anyone, late), t);
    LeadsIsRun(r, Recovery(r, who, anyone, early, late), t);
    RecoveryPlausible(r, who, anyone, end, early, late);
    MovedLength(r.slots, s.slots);
  }

  // -------------------------------------------------------------- never stuck

  function Participants(c: RoomConfig): set<Address> {
    {c.participantA, c.participantB}
  }

  lemma AllClaimsSettled(t: Room, now: Uint64)
    requires RoomInv(t, now) && SettledBefore(t.deposits.claims, Participants(t.config), |t.deposits.claims|)
    ensures OpenClaims(t.deposits.claims) == 0
  {
    hide SlotsOk, OpenOk, Sum, OpenClaims, OpenAgainst;
    forall i | 0 <= i < |t.deposits.claims| ensures !t.deposits.claims[i].status.Outstanding? {
      assert ClaimOk(t.deposits.claims[i], t.config, t.watch, now);
      assert !Waiting(t.deposits.claims[i], Participants(t.config));
    }
    NothingOpen(t.deposits.claims, ZERO_ADDRESS);
  }

  lemma BondIsFree(t: Room, who: set<Address>, now: Uint64, p: Address)
    requires RoomInv(t, now) && t.watch.roomClosedSequence != 0 && AllFinal(t.slots) && p in who
    requires SettledBefore(t.deposits.claims, who, |t.deposits.claims|) && ClaimWindowEnd(t.config, t.watch) <= now
    ensures p !in t.deposits.integrityBondClaimed && Get(t.deposits.integrityBondOf, p) != 0 ==>
      ClaimBond(t, p, now).Ok?
  {
    hide SlotsOk, OpenOk, Sum, AllFinal, OpenAgainst, OpenClaims, SettledBefore;
    NothingOpenAgainst(t.deposits.claims, who, p);
    assert BondOk(t.deposits, t.config, p);
    assert Get(t.deposits.openClaimsAgainst, p) == OpenAgainst(t.deposits.claims, p);
    BondInPurse(t.deposits, t.config, t.watch, now, p);
  }

  lemma BondsAreFree(t: Room, now: Uint64)
    requires RoomInv(t, now) && t.watch.roomClosedSequence != 0 && AllFinal(t.slots)
    requires SettledBefore(t.deposits.claims, Participants(t.config), |t.deposits.claims|)
    requires ClaimWindowEnd(t.config, t.watch) <= now
    ensures forall p: Address :: p !in t.deposits.integrityBondClaimed && Get(t.deposits.integrityBondOf, p) != 0 ==>
      ClaimBond(t, p, now).Ok?
  {
    hide RoomInv, AllFinal, ClaimBond, SettledBefore;
    forall p: Address
      ensures p !in t.deposits.integrityBondClaimed && Get(t.deposits.integrityBondOf, p) != 0 ==>
        ClaimBond(t, p, now).Ok?
    {
      if p in Participants(t.config) {
        BondIsFree(t, Participants(t.config), now, p);
      } else {
        OnlyParticipants(t, now, p);
      }
    }
  }

  lemma OnlyParticipants(t: Room, now: Uint64, p: Address)
    requires RoomInv(t, now) && p !in Participants(t.config)
    ensures Get(t.deposits.integrityBondOf, p) == 0
  {
    hide SlotsOk, OpenOk, Sum, OpenAgainst, OpenClaims;
    assert BondOk(t.deposits, t.config, p);
  }

  /** The two moments are late enough: the gate has been silent for the stall
      timeout by the first, and every ruling and claim period that can still be
      running then is over by the second. */
  predicate LateEnough(r: Room, early: Uint64, late: Uint64) {
    var c := r.config;
    && r.watch.lastGateActivityAt + c.gateStallTimeout <= early
    && early + RESOLUTION_TIME + c.challengeWindow + c.challengeTimeout <= late
    && early + c.integrityClaimWindow <= late
    && early + c.integrityClaimTimeout <= late
  }

  lemma LateIsInTime(r: Room, who: set<Address>, early: Uint64, late: Uint64)
    requires RoomInv(r, early) && LateEnough(r, early, late)
    ensures InTime(r, who, early, late)
  {
    hide OpenOk, SlotOk, BondOk, Sum, OpenClaims, OpenAgainst, SlotInTime, ConfigOk;
    forall i | 0 <= i < |r.slots| ensures SlotInTime(r.slots[i], early, late) {
      assert SlotOk(r.slots[i], r.config, r.watch, early);
      SlotIsInTime(r.slots[i], r.config, r.watch, early, late);
    }
    forall i | 0 <= i < |r.deposits.claims|
      ensures r.deposits.claims[i].filedAt + r.config.integrityClaimTimeout <= late
    {
      assert ClaimOk(r.deposits.claims[i], r.config, r.watch, early);
    }
  }

  lemma SlotIsInTime(m: Market, c: RoomConfig, w: Watch, early: Uint64, late: Uint64)
    requires SlotOk(m, c, w, early)
    requires early + RESOLUTION_TIME + c.challengeWindow + c.challengeTimeout <= late
    ensures SlotInTime(m, early, late)
  {
    hide QueueOk, CountsOk, ConfigOk, MoneyOk, CurrentEpoch;
    DueWithin(m.gate.closedAt);
  }

  lemma WindowOver(t: Room, r: Room, early: Uint64, late: Uint64)
    requires RoomInv(r, early) && t.config == r.config && LateEnough(r, early, late)
    requires if r.watch.roomClosedSequence == 0 then t.watch.roomClosedAt == early else t.watch == r.watch
    ensures ClaimWindowEnd(t.config, t.watch) <= late
  {
    hide SlotsOk, OpenOk, DepositsOk, RoomConfigOk;
  }

  /** Never stuck: from every reachable state, any account but the room's own can,
      with calls open to everyone that all succeed, reach a state in which the room
      is closed, every slot is final, no claim is open, and each bond posted and
      never claimed before can be claimed by its participant. */
  lemma NeverStuck(c: RoomConfig, start: Uint64, events: seq<RoomEvent>, anyone: Address, early: Uint64, late: Uint64)
    returns (t: Room)
    requires RoomConfigOk(c) && Plausible(c, start, events) && anyone != c.self
    requires RoomEnd(start, events) <= early && LateEnough(ReachedRoom(c, start, events), early, late)
    ensures
      var r := ReachedRoom(c, start, events);
      var rescue := Recovery(r, Participants(c), anyone, early, late);
      && Leads(r, rescue, t)
      && RunRoom(r, rescue) == t
      && Plausible(c, RoomEnd(start, events), rescue)
      && Permissionless(Closing(r, anyone, early), anyone, early)
      && Permissionless(Finishing(r, Participants(c), anyone, late), anyone, late)
      && t.deposits.integrityBondOf == r.deposits.integrityBondOf
      && t.deposits.integrityBondClaimed == r.deposits.integrityBondClaimed
      && |t.slots| == |r.slots|
    ensures t.watch.roomClosedSequence != 0 && AllFinal(t.slots) && OpenClaims(t.deposits.claims) == 0
    ensures forall p: Address :: p !in t.deposits.integrityBondClaimed && Get(t.deposits.integrityBondOf, p) != 0 ==>
      ClaimBond(t, p, late).Ok?
  {
    hide RoomInv, ReachedRoom, RunRoom, Leads, AllFinal, ClaimBond, Permissionless, Closing, Finishing, SettledBefore,
      RoomConfigOk, InTime, Participants;
    var r := ReachedRoom(c, start, events);
    var end := RoomEnd(start, events);
    RoomReachable(c, start, events);
    RoomLater(r, end, early);
    LateIsInTime(r, Participants(c), early, late);
    t := RecoveryWorks(r, end, Participants(c), anyone, early, late);
    AllClaimsSettled(t, late);
    WindowOver(t, r, early, late);
    BondsAreFree(t, late);
  }
}
