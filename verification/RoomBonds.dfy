/** Where the bonds of a room go: exactly when a claim is decided or expires and who is
    paid then, and how alone a posted bond leaves the room, over every run. */
module RoomBonds {
  import opened Prelude
  import opened Market
  import opened Room
  import opened RoomInvariant
  import opened RoomRuns
  import opened RoomTheorems
  import opened RoomReverts

  /** The adjudicator can decide a claim exactly while it is open and before its timeout,
      which must end within the clock. An upheld claim costs the participant the bond,
      if it is still there, and returns the claim bond; a rejected one costs the
      claimant the claim bond and leaves the participant's alone. Anyone can expire a
      claim exactly while it is open and from its timeout on, which returns the claim
      bond and leaves the participant's alone. */
  lemma ClaimBondsGo(c: RoomConfig, start: Uint64, events: seq<RoomEvent>, sender: Address, now: Uint64, id: nat,
                     uphold: bool)
    requires RoomConfigOk(c) && Plausible(c, start, events) && RoomEnd(start, events) <= now
    ensures
      var d := ReachedRoom(c, start, events).deposits;
      var decided := AdjudicateClaim(c, d, sender, now, id, uphold);
      && (decided.Ok? <==> && sender == c.integrityAdjudicator && id < |d.claims| && d.claims[id].status.Outstanding?
                           && now < d.claims[id].filedAt + c.integrityClaimTimeout < TWO_64)
      && (decided.Ok? ==>
            var claim := d.claims[id];
            var bond := Get(d.integrityBondOf, claim.participant);
            && decided.value.claims == d.claims[id := claim.(status := if uphold then Upheld else Rejected)]
            && Get(decided.value.integrityBondOf, claim.participant) == (if uphold then 0 else bond)
            && (forall x: Address ::
                  Get(decided.value.purse.sent, x) == Get(d.purse.sent, x)
                    + (if uphold && x == claim.claimant then INTEGRITY_CLAIM_BOND else 0)
                    + (if x == c.bondRecipient then (if uphold then bond else INTEGRITY_CLAIM_BOND) else 0)))
    ensures
      var d := ReachedRoom(c, start, events).deposits;
      var expired := ExpireClaim(c, d, now, id);
      && (expired.Ok? <==> && id < |d.claims| && d.claims[id].status.Outstanding?
                           && d.claims[id].filedAt + c.integrityClaimTimeout <= now)
      && (expired.Ok? ==>
            && expired.value.claims == d.claims[id := d.claims[id].(status := Expired)]
            && expired.value.integrityBondOf == d.integrityBondOf
            && (forall x: Address ::
                  Get(expired.value.purse.sent, x) == Get(d.purse.sent, x)
                    + (if x == d.claims[id].claimant then INTEGRITY_CLAIM_BOND else 0)))
  {
    hide ReachedRoom, RoomInv, AdjudicateClaim, ExpireClaim;
    RoomReachable(c, start, events);
    var r := ReachedRoom(c, start, events);
    RoomLater(r, RoomEnd(start, events), now);
    SoundDeposits(r, now);
    DecisionIff(r, sender, now, id, uphold);
    ClaimExpiredOk(r.deposits, c, r.watch, now, id);
    if id < |r.deposits.claims| {
      BondsOfClaim(r.deposits, c, r.watch, now, sender, id, uphold);
    }
  }

  lemma SoundDeposits(r: Room, now: Uint64)
    requires RoomInv(r, now)
    ensures DepositsOk(r.deposits, r.config, r.watch, now)
  {
    hide SlotsOk, OpenOk, DepositsOk;
  }

  lemma DecisionIff(r: Room, sender: Address, now: Uint64, id: nat, uphold: bool)
    requires RoomInv(r, now)
    ensures
      var d := r.deposits;
      var decided := AdjudicateClaim(r.config, d, sender, now, id, uphold);
      && (decided.Ok? <==> && sender == r.config.integrityAdjudicator
                           && id < |d.claims| && d.claims[id].status.Outstanding?
                           && now < d.claims[id].filedAt + r.config.integrityClaimTimeout < TWO_64)
      && (decided.Ok? ==>
            decided.value.claims == d.claims[id := d.claims[id].(status := if uphold then Upheld else Rejected)])
  {
    hide RoomInv;
    AdjudicationReverts(r, sender, now, id, uphold);
  }

  // --------------------------------------------------------- how a bond leaves

  /** Claims stay as they are, except that an open one may be settled, once. */
  ghost predicate ClaimsEvolve(a: seq<IntegrityClaim>, b: seq<IntegrityClaim>) {
    && |a| <= |b|
    && (forall i :: 0 <= i < |a| ==>
          b[i] == a[i].(status := b[i].status) && (!a[i].status.Outstanding? ==> b[i] == a[i]))
  }

  /** A claim against `p` was upheld between the two states. */
  ghost predicate UpheldSince(a: seq<IntegrityClaim>, b: seq<IntegrityClaim>, p: Address) {
    exists i :: 0 <= i < |b| && b[i].participant == p && b[i].status.Upheld? && (i < |a| ==> a[i].status.Outstanding?)
  }

  /** A bond of `p` is still there, or was claimed, or was forfeited. */
  ghost predicate BondExplained(r: Room, t: Room, p: Address) {
    || Get(t.deposits.integrityBondOf, p) != 0
    || p in t.deposits.integrityBondClaimed
    || UpheldSince(r.deposits.claims, t.deposits.claims, p)
  }

  lemma StepExplains(r: Room, e: RoomEvent, p: Address)
    ensures
      var t := StepRoom(r, e.sender, e.now, e.call);
      && ClaimsEvolve(r.deposits.claims, t.deposits.claims)
      && r.deposits.integrityBondClaimed <= t.deposits.integrityBondClaimed
      && (Get(r.deposits.integrityBondOf, p) != 0 ==> BondExplained(r, t, p))
  {
    hide ApplyRoom, UpheldSince, ClaimsEvolve;
    ClaimsSame(r.deposits.claims);
    if ApplyRoom(r, e.sender, e.now, e.call).Ok? {
      CallExplains(r, e, p);
    }
  }

  lemma CallExplains(r: Room, e: RoomEvent, p: Address)
    requires ApplyRoom(r, e.sender, e.now, e.call).Ok?
    ensures
      var t := ApplyRoom(r, e.sender, e.now, e.call).value;
      && ClaimsEvolve(r.deposits.claims, t.deposits.claims)
      && r.deposits.integrityBondClaimed <= t.deposits.integrityBondClaimed
      && (Get(r.deposits.integrityBondOf, p) != 0 ==> BondExplained(r, t, p))
  {
    if e.call.PostRoomBondCall? || e.call.ClaimRoomBondCall? || e.call.FileClaimCall? || e.call.AdjudicateCall?
       || e.call.ExpireClaimCall? {
      DepositCallExplains(r, e, p);
    } else {
      OthersLeaveDeposits(r, e);
      ClaimsSame(r.deposits.claims);
    }
  }

  lemma OthersLeaveDeposits(r: Room, e: RoomEvent)
    requires ApplyRoom(r, e.sender, e.now, e.call).Ok?
    requires !e.call.PostRoomBondCall? && !e.call.ClaimRoomBondCall? && !e.call.FileClaimCall?
      && !e.call.AdjudicateCall? && !e.call.ExpireClaimCall?
    ensures ApplyRoom(r, e.sender, e.now, e.call).value.deposits == r.deposits
  {
    hide CallEach, CloseEach, FromRoom, ParticipantsReady, ValidatePermit, ValidateRequest, NewMarket, ConfigOk, Apply,
      AdvanceSequence, SlotConfig, RoomRestricted, AddOpen;
  }

  lemma DepositCallExplains(r: Room, e: RoomEvent, p: Address)
    requires ApplyRoom(r, e.sender, e.now, e.call).Ok?
    requires e.call.PostRoomBondCall? || e.call.ClaimRoomBondCall? || e.call.FileClaimCall? || e.call.AdjudicateCall?
      || e.call.ExpireClaimCall?
    ensures
      var t := ApplyRoom(r, e.sender, e.now, e.call).value;
      && ClaimsEvolve(r.deposits.claims, t.deposits.claims)
      && r.deposits.integrityBondClaimed <= t.deposits.integrityBondClaimed
      && (Get(r.deposits.integrityBondOf, p) != 0 ==> BondExplained(r, t, p))
  {
    hide AllFinal, PayOut, UpheldSince;
    if e.call.AdjudicateCall? && e.call.uphold {
      var id := e.call.claimId;
      assert UpheldSince(r.deposits.claims, ApplyRoom(r, e.sender, e.now, e.call).value.deposits.claims,
                         r.deposits.claims[id].participant) by {
        UpheldNow(r.deposits.claims, id);
      }
    }
  }

  lemma UpheldNow(claims: seq<IntegrityClaim>, id: nat)
    requires id < |claims| && claims[id].status.Outstanding?
    ensures UpheldSince(claims, claims[id := claims[id].(status := Upheld)], claims[id].participant)
  {
    assert claims[id := claims[id].(status := Upheld)][id].status.Upheld?;
  }

  lemma ExplainedOn(r: Room, s: Room, t: Room, p: Address)
    requires ClaimsEvolve(r.deposits.claims, s.deposits.claims) && ClaimsEvolve(s.deposits.claims, t.deposits.claims)
    requires s.deposits.integrityBondClaimed <= t.deposits.integrityBondClaimed
    requires BondExplained(r, s, p) && (Get(s.deposits.integrityBondOf, p) != 0 ==> BondExplained(s, t, p))
    ensures ClaimsEvolve(r.deposits.claims, t.deposits.claims) && BondExplained(r, t, p)
  {
    var a, b, c := r.deposits.claims, s.deposits.claims, t.deposits.claims;
    if UpheldSince(a, b, p) {
      var i :| 0 <= i < |b| && b[i].participant == p && b[i].status.Upheld? && (i < |a| ==> a[i].status.Outstanding?);
      assert c[i] == b[i];
    } else if UpheldSince(b, c, p) {
      var i :| 0 <= i < |c| && c[i].participant == p && c[i].status.Upheld? && (i < |b| ==> b[i].status.Outstanding?);
      assert i < |a| ==> a[i].status.Outstanding?;
    }
  }

  lemma {:induction false} RunExplains(r: Room, more: seq<RoomEvent>, p: Address)
    requires Get(r.deposits.integrityBondOf, p) != 0
    ensures
      var t := RunRoom(r, more);
      && ClaimsEvolve(r.deposits.claims, t.deposits.claims)
      && r.deposits.integrityBondClaimed <= t.deposits.integrityBondClaimed
      && BondExplained(r, t, p)
    decreases |more|
  {
    hide StepRoom, ClaimsEvolve, UpheldSince;
    if more == [] {
      ClaimsSame(r.deposits.claims);
    } else {
      var s := StepRoom(r, more[0].sender, more[0].now, more[0].call);
      StepExplains(r, more[0], p);
      if Get(s.deposits.integrityBondOf, p) != 0 {
        RunExplains(s, more[1..], p);
      } else {
        RunRoomEvolves(s, more[1..]);
        RunEvolvesClaims(s, more[1..]);
      }
      ExplainedOn(r, s, RunRoom(r, more), p);
    }
  }

  lemma ClaimsSame(claims: seq<IntegrityClaim>)
    ensures ClaimsEvolve(claims, claims)
  {
  }

  lemma {:induction false} RunEvolvesClaims(r: Room, more: seq<RoomEvent>)
    ensures ClaimsEvolve(r.deposits.claims, RunRoom(r, more).deposits.claims)
    ensures r.deposits.integrityBondClaimed <= RunRoom(r, more).deposits.integrityBondClaimed
    decreases |more|
  {
    hide StepRoom, UpheldSince;
    if more != [] {
      StepExplains(r, more[0], ZERO_ADDRESS);
      RunEvolvesClaims(StepRoom(r, more[0].sender, more[0].now, more[0].call), more[1..]);
    }
  }

  /** A posted bond leaves the room in two ways alone, whatever anyone does: its
      participant claims it, or a claim against that participant is upheld that was not
      decided before. */
  lemma BondLeavesOnly(r: Room, more: seq<RoomEvent>, p: Address)
    requires Get(r.deposits.integrityBondOf, p) != 0
    ensures
      var t := RunRoom(r, more);
      var before, after := r.deposits.claims, t.deposits.claims;
      Get(t.deposits.integrityBondOf, p) == 0 ==>
        || p in t.deposits.integrityBondClaimed
        || exists i :: 0 <= i < |after| && after[i].participant == p && after[i].status.Upheld?
                       && (i < |before| ==> before[i].status.Outstanding?)
  {
    hide RunRoom, ClaimsEvolve;
    RunExplains(r, more, p);
  }
}
