/** Exactly which draws of a policy are accepted, in every reachable state of the router
    and the rooms, written out from the signed terms, what was drawn before, and the
    market. */
module Draws {
  import opened Prelude
  import opened Market
  import opened Room
  import opened Commitments

  /** A nonce is cancelled exactly when its owner has cancelled it. */
  lemma {:induction false} CancelledIff(s: System, deeds: seq<Deed>, owner: Address, nonce: nat)
    ensures (owner, nonce) in DoAll(s, deeds).router.cancelledNonce
       <==> (owner, nonce) in s.router.cancelledNonce || CancelDeed(owner, nonce) in deeds
    decreases |deeds|
  {
    hide Do;
    if deeds != [] {
      DeedCancels(s, deeds[0], owner, nonce);
      CancelledIff(Do(s, deeds[0]), deeds[1..], owner, nonce);
      assert deeds == [deeds[0]] + deeds[1..];
    }
  }

  lemma DeedCancels(s: System, deed: Deed, owner: Address, nonce: nat)
    ensures (owner, nonce) in Do(s, deed).router.cancelledNonce
       <==> (owner, nonce) in s.router.cancelledNonce || deed == CancelDeed(owner, nonce)
  {
    hide ApplyRoom, Submit, NewRoom, RoomConfigOk, BelongsTo, Booked, Take, IsPublished, IsForeign, Drawn, Released;
    if Act(s, deed).Ok? && deed.ExecuteDeed? {
      DrawIsBooked(s, deed);
      var amount := Submit(s, deed.now, deed.c, deed.market, deed.answers).value.0;
      TakingEvolves(Funded(Booked(s.router, deed.c, deed.market), deed.market, deed.c.amountPerSlot), deed.market,
                    amount);
      BookedBooks(s.router, Act(s, deed).value.router, deed.c, deed.market, deed.c);
    } else if Act(s, deed).Ok? && deed.PullDeed? {
      TakingEvolves(s.router, deed.market, deed.amount);
    }
  }

  /** The slot records the addition: the room has named this router, both participants
      stand behind the market with their bonds, the provider may hold positions, the
      amount is within bounds, and trading is open and stays so for the coming hour. */
  predicate SlotAccepts(s: System, c: Commitment, market: MarketRef, now: Uint64)
    requires IsPublished(s, market)
  {
    var m, room := SlotAt(s, market), s.rooms[market.room];
    && s.self == m.config.liquidityRouter != ZERO_ADDRESS
    && (if m.config.roomBound then
          && Get(room.deposits.integrityBondOf, room.config.participantA) == 100_000_000
          && Get(room.deposits.integrityBondOf, room.config.participantB) == 100_000_000
        else
          && Get(m.bonds.integrityBondOf, m.config.participantA) == 100_000_000
          && Get(m.bonds.integrityBondOf, m.config.participantB) == 100_000_000)
    && c.provider !in m.restricted
    && 1_000_000 <= c.amountPerSlot <= 1_000_000_000_000_000
    && m.gate.state.Open? && m.config.opensAt <= now < (now + 3600) % TWO_64
  }

  /** The room that the policy names lists the market: a room of the factory, when it is
      a slot of that room; another contract, when it says so. */
  predicate Listed(s: System, c: Commitment, market: MarketRef, a: Answers) {
    if c.room in s.rooms then IsPublished(s, market) && market.room == c.room
    else c.room in s.others && a.isSlot == Ok(true)
  }

  /** The market has a template that the policy allows, and it records the addition. */
  predicate MarketAccepts(s: System, c: Commitment, market: MarketRef, now: Uint64, a: Answers) {
    if IsPublished(s, market) then TemplateAllowed(s, c, market) && SlotAccepts(s, c, market, now)
    else
      && IsForeign(s, market)
      && a.template.Ok? && a.template.value in c.allowedTemplates && a.takes.Ok? && a.takes.value <= c.amountPerSlot
  }

  /** After any run, a policy is drawn into a market exactly when its terms are sensible
      and have not expired, its provider signed it, has not cancelled it, and has the
      money, the market was not drawn yet, the room named lists it, its template is
      allowed, what is drawn unreleased and what is drawn in all stay within the signed
      caps with this draw, and the market accepts the addition. The draw is then the
      only thing it adds to the books. */
  lemma DrawIff(self: Address, others: set<Address>, rooms: map<Address, Room>, deeds: seq<Deed>, draw: Deed)
    requires draw.ExecuteDeed?
    ensures
      var s := Ran(self, others, rooms, deeds);
      var c, market, now, a := draw.c, draw.market, draw.now, draw.answers;
      var drawn, released := Drawn(s.router, c), Released(s.router, c);
      Act(s, draw).Ok? <==>
        && c.provider != ZERO_ADDRESS && c.amountPerSlot != 0 && now < c.expiresAt
        && CancelDeed(c.provider, c.nonce) !in deeds
        && market !in drawn
        && draw.signer == c.provider && draw.funded
        && Sum(Active(drawn, released)) + c.amountPerSlot <= c.maxSimultaneous
        && Sum(drawn) + c.amountPerSlot <= c.maxTotal
        && Listed(s, c, market, a)
        && MarketAccepts(s, c, market, now, a)
    ensures
      var s := Ran(self, others, rooms, deeds);
      Act(s, draw).Ok? ==>
        var t := Act(s, draw).value;
        forall d: Commitment ::
          && Drawn(t.router, d) == (if d == draw.c then Drawn(s.router, d)[draw.market := d.amountPerSlot]
                                    else Drawn(s.router, d))
          && Released(t.router, d) == Released(s.router, d)
  {
    hide Ran, DoAll, Sum, Active, Drawn, Released, TemplateAllowed, SlotAccepts, BelongsTo, BooksOk;
    var s := Ran(self, others, rooms, deeds);
    RanBooks(self, others, rooms, deeds);
    RanCancels(self, others, rooms, deeds, draw.c.provider, draw.c.nonce);
    DrawAccepted(s, draw);
    if Act(s, draw).Ok? {
      forall d: Commitment
        ensures Drawn(Act(s, draw).value.router, d)
             == (if d == draw.c then Drawn(s.router, d)[draw.market := d.amountPerSlot] else Drawn(s.router, d))
        ensures Released(Act(s, draw).value.router, d) == Released(s.router, d)
      {
        DrawEntersBooks(s, draw, d);
      }
    }
  }

  lemma RanCancels(self: Address, others: set<Address>, rooms: map<Address, Room>, deeds: seq<Deed>, owner: Address,
                   nonce: nat)
    ensures (owner, nonce) in Ran(self, others, rooms, deeds).router.cancelledNonce
       <==> CancelDeed(owner, nonce) in deeds
  {
    hide DoAll;
    CancelledIff(System(self, others, NEW_ROUTER, rooms), deeds, owner, nonce);
  }

  lemma DrawEntersBooks(s: System, draw: Deed, d: Commitment)
    requires draw.ExecuteDeed? && Act(s, draw).Ok?
    ensures
      var t := Act(s, draw).value;
      && Drawn(t.router, d) == (if d == draw.c then Drawn(s.router, d)[draw.market := d.amountPerSlot]
                                else Drawn(s.router, d))
      && Released(t.router, d) == Released(s.router, d)
  {
    hide Act, Submit, Booked, Take, Drawn, Released, BelongsTo, IsPublished, IsForeign;
    DrawIsBooked(s, draw);
    var amount := Submit(s, draw.now, draw.c, draw.market, draw.answers).value.0;
    TakingEvolves(Funded(Booked(s.router, draw.c, draw.market), draw.market, draw.c.amountPerSlot), draw.market,
                  amount);
    BookedBooks(s.router, Act(s, draw).value.router, draw.c, draw.market, d);
  }

  /** What the router itself checks. */
  lemma ExecuteIff(r: Router, now: Uint64, c: Commitment, signer: Address, funded: bool, market: MarketRef,
                   isSlot: Result<bool>, template: Result<nat>, takes: Result<nat>)
    ensures Execute(r, now, c, signer, funded, market, isSlot, template, takes).Ok?
       <==> && c.provider != ZERO_ADDRESS && c.amountPerSlot != 0 && now < c.expiresAt
            && (c.provider, c.nonce) !in r.cancelledNonce && Get(Drawn(r, c), market) == 0
            && signer == c.provider && funded
            && Get(r.activeExposure, c) + c.amountPerSlot <= c.maxSimultaneous
            && Get(r.totalExecuted, c) + c.amountPerSlot <= c.maxTotal
            && isSlot == Ok(true) && template.Ok? && template.value in c.allowedTemplates
            && takes.Ok? && takes.value <= c.amountPerSlot
  {
    hide Drawn;
  }

  /** The totals of sound books are what the markets say. */
  lemma DrawAccepted(s: System, draw: Deed)
    requires BooksOk(s) && draw.ExecuteDeed?
    ensures
      var c, market, drawn := draw.c, draw.market, Drawn(s.router, draw.c);
      Act(s, draw).Ok? <==>
        && c.provider != ZERO_ADDRESS && c.amountPerSlot != 0 && draw.now < c.expiresAt
        && (c.provider, c.nonce) !in s.router.cancelledNonce
        && market !in drawn
        && draw.signer == c.provider && draw.funded
        && Sum(Active(drawn, Released(s.router, c))) + c.amountPerSlot <= c.maxSimultaneous
        && Sum(drawn) + c.amountPerSlot <= c.maxTotal
        && Listed(s, c, market, draw.answers)
        && MarketAccepts(s, c, market, draw.now, draw.answers)
  {
    hide Sum, Active, SubmitToSlot, SlotAccepts, BelongsTo, Execute, Released;
    var c, market, a := draw.c, draw.market, draw.answers;
    assert PolicyOk(s, c);
    var submitted := Submit(s, draw.now, c, market, a);
    var takes := if submitted.Ok? then Ok(submitted.value.0) else Revert(submitted.error);
    ExecuteIff(s.router, draw.now, c, draw.signer, draw.funded, market, AskRoom(s, c.room, market, a),
               AskTemplate(s, market, a), takes);
    if IsPublished(s, market) {
      SlotTakesAll(s.self, draw.now, c, s.rooms[market.room], SlotAt(s, market));
      SlotAcceptsIff(s, c, market, draw.now);
    }
  }

  lemma SlotAcceptsIff(s: System, c: Commitment, market: MarketRef, now: Uint64)
    requires IsPublished(s, market)
    ensures SubmitToSlot(s.self, now, c, s.rooms[market.room], SlotAt(s, market)).Ok?
       <==> SlotAccepts(s, c, market, now) && c.provider != ZERO_ADDRESS
  {
    hide CurrentEpoch;
  }
}
