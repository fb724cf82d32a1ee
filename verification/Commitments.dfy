/** Liquidity commitments: signed policies that let anyone draw a provider's money
    into markets, within caps, together with the rooms they draw into. A policy may
    name any contract as its room, and a contract that is none of the factory's may
    answer anything. */
module Commitments {
  import opened Prelude
  import opened Ledger
  import opened Market
  import opened MarketRuns
  import opened Room
  import opened RoomRuns

  const HOUR: nat := 3600

  /** A signed policy; its id is the policy itself. */
  datatype Commitment = Commitment(
    room: Address,
    provider: Address,
    allowedTemplates: seq<nat>,
    amountPerSlot: nat,
    maxSimultaneous: nat,
    maxTotal: nat,
    expiresAt: Uint64,
    nonce: nat)

  /** The address of a market: that of a slot of one of the factory's rooms, by room
      and number, or that of any other contract. */
  datatype MarketRef = SlotOf(room: Address, index: nat) | Other(address: Address)

  /** The router's books: per policy what was drawn into each market, which draws have
      been released, and the two totals; and what the token says of the router: its
      balance, what it still lets each market take, and what each has taken. */
  datatype Router = Router(
    executedSlot: map<Commitment, map<MarketRef, nat>>,
    exposureReleased: map<Commitment, set<MarketRef>>,
    totalExecuted: map<Commitment, nat>,
    activeExposure: map<Commitment, nat>,
    cancelledNonce: set<(Address, nat)>,
    held: nat,
    allowance: map<MarketRef, nat>,
    taken: map<MarketRef, nat>)

  const NEW_ROUTER: Router := Router(map[], map[], map[], map[], {}, 0, map[], map[])

  /** What a policy has drawn, market by market. */
  function Drawn(r: Router, c: Commitment): map<MarketRef, nat> {
    if c in r.executedSlot then r.executedSlot[c] else map[]
  }

  function Released(r: Router, c: Commitment): set<MarketRef> {
    if c in r.exposureReleased then r.exposureReleased[c] else {}
  }

  /** `isSlot` is what the room that the policy names answers about the market, and
      `template` what the market answers about itself. */
  function Validate(r: Router, now: Uint64, c: Commitment, signer: Address, market: MarketRef, isSlot: Result<bool>,
                    template: Result<nat>): Result<()>
  {
    var _ :- Require(c.provider != ZERO_ADDRESS && c.amountPerSlot != 0, InvalidCommitment);
    var _ :- Require(now < c.expiresAt, CommitmentExpired);
    var _ :- Require((c.provider, c.nonce) !in r.cancelledNonce, CommitmentCancelled);
    var _ :- Require(Get(Drawn(r, c), market) == 0, AlreadyExecuted);
    var _ :- Require(signer == c.provider, InvalidSignature);
    var listed :- isSlot;
    var _ :- Require(listed, UnknownSlot);
    var templateId :- template;
    var _ :- Require(templateId in c.allowedTemplates, TemplateNotAllowed);
    var _ :- Require(Get(r.activeExposure, c) + c.amountPerSlot <= c.maxSimultaneous, ExposureExceeded);
    Require(Get(r.totalExecuted, c) + c.amountPerSlot <= c.maxTotal, TotalExceeded)
  }

  /** The books after one more draw. */
  function Booked(r: Router, c: Commitment, market: MarketRef): Router {
    r.(executedSlot := r.executedSlot[c := Drawn(r, c)[market := c.amountPerSlot]],
       totalExecuted := Credit(r.totalExecuted, c, c.amountPerSlot),
       activeExposure := Credit(r.activeExposure, c, c.amountPerSlot))
  }

  /** The provider's money comes in, and the market may take that much. */
  function Funded(r: Router, market: MarketRef, amount: nat): Router {
    r.(held := r.held + amount, allowance := r.allowance[market := amount])
  }

  /** The market takes some of what it may take. */
  function Take(r: Router, market: MarketRef, amount: nat): Result<Router> {
    var _ :- Require(amount <= Get(r.allowance, market) && amount <= r.held, TransferFailed);
    Ok(r.(held := r.held - amount,
          allowance := r.allowance[market := Get(r.allowance, market) - amount],
          taken := Credit(r.taken, market, amount)))
  }

  /** Draws one policy into one market. `funded` says that the provider has the money
      and has approved it, and `takes` how much the market takes when it is asked to
      record the addition, or that it reverts. */
  function Execute(r: Router, now: Uint64, c: Commitment, signer: Address, funded: bool, market: MarketRef,
                   isSlot: Result<bool>, template: Result<nat>, takes: Result<nat>): Result<Router>
  {
    var _ :- Validate(r, now, c, signer, market, isSlot, template);
    var _ :- Require(funded, TransferFailed);
    var amount :- takes;
    Take(Funded(Booked(r, c, market), market, c.amountPerSlot), market, amount)
  }

  /** `final` is what the market answers; no room is asked. */
  function ReleaseExposure(r: Router, c: Commitment, market: MarketRef, final: Result<bool>): Result<Router> {
    var amount := Get(Drawn(r, c), market);
    var _ :- Require(amount != 0, NothingToRelease);
    var _ :- Require(market !in Released(r, c), NothingToRelease);
    var settled :- final;
    var _ :- Require(settled, NotSettled);
    var active :- Sub(Get(r.activeExposure, c), amount);
    Ok(r.(exposureReleased := r.exposureReleased[c := Released(r, c) + {market}],
          activeExposure := r.activeExposure[c := active]))
  }

  function Cancel(r: Router, sender: Address, nonce: nat): Router {
    r.(cancelledNonce := r.cancelledNonce + {(sender, nonce)})
  }

  // ------------------------------------------------------- router and rooms

  /** The router, its address, the factory's rooms, and the addresses of all other
      contracts there are or will be. */
  datatype System = System(self: Address, others: set<Address>, router: Router, rooms: map<Address, Room>)

  /** What contracts that are none of the factory's answer in one transaction: a room
      whether the market is its slot; a market its template, how much of its allowance
      it takes when it is to record an addition, and whether it is final. Each may
      revert instead. */
  datatype Answers = Answers(isSlot: Result<bool>, template: Result<nat>, takes: Result<nat>, final: Result<bool>)

  /** A published slot of one of the factory's rooms. */
  predicate IsPublished(s: System, market: MarketRef) {
    market.SlotOf? && market.room in s.rooms && market.index < |s.rooms[market.room].slots|
  }

  predicate IsForeign(s: System, market: MarketRef) {
    market.Other? && market.address in s.others
  }

  function SlotAt(s: System, market: MarketRef): Market
    requires IsPublished(s, market)
  {
    s.rooms[market.room].slots[market.index]
  }

  /** Whether `room` says that the market is its slot; a call to an address without
      code reverts. */
  function AskRoom(s: System, room: Address, market: MarketRef, a: Answers): Result<bool> {
    if room in s.rooms then Ok(IsPublished(s, market) && market.room == room)
    else if room in s.others then a.isSlot
    else Revert(UnknownSlot)
  }

  function AskTemplate(s: System, market: MarketRef, a: Answers): Result<nat> {
    if IsPublished(s, market) then
      var templates := s.rooms[market.room].templateOf;
      if market.index < |templates| then Ok(templates[market.index]) else Revert(UnknownSlot)
    else if IsForeign(s, market) then a.template
    else Revert(UnknownSlot)
  }

  function AskFinal(s: System, market: MarketRef, a: Answers): Result<bool> {
    if IsPublished(s, market) then Ok(!SlotAt(s, market).ruling.finalOutcome.Unset?)
    else if IsForeign(s, market) then a.final
    else Revert(NotSettled)
  }

  /** The slot records the addition for the provider; what it takes is what its
      balance grows by. */
  function SubmitToSlot(self: Address, now: Uint64, c: Commitment, room: Room, m: Market): Result<(nat, Market)> {
    var msg := Msg(self, now, ParticipantsReady(room.config, room.deposits));
    var n :- SubmitAddLiquidityFor(m, msg, c.provider, c.amountPerSlot, 0, (now + HOUR) % TWO_64);
    var takes :- Sub(n.book.purse.held, m.book.purse.held);
    Ok((takes, n))
  }

  /** The market is asked to record the addition: how much it takes, and the rooms
      afterwards. */
  function Submit(s: System, now: Uint64, c: Commitment, market: MarketRef, a: Answers)
    : Result<(nat, map<Address, Room>)>
  {
    if IsPublished(s, market) then
      var room := s.rooms[market.room];
      var (takes, n) :- SubmitToSlot(s.self, now, c, room, SlotAt(s, market));
      Ok((takes, s.rooms[market.room := room.(slots := room.slots[market.index := n])]))
    else if IsForeign(s, market) then
      var takes :- a.takes;
      Ok((takes, s.rooms))
    else Revert(UnknownSlot)
  }

  datatype Deed =
    | ExecuteDeed(now: Uint64, c: Commitment, signer: Address, funded: bool, market: MarketRef, answers: Answers)
    | ReleaseDeed(c: Commitment, market: MarketRef, answers: Answers)
    | CancelDeed(sender: Address, nonce: nat)
    /** A foreign market takes more of its allowance, at any later time. */
    | PullDeed(market: MarketRef, amount: nat)
    /** The factory creates a room at a fresh address. */
    | CreateRoomDeed(config: RoomConfig, time: Uint64)
    /** Anything that happens to a room or its slots otherwise. */
    | RoomDeed(room: Address, event: RoomEvent)

  function Act(s: System, deed: Deed): Result<System> {
    match deed
    case ExecuteDeed(now, c, signer, funded, market, a) =>
      var submitted := Submit(s, now, c, market, a);
      var takes := if submitted.Ok? then Ok(submitted.value.0) else Revert(submitted.error);
      var router :- Execute(s.router, now, c, signer, funded, market, AskRoom(s, c.room, market, a),
                            AskTemplate(s, market, a), takes);
      var (_, rooms) :- submitted;
      Ok(s.(router := router, rooms := rooms))
    case ReleaseDeed(c, market, a) =>
      var router :- ReleaseExposure(s.router, c, market, AskFinal(s, market, a));
      Ok(s.(router := router))
    case CancelDeed(sender, nonce) => Ok(s.(router := Cancel(s.router, sender, nonce)))
    case PullDeed(market, amount) =>
      var _ :- Require(IsForeign(s, market), Unauthorized);
      var router :- Take(s.router, market, amount);
      Ok(s.(router := router))
    case CreateRoomDeed(c, time) =>
      var _ :- Require(c.self !in s.rooms && c.self !in s.others && RoomConfigOk(c), InvalidState);
      Ok(s.(rooms := s.rooms[c.self := NewRoom(c, time)]))
    case RoomDeed(room, e) =>
      var _ :- Require(room in s.rooms && e.sender != s.self, UnknownMarket);
      assert room in s.rooms;
      var next :- ApplyRoom(s.rooms[room], e.sender, e.now, e.call);
      Ok(s.(rooms := s.rooms[room := next]))
  }

  function Do(s: System, deed: Deed): System {
    hide Act;
    match Act(s, deed)
    case Ok(next) => next
    case Revert(_) => s
  }

  function DoAll(s: System, deeds: seq<Deed>): System
    decreases |deeds|
  {
    if deeds == [] then s else DoAll(Do(s, deeds[0]), deeds[1..])
  }

  /** The state after any run on a new router. */
  function Ran(self: Address, others: set<Address>, rooms: map<Address, Room>, deeds: seq<Deed>): System {
    DoAll(System(self, others, NEW_ROUTER, rooms), deeds)
  }

  // ------------------------------------------------------------ rooms evolve

  /** No slot's history is rewritten, and each keeps the template it was published
      under. */
  ghost predicate RoomEvolves(r: Room, n: Room) {
    SlotsEvolve(r.slots, n.slots) && r.templateOf <= n.templateOf
  }

  /** No room disappears, and each evolves. */
  ghost predicate RoomsEvolve(s: System, t: System) {
    && t.self == s.self && t.others == s.others
    && (forall room: Address :: room in s.rooms ==> room in t.rooms && RoomEvolves(s.rooms[room], t.rooms[room]))
  }

  lemma RoomsUnchanged(s: System, t: System)
    requires t.self == s.self && t.others == s.others && t.rooms == s.rooms
    ensures RoomsEvolve(s, t)
  {
    hide SlotsEvolve;
    forall room: Address | room in s.rooms ensures RoomEvolves(s.rooms[room], t.rooms[room]) {
      SlotsEvolveReflexive(s.rooms[room].slots);
    }
  }

  lemma OneRoomEvolves(s: System, t: System, room: Address, next: Room)
    requires t.self == s.self && t.others == s.others && t.rooms == s.rooms[room := next]
    requires room in s.rooms ==> RoomEvolves(s.rooms[room], next)
    ensures RoomsEvolve(s, t)
  {
    hide SlotsEvolve;
    forall r: Address | r in s.rooms ensures RoomEvolves(s.rooms[r], t.rooms[r]) {
      SlotsEvolveReflexive(s.rooms[r].slots);
    }
  }

  lemma RoomsEvolveOn(s: System, t: System, u: System)
    requires RoomsEvolve(s, t) && RoomsEvolve(t, u)
    ensures RoomsEvolve(s, u)
  {
    hide SlotsEvolve;
    forall room: Address | room in s.rooms ensures RoomEvolves(s.rooms[room], u.rooms[room]) {
      assert RoomEvolves(s.rooms[room], t.rooms[room]) && RoomEvolves(t.rooms[room], u.rooms[room]);
      SlotsEvolveTransitive(s.rooms[room].slots, t.rooms[room].slots, u.rooms[room].slots);
    }
  }

  /** A room's own calls add templates and change none. */
  lemma TemplatesStay(r: Room, sender: Address, now: Uint64, call: RoomCall)
    requires ApplyRoom(r, sender, now, call).Ok?
    ensures r.templateOf <= ApplyRoom(r, sender, now, call).value.templateOf
  {
    hide CallEach, CloseEach, ParticipantsReady, ValidatePermit, ValidateRequest, ConfigOk, Apply;
  }

  lemma SubmissionEvolvesSlots(self: Address, now: Uint64, c: Commitment, room: Room, index: nat)
    requires index < |room.slots| && SubmitToSlot(self, now, c, room, room.slots[index]).Ok?
    ensures SlotsEvolve(room.slots,
                        room.slots[index := SubmitToSlot(self, now, c, room, room.slots[index]).value.1])
  {
    var call := AddLiquidityForCall(c.provider, c.amountPerSlot, 0, (now + HOUR) % TWO_64);
    var msg := Msg(self, now, ParticipantsReady(room.config, room.deposits));
    assert Apply(room.slots[index], msg, call)
           == SubmitAddLiquidityFor(room.slots[index], msg, c.provider, c.amountPerSlot, 0, (now + HOUR) % TWO_64);
    hide Apply, Evolves, SubmitAddLiquidityFor, ParticipantsReady;
    ApplyEvolves(room.slots[index], msg, call);
    OneSlotEvolves(room.slots, index, Apply(room.slots[index], msg, call).value);
  }

  lemma DeedEvolvesRooms(s: System, deed: Deed)
    ensures RoomsEvolve(s, Do(s, deed))
  {
    hide ApplyRoom, SlotsEvolve, RoomsEvolve, Execute, ReleaseExposure, Take, SubmitToSlot, NewRoom, RoomConfigOk;
    var t := Do(s, deed);
    if Act(s, deed).Revert? {
      RoomsUnchanged(s, s);
    } else if deed.ExecuteDeed? && IsPublished(s, deed.market) {
      SubmissionEvolvesSlots(s.self, deed.now, deed.c, s.rooms[deed.market.room], deed.market.index);
      OneRoomEvolves(s, t, deed.market.room, t.rooms[deed.market.room]);
    } else if deed.RoomDeed? {
      ApplyRoomEvolves(s.rooms[deed.room], deed.event.sender, deed.event.now, deed.event.call);
      TemplatesStay(s.rooms[deed.room], deed.event.sender, deed.event.now, deed.event.call);
      OneRoomEvolves(s, t, deed.room, t.rooms[deed.room]);
    } else if deed.CreateRoomDeed? {
      OneRoomEvolves(s, t, deed.config.self, t.rooms[deed.config.self]);
    } else {
      RoomsUnchanged(s, t);
    }
  }

  lemma {:induction false} RunEvolvesRooms(s: System, deeds: seq<Deed>)
    ensures RoomsEvolve(s, DoAll(s, deeds))
    decreases |deeds|
  {
    hide Do, RoomsEvolve;
    if deeds == [] {
      RoomsUnchanged(s, s);
    } else {
      DeedEvolvesRooms(s, deeds[0]);
      RunEvolvesRooms(Do(s, deeds[0]), deeds[1..]);
      RoomsEvolveOn(s, Do(s, deeds[0]), DoAll(s, deeds));
    }
  }

  // ------------------------------------------------------------------- books

  /** The draws not released yet. */
  function Active(drawn: map<MarketRef, nat>, released: set<MarketRef>): map<MarketRef, nat> {
    map market | market in drawn && market !in released :: drawn[market]
  }

  predicate IsFinal(s: System, market: MarketRef) {
    IsPublished(s, market) && !SlotAt(s, market).ruling.finalOutcome.Unset?
  }

  /** The slot was published under a template that the policy allows. */
  predicate TemplateAllowed(s: System, c: Commitment, market: MarketRef) {
    && IsPublished(s, market) && market.index < |s.rooms[market.room].templateOf|
    && s.rooms[market.room].templateOf[market.index] in c.allowedTemplates
  }

  /** A policy of a room of the factory draws into slots of that room alone; and every
      slot of the factory that a policy draws into has a template it allows. */
  predicate BelongsTo(s: System, c: Commitment, market: MarketRef) {
    && ((IsPublished(s, market) && market.room == c.room) || c.room in s.others)
    && (market.SlotOf? ==> TemplateAllowed(s, c, market))
  }

  /** The books of one policy. */
  ghost predicate PolicyOk(s: System, c: Commitment) {
    var drawn, released := Drawn(s.router, c), Released(s.router, c);
    && Get(s.router.totalExecuted, c) == Sum(drawn)
    && Get(s.router.activeExposure, c) == Sum(Active(drawn, released))
    && Get(s.router.totalExecuted, c) <= c.maxTotal
    && Get(s.router.activeExposure, c) <= c.maxSimultaneous
    && (forall market :: market in drawn ==>
          && drawn[market] == c.amountPerSlot != 0
          && (IsPublished(s, market) || IsForeign(s, market))
          && BelongsTo(s, c, market))
    && (forall market :: market in released ==> market in drawn && (market.SlotOf? ==> IsFinal(s, market)))
  }

  ghost predicate BooksOk(s: System) {
    forall c: Commitment :: PolicyOk(s, c)
  }

  lemma NewBooksOk(s: System)
    requires s.router == NEW_ROUTER
    ensures BooksOk(s)
  {
    forall c: Commitment ensures PolicyOk(s, c) {
      SumEmpty(Drawn(s.router, c));
      SumEmpty(Active(Drawn(s.router, c), Released(s.router, c)));
    }
  }

  lemma MarketStays(s: System, t: System, market: MarketRef)
    requires RoomsEvolve(s, t)
    ensures IsPublished(s, market) ==> IsPublished(t, market) && Evolves(SlotAt(s, market), SlotAt(t, market))
    ensures IsForeign(s, market) ==> IsForeign(t, market)
    ensures IsFinal(s, market) ==> IsFinal(t, market)
    ensures forall c :: BelongsTo(s, c, market) ==> BelongsTo(t, c, market)
  {
    if IsPublished(s, market) {
      assert RoomEvolves(s.rooms[market.room], t.rooms[market.room]);
    }
  }

  /** A policy's books look only at its own entries and at markets as they evolve. */
  lemma PolicyCarriesOver(s: System, t: System, c: Commitment)
    requires PolicyOk(s, c) && RoomsEvolve(s, t)
    requires Drawn(t.router, c) == Drawn(s.router, c) && Released(t.router, c) == Released(s.router, c)
    requires Get(t.router.totalExecuted, c) == Get(s.router.totalExecuted, c)
    requires Get(t.router.activeExposure, c) == Get(s.router.activeExposure, c)
    ensures PolicyOk(t, c)
  {
    hide Sum, Active, RoomsEvolve, IsPublished, IsFinal, IsForeign;
    forall market | market in Drawn(t.router, c)
      ensures (IsPublished(t, market) || IsForeign(t, market)) && BelongsTo(t, c, market)
    {
      MarketStays(s, t, market);
      SameOthers(s, t);
    }
    forall market | market in Released(t.router, c) ensures market.SlotOf? ==> IsFinal(t, market) {
      MarketStays(s, t, market);
    }
  }

  lemma SameOthers(s: System, t: System)
    requires RoomsEvolve(s, t)
    ensures t.others == s.others && t.self == s.self
  {
  }

  lemma DrawnSums(r: Router, c: Commitment, market: MarketRef)
    requires Get(Drawn(r, c), market) == 0 && (forall k :: k in Released(r, c) ==> k in Drawn(r, c))
    requires forall k :: k in Drawn(r, c) ==> Drawn(r, c)[k] != 0
    ensures Sum(Drawn(r, c)[market := c.amountPerSlot]) == Sum(Drawn(r, c)) + c.amountPerSlot
    ensures Sum(Active(Drawn(r, c)[market := c.amountPerSlot], Released(r, c)))
         == Sum(Active(Drawn(r, c), Released(r, c))) + c.amountPerSlot
  {
    var drawn, released := Drawn(r, c), Released(r, c);
    SumUpdate(drawn, market, c.amountPerSlot);
    SumUpdate(Active(drawn, released), market, c.amountPerSlot);
    assert market !in drawn;
    assert Active(drawn[market := c.amountPerSlot], released) == Active(drawn, released)[market := c.amountPerSlot];
  }

  lemma ReleasedSum(drawn: map<MarketRef, nat>, released: set<MarketRef>, market: MarketRef)
    requires market in drawn && market !in released
    ensures Sum(Active(drawn, released)) == drawn[market] + Sum(Active(drawn, released + {market}))
  {
    SumRemove(Active(drawn, released), market);
    assert Active(drawn, released) - {market} == Active(drawn, released + {market});
  }

  /** What an accepted draw has checked, and what it does. */
  lemma DrawIsBooked(s: System, deed: Deed)
    requires deed.ExecuteDeed? && Act(s, deed).Ok?
    ensures
      var c, market, t := deed.c, deed.market, Act(s, deed).value;
      var submitted := Submit(s, deed.now, c, market, deed.answers);
      && submitted.Ok? && t == s.(router := t.router, rooms := submitted.value.1)
      && Take(Funded(Booked(s.router, c, market), market, c.amountPerSlot), market, submitted.value.0) == Ok(t.router)
      && Get(Drawn(s.router, c), market) == 0 && (c.provider, c.nonce) !in s.router.cancelledNonce
      && c.amountPerSlot != 0 && deed.signer == c.provider && deed.funded
      && Get(s.router.activeExposure, c) + c.amountPerSlot <= c.maxSimultaneous
      && Get(s.router.totalExecuted, c) + c.amountPerSlot <= c.maxTotal
      && (IsPublished(s, market) || IsForeign(s, market)) && BelongsTo(s, c, market)
  {
    hide SubmitToSlot, Take, Funded, Booked;
  }

  lemma ExecuteKeeps(s: System, deed: Deed)
    requires BooksOk(s) && deed.ExecuteDeed? && Act(s, deed).Ok?
    ensures BooksOk(Act(s, deed).value)
  {
    hide PolicyOk, Act, Submit, Booked, RoomsEvolve, BelongsTo, IsPublished, IsForeign;
    DrawIsBooked(s, deed);
    DeedEvolvesRooms(s, deed);
    BookedOk(s, Act(s, deed).value, deed.c, deed.market);
  }

  lemma BookedOk(s: System, t: System, c: Commitment, market: MarketRef)
    requires BooksOk(s) && RoomsEvolve(s, t)
    requires t.router == Booked(s.router, c, market).(held := t.router.held, allowance := t.router.allowance,
                                                      taken := t.router.taken)
    requires Get(Drawn(s.router, c), market) == 0 && c.amountPerSlot != 0
    requires Get(s.router.activeExposure, c) + c.amountPerSlot <= c.maxSimultaneous
    requires Get(s.router.totalExecuted, c) + c.amountPerSlot <= c.maxTotal
    requires (IsPublished(s, market) || IsForeign(s, market)) && BelongsTo(s, c, market)
    ensures BooksOk(t)
  {
    hide PolicyOk, RoomsEvolve, IsPublished, IsForeign, BelongsTo, Booked, Drawn;
    forall d: Commitment ensures PolicyOk(t, d) {
      assert PolicyOk(s, d);
      BookedBooks(s.router, t.router, c, market, d);
      if d == c {
        DrawnPolicyOk(s, t, c, market);
      } else {
        PolicyCarriesOver(s, t, d);
      }
    }
  }

  /** The books of each policy after one more draw. */
  lemma BookedBooks(r: Router, q: Router, c: Commitment, market: MarketRef, d: Commitment)
    requires q == Booked(r, c, market).(held := q.held, allowance := q.allowance, taken := q.taken)
    ensures Drawn(q, d) == if d == c then Drawn(r, c)[market := c.amountPerSlot] else Drawn(r, d)
    ensures Released(q, d) == Released(r, d) && q.cancelledNonce == r.cancelledNonce
    ensures Get(q.totalExecuted, d) == Get(r.totalExecuted, d) + (if d == c then c.amountPerSlot else 0)
    ensures Get(q.activeExposure, d) == Get(r.activeExposure, d) + (if d == c then c.amountPerSlot else 0)
  {
  }

  lemma DrawnPolicyOk(s: System, t: System, c: Commitment, market: MarketRef)
    requires PolicyOk(s, c) && RoomsEvolve(s, t)
    requires Drawn(t.router, c) == Drawn(s.router, c)[market := c.amountPerSlot]
    requires Released(t.router, c) == Released(s.router, c)
    requires Get(t.router.totalExecuted, c) == Get(s.router.totalExecuted, c) + c.amountPerSlot <= c.maxTotal
    requires Get(t.router.activeExposure, c) == Get(s.router.activeExposure, c) + c.amountPerSlot <= c.maxSimultaneous
    requires Get(Drawn(s.router, c), market) == 0 && c.amountPerSlot != 0
    requires (IsPublished(s, market) || IsForeign(s, market)) && BelongsTo(s, c, market)
    ensures PolicyOk(t, c)
  {
    hide Sum, Active, RoomsEvolve, IsPublished, IsForeign, IsFinal, BelongsTo;
    DrawnSums(s.router, c, market);
    DrawnMarketsStay(s, t, c, market);
  }

  /** What the books say about the markets of a policy stays true after one more draw. */
  lemma DrawnMarketsStay(s: System, t: System, c: Commitment, market: MarketRef)
    requires PolicyOk(s, c) && RoomsEvolve(s, t)
    requires (IsPublished(s, market) || IsForeign(s, market)) && BelongsTo(s, c, market)
    ensures forall k :: k in Drawn(s.router, c) || k == market ==>
      (IsPublished(t, k) || IsForeign(t, k)) && BelongsTo(t, c, k)
    ensures forall k :: k in Released(s.router, c) ==> (k.SlotOf? ==> IsFinal(t, k))
  {
    hide Sum, Active, RoomsEvolve, IsPublished, IsForeign, IsFinal;
    SameOthers(s, t);
    forall k | k in Drawn(s.router, c) || k == market
      ensures (IsPublished(t, k) || IsForeign(t, k)) && BelongsTo(t, c, k)
    {
      MarketStays(s, t, k);
    }
    forall k | k in Released(s.router, c) ensures k.SlotOf? ==> IsFinal(t, k) {
      MarketStays(s, t, k);
    }
  }

  lemma ReleaseKeeps(s: System, c: Commitment, market: MarketRef, a: Answers)
    requires BooksOk(s)
    ensures
      var r := Act(s, ReleaseDeed(c, market, a));
      && (r.Ok? <==> market in Drawn(s.router, c) && market !in Released(s.router, c)
                     && AskFinal(s, market, a) == Ok(true))
      && (r.Ok? ==> BooksOk(r.value))
  {
    hide PolicyOk, AskFinal, Drawn, Released;
    assert PolicyOk(s, c);
    ReleaseAccepted(s, c, market, AskFinal(s, market, a));
    var released := ReleaseExposure(s.router, c, market, AskFinal(s, market, a));
    if released.Ok? {
      var t := s.(router := released.value);
      RoomsUnchanged(s, t);
      FinalSlot(s, market, a);
      ReleasedOk(s, t, c, market);
    }
  }

  lemma FinalSlot(s: System, market: MarketRef, a: Answers)
    requires AskFinal(s, market, a) == Ok(true)
    ensures market.SlotOf? ==> IsFinal(s, market)
  {
  }

  /** A release succeeds whenever its guards hold: the exposure covers it. */
  lemma ReleaseAccepted(s: System, c: Commitment, market: MarketRef, final: Result<bool>)
    requires PolicyOk(s, c)
    ensures
      var r := ReleaseExposure(s.router, c, market, final);
      && (r.Ok? <==> market in Drawn(s.router, c) && market !in Released(s.router, c) && final == Ok(true))
      && (r.Ok? ==> IsReleased(s.router, r.value, c, market))
  {
    hide Sum, Active, IsPublished, IsForeign, IsFinal, BelongsTo;
    if market in Drawn(s.router, c) && market !in Released(s.router, c) {
      ReleasedSum(Drawn(s.router, c), Released(s.router, c), market);
    }
  }

  /** The books after a release of what was drawn into the market. */
  ghost predicate IsReleased(r: Router, q: Router, c: Commitment, market: MarketRef) {
    && market in Drawn(r, c) && market !in Released(r, c)
    && Drawn(r, c)[market] <= Get(r.activeExposure, c)
    && q == r.(exposureReleased := r.exposureReleased[c := Released(r, c) + {market}],
               activeExposure := r.activeExposure[c := Get(r.activeExposure, c) - Drawn(r, c)[market]])
  }

  lemma ReleasedOk(s: System, t: System, c: Commitment, market: MarketRef)
    requires BooksOk(s) && RoomsEvolve(s, t)
    requires IsReleased(s.router, t.router, c, market) && (market.SlotOf? ==> IsFinal(s, market))
    ensures BooksOk(t)
  {
    hide PolicyOk, RoomsEvolve, IsFinal, IsReleased, Drawn, Released;
    forall d: Commitment ensures PolicyOk(t, d) {
      assert PolicyOk(s, d);
      if d == c {
        ReleasedPolicyOk(s, t, c, market);
      } else {
        ReleasedBooks(s.router, t.router, c, market, d);
        PolicyCarriesOver(s, t, d);
      }
    }
  }

  lemma ReleasedBooks(r: Router, q: Router, c: Commitment, market: MarketRef, d: Commitment)
    requires IsReleased(r, q, c, market) && d != c
    ensures Drawn(q, d) == Drawn(r, d) && Released(q, d) == Released(r, d)
    ensures Get(q.totalExecuted, d) == Get(r.totalExecuted, d) && Get(q.activeExposure, d) == Get(r.activeExposure, d)
  {
  }

  lemma ReleasedPolicyOk(s: System, t: System, c: Commitment, market: MarketRef)
    requires PolicyOk(s, c) && RoomsEvolve(s, t)
    requires IsReleased(s.router, t.router, c, market) && (market.SlotOf? ==> IsFinal(s, market))
    ensures PolicyOk(t, c)
  {
    hide Sum, Active, RoomsEvolve, IsPublished, IsForeign, IsFinal, BelongsTo;
    ReleasedSum(Drawn(s.router, c), Released(s.router, c), market);
    DrawnMarketsStay(s, t, c, market);
    MarketStays(s, t, market);
  }

  lemma OtherDeedKeeps(s: System, deed: Deed)
    requires BooksOk(s) && Act(s, deed).Ok? && !deed.ExecuteDeed? && !deed.ReleaseDeed?
    ensures BooksOk(Act(s, deed).value)
  {
    hide ApplyRoom, RoomsEvolve, PolicyOk, IsForeign;
    DeedEvolvesRooms(s, deed);
    forall c: Commitment ensures PolicyOk(Act(s, deed).value, c) {
      PolicyCarriesOver(s, Act(s, deed).value, c);
    }
  }

  lemma DoKeeps(s: System, deed: Deed)
    requires BooksOk(s)
    ensures BooksOk(Do(s, deed))
  {
    hide BooksOk, Act;
    if Act(s, deed).Ok? {
      match deed
      case ExecuteDeed(_, _, _, _, _, _) => ExecuteKeeps(s, deed);
      case ReleaseDeed(c, market, a) => ReleaseKeeps(s, c, market, a);
      case _ => OtherDeedKeeps(s, deed);
    }
  }

  lemma {:induction false} DoAllKeeps(s: System, deeds: seq<Deed>)
    requires BooksOk(s)
    ensures BooksOk(DoAll(s, deeds))
    decreases |deeds|
  {
    hide BooksOk, Do;
    if deeds != [] {
      DoKeeps(s, deeds[0]);
      DoAllKeeps(Do(s, deeds[0]), deeds[1..]);
    }
  }

  lemma RanBooks(self: Address, others: set<Address>, rooms: map<Address, Room>, deeds: seq<Deed>)
    ensures BooksOk(Ran(self, others, rooms, deeds))
    ensures Ran(self, others, rooms, deeds).others == others && Ran(self, others, rooms, deeds).self == self
  {
    hide BooksOk, DoAll;
    var s := System(self, others, NEW_ROUTER, rooms);
    NewBooksOk(s);
    DoAllKeeps(s, deeds);
    RunEvolvesRooms(s, deeds);
  }

  // ----------------------------------------------------- what no run can undo

  /** Draws and releases stay, cancellations stay, and a cancelled policy draws
      nothing more. */
  ghost predicate BooksEvolve(r: Router, q: Router) {
    && r.cancelledNonce <= q.cancelledNonce
    && (forall c: Commitment ::
          && (forall market :: market in Drawn(r, c) ==>
                market in Drawn(q, c) && Drawn(q, c)[market] == Drawn(r, c)[market])
          && Released(r, c) <= Released(q, c)
          && ((c.provider, c.nonce) in r.cancelledNonce ==> Drawn(q, c) == Drawn(r, c)))
  }

  lemma ActEvolves(s: System, deed: Deed)
    requires BooksOk(s) && Act(s, deed).Ok?
    ensures BooksEvolve(s.router, Act(s, deed).value.router)
  {
    hide Sum, Active, Execute, ReleaseExposure, Cancel, ApplyRoom, BooksEvolve, Booked, Submit, Take, IsForeign,
      IsPublished, BelongsTo;
    match deed
    case ExecuteDeed(_, c, _, _, market, _) =>
      assert PolicyOk(s, c);
      DrawIsBooked(s, deed);
      var takes := Submit(s, deed.now, c, market, deed.answers).value.0;
      TakingEvolves(Funded(Booked(s.router, c, market), market, c.amountPerSlot), market, takes);
      BookedEvolves(s.router, Act(s, deed).value.router, c, market);
    case ReleaseDeed(c, market, a) => ReleaseEvolves(s.router, c, market, AskFinal(s, market, a));
    case CancelDeed(sender, nonce) => CancelEvolves(s.router, sender, nonce);
    case PullDeed(market, amount) =>
      TakingEvolves(s.router, market, amount);
      SameBooksEvolve(s.router, Act(s, deed).value.router);
    case CreateRoomDeed(_, _) => SameBooksEvolve(s.router, s.router);
    case RoomDeed(_, _) => SameBooksEvolve(s.router, s.router);
  }

  lemma TakingEvolves(r: Router, market: MarketRef, amount: nat)
    ensures
      var t := Take(r, market, amount);
      t.Ok? ==> t.value == r.(held := t.value.held, allowance := t.value.allowance, taken := t.value.taken)
  {
  }

  lemma BookedEvolves(r: Router, q: Router, c: Commitment, market: MarketRef)
    requires Get(Drawn(r, c), market) == 0 && (c.provider, c.nonce) !in r.cancelledNonce
    requires forall k :: k in Drawn(r, c) ==> Drawn(r, c)[k] != 0
    requires q == Booked(r, c, market).(held := q.held, allowance := q.allowance, taken := q.taken)
    ensures BooksEvolve(r, q)
  {
    hide Booked, Drawn, Released;
    forall d: Commitment
      ensures forall k :: k in Drawn(r, d) ==> k in Drawn(q, d) && Drawn(q, d)[k] == Drawn(r, d)[k]
      ensures Released(r, d) <= Released(q, d)
      ensures (d.provider, d.nonce) in r.cancelledNonce ==> Drawn(q, d) == Drawn(r, d)
    {
      BookedBooks(r, q, c, market, d);
    }
    BookedBooks(r, q, c, market, c);
  }

  lemma ReleaseEvolves(r: Router, c: Commitment, market: MarketRef, final: Result<bool>)
    requires ReleaseExposure(r, c, market, final).Ok?
    ensures BooksEvolve(r, ReleaseExposure(r, c, market, final).value)
  {
  }

  lemma CancelEvolves(r: Router, sender: Address, nonce: nat)
    ensures BooksEvolve(r, Cancel(r, sender, nonce))
  {
  }

  lemma SameBooksEvolve(r: Router, q: Router)
    requires q == r.(held := q.held, allowance := q.allowance, taken := q.taken)
    ensures BooksEvolve(r, q)
  {
  }

  lemma {:induction false} DoAllEvolves(s: System, deeds: seq<Deed>)
    requires BooksOk(s)
    ensures BooksEvolve(s.router, DoAll(s, deeds).router)
    decreases |deeds|
  {
    hide BooksOk, Act, BooksEvolve;
    if deeds == [] {
      SameBooksEvolve(s.router, s.router);
    } else {
      var next := Do(s, deeds[0]);
      DoKeeps(s, deeds[0]);
      SameBooksEvolve(s.router, s.router);
      if Act(s, deeds[0]).Ok? {
        ActEvolves(s, deeds[0]);
      }
      DoAllEvolves(next, deeds[1..]);
      BooksEvolveOn(s.router, next.router, DoAll(s, deeds).router);
    }
  }

  lemma BooksEvolveOn(r: Router, q: Router, p: Router)
    requires BooksEvolve(r, q) && BooksEvolve(q, p)
    ensures BooksEvolve(r, p)
  {
  }

  // ---------------------------------------------------------------- theorems

  /** After any run of draws, through rooms of the factory or through any other
      contract, of releases, cancellations, new rooms and anything at all in the rooms:
      for every policy the total is the sum over all drawn markets, the exposure the
      sum over the unreleased ones, both within the signed caps, and every drawn market
      was drawn for the signed amount. A policy of a room of the factory has drawn into
      published slots of that room alone; and every slot of the factory that any policy
      has drawn into was published under a template that policy allows. */
  lemma ExposureWithinCaps(self: Address, others: set<Address>, rooms: map<Address, Room>, deeds: seq<Deed>,
                           c: Commitment)
    ensures
      var s := Ran(self, others, rooms, deeds);
      var drawn, released := Drawn(s.router, c), Released(s.router, c);
      && Get(s.router.totalExecuted, c) == Sum(drawn) <= c.maxTotal
      && Get(s.router.activeExposure, c) == Sum(Active(drawn, released)) <= c.maxSimultaneous
      && (forall market :: market in drawn ==>
            && drawn[market] == c.amountPerSlot
            && (c.room !in others ==> IsPublished(s, market) && market.room == c.room)
            && (market.SlotOf? ==>
                  && IsPublished(s, market) && market.index < |s.rooms[market.room].templateOf|
                  && s.rooms[market.room].templateOf[market.index] in c.allowedTemplates))
  {
    hide Ran, Sum, Active, IsPublished, IsForeign;
    RanBooks(self, others, rooms, deeds);
    assert PolicyOk(Ran(self, others, rooms, deeds), c);
  }

  /** In markets rather than money: how many were drawn, and how many of them are
      still unreleased. Every drawn slot that is not final is among the latter. */
  lemma SlotsWithinCaps(self: Address, others: set<Address>, rooms: map<Address, Room>, deeds: seq<Deed>, c: Commitment)
    ensures
      var s := Ran(self, others, rooms, deeds);
      var drawn, active := Drawn(s.router, c), Active(Drawn(s.router, c), Released(s.router, c));
      && c.amountPerSlot * |drawn| <= c.maxTotal
      && c.amountPerSlot * |active| <= c.maxSimultaneous
      && (forall market :: market in drawn && market.SlotOf? && !IsFinal(s, market) ==> market in active)
  {
    hide Ran, Sum, IsPublished, IsForeign, IsFinal;
    RanBooks(self, others, rooms, deeds);
    var t := Ran(self, others, rooms, deeds);
    assert PolicyOk(t, c);
    UniformSum(Drawn(t.router, c), c.amountPerSlot);
    UniformSum(Active(Drawn(t.router, c), Released(t.router, c)), c.amountPerSlot);
  }

  lemma {:induction false} UniformSum<K>(m: map<K, nat>, amount: nat)
    requires forall k :: k in m ==> m[k] == amount
    ensures Sum(m) == amount * |m|
    decreases |m|
  {
    if m == map[] {
      SumEmpty(m);
    } else {
      var k :| k in m;
      SumRemove(m, k);
      OneKeyLess(m, k);
      UniformSum(m - {k}, amount);
      OneTimesMore(amount, |m|);
    }
  }

  lemma OneKeyLess<K>(m: map<K, nat>, k: K)
    requires k in m
    ensures |m - {k}| == |m| - 1
  {
    assert (m - {k}).Keys == m.Keys - {k};
  }

  lemma OneTimesMore(amount: nat, n: nat)
    ensures amount * n == amount * (n - 1) + amount
  {
  }

  /** The addition that a draw of `c` at `now` leaves in a slot: the provider's, of the
      signed amount, on any terms, and good for one hour. */
  predicate IsDrawOf(a: Action, c: Commitment, now: Uint64) {
    && a.kind.AddLiquidity? && a.user == c.provider && a.amount == c.amountPerSlot
    && a.minimumReturn == 0 && a.deadline == (now + 3600) % TWO_64
  }

  lemma SlotTakesAll(self: Address, now: Uint64, c: Commitment, room: Room, m: Market)
    ensures
      var r := SubmitToSlot(self, now, c, room, m);
      var msg := Msg(self, now, ParticipantsReady(room.config, room.deposits));
      && (r.Ok? <==> SubmitAddLiquidityFor(m, msg, c.provider, c.amountPerSlot, 0, (now + HOUR) % TWO_64).Ok?)
      && (r.Ok? ==>
        var (takes, n) := r.value;
        && takes == c.amountPerSlot
        && self == m.config.liquidityRouter
        && n.book == m.book.(purse := m.book.purse.(held := m.book.purse.held + c.amountPerSlot),
                             pendingCollateral := m.book.pendingCollateral + c.amountPerSlot)
        && n == m.(book := n.book, queue := n.queue)
        && |n.queue.actions| == |m.queue.actions| + 1 && n.queue.actions[..|m.queue.actions|] == m.queue.actions
        && IsDrawOf(n.queue.actions[|m.queue.actions|], c, now)
        && n.queue.actions[|m.queue.actions|].status.Pending?)
  {
    hide ParticipantsReady, CurrentEpoch;
  }

  /** A draw into a slot of the factory, through whatever room, puts exactly the signed
      amount into it: the slot takes all of it, a pending addition of that amount
      belongs to the provider, and everything else about the slot is as before. The
      addition is still there, and the provider's, after any further run. */
  lemma DrawReachesSlot(self: Address, others: set<Address>, rooms: map<Address, Room>, deeds: seq<Deed>, draw: Deed,
                        more: seq<Deed>)
    requires draw.ExecuteDeed?
    ensures
      var s, c, market := Ran(self, others, rooms, deeds), draw.c, draw.market;
      Act(s, draw).Ok? && IsPublished(s, market) ==>
        var t := Act(s, draw).value;
        var u := DoAll(t, more);
        && IsPublished(t, market) && IsPublished(u, market)
        && var m, n, id := SlotAt(s, market), SlotAt(t, market), |SlotAt(s, market).queue.actions|;
        && draw.signer == c.provider && draw.funded && t.router.held == s.router.held
        && n.book == m.book.(purse := m.book.purse.(held := m.book.purse.held + c.amountPerSlot),
                             pendingCollateral := m.book.pendingCollateral + c.amountPerSlot)
        && n == m.(book := n.book, queue := n.queue)
        && |n.queue.actions| == id + 1 && n.queue.actions[..id] == m.queue.actions
        && n.queue.actions[id].status.Pending? && IsDrawOf(n.queue.actions[id], c, draw.now)
        && id < |SlotAt(u, market).queue.actions| && IsDrawOf(SlotAt(u, market).queue.actions[id], c, draw.now)
  {
    hide Ran, DoAll, Act, SubmitToSlot, BelongsTo, RoomsEvolve;
    var s, c, market := Ran(self, others, rooms, deeds), draw.c, draw.market;
    if Act(s, draw).Ok? && IsPublished(s, market) {
      DrawIsBooked(s, draw);
      SlotTakesAll(s.self, draw.now, c, s.rooms[market.room], SlotAt(s, market));
      var t := Act(s, draw).value;
      RunEvolvesRooms(t, more);
      MarketStays(t, DoAll(t, more), market);
    }
  }

  /** Each market is drawn at most once per policy, whatever happens in between. */
  lemma DrawnOnce(self: Address, others: set<Address>, rooms: map<Address, Room>, deeds: seq<Deed>, first: Deed,
                  more: seq<Deed>, again: Deed)
    requires first.ExecuteDeed? && again.ExecuteDeed? && again.c == first.c && again.market == first.market
    ensures
      var s := Ran(self, others, rooms, deeds);
      Act(s, first).Ok? ==> Act(DoAll(Act(s, first).value, more), again).Revert?
  {
    hide Ran, DoAll, Sum, Active, Submit, Take, AskRoom, AskTemplate, IsPublished, IsForeign, BelongsTo;
    RanBooks(self, others, rooms, deeds);
    var s := Ran(self, others, rooms, deeds);
    if Act(s, first).Ok? {
      var t := Act(s, first).value;
      ExecuteKeeps(s, first);
      DrawIsBooked(s, first);
      var takes := Submit(s, first.now, first.c, first.market, first.answers).value.0;
      TakingEvolves(Funded(Booked(s.router, first.c, first.market), first.market, first.c.amountPerSlot), first.market,
                    takes);
      assert first.market in Drawn(t.router, first.c);
      DoAllEvolves(t, more);
      assert Get(Drawn(DoAll(t, more).router, first.c), first.market) == first.c.amountPerSlot;
    }
  }

  /** A cancellation is for good: no policy of that provider with that nonce ever
      draws anything more, whatever room it names. */
  lemma CancelIsFinal(self: Address, others: set<Address>, rooms: map<Address, Room>, deeds: seq<Deed>,
                      more: seq<Deed>, c: Commitment)
    ensures
      var s := Ran(self, others, rooms, deeds);
      var cancelled := Do(s, CancelDeed(c.provider, c.nonce));
      Drawn(DoAll(cancelled, more).router, c) == Drawn(s.router, c)
  {
    hide Ran, DoAll, Sum, Active, BooksOk;
    RanBooks(self, others, rooms, deeds);
    var s := Ran(self, others, rooms, deeds);
    DoKeeps(s, CancelDeed(c.provider, c.nonce));
    DoAllEvolves(Do(s, CancelDeed(c.provider, c.nonce)), more);
  }

  /** Exposure can be released exactly once per drawn market and exactly when the market
      says that it is final, which for a slot of the factory is when it is, by anyone;
      it frees exactly the drawn amount. No room is asked. */
  lemma ReleaseIff(self: Address, others: set<Address>, rooms: map<Address, Room>, deeds: seq<Deed>, c: Commitment,
                   market: MarketRef, a: Answers)
    ensures
      var s := Ran(self, others, rooms, deeds);
      var r := Act(s, ReleaseDeed(c, market, a));
      && (r.Ok? <==> && market in Drawn(s.router, c) && market !in Released(s.router, c)
                     && (if market.SlotOf? then IsFinal(s, market) else a.final == Ok(true)))
      && (r.Ok? ==>
            && Get(r.value.router.activeExposure, c) == Get(s.router.activeExposure, c) - c.amountPerSlot
            && Get(r.value.router.totalExecuted, c) == Get(s.router.totalExecuted, c)
            && r.value.router.held == s.router.held
            && r.value.rooms == s.rooms)
  {
    hide Ran, Sum, Active;
    RanBooks(self, others, rooms, deeds);
    var s := Ran(self, others, rooms, deeds);
    ReleaseKeeps(s, c, market, a);
    assert PolicyOk(s, c);
  }
}
