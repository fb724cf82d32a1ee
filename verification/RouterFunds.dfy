/** The router's token balance. A draw passes through the router: the market it goes to
    may take all of it, at once or later, and a market that is none of the factory's
    need not. What the router holds is what such markets have left. */
module RouterFunds {
  import opened Prelude
  import opened Room
  import opened Commitments

  /** What each policy has drawn into one market. */
  function IntoMap(r: Router, market: MarketRef): map<Commitment, nat> {
    map c | c in r.executedSlot :: Get(r.executedSlot[c], market)
  }

  /** What all policies together have drawn into a market. */
  ghost function DrawnInto(r: Router, market: MarketRef): nat {
    Sum(IntoMap(r, market))
  }

  /** What a market has left of all that was drawn into it. */
  ghost function Left(r: Router, market: MarketRef): nat {
    if Get(r.taken, market) <= DrawnInto(r, market) then DrawnInto(r, market) - Get(r.taken, market) else 0
  }

  ghost function LeftByAll(r: Router): map<MarketRef, nat> {
    map market | market in r.taken :: Left(r, market)
  }

  /** No market takes more than was drawn into it or may take more than it has left;
      slots have left nothing; and the balance is what all markets have left. */
  ghost predicate FundsOk(r: Router) {
    && (forall market :: MarketFundsOk(r, market))
    && r.held == Sum(LeftByAll(r))
    && Sum(r.totalExecuted) == r.held + Sum(r.taken)
  }

  ghost predicate MarketFundsOk(r: Router, market: MarketRef) {
    && Get(r.taken, market) <= DrawnInto(r, market)
    && (market !in r.taken ==> DrawnInto(r, market) == 0)
    && Get(r.allowance, market) <= Left(r, market)
    && (market.SlotOf? ==> Left(r, market) == 0)
  }

  lemma NewFundsOk(r: Router)
    requires r == NEW_ROUTER
    ensures FundsOk(r)
  {
    forall market: MarketRef ensures MarketFundsOk(r, market) {
      SumEmpty(IntoMap(r, market));
    }
    SumEmpty(LeftByAll(r));
    SumEmpty(r.totalExecuted);
    SumEmpty(r.taken);
  }

  /** A draw adds to what was drawn into its market, and to no other. */
  lemma BookedInto(r: Router, q: Router, c: Commitment, market: MarketRef, other: MarketRef)
    requires q.executedSlot == Booked(r, c, market).executedSlot && Get(Drawn(r, c), market) == 0
    ensures DrawnInto(q, other) == DrawnInto(r, other) + (if other == market then c.amountPerSlot else 0)
  {
    var amount: nat := if other == market then c.amountPerSlot else Get(Drawn(r, c), other);
    assert IntoMap(q, other) == IntoMap(r, other)[c := amount];
    SumUpdate(IntoMap(r, other), c, amount);
  }

  /** A draw, of which the market takes some. */
  lemma DrawKeepsFunds(r: Router, c: Commitment, market: MarketRef, takes: nat, q: Router)
    requires FundsOk(r) && Get(Drawn(r, c), market) == 0
    requires Take(Funded(Booked(r, c, market), market, c.amountPerSlot), market, takes) == Ok(q)
    requires market.SlotOf? ==> takes == c.amountPerSlot
    ensures FundsOk(q)
    ensures q.held == r.held + c.amountPerSlot - takes
  {
    hide DrawnInto, Sum, Left, MarketFundsOk, Drawn;
    forall other: MarketRef
      ensures MarketFundsOk(q, other)
      ensures Left(q, other) == if other == market then Left(r, market) + c.amountPerSlot - takes else Left(r, other)
    {
      assert MarketFundsOk(r, other);
      DrawKeepsMarket(r, c, market, takes, q, other);
    }
    assert MarketFundsOk(r, market);
    LeftMoves(r, q, market);
    SumUpdate(r.totalExecuted, c, Get(r.totalExecuted, c) + c.amountPerSlot);
    SumUpdate(r.taken, market, Get(r.taken, market) + takes);
  }

  lemma DrawKeepsMarket(r: Router, c: Commitment, market: MarketRef, takes: nat, q: Router, other: MarketRef)
    requires MarketFundsOk(r, other) && Get(Drawn(r, c), market) == 0
    requires Take(Funded(Booked(r, c, market), market, c.amountPerSlot), market, takes) == Ok(q)
    requires market.SlotOf? ==> takes == c.amountPerSlot
    ensures MarketFundsOk(q, other)
    ensures Left(q, other) == if other == market then Left(r, market) + c.amountPerSlot - takes else Left(r, other)
  {
    hide DrawnInto, Sum;
    BookedInto(r, q, c, market, other);
  }

  /** When one market's remainder changes, so does the sum of all, by as much. */
  lemma LeftMoves(r: Router, q: Router, market: MarketRef)
    requires MarketFundsOk(r, market)
    requires q.taken.Keys == r.taken.Keys + {market}
    requires forall other: MarketRef :: other != market ==> Left(q, other) == Left(r, other)
    ensures Sum(LeftByAll(q)) == Sum(LeftByAll(r)) - Left(r, market) + Left(q, market)
  {
    hide Sum, DrawnInto;
    assert Get(LeftByAll(r), market) == Left(r, market);
    assert LeftByAll(q) == LeftByAll(r)[market := Left(q, market)];
    SumUpdate(LeftByAll(r), market, Left(q, market));
  }

  /** A later pull succeeds whenever the allowance covers it: the balance never stands
      in its way. */
  lemma PullKeepsFunds(r: Router, market: MarketRef, amount: nat)
    requires FundsOk(r)
    ensures
      var q := Take(r, market, amount);
      && (q.Ok? <==> amount <= Get(r.allowance, market))
      && (q.Ok? ==> FundsOk(q.value))
  {
    hide DrawnInto, Sum;
    assert MarketFundsOk(r, market);
    SumAtLeast(LeftByAll(r), market);
    assert Get(LeftByAll(r), market) == Left(r, market);
    if amount <= Get(r.allowance, market) {
      PulledKeepsFunds(r, market, amount, Take(r, market, amount).value);
    }
  }

  lemma PulledKeepsFunds(r: Router, market: MarketRef, amount: nat, q: Router)
    requires FundsOk(r) && Take(r, market, amount) == Ok(q)
    ensures FundsOk(q)
  {
    hide DrawnInto, Sum, Left, MarketFundsOk;
    forall other: MarketRef
      ensures MarketFundsOk(q, other)
      ensures Left(q, other) == if other == market then Left(r, market) - amount else Left(r, other)
    {
      assert MarketFundsOk(r, other);
      PullKeepsMarket(r, market, amount, q, other);
    }
    assert MarketFundsOk(r, market);
    LeftMoves(r, q, market);
    SumUpdate(r.taken, market, Get(r.taken, market) + amount);
  }

  lemma PullKeepsMarket(r: Router, market: MarketRef, amount: nat, q: Router, other: MarketRef)
    requires MarketFundsOk(r, other) && Take(r, market, amount) == Ok(q)
    ensures MarketFundsOk(q, other)
    ensures Left(q, other) == if other == market then Left(r, market) - amount else Left(r, other)
  {
    hide DrawnInto, Sum;
    assert IntoMap(q, other) == IntoMap(r, other);
    SameInto(r, q, other);
  }

  lemma SameInto(r: Router, q: Router, market: MarketRef)
    requires IntoMap(q, market) == IntoMap(r, market)
    ensures DrawnInto(q, market) == DrawnInto(r, market)
  {
  }

  /** Releases and cancellations move no money. */
  lemma NoFundsMoved(r: Router, q: Router)
    requires FundsOk(r)
    requires q == r.(exposureReleased := q.exposureReleased, activeExposure := q.activeExposure,
                     cancelledNonce := q.cancelledNonce)
    ensures FundsOk(q)
  {
    hide DrawnInto, Sum;
    forall market: MarketRef ensures DrawnInto(q, market) == DrawnInto(r, market) {
      assert IntoMap(q, market) == IntoMap(r, market);
      SameInto(r, q, market);
    }
    forall market: MarketRef ensures MarketFundsOk(q, market) {
      assert MarketFundsOk(r, market);
    }
    assert LeftByAll(q) == LeftByAll(r);
  }

  lemma DoKeepsFunds(s: System, deed: Deed)
    requires FundsOk(s.router)
    ensures FundsOk(Do(s, deed).router)
  {
    hide FundsOk, Submit, SubmitToSlot, Take, Booked, ApplyRoom, NewRoom, RoomConfigOk, BelongsTo;
    if Act(s, deed).Ok? {
      match deed
      case ExecuteDeed(now, c, _, _, market, a) =>
        DrawIsBooked(s, deed);
        if market.SlotOf? {
          PublishedTakesAll(s, now, c, market, a);
        }
        DrawKeepsFunds(s.router, c, market, Submit(s, now, c, market, a).value.0, Act(s, deed).value.router);
      case PullDeed(market, amount) => PullKeepsFunds(s.router, market, amount);
      case ReleaseDeed(_, _, _) => NoFundsMoved(s.router, Act(s, deed).value.router);
      case CancelDeed(_, _) => NoFundsMoved(s.router, Act(s, deed).value.router);
      case _ =>
    }
  }

  lemma PublishedTakesAll(s: System, now: Uint64, c: Commitment, market: MarketRef, a: Answers)
    requires market.SlotOf? && Submit(s, now, c, market, a).Ok?
    ensures Submit(s, now, c, market, a).value.0 == c.amountPerSlot
  {
    hide SubmitToSlot;
    SlotTakesAll(s.self, now, c, s.rooms[market.room], SlotAt(s, market));
  }

  lemma {:induction false} DoAllKeepsFunds(s: System, deeds: seq<Deed>)
    requires FundsOk(s.router)
    ensures FundsOk(DoAll(s, deeds).router)
    decreases |deeds|
  {
    hide FundsOk, Do;
    if deeds != [] {
      DoKeepsFunds(s, deeds[0]);
      DoAllKeepsFunds(Do(s, deeds[0]), deeds[1..]);
    }
  }

  // ---------------------------------------------------------------- theorems

  /** The router's balance is exactly what the markets drawn into have left untaken, and
      together with all that markets have taken it is all that was ever drawn. No
      market has taken more than was drawn into it, and each may take at most what it
      has left, which a pull never fails for. Slots of the factory leave nothing. So
      the router holds nothing exactly when every market has taken all that was drawn
      into it, in particular as long as every policy drawn names a room of the
      factory. */
  lemma BalanceIsUntaken(self: Address, others: set<Address>, rooms: map<Address, Room>, deeds: seq<Deed>)
    ensures
      var s := Ran(self, others, rooms, deeds);
      var r := s.router;
      && r.held == Sum(LeftByAll(r))
      && Sum(r.totalExecuted) == r.held + Sum(r.taken)
      && (forall market: MarketRef ::
            && DrawnInto(r, market) == Get(r.taken, market) + Left(r, market)
            && Get(r.allowance, market) <= Left(r, market)
            && (market.SlotOf? ==> Left(r, market) == 0))
      && (r.held == 0 <==> forall market: MarketRef :: Get(r.taken, market) == DrawnInto(r, market))
      && ((forall c :: c in r.executedSlot ==> c.room !in others) ==> r.held == 0)
  {
    hide Ran, Sum, DrawnInto;
    RanFunds(self, others, rooms, deeds);
    var s := Ran(self, others, rooms, deeds);
    forall market: MarketRef
      ensures DrawnInto(s.router, market) == Get(s.router.taken, market) + Left(s.router, market)
      ensures Get(s.router.allowance, market) <= Left(s.router, market)
      ensures market.SlotOf? ==> Left(s.router, market) == 0
    {
      assert MarketFundsOk(s.router, market);
    }
    NothingLeftIff(s.router);
    if forall c :: c in s.router.executedSlot ==> c.room !in others {
      RanBooks(self, others, rooms, deeds);
      forall market: MarketRef ensures Get(s.router.taken, market) == DrawnInto(s.router, market) {
        assert MarketFundsOk(s.router, market);
        if market.Other? {
          NothingForeign(s, market);
        }
      }
    }
  }

  lemma RanFunds(self: Address, others: set<Address>, rooms: map<Address, Room>, deeds: seq<Deed>)
    ensures FundsOk(Ran(self, others, rooms, deeds).router)
  {
    hide FundsOk, DoAll;
    NewFundsOk(NEW_ROUTER);
    DoAllKeepsFunds(System(self, others, NEW_ROUTER, rooms), deeds);
  }

  lemma NothingLeftIff(r: Router)
    requires FundsOk(r)
    ensures r.held == 0 <==> forall market: MarketRef :: Get(r.taken, market) == DrawnInto(r, market)
  {
    hide Sum, DrawnInto;
    if r.held == 0 {
      forall market: MarketRef ensures Get(r.taken, market) == DrawnInto(r, market) {
        assert MarketFundsOk(r, market);
        SumAtLeast(LeftByAll(r), market);
        assert Get(LeftByAll(r), market) == Left(r, market);
      }
    }
    if forall market: MarketRef :: Get(r.taken, market) == DrawnInto(r, market) {
      AllZero(LeftByAll(r));
    }
  }

  /** Policies of the factory's rooms draw into nothing else. */
  lemma NothingForeign(s: System, market: MarketRef)
    requires BooksOk(s) && market.Other? && forall c :: c in s.router.executedSlot ==> c.room !in s.others
    ensures DrawnInto(s.router, market) == 0
  {
    hide Sum, Active;
    forall c | c in IntoMap(s.router, market) ensures IntoMap(s.router, market)[c] == 0 {
      assert PolicyOk(s, c);
    }
    AllZero(IntoMap(s.router, market));
  }

  /** A later pull by a foreign market succeeds exactly when its allowance covers it. */
  lemma PullIff(self: Address, others: set<Address>, rooms: map<Address, Room>, deeds: seq<Deed>, market: MarketRef,
                amount: nat)
    ensures
      var s := Ran(self, others, rooms, deeds);
      var t := Act(s, PullDeed(market, amount));
      && (t.Ok? <==> IsForeign(s, market) && amount <= Get(s.router.allowance, market))
      && (t.Ok? ==> t.value.router.held == s.router.held - amount)
  {
    hide Ran, FundsOk;
    RanFunds(self, others, rooms, deeds);
    PullKeepsFunds(Ran(self, others, rooms, deeds).router, market, amount);
  }

  // ------------------------------------------- a run that leaves a balance

  const POLICY: Commitment := Commitment(50, 2, [1], 100, 100, 100, 10, 0)

  /** The room and the market of this draw are none of the factory's: the one says that
      the other is its slot, and that one records the addition without taking
      anything. */
  const DRAW: Deed := ExecuteDeed(1, POLICY, 2, true, Other(51), Answers(Ok(true), Ok(1), Ok(0), Ok(false)))

  /** The router can hold a balance between transactions: it does after this draw, which
      it accepts, until the market takes what it was given. */
  lemma RouterCanHold(rooms: map<Address, Room>)
    requires 50 !in rooms
    ensures
      var s := Ran(1, {50, 51}, rooms, [DRAW]);
      && s.router.held == 100 && Get(s.router.allowance, Other(51)) == 100
      && s.router.totalExecuted == map[POLICY := 100]
    ensures Ran(1, {50, 51}, rooms, [DRAW, PullDeed(Other(51), 100)]).router.held == 0
  {
    var s := System(1, {50, 51}, NEW_ROUTER, rooms);
    var pull := PullDeed(Other(51), 100);
    var t := DrawLeavesAll(s);
    var u := PullTakesAll(t);
    hide Act;
    RunOfTwo(s, DRAW, t, pull, u);
  }

  lemma DrawLeavesAll(s: System) returns (t: System)
    requires s.router == NEW_ROUTER && s.others == {50, 51} && 50 !in s.rooms
    ensures Act(s, DRAW) == Ok(t) && t == s.(router := t.router)
    ensures t.router.held == 100 && t.router.allowance == map[Other(51) := 100]
    ensures t.router.totalExecuted == map[POLICY := 100]
  {
    hide ApplyRoom, NewRoom, RoomConfigOk, SubmitToSlot;
    assert [1][0] == 1 && 1 in POLICY.allowedTemplates;
    assert Validate(s.router, 1, POLICY, 2, Other(51), Ok(true), Ok(1)).Ok?;
    t := Act(s, DRAW).value;
  }

  lemma PullTakesAll(t: System) returns (u: System)
    requires t.others == {50, 51} && t.router.held == 100 && t.router.allowance == map[Other(51) := 100]
    ensures Act(t, PullDeed(Other(51), 100)) == Ok(u) && u.router.held == 0
  {
    hide ApplyRoom, NewRoom, RoomConfigOk, SubmitToSlot, Submit, Execute;
    u := Act(t, PullDeed(Other(51), 100)).value;
  }

  lemma RunOfTwo(s: System, a: Deed, t: System, b: Deed, u: System)
    requires Act(s, a) == Ok(t) && Act(t, b) == Ok(u)
    ensures DoAll(s, [a]) == t && DoAll(s, [a, b]) == u
  {
    hide Act;
    assert [a][1..] == [] && DoAll(t, []) == t;
    assert [a, b][1..] == [b] && [b][1..] == [] && DoAll(u, []) == u;
    assert DoAll(t, [b]) == u;
  }
}
