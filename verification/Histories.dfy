/** Concrete runs of a market, each ending in a state that shows a result elsewhere
    to be about something that happens. */
module Histories {
  import opened Prelude
  import opened MarketMath
  import opened Ledger
  import opened LedgerInvariant
  import opened FeeBound
  import opened Market
  import opened MarketInvariant
  import opened MarketRuns
  import opened MarketTheorems
  import opened Reverts
  import opened Rewards

  // --------------------------------------------------------------- the rules

  const GATE: Address := 7
  const WINNER: Address := 8

  /** Ten seconds an epoch, one per cent for the winner; 5 and 6 compete, 11 to 13
      resolve, and the result can be challenged for `window` seconds. */
  function Rules(window: Duration): Config {
    Config(GATE, 5, 6, WINNER, 9, 10, [11, 12, 13], 10, 1, 1000, window, 5, 100, 0, false, ZERO_ADDRESS)
  }

  lemma RulesFacts(window: Duration)
    ensures
      var c := Rules(window);
      && ConfigOk(c)
      && c.gateOracle == GATE && c.participantA == 5 && c.participantB == 6 && c.rewardAddressA == WINNER
      && c.epochDuration == 10 && c.sourceFinalityDelay == 1 && c.maxPendingTime == 1000
      && c.challengeWindow == window && c.winnerRewardBps == 100 && c.opensAt == 0 && !c.roomBound
      && 11 in c.resolvers && 12 in c.resolvers
      && (forall user: Address | 1 <= user <= 4 :: user !in RestrictedBy(c, {}))
  {
    var c := Rules(window);
    assert c.resolvers[0] == 11 && c.resolvers[1] == 12;
  }

  // ------------------------------------------------------------- composition

  /** The run goes from a new market to `m`, and ends at time `t`. */
  ghost predicate Arrives(c: Config, events: seq<Event>, m: Market, t: Uint64) {
    Chronological(0, events) && End(0, events) == t && Reached(c, {}, events) == m
  }

  lemma Begins(c: Config)
    ensures Arrives(c, [], NewMarket(c, {}), 0)
  {
    hide NewMarket;
  }

  lemma {:induction false} RunOn(m: Market, events: seq<Event>, e: Event)
    ensures Run(m, events + [e]) == Step(Run(m, events), e.msg, e.call)
    decreases |events|
  {
    hide Step;
    if events == [] {
      assert events + [e] == [e] && [e][1..] == [];
    } else {
      assert (events + [e])[1..] == events[1..] + [e];
      RunOn(Step(m, events[0].msg, events[0].call), events[1..], e);
    }
  }

  lemma {:induction false} ChronologicalOn(start: Uint64, events: seq<Event>, e: Event)
    requires Chronological(start, events) && End(start, events) <= e.msg.now
    ensures Chronological(start, events + [e]) && End(start, events + [e]) == e.msg.now
    decreases |events|
  {
    if events == [] {
      assert events + [e] == [e] && [e][1..] == [];
    } else {
      assert (events + [e])[1..] == events[1..] + [e];
      ChronologicalOn(events[0].msg.now, events[1..], e);
    }
  }

  /** One more call, which succeeds. */
  lemma Then(c: Config, events: seq<Event>, m: Market, t: Uint64, e: Event, n: Market)
    requires Arrives(c, events, m, t) && t <= e.msg.now && Apply(m, e.msg, e.call) == Ok(n)
    ensures Arrives(c, events + [e], n, e.msg.now)
  {
    hide Apply, Run, Chronological;
    RunOn(NewMarket(c, {}), events, e);
    ChronologicalOn(0, events, e);
  }

  // ------------------------------------------------------------------ rounds

  /** Both bonds are posted, the gate is open with `k` epochs cleared, nothing is
      waiting from epoch `k` on, and there is no result. */
  ghost predicate Idle(m: Market, window: Duration, k: nat) {
    && m.config == Rules(window) && m.restricted == RestrictedBy(Rules(window), {})
    && Get(m.bonds.integrityBondOf, 5) == Get(m.bonds.integrityBondOf, 6) == INTEGRITY_BOND
    && m.gate.state.Open? && m.gate.lastSafeSequence == k
    && (forall e :: e in m.gate.epochSafe ==> e < k)
    && (forall e: Uint64 :: k <= e ==> Ids(m.queue, e) == [] && Get(m.queue.epochCursor, e) == 0)
    && m.ruling == FreshRuling()
    && m.winnerRewardClaimed == {}
  }

  function FreshRuling(): Ruling {
    Ruling(Unset, Unset, 0, 0, map[], map[], false, ZERO_ADDRESS, 0, 0, 0, map[], map[])
  }

  function Opening(): seq<Event> {
    [Event(Msg(5, 1, false), PostBondCall), Event(Msg(6, 1, false), PostBondCall)]
  }

  lemma Opened(window: Duration) returns (m: Market)
    ensures Arrives(Rules(window), Opening(), m, 1) && Idle(m, window, 0)
    ensures m.book.pool == Pool(0, 0) && m.book.fees == FeeIndex(0, 0, 0, map[], map[], map[])
    ensures m.book.rewards.winnerRewardPool == 0 && m.bonds.integrityBondClaimed == {}
  {
    RulesFacts(window);
    var c := Rules(window);
    hide Rules, RestrictedBy, Arrives;
    var m0 := NewMarket(c, {});
    var m1 := PostIntegrityBond(m0, Msg(5, 1, false)).value;
    m := PostIntegrityBond(m1, Msg(6, 1, false)).value;
    Begins(c);
    Then(c, [], m0, 0, Opening()[0], m1);
    Then(c, [] + [Opening()[0]], m1, 1, Opening()[1], m);
    assert [] + [Opening()[0]] + [Opening()[1]] == Opening();
  }

  /** An addition of liquidity in epoch `k`. */
  function Addition(user: Address, amount: nat, k: nat): Action
    requires k < 1000
  {
    Action(AddLiquidity, Pending, user, ZERO_ADDRESS, false, k, 10 * k + 1000, amount, 0)
  }

  /** A purchase in epoch `k`. */
  function Purchase(user: Address, budget: nat, k: nat): Action
    requires k < 1000
  {
    Action(Buy, Pending, user, ZERO_ADDRESS, true, k, 10 * k + 1000, budget, 0)
  }

  predicate Plain(a: Action, k: nat) {
    && k < 1000 && 1 <= a.user <= 4 && 1_000_000 <= a.amount <= 2_000_000
    && (a == Addition(a.user, a.amount, k) || a == Purchase(a.user, a.amount, k))
  }

  function Submission(a: Action, k: nat): Event
    requires Plain(a, k)
  {
    Event(Msg(a.user, 10 * k + 5, false),
          if a.kind.Buy? then BuyCall(true, a.amount, 0, 10 * k + 1000)
            else AddLiquidityCall(a.amount, 0, 10 * k + 1000))
  }

  function Clearance(k: nat): Event
    requires k < 1000
  {
    Event(Msg(GATE, 10 * k + 11, false), MarkSafeCall(k, k + 1))
  }

  function Processing(k: nat, now: Uint64): Event
    requires k < 1000
  {
    Event(Msg(4, now, false), ProcessCall(k, 1))
  }

  /** Submits an action, clears its epoch and processes it. */
  function Round(a: Action, k: nat): seq<Event>
    requires Plain(a, k)
  {
    [Submission(a, k), Clearance(k), Processing(k, 10 * k + 11)]
  }

  lemma EpochAt(c: Config, k: nat, now: Uint64)
    requires c.epochDuration == 10 && k <= 1000 && 10 * k <= now < 10 * k + 10
    ensures CurrentEpoch(c, now) == k
  {
  }

  lemma Submitted(m: Market, window: Duration, a: Action, k: nat)
    requires Idle(m, window, k) && Plain(a, k) && (a.kind.Buy? ==> HasLiquidity(m))
    ensures
      var e := Submission(a, k);
      Apply(m, e.msg, e.call) == Ok(RecordAction(Escrow(m, a.amount), a))
  {
    RulesFacts(window);
    EpochAt(m.config, k, 10 * k + 5);
    hide Rules, RestrictedBy, CurrentEpoch, Ids;
  }

  /** The action `id` of epoch `k` alone is waiting, and the epoch is cleared. */
  ghost predicate Waiting(m: Market, a: Action, k: nat, id: nat) {
    && k < 1000
    && Ids(m.queue, k) == [id] && id < |m.queue.actions| && m.queue.actions[id] == a
    && Get(m.queue.epochCursor, k) == 0 && k in m.gate.epochSafe
    && (forall e: Uint64 :: k < e ==> Ids(m.queue, e) == [] && Get(m.queue.epochCursor, e) == 0)
  }

  /** Submitted and cleared: the action waits, its collateral in escrow. */
  lemma Cleared(m: Market, window: Duration, a: Action, k: nat) returns (n: Market)
    requires Idle(m, window, k) && Plain(a, k)
    ensures
      var e, submitted := Clearance(k), RecordAction(Escrow(m, a.amount), a);
      Apply(submitted, e.msg, e.call) == Ok(n)
    ensures n.book == Receive(m.book, a.amount).(pendingCollateral := m.book.pendingCollateral + a.amount)
    ensures Waiting(n, a, k, |m.queue.actions|) && n == m.(gate := n.gate, queue := n.queue, book := n.book)
    ensures n.gate == m.gate.(epochSafe := n.gate.epochSafe, epochSafeSequence := n.gate.epochSafeSequence,
                              lastSafeSequence := k + 1)
    ensures forall e :: e in n.gate.epochSafe ==> e <= k
  {
    RulesFacts(window);
    EpochAt(m.config, k + 1, 10 * k + 11);
    hide Rules, RestrictedBy, CurrentEpoch;
    var submitted := RecordAction(Escrow(m, a.amount), a);
    n := MarkEpochSafe(submitted, Msg(GATE, 10 * k + 11, false), k, k + 1).value;
    OneWaiting(m, a, k, n);
  }

  lemma OneWaiting(m: Market, a: Action, k: Uint64, n: Market)
    requires n.queue == RecordAction(Escrow(m, a.amount), a).queue && a.epoch == k
    requires forall e: Uint64 :: k <= e ==> Ids(m.queue, e) == [] && Get(m.queue.epochCursor, e) == 0
    ensures Ids(n.queue, k) == [|m.queue.actions|] && Get(n.queue.epochCursor, k) == 0
    ensures forall e: Uint64 :: k < e ==> Ids(n.queue, e) == [] && Get(n.queue.epochCursor, e) == 0
  {
    assert Ids(m.queue, k) == [] && Get(m.queue.epochCursor, k) == 0;
    forall e: Uint64 | k < e ensures Ids(n.queue, e) == [] && Get(n.queue.epochCursor, e) == 0 {
      assert Ids(m.queue, e) == [] && Get(m.queue.epochCursor, e) == 0;
    }
  }

  /** Processes the one action waiting in epoch `k`. */
  lemma Processed(m: Market, a: Action, k: nat, id: nat, now: Uint64, b: Book, returned: nat) returns (n: Market)
    requires Waiting(m, a, k, id) && a.status.Pending? && now <= a.deadline
    requires m.gate.state.Closed? ==> k < m.gate.closedEpoch
    requires TryExecute(m.book, a, m.config.winnerRewardBps) == Ok(Filled(b, returned))
    ensures
      var e := Processing(k, now);
      Apply(m, e.msg, e.call) == Ok(n)
    ensures n == m.(book := b, queue := n.queue)
    ensures forall e: Uint64 :: k < e ==> Ids(n.queue, e) == [] && Get(n.queue.epochCursor, e) == 0
  {
    hide TryExecute, Refund;
    n := SettleNext(m, now, k).value;
    assert Drain(m, now, k, 1) == Ok(n) by {
      hide SettleNext;
      DrainNothing(n, now, k);
    }
    forall e: Uint64 | k < e ensures Ids(n.queue, e) == [] && Get(n.queue.epochCursor, e) == 0 {
      assert Ids(m.queue, e) == [] && Get(m.queue.epochCursor, e) == 0;
    }
  }

  /** The book after escrowing and executing one action. */
  function Settle(b: Book, a: Action): Result<Fill> {
    hide TryExecute;
    TryExecute(Receive(b, a.amount).(pendingCollateral := b.pendingCollateral + a.amount), a, MAX_WINNER_REWARD_BPS)
  }

  /** A round executes its action. */
  lemma RoundSettles(events: seq<Event>, m: Market, t: Uint64, window: Duration, a: Action, k: nat) returns (n: Market)
    requires Arrives(Rules(window), events, m, t) && Idle(m, window, k) && t <= 10 * k + 5
    requires Plain(a, k) && (a.kind.Buy? ==> HasLiquidity(m))
    requires Settle(m.book, a).Ok? && Settle(m.book, a).value.Filled?
    ensures Arrives(Rules(window), events + Round(a, k), n, 10 * k + 11) && Idle(n, window, k + 1)
    ensures n.book == Settle(m.book, a).value.book
  {
    RulesFacts(window);
    var c := Rules(window);
    hide Rules, RestrictedBy, Arrives, Apply, TryExecute, Waiting;
    var submitted := RecordAction(Escrow(m, a.amount), a);
    Submitted(m, window, a, k);
    var cleared := Cleared(m, window, a, k);
    n := Processed(cleared, a, k, |m.queue.actions|, 10 * k + 11, Settle(m.book, a).value.book,
                   Settle(m.book, a).value.returned);
    Then(c, events, m, t, Submission(a, k), submitted);
    Then(c, events + [Submission(a, k)], submitted, 10 * k + 5, Clearance(k), cleared);
    Then(c, events + [Submission(a, k)] + [Clearance(k)], cleared, 10 * k + 11, Processing(k, 10 * k + 11), n);
    assert events + [Submission(a, k)] + [Clearance(k)] + [Processing(k, 10 * k + 11)] == events + Round(a, k);
  }

  // -------------------------------------------------------- three providers

  lemma AdditionStands(b: Book, a: Action, q: LiquidityQuote)
    requires a.kind.AddLiquidity? && a.minimumReturn == 0
    requires QuoteLiquidity(b.pool, b.fees.totalLpShares, a.amount) == Ok(q)
    requires 0 < q.shares && q.addedA <= a.amount && q.addedB <= a.amount
    requires a.user !in b.fees.lpShares && a.user !in b.fees.lpFeeDebt
    ensures
      var r := Settle(b, a);
      && r.Ok? && r.value.Filled?
      && r.value.book.pool == Pool(b.pool.reserveA + q.addedA, b.pool.reserveB + q.addedB)
      && r.value.book.fees == FeeIndex(b.fees.totalLpShares + q.shares, b.fees.feePerShare, b.fees.unclaimedLpFees,
                                       b.fees.lpShares[a.user := q.shares],
                                       b.fees.lpFeeDebt[a.user := MulDiv(q.shares, b.fees.feePerShare, FEE_SCALE)],
                                       b.fees.lpFeeCredit)
      && r.value.book.rewards == b.rewards && r.value.book.pendingCollateral == b.pendingCollateral
  {
    hide QuoteLiquidity, MulDiv;
    NoSharesNothingAccumulated(b.fees.feePerShare);
  }

  lemma PurchaseStands(b: Book, a: Action, q: BuyQuote)
    requires a.kind.Buy? && a.outcomeA && a.minimumReturn == 0
    requires QuoteBuy(b.pool.reserveA, b.pool.reserveB, a.amount, MAX_WINNER_REWARD_BPS) == Ok(q)
    requires 0 < q.positionsOut && 0 < q.liquidityFee && 0 < b.fees.totalLpShares
    ensures
      var r := Settle(b, a);
      && r.Ok? && r.value.Filled?
      && r.value.book.pool == Pool(q.newSelectedReserve, q.newOtherReserve)
      && r.value.book.fees == Distribute(b.fees, q.liquidityFee)
  {
    hide QuoteBuy, MulDiv;
  }

  /** Three providers and two purchases, one a round, and the claims of the first two
      providers. */
  function ThreeProviders(): seq<Event> {
    Opening()
    + Round(Addition(1, 2_000_000, 0), 0) + Round(Purchase(4, 1_000_334, 1), 1)
    + Round(Addition(2, 1_493_665, 2), 2) + Round(Addition(3, 1_493_665, 3), 3)
    + Round(Purchase(4, 1_000_667, 4), 4)
    + [Event(Msg(1, 60, false), ClaimFeesCall)] + [Event(Msg(2, 60, false), ClaimFeesCall)]
  }

  lemma FirstRounds() returns (m: Market)
    ensures Arrives(Rules(5), Opening() + Round(Addition(1, 2_000_000, 0), 0) + Round(Purchase(4, 1_000_334, 1), 1), m,
                    21)
    ensures Idle(m, 5, 2)
    ensures m.book.pool == Pool(1_338_989, 2_987_330)
    ensures m.book.fees == FeeIndex(2_000_000, 1_500_500_000_000_000, 3001, map[1 := 2_000_000], map[1 := 0], map[])
  {
    hide Settle, Arrives, Idle;
    var m0 := Opened(5);
    AdditionStands(m0.book, Addition(1, 2_000_000, 0), LiquidityQuote(2_000_000, 2_000_000, 2_000_000));
    var m1 := RoundSettles(Opening(), m0, 1, 5, Addition(1, 2_000_000, 0), 0);
    PurchaseStands(m1.book, Purchase(4, 1_000_334, 1),
                   BuyQuote(987_330, 10_003, 3001, 1_648_341, 1_338_989, 2_987_330));
    m := RoundSettles(Opening() + Round(Addition(1, 2_000_000, 0), 0), m1, 11, 5, Purchase(4, 1_000_334, 1), 1);
  }

  lemma SecondProvider(events: seq<Event>, m: Market) returns (n: Market)
    requires Arrives(Rules(5), events, m, 21) && Idle(m, 5, 2)
    requires m.book.pool == Pool(1_338_989, 2_987_330)
    requires m.book.fees == FeeIndex(2_000_000, 1_500_500_000_000_000, 3001, map[1 := 2_000_000], map[1 := 0], map[])
    ensures Arrives(Rules(5), events + Round(Addition(2, 1_493_665, 2), 2), n, 31) && Idle(n, 5, 3)
    ensures n.book.pool == Pool(2_008_483, 4_480_995)
    ensures n.book.fees == FeeIndex(3_000_000, 1_500_500_000_000_000, 3001, map[1 := 2_000_000, 2 := 1_000_000],
                                    map[1 := 0, 2 := 1500], map[])
  {
    hide Settle, Arrives, Idle;
    AdditionStands(m.book, Addition(2, 1_493_665, 2), LiquidityQuote(1_000_000, 669_494, 1_493_665));
    n := RoundSettles(events, m, 21, 5, Addition(2, 1_493_665, 2), 2);
  }

  lemma ThirdProvider(events: seq<Event>, m: Market) returns (n: Market)
    requires Arrives(Rules(5), events, m, 31) && Idle(m, 5, 3)
    requires m.book.pool == Pool(2_008_483, 4_480_995)
    requires m.book.fees == FeeIndex(3_000_000, 1_500_500_000_000_000, 3001, map[1 := 2_000_000, 2 := 1_000_000],
                                     map[1 := 0, 2 := 1500], map[])
    ensures Arrives(Rules(5), events + Round(Addition(3, 1_493_665, 3), 3), n, 41) && Idle(n, 5, 4)
    ensures n.book.pool == Pool(2_677_977, 5_974_660)
    ensures n.book.fees == FeeIndex(4_000_000, 1_500_500_000_000_000, 3001,
                                    map[1 := 2_000_000, 2 := 1_000_000, 3 := 1_000_000],
                                    map[1 := 0, 2 := 1500, 3 := 1500], map[])
  {
    hide Settle, Arrives, Idle;
    AdditionStands(m.book, Addition(3, 1_493_665, 3), LiquidityQuote(1_000_000, 669_494, 1_493_665));
    n := RoundSettles(events, m, 31, 5, Addition(3, 1_493_665, 3), 3);
  }

  lemma LastPurchase(events: seq<Event>, m: Market) returns (n: Market)
    requires Arrives(Rules(5), events, m, 41) && Idle(m, 5, 4)
    requires m.book.pool == Pool(2_677_977, 5_974_660)
    requires m.book.fees == FeeIndex(4_000_000, 1_500_500_000_000_000, 3001,
                                     map[1 := 2_000_000, 2 := 1_000_000, 3 := 1_000_000],
                                     map[1 := 0, 2 := 1500, 3 := 1500], map[])
    ensures Arrives(Rules(5), events + Round(Purchase(4, 1_000_667, 4), 4), n, 51)
    ensures n.book.fees == FeeIndex(4_000_000, 2_251_000_000_000_000, 6003,
                                    map[1 := 2_000_000, 2 := 1_000_000, 3 := 1_000_000],
                                    map[1 := 0, 2 := 1500, 3 := 1500], map[])
  {
    hide Settle, Arrives, Idle;
    PurchaseStands(m.book, Purchase(4, 1_000_667, 4), BuyQuote(987_659, 10_006, 3002, 1_367_550, 2_298_086, 6_962_319));
    n := RoundSettles(events, m, 41, 5, Purchase(4, 1_000_667, 4), 4);
  }

  lemma Claims(f: FeeIndex)
    requires f == FeeIndex(4_000_000, 2_251_000_000_000_000, 6003,
                           map[1 := 2_000_000, 2 := 1_000_000, 3 := 1_000_000],
                           map[1 := 0, 2 := 1500, 3 := 1500], map[])
    ensures OwedTo(f, [1, 2, 3]) == f.unclaimedLpFees + 1
    ensures TakeFees(f, 1).Ok? && TakeFees(TakeFees(f, 1).value.0, 2).Ok?
    ensures
      var g := TakeFees(TakeFees(f, 1).value.0, 2).value.0;
      Owed(g, 3) == g.unclaimedLpFees + 1 && TakeFees(g, 3) == Revert(Panic)
  {
    ThreeAccumulate(f);
    AllOwed(f);
    hide MulDiv, OwedTo, Accumulated;
    var f1 := TakeFees(f, 1).value.0;
    SameAccumulation(f, f1);
    assert f1.unclaimedLpFees == 1501 && Get(f1.lpFeeCredit, 2) == 0 && Get(f1.lpFeeDebt, 2) == 1500;
    var f2 := TakeFees(f1, 2).value.0;
    SameAccumulation(f1, f2);
    assert f2.unclaimedLpFees == 750 && Get(f2.lpFeeCredit, 3) == 0 && Get(f2.lpFeeDebt, 3) == 1500;
  }

  lemma ThreeAccumulate(f: FeeIndex)
    requires f.feePerShare == 2_251_000_000_000_000
    requires f.lpShares == map[1 := 2_000_000, 2 := 1_000_000, 3 := 1_000_000]
    ensures Accumulated(f, 1) == 4502 && Accumulated(f, 2) == Accumulated(f, 3) == 2251
  {
    hide MulDiv;
    assert MulDiv(2_000_000, 2_251_000_000_000_000, FEE_SCALE) == 4502;
    assert MulDiv(1_000_000, 2_251_000_000_000_000, FEE_SCALE) == 2251;
  }

  lemma AllOwed(f: FeeIndex)
    requires Accumulated(f, 1) == 4502 && Accumulated(f, 2) == Accumulated(f, 3) == 2251 && f.lpFeeCredit == map[]
    requires f.lpFeeDebt == map[1 := 0, 2 := 1500, 3 := 1500]
    ensures OwedTo(f, [1, 2, 3]) == 6004
  {
    hide Accumulated;
    assert [2, 3][1..] == [3] && OwedTo(f, [3]) == 751;
    assert [1, 2, 3][1..] == [2, 3] && OwedTo(f, [2, 3]) == 1502;
  }

  lemma SameAccumulation(f: FeeIndex, g: FeeIndex)
    requires g.feePerShare == f.feePerShare && g.lpShares == f.lpShares
    ensures forall p: Address :: Accumulated(g, p) == Accumulated(f, p)
  {
  }

  /** A claim of fees in a reached state takes them and succeeds, if it can. */
  lemma FeesClaimed(c: Config, events: seq<Event>, m: Market, t: Uint64, user: Address, now: Uint64) returns (n: Market)
    requires ConfigOk(c) && Arrives(c, events, m, t) && t <= now && TakeFees(m.book.fees, user).Ok?
    ensures Arrives(c, events + [Event(Msg(user, now, false), ClaimFeesCall)], n, now)
    ensures n.book.fees == TakeFees(m.book.fees, user).value.0
  {
    hide Run, Inv, TakeFees, Panics;
    NoUnexpectedReverts(c, {}, 0, events, Msg(user, now, false), ClaimFeesCall);
    n := ClaimFees(m, Msg(user, now, false)).value;
    hide Arrives;
    Then(c, events, m, t, Event(Msg(user, now, false), ClaimFeesCall), n);
  }

  /** The fee bound is met: after this run of the contract the third provider is
      owed one unit more than is set aside, and the claim reverts on an underflow. */
  lemma ThirdProviderCannotClaim()
    ensures ConfigOk(Rules(5)) && Chronological(0, ThreeProviders())
    ensures
      var m := Reached(Rules(5), {}, ThreeProviders());
      && Owed(m.book.fees, 3) == m.book.fees.unclaimedLpFees + 1
      && ClaimFees(m, Msg(3, 60, false)) == Revert(Panic)
  {
    hide Arrives, Idle, TakeFees, Owed, OwedTo, Round, Opening, Rules;
    RulesFacts(5);
    var e1 := Opening() + Round(Addition(1, 2_000_000, 0), 0) + Round(Purchase(4, 1_000_334, 1), 1);
    var m1 := FirstRounds();
    var e2 := e1 + Round(Addition(2, 1_493_665, 2), 2);
    var m2 := SecondProvider(e1, m1);
    var e3 := e2 + Round(Addition(3, 1_493_665, 3), 3);
    var m3 := ThirdProvider(e2, m2);
    var e4 := e3 + Round(Purchase(4, 1_000_667, 4), 4);
    var m4 := LastPurchase(e3, m3);
    Claims(m4.book.fees);
    var m5 := FeesClaimed(Rules(5), e4, m4, 51, 1, 60);
    var m6 := FeesClaimed(Rules(5), e4 + [Event(Msg(1, 60, false), ClaimFeesCall)], m5, 60, 2, 60);
    Arrived(Rules(5), ThreeProviders(), m6, 60);
  }

  lemma Arrived(c: Config, events: seq<Event>, m: Market, t: Uint64)
    requires Arrives(c, events, m, t)
    ensures Chronological(0, events) && End(0, events) == t && Reached(c, {}, events) == m
  {
  }

  // ------------------------------------------------------------ late rewards

  /** A purchase without a minimum always fills, and pays its fee into the pool. */
  lemma PurchaseFills(b: Book, a: Action)
    requires a.kind.Buy? && a.minimumReturn == 0 && 0 < a.amount <= b.pendingCollateral
    ensures
      var r := TryExecute(b, a, MAX_WINNER_REWARD_BPS);
      && r.Ok? && r.value.Filled?
      && r.value.book.rewards.winnerRewardPool
        == b.rewards.winnerRewardPool + MulDiv(a.amount, MAX_WINNER_REWARD_BPS, BPS)
      && r.value.book.fees.totalLpShares == b.fees.totalLpShares
      && r.value.book.pendingCollateral == b.pendingCollateral - a.amount
  {
    hide MulDiv, MulDivCeil, QuoteBuy;
    BuyQuoteSound(Reserve(b.pool, a.outcomeA), Reserve(b.pool, !a.outcomeA), a.amount, MAX_WINNER_REWARD_BPS);
    BuyFee(Reserve(b.pool, a.outcomeA), Reserve(b.pool, !a.outcomeA), a.amount);
  }

  lemma BuyFee(selected: nat, other: nat, budget: nat)
    ensures
      var q := QuoteBuy(selected, other, budget, MAX_WINNER_REWARD_BPS);
      q.Ok? ==> q.value.winnerRewardFee == MulDiv(budget, MAX_WINNER_REWARD_BPS, BPS)
  {
    hide MulDiv, MulDivCeil;
  }

  /** The gate closes at `sequence`, and two resolvers find that A won. */
  function Verdicts(now: Uint64, sequence: nat): seq<Event> {
    [Event(Msg(GATE, now, false), CloseCall(sequence))]
    + [Event(Msg(11, now, false), AttestCall(ParticipantA, 1))]
    + [Event(Msg(12, now, false), AttestCall(ParticipantA, 1))]
  }

  lemma Attests(r: Ruling, now: Uint64)
    requires r == FreshRuling()
    ensures
      var s := Attested(Attested(r, 11, ParticipantA, 1, now), 12, ParticipantA, 1, now);
      && 12 !in AttestedBy(Attested(r, 11, ParticipantA, 1, now), (ParticipantA, 1))
      && Attested(r, 11, ParticipantA, 1, now).provisionalOutcome.Unset?
      && Attested(r, 11, ParticipantA, 1, now).finalOutcome.Unset?
      && AwaitsWindow(s) && s.provisionalOutcome.ParticipantA? && s.provisionalAt == now
  {
  }

  lemma Ruled(events: seq<Event>, m: Market, t: Uint64, window: Duration, now: Uint64, sequence: nat)
    returns (n: Market)
    requires Arrives(Rules(window), events, m, t) && t <= now < 1000
    requires m.config == Rules(window) && m.ruling == FreshRuling() && !m.gate.state.Closed?
      && m.gate.lastSafeSequence < sequence
    ensures Arrives(Rules(window), events + Verdicts(now, sequence), n, now)
    ensures AwaitsWindow(n.ruling) && n.ruling.provisionalOutcome.ParticipantA? && n.ruling.provisionalAt == now
    ensures n == m.(gate := n.gate, ruling := n.ruling)
    ensures n.gate.epochSafe == m.gate.epochSafe && n.gate.state.Closed?
      && n.gate.closedEpoch == CurrentEpoch(m.config, now)
  {
    RulesFacts(window);
    var c := Rules(window);
    hide Rules, Arrives, CurrentEpoch, Attested, AttestedBy;
    Attests(m.ruling, now);
    assert AttestedBy(m.ruling, (ParticipantA, 1)) == {} by {
      NobodyYet(m.ruling);
    }
    var closed := CloseForDecisiveEvent(m, Msg(GATE, now, false), sequence).value;
    var one := AttestResult(closed, Msg(11, now, false), ParticipantA, 1).value;
    n := AttestResult(one, Msg(12, now, false), ParticipantA, 1).value;
    var first, second, third := Verdicts(now, sequence)[0], Verdicts(now, sequence)[1], Verdicts(now, sequence)[2];
    Then(c, events, m, t, first, closed);
    Then(c, events + [first], closed, now, second, one);
    Then(c, events + [first] + [second], one, now, third, n);
    assert events + [first] + [second] + [third] == events + Verdicts(now, sequence);
  }

  lemma NobodyYet(r: Ruling)
    requires r == FreshRuling()
    ensures AttestedBy(r, (ParticipantA, 1)) == {}
  {
  }

  /** An addition and a purchase executed; a second purchase submitted and its epoch
      cleared but not processed; the gate closed, the outcome final, the reward
      claimed; and then the stale epoch processed. */
  function LateRewards(): seq<Event> {
    Opening()
    + Round(Addition(1, 2_000_000, 0), 0) + Round(Purchase(4, 1_000_000, 1), 1)
    + [Submission(Purchase(4, 1_000_000, 2), 2)] + [Clearance(2)]
    + Verdicts(31, 4)
    + [Event(Msg(4, 36, false), FinalizeCall)]
    + [Event(Msg(WINNER, 36, false), ClaimRewardCall)]
    + [Processing(2, 36)]
  }

  /** Two rounds, and one purchase waiting in a cleared epoch. */
  lemma StaleEpoch() returns (m: Market, id: nat)
    ensures Arrives(Rules(5), Opening() + Round(Addition(1, 2_000_000, 0), 0) + Round(Purchase(4, 1_000_000, 1), 1)
                              + [Submission(Purchase(4, 1_000_000, 2), 2)] + [Clearance(2)], m, 31)
    ensures Waiting(m, Purchase(4, 1_000_000, 2), 2, id)
    ensures m.config == Rules(5) && m.ruling == FreshRuling() && m.gate.state.Open? && m.gate.lastSafeSequence == 3
    ensures m.winnerRewardClaimed == {} && m.book.rewards.winnerRewardPool == 10_000
      && 1_000_000 <= m.book.pendingCollateral
  {
    hide Settle, Arrives, Ids;
    var m0 := Opened(5);
    var a0, a1, a2 := Addition(1, 2_000_000, 0), Purchase(4, 1_000_000, 1), Purchase(4, 1_000_000, 2);
    AdditionStands(m0.book, a0, LiquidityQuote(2_000_000, 2_000_000, 2_000_000));
    var m1 := RoundSettles(Opening(), m0, 1, 5, a0, 0);
    SettleFills(m1.book, a1);
    var m2 := RoundSettles(Opening() + Round(a0, 0), m1, 11, 5, a1, 1);
    Submitted(m2, 5, a2, 2);
    m := Cleared(m2, 5, a2, 2);
    id := |m2.queue.actions|;
    var e := Opening() + Round(a0, 0) + Round(a1, 1);
    hide Round, Opening, Rules;
    Then(Rules(5), e, m2, 21, Submission(a2, 2), RecordAction(Escrow(m2, 1_000_000), a2));
    Then(Rules(5), e + [Submission(a2, 2)], RecordAction(Escrow(m2, 1_000_000), a2), 25, Clearance(2), m);
  }

  lemma SettleFills(b: Book, a: Action)
    requires a.kind.Buy? && a.minimumReturn == 0 && a.amount == 1_000_000
    ensures
      var r := Settle(b, a);
      && r.Ok? && r.value.Filled?
      && r.value.book.rewards.winnerRewardPool == b.rewards.winnerRewardPool + 10_000
      && r.value.book.fees.totalLpShares == b.fees.totalLpShares
  {
    hide TryExecute;
    PurchaseFills(Receive(b, a.amount).(pendingCollateral := b.pendingCollateral + a.amount), a);
  }

  /** Late rewards happen: after this run of accepted calls the winner has claimed,
      the pool holds 10,000 units, and nobody can claim them, now or ever. */
  lemma LateRewardsHappen(more: seq<Event>, msg: Msg)
    ensures ConfigOk(Rules(5)) && Chronological(0, LateRewards())
    ensures
      var m := Reached(Rules(5), {}, LateRewards());
      && m.ruling.finalOutcome.ParticipantA? && m.winnerRewardClaimed == {WINNER}
      && m.book.rewards.winnerRewardPool == 10_000
      && ClaimWinnerReward(Run(m, more), msg).Revert? && ClaimInvalidWinnerFeeRefund(Run(m, more), msg).Revert?
  {
    RulesFacts(5);
    var c := Rules(5);
    hide Arrives, Rules, Run, ClaimWinnerReward, ClaimInvalidWinnerFeeRefund, TryExecute, Round, Opening;
    var a := Purchase(4, 1_000_000, 2);
    var m1, id := StaleEpoch();
    var e1 := Opening() + Round(Addition(1, 2_000_000, 0), 0) + Round(Purchase(4, 1_000_000, 1), 1)
              + [Submission(a, 2)] + [Clearance(2)];
    var m2 := Ruled(e1, m1, 31, 5, 31, 4);
    EpochAt(c, 3, 31);
    var m3 := FinalizeUnchallenged(m2, Msg(4, 36, false)).value;
    Then(c, e1 + Verdicts(31, 4), m2, 31, Event(Msg(4, 36, false), FinalizeCall), m3);
    var e3 := e1 + Verdicts(31, 4) + [Event(Msg(4, 36, false), FinalizeCall)];
    var m4 := WinnerClaims(e3, m3);
    var e4 := e3 + [Event(Msg(WINNER, 36, false), ClaimRewardCall)];
    PurchaseFills(m4.book, a);
    var fill := TryExecute(m4.book, a, MAX_WINNER_REWARD_BPS).value;
    var m5 := Processed(m4, a, 2, id, 36, fill.book, fill.returned);
    Then(c, e4, m4, 36, Processing(2, 36), m5);
    Arrived(c, LateRewards(), m5, 36);
    LateRewardsAreLocked(c, {}, LateRewards(), more, msg);
  }

  lemma WinnerClaims(events: seq<Event>, m: Market) returns (n: Market)
    requires Arrives(Rules(5), events, m, 36)
    requires m.config == Rules(5) && m.ruling.finalOutcome.ParticipantA? && m.winnerRewardClaimed == {}
    requires m.book.rewards.winnerRewardPool != 0
    ensures Arrives(Rules(5), events + [Event(Msg(WINNER, 36, false), ClaimRewardCall)], n, 36)
    ensures n.winnerRewardClaimed == {WINNER} && n.book.rewards.winnerRewardPool == 0
    ensures n == m.(book := n.book, winnerRewardClaimed := n.winnerRewardClaimed)
    ensures n.book.pendingCollateral == m.book.pendingCollateral
  {
    RulesFacts(5);
    hide Rules, Run;
    RewardClaimIff(Rules(5), {}, 0, events, Msg(WINNER, 36, false));
    n := ClaimWinnerReward(m, Msg(WINNER, 36, false)).value;
    hide Arrives;
    Then(Rules(5), events, m, 36, Event(Msg(WINNER, 36, false), ClaimRewardCall), n);
  }

  // ----------------------------------------------------------- reposted bond

  /** Both bonds posted, the outcome final, one bond claimed back, and posted again. */
  function Reposting(): seq<Event> {
    Opening() + Verdicts(1, 1)
    + [Event(Msg(4, 6, false), FinalizeCall)]
    + [Event(Msg(5, 6, false), ClaimBondCall)]
    + [Event(Msg(5, 6, false), PostBondCall)]
  }

  /** A bond is posted again after its claim in this run of accepted calls, and no claim
      of it ever succeeds. */
  lemma RepostHappens(more: seq<Event>, now: Uint64)
    ensures ConfigOk(Rules(5)) && Chronological(0, Reposting())
    ensures
      var m := Reached(Rules(5), {}, Reposting());
      && 5 in m.bonds.integrityBondClaimed && Get(m.bonds.integrityBondOf, 5) == INTEGRITY_BOND
      && INTEGRITY_BOND <= m.book.purse.held
      && ClaimIntegrityBond(Run(m, more), Msg(5, now, false)).Revert?
  {
    RulesFacts(5);
    var c := Rules(5);
    hide Arrives, Rules, Run, Opening;
    var e2, m2 := FinalWithBonds();
    Arrived(c, e2, m2, 6);
    BondClaimIff(c, {}, 0, e2, Msg(5, 6, false));
    hide ClaimIntegrityBond, PostIntegrityBond, Verdicts;
    var claim, post := Event(Msg(5, 6, false), ClaimBondCall), Event(Msg(5, 6, false), PostBondCall);
    var m3 := ClaimIntegrityBond(m2, Msg(5, 6, false)).value;
    Then(c, e2, m2, 6, claim, m3);
    RepostedBondIsLocked(c, {}, e2, Msg(5, 6, false), Msg(5, 6, false), more, Msg(5, now, false));
    var m4 := PostIntegrityBond(m3, Msg(5, 6, false)).value;
    Then(c, e2 + [claim], m3, 6, post, m4);
    Arrived(c, Reposting(), m4, 6);
    ClaimIsMarked(m2, m3, m4);
  }

  lemma ClaimIsMarked(m2: Market, m3: Market, m4: Market)
    requires ClaimIntegrityBond(m2, Msg(5, 6, false)) == Ok(m3)
    requires PostIntegrityBond(m3, Msg(5, 6, false)) == Ok(m4)
    ensures 5 in m4.bonds.integrityBondClaimed && INTEGRITY_BOND <= m4.book.purse.held
  {
  }

  /** The market is final, with both bonds posted and none claimed. */
  lemma FinalWithBonds() returns (events: seq<Event>, m: Market)
    ensures events == Opening() + Verdicts(1, 1) + [Event(Msg(4, 6, false), FinalizeCall)]
    ensures Arrives(Rules(5), events, m, 6)
    ensures m.config == Rules(5) && !m.ruling.finalOutcome.Unset? && m.bonds.integrityBondClaimed == {}
    ensures Get(m.bonds.integrityBondOf, 5) == INTEGRITY_BOND
  {
    RulesFacts(5);
    hide Arrives, Rules, Opening;
    var m0 := Opened(5);
    var m1 := Ruled(Opening(), m0, 1, 5, 1, 1);
    m := FinalizeUnchallenged(m1, Msg(4, 6, false)).value;
    events := Opening() + Verdicts(1, 1) + [Event(Msg(4, 6, false), FinalizeCall)];
    Then(Rules(5), Opening() + Verdicts(1, 1), m1, 1, Event(Msg(4, 6, false), FinalizeCall), m);
  }

  // --------------------------------------------------------- overlong window

  /** The longest window that a market can be created with. */
  const LONGEST_WINDOW: Duration := TWO_64 - 1

  /** A market whose window ends beyond the clock is accepted, can be brought to a
      provisional result within its first second, and is then stuck for ever:
      challenging and finalizing fail on arithmetic, and no run makes it final. */
  lemma OverlongWindowHappens(more: seq<Event>, anyone: Address, now: Uint64, evidence: nat, bond: nat)
    requires 1 <= now
    ensures ConfigOk(Rules(LONGEST_WINDOW)) && Chronological(0, Verdicts(1, 1))
    ensures
      var m := Reached(Rules(LONGEST_WINDOW), {}, Verdicts(1, 1));
      && ChallengeResult(m, Msg(anyone, now, false), evidence, bond) == Revert(Panic)
      && FinalizeUnchallenged(m, Msg(anyone, now, false)) == Revert(Panic)
      && Run(m, more).ruling.finalOutcome.Unset?
  {
    RulesFacts(LONGEST_WINDOW);
    var c := Rules(LONGEST_WINDOW);
    Begins(c);
    var m := Ruled([], NewMarket(c, {}), 0, LONGEST_WINDOW, 1, 1);
    assert [] + Verdicts(1, 1) == Verdicts(1, 1);
    hide Run, Rules;
    Arrived(c, Verdicts(1, 1), m, 1);
    OverlongWindowStrands(c, {}, Verdicts(1, 1), more, Msg(anyone, now, false));
  }
}
