/** What holders and providers are paid once the outcome is known: each payout, and all
    redemptions of a whole run together. */
module Payouts {
  import opened Prelude
  import opened MarketMath
  import opened Ledger
  import opened LedgerInvariant
  import opened Market
  import opened MarketInvariant
  import opened MarketRuns
  import opened MarketTheorems
  import opened UserEffects

  /** What all positions of `p` are worth, rounded down. */
  function Redeemable(m: Market, p: Address): nat {
    ResolvedValue(m.ruling.finalOutcome, PositionOf(m.book.wallets, p, true), PositionOf(m.book.wallets, p, false))
  }

  predicate HoldsPositions(m: Market, p: Address) {
    PositionOf(m.book.wallets, p, true) + PositionOf(m.book.wallets, p, false) != 0
  }

  /** From `m` to `n`, `p` has redeemed: all its positions for their worth, out of the
      balance and the backing, and nobody else's holdings moved. */
  ghost predicate HasRedeemed(m: Market, n: Market, p: Address) {
    && n == m.(book := n.book)
    && PositionOf(n.book.wallets, p, true) == PositionOf(n.book.wallets, p, false) == 0
    && Get(n.book.purse.sent, p) == Get(m.book.purse.sent, p) + Redeemable(m, p)
    && n.book.purse.held == m.book.purse.held - Redeemable(m, p)
    && n.book.collateralBacking == m.book.collateralBacking - Redeemable(m, p)
    && (forall q: Address | q != p :: SameHoldings(m.book, n.book, q))
  }

  lemma RedemptionEffect(m: Market, t: Uint64, msg: Msg)
    requires Inv(m, t) && !m.ruling.finalOutcome.Unset?
    ensures
      var n := Redeem(m, msg);
      && (n.Ok? <==> HoldsPositions(m, msg.sender))
      && (n.Ok? ==> HasRedeemed(m, n.value, msg.sender))
      && PaysWorth(m.ruling.finalOutcome, PositionOf(m.book.wallets, msg.sender, true),
                   PositionOf(m.book.wallets, msg.sender, false), Redeemable(m, msg.sender))
  {
    hide BookOk, QueueOk, GateOk, RulingOk, TallyOf, Sum;
    RedeemKeeps(m.book, m.ruling.finalOutcome, TallyOf(m.queue.actions), BondsHeld(m), m.winnerRewardClaimed != {},
                msg.sender);
  }

  /** Once the outcome is known, whoever holds positions can redeem them, and nobody else
      can. A redemption pays what the positions are worth, takes all of them, and
      touches nobody else's; a pair of positions is worth one unit whatever the
      outcome. */
  lemma RedemptionPaysWorth(c: Config, additional: set<Address>, start: Uint64, events: seq<Event>, msg: Msg)
    requires ConfigOk(c) && Chronological(start, events)
    ensures
      var m := Reached(c, additional, events);
      var n := Redeem(m, msg);
      !m.ruling.finalOutcome.Unset? ==>
        && (n.Ok? <==> HoldsPositions(m, msg.sender))
        && (n.Ok? ==> HasRedeemed(m, n.value, msg.sender))
        && PaysWorth(m.ruling.finalOutcome, PositionOf(m.book.wallets, msg.sender, true),
                     PositionOf(m.book.wallets, msg.sender, false), Redeemable(m, msg.sender))
        && Worth(m.ruling.finalOutcome, true) + Worth(m.ruling.finalOutcome, false) == 2
  {
    hide Run, Inv, Redeem, HoldsPositions, HasRedeemed, PaysWorth;
    ReachableOk(c, additional, start, events);
    if !Reached(c, additional, events).ruling.finalOutcome.Unset? {
      RedemptionEffect(Reached(c, additional, events), End(start, events), msg);
    }
  }

  /** Once the outcome is known, whoever holds shares can settle them, and nobody else
      can. A settlement burns all of them and pays what their part of both reserves is
      worth, the part rounded down; the fees owed stay; and the last provider to settle
      empties the pool. */
  lemma SettlementPaysWorth(c: Config, additional: set<Address>, start: Uint64, events: seq<Event>, msg: Msg)
    requires ConfigOk(c) && Chronological(start, events)
    ensures
      var m := Reached(c, additional, events);
      var n, user := SettleLp(m, msg), msg.sender;
      var shares, supply := Get(m.book.fees.lpShares, user), m.book.fees.totalLpShares;
      !m.ruling.finalOutcome.Unset? ==>
        && (n.Ok? <==> shares != 0)
        && (n.Ok? ==>
              var b, d := m.book, n.value.book;
              var partA, partB := b.pool.reserveA - d.pool.reserveA, b.pool.reserveB - d.pool.reserveB;
              && PaysWorth(m.ruling.finalOutcome, partA, partB, Get(d.purse.sent, user) - Get(b.purse.sent, user))
              && partA * supply <= b.pool.reserveA * shares < partA * supply + supply
              && partB * supply <= b.pool.reserveB * shares < partB * supply + supply
              && (shares == supply ==> d.pool == Pool(0, 0))
              && Get(d.fees.lpShares, user) == 0 && d.fees.totalLpShares == supply - shares
              && Owed(d.fees, user) == Owed(b.fees, user)
              && (forall p: Address | p != user :: SameHoldings(b, d, p)))
  {
    hide Run, TallyOf, Sum, QueueOk, GateOk, RulingOk, BookOk, SettleLpInventory, PaysWorth, SameHoldings, Owed;
    ReachableOk(c, additional, start, events);
    var m := Reached(c, additional, events);
    if !m.ruling.finalOutcome.Unset? {
      var outcome, user := m.ruling.finalOutcome, msg.sender;
      SettleKeeps(m.book, outcome, TallyOf(m.queue.actions), BondsHeld(m), m.winnerRewardClaimed != {}, user);
      if SettleLp(m, msg).Ok? {
        SettlementOfBook(m.book, outcome, user);
        AdditionsMoveNoFees(c, additional, start, events, Action(Sell, Pending, 0, 0, true, 0, 0, 0, 0), user, user);
        var d := SettleLp(m, msg).value.book;
        if Get(m.book.fees.lpShares, user) == m.book.fees.totalLpShares {
          WholePart(m.book.pool.reserveA, d.pool.reserveA, m.book.fees.totalLpShares);
          WholePart(m.book.pool.reserveB, d.pool.reserveB, m.book.fees.totalLpShares);
        }
      }
    }
  }

  lemma WholePart(reserve: nat, left: nat, supply: nat)
    requires 0 < supply && (reserve - left) * supply <= reserve * supply < (reserve - left) * supply + supply
    ensures left == 0
  {
    assert (reserve - left) * supply + left * supply == reserve * supply;
    if left != 0 {
      MulMono(1, left, supply);
    }
  }

  // -------------------------------------------------- all redemptions of a run

  ghost predicate Redemptions(events: seq<Event>) {
    forall k :: 0 <= k < |events| ==> events[k].call.RedeemCall?
  }

  /** What these callers can redeem, each counted once. */
  function RedeemableBy(m: Market, callers: seq<Address>): map<Address, nat> {
    map p | p in callers :: Redeemable(m, p)
  }

  /** From `m` to `n`, exactly these callers have redeemed. */
  ghost predicate AllRedeemed(m: Market, n: Market, callers: seq<Address>) {
    && (forall p: Address ::
          && Get(n.book.purse.sent, p) == Get(m.book.purse.sent, p) + (if p in callers then Redeemable(m, p) else 0)
          && (forall outcomeA: bool ::
                PositionOf(n.book.wallets, p, outcomeA)
                == if p in callers then 0 else PositionOf(m.book.wallets, p, outcomeA)))
    && n.book.purse.held == m.book.purse.held - Sum(RedeemableBy(m, callers))
    && n.book.collateralBacking == m.book.collateralBacking - Sum(RedeemableBy(m, callers))
  }

  /** Redemptions do not depend on their order or on how often anyone asks: over any run
      of them each caller is paid exactly what its positions were worth at the start,
      nobody else is paid anything, and the total paid out is the total worth
      redeemed. */
  lemma EveryRedemptionIsPaid(c: Config, additional: set<Address>, start: Uint64, events: seq<Event>,
                              claims: seq<Event>)
    requires ConfigOk(c) && Chronological(start, events) && Chronological(End(start, events), claims)
    requires Redemptions(claims)
    ensures
      var m := Reached(c, additional, events);
      !m.ruling.finalOutcome.Unset? ==> AllRedeemed(m, Run(m, claims), Callers(claims))
  {
    hide Run, Inv, AllRedeemed;
    ReachableOk(c, additional, start, events);
    if !Reached(c, additional, events).ruling.finalOutcome.Unset? {
      RunRedeems(Reached(c, additional, events), End(start, events), claims);
    }
  }

  lemma {:induction false} RunRedeems(m: Market, t: Uint64, claims: seq<Event>)
    requires Inv(m, t) && Chronological(t, claims) && Redemptions(claims) && !m.ruling.finalOutcome.Unset?
    ensures AllRedeemed(m, Run(m, claims), Callers(claims))
    decreases |claims|
  {
    hide Inv, Step, AllRedeemed, HasRedeemed;
    if claims == [] {
      NoneRedeemed(m);
    } else {
      var e, rest := claims[0], claims[1..];
      var next := Step(m, e.msg, e.call);
      StepKeeps(m, t, e.msg, e.call);
      StepRedeems(m, t, e.msg);
      SameRuling(m, next, e.msg.sender);
      RunRedeems(next, e.msg.now, rest);
      OneMoreRedeemed(m, next, Run(next, rest), e.msg.sender, Callers(rest));
    }
  }

  lemma NoneRedeemed(m: Market)
    ensures AllRedeemed(m, m, [])
  {
    SumEmpty(RedeemableBy(m, []));
  }

  lemma StepRedeems(m: Market, t: Uint64, msg: Msg)
    requires Inv(m, t) && !m.ruling.finalOutcome.Unset?
    ensures HasRedeemed(m, Step(m, msg, RedeemCall), msg.sender)
  {
    hide Inv, Redeem;
    RedemptionEffect(m, t, msg);
  }

  lemma SameRuling(m: Market, n: Market, p: Address)
    requires HasRedeemed(m, n, p)
    ensures n.ruling == m.ruling
  {
  }

  lemma OneMoreRedeemed(m: Market, next: Market, n: Market, p: Address, others: seq<Address>)
    requires HasRedeemed(m, next, p) && AllRedeemed(next, n, others)
    ensures AllRedeemed(m, n, [p] + others)
  {
    hide Sum;
    forall q: Address ensures Redeemable(next, q) == if q == p then 0 else Redeemable(m, q) {
      if q != p {
        assert SameHoldings(m.book, next.book, q);
      }
    }
    var all, rest := RedeemableBy(m, [p] + others), RedeemableBy(next, others);
    assert all == rest[p := Redeemable(m, p)];
    SumUpdate(rest, p, Redeemable(m, p));
    forall q: Address
      ensures Get(n.book.purse.sent, q)
              == Get(m.book.purse.sent, q) + (if q in [p] + others then Redeemable(m, q) else 0)
      ensures forall outcomeA: bool ::
                PositionOf(n.book.wallets, q, outcomeA)
                == if q in [p] + others then 0 else PositionOf(m.book.wallets, q, outcomeA)
    {
      if q != p {
        assert SameHoldings(m.book, next.book, q);
      }
      assert q in [p] + others <==> q == p || q in others;
    }
  }
}
