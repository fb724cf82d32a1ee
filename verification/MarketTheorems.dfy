/** What a market promises, in every state that any run can reach. */
module MarketTheorems {
  import opened Prelude
  import opened Ledger
  import opened LedgerInvariant
  import opened FeeBound
  import opened Market
  import opened MarketInvariant
  import opened MarketRuns

  /** The state after any run of calls on a new market. */
  function Reached(c: Config, additional: set<Address>, events: seq<Event>): Market {
    Run(NewMarket(c, additional), events)
  }

  // ----------------------------------------------------------------- money

  /** Complete-set backing: until the outcome is known, all positions of either
      outcome, wherever they are, equal the collateral behind them. */
  lemma CompleteSetBacking(c: Config, additional: set<Address>, start: Uint64, events: seq<Event>)
    requires ConfigOk(c) && Chronological(start, events)
    ensures
      var m := Reached(c, additional, events);
      var escrow := TallyOf(m.queue.actions);
      m.ruling.finalOutcome.Unset? ==>
        && m.book.pool.reserveA + Sum(m.book.wallets.positionA) + escrow.positionsA == m.book.collateralBacking
        && m.book.pool.reserveB + Sum(m.book.wallets.positionB) + escrow.positionsB == m.book.collateralBacking
  {
    hide Run, TallyOf, Sum, QueueOk, GateOk, RulingOk, FeesOk;
    ReachableOk(c, additional, start, events);
  }

  /** While shares are outstanding both reserves are positive, and before the outcome
      is known a market without shares has no backing and no pending purchases. */
  lemma ReservesStayPositive(c: Config, additional: set<Address>, start: Uint64, events: seq<Event>)
    requires ConfigOk(c) && Chronological(start, events)
    ensures
      var m := Reached(c, additional, events);
      && (0 < m.book.fees.totalLpShares ==> 0 < m.book.pool.reserveA && 0 < m.book.pool.reserveB)
      && (m.ruling.finalOutcome.Unset? && m.book.fees.totalLpShares == 0 ==>
            m.book.collateralBacking == 0 && TallyOf(m.queue.actions).budgets == 0)
  {
    hide Run, TallyOf, Sum, QueueOk, GateOk, RulingOk, FeesOk;
    ReachableOk(c, additional, start, events);
  }

  /** Conservation: the token balance is exactly what the market accounts for, the
      pending collateral is exactly what pending purchases and additions have
      escrowed, the shares are exactly what providers hold, and until a winner has
      claimed the reward pool is exactly what forecasters have paid into it. */
  lemma Conservation(c: Config, additional: set<Address>, start: Uint64, events: seq<Event>)
    requires ConfigOk(c) && Chronological(start, events)
    ensures
      var m := Reached(c, additional, events);
      && m.book.purse.held == AccountedLiabilities(m)
      && m.book.pendingCollateral == TallyOf(m.queue.actions).collateral
      && m.book.fees.totalLpShares == Sum(m.book.fees.lpShares)
      && m.bonds.totalIntegrityBondLiability == Sum(m.bonds.integrityBondOf)
      && (m.winnerRewardClaimed == {} ==> m.book.rewards.winnerRewardPool == Sum(m.book.rewards.winnerFeePaid))
  {
    hide Run, TallyOf, Sum, QueueOk, GateOk, RulingOk, Backed, IndexOk, DebtsOk;
    ReachableOk(c, additional, start, events);
  }

  /** Solvency in any order: once the outcome is known, whoever holds positions can
      redeem them and whoever holds shares can settle them, whatever redemptions,
      settlements and stale epochs came before. */
  lemma SettlementNeverFails(c: Config, additional: set<Address>, start: Uint64, events: seq<Event>, user: Address,
                             now: Uint64)
    requires ConfigOk(c) && Chronological(start, events)
    ensures
      var m := Reached(c, additional, events);
      var msg := Msg(user, now, false);
      !m.ruling.finalOutcome.Unset? ==>
        && Covers(m.ruling.finalOutcome, TotalA(m.book, TallyOf(m.queue.actions)),
                  TotalB(m.book, TallyOf(m.queue.actions)), m.book.collateralBacking)
        && (Redeem(m, msg).Ok?
            <==> PositionOf(m.book.wallets, user, true) + PositionOf(m.book.wallets, user, false) != 0)
        && (SettleLp(m, msg).Ok? <==> Get(m.book.fees.lpShares, user) != 0)
  {
    hide Run, TallyOf, Sum, QueueOk, GateOk, RulingOk, BookOk, RedeemPositions, SettleLpInventory;
    ReachableOk(c, additional, start, events);
    var m := Reached(c, additional, events);
    if !m.ruling.finalOutcome.Unset? {
      var t, bonds, paid := TallyOf(m.queue.actions), BondsHeld(m), m.winnerRewardClaimed != {};
      RedeemKeeps(m.book, m.ruling.finalOutcome, t, bonds, paid, user);
      SettleKeeps(m.book, m.ruling.finalOutcome, t, bonds, paid, user);
      BookCovers(m.book, m.ruling.finalOutcome, t, bonds, paid);
    }
  }

  lemma BookCovers(b: Book, outcome: Outcome, t: Tally, bonds: nat, winnerPaid: bool)
    requires BookOk(b, outcome, t, bonds, winnerPaid)
    ensures Covers(outcome, TotalA(b, t), TotalB(b, t), b.collateralBacking)
  {
  }

  /** On an invalid market the reward pool is exactly what forecasters paid into it
      and have not been refunded, so each of them is refunded in full, in any
      order, and nobody else takes anything from it. */
  lemma InvalidMarketRefundsEveryPayer(c: Config, additional: set<Address>, start: Uint64, events: seq<Event>,
                                       user: Address, now: Uint64)
    requires ConfigOk(c) && Chronological(start, events)
    ensures
      var m := Reached(c, additional, events);
      var msg := Msg(user, now, false);
      var paid := Get(m.book.rewards.winnerFeePaid, user);
      m.ruling.finalOutcome.Invalid? ==>
        && m.book.rewards.winnerRewardPool == Sum(m.book.rewards.winnerFeePaid)
        && (ClaimInvalidWinnerFeeRefund(m, msg).Ok? <==> paid != 0)
        && (paid != 0 ==>
              var n := ClaimInvalidWinnerFeeRefund(m, msg).value;
              && Get(n.book.purse.sent, user) == Get(m.book.purse.sent, user) + paid
              && Get(n.book.rewards.winnerFeePaid, user) == 0
              && n.book.rewards.winnerRewardPool == Sum(n.book.rewards.winnerFeePaid))
        && ClaimWinnerReward(m, msg).Revert?
  {
    hide Run, TallyOf, Sum, QueueOk, GateOk, RulingOk, Backed, FeesOk;
    ReachableOk(c, additional, start, events);
    var m := Reached(c, additional, events);
    if m.ruling.finalOutcome.Invalid? {
      RefundFeeKeeps(m.book, Invalid, TallyOf(m.queue.actions), BondsHeld(m), user);
    }
  }

  // ------------------------------------------------------------------- fees

  /** Providers together are owed at most one base unit more than the fees set
      aside for every executed addition beyond the second, and nobody's debt
      exceeds what the index has accumulated. */
  lemma FeesOwedBound(c: Config, additional: set<Address>, start: Uint64, events: seq<Event>, providers: seq<Address>)
    requires ConfigOk(c) && Chronological(start, events) && Distinct(providers)
    ensures
      var m := Reached(c, additional, events);
      var additions := TallyOf(m.queue.actions).additions;
      && OwedTo(m.book.fees, providers) <= m.book.fees.unclaimedLpFees + (if additions <= 2 then 0 else additions - 2)
      && (forall p: Address :: Get(m.book.fees.lpFeeDebt, p) <= Accumulated(m.book.fees, p))
  {
    hide Run, TallyOf, Sum, QueueOk, GateOk, RulingOk, FeesOk, Accumulated;
    ReachableOk(c, additional, start, events);
    var m := Reached(c, additional, events);
    OverdraftBound(m.book.fees, TallyOf(m.queue.actions).additions, providers);
    FeesAreDebts(m.book.fees, TallyOf(m.queue.actions).additions);
  }

  /** All providers can be paid in any order exactly when what they are owed
      together does not exceed the fees set aside; with at most two executed
      additions it never does. */
  lemma EveryProviderIsPaidIff(c: Config, additional: set<Address>, start: Uint64, events: seq<Event>,
                               providers: seq<Address>)
    requires ConfigOk(c) && Chronological(start, events) && Distinct(providers)
    ensures
      var m := Reached(c, additional, events);
      && (PayAll(m.book.fees, providers).Ok? <==> OwedTo(m.book.fees, providers) <= m.book.fees.unclaimedLpFees)
      && (TallyOf(m.queue.actions).additions <= 2 ==> PayAll(m.book.fees, providers).Ok?)
  {
    hide Run, TallyOf, Sum, QueueOk, GateOk, RulingOk, FeesOk, PayAll;
    ReachableOk(c, additional, start, events);
    var m := Reached(c, additional, events);
    EveryoneIsPaidIff(m.book.fees, TallyOf(m.queue.actions).additions, providers);
    OverdraftBound(m.book.fees, TallyOf(m.queue.actions).additions, providers);
  }

  ghost predicate FeeClaims(events: seq<Event>) {
    forall k :: 0 <= k < |events| ==> events[k].call.ClaimFeesCall?
  }

  function Callers(events: seq<Event>): seq<Address> {
    if events == [] then [] else [events[0].msg.sender] + Callers(events[1..])
  }

  /** Between the two states `p` has been sent all the fees owed to it in the first. */
  predicate PaidInFull(m: Market, n: Market, p: Address) {
    Get(n.book.purse.sent, p) == Get(m.book.purse.sent, p) + Owed(m.book.fees, p)
  }

  /** When providers claim one after the other, each once, each of them is sent all
      that it is owed exactly when what they are owed together does not exceed the fees
      set aside: no other money is missing for it. */
  lemma EveryClaimIsPaidIff(c: Config, additional: set<Address>, start: Uint64, events: seq<Event>, claims: seq<Event>)
    requires ConfigOk(c) && Chronological(start, events) && Chronological(End(start, events), claims)
    requires FeeClaims(claims) && Distinct(Callers(claims))
    ensures
      var m := Reached(c, additional, events);
      && ((forall p | p in Callers(claims) :: PaidInFull(m, Run(m, claims), p))
          <==> OwedTo(m.book.fees, Callers(claims)) <= m.book.fees.unclaimedLpFees)
      && (TallyOf(m.queue.actions).additions <= 2 ==>
            forall p | p in Callers(claims) :: PaidInFull(m, Run(m, claims), p))
  {
    hide Run, Inv, PaidInFull;
    ReachableOk(c, additional, start, events);
    var m := Reached(c, additional, events);
    ClaimsPayIff(m, End(start, events), claims);
    FeesOfInv(m, End(start, events));
    OverdraftBound(m.book.fees, TallyOf(m.queue.actions).additions, Callers(claims));
  }

  lemma FeesOfInv(m: Market, t: Uint64)
    requires Inv(m, t)
    ensures FeesOk(m.book.fees, TallyOf(m.queue.actions).additions)
  {
    hide TallyOf, Sum, QueueOk, GateOk, RulingOk, FeesOk;
  }

  /** What one claim of fees does, seen from `p`. */
  lemma OneClaim(m: Market, t: Uint64, msg: Msg, p: Address)
    requires Inv(m, t)
    ensures
      var n := Step(m, msg, ClaimFeesCall);
      if 0 < Owed(m.book.fees, msg.sender) <= m.book.fees.unclaimedLpFees then
        && PaidInFull(m, n, msg.sender)
        && n.book.fees.unclaimedLpFees == m.book.fees.unclaimedLpFees - Owed(m.book.fees, msg.sender)
        && (p != msg.sender ==>
              && Owed(n.book.fees, p) == Owed(m.book.fees, p)
              && Get(n.book.purse.sent, p) == Get(m.book.purse.sent, p))
      else n == m
  {
    hide TallyOf, Sum, QueueOk, GateOk, RulingOk, BookOk, FeesOk, TakeFees, Owed;
    FeesOfInv(m, t);
    TakeKeeps(m.book.fees, msg.sender, TallyOf(m.queue.actions).additions);
    ClaimLpFeesKeeps(m.book, m.ruling.finalOutcome, TallyOf(m.queue.actions), BondsHeld(m), m.winnerRewardClaimed != {},
                     msg.sender);
  }

  lemma {:induction false} OthersClaim(m: Market, t: Uint64, claims: seq<Event>, p: Address)
    requires Inv(m, t) && Chronological(t, claims) && FeeClaims(claims) && p !in Callers(claims)
    ensures Get(Run(m, claims).book.purse.sent, p) == Get(m.book.purse.sent, p)
    decreases |claims|
  {
    hide Inv, Step;
    if claims != [] {
      var e := claims[0];
      OneClaim(m, t, e.msg, p);
      StepKeeps(m, t, e.msg, e.call);
      OthersClaim(Step(m, e.msg, e.call), e.msg.now, claims[1..], p);
    }
  }

  lemma {:induction false} ClaimsPayIff(m: Market, t: Uint64, claims: seq<Event>)
    requires Inv(m, t) && Chronological(t, claims) && FeeClaims(claims) && Distinct(Callers(claims))
    ensures
      (forall p | p in Callers(claims) :: PaidInFull(m, Run(m, claims), p))
      <==> OwedTo(m.book.fees, Callers(claims)) <= m.book.fees.unclaimedLpFees
    decreases |claims|
  {
    hide Inv, Step, Owed;
    if claims != [] {
      var e, rest := claims[0], claims[1..];
      var p, others := e.msg.sender, Callers(rest);
      DistinctSplits(p, others);
      assert Callers(claims)[1..] == others;
      var next := Step(m, e.msg, e.call);
      StepKeeps(m, t, e.msg, e.call);
      forall q | q in others
        ensures Owed(next.book.fees, q) == Owed(m.book.fees, q)
        ensures Get(next.book.purse.sent, q) == Get(m.book.purse.sent, q)
      {
        OneClaim(m, t, e.msg, q);
      }
      OneClaim(m, t, e.msg, p);
      SameOwed(m.book.fees, next.book.fees, others);
      OwedIsNonNegative(m, t, others);
      OwedIsNonNegative(m, t, [p]);
      OthersClaim(next, e.msg.now, rest, p);
      ClaimsPayIff(next, e.msg.now, rest);
      assert PaidInFull(m, Run(m, claims), p) <==> Owed(m.book.fees, p) <= m.book.fees.unclaimedLpFees;
      assert forall q | q in others :: PaidInFull(m, Run(m, claims), q) <==> PaidInFull(next, Run(next, rest), q);
      assert forall q :: q in Callers(claims) <==> q == p || q in others;
    }
  }

  lemma DistinctSplits(p: Address, others: seq<Address>)
    requires Distinct([p] + others)
    ensures p !in others && Distinct(others)
  {
    var all := [p] + others;
    assert all[0] == p && forall k :: 0 <= k < |others| ==> all[k + 1] == others[k];
  }

  lemma OwedIsNonNegative(m: Market, t: Uint64, providers: seq<Address>)
    requires Inv(m, t)
    ensures 0 <= OwedTo(m.book.fees, providers)
    ensures |providers| == 1 ==> OwedTo(m.book.fees, providers) == Owed(m.book.fees, providers[0])
  {
    hide Inv, FeesOk, Owed;
    FeesOfInv(m, t);
    FeesAreDebts(m.book.fees, TallyOf(m.queue.actions).additions);
    OwedNonNegative(m.book.fees, providers);
  }

  /** A claim of fees reverts only when nothing is owed or more is owed than is set
      aside. */
  lemma FeeClaimIff(c: Config, additional: set<Address>, start: Uint64, events: seq<Event>, msg: Msg)
    requires ConfigOk(c) && Chronological(start, events)
    ensures
      var m := Reached(c, additional, events);
      ClaimFees(m, msg).Ok? <==> 0 < Owed(m.book.fees, msg.sender) <= m.book.fees.unclaimedLpFees
  {
    hide Run, TallyOf, Sum, QueueOk, GateOk, RulingOk, BookOk, ClaimLpFees, Owed;
    ReachableOk(c, additional, start, events);
    var m := Reached(c, additional, events);
    ClaimLpFeesKeeps(m.book, m.ruling.finalOutcome, TallyOf(m.queue.actions), BondsHeld(m), m.winnerRewardClaimed != {},
                     msg.sender);
  }

  /** No addition and no settlement of shares changes what anyone could claim in
      fees; in particular a provider who has just joined has nothing to claim. */
  lemma AdditionsMoveNoFees(c: Config, additional: set<Address>, start: Uint64, events: seq<Event>, a: Action,
                            user: Address, q: Address)
    requires ConfigOk(c) && Chronological(start, events)
    ensures
      var m := Reached(c, additional, events);
      var fill := ExecuteAddLiquidity(m.book, a);
      var settled := SettleLpInventory(m.book, m.ruling.finalOutcome, user);
      && (fill.Ok? && fill.value.Filled? ==> Owed(fill.value.book.fees, q) == Owed(m.book.fees, q))
      && (settled.Ok? ==> Owed(settled.value.fees, q) == Owed(m.book.fees, q))
  {
    hide Run, TallyOf, Sum, QueueOk, GateOk, RulingOk, FeesOk, Owed, MintShares, BurnShares, MulDiv, ResolvedValue;
    ReachableOk(c, additional, start, events);
    var m := Reached(c, additional, events);
    var additions := TallyOf(m.queue.actions).additions;
    var quote := QuoteLiquidity(m.book.pool, m.book.fees.totalLpShares, a.amount);
    if quote.Ok? {
      SharesMoveNoFees(m.book.fees, additions, a.user, quote.value.shares, q);
    }
    SharesMoveNoFees(m.book.fees, additions, user, 0, q);
  }

  // ------------------------------------------------------------------ queue

  /** Progress: whenever an epoch may be processed, processing it does not revert
      and moves its cursor by the requested number of actions or to the end; and
      it reverts only when there is something to process and it is too early. */
  lemma QueueProgress(c: Config, additional: set<Address>, start: Uint64, events: seq<Event>, now: Uint64,
                      epoch: Uint64, maximum: nat)
    requires ConfigOk(c) && Chronological(start, events) && End(start, events) <= now
    ensures
      var m := Reached(c, additional, events);
      var r := ProcessEpoch(m, now, epoch, maximum);
      && (r.Revert? <==> 0 < Remaining(m.queue, epoch) && 0 < maximum
                         && !Executable(m.gate, epoch) && !Refundable(m, now, epoch))
      && (r.Ok? ==> Get(r.value.queue.epochCursor, epoch)
                    == Get(m.queue.epochCursor, epoch) + Min(maximum, Remaining(m.queue, epoch)))
  {
    hide Run, Inv, Drain, Executable, Refundable;
    ReachableOk(c, additional, start, events);
    var m := Reached(c, additional, events);
    InvLater(m, End(start, events), now);
    DrainKeeps(m, now, epoch, Min(maximum, Remaining(m.queue, epoch)));
  }

  /** Every queue drains: after the pending time of its epoch every action, however
      the market stands, is settled by a call that anyone can make. */
  lemma EveryActionSettles(c: Config, additional: set<Address>, start: Uint64, events: seq<Event>, now: Uint64, id: nat)
    requires ConfigOk(c) && Chronological(start, events) && End(start, events) <= now
    requires id < |Reached(c, additional, events).queue.actions|
    ensures
      var m := Reached(c, additional, events);
      var epoch := m.queue.actions[id].epoch;
      now > EpochEndsAt(c, epoch) + c.maxPendingTime ==>
        var r := ProcessEpoch(m, now, epoch, |m.queue.actions|);
        && r.Ok?
        && id < |r.value.queue.actions|
        && !r.value.queue.actions[id].status.Pending?
  {
    hide Run, Inv, Drain;
    ReachableOk(c, additional, start, events);
    RunEvolves(NewMarket(c, additional), events);
    var m := Reached(c, additional, events);
    var epoch := m.queue.actions[id].epoch;
    if now > EpochEndsAt(c, epoch) + c.maxPendingTime {
      InvLater(m, End(start, events), now);
      RemainingBounded(m, now, epoch);
      DrainKeeps(m, now, epoch, Remaining(m.queue, epoch));
      var last := ProcessEpoch(m, now, epoch, |m.queue.actions|).value;
      if 0 < Remaining(m.queue, epoch) {
        DrainEvolves(m, now, epoch, Remaining(m.queue, epoch));
      } else {
        EvolvesReflexive(m);
      }
      DrainedHasNoPending(last, now, id);
    }
  }

  /** The ids of an epoch are distinct actions. */
  lemma RemainingBounded(m: Market, now: Uint64, epoch: Uint64)
    requires Inv(m, now)
    ensures Remaining(m.queue, epoch) <= |m.queue.actions|
  {
    hide GateOk, RulingOk, MoneyOk, ActionOk;
    assert EpochOk(m.queue, epoch);
    AscendingBounded(Ids(m.queue, epoch), |m.queue.actions|);
  }

  lemma {:induction false} AscendingBounded(ids: seq<nat>, bound: nat)
    requires forall j, k :: 0 <= j < k < |ids| ==> ids[j] < ids[k]
    requires forall k :: 0 <= k < |ids| ==> ids[k] < bound
    ensures |ids| <= bound
    decreases |ids|
  {
    if ids != [] {
      AscendingBounded(ids[..|ids| - 1], ids[|ids| - 1]);
    }
  }

  lemma DrainedHasNoPending(m: Market, now: Uint64, id: nat)
    requires Inv(m, now) && id < |m.queue.actions| && Remaining(m.queue, m.queue.actions[id].epoch) == 0
    ensures !m.queue.actions[id].status.Pending?
  {
    hide GateOk, RulingOk, MoneyOk, ActionOk;
    var epoch := m.queue.actions[id].epoch;
    assert EpochOk(m.queue, epoch);
    assert id in Ids(m.queue, epoch);
  }

  /** In submission order: within an epoch the actions before the cursor, and only
      they, have been settled, and the ids ascend. */
  lemma SettledInOrder(c: Config, additional: set<Address>, start: Uint64, events: seq<Event>, epoch: Uint64, k: nat)
    requires ConfigOk(c) && Chronological(start, events)
    requires k < |Ids(Reached(c, additional, events).queue, epoch)|
    ensures
      var q := Reached(c, additional, events).queue;
      && Ids(q, epoch)[k] < |q.actions|
      && (q.actions[Ids(q, epoch)[k]].status.Pending? <==> Get(q.epochCursor, epoch) <= k)
      && (0 < k ==> Ids(q, epoch)[k - 1] < Ids(q, epoch)[k])
  {
    hide Run, GateOk, RulingOk, MoneyOk, ActionOk;
    ReachableOk(c, additional, start, events);
    assert EpochOk(Reached(c, additional, events).queue, epoch);
  }

  lemma {:induction false} DrainSplits(m: Market, now: Uint64, epoch: Uint64, first: nat, second: nat)
    requires Drain(m, now, epoch, first).Ok?
    ensures Drain(m, now, epoch, first + second) == Drain(Drain(m, now, epoch, first).value, now, epoch, second)
    decreases first
  {
    hide SettleNext;
    if first != 0 {
      DrainSplits(SettleNext(m, now, epoch).value, now, epoch, first - 1, second);
    }
  }

  /** Chunked processing is processing at once: the same state, or the same error. */
  lemma ChunkedProcessing(c: Config, additional: set<Address>, start: Uint64, events: seq<Event>, now: Uint64,
                          epoch: Uint64, first: nat, second: nat)
    requires ConfigOk(c) && Chronological(start, events) && End(start, events) <= now
    ensures
      var m := Reached(c, additional, events);
      var once := ProcessEpoch(m, now, epoch, first + second);
      match ProcessEpoch(m, now, epoch, first)
      case Ok(between) => ProcessEpoch(between, now, epoch, second) == once
      case Revert(error) => once == Revert(error)
  {
    hide Run, Inv, Drain;
    ReachableOk(c, additional, start, events);
    var m := Reached(c, additional, events);
    InvLater(m, End(start, events), now);
    var total := Remaining(m.queue, epoch);
    var count := Min(first, total);
    DrainKeeps(m, now, epoch, count);
    CursorWithin(m, now, epoch);
    if count != 0 && ProcessEpoch(m, now, epoch, first).Ok? {
      DrainSplits(m, now, epoch, count, Min(second, total - count));
      DrainNothing(Drain(m, now, epoch, count).value, now, epoch);
    }
  }

  lemma DrainNothing(m: Market, now: Uint64, epoch: Uint64)
    ensures Drain(m, now, epoch, 0) == Ok(m)
  {
  }

  lemma CursorWithin(m: Market, now: Uint64, epoch: Uint64)
    requires Inv(m, now)
    ensures Get(m.queue.epochCursor, epoch) <= |Ids(m.queue, epoch)|
  {
    hide GateOk, RulingOk, MoneyOk, ActionOk;
    assert EpochOk(m.queue, epoch);
  }

  // ------------------------------------------------------------------- gate

  /** Decisive-event safety: every executed action belongs to an epoch that was
      cleared; once the gate is closed that epoch lies before the closing epoch and
      was cleared at a sequence before the decisive one; and no two epochs were
      cleared at the same sequence. */
  lemma DecisiveEventSafety(c: Config, additional: set<Address>, start: Uint64, events: seq<Event>, id: nat)
    requires ConfigOk(c) && Chronological(start, events)
    requires id < |Reached(c, additional, events).queue.actions|
    ensures
      var m := Reached(c, additional, events);
      var epoch := m.queue.actions[id].epoch;
      m.queue.actions[id].status.Executed? ==>
        && epoch in m.gate.epochSafe && epoch in m.gate.epochSafeSequence
        && (m.gate.state.Closed? ==>
              epoch < m.gate.closedEpoch && m.gate.epochSafeSequence[epoch] < m.gate.decisiveSequence)
  {
    hide Run, RulingOk, MoneyOk, ActionOk, EpochOk, CurrentEpoch;
    ReachableOk(c, additional, start, events);
    var m := Reached(c, additional, events);
    assert m.queue.actions[id].status.Executed? ==> m.queue.actions[id].epoch in m.gate.epochSafe;
  }

  /** Marked sequences strictly increase: clearing an epoch uses a sequence above
      every sequence used before, and clears an epoch that has ended. */
  lemma MarkedSequencesIncrease(c: Config, additional: set<Address>, start: Uint64, events: seq<Event>, msg: Msg,
                                epoch: Uint64, sequence: nat, earlier: Uint64)
    requires ConfigOk(c) && Chronological(start, events)
    ensures
      var m := Reached(c, additional, events);
      MarkEpochSafe(m, msg, epoch, sequence).Ok? && earlier in m.gate.epochSafe ==>
        && earlier != epoch
        && earlier in m.gate.epochSafeSequence && m.gate.epochSafeSequence[earlier] < sequence
        && epoch < CurrentEpoch(c, msg.now)
  {
    hide Run, RulingOk, MoneyOk, QueueOk, CurrentEpoch;
    ReachableOk(c, additional, start, events);
    RunEvolves(NewMarket(c, additional), events);
  }

  // ------------------------------------------------------------- resolution

  /** The final outcome is written once: no further run changes it. */
  lemma FinalOutcomeWrittenOnce(c: Config, additional: set<Address>, events: seq<Event>, more: seq<Event>)
    ensures
      var m := Reached(c, additional, events);
      !m.ruling.finalOutcome.Unset? ==> Run(m, more).ruling.finalOutcome == m.ruling.finalOutcome
  {
    hide Run;
    RunEvolves(Reached(c, additional, events), more);
  }

  /** Every final outcome is justified. It was attested by two resolvers on the same
      evidence, and either stood unchallenged through its window or was upheld by
      two resolvers who rejected the challenge; or the market is invalid because
      nothing was provisional by the deadline, or because the challenge was accepted
      by two resolvers or ran out. */
  lemma ResolutionIsJustified(c: Config, additional: set<Address>, start: Uint64, events: seq<Event>)
    requires ConfigOk(c) && Chronological(start, events)
    ensures
      var m := Reached(c, additional, events);
      var r, end := m.ruling, End(start, events);
      !r.finalOutcome.Unset? ==>
        || (&& r.finalOutcome == r.provisionalOutcome && r.provisionalEvidence != 0
            && TwoOf(AttestedBy(r, (r.finalOutcome, r.provisionalEvidence)), c.resolvers)
            && (if r.challenged then TwoOf(VerdictBy(r, false), c.resolvers)
                else r.provisionalAt + c.challengeWindow <= end))
        || (&& r.finalOutcome.Invalid?
            && (if r.challenged then TwoOf(VerdictBy(r, true), c.resolvers)
                || r.challengedAt + c.challengeTimeout <= end
                else r.provisionalOutcome.Unset? && m.gate.resolutionDueAt <= end))
  {
    hide Run, QueueOk, MoneyOk, GateOk, CountsOk;
    ReachableOk(c, additional, start, events);
    RunEvolves(NewMarket(c, additional), events);
    var m := Reached(c, additional, events);
    var r := m.ruling;
    if !r.finalOutcome.Unset? {
      if Justified(r, c, End(start, events)) {
        PickTwo(AttestedBy(r, (r.finalOutcome, r.provisionalEvidence)), c);
        if r.challenged {
          PickTwo(VerdictBy(r, false), c);
        }
      } else if r.challenged && r.challengedAt + c.challengeTimeout > End(start, events) {
        PickTwo(VerdictBy(r, true), c);
      }
    }
  }

  /** Two different resolvers are among the voters. */
  ghost predicate TwoOf(voters: set<Address>, resolvers: seq<Address>) {
    exists x, y :: x != y && x in voters && y in voters && x in resolvers && y in resolvers
  }

  lemma PickTwo(voters: set<Address>, c: Config)
    requires |voters| == 2 && voters <= ResolverSet(c)
    ensures TwoOf(voters, c.resolvers)
  {
    var x :| x in voters;
    var others := voters - {x};
    assert |others| == 1;
    var y :| y in others;
    assert x in c.resolvers && y in c.resolvers;
  }

  /** The permissionless call that finalizes a closed market. */
  function Finisher(m: Market): Call {
    if m.ruling.provisionalOutcome.Unset? then InvalidateCall
    else if m.ruling.challenged then ExpireCall
    else FinalizeCall
  }

  /** The period that a closed market without an outcome is waiting for is over. */
  predicate Ripe(m: Market, now: Uint64) {
    var r := m.ruling;
    if r.provisionalOutcome.Unset? then m.gate.resolutionDueAt <= now
    else if r.challenged then r.challengedAt + m.config.challengeTimeout <= now
    else r.provisionalAt + m.config.challengeWindow <= now
  }

  lemma FinisherWorks(m: Market, t: Uint64, now: Uint64, anyone: Address, ready: bool)
    requires Inv(m, t) && t <= now
    requires m.gate.state.Closed? && m.ruling.finalOutcome.Unset?
    ensures
      var r := Apply(m, Msg(anyone, now, ready), Finisher(m));
      && (r.Ok? <==> Ripe(m, now))
      && (r.Ok? ==>
            && !r.value.ruling.finalOutcome.Unset?
            && r.value.gate == m.gate && r.value.config == m.config)
  {
    hide BookOk, QueueOk, CountsOk, GateOk, TallyOf, Receive;
    BondMoves(m.book, Unset, TallyOf(m.queue.actions), BondsHeld(m), m.winnerRewardClaimed != {},
              HeldChallengeBond(m.ruling));
  }

  /** Periods follow one another: after all of them every closed market is ripe. */
  lemma RipeInTheEnd(m: Market, now: Uint64)
    requires Inv(m, now) && m.gate.state.Closed?
    requires m.gate.resolutionDueAt + m.config.challengeWindow + m.config.challengeTimeout <= now
    ensures Ripe(m, now)
  {
    hide BookOk, QueueOk, CountsOk, GateOk, TallyOf;
  }

  /** Never stuck: a closed market that is not final can be made final by anyone
      exactly when the period it waits for is over, and that is so at the latest from
      the resolution deadline plus both challenge periods on. */
  lemma FinalizationIsEnabled(c: Config, additional: set<Address>, start: Uint64, events: seq<Event>, now: Uint64,
                              anyone: Address)
    requires ConfigOk(c) && Chronological(start, events) && End(start, events) <= now
    ensures
      var m := Reached(c, additional, events);
      m.gate.state.Closed? && m.ruling.finalOutcome.Unset? ==>
        var r := Apply(m, Msg(anyone, now, false), Finisher(m));
        && (r.Ok? <==> Ripe(m, now))
        && (m.gate.resolutionDueAt + c.challengeWindow + c.challengeTimeout <= now ==> r.Ok?)
        && (r.Ok? ==> !r.value.ruling.finalOutcome.Unset?)
  {
    hide Run, Inv, Apply;
    ReachableOk(c, additional, start, events);
    RunEvolves(NewMarket(c, additional), events);
    var m := Reached(c, additional, events);
    if m.gate.state.Closed? && m.ruling.finalOutcome.Unset? {
      FinisherWorks(m, End(start, events), now, anyone, false);
      if m.gate.resolutionDueAt + c.challengeWindow + c.challengeTimeout <= now {
        InvLater(m, End(start, events), now);
        RipeInTheEnd(m, now);
      }
    }
  }

  // -------------------------------------------------------------- readiness

  /** Whoever has traded on a market that holds the bonds itself traded behind both
      bonds, and they are still posted. */
  ghost predicate Bonded(m: Market) {
    !m.config.roomBound && m.ruling.finalOutcome.Unset? && m.queue.actions != [] ==> IsReady(m, false)
  }

  lemma {:induction false} DrainKeepsBonds(m: Market, now: Uint64, epoch: Uint64, count: nat)
    requires Drain(m, now, epoch, count).Ok?
    ensures
      var n := Drain(m, now, epoch, count).value;
      n.bonds == m.bonds && n.config == m.config && |n.queue.actions| == |m.queue.actions| && n.ruling == m.ruling
    decreases count
  {
    if count != 0 {
      SettleKeepsBonds(m, now, epoch);
      hide SettleNext;
      DrainKeepsBonds(SettleNext(m, now, epoch).value, now, epoch, count - 1);
    }
  }

  lemma SettleKeepsBonds(m: Market, now: Uint64, epoch: Uint64)
    requires SettleNext(m, now, epoch).Ok?
    ensures
      var n := SettleNext(m, now, epoch).value;
      n.bonds == m.bonds && n.config == m.config && |n.queue.actions| == |m.queue.actions| && n.ruling == m.ruling
  {
    hide TryExecute, Refund;
  }

  lemma ApplyKeepsBonded(m: Market, msg: Msg, call: Call)
    requires Bonded(m) && Apply(m, msg, call).Ok?
    ensures Bonded(Apply(m, msg, call).value)
  {
    hide Pay, ClaimLpFees, RedeemPositions, SettleLpInventory, PayWinnerReward, RefundWinnerFee, CurrentEpoch,
      RequireActionWindow, WinnerReward, Drain, Receive, DebitPosition;
    if call.ProcessCall? && 0 < Remaining(m.queue, call.epoch) && call.maximum != 0 {
      DrainKeepsBonds(m, msg.now, call.epoch, Min(call.maximum, Remaining(m.queue, call.epoch)));
    }
  }

  lemma {:induction false} RunKeepsBonded(m: Market, events: seq<Event>)
    requires Bonded(m)
    ensures Bonded(Run(m, events))
    decreases |events|
  {
    hide Bonded, Apply;
    if events != [] {
      if Apply(m, events[0].msg, events[0].call).Ok? {
        ApplyKeepsBonded(m, events[0].msg, events[0].call);
      }
      RunKeepsBonded(Step(m, events[0].msg, events[0].call), events[1..]);
    }
  }

  /** No trading without bonds: as soon as anything has been submitted on a market
      that holds the bonds itself, both participants' bonds are posted and held, and
      they stay so until the outcome is known. */
  lemma TradingIsBonded(c: Config, additional: set<Address>, start: Uint64, events: seq<Event>)
    requires ConfigOk(c) && Chronological(start, events)
    ensures
      var m := Reached(c, additional, events);
      !c.roomBound && m.queue.actions != [] && m.ruling.finalOutcome.Unset? ==>
        && Get(m.bonds.integrityBondOf, c.participantA) == INTEGRITY_BOND
        && Get(m.bonds.integrityBondOf, c.participantB) == INTEGRITY_BOND
        && 2 * INTEGRITY_BOND + m.book.collateralBacking + m.book.pendingCollateral <= m.book.purse.held
  {
    hide Run, Sum, TallyOf, QueueOk, GateOk, RulingOk, Backed, FeesOk;
    ReachableOk(c, additional, start, events);
    RunEvolves(NewMarket(c, additional), events);
    RunKeepsBonded(NewMarket(c, additional), events);
    TwoEntries(Reached(c, additional, events).bonds.integrityBondOf, c.participantA, c.participantB);
  }

  lemma TwoEntries(m: map<Address, nat>, a: Address, b: Address)
    requires a != b
    ensures Get(m, a) + Get(m, b) <= Sum(m)
  {
    TakeOut(m, a);
    SumAtLeast(m - {a}, b);
  }

  // ------------------------------------------------- what stays locked away

  /** From `m` to `n` the bond of `p` became `bond`, and `paid` went from the balance to
      `p`; nobody else's bond or money moved, and nothing else of the book. */
  ghost predicate BondMoved(m: Market, n: Market, p: Address, bond: nat, paid: int) {
    && n == m.(bonds := n.bonds, book := m.book.(purse := n.book.purse))
    && n.book.purse.held == m.book.purse.held - paid
    && (forall q: Address ::
          && Get(n.bonds.integrityBondOf, q) == (if q == p then bond else Get(m.bonds.integrityBondOf, q))
          && Get(n.book.purse.sent, q)
             == Get(m.book.purse.sent, q) + (if q == p && 0 < paid then paid else 0))
  }

  /** A bond can be claimed exactly when the market is final and holds the bonds
      itself, and the participant has one posted and has never claimed before; all of it
      goes back. Posting takes 100 USDC. */
  lemma BondClaimIff(c: Config, additional: set<Address>, start: Uint64, events: seq<Event>, msg: Msg)
    requires ConfigOk(c) && Chronological(start, events)
    ensures
      var m := Reached(c, additional, events);
      ClaimIntegrityBond(m, msg).Ok? <==>
        && !m.ruling.finalOutcome.Unset? && !c.roomBound
        && (msg.sender == c.participantA || msg.sender == c.participantB)
        && Get(m.bonds.integrityBondOf, msg.sender) != 0
        && msg.sender !in m.bonds.integrityBondClaimed
    ensures
      var m := Reached(c, additional, events);
      var claimed, posted := ClaimIntegrityBond(m, msg), PostIntegrityBond(m, msg);
      && (claimed.Ok? ==>
            && BondMoved(m, claimed.value, msg.sender, 0, Get(m.bonds.integrityBondOf, msg.sender))
            && claimed.value.bonds.integrityBondClaimed == m.bonds.integrityBondClaimed + {msg.sender})
      && (posted.Ok? ==>
            && BondMoved(m, posted.value, msg.sender, 100_000_000, -100_000_000)
            && posted.value.bonds.integrityBondClaimed == m.bonds.integrityBondClaimed)
  {
    hide Run, TallyOf, Sum, QueueOk, GateOk, RulingOk, Backed, FeesOk, RewardsOk;
    ReachableOk(c, additional, start, events);
    RunEvolves(NewMarket(c, additional), events);
    var m := Reached(c, additional, events);
    SumAtLeast(m.bonds.integrityBondOf, msg.sender);
  }

  /** Whoever has claimed a bond can post one again at once, and can never claim that
      one: the post is accepted, and after any further run every claim of it reverts. */
  lemma RepostedBondIsLocked(c: Config, additional: set<Address>, events: seq<Event>, claim: Msg, post: Msg,
                             more: seq<Event>, again: Msg)
    requires claim.sender == post.sender == again.sender
    ensures
      var m := Reached(c, additional, events);
      var claimed := ClaimIntegrityBond(m, claim);
      claimed.Ok? ==>
        var posted := PostIntegrityBond(claimed.value, post);
        && posted.Ok?
        && Get(posted.value.bonds.integrityBondOf, post.sender) == INTEGRITY_BOND
        && posted.value.book.purse.held == claimed.value.book.purse.held + INTEGRITY_BOND
        && ClaimIntegrityBond(Run(posted.value, more), again).Revert?
  {
    hide Run;
    var m := Reached(c, additional, events);
    if ClaimIntegrityBond(m, claim).Ok? {
      RunEvolves(PostIntegrityBond(ClaimIntegrityBond(m, claim).value, post).value, more);
    }
  }
}
