/** The pool for the winner: who can claim it, exactly when, and how much, over
    every run. */
module Rewards {
  import opened Prelude
  import opened MarketMath
  import opened Ledger
  import opened LedgerInvariant
  import opened Market
  import opened MarketInvariant
  import opened MarketRuns
  import opened MarketTheorems

  /** The least reward fee of a purchase that pays one at all. */
  const LEAST_FEE: nat := 100

  /** Who has a share of the pool. */
  function Entitled(c: Config, outcome: Outcome): set<Address> {
    match outcome
    case ParticipantA => {c.rewardAddressA}
    case ParticipantB => {c.rewardAddressB}
    case Tie => {c.rewardAddressA, c.rewardAddressB}
    case _ => {}
  }

  ghost predicate PaidOk(paid: map<Address, nat>) {
    forall p: Address :: p in paid ==> paid[p] == 0 || LEAST_FEE <= paid[p]
  }

  /** Nobody has paid a trifle, and only those entitled have claimed. */
  ghost predicate RewardsFair(m: Market) {
    PaidOk(m.book.rewards.winnerFeePaid) && m.winnerRewardClaimed <= Entitled(m.config, m.ruling.finalOutcome)
  }

  // ------------------------------------------------------------- executions

  /** A purchase is large enough for its fee to be nothing or at least LEAST_FEE. */
  lemma FeeIsNoTrifle(amount: nat, bps: nat)
    requires MIN_PURCHASE <= amount
    ensures MulDiv(amount, bps, BPS) == 0 || LEAST_FEE <= MulDiv(amount, bps, BPS)
  {
    if 0 < bps {
      MulMono(1, bps, amount);
      MulMono(MIN_PURCHASE, amount, 1);
      assert LEAST_FEE * BPS <= amount * bps;
    }
  }

  /** What an execution does to the pool: a purchase pays its fee in, and nothing
      else touches it. */
  lemma ExecutionPaysFee(b: Book, a: Action, bps: nat)
    ensures
      var r := TryExecute(b, a, bps);
      r.Ok? && r.value.Filled? ==>
        var fee := MulDiv(a.amount, bps, BPS);
        r.value.book.rewards == if a.kind.Buy?
          then Rewards(b.rewards.winnerRewardPool + fee, Credit(b.rewards.winnerFeePaid, a.user, fee))
                                else b.rewards
  {
    hide MulDivCeil, MulDiv, QuoteSell, QuoteLiquidity;
  }

  lemma SettleNextKeepsRewards(m: Market, now: Uint64, epoch: Uint64)
    requires Inv(m, now) && SettleNext(m, now, epoch).Ok? && PaidOk(m.book.rewards.winnerFeePaid)
    ensures
      var n := SettleNext(m, now, epoch).value;
      && PaidOk(n.book.rewards.winnerFeePaid)
      && m.book.rewards.winnerRewardPool <= n.book.rewards.winnerRewardPool
      && n == m.(book := n.book, queue := n.queue)
  {
    hide GateOk, RulingOk, MoneyOk, EpochOk, TryExecute, MulDiv;
    var a := m.queue.actions[Ids(m.queue, epoch)[Get(m.queue.epochCursor, epoch)]];
    assert ActionOk(a);
    if a.kind.Buy? {
      FeeIsNoTrifle(a.amount, m.config.winnerRewardBps);
    }
    ExecutionPaysFee(m.book, a, m.config.winnerRewardBps);
  }

  lemma {:induction false} DrainKeepsRewards(m: Market, now: Uint64, epoch: Uint64, count: nat)
    requires Inv(m, now) && count <= Remaining(m.queue, epoch) && Drain(m, now, epoch, count).Ok?
    requires PaidOk(m.book.rewards.winnerFeePaid)
    ensures
      var n := Drain(m, now, epoch, count).value;
      && PaidOk(n.book.rewards.winnerFeePaid)
      && m.book.rewards.winnerRewardPool <= n.book.rewards.winnerRewardPool
      && n == m.(book := n.book, queue := n.queue)
    decreases count
  {
    hide Inv, SettleNext, PaidOk;
    if count != 0 {
      SettleNextKeeps(m, now, epoch);
      SettleNextKeepsRewards(m, now, epoch);
      DrainKeepsRewards(SettleNext(m, now, epoch).value, now, epoch, count - 1);
    }
  }

  // ------------------------------------------------------------------- calls

  lemma OtherCallsKeepRewards(m: Market, msg: Msg, call: Call)
    requires Apply(m, msg, call).Ok? && !call.ProcessCall? && !call.ClaimRewardCall? && !call.RefundFeeCall?
    ensures
      var n := Apply(m, msg, call).value;
      n.book.rewards == m.book.rewards && n.winnerRewardClaimed == m.winnerRewardClaimed
  {
    hide TakeFees, BurnShares, MulDiv, ResolvedValue, CurrentEpoch, RequireTrader, RequireActionWindow, DebitPosition,
      Attested, VerdictBy;
  }

  lemma ClaimIsEntitled(m: Market, msg: Msg)
    requires ClaimWinnerReward(m, msg).Ok?
    ensures
      var n := ClaimWinnerReward(m, msg).value;
      && msg.sender in Entitled(m.config, m.ruling.finalOutcome)
      && n.winnerRewardClaimed == m.winnerRewardClaimed + {msg.sender}
      && n.book.rewards.winnerFeePaid == m.book.rewards.winnerFeePaid
      && n.config == m.config && n.ruling == m.ruling
  {
  }

  /** The pool never falls but by a claim or a refund, and the claimants are added to
      only by claims. */
  lemma ApplyKeepsRewards(m: Market, msg: Msg, call: Call)
    requires Inv(m, msg.now) && Apply(m, msg, call).Ok? && RewardsFair(m)
    ensures
      var n := Apply(m, msg, call).value;
      && RewardsFair(n)
      && (!call.ClaimRewardCall? ==> n.winnerRewardClaimed == m.winnerRewardClaimed)
      && (!call.ClaimRewardCall? && !call.RefundFeeCall? ==>
            m.book.rewards.winnerRewardPool <= n.book.rewards.winnerRewardPool)
  {
    hide QueueOk, GateOk, RulingOk, MoneyOk, Drain;
    if call.ProcessCall? {
      if 0 < Remaining(m.queue, call.epoch) && call.maximum != 0 {
        DrainKeepsRewards(m, msg.now, call.epoch, Min(call.maximum, Remaining(m.queue, call.epoch)));
      }
    } else if call.ClaimRewardCall? {
      ClaimIsEntitled(m, msg);
    } else if call.RefundFeeCall? {
      hide Entitled;
    } else {
      hide Apply, PaidOk;
      OtherCallsKeepRewards(m, msg, call);
      ApplyEvolves(m, msg, call);
    }
  }

  lemma {:induction false} RunKeepsRewards(m: Market, t: Uint64, events: seq<Event>)
    requires Inv(m, t) && Chronological(t, events) && RewardsFair(m)
    ensures RewardsFair(Run(m, events))
    decreases |events|
  {
    hide Inv, Apply, RewardsFair;
    if events != [] {
      var e := events[0];
      StepKeeps(m, t, e.msg, e.call);
      InvLater(m, t, e.msg.now);
      if Apply(m, e.msg, e.call).Ok? {
        ApplyKeepsRewards(m, e.msg, e.call);
      }
      RunKeepsRewards(Step(m, e.msg, e.call), e.msg.now, events[1..]);
    }
  }

  lemma ReachableRewards(c: Config, additional: set<Address>, start: Uint64, events: seq<Event>)
    requires ConfigOk(c) && Chronological(start, events)
    ensures RewardsFair(Reached(c, additional, events))
  {
    hide Run, Inv;
    NewMarketOk(c, additional, start);
    RunKeepsRewards(NewMarket(c, additional), start, events);
  }

  // ---------------------------------------------------------------- theorems

  /** What claiming the winner reward does. */
  ghost predicate Rewarded(m: Market, n: Result<Market>, to: Address, payout: nat) {
    && n.Ok?
    && Get(n.value.book.purse.sent, to) == Get(m.book.purse.sent, to) + payout
    && n.value.book.rewards.winnerRewardPool == m.book.rewards.winnerRewardPool - payout
    && n.value.winnerRewardClaimed == m.winnerRewardClaimed + {to}
  }

  lemma {:induction false} NoTrifles(paid: map<Address, nat>)
    requires PaidOk(paid)
    ensures Sum(paid) == 0 || LEAST_FEE <= Sum(paid)
    decreases |paid|
  {
    if p: Address :| p in paid && paid[p] != 0 {
      SumRemove(paid, p);
    } else {
      OnlyZeros(paid);
    }
  }

  lemma {:induction false} OnlyZeros<K>(m: map<K, nat>)
    requires forall k :: k in m ==> m[k] == 0
    ensures Sum(m) == 0
    decreases |m|
  {
    if m != map[] {
      var k :| k in m;
      SumRemove(m, k);
      OnlyZeros(m - {k});
    }
  }

  lemma PoolIsNoTrifle(m: Market, t: Uint64)
    requires Inv(m, t) && RewardsFair(m)
    ensures m.winnerRewardClaimed == {} ==>
      m.book.rewards.winnerRewardPool == 0 || LEAST_FEE <= m.book.rewards.winnerRewardPool
  {
    hide QueueOk, GateOk, RulingOk, Backed, FeesOk, TallyOf, Sum;
    NoTrifles(m.book.rewards.winnerFeePaid);
  }

  /** Until somebody has claimed, the pool is empty or at least 100 units. */
  lemma UnclaimedPool(c: Config, additional: set<Address>, start: Uint64, events: seq<Event>)
    requires ConfigOk(c) && Chronological(start, events)
    ensures
      var m := Reached(c, additional, events);
      m.winnerRewardClaimed == {} ==>
        m.book.rewards.winnerRewardPool == 0 || LEAST_FEE <= m.book.rewards.winnerRewardPool
  {
    hide Run, Inv, RewardsFair;
    ReachableOk(c, additional, start, events);
    ReachableRewards(c, additional, start, events);
    PoolIsNoTrifle(Reached(c, additional, events), End(start, events));
  }

  /** A claim in a given state, exactly. */
  ghost predicate ClaimsExactly(m: Market, msg: Msg) {
    var pool, n := m.book.rewards.winnerRewardPool, ClaimWinnerReward(m, msg);
    var entitled := Entitled(m.config, m.ruling.finalOutcome);
    && (n.Ok? <==> msg.sender in entitled - m.winnerRewardClaimed && pool != 0)
    && (n.Ok? ==> Rewarded(m, n, msg.sender, if entitled <= m.winnerRewardClaimed + {msg.sender} then pool
                           else pool / 2))
  }

  lemma ClaimIsExact(m: Market, t: Uint64, msg: Msg)
    requires Inv(m, t) && RewardsFair(m)
    ensures ClaimsExactly(m, msg)
  {
    hide MoneyOk, QueueOk, GateOk, RulingOk, PaidOk, PayWinnerReward;
    PoolIsNoTrifle(m, t);
    PoolCovered(m, t);
    forall payout: nat | payout <= m.book.rewards.winnerRewardPool {
      RewardPaid(m.book, msg.sender, payout);
    }
  }

  /** The winner reward, whatever the outcome: it can be claimed exactly by those
      entitled who have not claimed, while there is any; the last of them takes all
      of it, and one who leaves another behind takes half, rounded down. With one
      address for both participants that address takes all after a tie. */
  lemma RewardClaimIff(c: Config, additional: set<Address>, start: Uint64, events: seq<Event>, msg: Msg)
    requires ConfigOk(c) && Chronological(start, events)
    ensures
      var m := Reached(c, additional, events);
      var pool, n := m.book.rewards.winnerRewardPool, ClaimWinnerReward(m, msg);
      var entitled := Entitled(c, m.ruling.finalOutcome);
      && (n.Ok? <==> msg.sender in entitled - m.winnerRewardClaimed && pool != 0)
      && (n.Ok? ==> Rewarded(m, n, msg.sender, if entitled <= m.winnerRewardClaimed + {msg.sender} then pool
                             else pool / 2))
  {
    hide Run, Inv, RewardsFair, ClaimWinnerReward, Rewarded, Entitled;
    ReachableOk(c, additional, start, events);
    ReachableRewards(c, additional, start, events);
    RunEvolves(NewMarket(c, additional), events);
    ClaimIsExact(Reached(c, additional, events), End(start, events), msg);
  }

  lemma PoolCovered(m: Market, now: Uint64)
    requires Inv(m, now)
    ensures m.book.rewards.winnerRewardPool <= m.book.purse.held
  {
    hide QueueOk, GateOk, RulingOk, Backed, FeesOk, RewardsOk, TallyOf;
  }

  lemma RewardPaid(b: Book, to: Address, payout: nat)
    requires payout <= b.rewards.winnerRewardPool <= b.purse.held
    ensures
      var r := PayWinnerReward(b, to, payout);
      && (r.Ok? <==> payout != 0)
      && (r.Ok? ==>
            && Get(r.value.purse.sent, to) == Get(b.purse.sent, to) + payout
            && r.value.rewards.winnerRewardPool == b.rewards.winnerRewardPool - payout)
  {
  }

  /** Somebody can claim the pool exactly when there is any and an entitled address
      has not claimed. */
  lemma SomebodyCanClaimIff(c: Config, additional: set<Address>, start: Uint64, events: seq<Event>, now: Uint64)
    requires ConfigOk(c) && Chronological(start, events)
    ensures
      var m := Reached(c, additional, events);
      (exists x: Address :: ClaimWinnerReward(m, Msg(x, now, false)).Ok?)
      <==> m.book.rewards.winnerRewardPool != 0 && !(Entitled(c, m.ruling.finalOutcome) <= m.winnerRewardClaimed)
  {
    hide Reached, ClaimWinnerReward, Rewarded, Entitled;
    var m := Reached(c, additional, events);
    forall x: Address
      ensures ClaimWinnerReward(m, Msg(x, now, false)).Ok?
         <==> x in Entitled(c, m.ruling.finalOutcome) - m.winnerRewardClaimed && m.book.rewards.winnerRewardPool != 0
    {
      RewardClaimIff(c, additional, start, events, Msg(x, now, false));
    }
    if m.book.rewards.winnerRewardPool != 0 && !(Entitled(c, m.ruling.finalOutcome) <= m.winnerRewardClaimed) {
      var x: Address :| x in Entitled(c, m.ruling.finalOutcome) && x !in m.winnerRewardClaimed;
      assert ClaimWinnerReward(m, Msg(x, now, false)).Ok?;
    }
  }

  /** The winner takes the whole pool, once, and nobody else anything. */
  lemma WinnerTakesPool(c: Config, additional: set<Address>, start: Uint64, events: seq<Event>, msg: Msg)
    requires ConfigOk(c) && Chronological(start, events)
    ensures
      var m := Reached(c, additional, events);
      var pool, n := m.book.rewards.winnerRewardPool, ClaimWinnerReward(m, msg);
      m.ruling.finalOutcome.ParticipantA? || m.ruling.finalOutcome.ParticipantB? ==>
        && (n.Ok? <==> msg.sender == (if m.ruling.finalOutcome.ParticipantA? then c.rewardAddressA
                                      else c.rewardAddressB)
                       && msg.sender !in m.winnerRewardClaimed && pool != 0)
        && (n.Ok? ==> Rewarded(m, n, msg.sender, pool))
  {
    hide Reached, ClaimWinnerReward, Rewarded;
    RewardClaimIff(c, additional, start, events, msg);
  }

  /** While nobody claims, the pool of a market with a winner or a tie only grows. */
  lemma {:induction false} RunGrowsRewards(m: Market, t: Uint64, events: seq<Event>)
    requires Inv(m, t) && Chronological(t, events) && RewardsFair(m)
    requires !m.ruling.finalOutcome.Unset? && !m.ruling.finalOutcome.Invalid?
    requires Run(m, events).winnerRewardClaimed == m.winnerRewardClaimed
    ensures m.book.rewards.winnerRewardPool <= Run(m, events).book.rewards.winnerRewardPool
    decreases |events|
  {
    hide Inv, Apply, RewardsFair;
    if events != [] {
      var e := events[0];
      var next := Step(m, e.msg, e.call);
      StepKeeps(m, t, e.msg, e.call);
      InvLater(m, t, e.msg.now);
      RunEvolves(m, [e]);
      assert Run(m, [e]) == next by {
        assert [e][1..] == [];
      }
      RunEvolves(next, events[1..]);
      if Apply(m, e.msg, e.call).Ok? {
        ApplyKeepsRewards(m, e.msg, e.call);
        ClaimsMark(m, e.msg, e.call);
      }
      RunGrowsRewards(next, e.msg.now, events[1..]);
    }
  }

  lemma ClaimsMark(m: Market, msg: Msg, call: Call)
    requires Apply(m, msg, call).Ok? && !m.ruling.finalOutcome.Invalid?
    ensures !call.RefundFeeCall?
    ensures call.ClaimRewardCall? ==>
      msg.sender !in m.winnerRewardClaimed && msg.sender in Apply(m, msg, call).value.winnerRewardClaimed
  {
  }

  /** A tie is split. The first of two addresses to claim gets half of the pool,
      rounded down; the other gets all the rest, and with it whatever stale epochs
      have added by then. One address for both gets all at once. Any pool at all can
      be claimed. */
  lemma TieSplitsPool(c: Config, additional: set<Address>, start: Uint64, events: seq<Event>, first: Msg,
                      between: seq<Event>, second: Msg)
    requires ConfigOk(c) && Chronological(start, events) && End(start, events) <= first.now
      && Chronological(first.now, between)
    requires {first.sender, second.sender} == {c.rewardAddressA, c.rewardAddressB}
    ensures
      var m := Reached(c, additional, events);
      var pool, n := m.book.rewards.winnerRewardPool, ClaimWinnerReward(m, first);
      m.ruling.finalOutcome.Tie? && m.winnerRewardClaimed == {} ==>
        && (n.Ok? <==> pool != 0)
        && (n.Ok? ==>
              var k := Run(n.value, between);
              if c.rewardAddressA == c.rewardAddressB then
                Rewarded(m, n, first.sender, pool) && ClaimWinnerReward(k, second).Revert?
              else
                && Rewarded(m, n, first.sender, pool / 2)
                && (second.sender !in k.winnerRewardClaimed ==>
                      && pool - pool / 2 <= k.book.rewards.winnerRewardPool
                      && Rewarded(k, ClaimWinnerReward(k, second), second.sender, k.book.rewards.winnerRewardPool)))
  {
    hide Run, Inv, RewardsFair, Rewarded;
    var m := Reached(c, additional, events);
    ReachableOk(c, additional, start, events);
    ReachableRewards(c, additional, start, events);
    RunEvolves(NewMarket(c, additional), events);
    assert m.config == c;
    hide Reached, ClaimWinnerReward;
    assert first.sender in {c.rewardAddressA, c.rewardAddressB}
      && second.sender in {c.rewardAddressA, c.rewardAddressB};
    if m.ruling.finalOutcome.Tie? && m.winnerRewardClaimed == {} {
      ClaimIsExact(m, End(start, events), first);
      if ClaimWinnerReward(m, first).Ok? {
        RestFollows(m, End(start, events), first, between, second);
      }
    }
  }

  /** After one claim of a tie. */
  lemma RestFollows(m: Market, t: Uint64, first: Msg, between: seq<Event>, second: Msg)
    requires Inv(m, t) && RewardsFair(m) && t <= first.now && Chronological(first.now, between)
    requires m.ruling.finalOutcome.Tie? && ClaimWinnerReward(m, first).Ok?
    requires second.sender in Entitled(m.config, Tie)
    ensures
      var n := ClaimWinnerReward(m, first).value;
      var k := Run(n, between);
      && (second.sender in k.winnerRewardClaimed ==> ClaimWinnerReward(k, second).Revert?)
      && first.sender in k.winnerRewardClaimed
      && (second.sender !in k.winnerRewardClaimed && Entitled(m.config, Tie) <= {first.sender, second.sender}
          && n.book.rewards.winnerRewardPool != 0 ==>
            && n.book.rewards.winnerRewardPool <= k.book.rewards.winnerRewardPool
            && Rewarded(k, ClaimWinnerReward(k, second), second.sender, k.book.rewards.winnerRewardPool))
  {
    hide Run, Inv, RewardsFair, ClaimWinnerReward, Rewarded;
    var n := ClaimWinnerReward(m, first).value;
    var k := Run(n, between);
    InvLater(m, t, first.now);
    assert Apply(m, first, ClaimRewardCall) == Ok(n);
    ApplyKeeps(m, first, ClaimRewardCall);
    ApplyKeepsRewards(m, first, ClaimRewardCall);
    ClaimIsEntitled(m, first);
    RunKeeps(n, first.now, between);
    RunKeepsRewards(n, first.now, between);
    RunEvolves(n, between);
    ClaimIsExact(k, End(first.now, between), second);
    if second.sender !in k.winnerRewardClaimed && Entitled(m.config, Tie) <= {first.sender, second.sender} {
      OnlyTheFirst(m, n, k, first.sender, second.sender);
      RunGrowsRewards(n, first.now, between);
    }
  }

  lemma OnlyTheFirst(m: Market, n: Market, k: Market, first: Address, second: Address)
    requires RewardsFair(m) && RewardsFair(k) && k.config == m.config && m.ruling.finalOutcome.Tie?
      && k.ruling.finalOutcome.Tie?
    requires Entitled(m.config, Tie) <= {first, second} && second !in k.winnerRewardClaimed
    requires n.winnerRewardClaimed == m.winnerRewardClaimed + {first} && n.winnerRewardClaimed <= k.winnerRewardClaimed
    ensures k.winnerRewardClaimed == n.winnerRewardClaimed == {first}
  {
  }

  /** When everyone entitled has claimed, rewards collected afterwards from stale
      epochs are out of everyone's reach: no claim and no refund succeeds any more. */
  lemma LateRewardsAreLocked(c: Config, additional: set<Address>, events: seq<Event>, more: seq<Event>, msg: Msg)
    ensures
      var m := Reached(c, additional, events);
      var outcome := m.ruling.finalOutcome;
      !outcome.Unset? && !outcome.Invalid? && Entitled(c, outcome) <= m.winnerRewardClaimed ==>
        var n := Run(m, more);
        ClaimWinnerReward(n, msg).Revert? && ClaimInvalidWinnerFeeRefund(n, msg).Revert?
  {
    hide Run, PayWinnerReward, RefundWinnerFee;
    RunEvolves(NewMarket(c, additional), events);
    RunEvolves(Reached(c, additional, events), more);
  }
}
