/** Which actions are executed and which are given back, exactly: over every run, by the
    time of the settlement, what the gate has cleared, the submitter's deadline and
    terms, and the reserves. */
module Execution {
  import opened Prelude
  import opened MarketMath
  import opened Ledger
  import opened LedgerInvariant
  import opened Market
  import opened MarketInvariant
  import opened MarketRuns
  import opened MarketTheorems
  import opened UserEffects
  import opened Settlements
  import opened Offers

  /** The gate has cleared the epoch, and the epoch lies before the closing one if the
      gate is closed. */
  predicate IsCleared(g: Gate, epoch: Uint64) {
    epoch in g.epochSafe && (g.state.Closed? ==> epoch < g.closedEpoch)
  }

  /** The gate has closed in or before the epoch, or the pending time after the end of
      the epoch is over. */
  predicate IsOver(g: Gate, c: Config, epoch: Uint64, now: Uint64) {
    || (g.state.Closed? && g.closedEpoch <= epoch)
    || (epoch + 1) * c.epochDuration + c.maxPendingTime < now
  }

  /** A settlement of action `id`, decided as it has to be. It happens only when the epoch
      is cleared or over. It is an execution exactly when the epoch is cleared, the
      deadline has not passed, and the pool's offer meets the action's terms; then the
      beneficiary gets what was offered, the pool moves as it has to, and the fee of a
      purchase or a sale is shared among the providers. Otherwise it is a refund. */
  ghost predicate Decided(s: Settlement, id: nat, a: Action, c: Config) {
    var g, o := s.before.gate, OfferOf(s.before.book, a, c.winnerRewardBps);
    && s.before.config == c
    && id < |s.after.queue.actions|
    && IsOffer(s.before.book, a, c.winnerRewardBps, o)
    && (IsCleared(g, a.epoch) || IsOver(g, c, a.epoch, s.now))
    && s.after.queue.actions[id]
       == a.(status := if IsCleared(g, a.epoch) && s.now <= a.deadline && Meets(a, o) then Executed else Refunded)
    && (s.after.queue.actions[id].status.Executed? ==>
          && Delivers(s.before.book, s.after.book, a, c.winnerRewardBps, o.returned)
          && Reshaped(s.before.book, s.after.book, a, c.winnerRewardBps, o)
          && (a.kind.Buy? || a.kind.Sell? ==>
                forall p: Address :: FeeShared(s.before.book.fees, s.after.book.fees, o.fee, p)))
  }

  lemma SettlingIsDecided(m: Market, now: Uint64, epoch: Uint64, id: nat)
    requires Inv(m, now) && IsPending(m, id) && IsNext(m.queue, epoch, id) && SettleNext(m, now, epoch).Ok?
    requires Executable(m.gate, epoch) || Refundable(m, now, epoch)
    ensures Decided(Settlement(now, m, SettleNext(m, now, epoch).value), id, m.queue.actions[id], m.config)
  {
    var a := m.queue.actions[id];
    NextFacts(m, now, epoch, id);
    hide Inv, IsPending, IsNext, TryExecute, Refund, OfferOf, IsOffer, Meets, Delivers, FeeShared, Reshaped, IsCleared,
      IsOver, Executable, Refundable, Ids;
    OfferIsExact(m.book, a, m.config.winnerRewardBps);
    OutcomeOfSettling(m, now, epoch, id);
  }

  /** What the invariant says of the next action of an epoch. */
  lemma NextFacts(m: Market, now: Uint64, epoch: Uint64, id: nat)
    requires Inv(m, now) && IsPending(m, id) && IsNext(m.queue, epoch, id)
    requires Executable(m.gate, epoch) || Refundable(m, now, epoch)
    ensures m.queue.actions[id].epoch == epoch
    ensures 0 < m.queue.actions[id].amount && m.config.winnerRewardBps <= MAX_WINNER_REWARD_BPS && Measured(m.book)
    ensures Executable(m.gate, epoch) <==> IsCleared(m.gate, epoch)
    ensures IsCleared(m.gate, epoch) || IsOver(m.gate, m.config, epoch, now)
  {
    hide GateOk, RulingOk, FeesOk, Sum, TallyOf;
    assert EpochOk(m.queue, epoch);
    assert ActionOk(m.queue.actions[id]);
  }

  lemma OutcomeOfSettling(m: Market, now: Uint64, epoch: Uint64, id: nat)
    requires IsPending(m, id) && IsNext(m.queue, epoch, id) && SettleNext(m, now, epoch).Ok?
    requires 0 < m.queue.actions[id].amount && m.config.winnerRewardBps <= MAX_WINNER_REWARD_BPS && Measured(m.book)
    ensures
      var n, a, bps := SettleNext(m, now, epoch).value, m.queue.actions[id], m.config.winnerRewardBps;
      var o := OfferOf(m.book, a, bps);
      && id < |n.queue.actions|
      && n.queue.actions[id]
         == a.(status := if Executable(m.gate, epoch) && now <= a.deadline && Meets(a, o) then Executed else Refunded)
      && (n.queue.actions[id].status.Executed? ==>
            && Delivers(m.book, n.book, a, bps, o.returned)
            && Reshaped(m.book, n.book, a, bps, o)
            && (a.kind.Buy? || a.kind.Sell? ==>
                  forall p: Address :: FeeShared(m.book.fees, n.book.fees, o.fee, p)))
  {
    hide TryExecute, Refund, OfferOf, Meets, Delivers, FeeShared, SameHoldings, Executable, Reshaped;
    var a, bps := m.queue.actions[id], m.config.winnerRewardBps;
    if Executable(m.gate, epoch) && now <= a.deadline {
      FilledIff(m.book, a, bps);
      if TryExecute(m.book, a, bps).value.Filled? {
        ExecutionHonoursUser(m.book, a, bps);
        FillReshapes(m.book, a, bps);
        if a.kind.Buy? || a.kind.Sell? {
          forall p: Address
            ensures FeeShared(m.book.fees, TryExecute(m.book, a, bps).value.book.fees, OfferOf(m.book, a, bps).fee, p)
          {
            FillSharesFee(m.book, a, bps, p);
          }
        }
      }
    }
  }

  /** Every settlement that was found is decided, at a time between the two. */
  ghost predicate AllDecided(found: seq<Settlement>, id: nat, c: Config, from: Uint64, to: Uint64) {
    forall k :: 0 <= k < |found| ==>
      && id < |found[k].before.queue.actions|
      && Decided(found[k], id, found[k].before.queue.actions[id], c)
      && from <= found[k].now <= to
  }

  lemma {:induction false} DrainIsDecided(m: Market, now: Uint64, epoch: Uint64, count: nat, id: nat)
    requires Inv(m, now) && count <= Remaining(m.queue, epoch)
    requires Executable(m.gate, epoch) || Refundable(m, now, epoch)
    ensures AllDecided(SettledInDrain(m, now, epoch, count, id), id, m.config, now, now)
    decreases count
  {
    hide Inv, SettleNext, IsNext, Decided, Executable, Refundable, Ids;
    if count != 0 {
      SettleNextKeeps(m, now, epoch);
      var next := SettleNext(m, now, epoch).value;
      if IsPending(m, id) && IsNext(m.queue, epoch, id) {
        SettlingIsDecided(m, now, epoch, id);
      }
      OneFewer(m.queue, next.queue, epoch);
      SameTerms(m, next, now, epoch);
      DrainIsDecided(next, now, epoch, count - 1, id);
    }
  }

  lemma OneFewer(q: Queue, r: Queue, epoch: Uint64)
    requires 0 < Remaining(q, epoch) && r.epochActionIds == q.epochActionIds
    requires r.epochCursor == q.epochCursor[epoch := Get(q.epochCursor, epoch) + 1]
    ensures Remaining(r, epoch) == Remaining(q, epoch) - 1
  {
  }

  lemma SameTerms(m: Market, n: Market, now: Uint64, epoch: Uint64)
    requires n.gate == m.gate && n.config == m.config
    ensures Executable(n.gate, epoch) == Executable(m.gate, epoch)
    ensures Refundable(n, now, epoch) == Refundable(m, now, epoch)
  {
  }

  lemma CallIsDecided(m: Market, msg: Msg, call: Call, id: nat)
    requires Inv(m, msg.now)
    ensures AllDecided(SettledInCall(m, msg, call, id), id, m.config, msg.now, msg.now)
  {
    hide Inv, Drain, Decided, Executable, Refundable, SettledInDrain;
    if call.ProcessCall? && Apply(m, msg, call).Ok? && 0 < Remaining(m.queue, call.epoch) && call.maximum != 0 {
      DrainIsDecided(m, msg.now, call.epoch, Min(call.maximum, Remaining(m.queue, call.epoch)), id);
    }
  }

  lemma {:induction false} RunIsDecided(m: Market, t: Uint64, events: seq<Event>, id: nat)
    requires Inv(m, t) && Chronological(t, events)
    ensures AllDecided(SettlementsOf(m, events, id), id, m.config, t, End(t, events))
    ensures t <= End(t, events)
    decreases |events|
  {
    hide Inv, Step, Decided, SettledInCall, Evolves;
    if events != [] {
      var e := events[0];
      var next := Step(m, e.msg, e.call);
      InvLater(m, t, e.msg.now);
      CallIsDecided(m, e.msg, e.call, id);
      StepKeeps(m, t, e.msg, e.call);
      StepKeepsRules(m, e.msg, e.call);
      RunIsDecided(next, e.msg.now, events[1..], id);
    }
  }

  lemma StepKeepsRules(m: Market, msg: Msg, call: Call)
    ensures Step(m, msg, call).config == m.config
  {
    hide Apply;
    if Apply(m, msg, call).Ok? {
      ApplyEvolves(m, msg, call);
    }
  }

  /** Over every run each submission is recorded in the epoch of its time, and if it is
      settled, it is executed exactly when its epoch has been cleared by then, lies
      before the closing epoch if the gate is closed, its deadline has not passed, and
      the pool offers something and at least the minimum; and refunded otherwise, which
      is possible only once its epoch is cleared or over. */
  lemma ExecutedIff(c: Config, additional: set<Address>, start: Uint64, events: seq<Event>, msg: Msg, call: Call,
                    more: seq<Event>)
    requires ConfigOk(c) && Chronological(start, events) && End(start, events) <= msg.now
    requires Chronological(msg.now, more)
    requires call.BuyCall? || call.AddLiquidityCall? || call.AddLiquidityForCall? || call.SellCall?
      || call.TransferCall?
    ensures
      var m := Reached(c, additional, events);
      Apply(m, msg, call).Ok? ==>
        var n, id := Apply(m, msg, call).value, |m.queue.actions|;
        var a, later, found := n.queue.actions[id], Run(n, more), SettlementsOf(n, more, id);
        && Asks(call, msg.sender, a) && a.epoch == msg.now / c.epochDuration
        && id < |later.queue.actions|
        && (!later.queue.actions[id].status.Pending? ==>
              && |found| == 1 && Decided(found[0], id, a, c)
              && msg.now <= found[0].now <= End(msg.now, more)
              && later.queue.actions[id] == found[0].after.queue.actions[id])
  {
    hide Run, Inv, Apply, SettlementsOf, Fair, TookEscrow, Decided, Asks;
    ReachableOk(c, additional, start, events);
    var m := Reached(c, additional, events);
    if Apply(m, msg, call).Ok? {
      var n, id := Apply(m, msg, call).value, |m.queue.actions|;
      SubmissionTakes(m, msg, call);
      ReachedRules(c, additional, events);
      InvLater(m, End(start, events), msg.now);
      ApplyKeeps(m, msg, call);
      HonouredOrUndone(c, additional, events, msg, call, more);
      RunIsDecided(n, msg.now, more, id);
      if !Run(n, more).queue.actions[id].status.Pending? {
        FairFacts(SettlementsOf(n, more, id)[0], id, n.queue.actions[id]);
      }
    }
  }

  lemma FairFacts(s: Settlement, id: nat, a: Action)
    requires Fair(s, id, a)
    ensures id < |s.before.queue.actions| && s.before.queue.actions[id] == a
  {
  }

  lemma ReachedRules(c: Config, additional: set<Address>, events: seq<Event>)
    ensures Reached(c, additional, events).config == c
  {
    hide Run;
    RunEvolves(NewMarket(c, additional), events);
  }
}
