/** What becomes of a submission over a whole run: it is settled at most once, and then
    it was either executed to its submitter's terms or gave back exactly what it had
    taken. */
module Settlements {
  import opened Prelude
  import opened Ledger
  import opened Market
  import opened MarketRuns
  import opened MarketTheorems
  import opened UserEffects

  /** One settlement: when it happened, the state before it and the state after it. */
  datatype Settlement = Settlement(now: Uint64, before: Market, after: Market)

  predicate IsNext(q: Queue, epoch: Uint64, id: nat) {
    var ids, cursor := Ids(q, epoch), Get(q.epochCursor, epoch);
    cursor < |ids| && ids[cursor] == id
  }

  predicate IsPending(m: Market, id: nat) {
    id < |m.queue.actions| && m.queue.actions[id].status.Pending?
  }

  /** The settlements of action `id` while `count` actions of an epoch are processed. */
  function SettledInDrain(m: Market, now: Uint64, epoch: Uint64, count: nat, id: nat): seq<Settlement>
    decreases count
  {
    if count == 0 || SettleNext(m, now, epoch).Revert? then []
    else
      var next := SettleNext(m, now, epoch).value;
      (if IsPending(m, id) && IsNext(m.queue, epoch, id) then [Settlement(now, m, next)] else [])
      + SettledInDrain(next, now, epoch, count - 1, id)
  }

  function SettledInCall(m: Market, msg: Msg, call: Call, id: nat): seq<Settlement> {
    if call.ProcessCall? && Apply(m, msg, call).Ok? && 0 < Remaining(m.queue, call.epoch) && call.maximum != 0 then
      SettledInDrain(m, msg.now, call.epoch, Min(call.maximum, Remaining(m.queue, call.epoch)), id)
    else []
  }

  /** All settlements of action `id` in a run. */
  function SettlementsOf(m: Market, events: seq<Event>, id: nat): seq<Settlement>
    decreases |events|
  {
    if events == [] then []
    else
      SettledInCall(m, events[0].msg, events[0].call, id)
      + SettlementsOf(Step(m, events[0].msg, events[0].call), events[1..], id)
  }

  // ------------------------------------------------------ escrow and its ends

  predicate TakesCollateral(a: Action) {
    a.kind.Buy? || a.kind.AddLiquidity?
  }

  /** The book but for positions, pending collateral and the token. */
  predicate SameRest(b: Book, c: Book) {
    && c.pool == b.pool && c.fees == b.fees && c.rewards == b.rewards && c.collateralBacking == b.collateralBacking
  }

  /** Positions differ by `amount` of the action's outcome for its user, and by nothing
      else. */
  ghost predicate PositionsMoved(b: Wallets, c: Wallets, a: Action, amount: int) {
    forall p: Address, outcomeA: bool ::
      PositionOf(c, p, outcomeA)
      == PositionOf(b, p, outcomeA) + (if p == a.user && outcomeA == a.outcomeA then amount else 0)
  }

  /** The submission took the action's amount: collateral into escrow, or positions
      from the user. */
  ghost predicate TookEscrow(b: Book, c: Book, a: Action) {
    && SameRest(b, c)
    && c.purse.sent == b.purse.sent
    && (if TakesCollateral(a) then
          && c.wallets == b.wallets
          && c.pendingCollateral == b.pendingCollateral + a.amount && c.purse.held == b.purse.held + a.amount
        else
          && PositionsMoved(b.wallets, c.wallets, a, 0 - a.amount)
          && c.pendingCollateral == b.pendingCollateral && c.purse.held == b.purse.held)
  }

  /** The refund gave exactly that back, to the user of the action. */
  ghost predicate GaveBack(b: Book, c: Book, a: Action) {
    && SameRest(b, c)
    && (forall p: Address ::
          Get(c.purse.sent, p)
          == Get(b.purse.sent, p) + (if p == a.user && TakesCollateral(a) then a.amount else 0))
    && (if TakesCollateral(a) then
          && c.wallets == b.wallets
          && c.pendingCollateral == b.pendingCollateral - a.amount && c.purse.held == b.purse.held - a.amount
        else
          && PositionsMoved(b.wallets, c.wallets, a, a.amount)
          && c.pendingCollateral == b.pendingCollateral && c.purse.held == b.purse.held)
  }

  /** The execution returned at least the minimum to the beneficiary and left everybody
      else's holdings alone. */
  ghost predicate Honoured(b: Book, c: Book, a: Action, bps: nat, returned: nat) {
    && (!a.kind.TransferPosition? ==> a.minimumReturn <= returned)
    && (forall p: Address | p != Beneficiary(a) :: SameHoldings(b, c, p))
    && Delivers(b, c, a, bps, returned)
  }

  /** A settlement of action `id` as it was submitted: one or the other. */
  ghost predicate Fair(s: Settlement, id: nat, a: Action) {
    && IsPending(s.before, id) && s.before.queue.actions[id] == a
    && id < |s.after.queue.actions|
    && (|| (&& s.after.queue.actions[id] == a.(status := Executed)
            && exists returned: nat ::
              Honoured(s.before.book, s.after.book, a, s.before.config.winnerRewardBps, returned))
        || (&& s.after.queue.actions[id] == a.(status := Refunded)
            && GaveBack(s.before.book, s.after.book, a)))
  }

  lemma SettlingIsFair(m: Market, now: Uint64, epoch: Uint64, id: nat)
    requires IsPending(m, id) && IsNext(m.queue, epoch, id) && SettleNext(m, now, epoch).Ok?
    ensures Fair(Settlement(now, m, SettleNext(m, now, epoch).value), id, m.queue.actions[id])
  {
    hide TryExecute, Refund, Honoured, GaveBack;
    var a := m.queue.actions[id];
    var c := SettleNext(m, now, epoch).value.book;
    if Executable(m.gate, epoch) && now <= a.deadline {
      var fill := TryExecute(m.book, a, m.config.winnerRewardBps).value;
      if fill.Filled? {
        FillIsHonoured(m.book, a, m.config.winnerRewardBps);
        assert Honoured(m.book, c, a, m.config.winnerRewardBps, fill.returned);
      } else {
        RefundGivesBack(m.book, a);
      }
    } else {
      RefundGivesBack(m.book, a);
    }
  }

  lemma FillIsHonoured(b: Book, a: Action, bps: nat)
    ensures
      var r := TryExecute(b, a, bps);
      r.Ok? && r.value.Filled? ==> Honoured(b, r.value.book, a, bps, r.value.returned)
  {
    hide TryExecute, SameHoldings, Delivers;
    ExecutionHonoursUser(b, a, bps);
  }

  lemma RefundGivesBack(b: Book, a: Action)
    ensures Refund(b, a).Ok? ==> GaveBack(b, Refund(b, a).value, a)
  {
  }

  // --------------------------------------------------------- at most one each

  /** How an action stands after some settlements of it: none while it is pending, and
      exactly one, a fair one, once it is not. */
  ghost predicate Accounted(before: Market, after: Market, found: seq<Settlement>, id: nat) {
    && id < |before.queue.actions| && id < |after.queue.actions|
    && var a, b := before.queue.actions[id], after.queue.actions[id];
    && (if !a.status.Pending? || b.status.Pending? then found == [] && b == a
        else |found| == 1 && Fair(found[0], id, a) && found[0].after.queue.actions[id] == b)
  }

  lemma AccountedOn(a: Market, b: Market, c: Market, f: seq<Settlement>, g: seq<Settlement>, id: nat)
    requires Accounted(a, b, f, id) && Accounted(b, c, g, id)
    ensures Accounted(a, c, f + g, id)
  {
    hide Fair;
    if g == [] {
      assert f + g == f;
    } else if f == [] {
      assert f + g == g;
    }
  }

  lemma OneSettlement(m: Market, now: Uint64, epoch: Uint64, id: nat)
    requires id < |m.queue.actions| && SettleNext(m, now, epoch).Ok?
    ensures
      var next := SettleNext(m, now, epoch).value;
      Accounted(m, next, if IsPending(m, id) && IsNext(m.queue, epoch, id) then [Settlement(now, m, next)] else [], id)
  {
    hide TryExecute, Refund, Fair;
    if IsPending(m, id) && IsNext(m.queue, epoch, id) {
      SettlingIsFair(m, now, epoch, id);
    }
  }

  lemma {:induction false} DrainIsAccounted(m: Market, now: Uint64, epoch: Uint64, count: nat, id: nat)
    requires id < |m.queue.actions| && Drain(m, now, epoch, count).Ok?
    ensures Accounted(m, Drain(m, now, epoch, count).value, SettledInDrain(m, now, epoch, count, id), id)
    decreases count
  {
    hide SettleNext, Accounted, IsNext, IsPending;
    if count == 0 {
      NothingSettled(m, m, id);
    } else {
      var next := SettleNext(m, now, epoch).value;
      OneSettlement(m, now, epoch, id);
      SettleNextEvolves(m, now, epoch);
      DrainIsAccounted(next, now, epoch, count - 1, id);
      AccountedOn(m, next, Drain(m, now, epoch, count).value,
                  if IsPending(m, id) && IsNext(m.queue, epoch, id) then [Settlement(now, m, next)] else [],
                  SettledInDrain(next, now, epoch, count - 1, id), id);
    }
  }

  lemma NothingSettled(m: Market, n: Market, id: nat)
    requires id < |m.queue.actions| && id < |n.queue.actions| && n.queue.actions[id] == m.queue.actions[id]
    ensures Accounted(m, n, [], id)
  {
  }

  /** Only processing settles anything. */
  lemma OthersLeaveActions(m: Market, msg: Msg, call: Call, id: nat)
    requires Apply(m, msg, call).Ok? && id < |m.queue.actions| && !call.ProcessCall?
    ensures
      var n := Apply(m, msg, call).value;
      id < |n.queue.actions| && n.queue.actions[id] == m.queue.actions[id]
  {
    hide Pay, ClaimLpFees, RedeemPositions, SettleLpInventory, PayWinnerReward, RefundWinnerFee, CurrentEpoch,
      RequireTrader, RequireActionWindow, DebitPosition, WinnerReward, Receive, Attested, Voted;
  }

  lemma StepIsAccounted(m: Market, msg: Msg, call: Call, id: nat)
    requires id < |m.queue.actions|
    ensures Accounted(m, Step(m, msg, call), SettledInCall(m, msg, call, id), id)
  {
    hide Accounted, Drain, SettledInDrain;
    if call.ProcessCall? {
      if Apply(m, msg, call).Ok? && 0 < Remaining(m.queue, call.epoch) && call.maximum != 0 {
        DrainIsAccounted(m, msg.now, call.epoch, Min(call.maximum, Remaining(m.queue, call.epoch)), id);
      } else {
        NothingSettled(m, m, id);
      }
    } else {
      hide Apply;
      if Apply(m, msg, call).Ok? {
        OthersLeaveActions(m, msg, call, id);
        NothingSettled(m, Apply(m, msg, call).value, id);
      } else {
        NothingSettled(m, m, id);
      }
    }
  }

  lemma {:induction false} RunIsAccounted(m: Market, events: seq<Event>, id: nat)
    requires id < |m.queue.actions|
    ensures Accounted(m, Run(m, events), SettlementsOf(m, events, id), id)
    decreases |events|
  {
    hide Accounted, Step, SettledInCall;
    if events == [] {
      NothingSettled(m, m, id);
    } else {
      var e := events[0];
      var next := Step(m, e.msg, e.call);
      StepIsAccounted(m, e.msg, e.call, id);
      StillThere(m, next, SettledInCall(m, e.msg, e.call, id), id);
      RunIsAccounted(next, events[1..], id);
      AccountedOn(m, next, Run(m, events), SettledInCall(m, e.msg, e.call, id), SettlementsOf(next, events[1..], id),
                  id);
    }
  }

  lemma StillThere(m: Market, n: Market, found: seq<Settlement>, id: nat)
    requires Accounted(m, n, found, id)
    ensures id < |n.queue.actions|
  {
  }

  // ------------------------------------------------------------- submissions

  /** The call asks for this action. */
  predicate Asks(call: Call, sender: Address, a: Action) {
    match call
    case BuyCall(outcomeA, amount, minimum, deadline) =>
      && a.kind == Buy && a.user == sender && a.outcomeA == outcomeA
      && a.amount == amount && a.minimumReturn == minimum && a.deadline == deadline
    case AddLiquidityCall(amount, minimum, deadline) =>
      && a.kind == AddLiquidity && a.user == sender
      && a.amount == amount && a.minimumReturn == minimum && a.deadline == deadline
    case AddLiquidityForCall(provider, amount, minimum, deadline) =>
      && a.kind == AddLiquidity && a.user == provider
      && a.amount == amount && a.minimumReturn == minimum && a.deadline == deadline
    case SellCall(outcomeA, amount, minimum, deadline) =>
      && a.kind == Sell && a.user == sender && a.outcomeA == outcomeA
      && a.amount == amount && a.minimumReturn == minimum && a.deadline == deadline
    case TransferCall(outcomeA, recipient, amount, deadline) =>
      && a.kind == TransferPosition && a.user == sender && a.recipient == recipient && a.outcomeA == outcomeA
      && a.amount == amount && a.deadline == deadline
    case _ => false
  }

  lemma SubmissionTakes(m: Market, msg: Msg, call: Call)
    requires Apply(m, msg, call).Ok?
    requires call.BuyCall? || call.AddLiquidityCall? || call.AddLiquidityForCall? || call.SellCall?
      || call.TransferCall?
    ensures
      var n, id := Apply(m, msg, call).value, |m.queue.actions|;
      && |n.queue.actions| == id + 1 && n.queue.actions[id].status.Pending?
      && Asks(call, msg.sender, n.queue.actions[id])
      && TookEscrow(m.book, n.book, n.queue.actions[id])
      && n.queue.actions[id].epoch == CurrentEpoch(m.config, msg.now)
      && n.config == m.config
  {
    hide CurrentEpoch, RequireTrader, RequireActionWindow;
  }

  /** Every submission in every run is honoured or undone. It takes exactly its amount, in
      collateral or positions; as long as it is pending it is not settled; and once it
      is not, it was settled exactly once in all that happened since: either its
      beneficiary received at least the minimum and nobody else's holdings changed in
      that settlement, or exactly what it took went back to its user and nothing else
      moved. */
  lemma HonouredOrUndone(c: Config, additional: set<Address>, events: seq<Event>, msg: Msg, call: Call,
                         more: seq<Event>)
    requires call.BuyCall? || call.AddLiquidityCall? || call.AddLiquidityForCall? || call.SellCall?
      || call.TransferCall?
    ensures
      var m := Reached(c, additional, events);
      Apply(m, msg, call).Ok? ==>
        var n, id := Apply(m, msg, call).value, |m.queue.actions|;
        var a, later, found := n.queue.actions[id], Run(n, more), SettlementsOf(n, more, id);
        && Asks(call, msg.sender, a) && TookEscrow(m.book, n.book, a)
        && id < |later.queue.actions|
        && (if later.queue.actions[id].status.Pending? then found == [] && later.queue.actions[id] == a
            else
              && |found| == 1 && Fair(found[0], id, a)
              && found[0].after.queue.actions[id] == later.queue.actions[id])
  {
    hide Reached, Run, Apply, SettlementsOf, Fair, TookEscrow;
    var m := Reached(c, additional, events);
    if Apply(m, msg, call).Ok? {
      SubmissionTakes(m, msg, call);
      RunIsAccounted(Apply(m, msg, call).value, more, |m.queue.actions|);
    }
  }
}
