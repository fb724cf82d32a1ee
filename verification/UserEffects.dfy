/** What calls mean to the people who make them: executions honour the limits of
    the submitter and touch nobody else, refunds restore what was escrowed,
    restricted wallets never come to hold anything, and the pool never loses value
    to traders. */
module UserEffects {
  import opened Prelude
  import opened MarketMath
  import opened Ledger
  import opened LedgerInvariant
  import opened Market
  import opened MarketInvariant
  import opened MarketRuns
  import opened MarketTheorems
  import opened Rewards

  // -------------------------------------------------------------- executions

  /** Everything a wallet holds, except what the fee index is accruing to it. */
  ghost predicate SameHoldings(b: Book, c: Book, p: Address) {
    && PositionOf(c.wallets, p, true) == PositionOf(b.wallets, p, true)
    && PositionOf(c.wallets, p, false) == PositionOf(b.wallets, p, false)
    && Get(c.fees.lpShares, p) == Get(b.fees.lpShares, p)
    && Get(c.fees.lpFeeCredit, p) == Get(b.fees.lpFeeCredit, p)
    && Get(c.rewards.winnerFeePaid, p) == Get(b.rewards.winnerFeePaid, p)
    && Get(c.purse.sent, p) == Get(b.purse.sent, p)
  }

  /** Who an execution is for. */
  function Beneficiary(a: Action): Address {
    if a.kind.TransferPosition? then a.recipient else a.user
  }

  /** What the beneficiary of an execution receives. */
  ghost predicate Delivers(b: Book, c: Book, a: Action, bps: nat, returned: nat) {
    match a.kind
    case Buy =>
      && PositionOf(c.wallets, a.user, a.outcomeA) == PositionOf(b.wallets, a.user, a.outcomeA) + returned
      && PositionOf(c.wallets, a.user, !a.outcomeA) == PositionOf(b.wallets, a.user, !a.outcomeA)
      && Get(c.rewards.winnerFeePaid, a.user) == Get(b.rewards.winnerFeePaid, a.user) + MulDiv(a.amount, bps, BPS)
    case Sell =>
      && Get(c.purse.sent, a.user) == Get(b.purse.sent, a.user) + returned
      && b.purse.held == c.purse.held + returned
    case AddLiquidity =>
      Get(c.fees.lpShares, a.user) == Get(b.fees.lpShares, a.user) + returned
    case TransferPosition =>
      && returned == a.amount
      && PositionOf(c.wallets, a.recipient, a.outcomeA) == PositionOf(b.wallets, a.recipient, a.outcomeA) + a.amount
      && PositionOf(c.wallets, a.recipient, !a.outcomeA) == PositionOf(b.wallets, a.recipient, !a.outcomeA)
  }

  ghost predicate Honours(b: Book, a: Action, bps: nat, r: Result<Fill>) {
    r.Ok? && r.value.Filled? ==>
      && (!a.kind.TransferPosition? ==> a.minimumReturn <= r.value.returned)
      && (forall p: Address | p != Beneficiary(a) :: SameHoldings(b, r.value.book, p))
      && Delivers(b, r.value.book, a, bps, r.value.returned)
  }

  lemma BuyHonoursUser(b: Book, a: Action, bps: nat)
    requires a.kind.Buy?
    ensures Honours(b, a, bps, ExecuteBuy(b, a, bps))
  {
    hide MulDivCeil, MulDiv;
  }

  lemma SellHonoursUser(b: Book, a: Action, bps: nat)
    requires a.kind.Sell?
    ensures Honours(b, a, bps, ExecuteSell(b, a))
  {
    hide QuoteSell, MulDiv;
  }

  lemma AdditionHonoursUser(b: Book, a: Action, bps: nat)
    requires a.kind.AddLiquidity?
    ensures Honours(b, a, bps, ExecuteAddLiquidity(b, a))
  {
    hide QuoteLiquidity, MulDiv;
  }

  lemma TransferHonoursRecipient(b: Book, a: Action, bps: nat)
    requires a.kind.TransferPosition?
    ensures Honours(b, a, bps, ExecuteTransfer(b, a))
  {
  }

  /** An executed purchase, sale or addition returned at least the minimum its
      submitter set; the return reached its beneficiary, and nobody else's holdings
      changed. */
  lemma ExecutionHonoursUser(b: Book, a: Action, bps: nat)
    ensures
      var r := TryExecute(b, a, bps);
      r.Ok? && r.value.Filled? ==>
        && (!a.kind.TransferPosition? ==> a.minimumReturn <= r.value.returned)
        && (forall p: Address | p != Beneficiary(a) :: SameHoldings(b, r.value.book, p))
        && Delivers(b, r.value.book, a, bps, r.value.returned)
  {
    hide ExecuteBuy, ExecuteSell, ExecuteAddLiquidity, ExecuteTransfer, SameHoldings, Delivers;
    match a.kind
    case Buy => BuyHonoursUser(b, a, bps);
    case Sell => SellHonoursUser(b, a, bps);
    case AddLiquidity => AdditionHonoursUser(b, a, bps);
    case TransferPosition => TransferHonoursRecipient(b, a, bps);
  }

  // ----------------------------------------------------------------- refunds

  /** Refunding the last action of `submitted` leaves the books as they were in `m`,
      with `returned` of collateral sent back to `user`. */
  ghost predicate Restored(m: Market, submitted: Market, now: Uint64, user: Address, returned: nat) {
    var id := |m.queue.actions|;
    && id < |submitted.queue.actions|
    && submitted.queue.actions[id].status.Pending?
    && var r := SettleAction(submitted, now, id, false);
    && r.Ok?
    && r.value.queue.actions[id].status.Refunded?
    && var b, c := m.book, r.value.book;
    && c.pool == b.pool && c.fees == b.fees && c.rewards == b.rewards
    && c.collateralBacking == b.collateralBacking && c.pendingCollateral == b.pendingCollateral
    && c.purse.held == b.purse.held
    && (forall p: Address ::
          && PositionOf(c.wallets, p, true) == PositionOf(b.wallets, p, true)
          && PositionOf(c.wallets, p, false) == PositionOf(b.wallets, p, false)
          && Get(c.purse.sent, p) == Get(b.purse.sent, p) + (if p == user then returned else 0))
  }

  /** A refund returns to the submitter exactly what the submission took: the
      collateral that was escrowed, or the positions; everyone else's holdings and
      the pool are as if nothing had been submitted. */
  lemma RefundRestores(m: Market, msg: Msg, call: Call)
    requires Apply(m, msg, call).Ok?
    requires call.BuyCall? || call.AddLiquidityCall? || call.SellCall? || call.TransferCall?
    ensures Restored(m, Apply(m, msg, call).value, msg.now, msg.sender,
                     if call.BuyCall? || call.AddLiquidityCall? then call.amount else 0)
  {
    hide CurrentEpoch, RequireTrader, RequireActionWindow, Restored;
    if call.BuyCall? || call.AddLiquidityCall? {
      var kind := if call.BuyCall? then Buy else AddLiquidity;
      var outcomeA := call.BuyCall? && call.outcomeA;
      EscrowRestored(m, msg.now,
          Action(kind, Pending, msg.sender, ZERO_ADDRESS, outcomeA, CurrentEpoch(m.config, msg.now), call.deadline,
                 call.amount, call.minimum));
    } else {
      var kind := if call.SellCall? then Sell else TransferPosition;
      var recipient := if call.SellCall? then ZERO_ADDRESS else call.recipient;
      var minimum := if call.SellCall? then call.minimum else 0;
      PositionsRestored(m, msg.now,
          Action(kind, Pending, msg.sender, recipient, call.outcomeA, CurrentEpoch(m.config, msg.now), call.deadline,
                 call.amount, minimum));
    }
  }

  lemma EscrowRestored(m: Market, now: Uint64, a: Action)
    requires a.status.Pending? && (a.kind.Buy? || a.kind.AddLiquidity?)
    ensures Restored(m, RecordAction(Escrow(m, a.amount), a), now, a.user, a.amount)
  {
    hide TryExecute;
  }

  lemma PositionsRestored(m: Market, now: Uint64, a: Action)
    requires a.status.Pending? && (a.kind.Sell? || a.kind.TransferPosition?)
    requires DebitPosition(m.book.wallets, a.user, a.outcomeA, a.amount).Ok?
    ensures
      var wallets := DebitPosition(m.book.wallets, a.user, a.outcomeA, a.amount).value;
      Restored(m, RecordAction(m.(book := m.book.(wallets := wallets)), a), now, a.user, 0)
  {
    hide TryExecute;
  }

  // ------------------------------------------------------------------ payouts

  /** What one unit of either outcome is worth, in halves. */
  function Worth(outcome: Outcome, outcomeA: bool): nat {
    match outcome
    case ParticipantA => if outcomeA then 2 else 0
    case ParticipantB => if outcomeA then 0 else 2
    case Tie => 1
    case Invalid => 1
    case Unset => 0
  }

  /** `paid` is worth these positions, rounded down to a whole unit. */
  ghost predicate PaysWorth(outcome: Outcome, amountA: nat, amountB: nat, paid: int) {
    2 * paid <= Worth(outcome, true) * amountA + Worth(outcome, false) * amountB <= 2 * paid + 1
  }

  /** A redemption pays what the positions are worth, takes all of them, and touches
      nobody else's; a pair of positions is worth one unit whatever the outcome. */
  lemma RedemptionOfBook(b: Book, outcome: Outcome, user: Address)
    requires RedeemPositions(b, outcome, user).Ok? && !outcome.Unset?
    ensures
      var c := RedeemPositions(b, outcome, user).value;
      && PaysWorth(outcome, PositionOf(b.wallets, user, true), PositionOf(b.wallets, user, false),
                   Get(c.purse.sent, user) - Get(b.purse.sent, user))
      && PositionOf(c.wallets, user, true) == PositionOf(c.wallets, user, false) == 0
      && (forall p: Address | p != user :: SameHoldings(b, c, p))
    ensures Worth(outcome, true) + Worth(outcome, false) == 2
  {
  }

  /** A settlement burns all shares of a provider and pays what the provider's part
      of both reserves is worth, the part rounded down; the fees owed stay. */
  lemma SettlementOfBook(b: Book, outcome: Outcome, user: Address)
    requires SettleLpInventory(b, outcome, user).Ok? && !outcome.Unset?
    ensures
      var c := SettleLpInventory(b, outcome, user).value;
      var shares, supply := Get(b.fees.lpShares, user), b.fees.totalLpShares;
      var partA, partB := b.pool.reserveA - c.pool.reserveA, b.pool.reserveB - c.pool.reserveB;
      && PaysWorth(outcome, partA, partB, Get(c.purse.sent, user) - Get(b.purse.sent, user))
      && partA * supply <= b.pool.reserveA * shares < partA * supply + supply
      && partB * supply <= b.pool.reserveB * shares < partB * supply + supply
      && Get(c.fees.lpShares, user) == 0 && c.fees.totalLpShares == supply - shares
      && Get(c.fees.lpFeeCredit, user) >= Get(b.fees.lpFeeCredit, user)
      && (forall p: Address | p != user :: SameHoldings(b, c, p))
  {
    hide BurnShares, SameHoldings;
    BurnTakesShares(b.fees, user);
    assert BurnShares(b.fees, user).Ok?;
    SettlementSparesOthers(b, outcome, user);
  }

  lemma BurnTakesShares(f: FeeIndex, user: Address)
    ensures
      var r := BurnShares(f, user);
      r.Ok? ==>
        && Get(r.value.lpShares, user) == 0
        && r.value.totalLpShares == f.totalLpShares - Get(f.lpShares, user)
        && Get(r.value.lpFeeCredit, user) >= Get(f.lpFeeCredit, user)
        && (forall p: Address | p != user ::
              && Get(r.value.lpShares, p) == Get(f.lpShares, p)
              && Get(r.value.lpFeeCredit, p) == Get(f.lpFeeCredit, p))
  {
    hide MulDiv;
  }

  lemma SettlementSparesOthers(b: Book, outcome: Outcome, user: Address)
    requires SettleLpInventory(b, outcome, user).Ok?
    ensures forall p: Address | p != user :: SameHoldings(b, SettleLpInventory(b, outcome, user).value, p)
  {
    hide BurnShares, MulDiv, ResolvedValue;
    BurnTakesShares(b.fees, user);
  }

  /** Who gets the challenge bond: the challenger when the challenge is accepted or
      runs out, which makes the market invalid, and the bond recipient when it is
      rejected, which upholds the provisional result. Until then it is held. */
  lemma ChallengeBondGoes(m: Market, msg: Msg, call: Call)
    requires Inv(m, msg.now) && Apply(m, msg, call).Ok? && (call.VerdictCall? || call.ExpireCall?)
    ensures
      var n := Apply(m, msg, call).value;
      var upheld := call.VerdictCall? && !call.accept;
      var to := if upheld then m.config.bondRecipient else m.ruling.challenger;
      if n.ruling.finalOutcome.Unset? then
        && n.book == m.book && call.VerdictCall?
        && |VerdictBy(n.ruling, call.accept)| == 1
      else
        && Get(n.book.purse.sent, to) == Get(m.book.purse.sent, to) + CHALLENGE_BOND
        && n.book.purse.held == m.book.purse.held - CHALLENGE_BOND
        && n.ruling.finalOutcome == (if upheld then m.ruling.provisionalOutcome else Invalid)
        && (call.VerdictCall? ==> |VerdictBy(n.ruling, call.accept)| == 2)
        && (call.ExpireCall? ==> m.ruling.challengedAt + m.config.challengeTimeout <= msg.now)
  {
    if call.VerdictCall? {
      VerdictPays(m, msg, call.accept);
    } else {
      hide Inv, Decide, Get;
      BondIsHeld(m, msg.now);
      DecisionPays(m, m.ruling.challenger, Invalid);
    }
  }

  lemma BondIsHeld(m: Market, now: Uint64)
    requires Inv(m, now)
    ensures CountsOk(m.ruling, m.config)
    ensures m.ruling.challenged && m.ruling.finalOutcome.Unset? ==>
      && m.ruling.challengeBond == CHALLENGE_BOND && !m.ruling.provisionalOutcome.Unset?
      && |VerdictBy(m.ruling, true)| <= 1 && |VerdictBy(m.ruling, false)| <= 1
  {
    hide BookOk, QueueOk, GateOk, ConfigOk, TallyOf, CountsOk;
  }

  lemma VerdictPays(m: Market, msg: Msg, accept: bool)
    requires Inv(m, msg.now) && AttestChallengeVerdict(m, msg, accept).Ok?
    ensures
      var n := AttestChallengeVerdict(m, msg, accept).value;
      var to: Address := if accept then m.ruling.challenger else m.config.bondRecipient;
      if n.ruling.finalOutcome.Unset? then n.book == m.book && |VerdictBy(n.ruling, accept)| == 1
      else
        && Get(n.book.purse.sent, to) == Get(m.book.purse.sent, to) + CHALLENGE_BOND
        && n.book.purse.held == m.book.purse.held - CHALLENGE_BOND
        && n.ruling.finalOutcome == (if accept then Invalid else m.ruling.provisionalOutcome)
        && |VerdictBy(n.ruling, accept)| == 2
  {
    hide BookOk, QueueOk, GateOk, ConfigOk, TallyOf, CountsOk, RulingOk, Voted, Get, Voters, Decide;
    var voted := m.(ruling := Voted(m.ruling, msg.sender, accept));
    BondIsHeld(m, msg.now);
    VoteCounts(m.ruling, m.config, msg.sender, accept);
    assert voted.ruling.challengeBond == CHALLENGE_BOND && voted.book == m.book;
    if accept {
      DecisionPays(voted, m.ruling.challenger, Invalid);
    } else {
      DecisionPays(voted, m.config.bondRecipient, m.ruling.provisionalOutcome);
    }
  }

  lemma DecisionPays(m: Market, to: Address, outcome: Outcome)
    ensures
      var r := Decide(m, to, outcome);
      r.Ok? ==>
        && Get(r.value.book.purse.sent, to) == Get(m.book.purse.sent, to) + m.ruling.challengeBond
        && r.value.book.purse.held == m.book.purse.held - m.ruling.challengeBond
        && r.value.ruling == m.ruling.(challengeBond := 0, finalOutcome := outcome)
  {
  }

  lemma VoteCounts(r: Ruling, c: Config, sender: Address, accept: bool)
    requires CountsOk(r, c) && sender !in VerdictBy(r, accept)
    ensures Get(Voted(r, sender, accept).verdictCount, accept) == |VerdictBy(Voted(r, sender, accept), accept)|
            == |VerdictBy(r, accept)| + 1
    ensures Voted(r, sender, accept) == r.(verdictBy := Voted(r, sender, accept).verdictBy,
                                           verdictCount := Voted(r, sender, accept).verdictCount)
  {
    hide Get, Voters;
    VotesCounted(r, c, accept);
    CountedVote(r.verdictCount, r.verdictBy, accept, sender, accept);
  }

  // ------------------------------------------------------- restricted wallets

  ghost predicate HoldsNothing(b: Book, p: Address) {
    && PositionOf(b.wallets, p, true) == 0 && PositionOf(b.wallets, p, false) == 0
    && Get(b.fees.lpShares, p) == 0 && Get(b.fees.lpFeeCredit, p) == 0
    && Get(b.rewards.winnerFeePaid, p) == 0
  }

  ghost predicate Barred(m: Market) {
    && (forall i :: 0 <= i < |m.queue.actions| ==>
          m.queue.actions[i].user !in m.restricted && Beneficiary(m.queue.actions[i]) !in m.restricted)
    && (forall p :: p in m.restricted ==> HoldsNothing(m.book, p))
  }

  lemma RefundTouchesUser(b: Book, a: Action, p: Address)
    requires p != a.user && HoldsNothing(b, p)
    ensures Refund(b, a).Ok? ==> HoldsNothing(Refund(b, a).value, p)
  {
  }

  lemma SettleNextKeepsBarred(m: Market, now: Uint64, epoch: Uint64)
    requires Barred(m) && SettleNext(m, now, epoch).Ok?
    ensures Barred(SettleNext(m, now, epoch).value)
  {
    hide TryExecute, Refund, Delivers;
    var id := Ids(m.queue, epoch)[Get(m.queue.epochCursor, epoch)];
    var a := m.queue.actions[id];
    var n := SettleNext(m, now, epoch).value;
    ExecutionHonoursUser(m.book, a, m.config.winnerRewardBps);
    forall p | p in m.restricted ensures HoldsNothing(n.book, p) {
      assert HoldsNothing(m.book, p);
      assert m.queue.actions[id].user !in m.restricted && Beneficiary(m.queue.actions[id]) !in m.restricted;
      RefundTouchesUser(m.book, a, p);
      if n.queue.actions[id].status.Executed? && n.book != m.book {
        assert SameHoldings(m.book, n.book, p);
      }
    }
  }

  lemma {:induction false} DrainKeepsBarred(m: Market, now: Uint64, epoch: Uint64, count: nat)
    requires Barred(m) && Drain(m, now, epoch, count).Ok?
    ensures Barred(Drain(m, now, epoch, count).value)
    decreases count
  {
    hide SettleNext, Barred;
    if count != 0 {
      SettleNextKeepsBarred(m, now, epoch);
      DrainKeepsBarred(SettleNext(m, now, epoch).value, now, epoch, count - 1);
    }
  }

  /** The books agree on what a restricted wallet holds, and any new action is
      not theirs. */
  lemma BarredCarriesOver(m: Market, n: Market)
    requires Barred(m) && n.restricted == m.restricted
    requires |m.queue.actions| <= |n.queue.actions| <= |m.queue.actions| + 1
    requires n.queue.actions[..|m.queue.actions|] == m.queue.actions
    requires |m.queue.actions| < |n.queue.actions| ==>
      n.queue.actions[|m.queue.actions|].user !in m.restricted
        && Beneficiary(n.queue.actions[|m.queue.actions|]) !in m.restricted
    requires forall p :: p in m.restricted && HoldsNothing(m.book, p) ==> HoldsNothing(n.book, p)
    ensures Barred(n)
  {
    hide HoldsNothing;
    forall i | 0 <= i < |n.queue.actions|
      ensures n.queue.actions[i].user !in n.restricted && Beneficiary(n.queue.actions[i]) !in n.restricted
    {
      if i < |m.queue.actions| {
        assert n.queue.actions[i] == n.queue.actions[..|m.queue.actions|][i] == m.queue.actions[i];
      }
    }
  }

  lemma SubmissionKeepsBarred(m: Market, msg: Msg, call: Call)
    requires Barred(m) && Apply(m, msg, call).Ok?
    requires call.BuyCall? || call.AddLiquidityCall? || call.AddLiquidityForCall? || call.SellCall?
      || call.TransferCall?
    ensures Barred(Apply(m, msg, call).value)
  {
    hide CurrentEpoch, IsReady, RequireActionWindow, Barred;
    var n := Apply(m, msg, call).value;
    BarredCarriesOver(m, n);
  }

  lemma ClaimKeepsBarred(m: Market, msg: Msg, call: Call)
    requires Barred(m) && Apply(m, msg, call).Ok?
    requires call.RedeemCall? || call.ClaimRewardCall? || call.RefundFeeCall? || call.PostBondCall?
      || call.ClaimBondCall?
    ensures Barred(Apply(m, msg, call).value)
  {
    hide ResolvedValue, WinnerReward, Barred;
    BarredCarriesOver(m, Apply(m, msg, call).value);
  }

  lemma ApplyKeepsBarred(m: Market, msg: Msg, call: Call)
    requires Barred(m) && Apply(m, msg, call).Ok?
    ensures Barred(Apply(m, msg, call).value)
  {
    hide Drain, CurrentEpoch, Barred, TakeFees, SettleLpInventory;
    if call.ProcessCall? {
      if 0 < Remaining(m.queue, call.epoch) && call.maximum != 0 {
        DrainKeepsBarred(m, msg.now, call.epoch, Min(call.maximum, Remaining(m.queue, call.epoch)));
      }
    } else if call.ClaimFeesCall? || call.SettleLpCall? {
      NoSharesNoAccrual(m, msg);
    } else if call.BuyCall? || call.AddLiquidityCall? || call.AddLiquidityForCall? || call.SellCall?
      || call.TransferCall? {
      SubmissionKeepsBarred(m, msg, call);
    } else if call.RedeemCall? || call.ClaimRewardCall? || call.RefundFeeCall? || call.PostBondCall?
      || call.ClaimBondCall? {
      ClaimKeepsBarred(m, msg, call);
    } else {
      BarredCarriesOver(m, Apply(m, msg, call).value);
    }
  }

  lemma NoSharesNoAccrual(m: Market, msg: Msg)
    requires Barred(m)
    ensures ClaimFees(m, msg).Ok? ==> Barred(ClaimFees(m, msg).value)
    ensures SettleLp(m, msg).Ok? ==> Barred(SettleLp(m, msg).value)
  {
    hide Barred;
    if msg.sender in m.restricted {
      NothingToAccrue(m, msg.sender);
    }
    if ClaimFees(m, msg).Ok? {
      hide SettleLpInventory, HoldsNothing;
      ClaimLeavesOthers(m.book, msg.sender);
      BarredCarriesOver(m, ClaimFees(m, msg).value);
    }
    if SettleLp(m, msg).Ok? {
      hide ClaimLpFees, HoldsNothing;
      SettleLeavesOthers(m.book, m.ruling.finalOutcome, msg.sender);
      BarredCarriesOver(m, SettleLp(m, msg).value);
    }
  }

  /** A restricted wallet has nothing to claim and no shares to settle. */
  lemma NothingToAccrue(m: Market, p: Address)
    requires Barred(m) && p in m.restricted
    ensures ClaimLpFees(m.book, p).Revert?
    ensures SettleLpInventory(m.book, m.ruling.finalOutcome, p).Revert?
  {
    hide MulDiv, ResolvedValue;
    assert HoldsNothing(m.book, p);
    assert 0 * m.book.fees.feePerShare == 0;
  }

  lemma ClaimLeavesOthers(b: Book, user: Address)
    requires ClaimLpFees(b, user).Ok?
    ensures forall p: Address :: p != user && HoldsNothing(b, p) ==> HoldsNothing(ClaimLpFees(b, user).value, p)
  {
    hide MulDiv;
  }

  lemma SettleLeavesOthers(b: Book, outcome: Outcome, user: Address)
    requires SettleLpInventory(b, outcome, user).Ok?
    ensures forall p: Address :: p != user && HoldsNothing(b, p) ==>
      HoldsNothing(SettleLpInventory(b, outcome, user).value, p)
  {
    hide MulDiv, ResolvedValue;
  }

  lemma {:induction false} RunKeepsBarred(m: Market, events: seq<Event>)
    requires Barred(m)
    ensures Barred(Run(m, events))
    decreases |events|
  {
    hide Barred, Apply;
    if events != [] {
      if Apply(m, events[0].msg, events[0].call).Ok? {
        ApplyKeepsBarred(m, events[0].msg, events[0].call);
      }
      RunKeepsBarred(Step(m, events[0].msg, events[0].call), events[1..]);
    }
  }

  /** The participants, their reward addresses, the gate, the resolvers, the router
      and every other restricted wallet never hold a position or a share. */
  lemma RestrictedWalletsHoldNothing(c: Config, additional: set<Address>, events: seq<Event>, p: Address)
    requires p in RestrictedBy(c, additional)
    ensures HoldsNothing(Reached(c, additional, events).book, p)
  {
    hide Run;
    RunKeepsBarred(NewMarket(c, additional), events);
    RunEvolves(NewMarket(c, additional), events);
  }

  // ---------------------------------------------------------------- the pool

  /** No execution lowers the reserve product. */
  lemma ExecutionGrowsPool(b: Book, a: Action, bps: nat)
    requires bps <= MAX_WINNER_REWARD_BPS && 0 < a.amount
    ensures
      var r := TryExecute(b, a, bps);
      r.Ok? && r.value.Filled? ==> Product(b.pool) <= Product(r.value.book.pool)
  {
    hide QuoteBuy, QuoteSell, QuoteLiquidity, SaleFeasible;
    var s, o := Reserve(b.pool, a.outcomeA), Reserve(b.pool, !a.outcomeA);
    match a.kind
    case Buy => BuyKeepsProduct(s, o, a.amount, bps);
    case Sell => SellKeepsProduct(s, o, a.amount);
    case AddLiquidity =>
      if TryExecute(b, a, bps).Ok? && TryExecute(b, a, bps).value.Filled? {
        var c := TryExecute(b, a, bps).value.book;
        MulMono(b.pool.reserveA, c.pool.reserveA, b.pool.reserveB);
        MulMono(b.pool.reserveB, c.pool.reserveB, c.pool.reserveA);
      }
    case TransferPosition =>
  }

  lemma BuyKeepsProduct(selected: nat, other: nat, budget: nat, bps: nat)
    requires bps <= MAX_WINNER_REWARD_BPS && 0 < budget
    ensures QuoteBuy(selected, other, budget, bps).Ok?
    ensures
      var q := QuoteBuy(selected, other, budget, bps).value;
      selected * other <= q.newSelectedReserve * q.newOtherReserve
  {
    hide QuoteBuy;
    BuyQuoteSound(selected, other, budget, bps);
  }

  lemma SellKeepsProduct(selected: nat, other: nat, positionsIn: nat)
    ensures QuoteSell(selected, other, positionsIn).Ok?
    ensures
      var q := QuoteSell(selected, other, positionsIn).value;
      selected * other <= q.newSelectedReserve * q.newOtherReserve
  {
    hide QuoteSell;
    SellQuoteSound(selected, other, positionsIn);
  }

  lemma SettleNextGrowsPool(m: Market, now: Uint64, epoch: Uint64)
    requires Inv(m, now) && SettleNext(m, now, epoch).Ok?
    ensures Product(m.book.pool) <= Product(SettleNext(m, now, epoch).value.book.pool)
  {
    hide GateOk, RulingOk, MoneyOk, TryExecute, Product, EpochOk;
    var id := Ids(m.queue, epoch)[Get(m.queue.epochCursor, epoch)];
    var a := m.queue.actions[id];
    assert ActionOk(a);
    ExecutionGrowsPool(m.book, a, m.config.winnerRewardBps);
  }

  lemma {:induction false} DrainGrowsPool(m: Market, now: Uint64, epoch: Uint64, count: nat)
    requires Inv(m, now) && count <= Remaining(m.queue, epoch) && Drain(m, now, epoch, count).Ok?
    ensures Product(m.book.pool) <= Product(Drain(m, now, epoch, count).value.book.pool)
    decreases count
  {
    hide Inv, SettleNext, Product;
    if count != 0 {
      SettleNextKeeps(m, now, epoch);
      SettleNextGrowsPool(m, now, epoch);
      DrainGrowsPool(SettleNext(m, now, epoch).value, now, epoch, count - 1);
    }
  }

  lemma ApplyGrowsPool(m: Market, msg: Msg, call: Call)
    requires Inv(m, msg.now) && Apply(m, msg, call).Ok? && Apply(m, msg, call).value.ruling.finalOutcome.Unset?
    ensures Product(m.book.pool) <= Product(Apply(m, msg, call).value.book.pool)
  {
    hide Inv, Drain, CurrentEpoch, RequireTrader, RequireActionWindow, TakeFees, WinnerReward, Product, DebitPosition,
      SettleLpInventory;
    if call.ProcessCall? && 0 < Remaining(m.queue, call.epoch) && call.maximum != 0 {
      DrainGrowsPool(m, msg.now, call.epoch, Min(call.maximum, Remaining(m.queue, call.epoch)));
    }
  }

  lemma {:induction false} RunGrowsPool(m: Market, t: Uint64, events: seq<Event>)
    requires Inv(m, t) && Chronological(t, events) && Run(m, events).ruling.finalOutcome.Unset?
    ensures Product(m.book.pool) <= Product(Run(m, events).book.pool)
    decreases |events|
  {
    hide Inv, Apply, Product;
    if events != [] {
      var e := events[0];
      var next := Step(m, e.msg, e.call);
      StepKeeps(m, t, e.msg, e.call);
      InvLater(m, t, e.msg.now);
      RunEvolves(next, events[1..]);
      if Apply(m, e.msg, e.call).Ok? {
        ApplyGrowsPool(m, e.msg, e.call);
      }
      RunGrowsPool(next, e.msg.now, events[1..]);
    }
  }

  /** Until the outcome is known the reserve product never falls, over any run of
      purchases, sales and additions by anyone. */
  lemma PoolNeverLosesValue(c: Config, additional: set<Address>, start: Uint64, events: seq<Event>, more: seq<Event>)
    requires ConfigOk(c) && Chronological(start, events) && Chronological(End(start, events), more)
    ensures
      var m := Reached(c, additional, events);
      Run(m, more).ruling.finalOutcome.Unset? ==> Product(m.book.pool) <= Product(Run(m, more).book.pool)
  {
    hide Run, Inv, Product;
    ReachableOk(c, additional, start, events);
    if Run(Reached(c, additional, events), more).ruling.finalOutcome.Unset? {
      RunGrowsPool(Reached(c, additional, events), End(start, events), more);
    }
  }

  lemma {:induction false} RunGrowsRewardsEarly(m: Market, t: Uint64, events: seq<Event>)
    requires Inv(m, t) && Chronological(t, events) && RewardsFair(m) && Run(m, events).ruling.finalOutcome.Unset?
    ensures m.book.rewards.winnerRewardPool <= Run(m, events).book.rewards.winnerRewardPool
    decreases |events|
  {
    hide Inv, Apply, RewardsFair;
    if events != [] {
      var e := events[0];
      var next := Step(m, e.msg, e.call);
      StepKeeps(m, t, e.msg, e.call);
      InvLater(m, t, e.msg.now);
      RunEvolves(next, events[1..]);
      if Apply(m, e.msg, e.call).Ok? {
        ApplyKeepsRewards(m, e.msg, e.call);
        if e.call.ClaimRewardCall? || e.call.RefundFeeCall? {
          NoEarlyPayouts(m, e.msg, e.call);
        }
      }
      RunGrowsRewardsEarly(next, e.msg.now, events[1..]);
    }
  }

  lemma NoEarlyPayouts(m: Market, msg: Msg, call: Call)
    requires Apply(m, msg, call).Ok? && (call.ClaimRewardCall? || call.RefundFeeCall?)
    ensures !Apply(m, msg, call).value.ruling.finalOutcome.Unset?
  {
  }

  /** All positions of an outcome outside the pool: in wallets and in escrow. */
  ghost function Outside(m: Market, outcomeA: bool): nat {
    var escrow := TallyOf(m.queue.actions);
    if outcomeA then Sum(m.book.wallets.positionA) + escrow.positionsA
      else Sum(m.book.wallets.positionB) + escrow.positionsB
  }

  /** The collateral the market holds, but for what it has in escrow, set aside for
      providers, or as bonds. */
  function Committed(m: Market): int {
    m.book.purse.held - m.book.pendingCollateral - m.book.fees.unclaimedLpFees - BondsHeld(m)
  }

  lemma Backing(m: Market, t: Uint64)
    requires Inv(m, t) && m.ruling.finalOutcome.Unset?
    ensures m.book.pool.reserveA + Outside(m, true) == m.book.collateralBacking
    ensures m.book.pool.reserveB + Outside(m, false) == m.book.collateralBacking
    ensures Committed(m) == m.book.collateralBacking + m.book.rewards.winnerRewardPool
  {
    hide QueueOk, GateOk, RulingOk, FeesOk, Sum, TallyOf;
  }

  /** No arbitrage over whole runs of a market: until the outcome is known, and
      however people trade, add liquidity and claim fees, they cannot together come by
      collateral that was not in escrow, set aside for providers or posted as a bond,
      unless they are left with fewer positions of an outcome. */
  lemma NoArbitrageOverRuns(c: Config, additional: set<Address>, start: Uint64, events: seq<Event>, more: seq<Event>)
    requires ConfigOk(c) && Chronological(start, events) && Chronological(End(start, events), more)
    ensures
      var m := Reached(c, additional, events);
      var n := Run(m, more);
      0 < m.book.pool.reserveA && 0 < m.book.pool.reserveB && n.ruling.finalOutcome.Unset? ==>
        !(Outside(m, true) <= Outside(n, true) && Outside(m, false) <= Outside(n, false) && Committed(n) < Committed(m))
  {
    hide Run, Inv, Product, RewardsFair, Outside, Committed;
    var m := Reached(c, additional, events);
    var n := Run(m, more);
    var t := End(start, events);
    ReachableOk(c, additional, start, events);
    ReachableRewards(c, additional, start, events);
    RunEvolves(m, more);
    if 0 < m.book.pool.reserveA && 0 < m.book.pool.reserveB && n.ruling.finalOutcome.Unset? {
      RunKeeps(m, t, more);
      RunGrowsPool(m, t, more);
      RunGrowsRewardsEarly(m, t, more);
      Backing(m, t);
      Backing(n, End(t, more));
      ReservesCannotBothFall(m.book.pool, n.book.pool);
    }
  }

  lemma ReservesCannotBothFall(p: Pool, q: Pool)
    requires 0 < p.reserveA && 0 < p.reserveB && Product(p) <= Product(q)
    ensures p.reserveA <= q.reserveA || p.reserveB <= q.reserveB
  {
    if q.reserveA < p.reserveA && q.reserveB < p.reserveB {
      MulMono(q.reserveA, p.reserveA - 1, q.reserveB);
      MulMono(q.reserveB, p.reserveB - 1, p.reserveA - 1);
      ShrinkingProductFalls(p.reserveA, p.reserveB, 1);
    }
  }

  /** An addition dilutes the providers before it by less than one unit of either
      reserve, and not at all in the larger one: its shares claim less of what was
      there than it adds, but for that unit. */
  lemma AdditionBarelyDilutes(p: Pool, supply: nat, amount: nat)
    requires 0 < supply && 0 < Max(p.reserveA, p.reserveB)
    ensures QuoteLiquidity(p, supply, amount).Ok?
    ensures
      var q := QuoteLiquidity(p, supply, amount).value;
      && Dilutes(p.reserveA, supply, amount, q.shares, q.addedA, p.reserveA >= p.reserveB)
      && Dilutes(p.reserveB, supply, amount, q.shares, q.addedB, p.reserveB >= p.reserveA)
  {
    hide MulDiv, Dilutes;
    var largest: nat := Max(p.reserveA, p.reserveB);
    OneSide(p.reserveA, supply, amount, largest);
    OneSide(p.reserveB, supply, amount, largest);
  }

  /** Against one reserve: at most the amount is added, and what the new shares claim
      of the old reserve exceeds it by less than one unit, or not at all. */
  ghost predicate Dilutes(reserve: nat, supply: nat, amount: nat, shares: nat, added: nat, larger: bool) {
    && added <= amount
    && reserve * shares < (added + 1) * supply
    && (larger ==> added == amount && reserve * shares <= added * supply)
  }

  lemma OneSide(reserve: nat, supply: nat, amount: nat, largest: nat)
    requires 0 < supply && 0 < largest && reserve <= largest
    ensures Dilutes(reserve, supply, amount, MulDiv(amount, supply, largest), MulDiv(amount, reserve, largest),
                    reserve == largest)
  {
    hide MulDiv;
    var shares, added := MulDiv(amount, supply, largest), MulDiv(amount, reserve, largest);
    PartAgainstShares(reserve, supply, amount, largest, shares, added);
    WholePart(amount, largest);
    AtMostWhole(amount, reserve, largest, added);
  }

  lemma AtMostWhole(amount: nat, reserve: nat, largest: nat, added: nat)
    requires reserve <= largest && 0 < largest && added * largest <= amount * reserve
    ensures added <= amount
  {
    MulMono(reserve, largest, amount);
    assert (amount + 1) * largest == amount * largest + largest;
    MulCancel(added, amount + 1, largest);
  }

  lemma PartAgainstShares(reserve: nat, supply: nat, amount: nat, largest: nat, shares: nat, added: nat)
    requires 0 < supply && 0 < largest
    requires shares * largest <= amount * supply && amount * reserve < added * largest + largest
    ensures reserve * shares < (added + 1) * supply
    ensures largest * shares <= amount * supply
  {
    MulMono(shares * largest, amount * supply, reserve);
    var bound := (added + 1) * largest;
    assert amount * reserve + 1 <= bound;
    MulMono(amount * reserve + 1, bound, supply);
    Regroup(reserve, shares, largest, amount, supply, added + 1);
    MulCancel(reserve * shares, (added + 1) * supply, largest);
  }

  lemma Regroup(r: nat, s: nat, l: nat, a: nat, t: nat, d: nat)
    ensures r * (s * l) == r * s * l && r * (a * t) == a * r * t && d * l * t == d * t * l
    ensures (a * r + 1) * t == a * r * t + t
  {
  }

  lemma WholePart(amount: nat, largest: nat)
    requires 0 < largest
    ensures MulDiv(amount, largest, largest) == amount
  {
    hide MulDiv;
    var q := MulDiv(amount, largest, largest);
    assert (amount + 1) * largest == amount * largest + largest && (q + 1) * largest == q * largest + largest;
    MulCancel(q, amount + 1, largest);
    MulCancel(amount, q + 1, largest);
  }
}
