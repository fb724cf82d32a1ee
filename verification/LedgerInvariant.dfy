/** What every operation of the ledger keeps: complete-set backing before the
    outcome is known, solvency after it, the fee-index bound, escrow and token
    conservation. Each lemma also shows that its operation does not revert. */
module LedgerInvariant {
  import opened Prelude
  import opened Ledger
  import opened MarketMath

  // ------------------------------------------------------- pending actions

  /** What a set of actions holds in escrow: collateral, the part of it that is
      purchase budgets, and positions of either outcome. `additions` counts the
      executed liquidity additions. */
  datatype Tally = Tally(collateral: nat, budgets: nat, positionsA: nat, positionsB: nat, additions: nat) {
    function Plus(t: Tally): Tally {
      Tally(collateral + t.collateral, budgets + t.budgets, positionsA + t.positionsA, positionsB + t.positionsB,
            additions + t.additions)
    }
  }

  const NOTHING: Tally := Tally(0, 0, 0, 0, 0)

  function Weigh(a: Action): Tally {
    match a.status
    case Refunded => NOTHING
    case Executed => if a.kind.AddLiquidity? then NOTHING.(additions := 1) else NOTHING
    case Pending =>
      match a.kind
      case Buy => NOTHING.(collateral := a.amount, budgets := a.amount)
      case AddLiquidity => NOTHING.(collateral := a.amount)
      case Sell => if a.outcomeA then NOTHING.(positionsA := a.amount) else NOTHING.(positionsB := a.amount)
      case TransferPosition => if a.outcomeA then NOTHING.(positionsA := a.amount) else NOTHING.(positionsB := a.amount)
  }

  function TallyOf(actions: seq<Action>): Tally {
    if actions == [] then NOTHING
    else TallyOf(actions[..|actions| - 1]).Plus(Weigh(actions[|actions| - 1]))
  }

  lemma TallyAppend(actions: seq<Action>, a: Action)
    ensures TallyOf(actions + [a]) == TallyOf(actions).Plus(Weigh(a))
  {
    assert (actions + [a])[..|actions|] == actions;
  }

  /** The tally splits into one action and the rest, whatever that action becomes. */
  lemma {:induction false} TallySplit(actions: seq<Action>, i: nat, changed: Action) returns (rest: Tally)
    requires i < |actions|
    ensures TallyOf(actions) == rest.Plus(Weigh(actions[i]))
    ensures TallyOf(actions[i := changed]) == rest.Plus(Weigh(changed))
  {
    hide Weigh;
    var last := |actions| - 1;
    if i == last {
      rest := TallyOf(actions[..last]);
      assert actions[i := changed][..last] == actions[..last];
    } else {
      var before := TallySplit(actions[..last], i, changed);
      rest := before.Plus(Weigh(actions[last]));
      assert actions[i := changed][..last] == actions[..last][i := changed];
    }
  }

  // ------------------------------------------------------------ invariants

  /** All positions of one outcome: in the pool, in wallets, in escrow. */
  ghost function TotalA(b: Book, t: Tally): nat {
    b.pool.reserveA + Sum(b.wallets.positionA) + t.positionsA
  }

  ghost function TotalB(b: Book, t: Tally): nat {
    b.pool.reserveB + Sum(b.wallets.positionB) + t.positionsB
  }

  /** Before the outcome is known every unit of backing is one complete set;
      afterwards the resolved value of all positions is covered. */
  ghost predicate Covers(outcome: Outcome, totalA: nat, totalB: nat, backing: nat) {
    match outcome
    case Unset => totalA == totalB == backing
    case ParticipantA => totalA <= backing
    case ParticipantB => totalB <= backing
    case Tie => totalA + totalB <= 2 * backing
    case Invalid => totalA + totalB <= 2 * backing
  }

  ghost predicate Backed(b: Book, outcome: Outcome, t: Tally) {
    && Covers(outcome, TotalA(b, t), TotalB(b, t), b.collateralBacking)
    && (outcome == Unset && b.fees.totalLpShares == 0 ==> b.collateralBacking == 0 && t.budgets == 0)
    && (0 < b.fees.totalLpShares ==> 0 < b.pool.reserveA && 0 < b.pool.reserveB)
  }

  ghost predicate SharesOk(f: FeeIndex) {
    Sum(f.lpShares) == f.totalLpShares
  }

  /** The rounding the entry debts may have left behind, in units of 1/FEE_SCALE:
      less than one base unit for every addition after the first. */
  function Slack(additions: nat): nat {
    if additions == 0 then 0 else (FEE_SCALE - 1) * (additions - 1)
  }

  ghost predicate DebtsOk(f: FeeIndex) {
    forall p: Address :: Get(f.lpFeeDebt, p) <= Accumulated(f, p)
  }

  ghost predicate IndexOk(f: FeeIndex, additions: nat) {
    && (additions == 0 ==> f.totalLpShares == 0 && f.feePerShare == 0)
    && FEE_SCALE * Sum(f.lpFeeCredit) + f.feePerShare * f.totalLpShares
       <= FEE_SCALE * (f.unclaimedLpFees + Sum(f.lpFeeDebt)) + Slack(additions)
  }

  ghost predicate FeesOk(f: FeeIndex, additions: nat) {
    SharesOk(f) && DebtsOk(f) && IndexOk(f, additions)
  }

  ghost predicate RewardsOk(r: Rewards, winnerPaid: bool) {
    !winnerPaid ==> r.winnerRewardPool == Sum(r.winnerFeePaid)
  }

  /** `bonds` is what the market holds for integrity and challenge bonds. */
  ghost predicate CashOk(b: Book, t: Tally, bonds: nat) {
    && b.pendingCollateral == t.collateral
    && b.purse.held
       == b.collateralBacking + b.rewards.winnerRewardPool + b.fees.unclaimedLpFees + b.pendingCollateral + bonds
  }

  ghost predicate BookOk(b: Book, outcome: Outcome, t: Tally, bonds: nat, winnerPaid: bool) {
    && Backed(b, outcome, t)
    && FeesOk(b.fees, t.additions)
    && RewardsOk(b.rewards, winnerPaid)
    && CashOk(b, t, bonds)
  }

  /** What the submission guards promise about a recorded action. */
  predicate ActionOk(a: Action) {
    match a.kind
    case Buy => MIN_PURCHASE <= a.amount <= MAX_ACTION_AMOUNT
    case AddLiquidity => MIN_LIQUIDITY <= a.amount <= MAX_ACTION_AMOUNT
    case Sell => 0 < a.amount <= MAX_ACTION_AMOUNT
    case TransferPosition => 0 < a.amount <= MAX_ACTION_AMOUNT
  }

  lemma EmptyBookOk(b: Book, t: Tally)
    requires b == EMPTY_BOOK && t == NOTHING
    ensures BookOk(b, Unset, t, 0, false)
  {
    hide BookOk;
    ZeroBookOk(b, t);
  }

  lemma ZeroBookOk(b: Book, t: Tally)
    requires b.pool.reserveA == b.pool.reserveB == b.collateralBacking == b.pendingCollateral == b.purse.held == 0
    requires b.wallets.positionA == map[] && b.wallets.positionB == map[]
    requires b.rewards.winnerRewardPool == 0 && b.rewards.winnerFeePaid == map[]
    requires b.fees.totalLpShares == b.fees.feePerShare == b.fees.unclaimedLpFees == 0
    requires b.fees.lpShares == map[] && b.fees.lpFeeDebt == map[] && b.fees.lpFeeCredit == map[]
    requires t.collateral == t.budgets == t.positionsA == t.positionsB == t.additions == 0
    ensures BookOk(b, Unset, t, 0, false)
  {
    hide Sum, FeesOk;
    SumEmpty(b.wallets.positionA);
    SumEmpty(b.wallets.positionB);
    SumEmpty(b.rewards.winnerFeePaid);
    EmptyFeesOk(b.fees);
  }

  lemma EmptyFeesOk(f: FeeIndex)
    requires f.totalLpShares == 0 && f.feePerShare == 0
    requires f.lpShares == map[] && f.lpFeeDebt == map[] && f.lpFeeCredit == map[]
    ensures FeesOk(f, 0)
  {
    hide Sum, MulDiv;
    SumEmpty(f.lpShares);
    SumEmpty(f.lpFeeDebt);
    SumEmpty(f.lpFeeCredit);
    assert f.feePerShare * f.totalLpShares == 0;
  }

  // ---------------------------------------------------- elementary movements

  lemma CreditSum<K>(m: map<K, nat>, k: K, amount: nat)
    ensures Sum(Credit(m, k, amount)) == Sum(m) + amount
  {
    SumUpdate(m, k, Get(m, k) + amount);
  }

  lemma CreditPositionSums(w: Wallets, user: Address, outcomeA: bool, amount: nat)
    ensures
      var c := CreditPosition(w, user, outcomeA, amount);
      && Sum(c.positionA) == Sum(w.positionA) + (if outcomeA then amount else 0)
      && Sum(c.positionB) == Sum(w.positionB) + (if outcomeA then 0 else amount)
  {
    hide Sum;
    if outcomeA {
      CreditSum(w.positionA, user, amount);
    } else {
      CreditSum(w.positionB, user, amount);
    }
  }

  lemma DebitPositionSums(w: Wallets, user: Address, outcomeA: bool, amount: nat)
    requires DebitPosition(w, user, outcomeA, amount).Ok?
    ensures
      var c := DebitPosition(w, user, outcomeA, amount).value;
      && Sum(c.positionA) + (if outcomeA then amount else 0) == Sum(w.positionA)
      && Sum(c.positionB) + (if outcomeA then 0 else amount) == Sum(w.positionB)
  {
    hide Sum;
    if outcomeA {
      SumUpdate(w.positionA, user, Get(w.positionA, user) - amount);
    } else {
      SumUpdate(w.positionB, user, Get(w.positionB, user) - amount);
    }
  }

  // --------------------------------------------------------- the fee index

  lemma MulDivMono(x: nat, y: nat, y': nat, d: nat)
    requires 0 < d && y <= y'
    ensures MulDiv(x, y, d) <= MulDiv(x, y', d)
  {
    hide MulDiv;
    MulMono(y, y', x);
    var q, q' := MulDiv(x, y, d), MulDiv(x, y', d);
    assert q * d < q' * d + d == (q' + 1) * d;
    MulCancel(q, q' + 1, d);
  }

  /** Accruing moves a provider's earnings from the index to the credit exactly. */
  lemma AccrueKeeps(f: FeeIndex, provider: Address, additions: nat)
    requires FeesOk(f, additions)
    ensures
      var c := AccrueLp(f, provider);
      && FeesOk(c, additions)
      && Get(c.lpFeeCredit, provider) + Get(f.lpFeeDebt, provider)
        == Get(f.lpFeeCredit, provider) + Accumulated(f, provider)
      && Sum(c.lpFeeDebt) + Get(f.lpFeeDebt, provider) == Sum(f.lpFeeDebt) + Accumulated(f, provider)
      && Get(c.lpFeeDebt, provider) == Accumulated(c, provider) == Accumulated(f, provider)
      && c.lpShares == f.lpShares && c.totalLpShares == f.totalLpShares && c.feePerShare == f.feePerShare
      && c.unclaimedLpFees == f.unclaimedLpFees
  {
    hide MulDiv, Sum;
    var c := AccrueLp(f, provider);
    assert Get(f.lpFeeDebt, provider) <= Accumulated(f, provider);
    SumUpdate(f.lpFeeDebt, provider, Accumulated(f, provider));
    CreditSum(f.lpFeeCredit, provider, Accumulated(f, provider) - Get(f.lpFeeDebt, provider));
    forall p: Address ensures Get(c.lpFeeDebt, p) <= Accumulated(c, p) {
      assert Get(f.lpFeeDebt, p) <= Accumulated(f, p);
    }
  }

  /** A fee is shared out without exceeding itself. */
  lemma DistributeKeeps(f: FeeIndex, fee: nat, additions: nat)
    requires FeesOk(f, additions) && 0 < f.totalLpShares
    ensures FeesOk(Distribute(f, fee), additions)
  {
    hide MulDiv, Sum, Slack;
    var c := Distribute(f, fee);
    forall p: Address ensures Get(c.lpFeeDebt, p) <= Accumulated(c, p) {
      assert Get(f.lpFeeDebt, p) <= Accumulated(f, p);
      MulDivMono(Get(f.lpShares, p), f.feePerShare, c.feePerShare, FEE_SCALE);
    }
    var step := MulDiv(fee, FEE_SCALE, f.totalLpShares);
    assert c.feePerShare * c.totalLpShares == f.feePerShare * f.totalLpShares + step * f.totalLpShares;
  }

  /** New shares enter at a debt rounded down by less than one base unit, and
      earn nothing from before they were minted. */
  lemma MintKeeps(f: FeeIndex, provider: Address, shares: nat, additions: nat)
    requires FeesOk(f, additions)
    ensures
      var c := MintShares(f, provider, shares);
      && FeesOk(c, additions + 1)
      && Owed(c, provider) == Owed(f, provider)
      && Accumulated(c, provider) == Get(c.lpFeeDebt, provider)
      && c.totalLpShares == f.totalLpShares + shares
      && c.unclaimedLpFees == f.unclaimedLpFees
  {
    hide MulDiv, Sum, Slack, IndexOk;
    AccrueKeeps(f, provider, additions);
    var e := AccrueLp(f, provider);
    var c := MintShares(f, provider, shares);
    CreditSum(e.lpShares, provider, shares);
    SumUpdate(e.lpFeeDebt, provider, Accumulated(c, provider));
    forall p: Address ensures Get(c.lpFeeDebt, p) <= Accumulated(c, p) {
      assert Get(e.lpFeeDebt, p) <= Accumulated(e, p);
    }
    MintIndex(e, c, provider, shares, additions);
  }

  lemma MintIndex(e: FeeIndex, c: FeeIndex, provider: Address, shares: nat, additions: nat)
    requires IndexOk(e, additions)
    requires c.feePerShare == e.feePerShare && c.totalLpShares == e.totalLpShares + shares
    requires c.unclaimedLpFees == e.unclaimedLpFees && c.lpFeeCredit == e.lpFeeCredit
    requires Sum(c.lpFeeDebt) == Sum(e.lpFeeDebt) - Accumulated(e, provider) + Accumulated(c, provider)
    requires Get(c.lpShares, provider) == Get(e.lpShares, provider) + shares
    ensures IndexOk(c, additions + 1)
  {
    hide MulDiv, Sum;
    EntryRounding(Get(e.lpShares, provider), shares, e.feePerShare);
    assert c.feePerShare * c.totalLpShares == e.feePerShare * e.totalLpShares + e.feePerShare * shares;
    if additions == 0 {
      assert e.feePerShare * shares == 0;
      EntryAtZero(Get(e.lpShares, provider));
      EntryAtZero(Get(c.lpShares, provider));
    }
  }

  lemma EntryRounding(before: nat, shares: nat, index: nat)
    ensures index * shares + FEE_SCALE * MulDiv(before, index, FEE_SCALE)
         <= FEE_SCALE * MulDiv(before + shares, index, FEE_SCALE) + (FEE_SCALE - 1)
  {
    hide MulDiv;
    assert (before + shares) * index == before * index + shares * index;
  }

  lemma EntryAtZero(shares: nat)
    ensures MulDiv(shares, 0, FEE_SCALE) == 0
  {
    assert shares * 0 == 0;
  }

  lemma BurnKeeps(f: FeeIndex, provider: Address, additions: nat)
    requires FeesOk(f, additions)
    ensures BurnShares(f, provider).Ok?
    ensures
      var c := BurnShares(f, provider).value;
      && FeesOk(c, additions)
      && c.totalLpShares == f.totalLpShares - Get(f.lpShares, provider)
      && c.unclaimedLpFees == f.unclaimedLpFees
  {
    hide MulDiv, Sum, Slack, IndexOk;
    SumAtLeast(f.lpShares, provider);
    AccrueKeeps(f, provider, additions);
    var e := AccrueLp(f, provider);
    var c := BurnShares(f, provider).value;
    var shares := Get(f.lpShares, provider);
    SumUpdate(e.lpShares, provider, 0);
    SumUpdate(e.lpFeeDebt, provider, 0);
    forall p: Address ensures Get(c.lpFeeDebt, p) <= Accumulated(c, p) {
      assert Get(e.lpFeeDebt, p) <= Accumulated(e, p);
    }
    BurnIndex(e, c, provider, additions);
  }

  lemma BurnIndex(e: FeeIndex, c: FeeIndex, provider: Address, additions: nat)
    requires IndexOk(e, additions)
    requires c.feePerShare == e.feePerShare && c.totalLpShares == e.totalLpShares - Get(e.lpShares, provider)
    requires c.unclaimedLpFees == e.unclaimedLpFees && c.lpFeeCredit == e.lpFeeCredit
    requires Sum(c.lpFeeDebt) == Sum(e.lpFeeDebt) - Accumulated(e, provider)
    ensures IndexOk(c, additions)
  {
    hide MulDiv, Sum, Slack;
    var shares := Get(e.lpShares, provider);
    assert c.feePerShare * c.totalLpShares == e.feePerShare * e.totalLpShares - shares * e.feePerShare;
    assert FEE_SCALE * Accumulated(e, provider) <= shares * e.feePerShare;
  }

  /** A claim reverts only when nothing is owed or the provider is owed more than
      is left unclaimed. */
  lemma TakeKeeps(f: FeeIndex, provider: Address, additions: nat)
    requires FeesOk(f, additions)
    ensures TakeFees(f, provider).Ok? <==> 0 < Owed(f, provider) <= f.unclaimedLpFees
    ensures TakeFees(f, provider).Ok? ==>
      var (c, amount) := TakeFees(f, provider).value;
      && amount == Owed(f, provider)
      && FeesOk(c, additions)
      && c.unclaimedLpFees == f.unclaimedLpFees - amount
      && c.totalLpShares == f.totalLpShares
      && Owed(c, provider) == 0
      && (forall p: Address | p != provider :: Owed(c, p) == Owed(f, p))
  {
    hide MulDiv, Sum, Slack;
    AccrueKeeps(f, provider, additions);
    var e := AccrueLp(f, provider);
    assert forall p: Address :: Accumulated(e, p) == Accumulated(f, p);
    if TakeFees(f, provider).Ok? {
      var (c, amount) := TakeFees(f, provider).value;
      SumUpdate(e.lpFeeCredit, provider, 0);
      assert forall p: Address :: Accumulated(c, p) == Accumulated(f, p);
      forall p: Address ensures Get(c.lpFeeDebt, p) <= Accumulated(c, p) {
        assert Get(e.lpFeeDebt, p) <= Accumulated(e, p);
      }
    }
  }

  /** What `provider` could claim now: the credit and what has accrued since. */
  function Owed(f: FeeIndex, provider: Address): int {
    Get(f.lpFeeCredit, provider) + Accumulated(f, provider) - Get(f.lpFeeDebt, provider)
  }

  // --------------------------------------------------------------- execution

  /** An attempt never reverts; a fill keeps the book, with the action executed. */
  ghost predicate FillKeeps(r: Result<Fill>, outcome: Outcome, rest: Tally, a: Action, bonds: nat, winnerPaid: bool) {
    && r.Ok?
    && (r.value.Filled? ==> BookOk(r.value.book, outcome, rest.Plus(Weigh(a.(status := Executed))), bonds, winnerPaid))
  }

  /** A fee goes to the index, or to the backing when there are no shares, and
      either way it is accounted for. */
  lemma ShareOut(b: Book, fee: nat, additions: nat)
    requires FeesOk(b.fees, additions)
    ensures
      var c := DistributeLpFee(b, fee);
      && FeesOk(c.fees, additions)
      && c == b.(fees := c.fees, collateralBacking := c.collateralBacking)
      && c.fees.totalLpShares == b.fees.totalLpShares
      && c.collateralBacking + c.fees.unclaimedLpFees == b.collateralBacking + b.fees.unclaimedLpFees + fee
      && c.collateralBacking >= b.collateralBacking
      && (0 < b.fees.totalLpShares ==> c.collateralBacking == b.collateralBacking)
  {
    hide MulDiv, FeesOk;
    if 0 < b.fees.totalLpShares {
      DistributeKeeps(b.fees, fee, additions);
    }
  }

  /** A purchase mints `minted` complete sets out of the budget; the rest of the
      budget is the winner fee and the liquidity fee. */
  lemma BuyTotals(b: Book, a: Action, bps: nat, additions: nat) returns (minted: nat, reward: nat, fee: nat)
    requires FeesOk(b.fees, additions) && bps <= MAX_WINNER_REWARD_BPS && 0 < a.amount
    requires ExecuteBuy(b, a, bps).Ok? && ExecuteBuy(b, a, bps).value.Filled?
    ensures minted + reward + fee == a.amount && a.amount <= b.pendingCollateral
    ensures
      var c := ExecuteBuy(b, a, bps).value.book;
      && c.pool.reserveA + Sum(c.wallets.positionA) == b.pool.reserveA + Sum(b.wallets.positionA) + minted
      && c.pool.reserveB + Sum(c.wallets.positionB) == b.pool.reserveB + Sum(b.wallets.positionB) + minted
      && c.pendingCollateral == b.pendingCollateral - a.amount
      && c.rewards == Rewards(b.rewards.winnerRewardPool + reward, Credit(b.rewards.winnerFeePaid, a.user, reward))
      && c.purse == b.purse
      && FeesOk(c.fees, additions)
      && c.fees.totalLpShares == b.fees.totalLpShares
      && c.collateralBacking + c.fees.unclaimedLpFees == b.collateralBacking + b.fees.unclaimedLpFees + minted + fee
      && c.collateralBacking >= b.collateralBacking + minted
      && (0 < b.fees.totalLpShares ==> c.collateralBacking == b.collateralBacking + minted)
      && (0 < b.pool.reserveA && 0 < b.pool.reserveB ==> 0 < c.pool.reserveA && 0 < c.pool.reserveB)
  {
    hide QuoteBuy, MulDiv, FeesOk, Sum, DistributeLpFee, CreditPosition;
    var s, o := Reserve(b.pool, a.outcomeA), Reserve(b.pool, !a.outcomeA);
    BuyQuoteTotals(s, o, a.amount, bps);
    var q := QuoteBuy(s, o, a.amount, bps).value;
    minted, reward, fee := q.tradeInput, q.winnerRewardFee, q.liquidityFee;
    var paid := b.(pendingCollateral := b.pendingCollateral - a.amount,
                   collateralBacking := b.collateralBacking + q.tradeInput,
                   rewards := Rewards(b.rewards.winnerRewardPool + q.winnerRewardFee,
                                      Credit(b.rewards.winnerFeePaid, a.user, q.winnerRewardFee)));
    ShareOut(paid, q.liquidityFee, additions);
    CreditPositionSums(b.wallets, a.user, a.outcomeA, q.positionsOut);
  }

  lemma BuyDoesNotRevert(b: Book, a: Action, bps: nat)
    requires bps <= MAX_WINNER_REWARD_BPS && 0 < a.amount <= b.pendingCollateral
    ensures ExecuteBuy(b, a, bps).Ok?
  {
    hide QuoteBuy, DistributeLpFee, CreditPosition;
    BuyQuoteTotals(Reserve(b.pool, a.outcomeA), Reserve(b.pool, !a.outcomeA), a.amount, bps);
  }

  lemma ExecuteBuyKeeps(b: Book, a: Action, bps: nat, outcome: Outcome, rest: Tally, bonds: nat, winnerPaid: bool)
    requires BookOk(b, outcome, rest.Plus(Weigh(a)), bonds, winnerPaid)
    requires a.kind.Buy? && a.status.Pending? && ActionOk(a) && bps <= MAX_WINNER_REWARD_BPS
    ensures FillKeeps(ExecuteBuy(b, a, bps), outcome, rest, a, bonds, winnerPaid)
  {
    hide ExecuteBuy, FeesOk, Sum;
    BuyDoesNotRevert(b, a, bps);
    if ExecuteBuy(b, a, bps).value.Filled? {
      var minted, reward, fee := BuyTotals(b, a, bps, rest.additions);
      CreditSum(b.rewards.winnerFeePaid, a.user, reward);
    }
  }

  /** A sale burns `burnt` complete sets and one side's escrowed positions. */
  lemma SellTotals(b: Book, a: Action, additions: nat) returns (burnt: nat, fee: nat)
    requires FeesOk(b.fees, additions)
    requires ExecuteSell(b, a).Ok? && ExecuteSell(b, a).value.Filled?
    ensures fee <= burnt <= a.amount && burnt <= b.collateralBacking
    ensures
      var c := ExecuteSell(b, a).value.book;
      && c.pool.reserveA + burnt == b.pool.reserveA + (if a.outcomeA then a.amount else 0)
      && c.pool.reserveB + burnt == b.pool.reserveB + (if a.outcomeA then 0 else a.amount)
      && c.wallets == b.wallets && c.rewards == b.rewards && c.pendingCollateral == b.pendingCollateral
      && c.purse.held + (burnt - fee) == b.purse.held
      && FeesOk(c.fees, additions)
      && c.fees.totalLpShares == b.fees.totalLpShares
      && c.collateralBacking + c.fees.unclaimedLpFees + burnt == b.collateralBacking + b.fees.unclaimedLpFees + fee
      && c.collateralBacking + burnt >= b.collateralBacking
      && (0 < b.fees.totalLpShares ==> c.collateralBacking + burnt == b.collateralBacking)
      && (0 < b.pool.reserveA && 0 < b.pool.reserveB ==> 0 < c.pool.reserveA && 0 < c.pool.reserveB)
  {
    hide QuoteSell, MulDiv, FeesOk, DistributeLpFee;
    var s, o := Reserve(b.pool, a.outcomeA), Reserve(b.pool, !a.outcomeA);
    SellQuoteTotals(s, o, a.amount);
    var q := QuoteSell(s, o, a.amount).value;
    burnt, fee := q.grossCollateral, q.liquidityFee;
    ShareOut(b.(collateralBacking := b.collateralBacking - q.grossCollateral), q.liquidityFee, additions);
  }

  lemma SellDoesNotRevert(b: Book, a: Action)
    requires Min(a.amount, Reserve(b.pool, !a.outcomeA)) <= b.collateralBacking <= b.purse.held
    ensures ExecuteSell(b, a).Ok?
  {
    hide QuoteSell, MulDiv, Distribute;
    SellQuoteTotals(Reserve(b.pool, a.outcomeA), Reserve(b.pool, !a.outcomeA), a.amount);
  }

  lemma ExecuteSellKeeps(b: Book, a: Action, outcome: Outcome, rest: Tally, bonds: nat, winnerPaid: bool)
    requires BookOk(b, outcome, rest.Plus(Weigh(a)), bonds, winnerPaid)
    requires a.kind.Sell? && a.status.Pending? && ActionOk(a)
    ensures FillKeeps(ExecuteSell(b, a), outcome, rest, a, bonds, winnerPaid)
  {
    hide ExecuteSell, FeesOk, Sum;
    SellDoesNotRevert(b, a);
    if ExecuteSell(b, a).value.Filled? {
      var burnt, fee := SellTotals(b, a, rest.additions);
    }
  }

  /** Neither reserve receives more than the addition brought. */
  lemma QuoteLiquiditySound(p: Pool, totalLpShares: nat, amount: nat)
    requires 0 < totalLpShares ==> 0 < p.reserveA && 0 < p.reserveB
    ensures
      var r := QuoteLiquidity(p, totalLpShares, amount);
      r.Ok? && r.value.addedA <= amount && r.value.addedB <= amount
  {
    hide MulDiv;
    if 0 < totalLpShares {
      var largest := Max(p.reserveA, p.reserveB);
      MulMono(p.reserveA, largest, amount);
      MulMono(p.reserveB, largest, amount);
      var r := QuoteLiquidity(p, totalLpShares, amount).value;
      assert (amount + 1) * largest == amount * largest + largest;
      MulCancel(r.addedA, amount + 1, largest);
      MulCancel(r.addedB, amount + 1, largest);
    }
  }

  lemma CreditAdjustmentSums(w: Wallets, user: Address, outcomeA: bool, amount: nat)
    ensures
      var c := CreditAdjustment(w, user, outcomeA, amount);
      && Sum(c.positionA) == Sum(w.positionA) + (if outcomeA then amount else 0)
      && Sum(c.positionB) == Sum(w.positionB) + (if outcomeA then 0 else amount)
  {
    hide Sum;
    CreditPositionSums(w, user, outcomeA, amount);
  }

  /** An addition of `amount` brings that much of either outcome, part into the
      pool and part into the provider's wallet. */
  lemma AdditionTotals(b: Book, a: Action)
    requires ExecuteAddLiquidity(b, a).Ok? && ExecuteAddLiquidity(b, a).value.Filled?
    ensures
      var c := ExecuteAddLiquidity(b, a).value.book;
      && c.pool.reserveA + Sum(c.wallets.positionA) == b.pool.reserveA + Sum(b.wallets.positionA) + a.amount
      && c.pool.reserveB + Sum(c.wallets.positionB) == b.pool.reserveB + Sum(b.wallets.positionB) + a.amount
      && c.collateralBacking == b.collateralBacking + a.amount
      && c.pendingCollateral == b.pendingCollateral - a.amount
      && c.rewards == b.rewards && c.purse == b.purse
      && c.fees == MintShares(b.fees, a.user, ExecuteAddLiquidity(b, a).value.returned)
      && 0 < ExecuteAddLiquidity(b, a).value.returned
      && b.pool.reserveA <= c.pool.reserveA && b.pool.reserveB <= c.pool.reserveB
      && (b.fees.totalLpShares == 0 ==> 0 < c.pool.reserveA && 0 < c.pool.reserveB)
  {
    hide QuoteLiquidity, MulDiv, Sum, MintShares, CreditAdjustment;
    FirstAddition(b.pool, b.fees.totalLpShares, a.amount);
    var q := QuoteLiquidity(b.pool, b.fees.totalLpShares, a.amount).value;
    CreditAdjustmentSums(b.wallets, a.user, true, a.amount - q.addedA);
    CreditAdjustmentSums(CreditAdjustment(b.wallets, a.user, true, a.amount - q.addedA), a.user, false,
                         a.amount - q.addedB);
  }

  lemma ExecuteAddLiquidityKeeps(b: Book, a: Action, outcome: Outcome, rest: Tally, bonds: nat, winnerPaid: bool)
    requires BookOk(b, outcome, rest.Plus(Weigh(a)), bonds, winnerPaid)
    requires a.kind.AddLiquidity? && a.status.Pending? && ActionOk(a)
    ensures FillKeeps(ExecuteAddLiquidity(b, a), outcome, rest, a, bonds, winnerPaid)
  {
    hide QuoteLiquidity, MulDiv, FeesOk, Sum, MintShares, CreditAdjustment;
    QuoteLiquiditySound(b.pool, b.fees.totalLpShares, a.amount);
    var r := ExecuteAddLiquidity(b, a);
    if r.value.Filled? {
      hide ExecuteAddLiquidity;
      AdditionTotals(b, a);
      MintKeeps(b.fees, a.user, r.value.returned, rest.additions);
    }
  }

  lemma FirstAddition(p: Pool, totalLpShares: nat, amount: nat)
    ensures totalLpShares == 0 ==>
      QuoteLiquidity(p, totalLpShares, amount) == Ok(LiquidityQuote(amount, amount, amount))
  {
  }

  lemma ExecuteTransferKeeps(b: Book, a: Action, outcome: Outcome, rest: Tally, bonds: nat, winnerPaid: bool)
    requires BookOk(b, outcome, rest.Plus(Weigh(a)), bonds, winnerPaid)
    requires a.kind.TransferPosition? && a.status.Pending?
    ensures FillKeeps(ExecuteTransfer(b, a), outcome, rest, a, bonds, winnerPaid)
  {
    hide Sum, FeesOk, CreditPosition;
    CreditPositionSums(b.wallets, a.recipient, a.outcomeA, a.amount);
  }

  /** Executing any pending action: no revert, and the book stays in order. */
  lemma TryExecuteKeeps(b: Book, a: Action, bps: nat, outcome: Outcome, rest: Tally, bonds: nat, winnerPaid: bool)
    requires BookOk(b, outcome, rest.Plus(Weigh(a)), bonds, winnerPaid)
    requires a.status.Pending? && ActionOk(a) && bps <= MAX_WINNER_REWARD_BPS
    ensures FillKeeps(TryExecute(b, a, bps), outcome, rest, a, bonds, winnerPaid)
  {
    hide BookOk, FillKeeps, ExecuteBuy, ExecuteSell, ExecuteAddLiquidity, ExecuteTransfer;
    match a.kind
    case Buy => ExecuteBuyKeeps(b, a, bps, outcome, rest, bonds, winnerPaid);
    case Sell => ExecuteSellKeeps(b, a, outcome, rest, bonds, winnerPaid);
    case AddLiquidity => ExecuteAddLiquidityKeeps(b, a, outcome, rest, bonds, winnerPaid);
    case TransferPosition => ExecuteTransferKeeps(b, a, outcome, rest, bonds, winnerPaid);
  }

  /** A refund gives back the escrowed collateral or the escrowed positions. */
  lemma RefundTotals(b: Book, a: Action)
    requires a.kind.Buy? || a.kind.AddLiquidity? ==> a.amount <= b.pendingCollateral && a.amount <= b.purse.held
    ensures Refund(b, a).Ok?
    ensures
      var c := Refund(b, a).value;
      var back := if a.kind.Buy? || a.kind.AddLiquidity? then a.amount else 0;
      && c == b.(pendingCollateral := b.pendingCollateral - back, purse := c.purse, wallets := c.wallets)
      && c.purse.held == b.purse.held - back
      && Sum(c.wallets.positionA) == Sum(b.wallets.positionA) + (if back == 0 && a.outcomeA then a.amount else 0)
      && Sum(c.wallets.positionB) == Sum(b.wallets.positionB) + (if back == 0 && !a.outcomeA then a.amount else 0)
  {
    hide Sum, CreditPosition;
    CreditPositionSums(b.wallets, a.user, a.outcomeA, a.amount);
  }

  /** Refunding any pending action: no revert, and the book stays in order. */
  lemma RefundKeeps(b: Book, a: Action, outcome: Outcome, rest: Tally, bonds: nat, winnerPaid: bool)
    requires BookOk(b, outcome, rest.Plus(Weigh(a)), bonds, winnerPaid)
    requires a.status.Pending? && ActionOk(a)
    ensures Refund(b, a).Ok?
    ensures BookOk(Refund(b, a).value, outcome, rest.Plus(Weigh(a.(status := Refunded))), bonds, winnerPaid)
  {
    hide Sum, FeesOk, Refund;
    RefundTotals(b, a);
  }

  // -------------------------------------------------------------- settlement

  /** A resolved value never exceeds what backs it. */
  lemma ResolvedWithin(outcome: Outcome, amountA: nat, amountB: nat, totalA: nat, totalB: nat, backing: nat)
    requires !outcome.Unset? && Covers(outcome, totalA, totalB, backing)
    requires amountA <= totalA && amountB <= totalB
    ensures
      var payout := ResolvedValue(outcome, amountA, amountB);
      payout <= backing && Covers(outcome, totalA - amountA, totalB - amountB, backing - payout)
  {
  }

  /** Whoever holds a position can redeem it at its resolved value. */
  lemma RedeemKeeps(b: Book, outcome: Outcome, t: Tally, bonds: nat, winnerPaid: bool, user: Address)
    requires BookOk(b, outcome, t, bonds, winnerPaid) && !outcome.Unset?
    ensures
      var r := RedeemPositions(b, outcome, user);
      && (r.Ok? <==> Get(b.wallets.positionA, user) + Get(b.wallets.positionB, user) != 0)
      && (r.Ok? ==> BookOk(r.value, outcome, t, bonds, winnerPaid))
  {
    hide Sum, FeesOk, ResolvedValue, Covers;
    var amountA, amountB := Get(b.wallets.positionA, user), Get(b.wallets.positionB, user);
    WalletEmptied(b.wallets.positionA, user);
    WalletEmptied(b.wallets.positionB, user);
    ResolvedWithin(outcome, amountA, amountB, TotalA(b, t), TotalB(b, t), b.collateralBacking);
    var r := RedeemPositions(b, outcome, user);
    if amountA + amountB != 0 {
      assert r.Ok?;
      assert TotalA(r.value, t) == TotalA(b, t) - amountA && TotalB(r.value, t) == TotalB(b, t) - amountB;
    }
  }

  lemma WalletEmptied(m: map<Address, nat>, user: Address)
    ensures Get(m, user) <= Sum(m) && Sum(m[user := 0]) == Sum(m) - Get(m, user)
  {
    SumAtLeast(m, user);
    SumUpdate(m, user, 0);
  }

  /** A partial share of a reserve is at most the reserve, and less than all of
      it while other shares remain. */
  lemma ShareOfReserve(reserve: nat, shares: nat, supply: nat)
    requires 0 < supply && shares <= supply
    ensures MulDiv(reserve, shares, supply) <= reserve
    ensures 0 < reserve && shares < supply ==> MulDiv(reserve, shares, supply) < reserve
  {
    hide MulDiv;
    var q := MulDiv(reserve, shares, supply);
    MulMono(shares, supply, reserve);
    assert (reserve + 1) * supply == reserve * supply + supply;
    MulCancel(q, reserve + 1, supply);
    if 0 < reserve && shares < supply {
      MulMono(shares, supply - 1, reserve);
      assert reserve * (supply - 1) == reserve * supply - reserve;
      MulCancel(q, reserve, supply);
    }
  }

  /** Whoever holds shares can settle them, in any order. */
  lemma SettleKeeps(b: Book, outcome: Outcome, t: Tally, bonds: nat, winnerPaid: bool, user: Address)
    requires BookOk(b, outcome, t, bonds, winnerPaid) && !outcome.Unset?
    ensures
      var r := SettleLpInventory(b, outcome, user);
      && (r.Ok? <==> Get(b.fees.lpShares, user) != 0)
      && (r.Ok? ==> BookOk(r.value, outcome, t, bonds, winnerPaid))
  {
    hide Sum, FeesOk, ResolvedValue, Covers, MulDiv, BurnShares;
    var shares, supply := Get(b.fees.lpShares, user), b.fees.totalLpShares;
    assert shares <= supply by {
      SumAtLeast(b.fees.lpShares, user);
      SharesWithin(b.fees, t.additions);
    }
    BurnKeeps(b.fees, user, t.additions);
    if shares != 0 {
      ShareOfReserve(b.pool.reserveA, shares, supply);
      ShareOfReserve(b.pool.reserveB, shares, supply);
      var amountA, amountB := MulDiv(b.pool.reserveA, shares, supply), MulDiv(b.pool.reserveB, shares, supply);
      ResolvedWithin(outcome, amountA, amountB, TotalA(b, t), TotalB(b, t), b.collateralBacking);
    }
  }

  lemma SharesWithin(f: FeeIndex, additions: nat)
    requires FeesOk(f, additions)
    ensures Sum(f.lpShares) == f.totalLpShares
  {
  }

  /** A claim of fees succeeds exactly when something is owed and no more than is
      left unclaimed; the token balance never stands in the way. */
  lemma ClaimLpFeesKeeps(b: Book, outcome: Outcome, t: Tally, bonds: nat, winnerPaid: bool, user: Address)
    requires BookOk(b, outcome, t, bonds, winnerPaid)
    ensures
      var r := ClaimLpFees(b, user);
      && (r.Ok? <==> 0 < Owed(b.fees, user) <= b.fees.unclaimedLpFees)
      && (r.Ok? ==> BookOk(r.value, outcome, t, bonds, winnerPaid))
  {
    hide Sum, FeesOk, MulDiv, TakeFees;
    TakeKeeps(b.fees, user, t.additions);
  }

  lemma PayWinnerKeeps(b: Book, outcome: Outcome, t: Tally, bonds: nat, winnerPaid: bool, to: Address, payout: nat)
    requires BookOk(b, outcome, t, bonds, winnerPaid) && payout <= b.rewards.winnerRewardPool
    ensures
      var r := PayWinnerReward(b, to, payout);
      && (r.Ok? <==> 0 < payout)
      && (r.Ok? ==> BookOk(r.value, outcome, t, bonds, true))
  {
    hide Sum, FeesOk;
  }

  /** On an invalid market every payer is refunded in full. */
  lemma RefundFeeKeeps(b: Book, outcome: Outcome, t: Tally, bonds: nat, user: Address)
    requires BookOk(b, outcome, t, bonds, false)
    ensures
      var r := RefundWinnerFee(b, user);
      && (r.Ok? <==> 0 < Get(b.rewards.winnerFeePaid, user))
      && (r.Ok? ==> BookOk(r.value, outcome, t, bonds, false))
  {
    hide Sum, FeesOk;
    SumAtLeast(b.rewards.winnerFeePaid, user);
    SumUpdate(b.rewards.winnerFeePaid, user, 0);
  }
}
