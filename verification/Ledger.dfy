/** The money of one market: reserves, backing, shares, fees, positions and the
    token balance, with the operations that move them. */
module Ledger {
  import opened Prelude
  import opened MarketMath

  const MIN_PURCHASE: nat := 1_000_000
  const MIN_LIQUIDITY: nat := 1_000_000
  const MAX_ACTION_AMOUNT: nat := 1_000_000_000_000_000
  const FEE_SCALE: nat := 1_000_000_000_000_000_000

  datatype Outcome = Unset | ParticipantA | ParticipantB | Tie | Invalid

  datatype ActionKind = Buy | Sell | AddLiquidity | TransferPosition

  datatype ActionStatus = Pending | Executed | Refunded

  datatype Action = Action(
    kind: ActionKind,
    status: ActionStatus,
    user: Address,
    recipient: Address,
    outcomeA: bool,
    epoch: Uint64,
    deadline: Uint64,
    amount: nat,
    minimumReturn: nat)

  /** Shares outstanding and the index that spreads liquidity fees over them. */
  datatype FeeIndex = FeeIndex(
    totalLpShares: nat,
    feePerShare: nat,
    unclaimedLpFees: nat,
    lpShares: map<Address, nat>,
    lpFeeDebt: map<Address, nat>,
    lpFeeCredit: map<Address, nat>)

  /** Positions held in wallets. */
  datatype Wallets = Wallets(positionA: map<Address, nat>, positionB: map<Address, nat>)

  /** The pool for the winner and what each forecaster has paid into it. */
  datatype Rewards = Rewards(winnerRewardPool: nat, winnerFeePaid: map<Address, nat>)

  /** The market's token balance and what it has paid to each address so far. */
  datatype Purse = Purse(held: nat, sent: map<Address, nat>)

  datatype Book = Book(
    pool: Pool,
    fees: FeeIndex,
    wallets: Wallets,
    rewards: Rewards,
    collateralBacking: nat,
    pendingCollateral: nat,
    purse: Purse)

  const EMPTY_BOOK: Book :=
    Book(Pool(0, 0), FeeIndex(0, 0, 0, map[], map[], map[]), Wallets(map[], map[]), Rewards(0, map[]), 0, 0,
         Purse(0, map[]))

  /** What became of an attempt to execute an action. */
  datatype Fill = Filled(book: Book, returned: nat) | Unfilled

  // ------------------------------------------------------------------ token

  function Receive(b: Book, amount: nat): Book {
    b.(purse := b.purse.(held := b.purse.held + amount))
  }

  function Pay(b: Book, to: Address, amount: nat): Result<Book> {
    if amount <= b.purse.held then
      Ok(b.(purse := Purse(b.purse.held - amount, Credit(b.purse.sent, to, amount))))
    else Revert(TransferFailed)
  }

  // -------------------------------------------------------------- positions

  function PositionOf(w: Wallets, user: Address, outcomeA: bool): nat {
    Get(if outcomeA then w.positionA else w.positionB, user)
  }

  function CreditPosition(w: Wallets, user: Address, outcomeA: bool, amount: nat): Wallets {
    if outcomeA then w.(positionA := Credit(w.positionA, user, amount))
    else w.(positionB := Credit(w.positionB, user, amount))
  }

  function DebitPosition(w: Wallets, user: Address, outcomeA: bool, amount: nat): Result<Wallets> {
    var left :- Sub(PositionOf(w, user, outcomeA), amount);
    Ok(if outcomeA then w.(positionA := w.positionA[user := left]) else w.(positionB := w.positionB[user := left]))
  }

  /** The reserve of an outcome. */
  function Reserve(p: Pool, outcomeA: bool): nat {
    if outcomeA then p.reserveA else p.reserveB
  }

  function PoolOf(outcomeA: bool, selected: nat, other: nat): Pool {
    if outcomeA then Pool(selected, other) else Pool(other, selected)
  }

  // ------------------------------------------------------------------- fees

  function Distribute(f: FeeIndex, fee: nat): FeeIndex
    requires 0 < f.totalLpShares
  {
    f.(unclaimedLpFees := f.unclaimedLpFees + fee,
       feePerShare := f.feePerShare + MulDiv(fee, FEE_SCALE, f.totalLpShares))
  }

  /** Attributes a fee to the outstanding shares, or, with none outstanding,
      leaves it in the backing. */
  function DistributeLpFee(b: Book, fee: nat): Book {
    if fee == 0 then b
    else if b.fees.totalLpShares == 0 then b.(collateralBacking := b.collateralBacking + fee)
    else b.(fees := Distribute(b.fees, fee))
  }

  /** What the index has credited to the present shares of `provider`. */
  function Accumulated(f: FeeIndex, provider: Address): nat {
    MulDiv(Get(f.lpShares, provider), f.feePerShare, FEE_SCALE)
  }

  function AccrueLp(f: FeeIndex, provider: Address): FeeIndex {
    var accumulated := Accumulated(f, provider);
    var debt := Get(f.lpFeeDebt, provider);
    f.(lpFeeCredit := if accumulated > debt then Credit(f.lpFeeCredit, provider, accumulated - debt) else f.lpFeeCredit,
       lpFeeDebt := f.lpFeeDebt[provider := accumulated])
  }

  /** Accrues, then takes out the whole credit of `provider`. */
  function TakeFees(f: FeeIndex, provider: Address): Result<(FeeIndex, nat)> {
    var accrued := AccrueLp(f, provider);
    var amount := Get(accrued.lpFeeCredit, provider);
    var _ :- Require(amount != 0, NothingToClaim);
    var unclaimed :- Sub(accrued.unclaimedLpFees, amount);
    Ok((accrued.(lpFeeCredit := accrued.lpFeeCredit[provider := 0], unclaimedLpFees := unclaimed), amount))
  }

  function ClaimLpFees(b: Book, provider: Address): Result<Book> {
    var (fees, amount) :- TakeFees(b.fees, provider);
    Pay(b.(fees := fees), provider, amount)
  }

  /** Accrues, mints `shares` and enters them at the present index. */
  function MintShares(f: FeeIndex, provider: Address, shares: nat): FeeIndex {
    var accrued := AccrueLp(f, provider);
    var minted := accrued.(lpShares := Credit(accrued.lpShares, provider, shares),
                           totalLpShares := accrued.totalLpShares + shares);
    minted.(lpFeeDebt := minted.lpFeeDebt[provider := Accumulated(minted, provider)])
  }

  /** Accrues, then burns all shares of `provider`. */
  function BurnShares(f: FeeIndex, provider: Address): Result<FeeIndex> {
    var accrued := AccrueLp(f, provider);
    var left :- Sub(f.totalLpShares, Get(f.lpShares, provider));
    Ok(accrued.(lpShares := accrued.lpShares[provider := 0],
                totalLpShares := left,
                lpFeeDebt := accrued.lpFeeDebt[provider := 0]))
  }

  // -------------------------------------------------------------- execution

  /** The book after filling a purchase at a quote. */
  function BuyFilled(b: Book, a: Action, q: BuyQuote): Book
    requires a.amount <= b.pendingCollateral
  {
    var paid := b.(pendingCollateral := b.pendingCollateral - a.amount,
                   collateralBacking := b.collateralBacking + q.tradeInput,
                   rewards := Rewards(b.rewards.winnerRewardPool + q.winnerRewardFee,
                                      Credit(b.rewards.winnerFeePaid, a.user, q.winnerRewardFee)));
    var shared := DistributeLpFee(paid, q.liquidityFee);
    shared.(pool := PoolOf(a.outcomeA, q.newSelectedReserve, q.newOtherReserve),
            wallets := CreditPosition(b.wallets, a.user, a.outcomeA, q.positionsOut))
  }

  function ExecuteBuy(b: Book, a: Action, winnerRewardBps: nat): Result<Fill> {
    var q :- QuoteBuy(Reserve(b.pool, a.outcomeA), Reserve(b.pool, !a.outcomeA), a.amount, winnerRewardBps);
    if q.positionsOut < a.minimumReturn || q.positionsOut == 0 then Ok(Unfilled)
    else
      var _ :- Sub(b.pendingCollateral, a.amount);
      Ok(Filled(BuyFilled(b, a, q), q.positionsOut))
  }

  /** The book after filling a sale at a quote, before the seller is paid. */
  function SellFilled(b: Book, a: Action, q: SellQuote): Book
    requires q.grossCollateral <= b.collateralBacking
  {
    var shared := DistributeLpFee(b.(collateralBacking := b.collateralBacking - q.grossCollateral), q.liquidityFee);
    shared.(pool := PoolOf(a.outcomeA, q.newSelectedReserve, q.newOtherReserve))
  }

  function ExecuteSell(b: Book, a: Action): Result<Fill> {
    var q :- QuoteSell(Reserve(b.pool, a.outcomeA), Reserve(b.pool, !a.outcomeA), a.amount);
    if q.collateralOut < a.minimumReturn || q.grossCollateral == 0 then Ok(Unfilled)
    else
      var _ :- Sub(b.collateralBacking, q.grossCollateral);
      var paid :- Pay(SellFilled(b, a, q), a.user, q.collateralOut);
      Ok(Filled(paid, q.collateralOut))
  }

  /** Shares minted and reserves added by an addition. */
  datatype LiquidityQuote = LiquidityQuote(shares: nat, addedA: nat, addedB: nat)

  function QuoteLiquidity(p: Pool, totalLpShares: nat, amount: nat): Result<LiquidityQuote> {
    if totalLpShares == 0 then Ok(LiquidityQuote(amount, amount, amount))
    else
      var largest := Max(p.reserveA, p.reserveB);
      var _ :- Require(largest != 0, Panic);
      Ok(LiquidityQuote(MulDiv(amount, totalLpShares, largest),
                        MulDiv(amount, p.reserveA, largest),
                        MulDiv(amount, p.reserveB, largest)))
  }

  /** The part of an addition that does not fit the pool's ratio comes back as
      positions; nothing is written when there is none. */
  function CreditAdjustment(w: Wallets, user: Address, outcomeA: bool, amount: nat): Wallets {
    if amount != 0 then CreditPosition(w, user, outcomeA, amount) else w
  }

  /** The book after filling an addition at a quote. */
  function AdditionFilled(b: Book, a: Action, q: LiquidityQuote): Book
    requires a.amount <= b.pendingCollateral && q.addedA <= a.amount && q.addedB <= a.amount
  {
    b.(pendingCollateral := b.pendingCollateral - a.amount,
       collateralBacking := b.collateralBacking + a.amount,
       fees := MintShares(b.fees, a.user, q.shares),
       pool := Pool(b.pool.reserveA + q.addedA, b.pool.reserveB + q.addedB),
       wallets := CreditAdjustment(CreditAdjustment(b.wallets, a.user, true, a.amount - q.addedA),
                                   a.user, false, a.amount - q.addedB))
  }

  function ExecuteAddLiquidity(b: Book, a: Action): Result<Fill> {
    var q :- QuoteLiquidity(b.pool, b.fees.totalLpShares, a.amount);
    if q.shares < a.minimumReturn || q.shares == 0 then Ok(Unfilled)
    else
      var _ :- Sub(b.pendingCollateral, a.amount);
      var _ :- Sub(a.amount, q.addedA);
      var _ :- Sub(a.amount, q.addedB);
      Ok(Filled(AdditionFilled(b, a, q), q.shares))
  }

  function ExecuteTransfer(b: Book, a: Action): Result<Fill> {
    Ok(Filled(b.(wallets := CreditPosition(b.wallets, a.recipient, a.outcomeA, a.amount)), a.amount))
  }

  function TryExecute(b: Book, a: Action, winnerRewardBps: nat): Result<Fill> {
    match a.kind
    case Buy => ExecuteBuy(b, a, winnerRewardBps)
    case Sell => ExecuteSell(b, a)
    case AddLiquidity => ExecuteAddLiquidity(b, a)
    case TransferPosition => ExecuteTransfer(b, a)
  }

  function Refund(b: Book, a: Action): Result<Book> {
    if a.kind.Buy? || a.kind.AddLiquidity? then
      var pending :- Sub(b.pendingCollateral, a.amount);
      Pay(b.(pendingCollateral := pending), a.user, a.amount)
    else
      Ok(b.(wallets := CreditPosition(b.wallets, a.user, a.outcomeA, a.amount)))
  }

  // ------------------------------------------------------------- settlement

  /** What positions are worth once the outcome is known. */
  function ResolvedValue(outcome: Outcome, amountA: nat, amountB: nat): nat {
    match outcome
    case ParticipantA => amountA
    case ParticipantB => amountB
    case Tie => (amountA + amountB) / 2
    case Invalid => (amountA + amountB) / 2
    case Unset => 0
  }

  function RedeemPositions(b: Book, outcome: Outcome, user: Address): Result<Book> {
    var amountA, amountB := Get(b.wallets.positionA, user), Get(b.wallets.positionB, user);
    var _ :- Require(amountA != 0 || amountB != 0, NothingToClaim);
    var payout := ResolvedValue(outcome, amountA, amountB);
    var backing :- Sub(b.collateralBacking, payout);
    Pay(b.(wallets := Wallets(b.wallets.positionA[user := 0], b.wallets.positionB[user := 0]),
           collateralBacking := backing),
        user, payout)
  }

  function SettleLpInventory(b: Book, outcome: Outcome, user: Address): Result<Book> {
    var shares := Get(b.fees.lpShares, user);
    var _ :- Require(shares != 0, NothingToClaim);
    var supply := b.fees.totalLpShares;
    var _ :- Require(supply != 0, Panic);
    var amountA, amountB := MulDiv(b.pool.reserveA, shares, supply), MulDiv(b.pool.reserveB, shares, supply);
    var fees :- BurnShares(b.fees, user);
    var reserveA :- Sub(b.pool.reserveA, amountA);
    var reserveB :- Sub(b.pool.reserveB, amountB);
    var payout := ResolvedValue(outcome, amountA, amountB);
    var backing :- Sub(b.collateralBacking, payout);
    Pay(b.(fees := fees, pool := Pool(reserveA, reserveB), collateralBacking := backing), user, payout)
  }

  function PayWinnerReward(b: Book, to: Address, payout: nat): Result<Book> {
    var _ :- Require(payout != 0, NothingToClaim);
    var pool :- Sub(b.rewards.winnerRewardPool, payout);
    Pay(b.(rewards := b.rewards.(winnerRewardPool := pool)), to, payout)
  }

  function RefundWinnerFee(b: Book, user: Address): Result<Book> {
    var amount := Get(b.rewards.winnerFeePaid, user);
    var _ :- Require(amount != 0, NothingToClaim);
    var pool :- Sub(b.rewards.winnerRewardPool, amount);
    Pay(b.(rewards := Rewards(pool, b.rewards.winnerFeePaid[user := 0])), user, amount)
  }
}
