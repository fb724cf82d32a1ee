/** What the pool offers for an action, written out from the reserves rather than through
    the quotes, and how the fee of an execution reaches the providers. */
module Offers {
  import opened Prelude
  import opened MarketMath
  import opened Ledger
  import opened LedgerInvariant

  // ------------------------------------------------------------------- offers

  /** What an execution would return to its beneficiary, and the fee it would charge for
      the providers. */
  datatype Offer = Offer(returned: nat, fee: nat)

  function OfferOf(b: Book, a: Action, bps: nat): Offer {
    var selected, other := Reserve(b.pool, a.outcomeA), Reserve(b.pool, !a.outcomeA);
    match a.kind
    case Buy =>
      (match QuoteBuy(selected, other, a.amount, bps)
       case Ok(q) => Offer(q.positionsOut, q.liquidityFee)
       case Revert(_) => Offer(0, 0))
    case Sell =>
      (match QuoteSell(selected, other, a.amount)
       case Ok(q) => Offer(q.collateralOut, q.liquidityFee)
       case Revert(_) => Offer(0, 0))
    case AddLiquidity =>
      (match QuoteLiquidity(b.pool, b.fees.totalLpShares, a.amount)
       case Ok(q) => Offer(q.shares, 0)
       case Revert(_) => Offer(0, 0))
    case TransferPosition => Offer(a.amount, 0)
  }

  /** `rest` is the least reserve that does not lower the product against `other`. */
  ghost predicate IsLeastReserve(rest: nat, selected: nat, before: nat, other: nat) {
    && selected * before <= rest * other
    && (forall s: nat | selected * before <= s * other :: rest <= s)
  }

  /** `gross` is the greatest payout that does not lower the product. */
  ghost predicate IsGreatestPayout(gross: nat, selected: nat, other: nat, amount: nat) {
    && SaleFeasible(selected, other, amount, gross)
    && (forall r: nat | SaleFeasible(selected, other, amount, r) :: r <= gross)
  }

  /** A purchase spends its amount less the reward fee and 30 basis points, and returns
      the positions that leave the least reserve not lowering the product. */
  ghost predicate PurchaseOffer(selected: nat, other: nat, amount: nat, bps: nat, o: Offer) {
    var reward, fee := amount * bps / 10_000, amount * 30 / 10_000;
    && o.fee == fee && reward + fee <= amount
    && var spent: nat := amount - reward - fee;
    && o.returned <= selected + spent
    && IsLeastReserve(selected + spent - o.returned, selected, other, other + spent)
  }

  /** A sale returns the greatest payout that does not lower the product, less 30 basis
      points of it. */
  ghost predicate SaleOffer(selected: nat, other: nat, amount: nat, o: Offer) {
    var gross := o.returned + o.fee;
    IsGreatestPayout(gross, selected, other, amount) && o.fee == gross * 30 / 10_000
  }

  /** An addition returns shares in proportion to the larger reserve, rounded down, and
      without shares outstanding as many as its amount. */
  ghost predicate AdditionOffer(p: Pool, supply: nat, amount: nat, o: Offer) {
    var largest := Max(p.reserveA, p.reserveB);
    && o.fee == 0
    && if supply == 0 then o.returned == amount
       else o.returned * largest <= amount * supply < (o.returned + 1) * largest
  }

  ghost predicate IsOffer(b: Book, a: Action, bps: nat, o: Offer) {
    var selected, other := Reserve(b.pool, a.outcomeA), Reserve(b.pool, !a.outcomeA);
    match a.kind
    case Buy => PurchaseOffer(selected, other, a.amount, bps, o)
    case Sell => SaleOffer(selected, other, a.amount, o)
    case AddLiquidity => AdditionOffer(b.pool, b.fees.totalLpShares, a.amount, o)
    case TransferPosition => o == Offer(a.amount, 0)
  }

  /** The pool meets the terms of the action: it returns something, and at least the
      minimum; a transfer is always met. */
  predicate Meets(a: Action, o: Offer) {
    a.kind.TransferPosition? || (0 < o.returned && a.minimumReturn <= o.returned)
  }

  /** Where shares are outstanding there is a reserve to measure an addition by. */
  predicate Measured(b: Book) {
    0 < b.fees.totalLpShares ==> 0 < b.pool.reserveA && 0 < b.pool.reserveB
  }

  lemma OfferIsExact(b: Book, a: Action, bps: nat)
    requires bps <= MAX_WINNER_REWARD_BPS && 0 < a.amount && Measured(b)
    ensures IsOffer(b, a, bps, OfferOf(b, a, bps))
  {
    var selected, other := Reserve(b.pool, a.outcomeA), Reserve(b.pool, !a.outcomeA);
    match a.kind
    case Buy => PurchaseOfferIsExact(selected, other, a.amount, bps);
    case Sell => SaleOfferIsExact(selected, other, a.amount);
    case AddLiquidity => AdditionOfferIsExact(b.pool, b.fees.totalLpShares, a.amount);
    case TransferPosition =>
  }

  lemma PurchaseOfferIsExact(selected: nat, other: nat, amount: nat, bps: nat)
    requires bps <= MAX_WINNER_REWARD_BPS && 0 < amount
    ensures
      var q := QuoteBuy(selected, other, amount, bps);
      q.Ok? && PurchaseOffer(selected, other, amount, bps, Offer(q.value.positionsOut, q.value.liquidityFee))
  {
    BuyQuoteSound(selected, other, amount, bps);
    hide MulDivCeil;
    var q := QuoteBuy(selected, other, amount, bps).value;
    assert q.winnerRewardFee == amount * bps / 10_000 && q.liquidityFee == amount * 30 / 10_000;
  }

  lemma SaleOfferIsExact(selected: nat, other: nat, amount: nat)
    ensures
      var q := QuoteSell(selected, other, amount);
      q.Ok? && SaleOffer(selected, other, amount, Offer(q.value.collateralOut, q.value.liquidityFee))
  {
    SellQuoteSound(selected, other, amount);
    hide CeilSqrt, SaleFeasible;
    var q := QuoteSell(selected, other, amount).value;
    assert q.liquidityFee == q.grossCollateral * 30 / 10_000;
  }

  lemma AdditionOfferIsExact(p: Pool, supply: nat, amount: nat)
    requires 0 < supply ==> 0 < p.reserveA && 0 < p.reserveB
    ensures
      var q := QuoteLiquidity(p, supply, amount);
      q.Ok? && AdditionOffer(p, supply, amount, Offer(q.value.shares, 0))
  {
    hide MulDiv;
    if 0 < supply {
      var largest: nat := Max(p.reserveA, p.reserveB);
      var shares := MulDiv(amount, supply, largest);
      assert (shares + 1) * largest == shares * largest + largest;
    }
  }

  /** A sale pays something exactly when it pays something before the fee. */
  lemma FeeLeavesSomething(gross: nat)
    ensures 0 < gross ==> MulDiv(gross, LIQUIDITY_FEE_BPS, BPS) < gross
  {
    hide MulDiv;
    var fee := MulDiv(gross, LIQUIDITY_FEE_BPS, BPS);
    if 0 < gross && gross <= fee {
      MulMono(gross, fee, BPS);
    }
  }

  /** An attempt is filled exactly when the pool meets the terms, and then it returns what
      the pool offers. */
  lemma FilledIff(b: Book, a: Action, bps: nat)
    requires TryExecute(b, a, bps).Ok?
    ensures
      var fill, o := TryExecute(b, a, bps).value, OfferOf(b, a, bps);
      && (fill.Filled? <==> Meets(a, o))
      && (fill.Filled? ==> fill.returned == o.returned)
  {
    hide QuoteBuy, QuoteLiquidity, BuyFilled, SellFilled, AdditionFilled, CreditPosition;
    if a.kind.Sell? {
      var q := QuoteSell(Reserve(b.pool, a.outcomeA), Reserve(b.pool, !a.outcomeA), a.amount).value;
      hide CeilSqrt, MulDiv;
      FeeLeavesSomething(q.grossCollateral);
    }
  }

  // --------------------------------------------------------------------- fees

  /** From `f` to `g` a fee has been shared out: with no shares outstanding nobody is owed
      anything more; otherwise the fee is set aside, and what `p` is owed grows by the
      part of the fee that its shares are of all shares, less at most one unit and one
      unit for every 10^18 shares, and more by less than one unit. */
  ghost predicate FeeShared(f: FeeIndex, g: FeeIndex, fee: nat, p: Address) {
    var supply, shares, grown := f.totalLpShares, Get(f.lpShares, p), Owed(g, p) - Owed(f, p);
    && g.totalLpShares == supply && g.lpShares == f.lpShares
    && if supply == 0 then grown == 0 && g.unclaimedLpFees == f.unclaimedLpFees
       else
         && g.unclaimedLpFees == f.unclaimedLpFees + fee
         && (grown - 1) * supply < fee * shares
         && fee * shares * FEE_SCALE < (grown + 1) * supply * FEE_SCALE + shares * supply
  }

  /** The arithmetic of one share of a fee: `step` is what the index rises by, `low` and
      `high` what it has accumulated on the shares before and after. */
  lemma ShareOfFee(fee: nat, supply: nat, shares: nat, index: nat, step: nat, low: nat, high: nat)
    requires 0 < supply
    requires step * supply <= fee * FEE_SCALE < step * supply + supply
    requires low * FEE_SCALE <= shares * index < low * FEE_SCALE + FEE_SCALE
    requires high * FEE_SCALE <= shares * (index + step) < high * FEE_SCALE + FEE_SCALE
    ensures (high - low - 1) * supply < fee * shares
    ensures fee * shares * FEE_SCALE < (high - low + 1) * supply * FEE_SCALE + shares * supply
  {
    var grown := high - low;
    assert shares * (index + step) == shares * index + shares * step;
    assert (grown - 1) * FEE_SCALE < shares * step < (grown + 1) * FEE_SCALE;
    UpperShare(fee, supply, shares, step, grown);
    LowerShare(fee, supply, shares, step, grown);
  }

  lemma UpperShare(fee: nat, supply: nat, shares: nat, step: nat, grown: int)
    requires 0 < supply && step * supply <= fee * FEE_SCALE && (grown - 1) * FEE_SCALE < shares * step
    ensures (grown - 1) * supply < fee * shares
  {
    MulMono(step * supply, fee * FEE_SCALE, shares);
    StrictMono((grown - 1) * FEE_SCALE, shares * step, supply);
    Rearrange(grown - 1, supply, shares, step, fee);
    MulCancel((grown - 1) * supply, fee * shares, FEE_SCALE);
  }

  lemma LowerShare(fee: nat, supply: nat, shares: nat, step: nat, grown: int)
    requires 0 < supply && fee * FEE_SCALE < step * supply + supply && shares * step < (grown + 1) * FEE_SCALE
    ensures fee * shares * FEE_SCALE < (grown + 1) * supply * FEE_SCALE + shares * supply
  {
    MulMono(fee * FEE_SCALE, step * supply + supply, shares);
    StrictMono(shares * step, (grown + 1) * FEE_SCALE, supply);
    Rearrange(grown + 1, supply, shares, step, fee);
    assert (step * supply + supply) * shares == step * supply * shares + shares * supply;
  }

  lemma StrictMono(a: int, b: int, c: int)
    requires a < b && 0 < c
    ensures a * c < b * c
  {
  }

  lemma Rearrange(g: int, supply: int, shares: int, step: int, fee: int)
    ensures g * FEE_SCALE * supply == g * supply * FEE_SCALE
    ensures step * supply * shares == shares * step * supply
    ensures fee * FEE_SCALE * shares == fee * shares * FEE_SCALE
  {
  }

  lemma SharingIsFair(b: Book, fee: nat, p: Address)
    ensures FeeShared(b.fees, DistributeLpFee(b, fee).fees, fee, p)
  {
    hide MulDiv;
    var f, g := b.fees, DistributeLpFee(b, fee).fees;
    var supply, shares := f.totalLpShares, Get(f.lpShares, p);
    if 0 < supply {
      var step := if fee == 0 then 0 else MulDiv(fee, FEE_SCALE, supply);
      ShareOfFee(fee, supply, shares, f.feePerShare, step, Accumulated(f, p), Accumulated(g, p));
    }
  }

  /** The fee of an executed purchase or sale reaches every provider. */
  lemma FillSharesFee(b: Book, a: Action, bps: nat, p: Address)
    requires TryExecute(b, a, bps).Ok? && TryExecute(b, a, bps).value.Filled? && (a.kind.Buy? || a.kind.Sell?)
    ensures FeeShared(b.fees, TryExecute(b, a, bps).value.book.fees, OfferOf(b, a, bps).fee, p)
  {
    hide FeeShared, QuoteBuy, QuoteSell, CreditPosition, MulDiv;
    var fill := TryExecute(b, a, bps).value;
    if a.kind.Buy? {
      var q := QuoteBuy(Reserve(b.pool, a.outcomeA), Reserve(b.pool, !a.outcomeA), a.amount, bps).value;
      var paid := b.(pendingCollateral := b.pendingCollateral - a.amount,
                     collateralBacking := b.collateralBacking + q.tradeInput,
                     rewards := Rewards(b.rewards.winnerRewardPool + q.winnerRewardFee,
                                        Credit(b.rewards.winnerFeePaid, a.user, q.winnerRewardFee)));
      SharingIsFair(paid, q.liquidityFee, p);
      assert fill.book.fees == DistributeLpFee(paid, q.liquidityFee).fees;
    } else {
      var q := QuoteSell(Reserve(b.pool, a.outcomeA), Reserve(b.pool, !a.outcomeA), a.amount).value;
      var paid := b.(collateralBacking := b.collateralBacking - q.grossCollateral);
      SharingIsFair(paid, q.liquidityFee, p);
      assert fill.book.fees == DistributeLpFee(paid, q.liquidityFee).fees;
    }
  }

  // ---------------------------------------------------------------- the pool

  /** What an execution at this offer does to the pool and the backing. A purchase moves
      what it spends into the pool and the positions out of it; a sale moves the positions
      in and the gross payout out, as pairs; an addition raises both reserves in
      proportion to the larger one, rounded down, and gives the rest back as positions; a
      transfer does nothing. Without shares outstanding the fee stays in the backing. */
  ghost predicate Reshaped(b: Book, d: Book, a: Action, bps: nat, o: Offer) {
    var kept := if b.fees.totalLpShares == 0 then o.fee else 0;
    var selected, other := Reserve(b.pool, a.outcomeA), Reserve(b.pool, !a.outcomeA);
    var selected', other' := Reserve(d.pool, a.outcomeA), Reserve(d.pool, !a.outcomeA);
    match a.kind
    case Buy =>
      var reward := a.amount * bps / 10_000;
      var spent := a.amount - reward - o.fee;
      && selected' + o.returned == selected + spent && other' == other + spent
      && d.collateralBacking == b.collateralBacking + spent + kept
      && d.rewards.winnerRewardPool == b.rewards.winnerRewardPool + reward
    case Sell =>
      var gross := o.returned + o.fee;
      && selected' + gross == selected + a.amount && other' + gross == other
      && d.collateralBacking + gross == b.collateralBacking + kept
    case AddLiquidity =>
      && AddedTo(b, b.pool.reserveA, d.pool.reserveA, a.amount)
      && AddedTo(b, b.pool.reserveB, d.pool.reserveB, a.amount)
      && PositionOf(d.wallets, a.user, true) + d.pool.reserveA
         == PositionOf(b.wallets, a.user, true) + b.pool.reserveA + a.amount
      && PositionOf(d.wallets, a.user, false) + d.pool.reserveB
         == PositionOf(b.wallets, a.user, false) + b.pool.reserveB + a.amount
      && d.fees.totalLpShares == b.fees.totalLpShares + o.returned
      && d.collateralBacking == b.collateralBacking + a.amount
    case TransferPosition => d.pool == b.pool && d.fees == b.fees && d.collateralBacking == b.collateralBacking
  }

  /** One reserve grows by its part of the amount, measured by the larger reserve. */
  predicate AddedTo(b: Book, before: nat, after: nat, amount: nat) {
    var largest := Max(b.pool.reserveA, b.pool.reserveB);
    && before <= after
    && if b.fees.totalLpShares == 0 then after == before + amount
       else (after - before) * largest <= amount * before < (after - before + 1) * largest
  }

  lemma FillReshapes(b: Book, a: Action, bps: nat)
    requires bps <= MAX_WINNER_REWARD_BPS && 0 < a.amount && Measured(b)
    requires TryExecute(b, a, bps).Ok? && TryExecute(b, a, bps).value.Filled?
    ensures Reshaped(b, TryExecute(b, a, bps).value.book, a, bps, OfferOf(b, a, bps))
  {
    match a.kind
    case Buy => PurchaseReshapes(b, a, bps);
    case Sell => SaleReshapes(b, a, bps);
    case AddLiquidity => AdditionReshapes(b, a, bps);
    case TransferPosition =>
  }

  lemma PurchaseReshapes(b: Book, a: Action, bps: nat)
    requires bps <= MAX_WINNER_REWARD_BPS && 0 < a.amount && a.kind.Buy?
    requires ExecuteBuy(b, a, bps).Ok? && ExecuteBuy(b, a, bps).value.Filled?
    ensures Reshaped(b, ExecuteBuy(b, a, bps).value.book, a, bps, OfferOf(b, a, bps))
  {
    var selected, other := Reserve(b.pool, a.outcomeA), Reserve(b.pool, !a.outcomeA);
    BuyQuoteSound(selected, other, a.amount, bps);
    PurchaseOfferIsExact(selected, other, a.amount, bps);
    var q := QuoteBuy(selected, other, a.amount, bps).value;
    assert q.winnerRewardFee == a.amount * bps / 10_000;
    hide QuoteBuy, MulDiv, CreditPosition;
  }

  lemma SaleReshapes(b: Book, a: Action, bps: nat)
    requires a.kind.Sell? && ExecuteSell(b, a).Ok? && ExecuteSell(b, a).value.Filled?
    ensures Reshaped(b, ExecuteSell(b, a).value.book, a, bps, OfferOf(b, a, bps))
  {
    SellQuoteSound(Reserve(b.pool, a.outcomeA), Reserve(b.pool, !a.outcomeA), a.amount);
    hide QuoteSell, MulDiv, SaleFeasible;
  }

  lemma AdditionReshapes(b: Book, a: Action, bps: nat)
    requires a.kind.AddLiquidity? && Measured(b)
    requires ExecuteAddLiquidity(b, a).Ok? && ExecuteAddLiquidity(b, a).value.Filled?
    ensures Reshaped(b, ExecuteAddLiquidity(b, a).value.book, a, bps, OfferOf(b, a, bps))
  {
    hide MulDiv;
    var d := ExecuteAddLiquidity(b, a).value.book;
    if 0 < b.fees.totalLpShares {
      var largest: nat := Max(b.pool.reserveA, b.pool.reserveB);
      PartOf(a.amount, b.pool.reserveA, largest);
      PartOf(a.amount, b.pool.reserveB, largest);
    }
  }

  lemma PartOf(amount: nat, reserve: nat, largest: nat)
    requires 0 < largest
    ensures
      var part := MulDiv(amount, reserve, largest);
      part * largest <= amount * reserve < (part + 1) * largest
  {
    hide MulDiv;
    var part := MulDiv(amount, reserve, largest);
    assert (part + 1) * largest == part * largest + largest;
  }
}
