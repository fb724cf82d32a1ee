/** The client's own copy of the quotes: its integer Newton iteration and its
    straight-line arithmetic, proved equal to the contract's in every field. */
module ClientMath {
  import opened Prelude
  import MarketMath

  datatype BuyQuote = BuyQuote(
    winnerRewardFee: int, liquidityFee: int, tradeInput: int, positionsOut: int, newSelected: int, newOther: int)

  datatype SellQuote = SellQuote(
    grossCollateral: int, liquidityFee: int, collateralOut: int, newSelected: int, newOther: int)

  /** Division as BigInt performs it: toward zero. */
  function Quotient(n: int, d: int): int
    requires d != 0
  {
    if n >= 0 then n / d else -(-n / d)
  }

  /** The purchase quote; it throws on a division by zero. */
  function QuoteBuy(reserveA: nat, reserveB: nat, participantAOutcome: bool, budget: nat, winnerRewardBps: nat)
    : Result<BuyQuote>
  {
    var winnerRewardFee := Quotient(budget * winnerRewardBps, 10_000);
    var liquidityFee := Quotient(budget * 30, 10_000);
    var tradeInput := budget - winnerRewardFee - liquidityFee;
    var selected := if participantAOutcome then reserveA else reserveB;
    var other := if participantAOutcome then reserveB else reserveA;
    var newOther := other + tradeInput;
    var product := selected * other;
    var _ :- Require(newOther != 0, Panic);
    var newSelected := Quotient(product + newOther - 1, newOther);
    var positionsOut := selected + tradeInput - newSelected;
    Ok(BuyQuote(winnerRewardFee, liquidityFee, tradeInput, positionsOut, newSelected, newOther))
  }

  // -------------------------------------------------------- Newton iteration

  /** One step from any x never lands below the floor root. */
  lemma NewtonStaysAbove(value: nat, x: nat)
    requires 0 < x
    ensures value < ((x + value / x) / 2 + 1) * ((x + value / x) / 2 + 1)
  {
    DivisionBounds(value, x);
    var q := value / x;
    var m := (x + q) / 2 + 1;
    assert q * x + x == (q + 1) * x;
    assert x + q + 1 <= 2 * m;
    HalfSumSquared(x, q + 1, m);
  }

  /** A product is at most the square of half the sum of its factors. */
  lemma HalfSumSquared(a: nat, b: nat, m: nat)
    requires a + b <= 2 * m
    ensures a * b <= m * m
  {
    var d: int := a - m;
    assert b <= m - d;
    MulMono(b, m - d, a);
    assert (m - d) * (m + d) == m * m - d * d;
    MarketMath.NonNegativeSum(d, 0, 0);
  }

  /** Where the iteration stops falling, x is at or below the root. */
  lemma NewtonStop(value: nat, x: nat)
    requires 0 < x
    requires x <= (x + value / x) / 2
    ensures x * x <= value
  {
    DivisionBounds(value, x);
    MulMono(x, value / x, x);
  }

  /** The client's square root: terminates and returns the integer floor root of
      every non-negative value, and throws on the others. */
  method SqrtFloor(value: int) returns (r: Result<nat>)
    ensures value < 0 <==> r.Revert?
    ensures value >= 0 ==> r == Ok(MarketMath.FloorSqrt(value))
  {
    if value < 0 {
      return Revert(Panic);
    }
    if value < 2 {
      MarketMath.FloorRootUnique(value, MarketMath.FloorSqrt(value), value);
      return Ok(value);
    }
    var x := value;
    var next := (x + Quotient(value, x)) / 2;
    while next < x
      invariant 0 < x
      invariant value < (x + 1) * (x + 1)
      invariant next == (x + value / x) / 2
      decreases x
    {
      NewtonStaysAbove(value, x);
      NewtonPositive(value, x);
      x := next;
      next := (x + Quotient(value, x)) / 2;
    }
    NewtonStop(value, x);
    MarketMath.FloorRootUnique(x, MarketMath.FloorSqrt(value), value);
    r := Ok(x);
  }

  lemma NewtonPositive(value: nat, x: nat)
    requires 2 <= value && 0 < x
    ensures 0 < (x + value / x) / 2
  {
    if x == 1 {
      assert value / 1 == value;
    }
  }

  /** The sale quote, around the Newton root. */
  method QuoteSell(reserveA: nat, reserveB: nat, participantAOutcome: bool, positionsIn: nat)
    returns (r: Result<SellQuote>)
    ensures
      var selected := if participantAOutcome then reserveA else reserveB;
      var other := if participantAOutcome then reserveB else reserveA;
      r.Ok? && SameSale(r.value, MarketMath.QuoteSell(selected, other, positionsIn))
  {
    hide MarketMath.FloorSqrt, MarketMath.QuoteSell;
    var selected := if participantAOutcome then reserveA else reserveB;
    var other := if participantAOutcome then reserveB else reserveA;
    var sum := selected + positionsIn + other;
    var discriminant := sum * sum - 4 * positionsIn * other;
    var floorRoot := SqrtFloor(discriminant);
    if floorRoot.Revert? {
      MarketMath.Discriminant(selected, other, positionsIn);
      assert false;
    }
    SaleFromRoot(selected, other, positionsIn, discriminant, floorRoot.value);
    var root := if floorRoot.value * floorRoot.value == discriminant then floorRoot.value else floorRoot.value + 1;
    var grossCollateral := Quotient(sum - root, 2);
    var liquidityFee := Quotient(grossCollateral * 30, 10_000);
    var collateralOut := grossCollateral - liquidityFee;
    var newSelected := selected + positionsIn - grossCollateral;
    var newOther := other - grossCollateral;
    r := Ok(SellQuote(grossCollateral, liquidityFee, collateralOut, newSelected, newOther));
  }

  ghost predicate SamePurchase(client: BuyQuote, contract: Result<MarketMath.BuyQuote>) {
    && contract.Ok?
    && client.winnerRewardFee == contract.value.winnerRewardFee
    && client.liquidityFee == contract.value.liquidityFee
    && client.tradeInput == contract.value.tradeInput
    && client.positionsOut == contract.value.positionsOut
    && client.newSelected == contract.value.newSelectedReserve
    && client.newOther == contract.value.newOtherReserve
  }

  ghost predicate SameSale(client: SellQuote, contract: Result<MarketMath.SellQuote>) {
    && contract.Ok?
    && client.grossCollateral == contract.value.grossCollateral
    && client.liquidityFee == contract.value.liquidityFee
    && client.collateralOut == contract.value.collateralOut
    && client.newSelected == contract.value.newSelectedReserve
    && client.newOther == contract.value.newOtherReserve
  }

  /** The client's rounding-up division is the contract's. */
  lemma CeilAgrees(x: nat, y: nat, d: nat)
    requires 0 < d
    ensures Quotient(x * y + d - 1, d) == MulDivCeil(x, y, d)
  {
    var q, c := (x * y + d - 1) / d, MulDivCeil(x, y, d);
    DivisionBounds(x * y + d - 1, d);
    SameCeiling(x * y, d, q, c);
  }

  lemma SameCeiling(n: nat, d: nat, q: nat, c: nat)
    requires 0 < d
    requires n <= q * d < n + d && n <= c * d < n + d
    ensures q == c
  {
    assert (q + 1) * d == q * d + d && (c + 1) * d == c * d + d;
    MulCancel(q, c + 1, d);
    MulCancel(c, q + 1, d);
  }

  /** On every rate a market admits the client and the contract quote the same
      purchase, and fail together on an empty one. */
  lemma PurchaseAgrees(reserveA: nat, reserveB: nat, participantAOutcome: bool, budget: nat, winnerRewardBps: nat)
    requires winnerRewardBps <= MarketMath.MAX_WINNER_REWARD_BPS
    ensures
      var selected := if participantAOutcome then reserveA else reserveB;
      var other := if participantAOutcome then reserveB else reserveA;
      var client := QuoteBuy(reserveA, reserveB, participantAOutcome, budget, winnerRewardBps);
      var contract := MarketMath.QuoteBuy(selected, other, budget, winnerRewardBps);
      && (client.Ok? <==> contract.Ok?)
      && (client.Ok? ==> SamePurchase(client.value, contract))
  {
    var selected := if participantAOutcome then reserveA else reserveB;
    var other := if participantAOutcome then reserveB else reserveA;
    MarketMath.FeesBelowBudget(budget, winnerRewardBps);
    var tradeInput := budget - MulDiv(budget, winnerRewardBps, MarketMath.BPS)
                             - MulDiv(budget, MarketMath.LIQUIDITY_FEE_BPS, MarketMath.BPS);
    var newOther := other + tradeInput;
    if newOther != 0 {
      CeilAgrees(selected, other, newOther);
      CeilAtMostSelected(selected, other, newOther);
    }
  }

  lemma CeilAtMostSelected(selected: nat, other: nat, newOther: nat)
    requires 0 < newOther && other <= newOther
    ensures MulDivCeil(selected, other, newOther) <= selected
  {
    MulMono(other, newOther, selected);
    MarketMath.CeilIsLeast(selected, other, newOther);
  }

  /** The contract's sale in terms of the floor root the client computes. */
  lemma SaleFromRoot(selected: nat, other: nat, positionsIn: nat, discriminant: nat, floorRoot: nat)
    requires
      var sum := selected + positionsIn + other;
      discriminant == sum * sum - 4 * positionsIn * other
    requires floorRoot == MarketMath.FloorSqrt(discriminant)
    ensures
      var root := if floorRoot * floorRoot == discriminant then floorRoot else floorRoot + 1;
      var gross := (selected + positionsIn + other - root) / 2;
      var sale := MarketMath.QuoteSell(selected, other, positionsIn);
      && sale.Ok?
      && root <= selected + positionsIn + other
      && sale.value.grossCollateral == gross
      && sale.value.liquidityFee == MulDiv(gross, 30, 10_000)
      && sale.value.collateralOut == gross - MulDiv(gross, 30, 10_000)
      && sale.value.newSelectedReserve == selected + positionsIn - gross
      && sale.value.newOtherReserve == other - gross
  {
    hide MarketMath.FloorSqrt, MulDiv;
    assert MarketMath.QuoteSell(selected, other, positionsIn).Ok? by {
      hide MarketMath.QuoteSell;
      MarketMath.SellQuoteSound(selected, other, positionsIn);
    }
    assert MarketMath.IsFloorRoot(floorRoot, discriminant);
  }
}
