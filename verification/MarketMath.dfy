/** The fixed-product quotes every market executes: fees, directed rounding and
    the quadratic behind a sale, with the optimality, split, round-trip and
    no-arbitrage results the rounding is there to guarantee. */
module MarketMath {
  import opened Prelude

  const BPS: nat := 10_000
  const MAX_WINNER_REWARD_BPS: nat := 100
  const LIQUIDITY_FEE_BPS: nat := 30

  datatype BuyQuote = BuyQuote(
    tradeInput: nat,
    winnerRewardFee: nat,
    liquidityFee: nat,
    positionsOut: nat,
    newSelectedReserve: nat,
    newOtherReserve: nat)

  datatype SellQuote = SellQuote(
    grossCollateral: nat,
    liquidityFee: nat,
    collateralOut: nat,
    newSelectedReserve: nat,
    newOtherReserve: nat)

  // ------------------------------------------------------------ square roots

  ghost predicate IsFloorRoot(r: nat, n: nat) {
    r * r <= n < (r + 1) * (r + 1)
  }

  /** r is the least number whose square reaches n. */
  ghost predicate IsCeilRoot(r: nat, n: nat) {
    n <= r * r && (r > 0 ==> (r - 1) * (r - 1) < n)
  }

  /** floor(sqrt(n)), two bits at a time. */
  function FloorSqrt(n: nat): (r: nat)
    ensures IsFloorRoot(r, n)
  {
    if n == 0 then 0
    else
      hide IsFloorRoot;
      var half := FloorSqrt(n / 4);
      NextBit(half, n);
      var r := 2 * half;
      if (r + 1) * (r + 1) <= n then r + 1 else r
  }

  /** The root of a quarter, doubled, is the root or one below it. */
  lemma NextBit(half: nat, n: nat)
    requires IsFloorRoot(half, n / 4)
    ensures
      var r := 2 * half;
      IsFloorRoot(if (r + 1) * (r + 1) <= n then r + 1 else r, n)
  {
    assert (half + 1) * (half + 1) == half * half + 2 * half + 1;
    assert (2 * half) * (2 * half) == 4 * (half * half);
    assert (2 * half + 2) * (2 * half + 2) == 4 * (half * half) + 8 * half + 4;
  }

  function CeilSqrt(n: nat): (r: nat)
    ensures IsCeilRoot(r, n)
  {
    var floor := FloorSqrt(n);
    CeilFromFloor(floor, n);
    if floor * floor < n then floor + 1 else floor
  }

  lemma CeilFromFloor(floor: nat, n: nat)
    requires IsFloorRoot(floor, n)
    ensures IsCeilRoot(if floor * floor < n then floor + 1 else floor, n)
  {
    if floor > 0 && floor * floor == n {
      assert floor * floor == (floor - 1) * (floor - 1) + 2 * (floor - 1) + 1;
    }
  }

  lemma SquareLess(a: nat, b: nat)
    requires a * a < b * b
    ensures a < b
  {
    if b <= a {
      MulMono(b, a, b);
      MulMono(b, a, a);
    }
  }

  lemma FloorRootUnique(r: nat, s: nat, n: nat)
    requires IsFloorRoot(r, n) && IsFloorRoot(s, n)
    ensures r == s
  {
    SquareLess(r, s + 1);
    SquareLess(s, r + 1);
  }

  /** The ceiling root of n is at most x exactly when x squared reaches n. */
  lemma CeilRootAtMost(root: nat, n: nat, x: nat)
    requires IsCeilRoot(root, n)
    ensures root <= x <==> n <= x * x
  {
    if root <= x {
      MulMono(root, x, root);
      MulMono(root, x, x);
    } else {
      MulMono(x, root - 1, x);
      MulMono(x, root - 1, root - 1);
    }
  }

  // ------------------------------------------------------------------ quotes

  function QuoteBuy(selectedReserve: nat, otherReserve: nat, budget: nat, winnerRewardBps: nat): Result<BuyQuote> {
    var winnerRewardFee := MulDiv(budget, winnerRewardBps, BPS);
    var liquidityFee := MulDiv(budget, LIQUIDITY_FEE_BPS, BPS);
    var afterReward :- Sub(budget, winnerRewardFee);
    var tradeInput :- Sub(afterReward, liquidityFee);
    var newOther := otherReserve + tradeInput;
    var _ :- Require(newOther != 0, Panic);
    var newSelected := MulDivCeil(selectedReserve, otherReserve, newOther);
    var positionsOut :- Sub(selectedReserve + tradeInput, newSelected);
    Ok(BuyQuote(tradeInput, winnerRewardFee, liquidityFee, positionsOut, newSelected, newOther))
  }

  function QuoteSell(selectedReserve: nat, otherReserve: nat, positionsIn: nat): Result<SellQuote> {
    var sum := selectedReserve + positionsIn + otherReserve;
    var discriminant :- Sub(sum * sum, 4 * positionsIn * otherReserve);
    var doubled :- Sub(sum, CeilSqrt(discriminant));
    var gross := doubled / 2;
    var liquidityFee := MulDiv(gross, LIQUIDITY_FEE_BPS, BPS);
    var collateralOut :- Sub(gross, liquidityFee);
    var newSelected :- Sub(selectedReserve + positionsIn, gross);
    var newOther :- Sub(otherReserve, gross);
    Ok(SellQuote(gross, liquidityFee, collateralOut, newSelected, newOther))
  }

  // -------------------------------------------------------------- purchases

  /** At an admissible reward rate the fees are less than the budget. */
  lemma FeesBelowBudget(budget: nat, winnerRewardBps: nat)
    requires winnerRewardBps <= MAX_WINNER_REWARD_BPS
    ensures 0 < budget ==> MulDiv(budget, winnerRewardBps, BPS) + MulDiv(budget, LIQUIDITY_FEE_BPS, BPS) < budget
    ensures MulDiv(budget, winnerRewardBps, BPS) + MulDiv(budget, LIQUIDITY_FEE_BPS, BPS) <= budget
  {
    MulMono(winnerRewardBps, MAX_WINNER_REWARD_BPS, budget);
  }

  /** A purchase never reverts on a positive budget; the budget is split without
      loss, one pair of positions is minted per unit of trade input, and the new
      selected reserve is the least that keeps the reserve product. */
  lemma BuyQuoteSound(selected: nat, other: nat, budget: nat, winnerRewardBps: nat)
    requires winnerRewardBps <= MAX_WINNER_REWARD_BPS
    requires 0 < budget
    ensures QuoteBuy(selected, other, budget, winnerRewardBps).Ok?
    ensures
      var q := QuoteBuy(selected, other, budget, winnerRewardBps).value;
      && 0 < q.tradeInput
      && q.tradeInput + q.winnerRewardFee + q.liquidityFee == budget
      && q.newOtherReserve == other + q.tradeInput
      && q.newSelectedReserve + q.positionsOut == selected + q.tradeInput
      && q.newSelectedReserve <= selected
      && selected * other <= q.newSelectedReserve * q.newOtherReserve
      && (forall s: nat | selected * other <= s * q.newOtherReserve :: q.newSelectedReserve <= s)
      && (0 < selected && 0 < other ==> 0 < q.newSelectedReserve)
  {
    FeesBelowBudget(budget, winnerRewardBps);
    var t := budget - MulDiv(budget, winnerRewardBps, BPS) - MulDiv(budget, LIQUIDITY_FEE_BPS, BPS);
    var newOther := other + t;
    var newSelected := MulDivCeil(selected, other, newOther);
    CeilIsLeast(selected, other, newOther);
    MulMono(other, newOther, selected);
    assert newSelected <= selected;
    if 0 < selected && 0 < other {
      ProductPositive(selected, other);
    }
  }

  /** The linear part of BuyQuoteSound. */
  lemma BuyQuoteTotals(selected: nat, other: nat, budget: nat, winnerRewardBps: nat)
    requires winnerRewardBps <= MAX_WINNER_REWARD_BPS
    requires 0 < budget
    ensures QuoteBuy(selected, other, budget, winnerRewardBps).Ok?
    ensures
      var q := QuoteBuy(selected, other, budget, winnerRewardBps).value;
      && 0 < q.tradeInput
      && q.tradeInput + q.winnerRewardFee + q.liquidityFee == budget
      && q.newOtherReserve == other + q.tradeInput
      && q.newSelectedReserve + q.positionsOut == selected + q.tradeInput
      && (0 < selected && 0 < other ==> 0 < q.newSelectedReserve)
  {
    hide QuoteBuy;
    BuyQuoteSound(selected, other, budget, winnerRewardBps);
  }

  lemma ProductPositive(a: nat, b: nat)
    requires 0 < a && 0 < b
    ensures 0 < a * b
  {
  }

  lemma CeilIsLeast(x: nat, y: nat, d: nat)
    requires 0 < d
    ensures forall s: nat | x * y <= s * d :: MulDivCeil(x, y, d) <= s
  {
    var q := MulDivCeil(x, y, d);
    forall s: nat | x * y <= s * d ensures q <= s {
      assert q * d < s * d + d == (s + 1) * d;
      MulCancel(q, s + 1, d);
    }
  }

  /** Positions bought with trade input t, fees aside. */
  function Bought(selected: nat, other: nat, t: nat): int
    requires 0 < other + t
  {
    selected + t - MulDivCeil(selected, other, other + t)
  }

  /** Buying in two steps never yields more than buying at once, and at most one
      unit less. */
  lemma SplitPurchase(selected: nat, other: nat, t1: nat, t2: nat)
    requires 0 < other + t1
    ensures
      var first := Bought(selected, other, t1);
      var between := MulDivCeil(selected, other, other + t1);
      var second := Bought(between, other + t1, t2);
      Bought(selected, other, t1 + t2) - 1 <= first + second <= Bought(selected, other, t1 + t2)
  {
    var mid := other + t1;
    var end := mid + t2;
    var n1 := MulDivCeil(selected, other, mid);
    var n2 := MulDivCeil(n1, mid, end);
    var n := MulDivCeil(selected, other, end);
    CeilIsLeast(selected, other, end);
    assert n <= n2;
    CeilIsLeast(n1, mid, end);
    assert (n + 1) * end == n * end + end;
    assert n2 <= n + 1;
  }

  // ------------------------------------------------------------------- sales

  /** Paying out r leaves at least the old reserve product. */
  ghost predicate SaleFeasible(selected: nat, other: nat, positionsIn: nat, r: nat) {
    && r <= other
    && r <= selected + positionsIn
    && selected * other <= (selected + positionsIn - r) * (other - r)
  }

  /** The discriminant as a square plus a product, about either side. */
  lemma Discriminant(selected: nat, other: nat, positionsIn: nat)
    ensures
      var sum := selected + positionsIn + other;
      var gap := selected + positionsIn - other;
      var surplus := selected + other - positionsIn;
      && sum * sum - 4 * positionsIn * other == gap * gap + 4 * (selected * other)
      && sum * sum - 4 * positionsIn * other == surplus * surplus + 4 * (selected * positionsIn)
      && 0 <= sum * sum - 4 * positionsIn * other
  {
    var s: int, o: int, p: int := selected, other, positionsIn;
    var sum := s + p + o;
    assert sum * sum == (s + p - o) * (s + p - o) + 4 * ((s + p) * o);
    assert (s + p) * o == s * o + p * o;
    assert sum * sum == (s + o - p) * (s + o - p) + 4 * ((s + o) * p);
    assert (s + o) * p == s * p + o * p;
    NonNegativeSum(s + p - o, s, o);
  }

  lemma NonNegativeSum(a: int, x: nat, y: nat)
    ensures 0 <= a * a + 4 * (x * y)
  {
    if a < 0 {
      assert 0 <= (-a) * (-a) == a * a;
    }
  }

  /** A root bounds from above everything whose square lies under it. */
  lemma RootDominates(root: nat, n: nat, a: int)
    requires IsCeilRoot(root, n)
    requires a * a <= n
    ensures 0 - root <= a <= root
  {
    if root < a {
      MulMono(root, a, root);
      MulMono(root + 1, a, a);
    } else if a < 0 - root {
      MulMono(root, -a, root);
      MulMono(root + 1, -a, -a);
    }
  }

  /** Feasibility of r is the statement that sum - 2r reaches the root. */
  lemma FeasibleIffRoot(selected: nat, other: nat, positionsIn: nat, r: nat)
    requires r <= other && r <= selected + positionsIn
    ensures
      var sum := selected + positionsIn + other;
      SaleFeasible(selected, other, positionsIn, r)
      <==> sum * sum - 4 * positionsIn * other <= (sum - 2 * r) * (sum - 2 * r)
  {
    var s: int, o: int, p: int := selected, other, positionsIn;
    var sum := s + p + o;
    var x, y := s + p - r, o - r;
    assert sum - 2 * r == x + y;
    assert x - y == s + p - o;
    assert (x + y) * (x + y) == (x - y) * (x - y) + 4 * (x * y);
    Discriminant(s, o, p);
    assert sum * sum - 4 * p * o == (x - y) * (x - y) + 4 * (s * o);
  }

  /** A sale never reverts and pays the greatest gross collateral that keeps the
      reserve product; it is bounded by the positions sold and by both sides. */
  lemma SellQuoteSound(selected: nat, other: nat, positionsIn: nat)
    ensures QuoteSell(selected, other, positionsIn).Ok?
    ensures
      var q := QuoteSell(selected, other, positionsIn).value;
      && SaleFeasible(selected, other, positionsIn, q.grossCollateral)
      && (forall r: nat | SaleFeasible(selected, other, positionsIn, r) :: r <= q.grossCollateral)
      && q.grossCollateral <= positionsIn
      && q.grossCollateral == q.collateralOut + q.liquidityFee
      && q.newSelectedReserve == selected + positionsIn - q.grossCollateral
      && q.newOtherReserve == other - q.grossCollateral
      && selected * other <= q.newSelectedReserve * q.newOtherReserve
  {
    var sum := selected + positionsIn + other;
    Discriminant(selected, other, positionsIn);
    var disc: nat := sum * sum - 4 * positionsIn * other;
    var root := CeilSqrt(disc);
    NonNegative(selected, other);
    NonNegative(selected, positionsIn);
    RootDominates(root, disc, selected + positionsIn - other);
    RootDominates(root, disc, selected + other - positionsIn);
    NonNegative(positionsIn, other);
    CeilRootAtMost(root, disc, sum);
    assert root <= sum by { assert disc <= sum * sum; }
    var gross := (sum - root) / 2;
    assert gross <= other && gross <= selected + positionsIn && gross <= positionsIn;
    CeilRootAtMost(root, disc, sum - 2 * gross);
    FeasibleIffRoot(selected, other, positionsIn, gross);
    forall r: nat | SaleFeasible(selected, other, positionsIn, r) ensures r <= gross {
      FeasibleIffRoot(selected, other, positionsIn, r);
      CeilRootAtMost(root, disc, sum - 2 * r);
    }
    assert MulDiv(gross, LIQUIDITY_FEE_BPS, BPS) <= gross;
  }

  /** The linear part of SellQuoteSound. */
  lemma SellQuoteTotals(selected: nat, other: nat, positionsIn: nat)
    ensures QuoteSell(selected, other, positionsIn).Ok?
    ensures
      var q := QuoteSell(selected, other, positionsIn).value;
      && q.grossCollateral <= positionsIn
      && q.grossCollateral == q.collateralOut + q.liquidityFee
      && q.newSelectedReserve == selected + positionsIn - q.grossCollateral
      && q.newOtherReserve == other - q.grossCollateral
      && (0 < selected && 0 < other ==> 0 < q.newSelectedReserve && 0 < q.newOtherReserve)
  {
    hide QuoteSell;
    SellQuoteSound(selected, other, positionsIn);
    if 0 < selected && 0 < other {
      ProductPositive(selected, other);
    }
  }

  lemma NonNegative(a: nat, b: nat)
    ensures 0 <= a * b
  {
  }

  /** Selling back everything just bought returns at most the trade input. */
  lemma RoundTrip(selected: nat, other: nat, budget: nat, winnerRewardBps: nat)
    requires winnerRewardBps <= MAX_WINNER_REWARD_BPS
    requires 0 < budget
    ensures QuoteBuy(selected, other, budget, winnerRewardBps).Ok?
    ensures
      var buy := QuoteBuy(selected, other, budget, winnerRewardBps).value;
      var sell := QuoteSell(buy.newSelectedReserve, buy.newOtherReserve, buy.positionsOut);
      && sell.Ok?
      && sell.value.grossCollateral <= buy.tradeInput
  {
    BuyQuoteSound(selected, other, budget, winnerRewardBps);
    var buy := QuoteBuy(selected, other, budget, winnerRewardBps).value;
    SellQuoteSound(buy.newSelectedReserve, buy.newOtherReserve, buy.positionsOut);
    var r := QuoteSell(buy.newSelectedReserve, buy.newOtherReserve, buy.positionsOut).value.grossCollateral;
    if buy.tradeInput < r {
      var over := r - buy.tradeInput;
      assert selected * other <= (selected - over) * (other - over);
      ShrinkingProductFalls(selected, other, over);
    }
  }

  lemma ShrinkingProductFalls(a: nat, b: nat, over: nat)
    requires 0 < over <= a && over <= b
    ensures (a - over) * (b - over) < a * b
  {
    assert a * b == (a - over) * (b - over) + over * (b - over) + over * (a - over) + over * over;
    NonNegative(over, b - over);
    NonNegative(over, a - over);
    ProductPositive(over, over);
  }

  // -------------------------------------------------------- runs of trades

  datatype Pool = Pool(reserveA: nat, reserveB: nat)

  datatype Trade =
    | Purchase(outcomeA: bool, budget: nat)
    | Sale(outcomeA: bool, positions: nat)

  /** What the traders together have gained. */
  datatype Gain = Gain(positionsA: int, positionsB: int, collateral: int)

  function Execute(pool: Pool, trade: Trade, winnerRewardBps: nat): Result<(Pool, Gain)> {
    hide QuoteBuy, QuoteSell;
    match trade
    case Purchase(true, budget) =>
      var q :- QuoteBuy(pool.reserveA, pool.reserveB, budget, winnerRewardBps);
      Ok((Pool(q.newSelectedReserve, q.newOtherReserve), Gain(q.positionsOut, 0, 0 - budget)))
    case Purchase(false, budget) =>
      var q :- QuoteBuy(pool.reserveB, pool.reserveA, budget, winnerRewardBps);
      Ok((Pool(q.newOtherReserve, q.newSelectedReserve), Gain(0, q.positionsOut, 0 - budget)))
    case Sale(true, positions) =>
      var q :- QuoteSell(pool.reserveA, pool.reserveB, positions);
      Ok((Pool(q.newSelectedReserve, q.newOtherReserve), Gain(0 - positions, 0, q.collateralOut)))
    case Sale(false, positions) =>
      var q :- QuoteSell(pool.reserveB, pool.reserveA, positions);
      Ok((Pool(q.newOtherReserve, q.newSelectedReserve), Gain(0, 0 - positions, q.collateralOut)))
  }

  /** Runs every trade in turn; a trade that reverts changes nothing. */
  function ExecuteAll(pool: Pool, trades: seq<Trade>, winnerRewardBps: nat): (Pool, Gain)
    decreases |trades|
  {
    if trades == [] then (pool, Gain(0, 0, 0))
    else
      match Execute(pool, trades[0], winnerRewardBps)
      case Revert(_) => ExecuteAll(pool, trades[1..], winnerRewardBps)
      case Ok((next, gain)) =>
        var (last, rest) := ExecuteAll(next, trades[1..], winnerRewardBps);
        (last, Gain(gain.positionsA + rest.positionsA,
                    gain.positionsB + rest.positionsB,
                    gain.collateral + rest.collateral))
  }

  function Product(pool: Pool): nat {
    NonNegative(pool.reserveA, pool.reserveB);
    pool.reserveA * pool.reserveB
  }

  /** Per run: some collateral `minted` enters the pool as pairs, never less than
      the traders lost, and the reserve product does not fall. */
  lemma {:induction false} RunAccounting(pool: Pool, trades: seq<Trade>, winnerRewardBps: nat) returns (minted: int)
    requires winnerRewardBps <= MAX_WINNER_REWARD_BPS
    ensures
      var (last, gain) := ExecuteAll(pool, trades, winnerRewardBps);
      && last.reserveA + gain.positionsA == pool.reserveA + minted
      && last.reserveB + gain.positionsB == pool.reserveB + minted
      && gain.collateral <= -minted
      && Product(pool) <= Product(last)
    decreases |trades|
  {
    if trades == [] {
      return 0;
    }
    var step := Execute(pool, trades[0], winnerRewardBps);
    match step
    case Revert(_) =>
      minted := RunAccounting(pool, trades[1..], winnerRewardBps);
    case Ok((next, gain)) =>
      var first := StepAccounting(pool, trades[0], winnerRewardBps);
      var rest := RunAccounting(next, trades[1..], winnerRewardBps);
      minted := first + rest;
  }

  lemma StepAccounting(pool: Pool, trade: Trade, winnerRewardBps: nat) returns (minted: int)
    requires winnerRewardBps <= MAX_WINNER_REWARD_BPS
    requires Execute(pool, trade, winnerRewardBps).Ok?
    ensures
      var (next, gain) := Execute(pool, trade, winnerRewardBps).value;
      && next.reserveA + gain.positionsA == pool.reserveA + minted
      && next.reserveB + gain.positionsB == pool.reserveB + minted
      && gain.collateral <= -minted
      && Product(pool) <= Product(next)
  {
    hide QuoteBuy, QuoteSell;
    match trade
    case Purchase(outcomeA, budget) =>
      var s, o := if outcomeA then pool.reserveA else pool.reserveB, if outcomeA then pool.reserveB else pool.reserveA;
      if budget == 0 {
        minted := 0;
        EmptyPurchase(s, o, winnerRewardBps);
      } else {
        BuyQuoteSound(s, o, budget, winnerRewardBps);
        minted := QuoteBuy(s, o, budget, winnerRewardBps).value.tradeInput;
      }
    case Sale(outcomeA, positions) =>
      var s, o := if outcomeA then pool.reserveA else pool.reserveB, if outcomeA then pool.reserveB else pool.reserveA;
      SellQuoteSound(s, o, positions);
      minted := 0 - QuoteSell(s, o, positions).value.grossCollateral;
  }

  lemma EmptyPurchase(selected: nat, other: nat, winnerRewardBps: nat)
    ensures
      var r := QuoteBuy(selected, other, 0, winnerRewardBps);
      r.Ok? ==> r.value.positionsOut == 0 && r.value.newSelectedReserve == selected && r.value.newOtherReserve == other
  {
    assert MulDiv(0, winnerRewardBps, BPS) == 0 && MulDiv(0, LIQUIDITY_FEE_BPS, BPS) == 0;
    if other != 0 {
      CeilOfMultiple(selected, other);
    }
  }

  lemma CeilOfMultiple(n: nat, d: nat)
    requires 0 < d
    ensures MulDivCeil(n, d, d) == n
  {
    hide MulDivCeil;
    var q := MulDivCeil(n, d, d);
    assert (n + 1) * d == n * d + d;
    MulCancel(q, n + 1, d);
    CeilIsLeast(n, d, d);
    assert n <= q by {
      if q < n {
        MulMono(q + 1, n, d);
      }
    }
  }

  /** The reserve product never falls over a run of trades. */
  lemma ProductNeverFalls(pool: Pool, trades: seq<Trade>, winnerRewardBps: nat)
    requires winnerRewardBps <= MAX_WINNER_REWARD_BPS
    ensures Product(pool) <= Product(ExecuteAll(pool, trades, winnerRewardBps).0)
  {
    var _ := RunAccounting(pool, trades, winnerRewardBps);
  }

  /** From positive reserves no run leaves the traders with at least as many of
      both positions and strictly more collateral. */
  lemma NoArbitrage(pool: Pool, trades: seq<Trade>, winnerRewardBps: nat)
    requires winnerRewardBps <= MAX_WINNER_REWARD_BPS
    requires 0 < pool.reserveA && 0 < pool.reserveB
    ensures
      var gain := ExecuteAll(pool, trades, winnerRewardBps).1;
      !(0 <= gain.positionsA && 0 <= gain.positionsB && 0 < gain.collateral)
  {
    var minted := RunAccounting(pool, trades, winnerRewardBps);
    var (last, gain) := ExecuteAll(pool, trades, winnerRewardBps);
    if 0 <= gain.positionsA && 0 <= gain.positionsB && 0 < gain.collateral {
      MulMono(last.reserveA, pool.reserveA - 1, last.reserveB);
      MulMono(last.reserveB, pool.reserveB - 1, pool.reserveA - 1);
      ShrinkingProductFalls(pool.reserveA, pool.reserveB, 1);
    }
  }
}
