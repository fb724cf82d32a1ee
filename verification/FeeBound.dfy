/** How far the fees owed to all providers can exceed the fees set aside for
    them, and when every one of them can be paid. */
module FeeBound {
  import opened Prelude
  import opened MarketMath
  import opened Ledger
  import opened LedgerInvariant

  /** What the listed providers could claim now, together. */
  function OwedTo(f: FeeIndex, providers: seq<Address>): int {
    if providers == [] then 0 else Owed(f, providers[0]) + OwedTo(f, providers[1..])
  }

  ghost predicate Distinct(providers: seq<Address>) {
    forall i, j :: 0 <= i < j < |providers| ==> providers[i] != providers[j]
  }

  ghost predicate DominatedAt(x: map<Address, nat>, y: map<Address, nat>, u: map<Address, nat>, v: map<Address, nat>,
                              index: nat, p: Address)
  {
    FEE_SCALE * (Get(x, p) + Get(y, p)) <= FEE_SCALE * Get(u, p) + index * Get(v, p)
  }

  /** Sums follow a pointwise bound. */
  lemma {:induction false} SumDominated(x: map<Address, nat>, y: map<Address, nat>, u: map<Address, nat>,
                                        v: map<Address, nat>, index: nat)
    requires forall p: Address :: DominatedAt(x, y, u, v, index, p)
    ensures FEE_SCALE * (Sum(x) + Sum(y)) <= FEE_SCALE * Sum(u) + index * Sum(v)
    decreases |x| + |y|
  {
    hide Sum, DominatedAt;
    if x == map[] && y == map[] {
      SumEmpty(x);
      SumEmpty(y);
      NonNegative(index, Sum(v));
    } else {
      var k :| k in x || k in y;
      var x', y', u', v' := x - {k}, y - {k}, u - {k}, v - {k};
      forall p: Address ensures DominatedAt(x', y', u', v', index, p) {
        assert DominatedAt(x, y, u, v, index, p);
        DominatedWithout(x, y, u, v, index, k, p);
      }
      SumDominated(x', y', u', v', index);
      assert DominatedAt(x, y, u, v, index, k);
      DominatedSums(x, y, u, v, index, k);
    }
  }

  lemma DominatedWithout(x: map<Address, nat>, y: map<Address, nat>, u: map<Address, nat>, v: map<Address, nat>,
                         index: nat, k: Address, p: Address)
    requires DominatedAt(x, y, u, v, index, p)
    ensures DominatedAt(x - {k}, y - {k}, u - {k}, v - {k}, index, p)
  {
  }

  lemma DominatedSums(x: map<Address, nat>, y: map<Address, nat>, u: map<Address, nat>, v: map<Address, nat>,
                      index: nat, k: Address)
    requires DominatedAt(x, y, u, v, index, k)
    requires FEE_SCALE * (Sum(x - {k}) + Sum(y - {k})) <= FEE_SCALE * Sum(u - {k}) + index * Sum(v - {k})
    ensures FEE_SCALE * (Sum(x) + Sum(y)) <= FEE_SCALE * Sum(u) + index * Sum(v)
  {
    hide Sum, Get;
    TakeOut(x, k);
    TakeOut(y, k);
    TakeOut(u, k);
    TakeOut(v, k);
    AddInequalities(Get(x, k) + Get(y, k), Sum(x - {k}) + Sum(y - {k}), Sum(x) + Sum(y),
                    Get(u, k), Sum(u - {k}), Sum(u), index, Get(v, k), Sum(v - {k}), Sum(v));
  }

  lemma AddInequalities(a: nat, a': nat, sumA: nat, u: nat, u': nat, sumU: nat, index: nat, v: nat, v': nat, sumV: nat)
    requires FEE_SCALE * a <= FEE_SCALE * u + index * v && FEE_SCALE * a' <= FEE_SCALE * u' + index * v'
    requires sumA == a + a' && sumU == u + u' && sumV == v + v'
    ensures FEE_SCALE * sumA <= FEE_SCALE * sumU + index * sumV
  {
  }

  lemma TakeOut(m: map<Address, nat>, k: Address)
    ensures Sum(m) == Get(m, k) + Sum(m - {k})
  {
    if k in m {
      SumRemove(m, k);
    } else {
      assert m - {k} == m;
    }
  }

  ghost function OwedMap(f: FeeIndex, providers: seq<Address>): map<Address, nat>
    requires DebtsOk(f)
  {
    map p | p in providers :: OwedNat(f, p)
  }

  ghost function OwedNat(f: FeeIndex, p: Address): nat
    requires DebtsOk(f)
  {
    assert Get(f.lpFeeDebt, p) <= Accumulated(f, p);
    Owed(f, p)
  }

  lemma {:induction false} OwedAsSum(f: FeeIndex, providers: seq<Address>)
    requires DebtsOk(f) && Distinct(providers)
    ensures OwedTo(f, providers) == Sum(OwedMap(f, providers))
    decreases |providers|
  {
    hide DebtsOk, Owed;
    var m := OwedMap(f, providers);
    if providers == [] {
      SumEmpty(m);
    } else {
      var p := providers[0];
      OwedAsSum(f, providers[1..]);
      SumRemove(m, p);
      assert m - {p} == OwedMap(f, providers[1..]);
    }
  }

  /** In every state the fees owed to any providers exceed the fees set aside by
      at most one base unit for each executed addition beyond the second. */
  lemma OverdraftBound(f: FeeIndex, additions: nat, providers: seq<Address>)
    requires FeesOk(f, additions) && Distinct(providers)
    ensures OwedTo(f, providers) <= f.unclaimedLpFees + (if additions <= 2 then 0 else additions - 2)
  {
    hide MulDiv, Sum;
    OwedAsSum(f, providers);
    var owed := OwedMap(f, providers);
    forall p: Address ensures DominatedAt(owed, f.lpFeeDebt, f.lpFeeCredit, f.lpShares, f.feePerShare, p) {
      assert Get(f.lpFeeDebt, p) <= Accumulated(f, p);
      assert FEE_SCALE * Accumulated(f, p) <= Get(f.lpShares, p) * f.feePerShare;
    }
    SumDominated(owed, f.lpFeeDebt, f.lpFeeCredit, f.lpShares, f.feePerShare);
  }

  /** Pays every listed provider who is owed something, in order. */
  function PayAll(f: FeeIndex, providers: seq<Address>): Result<FeeIndex>
    decreases |providers|
  {
    if providers == [] then Ok(f)
    else if Owed(f, providers[0]) == 0 then PayAll(f, providers[1..])
    else
      var (rest, _) :- TakeFees(f, providers[0]);
      PayAll(rest, providers[1..])
  }

  lemma {:induction false} SameOwed(f: FeeIndex, g: FeeIndex, providers: seq<Address>)
    requires forall p | p in providers :: Owed(g, p) == Owed(f, p)
    ensures OwedTo(g, providers) == OwedTo(f, providers)
  {
    if providers != [] {
      SameOwed(f, g, providers[1..]);
    }
  }

  lemma {:induction false} OwedNonNegative(f: FeeIndex, providers: seq<Address>)
    requires DebtsOk(f)
    ensures 0 <= OwedTo(f, providers)
  {
    if providers != [] {
      assert Get(f.lpFeeDebt, providers[0]) <= Accumulated(f, providers[0]);
      OwedNonNegative(f, providers[1..]);
    }
  }

  /** All listed providers can be paid, in any order, exactly when what they are
      owed together does not exceed the fees set aside. */
  lemma {:induction false} EveryoneIsPaidIff(f: FeeIndex, additions: nat, providers: seq<Address>)
    requires FeesOk(f, additions) && Distinct(providers)
    ensures PayAll(f, providers).Ok? <==> OwedTo(f, providers) <= f.unclaimedLpFees
    decreases |providers|
  {
    hide FeesOk, Owed, TakeFees;
    if providers != [] {
      var p, others := providers[0], providers[1..];
      TakeKeeps(f, p, additions);
      FeesAreDebts(f, additions);
      OwedNonNegative(f, others);
      OwedNonNegative(f, [p]);
      assert OwedTo(f, [p]) == Owed(f, p);
      if Owed(f, p) == 0 {
        EveryoneIsPaidIff(f, additions, others);
      } else if TakeFees(f, p).Ok? {
        var rest := TakeFees(f, p).value.0;
        SameOwed(f, rest, others);
        EveryoneIsPaidIff(rest, additions, others);
      }
    }
  }

  lemma FeesAreDebts(f: FeeIndex, additions: nat)
    requires FeesOk(f, additions)
    ensures DebtsOk(f)
  {
  }

  /** Joining and leaving move no fees: what anyone could claim is the same before
      and after, so a provider who has just joined has nothing to claim. */
  lemma SharesMoveNoFees(f: FeeIndex, additions: nat, p: Address, shares: nat, q: Address)
    requires FeesOk(f, additions)
    ensures Owed(MintShares(f, p, shares), q) == Owed(f, q)
    ensures BurnShares(f, p).Ok? ==> Owed(BurnShares(f, p).value, q) == Owed(f, q)
  {
    hide MulDiv, Sum;
    assert Get(f.lpFeeDebt, p) <= Accumulated(f, p);
    NoSharesNothingAccumulated(f.feePerShare);
  }

  lemma NoSharesNothingAccumulated(index: nat)
    ensures MulDiv(0, index, FEE_SCALE) == 0
  {
    assert 0 * index == 0;
  }
}
