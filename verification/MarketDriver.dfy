/** Whole runs on the market object: a sequence of external calls leaves it in
    exactly the state the state machine reaches by the same run, so what is proved of
    runs holds of the object. */
module MarketDriver {
  import opened Prelude
  import opened Market
  import opened MarketInvariant
  import opened MarketRuns
  import opened MarketTheorems
  import opened LivePredictionMarketContract

  /** The submissions, and the two calls that move the queue. */
  method Submit(market: LivePredictionMarket, msg: Msg, call: Call) returns (r: Result<()>)
    requires market.Valid(msg.now)
    requires call.BuyCall? || call.AddLiquidityCall? || call.AddLiquidityForCall? || call.SellCall?
      || call.TransferCall?
             || call.MarkSafeCall? || call.ProcessCall?
    modifies market
    ensures LivePredictionMarket.Does(Apply(old(market.Snapshot()), msg, call), old(market.Snapshot()),
                                      market.Snapshot(), r)
    ensures market.Valid(msg.now)
  {
    hide Inv, SubmitBuy, SubmitAddLiquidity, SubmitAddLiquidityFor, SubmitSell, SubmitPositionTransfer, MarkEpochSafe,
      ProcessEpoch;
    var id: nat;
    match call
    case BuyCall(outcomeA, amount, minimum, deadline) =>
      r, id := market.SubmitBuy(msg, outcomeA, amount, minimum, deadline);
    case AddLiquidityCall(amount, minimum, deadline) =>
      r, id := market.SubmitAddLiquidity(msg, amount, minimum, deadline);
    case AddLiquidityForCall(provider, amount, minimum, deadline) =>
      r, id := market.SubmitAddLiquidityFor(msg, provider, amount, minimum, deadline);
    case SellCall(outcomeA, amount, minimum, deadline) =>
      r, id := market.SubmitSell(msg, outcomeA, amount, minimum, deadline);
    case TransferCall(outcomeA, recipient, amount, deadline) =>
      r, id := market.SubmitPositionTransfer(msg, outcomeA, recipient, amount, deadline);
    case MarkSafeCall(epoch, sequence) => r := market.MarkEpochSafe(msg, epoch, sequence);
    case ProcessCall(epoch, maximum) => r, id := market.ProcessEpoch(msg.now, epoch, maximum);
  }

  /** The gate and the ruling. */
  method Rule(market: LivePredictionMarket, msg: Msg, call: Call) returns (r: Result<()>)
    requires market.Valid(msg.now)
    requires call.SuspendCall? || call.ReopenCall? || call.CloseCall? || call.AttestCall? || call.ChallengeCall?
             || call.VerdictCall? || call.FinalizeCall? || call.ExpireCall? || call.InvalidateCall?
    modifies market
    ensures LivePredictionMarket.Does(Apply(old(market.Snapshot()), msg, call), old(market.Snapshot()),
                                      market.Snapshot(), r)
    ensures market.Valid(msg.now)
  {
    hide Inv, LivePredictionMarket.Snapshot, LivePredictionMarket.Valid, SuspendGate, ReopenGate, CloseForDecisiveEvent,
      AttestResult, ChallengeResult, AttestChallengeVerdict, FinalizeUnchallenged, ExpireChallenge,
      InvalidateUnresolved;
    match call
    case SuspendCall(sequence) => r := market.SuspendGate(msg, sequence);
    case ReopenCall(sequence) => r := market.ReopenGate(msg, sequence);
    case CloseCall(sequence) => r := market.CloseForDecisiveEvent(msg, sequence);
    case AttestCall(outcome, evidence) => r := market.AttestResult(msg, outcome, evidence);
    case ChallengeCall(evidence, bond) => r := market.ChallengeResult(msg, evidence, bond);
    case VerdictCall(accept) => r := market.AttestChallengeVerdict(msg, accept);
    case FinalizeCall => r := market.FinalizeUnchallenged(msg);
    case ExpireCall => r := market.ExpireChallenge(msg);
    case InvalidateCall => r := market.InvalidateUnresolved(msg);
  }

  /** Bonds and claims. */
  method Claim(market: LivePredictionMarket, msg: Msg, call: Call) returns (r: Result<()>)
    requires market.Valid(msg.now)
    requires call.PostBondCall? || call.ClaimFeesCall? || call.RedeemCall? || call.SettleLpCall?
      || call.ClaimRewardCall?
             || call.RefundFeeCall? || call.ClaimBondCall?
    modifies market
    ensures LivePredictionMarket.Does(Apply(old(market.Snapshot()), msg, call), old(market.Snapshot()),
                                      market.Snapshot(), r)
    ensures market.Valid(msg.now)
  {
    hide Inv, LivePredictionMarket.Snapshot, LivePredictionMarket.Valid, PostIntegrityBond, ClaimFees, Redeem, SettleLp,
      ClaimWinnerReward, ClaimInvalidWinnerFeeRefund, ClaimIntegrityBond;
    match call
    case PostBondCall => r := market.PostIntegrityBond(msg);
    case ClaimFeesCall => r := market.ClaimLpFees(msg);
    case RedeemCall => r := market.RedeemPositions(msg);
    case SettleLpCall => r := market.SettleLpInventory(msg);
    case ClaimRewardCall => r := market.ClaimWinnerReward(msg);
    case RefundFeeCall => r := market.ClaimInvalidWinnerFeeRefund(msg);
    case ClaimBondCall => r := market.ClaimIntegrityBond(msg);
  }

  /** Any external call does to the object what it does to the state machine. */
  method Perform(market: LivePredictionMarket, msg: Msg, call: Call) returns (r: Result<()>)
    requires market.Valid(msg.now)
    modifies market
    ensures LivePredictionMarket.Does(Apply(old(market.Snapshot()), msg, call), old(market.Snapshot()),
                                      market.Snapshot(), r)
    ensures market.Valid(msg.now)
  {
    hide Apply, Inv;
    match call
    case BuyCall(_, _, _, _) => r := Submit(market, msg, call);
    case AddLiquidityCall(_, _, _) => r := Submit(market, msg, call);
    case AddLiquidityForCall(_, _, _, _) => r := Submit(market, msg, call);
    case SellCall(_, _, _, _) => r := Submit(market, msg, call);
    case TransferCall(_, _, _, _) => r := Submit(market, msg, call);
    case MarkSafeCall(_, _) => r := Submit(market, msg, call);
    case ProcessCall(_, _) => r := Submit(market, msg, call);
    case SuspendCall(_) => r := Rule(market, msg, call);
    case ReopenCall(_) => r := Rule(market, msg, call);
    case CloseCall(_) => r := Rule(market, msg, call);
    case AttestCall(_, _) => r := Rule(market, msg, call);
    case ChallengeCall(_, _) => r := Rule(market, msg, call);
    case VerdictCall(_) => r := Rule(market, msg, call);
    case FinalizeCall => r := Rule(market, msg, call);
    case ExpireCall => r := Rule(market, msg, call);
    case InvalidateCall => r := Rule(market, msg, call);
    case _ => r := Claim(market, msg, call);
  }

  /** A run of calls on the object is a run of the state machine. */
  method Replay(market: LivePredictionMarket, events: seq<Event>, ghost start: Uint64)
    requires market.Valid(start) && Chronological(start, events)
    modifies market
    ensures market.Snapshot() == Run(old(market.Snapshot()), events)
    ensures market.Valid(End(start, events))
  {
    hide Inv, Apply;
    ghost var t := start;
    var k := 0;
    while k < |events|
      invariant 0 <= k <= |events|
      invariant market.Valid(t) && Chronological(t, events[k..])
      invariant Run(market.Snapshot(), events[k..]) == Run(old(market.Snapshot()), events)
      invariant End(t, events[k..]) == End(start, events)
    {
      var e := events[k];
      assert events[k..][0] == e && events[k..][1..] == events[k + 1..];
      market.ValidLater(t, e.msg.now);
      var _ := Perform(market, e.msg, e.call);
      t, k := e.msg.now, k + 1;
    }
    assert events[k..] == [];
  }

  /** Deploying a market and calling it reaches the state the theorems speak of. */
  method Deploy(c: Config, additional: set<Address>, events: seq<Event>, ghost start: Uint64)
    returns (market: LivePredictionMarket)
    requires ConfigOk(c) && Chronological(start, events)
    ensures fresh(market) && market.Snapshot() == Reached(c, additional, events)
    ensures market.Valid(End(start, events))
  {
    hide Inv, Run;
    market := new LivePredictionMarket(c, additional, start);
    Replay(market, events, start);
  }
}
