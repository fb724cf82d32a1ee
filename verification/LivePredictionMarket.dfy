/** The market contract itself: storage fields updated in place by its external
    calls. Every method is proved to do exactly what the state machine of module
    Market does; module MarketDriver lifts that to whole runs of calls. */
module LivePredictionMarketContract {
  import opened Prelude
  import opened MarketMath
  import opened Ledger
  import opened Market
  import L = Ledger
  import S = Market
  import opened MarketInvariant
  import opened LedgerInvariant
  import opened MarketTheorems
  import opened Reverts

  class LivePredictionMarket {
    const config: Config
    const restrictedWallet: set<Address>

    var gateState: GateState
    var provisionalOutcome: Outcome
    var finalOutcome: Outcome
    var provisionalEvidenceHash: nat
    var provisionalAt: Uint64
    var closedAt: Uint64
    var closedEpoch: Uint64
    var resolutionDueAt: Uint64
    var decisiveSequence: nat
    var lastSafeSequence: nat

    var reserveA: nat
    var reserveB: nat
    var totalLpShares: nat
    var feePerShare: nat
    var unclaimedLpFees: nat
    var winnerRewardPool: nat
    var collateralBacking: nat
    var pendingCollateral: nat
    var totalIntegrityBondLiability: nat

    var integrityBondOf: map<Address, nat>
    var positionAOf: map<Address, nat>
    var positionBOf: map<Address, nat>
    var lpSharesOf: map<Address, nat>
    var lpFeeDebt: map<Address, nat>
    var lpFeeCredit: map<Address, nat>
    var winnerFeePaid: map<Address, nat>
    var integrityBondClaimed: set<Address>
    var winnerRewardClaimed: set<Address>

    var actions: seq<Action>
    var epochActionIds: map<Uint64, seq<nat>>
    var epochCursor: map<Uint64, nat>
    var epochSafe: set<Uint64>
    var epochSafeSequence: map<Uint64, nat>

    var resultAttestationCount: map<Verdict, nat>
    var resultAttestedBy: map<Verdict, set<Address>>
    var challenged: bool
    var challenger: Address
    var challengeEvidenceHash: nat
    var challengeBond: nat
    var challengedAt: Uint64
    var challengeVerdictCount: map<bool, nat>
    var challengeVerdictBy: map<bool, set<Address>>

    /** The token's view of this contract: its balance and what it has sent. */
    var balance: nat
    var sent: map<Address, nat>

    // ------------------------------------------------------------ abstraction

    ghost function PoolView(): Pool
      reads this`reserveA, this`reserveB
    {
      Pool(reserveA, reserveB)
    }

    ghost function FeesView(): FeeIndex
      reads this`totalLpShares, this`feePerShare, this`unclaimedLpFees, this`lpSharesOf, this`lpFeeDebt
      reads this`lpFeeCredit
    {
      FeeIndex(totalLpShares, feePerShare, unclaimedLpFees, lpSharesOf, lpFeeDebt, lpFeeCredit)
    }

    ghost function WalletsView(): Wallets
      reads this`positionAOf, this`positionBOf
    {
      Wallets(positionAOf, positionBOf)
    }

    ghost function RewardsView(): Rewards
      reads this`winnerRewardPool, this`winnerFeePaid
    {
      Rewards(winnerRewardPool, winnerFeePaid)
    }

    ghost function PurseView(): Purse
      reads this`balance, this`sent
    {
      Purse(balance, sent)
    }

    ghost function Accounts(): Book
      reads this`reserveA, this`reserveB, this`totalLpShares, this`feePerShare, this`unclaimedLpFees, this`lpSharesOf
      reads this`lpFeeDebt, this`lpFeeCredit, this`positionAOf, this`positionBOf, this`winnerRewardPool
      reads this`winnerFeePaid
      reads this`collateralBacking, this`pendingCollateral, this`balance, this`sent
    {
      Book(PoolView(), FeesView(), WalletsView(), RewardsView(), collateralBacking, pendingCollateral, PurseView())
    }

    ghost function GateView(): Gate
      reads this`gateState, this`closedAt, this`closedEpoch, this`resolutionDueAt, this`decisiveSequence
      reads this`lastSafeSequence, this`epochSafe, this`epochSafeSequence
    {
      Gate(gateState, closedAt, closedEpoch, resolutionDueAt, decisiveSequence, lastSafeSequence, epochSafe,
           epochSafeSequence)
    }

    ghost function QueueView(): Queue
      reads this`actions, this`epochActionIds, this`epochCursor
    {
      Queue(actions, epochActionIds, epochCursor)
    }

    ghost function RulingView(): Ruling
      reads this`provisionalOutcome, this`finalOutcome, this`provisionalEvidenceHash, this`provisionalAt
      reads this`resultAttestationCount, this`resultAttestedBy, this`challenged, this`challenger
      reads this`challengeEvidenceHash
      reads this`challengeBond, this`challengedAt, this`challengeVerdictCount, this`challengeVerdictBy
    {
      Ruling(provisionalOutcome, finalOutcome, provisionalEvidenceHash, provisionalAt, resultAttestationCount,
          resultAttestedBy, challenged, challenger, challengeEvidenceHash, challengeBond, challengedAt,
            challengeVerdictCount, challengeVerdictBy)
    }

    ghost function BondsView(): Bonds
      reads this`integrityBondOf, this`integrityBondClaimed, this`totalIntegrityBondLiability
    {
      Bonds(integrityBondOf, integrityBondClaimed, totalIntegrityBondLiability)
    }

    /** The state of the state machine that these fields represent. */
    ghost function Snapshot(): S.Market
      reads this
    {
      S.Market(config, restrictedWallet, GateView(), QueueView(), Accounts(), RulingView(), BondsView(),
               winnerRewardClaimed)
    }

    ghost predicate Valid(now: Uint64)
      reads this
    {
      Inv(Snapshot(), now)
    }

    lemma ValidLater(t: Uint64, now: Uint64)
      requires Valid(t) && t <= now
      ensures Valid(now)
    {
      InvLater(Snapshot(), t, now);
    }

    /** The call behaved as the state machine says: it took effect, or reverted
        with the same error and changed nothing. */
    static ghost predicate Does(spec: Result<S.Market>, before: S.Market, after: S.Market, r: Result<()>) {
      match spec
      case Ok(next) => r.Ok? && after == next
      case Revert(error) => r == Revert(error) && after == before
    }

    constructor (config: Config, additional: set<Address>, ghost now: Uint64)
      requires ConfigOk(config)
      ensures Valid(now) && Snapshot() == NewMarket(config, additional)
    {
      this.config := config;
      restrictedWallet := RestrictedBy(config, additional);
      gateState, provisionalOutcome, finalOutcome := Open, Unset, Unset;
      provisionalEvidenceHash, provisionalAt, closedAt, closedEpoch, resolutionDueAt := 0, 0, 0, 0, 0;
      decisiveSequence, lastSafeSequence := 0, 0;
      reserveA, reserveB, totalLpShares, feePerShare, unclaimedLpFees := 0, 0, 0, 0, 0;
      winnerRewardPool, collateralBacking, pendingCollateral, totalIntegrityBondLiability := 0, 0, 0, 0;
      integrityBondOf, positionAOf, positionBOf, lpSharesOf := map[], map[], map[], map[];
      lpFeeDebt, lpFeeCredit, winnerFeePaid := map[], map[], map[];
      integrityBondClaimed, winnerRewardClaimed := {}, {};
      actions, epochActionIds, epochCursor, epochSafe, epochSafeSequence := [], map[], map[], {}, map[];
      resultAttestationCount, resultAttestedBy := map[], map[];
      challenged, challenger, challengeEvidenceHash, challengeBond, challengedAt := false, ZERO_ADDRESS, 0, 0, 0;
      challengeVerdictCount, challengeVerdictBy := map[], map[];
      balance, sent := 0, map[];
      new;
      hide Inv, ConfigOk;
      CreatedValid(additional, now);
    }

    lemma CreatedValid(additional: set<Address>, now: Uint64)
      requires ConfigOk(config) && Snapshot() == NewMarket(config, additional)
      ensures Valid(now)
    {
      hide Inv, Snapshot;
      NewMarketOk(config, additional, now);
    }

    // ------------------------------------------------------------------ views

    predicate IsReady(roomReady: bool)
      reads this
      ensures IsReady(roomReady) == S.IsReady(Snapshot(), roomReady)
    {
      if config.roomBound then roomReady
      else
        && Get(integrityBondOf, config.participantA) == INTEGRITY_BOND
        && Get(integrityBondOf, config.participantB) == INTEGRITY_BOND
    }

    predicate HasLiquidity()
      reads this`totalLpShares, this
      ensures HasLiquidity() == S.HasLiquidity(Snapshot())
    {
      totalLpShares != 0
    }

    method AccountedLiabilities() returns (total: nat)
      ensures total == S.AccountedLiabilities(Snapshot())
      ensures forall now: Uint64 :: Valid(now) ==> total == balance
    {
      var heldChallengeBond := if challenged && finalOutcome == Unset then challengeBond else 0;
      total := collateralBacking + winnerRewardPool + unclaimedLpFees + pendingCollateral + totalIntegrityBondLiability
        + heldChallengeBond;
    }

    // ---------------------------------------------------------------- helpers

    method ReceiveTokens(amount: nat)
      modifies this`balance
      ensures Accounts() == Receive(old(Accounts()), amount)
    {
      balance := balance + amount;
    }

    method SendTokens(to: Address, amount: nat)
      requires amount <= balance
      modifies this`balance, this`sent
      ensures Ok(Accounts()) == Pay(old(Accounts()), to, amount)
    {
      balance := balance - amount;
      sent := Credit(sent, to, amount);
    }

    /** Takes the collateral of a purchase or an addition into escrow. */
    method TakeEscrow(amount: nat)
      modifies this`balance, this`pendingCollateral
      ensures Accounts() == Escrow(old(Snapshot()), amount).book
    {
      hide GateView, RulingView, QueueView, BondsView;
      ReceiveTokens(amount);
      pendingCollateral := pendingCollateral + amount;
    }

    /** Debits positions, or reverts when there are too few. */
    method TakePosition(user: Address, outcomeA: bool, amount: nat) returns (r: Result<()>)
      modifies this`positionAOf, this`positionBOf
      ensures match DebitPosition(old(WalletsView()), user, outcomeA, amount)
              case Ok(wallets) => r.Ok? && WalletsView() == wallets
              case Revert(error) => r == Revert(error) && WalletsView() == old(WalletsView())
    {
      var position := Get(if outcomeA then positionAOf else positionBOf, user);
      if position < amount { return Revert(Panic); }
      if outcomeA {
        positionAOf := positionAOf[user := position - amount];
      } else {
        positionBOf := positionBOf[user := position - amount];
      }
      return Ok(());
    }

    method AddPosition(user: Address, outcomeA: bool, amount: nat)
      modifies this`positionAOf, this`positionBOf
      ensures WalletsView() == CreditPosition(old(WalletsView()), user, outcomeA, amount)
    {
      if outcomeA {
        positionAOf := Credit(positionAOf, user, amount);
      } else {
        positionBOf := Credit(positionBOf, user, amount);
      }
    }

    method SetReserves(outcomeA: bool, selected: nat, other: nat)
      modifies this`reserveA, this`reserveB
      ensures PoolView() == PoolOf(outcomeA, selected, other)
    {
      if outcomeA {
        reserveA, reserveB := selected, other;
      } else {
        reserveB, reserveA := selected, other;
      }
    }

    method ShareFee(fee: nat)
      modifies this`collateralBacking, this`unclaimedLpFees, this`feePerShare
      ensures Accounts() == DistributeLpFee(old(Accounts()), fee)
    {
      hide PoolView, WalletsView, RewardsView, PurseView;
      if fee == 0 {
        return;
      }
      if totalLpShares == 0 {
        collateralBacking := collateralBacking + fee;
        return;
      }
      unclaimedLpFees := unclaimedLpFees + fee;
      feePerShare := feePerShare + MulDiv(fee, FEE_SCALE, totalLpShares);
    }

    method Accrue(provider: Address)
      modifies this`lpFeeCredit, this`lpFeeDebt
      ensures FeesView() == AccrueLp(old(FeesView()), provider)
    {
      var accumulated := MulDiv(Get(lpSharesOf, provider), feePerShare, FEE_SCALE);
      var debt := Get(lpFeeDebt, provider);
      if accumulated > debt {
        lpFeeCredit := Credit(lpFeeCredit, provider, accumulated - debt);
      }
      lpFeeDebt := lpFeeDebt[provider := accumulated];
    }

    method Record(a: Action) returns (id: nat)
      modifies this`actions, this`epochActionIds
      ensures QueueView() == RecordAction(old(Snapshot()), a).queue
      ensures id == |old(actions)|
    {
      hide GateView, RulingView, Accounts, BondsView;
      id := |actions|;
      actions := actions + [a];
      epochActionIds := epochActionIds[a.epoch := (if a.epoch in epochActionIds then epochActionIds[a.epoch] else [])
                                       + [id]];
    }

    /** The checks every submission makes on the gate, the opening time and the
        deadline. */
    method CheckWindow(now: Uint64, deadline: Uint64) returns (r: Result<()>)
      ensures r == RequireActionWindow(Snapshot(), now, deadline)
    {
      if gateState != Open { return Revert(InvalidState); }
      if now < config.opensAt { return Revert(TooEarly); }
      if deadline <= now { return Revert(InvalidDeadline); }
      return Ok(());
    }

    method CheckTrader(msg: Msg) returns (r: Result<()>)
      ensures r == RequireTrader(Snapshot(), msg)
    {
      if !IsReady(msg.roomReady) { return Revert(NotReady); }
      if msg.sender in restrictedWallet { return Revert(NotEligible); }
      return Ok(());
    }

    // ------------------------------------------------------------ submissions

    method PostIntegrityBond(msg: Msg) returns (r: Result<()>)
      requires Valid(msg.now)
      modifies this
      ensures Does(S.PostIntegrityBond(old(Snapshot()), msg), old(Snapshot()), Snapshot(), r)
      ensures Valid(msg.now)
    {
      hide Inv, GateView, RulingView, QueueView, Accounts;
      ghost var before := Snapshot();
      if config.roomBound { return Revert(RoomManagesBonds); }
      if msg.sender != config.participantA && msg.sender != config.participantB { return Revert(NotEligible); }
      if Get(integrityBondOf, msg.sender) != 0 { return Revert(InvalidState); }
      HoldBond(msg.sender);
      ReceiveTokens(INTEGRITY_BOND);
      PostBondKeeps(before, msg);
      return Ok(());
    }

    method HoldBond(sender: Address)
      modifies this`integrityBondOf, this`totalIntegrityBondLiability
      ensures BondsView() == old(BondsView()).(integrityBondOf := old(integrityBondOf)[sender := INTEGRITY_BOND],
                                               totalIntegrityBondLiability := old(totalIntegrityBondLiability)
                                                 + INTEGRITY_BOND)
    {
      integrityBondOf := integrityBondOf[sender := INTEGRITY_BOND];
      totalIntegrityBondLiability := totalIntegrityBondLiability + INTEGRITY_BOND;
    }

    method SubmitBuy(msg: Msg, outcomeA: bool, budget: nat, minimumPositions: nat, deadline: Uint64)
      returns (r: Result<()>, actionId: nat)
      requires Valid(msg.now)
      modifies this
      ensures Does(S.SubmitBuy(old(Snapshot()), msg, outcomeA, budget, minimumPositions, deadline), old(Snapshot()),
                   Snapshot(), r)
      ensures r.Ok? ==> actionId == |old(actions)|
      ensures Valid(msg.now)
    {
      hide Inv, GateView, RulingView, BondsView, QueueView, Accounts, RequireTrader, RequireActionWindow;
      ghost var before := Snapshot();
      actionId := 0;
      r := CheckTrader(msg);
      if r.Revert? { return; }
      if !HasLiquidity() { return Revert(NoLiquidity), 0; }
      if budget < MIN_PURCHASE || budget > MAX_ACTION_AMOUNT { return Revert(InvalidAmount), 0; }
      r := CheckWindow(msg.now, deadline);
      if r.Revert? { return; }
      TakeEscrow(budget);
      actionId := Record(Action(Buy, Pending, msg.sender, ZERO_ADDRESS, outcomeA, CurrentEpoch(config, msg.now),
                                deadline, budget, minimumPositions));
      SubmitBuyKeeps(before, msg, outcomeA, budget, minimumPositions, deadline);
    }

    method SubmitAddLiquidity(msg: Msg, amount: nat, minimumShares: nat, deadline: Uint64)
      returns (r: Result<()>, actionId: nat)
      requires Valid(msg.now)
      modifies this
      ensures Does(S.SubmitAddLiquidity(old(Snapshot()), msg, amount, minimumShares, deadline), old(Snapshot()),
                   Snapshot(), r)
      ensures r.Ok? ==> actionId == |old(actions)|
      ensures Valid(msg.now)
    {
      hide Inv, GateView, RulingView, BondsView, QueueView, Accounts, RequireTrader, S.SubmitLiquidityAction;
      actionId := 0;
      r := CheckTrader(msg);
      if r.Revert? { return; }
      r, actionId := SubmitLiquidityAction(msg.now, msg.sender, amount, minimumShares, deadline);
    }

    /** The router supplies the collateral; the action belongs to `provider`. */
    method SubmitAddLiquidityFor(msg: Msg, provider: Address, amount: nat, minimumShares: nat, deadline: Uint64)
      returns (r: Result<()>, actionId: nat)
      requires Valid(msg.now)
      modifies this
      ensures Does(S.SubmitAddLiquidityFor(old(Snapshot()), msg, provider, amount, minimumShares, deadline),
                   old(Snapshot()), Snapshot(), r)
      ensures r.Ok? ==> actionId == |old(actions)|
      ensures Valid(msg.now)
    {
      hide Inv, GateView, RulingView, BondsView, QueueView, Accounts, S.IsReady, S.SubmitLiquidityAction;
      actionId := 0;
      if msg.sender != config.liquidityRouter || msg.sender == ZERO_ADDRESS { return Revert(Unauthorized), 0; }
      if !IsReady(msg.roomReady) { return Revert(NotReady), 0; }
      if provider == ZERO_ADDRESS || provider in restrictedWallet { return Revert(NotEligible), 0; }
      r, actionId := SubmitLiquidityAction(msg.now, provider, amount, minimumShares, deadline);
    }

    method SubmitLiquidityAction(now: Uint64, provider: Address, amount: nat, minimumShares: nat, deadline: Uint64)
      returns (r: Result<()>, actionId: nat)
      requires Valid(now)
      modifies this
      ensures Does(S.SubmitLiquidityAction(old(Snapshot()), now, provider, amount, minimumShares, deadline),
                   old(Snapshot()), Snapshot(), r)
      ensures r.Ok? ==> actionId == |old(actions)|
      ensures Valid(now)
    {
      hide Inv, GateView, RulingView, BondsView, QueueView, Accounts, RequireActionWindow;
      ghost var before := Snapshot();
      actionId := 0;
      if amount < MIN_LIQUIDITY || amount > MAX_ACTION_AMOUNT { return Revert(InvalidAmount), 0; }
      r := CheckWindow(now, deadline);
      if r.Revert? { return; }
      TakeEscrow(amount);
      actionId := Record(Action(AddLiquidity, Pending, provider, ZERO_ADDRESS, false, CurrentEpoch(config, now),
                                deadline, amount, minimumShares));
      SubmitLiquidityKeeps(before, now, provider, amount, minimumShares, deadline);
    }

    method SubmitSell(msg: Msg, outcomeA: bool, positionsIn: nat, minimumCollateral: nat, deadline: Uint64)
      returns (r: Result<()>, actionId: nat)
      requires Valid(msg.now)
      modifies this
      ensures Does(S.SubmitSell(old(Snapshot()), msg, outcomeA, positionsIn, minimumCollateral, deadline),
                   old(Snapshot()), Snapshot(), r)
      ensures r.Ok? ==> actionId == |old(actions)|
      ensures Valid(msg.now)
    {
      hide Inv, GateView, RulingView, BondsView, QueueView, Accounts, RequireTrader, S.SubmitPositionAction;
      actionId := 0;
      r := CheckTrader(msg);
      if r.Revert? { return; }
      r, actionId := SubmitPositionAction(msg, Sell, ZERO_ADDRESS, outcomeA, positionsIn, minimumCollateral, deadline);
    }

    method SubmitPositionTransfer(msg: Msg, outcomeA: bool, recipient: Address, amount: nat, deadline: Uint64)
      returns (r: Result<()>, actionId: nat)
      requires Valid(msg.now)
      modifies this
      ensures Does(S.SubmitPositionTransfer(old(Snapshot()), msg, outcomeA, recipient, amount, deadline),
                   old(Snapshot()), Snapshot(), r)
      ensures r.Ok? ==> actionId == |old(actions)|
      ensures Valid(msg.now)
    {
      hide Inv, GateView, RulingView, BondsView, QueueView, Accounts, RequireTrader, S.SubmitPositionAction;
      actionId := 0;
      r := CheckTrader(msg);
      if r.Revert? { return; }
      if recipient == ZERO_ADDRESS || recipient in restrictedWallet { return Revert(NotEligible), 0; }
      r, actionId := SubmitPositionAction(msg, TransferPosition, recipient, outcomeA, amount, 0, deadline);
    }

    method SubmitPositionAction(msg: Msg, kind: ActionKind, recipient: Address, outcomeA: bool, amount: nat,
                                minimumReturn: nat, deadline: Uint64) returns (r: Result<()>, actionId: nat)
      requires Valid(msg.now) && (kind.Sell? || kind.TransferPosition?)
      modifies this
      ensures Does(S.SubmitPositionAction(old(Snapshot()), msg, kind, recipient, outcomeA, amount, minimumReturn,
                                          deadline),
                   old(Snapshot()), Snapshot(), r)
      ensures r.Ok? ==> actionId == |old(actions)|
      ensures Valid(msg.now)
    {
      hide Inv, GateView, RulingView, BondsView, QueueView, RequireActionWindow, DebitPosition;
      hide PoolView, FeesView, WalletsView, RewardsView, PurseView;
      ghost var before := Snapshot();
      actionId := 0;
      if amount == 0 || amount > MAX_ACTION_AMOUNT { return Revert(InvalidAmount), 0; }
      r := CheckWindow(msg.now, deadline);
      if r.Revert? { return; }
      r := TakePosition(msg.sender, outcomeA, amount);
      if r.Revert? { return; }
      actionId := Record(Action(kind, Pending, msg.sender, recipient, outcomeA, CurrentEpoch(config, msg.now), deadline,
                                amount, minimumReturn));
      SubmitPositionKeeps(before, msg, kind, recipient, outcomeA, amount, minimumReturn, deadline);
    }

    // ------------------------------------------------------------------ queue

    method MarkEpochSafe(msg: Msg, epoch: Uint64, sourceSequence: nat) returns (r: Result<()>)
      requires Valid(msg.now)
      modifies this
      ensures Does(S.MarkEpochSafe(old(Snapshot()), msg, epoch, sourceSequence), old(Snapshot()), Snapshot(), r)
      ensures Valid(msg.now)
    {
      hide Inv, RulingView, BondsView, QueueView, Accounts, GateView, CurrentEpoch, EpochEndsAt;
      ghost var before := Snapshot();
      GateFields();
      GateSequences();
      if msg.sender != config.gateOracle { return Revert(Unauthorized); }
      if epoch >= CurrentEpoch(config, msg.now) { return Revert(TooEarly); }
      if msg.now < EpochEndsAt(config, epoch) + config.sourceFinalityDelay { return Revert(TooEarly); }
      if epoch in epochSafe || sourceSequence <= lastSafeSequence { return Revert(InvalidState); }
      if gateState == Closed && (epoch >= closedEpoch
                                 || sourceSequence >= decisiveSequence) { return Revert(WrongEpoch); }
      ClearEpoch(epoch, sourceSequence);
      MarkSafeKeeps(before, msg, epoch, sourceSequence);
      return Ok(());
    }

    method ClearEpoch(epoch: Uint64, sourceSequence: nat)
      modifies this`epochSafe, this`epochSafeSequence, this`lastSafeSequence
      ensures GateView() == old(GateView()).(epochSafe := old(epochSafe) + {epoch},
                                             epochSafeSequence := old(epochSafeSequence)[epoch := sourceSequence],
                                             lastSafeSequence := sourceSequence)
    {
      epochSafe := epochSafe + {epoch};
      epochSafeSequence := epochSafeSequence[epoch := sourceSequence];
      lastSafeSequence := sourceSequence;
    }

    method FillBuy(a: Action, q: BuyQuote)
      requires a.amount <= pendingCollateral
      modifies this`pendingCollateral, this`collateralBacking, this`winnerRewardPool, this`winnerFeePaid
      modifies this`unclaimedLpFees
      modifies this`feePerShare, this`reserveA, this`reserveB, this`positionAOf, this`positionBOf
      ensures Accounts() == BuyFilled(old(Accounts()), a, q)
    {
      hide FeesView, PurseView, PoolView, WalletsView, RewardsView, DistributeLpFee, CreditPosition, Credit;
      TakePayment(a, q);
      ShareFee(q.liquidityFee);
      SetReserves(a.outcomeA, q.newSelectedReserve, q.newOtherReserve);
      AddPosition(a.user, a.outcomeA, q.positionsOut);
    }

    /** Moves the budget of a purchase out of escrow into the backing and the pool
        for the winner. */
    method TakePayment(a: Action, q: BuyQuote)
      requires a.amount <= pendingCollateral
      modifies this`pendingCollateral, this`collateralBacking, this`winnerRewardPool, this`winnerFeePaid
      ensures pendingCollateral == old(pendingCollateral) - a.amount
      ensures collateralBacking == old(collateralBacking) + q.tradeInput
      ensures RewardsView() == Rewards(old(RewardsView()).winnerRewardPool + q.winnerRewardFee,
                                       Credit(old(RewardsView()).winnerFeePaid, a.user, q.winnerRewardFee))
    {
      pendingCollateral := pendingCollateral - a.amount;
      collateralBacking := collateralBacking + q.tradeInput;
      winnerRewardPool := winnerRewardPool + q.winnerRewardFee;
      winnerFeePaid := Credit(winnerFeePaid, a.user, q.winnerRewardFee);
    }

    method ExecuteBuy(a: Action) returns (executed: bool, returned: nat)
      requires L.ExecuteBuy(Accounts(), a, config.winnerRewardBps).Ok?
      modifies this`pendingCollateral, this`collateralBacking, this`winnerRewardPool, this`winnerFeePaid
      modifies this`unclaimedLpFees
      modifies this`feePerShare, this`reserveA, this`reserveB, this`positionAOf, this`positionBOf
      ensures Filling(L.ExecuteBuy(old(Accounts()), a, config.winnerRewardBps), old(Accounts()), Accounts(), executed,
                      returned)
    {
      hide FeesView, WalletsView, RewardsView, PurseView, QuoteBuy, BuyFilled;
      var quote := if a.outcomeA then QuoteBuy(reserveA, reserveB, a.amount, config.winnerRewardBps)
                   else QuoteBuy(reserveB, reserveA, a.amount, config.winnerRewardBps);
      var q := quote.value;
      if q.positionsOut < a.minimumReturn || q.positionsOut == 0 { return false, 0; }
      FillBuy(a, q);
      return true, q.positionsOut;
    }

    method FillSell(a: Action, q: SellQuote)
      requires q.grossCollateral <= collateralBacking
      modifies this`collateralBacking, this`unclaimedLpFees, this`feePerShare, this`reserveA, this`reserveB
      ensures Accounts() == SellFilled(old(Accounts()), a, q)
    {
      hide FeesView, PurseView, PoolView, WalletsView, RewardsView, DistributeLpFee;
      collateralBacking := collateralBacking - q.grossCollateral;
      ShareFee(q.liquidityFee);
      SetReserves(a.outcomeA, q.newSelectedReserve, q.newOtherReserve);
    }

    method ExecuteSell(a: Action) returns (executed: bool, returned: nat)
      requires L.ExecuteSell(Accounts(), a).Ok?
      modifies this`collateralBacking, this`unclaimedLpFees, this`feePerShare, this`reserveA, this`reserveB
      modifies this`balance, this`sent
      ensures Filling(L.ExecuteSell(old(Accounts()), a), old(Accounts()), Accounts(), executed, returned)
    {
      hide FeesView, WalletsView, RewardsView, QuoteSell, SellFilled;
      var quote := if a.outcomeA then QuoteSell(reserveA, reserveB, a.amount)
        else QuoteSell(reserveB, reserveA, a.amount);
      var q := quote.value;
      if q.collateralOut < a.minimumReturn || q.grossCollateral == 0 { return false, 0; }
      FillSell(a, q);
      SendTokens(a.user, q.collateralOut);
      return true, q.collateralOut;
    }

    method FillAddLiquidity(a: Action, q: LiquidityQuote)
      requires a.amount <= pendingCollateral && q.addedA <= a.amount && q.addedB <= a.amount
      modifies this`pendingCollateral, this`collateralBacking, this`lpSharesOf, this`totalLpShares, this`lpFeeDebt
      modifies this`lpFeeCredit, this`reserveA, this`reserveB, this`positionAOf, this`positionBOf
      ensures Accounts() == AdditionFilled(old(Accounts()), a, q)
    {
      hide FeesView, PurseView, WalletsView, RewardsView, CreditAdjustment, MintShares;
      pendingCollateral := pendingCollateral - a.amount;
      collateralBacking := collateralBacking + a.amount;
      Mint(a.user, q.shares);
      reserveA := reserveA + q.addedA;
      reserveB := reserveB + q.addedB;
      ReturnAdjustment(a.user, a.amount - q.addedA, a.amount - q.addedB);
    }

    method ReturnAdjustment(user: Address, adjustmentA: nat, adjustmentB: nat)
      modifies this`positionAOf, this`positionBOf
      ensures WalletsView() == CreditAdjustment(CreditAdjustment(old(WalletsView()), user, true, adjustmentA),
                                                user, false, adjustmentB)
    {
      hide CreditPosition, WalletsView;
      if adjustmentA != 0 { AddPosition(user, true, adjustmentA); }
      if adjustmentB != 0 { AddPosition(user, false, adjustmentB); }
    }

    method ExecuteAddLiquidity(a: Action) returns (executed: bool, returned: nat)
      requires L.ExecuteAddLiquidity(Accounts(), a).Ok?
      modifies this`pendingCollateral, this`collateralBacking, this`lpSharesOf, this`totalLpShares, this`lpFeeDebt
      modifies this`lpFeeCredit, this`reserveA, this`reserveB, this`positionAOf, this`positionBOf
      ensures Filling(L.ExecuteAddLiquidity(old(Accounts()), a), old(Accounts()), Accounts(), executed, returned)
    {
      hide WalletsView, RewardsView, PurseView, MulDiv, AdditionFilled;
      var q := LiquidityQuote(a.amount, a.amount, a.amount);
      if totalLpShares != 0 {
        var largest := Max(reserveA, reserveB);
        q := LiquidityQuote(MulDiv(a.amount, totalLpShares, largest),
                            MulDiv(a.amount, reserveA, largest),
                            MulDiv(a.amount, reserveB, largest));
      }
      if q.shares < a.minimumReturn || q.shares == 0 { return false, 0; }
      FillAddLiquidity(a, q);
      return true, q.shares;
    }

    /** Accrues, mints shares and enters them at the present fee index. */
    method Mint(provider: Address, shares: nat)
      modifies this`lpSharesOf, this`totalLpShares, this`lpFeeDebt, this`lpFeeCredit
      ensures FeesView() == MintShares(old(FeesView()), provider, shares)
    {
      hide MulDiv;
      Accrue(provider);
      lpSharesOf := Credit(lpSharesOf, provider, shares);
      totalLpShares := totalLpShares + shares;
      lpFeeDebt := lpFeeDebt[provider := MulDiv(Get(lpSharesOf, provider), feePerShare, FEE_SCALE)];
    }

    /** An attempt went as the ledger says. */
    static ghost predicate Filling(spec: Result<Fill>, before: Book, after: Book, executed: bool, returned: nat) {
      && spec.Ok?
      && match spec.value
         case Filled(book, amount) => executed && after == book && returned == amount
         case Unfilled => !executed && after == before
    }

    method TryExecute(a: Action) returns (executed: bool, returned: nat)
      requires L.TryExecute(Accounts(), a, config.winnerRewardBps).Ok?
      modifies this`pendingCollateral, this`collateralBacking, this`winnerRewardPool, this`winnerFeePaid
      modifies this`unclaimedLpFees
      modifies this`feePerShare, this`lpSharesOf, this`totalLpShares, this`lpFeeDebt, this`lpFeeCredit
      modifies this`reserveA, this`reserveB, this`positionAOf, this`positionBOf, this`balance, this`sent
      ensures Filling(L.TryExecute(old(Accounts()), a, config.winnerRewardBps), old(Accounts()), Accounts(), executed,
                      returned)
    {
      hide GateView, RulingView, BondsView, QueueView, L.ExecuteBuy, L.ExecuteSell, L.ExecuteAddLiquidity,
        CreditPosition;
      hide PoolView, FeesView, WalletsView, RewardsView, PurseView;
      match a.kind {
        case Buy => executed, returned := ExecuteBuy(a);
        case Sell => executed, returned := ExecuteSell(a);
        case AddLiquidity => executed, returned := ExecuteAddLiquidity(a);
        case TransferPosition =>
          AddPosition(a.recipient, a.outcomeA, a.amount);
          executed, returned := true, a.amount;
      }
    }

    method Refund(a: Action)
      requires L.Refund(Accounts(), a).Ok?
      modifies this`pendingCollateral, this`positionAOf, this`positionBOf, this`balance, this`sent
      ensures L.Refund(old(Accounts()), a) == Ok(Accounts())
    {
      hide GateView, RulingView, BondsView, QueueView, CreditPosition;
      if a.kind == Buy || a.kind == AddLiquidity {
        pendingCollateral := pendingCollateral - a.amount;
        SendTokens(a.user, a.amount);
      } else {
        AddPosition(a.user, a.outcomeA, a.amount);
      }
    }

    /** The body of the processing loop: settles one pending action. */
    method Settle(now: Uint64, id: nat, canExecute: bool)
      requires id < |actions| && actions[id].status.Pending?
      requires SettleAction(Snapshot(), now, id, canExecute).Ok?
      modifies this
      ensures SettleAction(old(Snapshot()), now, id, canExecute) == Ok(Snapshot())
    {
      hide GateView, RulingView, BondsView, Accounts, L.TryExecute, L.Refund;
      var a := actions[id];
      var executed := false;
      if canExecute && now <= a.deadline {
        var filled, _ := TryExecute(a);
        executed := filled;
      }
      if executed {
        actions := actions[id := a.(status := Executed)];
      } else {
        Refund(a);
        actions := actions[id := a.(status := Refunded)];
      }
    }

    /** Processes at most `maximumActions` actions of an epoch, each exactly once and
        in submission order. From the cursor on every action is pending, so the loop
        has none to skip. */
    method ProcessEpoch(now: Uint64, epoch: Uint64, maximumActions: nat) returns (r: Result<()>, processed: nat)
      requires Valid(now)
      modifies this
      ensures Does(S.ProcessEpoch(old(Snapshot()), now, epoch, maximumActions), old(Snapshot()), Snapshot(), r)
      ensures r.Ok? ==> processed == Min(maximumActions, Remaining(old(QueueView()), epoch))
      ensures Valid(now)
    {
      hide Inv, GateView, RulingView, BondsView, Accounts, Drain, SettleAction, EpochEndsAt, Executable, Refundable;
      ghost var before := Snapshot();
      processed := 0;
      var cursor := Get(epochCursor, epoch);
      var ids := if epoch in epochActionIds then epochActionIds[epoch] else [];
      if cursor >= |ids| || maximumActions == 0 { return Ok(()), 0; }
      var canExecute := IsExecutable(epoch);
      var canRefund := IsRefundable(now, epoch);
      if !canExecute && !canRefund { return Revert(TooEarly), 0; }
      var end := if maximumActions >= |ids| - cursor then |ids| else cursor + maximumActions;
      DrainNothing(before, now, epoch);
      ghost var at := before;
      for i := cursor to end
        invariant processed == i - cursor
        invariant epochActionIds == old(epochActionIds) && epochCursor == old(epochCursor)
        invariant GateView() == old(GateView())
        invariant at == Snapshot().(queue := QueueView().(epochCursor := at.queue.epochCursor))
        invariant at.queue.epochCursor == if i == cursor then epochCursor else epochCursor[epoch := i]
        invariant Inv(at, now)
        invariant Drain(before, now, epoch, i - cursor) == Ok(at)
      {
        DrainStep(before, at, Snapshot(), now, epoch, i - cursor);
        assert at.queue.epochCursor[epoch := i + 1] == epochCursor[epoch := i + 1];
        Settle(now, ids[i], canExecute);
        at := Snapshot().(queue := QueueView().(epochCursor := epochCursor[epoch := i + 1]));
        processed := processed + 1;
      }
      epochCursor := epochCursor[epoch := end];
      return Ok(()), processed;
    }

    predicate IsExecutable(epoch: Uint64)
      reads this
      ensures IsExecutable(epoch) == Executable(GateView(), epoch)
    {
      epoch in epochSafe && (gateState != Closed || epoch < closedEpoch)
    }

    predicate IsRefundable(now: Uint64, epoch: Uint64)
      reads this
      ensures IsRefundable(now, epoch) == Refundable(Snapshot(), now, epoch)
    {
      (gateState == Closed && epoch >= closedEpoch) || now > EpochEndsAt(config, epoch) + config.maxPendingTime
    }

    // ------------------------------------------------------------------- gate

    method SuspendGate(msg: Msg, sourceSequence: nat) returns (r: Result<()>)
      requires Valid(msg.now)
      modifies this`gateState
      ensures Does(S.SuspendGate(old(Snapshot()), msg, sourceSequence), old(Snapshot()), Snapshot(), r)
      ensures Valid(msg.now)
    {
      hide Inv, QueueView, RulingView, BondsView, Accounts;
      ghost var before := Snapshot();
      if msg.sender != config.gateOracle { return Revert(Unauthorized); }
      if gateState != Open || sourceSequence < lastSafeSequence { return Revert(InvalidState); }
      gateState := Suspended;
      SuspendKeeps(before, msg, sourceSequence);
      return Ok(());
    }

    method ReopenGate(msg: Msg, sourceSequence: nat) returns (r: Result<()>)
      requires Valid(msg.now)
      modifies this`gateState, this`lastSafeSequence
      ensures Does(S.ReopenGate(old(Snapshot()), msg, sourceSequence), old(Snapshot()), Snapshot(), r)
      ensures Valid(msg.now)
    {
      hide Inv, QueueView, RulingView, BondsView, Accounts;
      ghost var before := Snapshot();
      if msg.sender != config.gateOracle { return Revert(Unauthorized); }
      if gateState != Suspended || sourceSequence <= lastSafeSequence { return Revert(InvalidState); }
      gateState := Open;
      lastSafeSequence := sourceSequence;
      ReopenKeeps(before, msg, sourceSequence);
      return Ok(());
    }

    method CloseForDecisiveEvent(msg: Msg, sourceSequence: nat) returns (r: Result<()>)
      requires Valid(msg.now)
      modifies this`gateState, this`closedAt, this`closedEpoch, this`decisiveSequence, this`resolutionDueAt
      ensures Does(S.CloseForDecisiveEvent(old(Snapshot()), msg, sourceSequence), old(Snapshot()), Snapshot(), r)
      ensures Valid(msg.now)
    {
      hide Inv, QueueView, RulingView, BondsView, Accounts, GateView, CurrentEpoch;
      ghost var before := Snapshot();
      GateFields();
      if msg.sender != config.gateOracle { return Revert(Unauthorized); }
      if gateState == Closed || sourceSequence <= lastSafeSequence { return Revert(InvalidState); }
      CloseGate(msg.now, CurrentEpoch(config, msg.now), sourceSequence);
      CloseKeeps(before, msg, sourceSequence);
      return Ok(());
    }

    method CloseGate(now: Uint64, epoch: Uint64, sourceSequence: nat)
      modifies this`gateState, this`closedAt, this`closedEpoch, this`decisiveSequence, this`resolutionDueAt
      ensures GateView() == old(GateView()).(state := Closed, closedAt := now, closedEpoch := epoch,
                                             decisiveSequence := sourceSequence,
                                             resolutionDueAt := (now + RESOLUTION_TIME) % TWO_64)
    {
      gateState := Closed;
      closedAt := now;
      closedEpoch := epoch;
      decisiveSequence := sourceSequence;
      resolutionDueAt := (now + RESOLUTION_TIME) % TWO_64;
    }

    lemma GateSequences()
      ensures GateView().epochSafeSequence == epochSafeSequence
    {
    }

    lemma GateFields()
      ensures GateView().state == gateState && GateView().lastSafeSequence == lastSafeSequence
      ensures GateView().epochSafe == epochSafe && GateView().closedEpoch == closedEpoch
      ensures GateView().decisiveSequence == decisiveSequence
    {
    }

    // ------------------------------------------------------------- resolution

    lemma RulingFields()
      ensures RulingView().provisionalOutcome == provisionalOutcome && RulingView().finalOutcome == finalOutcome
      ensures RulingView().provisionalAt == provisionalAt && RulingView().challenged == challenged
      ensures RulingView().challenger == challenger && RulingView().challengedAt == challengedAt
      ensures RulingView().challengeBond == challengeBond && RulingView().verdictCount == challengeVerdictCount
    {
    }

    function AttestersOf(key: Verdict): set<Address>
      reads this
      ensures AttestersOf(key) == AttestedBy(RulingView(), key)
    {
      Voters(resultAttestedBy, key)
    }

    function VotersFor(accept: bool): set<Address>
      reads this
      ensures VotersFor(accept) == VerdictBy(RulingView(), accept)
    {
      Voters(challengeVerdictBy, accept)
    }

    method AttestResult(msg: Msg, outcome: Outcome, evidenceHash: nat) returns (r: Result<()>)
      requires Valid(msg.now)
      modifies this`resultAttestedBy, this`resultAttestationCount, this`provisionalOutcome, this`provisionalEvidenceHash
      modifies this`provisionalAt
      ensures Does(S.AttestResult(old(Snapshot()), msg, outcome, evidenceHash), old(Snapshot()), Snapshot(), r)
      ensures Valid(msg.now)
    {
      hide Inv, QueueView, BondsView, Accounts, RulingView, Attested, AttestedBy;
      ghost var before := Snapshot();
      RulingFields();
      if msg.sender !in config.resolvers { return Revert(Unauthorized); }
      if gateState != Closed || provisionalOutcome != Unset || finalOutcome != Unset || msg.now > resolutionDueAt {
        return Revert(InvalidState);
      }
      if outcome == Unset || evidenceHash == 0 { return Revert(InvalidState); }
      if msg.sender in AttestersOf((outcome, evidenceHash)) { return Revert(DuplicateAttestation); }
      CountAttestation(msg.sender, outcome, evidenceHash, msg.now);
      AttestKeeps(before, msg, outcome, evidenceHash);
      return Ok(());
    }

    method CountAttestation(sender: Address, outcome: Outcome, evidenceHash: nat, now: Uint64)
      modifies this`resultAttestedBy, this`resultAttestationCount, this`provisionalOutcome, this`provisionalEvidenceHash
      modifies this`provisionalAt
      ensures RulingView() == Attested(old(RulingView()), sender, outcome, evidenceHash, now)
    {
      hide Get, Voters;
      var key := (outcome, evidenceHash);
      resultAttestedBy := resultAttestedBy[key := AttestersOf(key) + {sender}];
      var count := Get(resultAttestationCount, key) + 1;
      resultAttestationCount := resultAttestationCount[key := count];
      if count == 2 {
        provisionalOutcome := outcome;
        provisionalEvidenceHash := evidenceHash;
        provisionalAt := now;
      }
    }

    method ChallengeResult(msg: Msg, evidenceHash: nat, bond: nat) returns (r: Result<()>)
      requires Valid(msg.now)
      modifies this`challenged, this`challenger, this`challengeEvidenceHash, this`challengeBond, this`challengedAt
      modifies this`balance
      ensures Does(S.ChallengeResult(old(Snapshot()), msg, evidenceHash, bond), old(Snapshot()), Snapshot(), r)
      ensures Valid(msg.now)
    {
      hide Inv, QueueView, BondsView, GateView, Accounts, RulingView, Challenged;
      ghost var before := Snapshot();
      RulingFields();
      if provisionalOutcome == Unset || finalOutcome != Unset || challenged { return Revert(InvalidState); }
      if provisionalAt + config.challengeWindow >= TWO_64 { return Revert(Panic); }
      if msg.now >= provisionalAt + config.challengeWindow || evidenceHash == 0 || bond != CHALLENGE_BOND {
        return Revert(InvalidState);
      }
      OpenChallenge(msg.sender, evidenceHash, bond, msg.now);
      ReceiveTokens(bond);
      ChallengeKeeps(before, msg, evidenceHash, bond);
      return Ok(());
    }

    method OpenChallenge(sender: Address, evidenceHash: nat, bond: nat, now: Uint64)
      modifies this`challenged, this`challenger, this`challengeEvidenceHash, this`challengeBond, this`challengedAt
      ensures RulingView() == Challenged(old(RulingView()), sender, evidenceHash, bond, now)
    {
      challenged := true;
      challenger := sender;
      challengeEvidenceHash := evidenceHash;
      challengeBond := bond;
      challengedAt := now;
    }

    /** Pays the challenge bond out and writes the final outcome. */
    method Decide(to: Address, outcome: Outcome)
      requires challengeBond <= balance
      modifies this`challengeBond, this`finalOutcome, this`balance, this`sent
      ensures S.Decide(old(Snapshot()), to, outcome) == Ok(Snapshot())
    {
      hide QueueView, BondsView, GateView, Accounts, RulingView, Pay;
      RulingFields();
      var bond := challengeBond;
      ClearBond(outcome);
      SendTokens(to, bond);
    }

    method ClearBond(outcome: Outcome)
      modifies this`challengeBond, this`finalOutcome
      ensures RulingView() == old(RulingView()).(challengeBond := 0, finalOutcome := outcome)
    {
      challengeBond := 0;
      finalOutcome := outcome;
    }

    method AttestChallengeVerdict(msg: Msg, acceptChallenge: bool) returns (r: Result<()>)
      requires Valid(msg.now)
      modifies this`challengeVerdictBy, this`challengeVerdictCount, this`challengeBond, this`finalOutcome, this`balance
      modifies this`sent
      ensures Does(S.AttestChallengeVerdict(old(Snapshot()), msg, acceptChallenge), old(Snapshot()), Snapshot(), r)
      ensures Valid(msg.now)
    {
      hide Inv, QueueView, BondsView, GateView, Accounts, RulingView, S.Decide, Voted, VerdictBy;
      ghost var before := Snapshot();
      RulingFields();
      if msg.sender !in config.resolvers { return Revert(Unauthorized); }
      if !challenged || finalOutcome != Unset { return Revert(InvalidState); }
      if msg.sender in VotersFor(acceptChallenge) { return Revert(DuplicateAttestation); }
      HoldsBond(before, msg.now);
      BalanceView();
      CountVote(msg.sender, acceptChallenge);
      RulingFields();
      if Get(challengeVerdictCount, acceptChallenge) == 2 {
        if acceptChallenge {
          Decide(challenger, Invalid);
        } else {
          Decide(config.bondRecipient, provisionalOutcome);
        }
      }
      VerdictKeeps(before, msg, acceptChallenge);
      return Ok(());
    }

    method CountVote(sender: Address, accept: bool)
      modifies this`challengeVerdictBy, this`challengeVerdictCount
      ensures RulingView() == Voted(old(RulingView()), sender, accept)
    {
      challengeVerdictBy := challengeVerdictBy[accept := VotersFor(accept) + {sender}];
      challengeVerdictCount := challengeVerdictCount[accept := Get(challengeVerdictCount, accept) + 1];
    }

    lemma BalanceView()
      ensures Accounts().purse.held == balance
    {
    }

    method FinalizeUnchallenged(msg: Msg) returns (r: Result<()>)
      requires Valid(msg.now)
      modifies this`finalOutcome
      ensures Does(S.FinalizeUnchallenged(old(Snapshot()), msg), old(Snapshot()), Snapshot(), r)
      ensures Valid(msg.now)
    {
      hide Inv, QueueView, BondsView, GateView, Accounts;
      ghost var before := Snapshot();
      if provisionalOutcome == Unset || finalOutcome != Unset || challenged { return Revert(TooEarly); }
      if provisionalAt + config.challengeWindow >= TWO_64 { return Revert(Panic); }
      if msg.now < provisionalAt + config.challengeWindow { return Revert(TooEarly); }
      finalOutcome := provisionalOutcome;
      FinalizeUnchallengedKeeps(before, msg);
      return Ok(());
    }

    method ExpireChallenge(msg: Msg) returns (r: Result<()>)
      requires Valid(msg.now)
      modifies this`challengeBond, this`finalOutcome, this`balance, this`sent
      ensures Does(S.ExpireChallenge(old(Snapshot()), msg), old(Snapshot()), Snapshot(), r)
      ensures Valid(msg.now)
    {
      hide Inv, QueueView, BondsView, GateView, Accounts, RulingView, S.Decide;
      ghost var before := Snapshot();
      RulingFields();
      if !challenged || finalOutcome != Unset { return Revert(TooEarly); }
      if challengedAt + config.challengeTimeout >= TWO_64 { return Revert(Panic); }
      if msg.now < challengedAt + config.challengeTimeout { return Revert(TooEarly); }
      HoldsBond(before, msg.now);
      BalanceView();
      Decide(challenger, Invalid);
      ExpireKeeps(before, msg);
      return Ok(());
    }

    method InvalidateUnresolved(msg: Msg) returns (r: Result<()>)
      requires Valid(msg.now)
      modifies this`finalOutcome
      ensures Does(S.InvalidateUnresolved(old(Snapshot()), msg), old(Snapshot()), Snapshot(), r)
      ensures Valid(msg.now)
    {
      hide Inv, QueueView, BondsView, Accounts;
      ghost var before := Snapshot();
      if gateState != Closed || finalOutcome != Unset || provisionalOutcome != Unset || msg.now < resolutionDueAt {
        return Revert(TooEarly);
      }
      finalOutcome := Invalid;
      InvalidateKeeps(before, msg);
      return Ok(());
    }

    // ----------------------------------------------------------------- claims

    /** A movement of money took effect or reverted as the ledger says. */
    static ghost predicate Moves(spec: Result<Book>, before: Book, after: Book, r: Result<()>) {
      match spec
      case Ok(next) => r.Ok? && after == next
      case Revert(error) => r == Revert(error) && after == before
    }

    method ClaimLpFees(msg: Msg) returns (r: Result<()>)
      requires Valid(msg.now)
      modifies this`lpFeeCredit, this`lpFeeDebt, this`unclaimedLpFees, this`balance, this`sent
      ensures Does(S.ClaimFees(old(Snapshot()), msg), old(Snapshot()), Snapshot(), r)
      ensures Valid(msg.now)
    {
      hide Inv, QueueView, BondsView, GateView, RulingView, Accounts, L.ClaimLpFees;
      ghost var before := Snapshot();
      ClaimsDoNotPanic(before, msg, ClaimFeesCall);
      r := PayFees(msg.sender);
      if r.Ok? { ClaimFeesKeeps(before, msg); }
    }

    method PayFees(provider: Address) returns (r: Result<()>)
      requires L.ClaimLpFees(Accounts(), provider) != Revert(TransferFailed)
      modifies this`lpFeeCredit, this`lpFeeDebt, this`unclaimedLpFees, this`balance, this`sent
      ensures Moves(L.ClaimLpFees(old(Accounts()), provider), old(Accounts()), Accounts(), r)
    {
      hide PoolView, WalletsView, RewardsView, FeesView, TakeFees;
      var drawn := DrawFees(provider);
      if drawn.Revert? { return Revert(drawn.error); }
      SendTokens(provider, drawn.value);
      return Ok(());
    }

    /** Accrues, then takes out the whole credit of `provider`. */
    method DrawFees(provider: Address) returns (drawn: Result<nat>)
      modifies this`lpFeeCredit, this`lpFeeDebt, this`unclaimedLpFees
      ensures match TakeFees(old(FeesView()), provider)
              case Ok(taken) => drawn == Ok(taken.1) && FeesView() == taken.0
              case Revert(error) => drawn == Revert(error) && FeesView() == old(FeesView())
    {
      hide MulDiv;
      var accumulated := MulDiv(Get(lpSharesOf, provider), feePerShare, FEE_SCALE);
      var debt := Get(lpFeeDebt, provider);
      var amount := Get(lpFeeCredit, provider) + (if accumulated > debt then accumulated - debt else 0);
      if amount == 0 { return Revert(NothingToClaim); }
      if unclaimedLpFees < amount { return Revert(Panic); }
      Accrue(provider);
      lpFeeCredit := lpFeeCredit[provider := 0];
      unclaimedLpFees := unclaimedLpFees - amount;
      return Ok(amount);
    }

    method RedeemPositions(msg: Msg) returns (r: Result<()>)
      requires Valid(msg.now)
      modifies this`positionAOf, this`positionBOf, this`collateralBacking, this`balance, this`sent
      ensures Does(S.Redeem(old(Snapshot()), msg), old(Snapshot()), Snapshot(), r)
      ensures Valid(msg.now)
    {
      hide Inv, QueueView, BondsView, GateView, RulingView, Accounts, L.RedeemPositions;
      ghost var before := Snapshot();
      RulingFields();
      if finalOutcome == Unset { return Revert(InvalidState); }
      ClaimsDoNotPanic(before, msg, RedeemCall);
      r := PayPositions(msg.sender);
      if r.Ok? { RedeemCallKeeps(before, msg); }
    }

    method PayPositions(user: Address) returns (r: Result<()>)
      requires L.RedeemPositions(Accounts(), finalOutcome, user).Revert? ==>
        L.RedeemPositions(Accounts(), finalOutcome, user).error != Panic
        && L.RedeemPositions(Accounts(), finalOutcome, user).error != TransferFailed
      modifies this`positionAOf, this`positionBOf, this`collateralBacking, this`balance, this`sent
      ensures Moves(L.RedeemPositions(old(Accounts()), finalOutcome, user), old(Accounts()), Accounts(), r)
    {
      hide PoolView, FeesView, RewardsView, ResolvedValue;
      var amountA := Get(positionAOf, user);
      var amountB := Get(positionBOf, user);
      if amountA == 0 && amountB == 0 { return Revert(NothingToClaim); }
      positionAOf := positionAOf[user := 0];
      positionBOf := positionBOf[user := 0];
      var payout := ResolvedValue(finalOutcome, amountA, amountB);
      collateralBacking := collateralBacking - payout;
      SendTokens(user, payout);
      return Ok(());
    }

    method SettleLpInventory(msg: Msg) returns (r: Result<()>)
      requires Valid(msg.now)
      modifies this`lpFeeCredit, this`lpFeeDebt, this`lpSharesOf, this`totalLpShares, this`reserveA, this`reserveB
      modifies this`collateralBacking, this`balance, this`sent
      ensures Does(S.SettleLp(old(Snapshot()), msg), old(Snapshot()), Snapshot(), r)
      ensures Valid(msg.now)
    {
      hide Inv, QueueView, BondsView, GateView, RulingView, Accounts, L.SettleLpInventory;
      ghost var before := Snapshot();
      RulingFields();
      if finalOutcome == Unset { return Revert(InvalidState); }
      ClaimsDoNotPanic(before, msg, SettleLpCall);
      r := PayShares(msg.sender);
      if r.Ok? { SettleLpCallKeeps(before, msg); }
    }

    method PayShares(user: Address) returns (r: Result<()>)
      requires L.SettleLpInventory(Accounts(), finalOutcome, user).Revert? ==>
        L.SettleLpInventory(Accounts(), finalOutcome, user).error != Panic
        && L.SettleLpInventory(Accounts(), finalOutcome, user).error != TransferFailed
      modifies this`lpFeeCredit, this`lpFeeDebt, this`lpSharesOf, this`totalLpShares, this`reserveA, this`reserveB
      modifies this`collateralBacking, this`balance, this`sent
      ensures Moves(L.SettleLpInventory(old(Accounts()), finalOutcome, user), old(Accounts()), Accounts(), r)
    {
      hide WalletsView, RewardsView, ResolvedValue, BurnShares, MulDiv;
      var shares := Get(lpSharesOf, user);
      if shares == 0 { return Revert(NothingToClaim); }
      BurnFits(FeesView(), user);
      var supply := totalLpShares;
      var amountA := MulDiv(reserveA, shares, supply);
      var amountB := MulDiv(reserveB, shares, supply);
      var payout := ResolvedValue(finalOutcome, amountA, amountB);
      TakeInventory(user, amountA, amountB, payout);
      SendTokens(user, payout);
      return Ok(());
    }

    /** Burns the shares of `user` and takes their part of the reserves out. */
    method TakeInventory(user: Address, amountA: nat, amountB: nat, payout: nat)
      requires Get(lpSharesOf, user) <= totalLpShares
      requires amountA <= reserveA && amountB <= reserveB && payout <= collateralBacking
      modifies this`lpFeeCredit, this`lpFeeDebt, this`lpSharesOf, this`totalLpShares, this`reserveA, this`reserveB
      modifies this`collateralBacking
      ensures BurnShares(old(FeesView()), user).Ok?
      ensures Accounts() == old(Accounts()).(fees := BurnShares(old(FeesView()), user).value,
                                             pool := Pool(old(reserveA) - amountA, old(reserveB) - amountB),
                                             collateralBacking := old(collateralBacking) - payout)
    {
      hide FeesView, WalletsView, RewardsView, PurseView, BurnShares;
      Burn(user);
      reserveA := reserveA - amountA;
      reserveB := reserveB - amountB;
      collateralBacking := collateralBacking - payout;
    }

    method Burn(provider: Address)
      requires Get(lpSharesOf, provider) <= totalLpShares
      modifies this`lpSharesOf, this`totalLpShares, this`lpFeeDebt, this`lpFeeCredit
      ensures BurnShares(old(FeesView()), provider) == Ok(FeesView())
    {
      hide MulDiv;
      var shares := Get(lpSharesOf, provider);
      Accrue(provider);
      lpSharesOf := lpSharesOf[provider := 0];
      totalLpShares := totalLpShares - shares;
      lpFeeDebt := lpFeeDebt[provider := 0];
    }

    method ClaimWinnerReward(msg: Msg) returns (r: Result<()>)
      requires Valid(msg.now)
      modifies this`winnerRewardClaimed, this`winnerRewardPool, this`balance, this`sent
      ensures Does(S.ClaimWinnerReward(old(Snapshot()), msg), old(Snapshot()), Snapshot(), r)
      ensures Valid(msg.now)
    {
      hide Inv, QueueView, BondsView, GateView, Accounts, RulingView, PayWinnerReward, WinnerReward;
      ghost var before := Snapshot();
      RulingFields();
      if finalOutcome == Unset { return Revert(InvalidState); }
      var payout := RewardOf(msg.sender);
      if payout.Revert? { return Revert(payout.error); }
      if msg.sender in winnerRewardClaimed { return Revert(NothingToClaim); }
      ClaimsDoNotPanic(before, msg, ClaimRewardCall);
      r := PayReward(msg.sender, payout.value);
      if r.Ok? {
        winnerRewardClaimed := winnerRewardClaimed + {msg.sender};
        ClaimRewardKeeps(before, msg);
      }
    }

    /** What the winner reward is worth to `sender`, who has not claimed yet. */
    function RewardOf(sender: Address): (payout: Result<nat>)
      reads this
      ensures payout == WinnerReward(Snapshot(), sender)
    {
      if finalOutcome == ParticipantA && sender == config.rewardAddressA then Ok(winnerRewardPool)
      else if finalOutcome == ParticipantB && sender == config.rewardAddressB then Ok(winnerRewardPool)
      else if finalOutcome == Tie && (sender == config.rewardAddressA || sender == config.rewardAddressB) then
        var other := if sender == config.rewardAddressA then config.rewardAddressB else config.rewardAddressA;
        Ok(if other == sender || other in winnerRewardClaimed then winnerRewardPool else winnerRewardPool / 2)
      else Revert(NotEligible)
    }

    method PayReward(to: Address, payout: nat) returns (r: Result<()>)
      requires PayWinnerReward(Accounts(), to, payout).Revert? ==>
        PayWinnerReward(Accounts(), to, payout).error != Panic
          && PayWinnerReward(Accounts(), to, payout).error != TransferFailed
      modifies this`winnerRewardPool, this`balance, this`sent
      ensures Moves(PayWinnerReward(old(Accounts()), to, payout), old(Accounts()), Accounts(), r)
    {
      hide PoolView, FeesView, WalletsView;
      if payout == 0 { return Revert(NothingToClaim); }
      winnerRewardPool := winnerRewardPool - payout;
      SendTokens(to, payout);
      return Ok(());
    }

    method ClaimInvalidWinnerFeeRefund(msg: Msg) returns (r: Result<()>)
      requires Valid(msg.now)
      modifies this`winnerFeePaid, this`winnerRewardPool, this`balance, this`sent
      ensures Does(S.ClaimInvalidWinnerFeeRefund(old(Snapshot()), msg), old(Snapshot()), Snapshot(), r)
      ensures Valid(msg.now)
    {
      hide Inv, QueueView, BondsView, GateView, Accounts, RulingView, RefundWinnerFee;
      ghost var before := Snapshot();
      RulingFields();
      if finalOutcome == Unset { return Revert(InvalidState); }
      if finalOutcome != Invalid { return Revert(InvalidState); }
      ClaimsDoNotPanic(before, msg, RefundFeeCall);
      r := RefundFee(msg.sender);
      if r.Ok? { RefundFeeCallKeeps(before, msg); }
    }

    method RefundFee(user: Address) returns (r: Result<()>)
      requires RefundWinnerFee(Accounts(), user).Revert? ==>
        RefundWinnerFee(Accounts(), user).error != Panic && RefundWinnerFee(Accounts(), user).error != TransferFailed
      modifies this`winnerFeePaid, this`winnerRewardPool, this`balance, this`sent
      ensures Moves(RefundWinnerFee(old(Accounts()), user), old(Accounts()), Accounts(), r)
    {
      hide PoolView, FeesView, WalletsView;
      var amount := Get(winnerFeePaid, user);
      if amount == 0 { return Revert(NothingToClaim); }
      winnerFeePaid := winnerFeePaid[user := 0];
      winnerRewardPool := winnerRewardPool - amount;
      SendTokens(user, amount);
      return Ok(());
    }

    method ClaimIntegrityBond(msg: Msg) returns (r: Result<()>)
      requires Valid(msg.now)
      modifies this`integrityBondOf, this`integrityBondClaimed, this`totalIntegrityBondLiability, this`balance
      modifies this`sent
      ensures Does(S.ClaimIntegrityBond(old(Snapshot()), msg), old(Snapshot()), Snapshot(), r)
      ensures Valid(msg.now)
    {
      hide Inv, QueueView, GateView, Accounts, RulingView, Pay;
      ghost var before := Snapshot();
      RulingFields();
      if finalOutcome == Unset { return Revert(InvalidState); }
      if config.roomBound { return Revert(RoomManagesBonds); }
      if (msg.sender != config.participantA && msg.sender != config.participantB)
        || msg.sender in integrityBondClaimed {
        return Revert(NotEligible);
      }
      var amount := Get(integrityBondOf, msg.sender);
      if amount == 0 { return Revert(NothingToClaim); }
      BondCovered(before, msg);
      BalanceView();
      ReleaseBond(msg.sender);
      SendTokens(msg.sender, amount);
      ClaimBondKeeps(before, msg);
      return Ok(());
    }

    method ReleaseBond(sender: Address)
      requires Get(integrityBondOf, sender) <= totalIntegrityBondLiability
      modifies this`integrityBondOf, this`integrityBondClaimed, this`totalIntegrityBondLiability
      ensures BondsView() == Bonds(old(integrityBondOf)[sender := 0], old(integrityBondClaimed) + {sender},
                                   old(totalIntegrityBondLiability) - Get(old(integrityBondOf), sender))
    {
      var amount := Get(integrityBondOf, sender);
      integrityBondClaimed := integrityBondClaimed + {sender};
      integrityBondOf := integrityBondOf[sender := 0];
      totalIntegrityBondLiability := totalIntegrityBondLiability - amount;
    }
  }

  // ------------------------------------------------------- facts for the loop

  /** At the cursor there is a pending action. */
  lemma PendingAt(m: S.Market, now: Uint64, epoch: Uint64)
    requires Inv(m, now) && 0 < Remaining(m.queue, epoch)
    ensures
      var id := Ids(m.queue, epoch)[Get(m.queue.epochCursor, epoch)];
      id < |m.queue.actions| && m.queue.actions[id].status.Pending?
  {
    hide GateOk, RulingOk, MoneyOk, ActionOk;
    assert EpochOk(m.queue, epoch);
  }

  /** Settling an action does not look at the cursors. */
  lemma SettleIgnoresCursor(m: S.Market, n: S.Market, now: Uint64, epoch: Uint64)
    requires 0 < Remaining(m.queue, epoch) && SettleNext(m, now, epoch).Ok?
    requires m == n.(queue := n.queue.(epochCursor := m.queue.epochCursor))
    ensures
      var cursor := Get(m.queue.epochCursor, epoch);
      var id := Ids(n.queue, epoch)[cursor];
      && id < |n.queue.actions|
      && SettleAction(n, now, id, Executable(n.gate, epoch)).Ok?
      && var settled := SettleAction(n, now, id, Executable(n.gate, epoch)).value;
      SettleNext(m, now, epoch).value
      == settled.(queue := settled.queue.(epochCursor := m.queue.epochCursor[epoch := cursor + 1]))
  {
    hide TryExecute, Refund;
  }

  /** One round of the loop: in the state `at` it has reached after `count` actions
      the action at the cursor settles, and doing so is one more step of Drain. */
  lemma DrainStep(before: S.Market, at: S.Market, here: S.Market, now: Uint64, epoch: Uint64, count: nat)
    requires Inv(at, now) && 0 < Remaining(at.queue, epoch)
    requires Drain(before, now, epoch, count) == Ok(at)
    requires at == here.(queue := here.queue.(epochCursor := at.queue.epochCursor))
    ensures
      var cursor := Get(at.queue.epochCursor, epoch);
      var id := Ids(here.queue, epoch)[cursor];
      && id < |here.queue.actions|
      && here.queue.actions[id].status.Pending?
      && var settled := SettleAction(here, now, id, Executable(here.gate, epoch));
      && settled.Ok?
      && settled.value.gate == here.gate
      && settled.value.queue.epochActionIds == here.queue.epochActionIds
      && settled.value.queue.epochCursor == here.queue.epochCursor
      && var next := settled.value.(queue :=
                                    settled.value.queue.(epochCursor := at.queue.epochCursor[epoch := cursor + 1]));
      && Inv(next, now)
      && Drain(before, now, epoch, count + 1) == Ok(next)
  {
    hide Inv, SettleNext, Drain, TryExecute, Refund;
    PendingAt(at, now, epoch);
    SettleNextKeeps(at, now, epoch);
    SettleIgnoresCursor(at, here, now, epoch);
    DrainSplits(before, now, epoch, count, 1);
    DrainOne(at, now, epoch);
  }

  lemma DrainOne(m: S.Market, now: Uint64, epoch: Uint64)
    ensures Drain(m, now, epoch, 1) == SettleNext(m, now, epoch)
  {
    hide SettleNext;
    if SettleNext(m, now, epoch).Ok? {
      DrainNothing(SettleNext(m, now, epoch).value, now, epoch);
    }
  }

  /** While a challenge is open its bond is in the balance. */
  lemma HoldsBond(m: S.Market, now: Uint64)
    requires Inv(m, now) && m.ruling.challenged && m.ruling.finalOutcome.Unset?
    ensures m.ruling.challengeBond <= m.book.purse.held
  {
    hide QueueOk, GateOk, CountsOk, Backed, FeesOk, RewardsOk;
  }

  lemma BurnFits(f: FeeIndex, provider: Address)
    ensures BurnShares(f, provider).Ok? <==> Get(f.lpShares, provider) <= f.totalLpShares
    ensures BurnShares(f, provider).Revert? ==> BurnShares(f, provider) == Revert(Panic)
  {
    hide MulDiv;
  }

  /** A posted bond is in the liability and in the balance. */
  lemma BondCovered(m: S.Market, msg: Msg)
    requires Inv(m, msg.now)
    ensures
      var amount := Get(m.bonds.integrityBondOf, msg.sender);
      amount <= m.bonds.totalIntegrityBondLiability && amount <= m.book.purse.held
  {
    hide QueueOk, GateOk, RulingOk, Backed, FeesOk, RewardsOk, Sum;
    SumAtLeast(m.bonds.integrityBondOf, msg.sender);
  }
}
