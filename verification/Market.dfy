/** One market as a state machine: its storage, and what each external call does
    to it. A call yields the new state or the reason it reverted. */
module Market {
  import opened Prelude
  import opened MarketMath
  import opened Ledger

  const INTEGRITY_BOND: nat := 100_000_000
  const CHALLENGE_BOND: nat := 10_000_000
  const RESOLUTION_TIME: nat := 1800

  datatype GateState = Open | Suspended | Closed

  /** The frozen rules. `roomBound` says that a room vouches for readiness and
      holds the integrity bonds; `liquidityRouter` is zero when there is none. */
  datatype Config = Config(
    gateOracle: Address,
    participantA: Address,
    participantB: Address,
    rewardAddressA: Address,
    rewardAddressB: Address,
    bondRecipient: Address,
    resolvers: seq<Address>,
    epochDuration: Duration,
    sourceFinalityDelay: Duration,
    maxPendingTime: Duration,
    challengeWindow: Duration,
    challengeTimeout: Duration,
    winnerRewardBps: nat,
    opensAt: Uint64,
    roomBound: bool,
    liquidityRouter: Address)

  predicate ConfigOk(c: Config) {
    && c.gateOracle != ZERO_ADDRESS
    && c.participantA != ZERO_ADDRESS && c.participantB != ZERO_ADDRESS && c.participantA != c.participantB
    && c.rewardAddressA != ZERO_ADDRESS && c.rewardAddressB != ZERO_ADDRESS && c.bondRecipient != ZERO_ADDRESS
    && c.winnerRewardBps <= MAX_WINNER_REWARD_BPS
    && |c.resolvers| == 3
    && c.resolvers[0] != c.resolvers[1] && c.resolvers[0] != c.resolvers[2] && c.resolvers[1] != c.resolvers[2]
    && ZERO_ADDRESS !in c.resolvers
  }

  /** Wallets that may not trade: everyone with a part in deciding the outcome. */
  function RestrictedBy(c: Config, additional: set<Address>): set<Address> {
    (set r | r in c.resolvers)
    + {c.participantA, c.participantB, c.rewardAddressA, c.rewardAddressB, c.gateOracle}
    + (if c.liquidityRouter != ZERO_ADDRESS then {c.liquidityRouter} else {})
    + additional
  }

  /** The source gate and the epochs it has cleared. */
  datatype Gate = Gate(
    state: GateState,
    closedAt: Uint64,
    closedEpoch: Uint64,
    resolutionDueAt: Uint64,
    decisiveSequence: nat,
    lastSafeSequence: nat,
    epochSafe: set<Uint64>,
    epochSafeSequence: map<Uint64, nat>)

  /** All actions ever submitted, and per epoch their ids and how many of them
      have been processed. */
  datatype Queue = Queue(
    actions: seq<Action>,
    epochActionIds: map<Uint64, seq<nat>>,
    epochCursor: map<Uint64, nat>)

  /** Attestations are counted per outcome and evidence hash; the zero hash is
      no evidence. */
  type Verdict = (Outcome, nat)

  datatype Ruling = Ruling(
    provisionalOutcome: Outcome,
    finalOutcome: Outcome,
    provisionalEvidence: nat,
    provisionalAt: Uint64,
    attestationCount: map<Verdict, nat>,
    attestedBy: map<Verdict, set<Address>>,
    challenged: bool,
    challenger: Address,
    challengeEvidence: nat,
    challengeBond: nat,
    challengedAt: Uint64,
    verdictCount: map<bool, nat>,
    verdictBy: map<bool, set<Address>>)

  datatype Bonds = Bonds(
    integrityBondOf: map<Address, nat>,
    integrityBondClaimed: set<Address>,
    totalIntegrityBondLiability: nat)

  datatype Market = Market(
    config: Config,
    restricted: set<Address>,
    gate: Gate,
    queue: Queue,
    book: Book,
    ruling: Ruling,
    bonds: Bonds,
    winnerRewardClaimed: set<Address>)

  function NewMarket(c: Config, additional: set<Address>): Market {
    Market(c, RestrictedBy(c, additional),
           Gate(Open, 0, 0, 0, 0, 0, {}, map[]),
           Queue([], map[], map[]),
           EMPTY_BOOK,
           Ruling(Unset, Unset, 0, 0, map[], map[], false, ZERO_ADDRESS, 0, 0, 0, map[], map[]),
           Bonds(map[], {}, 0),
           {})
  }

  /** Who calls, when, and whether the room reports its participants ready. */
  datatype Msg = Msg(sender: Address, now: Uint64, roomReady: bool)

  // ------------------------------------------------------------------ views

  function CurrentEpoch(c: Config, now: Uint64): Uint64
  {
    EpochWithin(now, c.epochDuration);
    now / c.epochDuration
  }

  lemma EpochWithin(now: nat, d: nat)
    requires 0 < d
    ensures 0 <= now / d <= now
  {
    DivisionBounds(now, d);
    MulMono(1, d, now / d);
  }

  function EpochEndsAt(c: Config, epoch: Uint64): nat {
    (epoch + 1) * c.epochDuration
  }

  function IsReady(m: Market, roomReady: bool): bool {
    if m.config.roomBound then roomReady
    else
      && Get(m.bonds.integrityBondOf, m.config.participantA) == INTEGRITY_BOND
      && Get(m.bonds.integrityBondOf, m.config.participantB) == INTEGRITY_BOND
  }

  function HasLiquidity(m: Market): bool {
    m.book.fees.totalLpShares != 0
  }

  function Ids(q: Queue, epoch: Uint64): seq<nat> {
    if epoch in q.epochActionIds then q.epochActionIds[epoch] else []
  }

  /** The challenge bond still held. */
  function HeldChallengeBond(r: Ruling): nat {
    if r.challenged && r.finalOutcome.Unset? then r.challengeBond else 0
  }

  function AccountedLiabilities(m: Market): nat {
    m.book.collateralBacking + m.book.rewards.winnerRewardPool + m.book.fees.unclaimedLpFees
    + m.book.pendingCollateral + m.bonds.totalIntegrityBondLiability + HeldChallengeBond(m.ruling)
  }

  // ---------------------------------------------------------------- bonds

  function PostIntegrityBond(m: Market, msg: Msg): Result<Market> {
    var _ :- Require(!m.config.roomBound, RoomManagesBonds);
    var _ :- Require(msg.sender == m.config.participantA || msg.sender == m.config.participantB, NotEligible);
    var _ :- Require(Get(m.bonds.integrityBondOf, msg.sender) == 0, InvalidState);
    Ok(m.(bonds := m.bonds.(integrityBondOf := m.bonds.integrityBondOf[msg.sender := INTEGRITY_BOND],
                            totalIntegrityBondLiability := m.bonds.totalIntegrityBondLiability + INTEGRITY_BOND),
          book := Receive(m.book, INTEGRITY_BOND)))
  }

  function ClaimIntegrityBond(m: Market, msg: Msg): Result<Market> {
    var _ :- Require(!m.ruling.finalOutcome.Unset?, InvalidState);
    var _ :- Require(!m.config.roomBound, RoomManagesBonds);
    var _ :- Require((msg.sender == m.config.participantA || msg.sender == m.config.participantB)
                     && msg.sender !in m.bonds.integrityBondClaimed, NotEligible);
    var amount := Get(m.bonds.integrityBondOf, msg.sender);
    var _ :- Require(amount != 0, NothingToClaim);
    var liability :- Sub(m.bonds.totalIntegrityBondLiability, amount);
    var book :- Pay(m.book, msg.sender, amount);
    Ok(m.(bonds := Bonds(m.bonds.integrityBondOf[msg.sender := 0], m.bonds.integrityBondClaimed + {msg.sender},
                         liability), book := book))
  }

  // ----------------------------------------------------------- submissions

  function RequireActionWindow(m: Market, now: Uint64, deadline: Uint64): Result<()> {
    var _ :- Require(m.gate.state == Open, InvalidState);
    var _ :- Require(now >= m.config.opensAt, TooEarly);
    Require(deadline > now, InvalidDeadline)
  }

  function RequireTrader(m: Market, msg: Msg): Result<()> {
    var _ :- Require(IsReady(m, msg.roomReady), NotReady);
    Require(msg.sender !in m.restricted, NotEligible)
  }

  function RecordAction(m: Market, a: Action): Market {
    var id := |m.queue.actions|;
    m.(queue := m.queue.(actions := m.queue.actions + [a],
                         epochActionIds := m.queue.epochActionIds[a.epoch := Ids(m.queue, a.epoch) + [id]]))
  }

  /** Takes the collateral of a purchase or an addition into escrow. */
  function Escrow(m: Market, amount: nat): Market {
    m.(book := Receive(m.book, amount).(pendingCollateral := m.book.pendingCollateral + amount))
  }

  function SubmitBuy(m: Market, msg: Msg, outcomeA: bool, budget: nat, minimumPositions: nat,
                     deadline: Uint64): Result<Market>
  {
    var _ :- RequireTrader(m, msg);
    var _ :- Require(HasLiquidity(m), NoLiquidity);
    var _ :- Require(MIN_PURCHASE <= budget <= MAX_ACTION_AMOUNT, InvalidAmount);
    var _ :- RequireActionWindow(m, msg.now, deadline);
    Ok(RecordAction(Escrow(m, budget),
                    Action(Buy, Pending, msg.sender, ZERO_ADDRESS, outcomeA, CurrentEpoch(m.config, msg.now), deadline,
                           budget, minimumPositions)))
  }

  /** The shared tail of the two additions: the collateral comes from the caller,
      the action belongs to `provider`. */
  function SubmitLiquidityAction(m: Market, now: Uint64, provider: Address, amount: nat, minimumShares: nat,
                                 deadline: Uint64)
    : Result<Market>
  {
    var _ :- Require(MIN_LIQUIDITY <= amount <= MAX_ACTION_AMOUNT, InvalidAmount);
    var _ :- RequireActionWindow(m, now, deadline);
    Ok(RecordAction(Escrow(m, amount),
                    Action(AddLiquidity, Pending, provider, ZERO_ADDRESS, false, CurrentEpoch(m.config, now), deadline,
                           amount, minimumShares)))
  }

  function SubmitAddLiquidity(m: Market, msg: Msg, amount: nat, minimumShares: nat, deadline: Uint64): Result<Market>
  {
    var _ :- RequireTrader(m, msg);
    SubmitLiquidityAction(m, msg.now, msg.sender, amount, minimumShares, deadline)
  }

  function SubmitAddLiquidityFor(m: Market, msg: Msg, provider: Address, amount: nat, minimumShares: nat,
                                 deadline: Uint64)
    : Result<Market>
  {
    var _ :- Require(msg.sender == m.config.liquidityRouter && msg.sender != ZERO_ADDRESS, Unauthorized);
    var _ :- Require(IsReady(m, msg.roomReady), NotReady);
    var _ :- Require(provider != ZERO_ADDRESS && provider !in m.restricted, NotEligible);
    SubmitLiquidityAction(m, msg.now, provider, amount, minimumShares, deadline)
  }

  /** The shared tail of the two position actions. */
  function SubmitPositionAction(m: Market, msg: Msg, kind: ActionKind, recipient: Address, outcomeA: bool, amount: nat,
                                minimumReturn: nat, deadline: Uint64): Result<Market>
  {
    var _ :- Require(amount != 0 && amount <= MAX_ACTION_AMOUNT, InvalidAmount);
    var _ :- RequireActionWindow(m, msg.now, deadline);
    var wallets :- DebitPosition(m.book.wallets, msg.sender, outcomeA, amount);
    Ok(RecordAction(m.(book := m.book.(wallets := wallets)),
                    Action(kind, Pending, msg.sender, recipient, outcomeA, CurrentEpoch(m.config, msg.now), deadline,
                           amount, minimumReturn)))
  }

  function SubmitSell(m: Market, msg: Msg, outcomeA: bool, positionsIn: nat, minimumCollateral: nat,
                      deadline: Uint64): Result<Market>
  {
    var _ :- RequireTrader(m, msg);
    SubmitPositionAction(m, msg, Sell, ZERO_ADDRESS, outcomeA, positionsIn, minimumCollateral, deadline)
  }

  function SubmitPositionTransfer(m: Market, msg: Msg, outcomeA: bool, recipient: Address, amount: nat,
                                  deadline: Uint64): Result<Market>
  {
    var _ :- RequireTrader(m, msg);
    var _ :- Require(recipient != ZERO_ADDRESS && recipient !in m.restricted, NotEligible);
    SubmitPositionAction(m, msg, TransferPosition, recipient, outcomeA, amount, 0, deadline)
  }

  // ------------------------------------------------------------------ queue

  function MarkEpochSafe(m: Market, msg: Msg, epoch: Uint64, sourceSequence: nat): Result<Market>
  {
    var _ :- Require(msg.sender == m.config.gateOracle, Unauthorized);
    var _ :- Require(epoch < CurrentEpoch(m.config, msg.now), TooEarly);
    var _ :- Require(msg.now >= EpochEndsAt(m.config, epoch) + m.config.sourceFinalityDelay, TooEarly);
    var _ :- Require(epoch !in m.gate.epochSafe && sourceSequence > m.gate.lastSafeSequence, InvalidState);
    var _ :- Require(m.gate.state != Closed
                     || (epoch < m.gate.closedEpoch && sourceSequence < m.gate.decisiveSequence), WrongEpoch);
    Ok(m.(gate := m.gate.(epochSafe := m.gate.epochSafe + {epoch},
                          epochSafeSequence := m.gate.epochSafeSequence[epoch := sourceSequence],
                          lastSafeSequence := sourceSequence)))
  }

  function Executable(g: Gate, epoch: Uint64): bool {
    epoch in g.epochSafe && (g.state != Closed || epoch < g.closedEpoch)
  }

  function Refundable(m: Market, now: Uint64, epoch: Uint64): bool {
    || (m.gate.state == Closed && epoch >= m.gate.closedEpoch)
    || now > EpochEndsAt(m.config, epoch) + m.config.maxPendingTime
  }

  function WithStatus(q: Queue, id: nat, status: ActionStatus): Queue
    requires id < |q.actions|
  {
    q.(actions := q.actions[id := q.actions[id].(status := status)])
  }

  /** Settles one pending action: executes it if the epoch is executable, the
      deadline has not passed and the pool accepts it, and refunds it otherwise. */
  function SettleAction(m: Market, now: Uint64, id: nat, canExecute: bool): Result<Market>
    requires id < |m.queue.actions|
  {
    var a := m.queue.actions[id];
    if a.status != Pending then Ok(m)
    else
      var fill :- if canExecute && now <= a.deadline then TryExecute(m.book, a, m.config.winnerRewardBps)
        else Ok(Unfilled);
      match fill
      case Filled(book, _) => Ok(m.(book := book, queue := WithStatus(m.queue, id, Executed)))
      case Unfilled =>
        var book :- Refund(m.book, a);
        Ok(m.(book := book, queue := WithStatus(m.queue, id, Refunded)))
  }

  /** Settles the action at the cursor of an epoch and moves the cursor on. */
  function SettleNext(m: Market, now: Uint64, epoch: Uint64): Result<Market> {
    var ids, cursor := Ids(m.queue, epoch), Get(m.queue.epochCursor, epoch);
    if cursor < |ids| && ids[cursor] < |m.queue.actions| then
      var settled :- SettleAction(m, now, ids[cursor], Executable(m.gate, epoch));
      Ok(settled.(queue := settled.queue.(epochCursor := settled.queue.epochCursor[epoch := cursor + 1])))
    else Revert(Panic)
  }

  function Drain(m: Market, now: Uint64, epoch: Uint64, count: nat): Result<Market>
    decreases count
  {
    if count == 0 then Ok(m)
    else
      var next :- SettleNext(m, now, epoch);
      Drain(next, now, epoch, count - 1)
  }

  function Remaining(q: Queue, epoch: Uint64): nat {
    var total, cursor := |Ids(q, epoch)|, Get(q.epochCursor, epoch);
    if cursor < total then total - cursor else 0
  }

  function ProcessEpoch(m: Market, now: Uint64, epoch: Uint64, maximumActions: nat): Result<Market> {
    if Remaining(m.queue, epoch) == 0 || maximumActions == 0 then Ok(m)
    else
      var _ :- Require(Executable(m.gate, epoch) || Refundable(m, now, epoch), TooEarly);
      Drain(m, now, epoch, Min(maximumActions, Remaining(m.queue, epoch)))
  }

  // ------------------------------------------------------------------- gate

  function SuspendGate(m: Market, msg: Msg, sourceSequence: nat): Result<Market> {
    var _ :- Require(msg.sender == m.config.gateOracle, Unauthorized);
    var _ :- Require(m.gate.state == Open && sourceSequence >= m.gate.lastSafeSequence, InvalidState);
    Ok(m.(gate := m.gate.(state := Suspended)))
  }

  function ReopenGate(m: Market, msg: Msg, sourceSequence: nat): Result<Market> {
    var _ :- Require(msg.sender == m.config.gateOracle, Unauthorized);
    var _ :- Require(m.gate.state == Suspended && sourceSequence > m.gate.lastSafeSequence, InvalidState);
    Ok(m.(gate := m.gate.(state := Open, lastSafeSequence := sourceSequence)))
  }

  function CloseForDecisiveEvent(m: Market, msg: Msg, sourceSequence: nat): Result<Market>
  {
    var _ :- Require(msg.sender == m.config.gateOracle, Unauthorized);
    var _ :- Require(m.gate.state != Closed && sourceSequence > m.gate.lastSafeSequence, InvalidState);
    Ok(m.(gate := m.gate.(state := Closed,
                          closedAt := msg.now,
                          closedEpoch := CurrentEpoch(m.config, msg.now),
                          decisiveSequence := sourceSequence,
                          resolutionDueAt := (msg.now + RESOLUTION_TIME) % TWO_64)))
  }

  // ------------------------------------------------------------- resolution

  /** Those who have voted for `key`. */
  function Voters<K>(votes: map<K, set<Address>>, key: K): set<Address> {
    if key in votes then votes[key] else {}
  }

  function AttestedBy(r: Ruling, key: Verdict): set<Address> {
    Voters(r.attestedBy, key)
  }

  function VerdictBy(r: Ruling, accept: bool): set<Address> {
    Voters(r.verdictBy, accept)
  }

  /** The ruling after one more attestation; the second on the same outcome and
      evidence makes it provisional. */
  function Attested(r: Ruling, sender: Address, outcome: Outcome, evidence: nat, now: Uint64): Ruling {
    var key := (outcome, evidence);
    var count := Get(r.attestationCount, key) + 1;
    var attested := r.(attestedBy := r.attestedBy[key := AttestedBy(r, key) + {sender}],
                       attestationCount := r.attestationCount[key := count]);
    if count == 2 then attested.(provisionalOutcome := outcome, provisionalEvidence := evidence, provisionalAt := now)
    else attested
  }

  function AttestResult(m: Market, msg: Msg, outcome: Outcome, evidence: nat): Result<Market> {
    var r := m.ruling;
    var _ :- Require(msg.sender in m.config.resolvers, Unauthorized);
    var _ :- Require(m.gate.state == Closed && r.provisionalOutcome.Unset? && r.finalOutcome.Unset?
                     && msg.now <= m.gate.resolutionDueAt, InvalidState);
    var _ :- Require(!outcome.Unset? && evidence != 0, InvalidState);
    var _ :- Require(msg.sender !in AttestedBy(r, (outcome, evidence)), DuplicateAttestation);
    Ok(m.(ruling := Attested(r, msg.sender, outcome, evidence, msg.now)))
  }

  function Challenged(r: Ruling, sender: Address, evidence: nat, bond: nat, now: Uint64): Ruling {
    r.(challenged := true, challenger := sender, challengeEvidence := evidence, challengeBond := bond,
       challengedAt := now)
  }

  function ChallengeResult(m: Market, msg: Msg, evidence: nat, bond: nat): Result<Market> {
    var r := m.ruling;
    var _ :- Require(!r.provisionalOutcome.Unset? && r.finalOutcome.Unset? && !r.challenged, InvalidState);
    var windowEnd :- Add64(r.provisionalAt, m.config.challengeWindow);
    var _ :- Require(msg.now < windowEnd && evidence != 0 && bond == CHALLENGE_BOND, InvalidState);
    Ok(m.(ruling := Challenged(r, msg.sender, evidence, bond, msg.now), book := Receive(m.book, bond)))
  }

  /** Pays the challenge bond out to `to` and writes the final outcome. */
  function Decide(m: Market, to: Address, outcome: Outcome): Result<Market> {
    var book :- Pay(m.book, to, m.ruling.challengeBond);
    Ok(m.(book := book, ruling := m.ruling.(challengeBond := 0, finalOutcome := outcome)))
  }

  function Voted(r: Ruling, sender: Address, accept: bool): Ruling {
    r.(verdictBy := r.verdictBy[accept := VerdictBy(r, accept) + {sender}],
       verdictCount := r.verdictCount[accept := Get(r.verdictCount, accept) + 1])
  }

  function AttestChallengeVerdict(m: Market, msg: Msg, accept: bool): Result<Market> {
    var r := m.ruling;
    var _ :- Require(msg.sender in m.config.resolvers, Unauthorized);
    var _ :- Require(r.challenged && r.finalOutcome.Unset?, InvalidState);
    var _ :- Require(msg.sender !in VerdictBy(r, accept), DuplicateAttestation);
    var voted := m.(ruling := Voted(r, msg.sender, accept));
    if Get(voted.ruling.verdictCount, accept) == 2 then
      if accept then Decide(voted, r.challenger, Invalid)
      else Decide(voted, m.config.bondRecipient, r.provisionalOutcome)
    else Ok(voted)
  }

  function FinalizeUnchallenged(m: Market, msg: Msg): Result<Market> {
    var r := m.ruling;
    var _ :- Require(!r.provisionalOutcome.Unset? && r.finalOutcome.Unset? && !r.challenged, TooEarly);
    var windowEnd :- Add64(r.provisionalAt, m.config.challengeWindow);
    var _ :- Require(msg.now >= windowEnd, TooEarly);
    Ok(m.(ruling := r.(finalOutcome := r.provisionalOutcome)))
  }

  function ExpireChallenge(m: Market, msg: Msg): Result<Market> {
    var r := m.ruling;
    var _ :- Require(r.challenged && r.finalOutcome.Unset?, TooEarly);
    var timeout :- Add64(r.challengedAt, m.config.challengeTimeout);
    var _ :- Require(msg.now >= timeout, TooEarly);
    Decide(m, r.challenger, Invalid)
  }

  function InvalidateUnresolved(m: Market, msg: Msg): Result<Market> {
    var r := m.ruling;
    var _ :- Require(m.gate.state == Closed && r.finalOutcome.Unset? && r.provisionalOutcome.Unset?
                     && msg.now >= m.gate.resolutionDueAt, TooEarly);
    Ok(m.(ruling := r.(finalOutcome := Invalid)))
  }

  // ----------------------------------------------------------------- claims

  function ClaimFees(m: Market, msg: Msg): Result<Market> {
    var book :- ClaimLpFees(m.book, msg.sender);
    Ok(m.(book := book))
  }

  function Redeem(m: Market, msg: Msg): Result<Market> {
    var _ :- Require(!m.ruling.finalOutcome.Unset?, InvalidState);
    var book :- RedeemPositions(m.book, m.ruling.finalOutcome, msg.sender);
    Ok(m.(book := book))
  }

  function SettleLp(m: Market, msg: Msg): Result<Market> {
    var _ :- Require(!m.ruling.finalOutcome.Unset?, InvalidState);
    var book :- SettleLpInventory(m.book, m.ruling.finalOutcome, msg.sender);
    Ok(m.(book := book))
  }

  /** What the winner reward is worth to `sender`, who has not claimed yet. */
  function WinnerReward(m: Market, sender: Address): Result<nat> {
    var pool := m.book.rewards.winnerRewardPool;
    var c := m.config;
    match m.ruling.finalOutcome
    case ParticipantA => if sender == c.rewardAddressA then Ok(pool) else Revert(NotEligible)
    case ParticipantB => if sender == c.rewardAddressB then Ok(pool) else Revert(NotEligible)
    case Tie =>
      if sender == c.rewardAddressA || sender == c.rewardAddressB then
        var other := if sender == c.rewardAddressA then c.rewardAddressB else c.rewardAddressA;
        Ok(if other in m.winnerRewardClaimed + {sender} then pool else pool / 2)
      else Revert(NotEligible)
    case _ => Revert(NotEligible)
  }

  function ClaimWinnerReward(m: Market, msg: Msg): Result<Market> {
    var _ :- Require(!m.ruling.finalOutcome.Unset?, InvalidState);
    var payout :- WinnerReward(m, msg.sender);
    var _ :- Require(msg.sender !in m.winnerRewardClaimed, NothingToClaim);
    var book :- PayWinnerReward(m.book, msg.sender, payout);
    Ok(m.(book := book, winnerRewardClaimed := m.winnerRewardClaimed + {msg.sender}))
  }

  function ClaimInvalidWinnerFeeRefund(m: Market, msg: Msg): Result<Market> {
    var _ :- Require(!m.ruling.finalOutcome.Unset?, InvalidState);
    var _ :- Require(m.ruling.finalOutcome.Invalid?, InvalidState);
    var book :- RefundWinnerFee(m.book, msg.sender);
    Ok(m.(book := book))
  }

  // ------------------------------------------------------------- transitions

  datatype Call =
    | PostBondCall
    | BuyCall(outcomeA: bool, amount: nat, minimum: nat, deadline: Uint64)
    | AddLiquidityCall(amount: nat, minimum: nat, deadline: Uint64)
    | AddLiquidityForCall(provider: Address, amount: nat, minimum: nat, deadline: Uint64)
    | SellCall(outcomeA: bool, amount: nat, minimum: nat, deadline: Uint64)
    | TransferCall(outcomeA: bool, recipient: Address, amount: nat, deadline: Uint64)
    | MarkSafeCall(epoch: Uint64, sequence: nat)
    | ProcessCall(epoch: Uint64, maximum: nat)
    | SuspendCall(sequence: nat)
    | ReopenCall(sequence: nat)
    | CloseCall(sequence: nat)
    | AttestCall(outcome: Outcome, evidence: nat)
    | ChallengeCall(evidence: nat, bond: nat)
    | VerdictCall(accept: bool)
    | FinalizeCall
    | ExpireCall
    | InvalidateCall
    | ClaimFeesCall
    | RedeemCall
    | SettleLpCall
    | ClaimRewardCall
    | RefundFeeCall
    | ClaimBondCall

  function Apply(m: Market, msg: Msg, call: Call): Result<Market>
  {
    match call
    case PostBondCall => PostIntegrityBond(m, msg)
    case BuyCall(outcomeA, amount, minimum, deadline) => SubmitBuy(m, msg, outcomeA, amount, minimum, deadline)
    case AddLiquidityCall(amount, minimum, deadline) => SubmitAddLiquidity(m, msg, amount, minimum, deadline)
    case AddLiquidityForCall(provider, amount, minimum, deadline) =>
      SubmitAddLiquidityFor(m, msg, provider, amount, minimum, deadline)
    case SellCall(outcomeA, amount, minimum, deadline) => SubmitSell(m, msg, outcomeA, amount, minimum, deadline)
    case TransferCall(outcomeA, recipient, amount, deadline) =>
      SubmitPositionTransfer(m, msg, outcomeA, recipient, amount, deadline)
    case MarkSafeCall(epoch, sequence) => MarkEpochSafe(m, msg, epoch, sequence)
    case ProcessCall(epoch, maximum) => ProcessEpoch(m, msg.now, epoch, maximum)
    case SuspendCall(sequence) => SuspendGate(m, msg, sequence)
    case ReopenCall(sequence) => ReopenGate(m, msg, sequence)
    case CloseCall(sequence) => CloseForDecisiveEvent(m, msg, sequence)
    case AttestCall(outcome, evidence) => AttestResult(m, msg, outcome, evidence)
    case ChallengeCall(evidence, bond) => ChallengeResult(m, msg, evidence, bond)
    case VerdictCall(accept) => AttestChallengeVerdict(m, msg, accept)
    case FinalizeCall => FinalizeUnchallenged(m, msg)
    case ExpireCall => ExpireChallenge(m, msg)
    case InvalidateCall => InvalidateUnresolved(m, msg)
    case ClaimFeesCall => ClaimFees(m, msg)
    case RedeemCall => Redeem(m, msg)
    case SettleLpCall => SettleLp(m, msg)
    case ClaimRewardCall => ClaimWinnerReward(m, msg)
    case RefundFeeCall => ClaimInvalidWinnerFeeRefund(m, msg)
    case ClaimBondCall => ClaimIntegrityBond(m, msg)
  }

  /** A call that reverts leaves the state as it was. */
  function Step(m: Market, msg: Msg, call: Call): Market
  {
    hide Apply;
    match Apply(m, msg, call)
    case Ok(next) => next
    case Revert(_) => m
  }
}
