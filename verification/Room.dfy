/** A room over many markets: publication, batched gating, the list of open
    slots, integrity bonds and claims. Slots are numbered in publication order
    and a slot's number stands for its address. */
module Room {
  import opened Prelude
  import opened Ledger
  import opened Market

  const MAX_BATCH: nat := 16
  const ROOM_INTEGRITY_BOND: nat := 100_000_000
  const INTEGRITY_CLAIM_BOND: nat := 10_000_000

  /** The frozen rules of a room; `self` is its own address, the gate of every
      slot. `templates` gives the winner reward of each approved template. */
  datatype RoomConfig = RoomConfig(
    self: Address,
    headlineTemplateId: nat,
    gateSigner: Address,
    publisher: Address,
    integrityAdjudicator: Address,
    participantA: Address,
    participantB: Address,
    rewardAddressA: Address,
    rewardAddressB: Address,
    bondRecipient: Address,
    liquidityRouter: Address,
    resolvers: seq<Address>,
    epochDuration: Duration,
    sourceFinalityDelay: Duration,
    maxPendingTime: Duration,
    challengeWindow: Duration,
    challengeTimeout: Duration,
    minAnnounceDelay: Uint64,
    maxPermitLifetime: Duration,
    integrityClaimWindow: Duration,
    integrityClaimTimeout: Duration,
    gateStallTimeout: Duration,
    maxOpenSlots: nat,
    templates: map<nat, nat>,
    restricted: set<Address>)

  predicate RoomConfigOk(c: RoomConfig) {
    && c.self != ZERO_ADDRESS && c.gateSigner != ZERO_ADDRESS && c.publisher != ZERO_ADDRESS
    && c.integrityAdjudicator != ZERO_ADDRESS
    && c.participantA != ZERO_ADDRESS && c.participantB != ZERO_ADDRESS && c.participantA != c.participantB
    && c.rewardAddressA != ZERO_ADDRESS && c.rewardAddressB != ZERO_ADDRESS && c.bondRecipient != ZERO_ADDRESS
    && c.gateSigner != c.publisher
    && 0 < c.maxOpenSlots
  }

  /** What the publisher asks for; `text` is the question and the two links. */
  datatype SlotRequest = SlotRequest(
    templateId: nat,
    templateParamsHash: nat,
    conditionHash: nat,
    announceDelay: Uint64,
    winnerRewardBps: nat,
    text: string)

  /** What the gate signs. A hash is the value hashed: `requestHash` is the whole
      request with its restricted wallets. */
  datatype PublicationPermit = PublicationPermit(
    slotIndex: nat,
    requestHash: (SlotRequest, seq<Address>),
    conditionHash: nat,
    undecidedThroughSequence: nat,
    announceDelay: Uint64,
    issuedAt: Uint64,
    expiresAt: Uint64,
    nonce: nat)

  /** The open slots in arbitrary order, and where in that list each one is: one
      more than its index, or zero when it is not open. */
  datatype OpenIndex = OpenIndex(openSlots: seq<nat>, indexPlusOne: map<nat, nat>)

  /** The room's watermark and how it closed. */
  datatype Watch = Watch(
    lastObservedSequence: nat,
    roomClosedSequence: nat,
    roomClosedAt: Uint64,
    lastGateActivityAt: Uint64,
    closedByStall: bool)

  datatype ClaimStatus = Outstanding | Upheld | Rejected | Expired

  datatype IntegrityClaim = IntegrityClaim(
    claimant: Address,
    participant: Address,
    violationCode: nat,
    evidenceHash: nat,
    filedAt: Uint64,
    status: ClaimStatus)

  /** Bonds, claims and the token balance that backs them. */
  datatype Deposits = Deposits(
    integrityBondOf: map<Address, nat>,
    integrityBondClaimed: set<Address>,
    claims: seq<IntegrityClaim>,
    openClaimsAgainst: map<Address, nat>,
    purse: Purse)

  /** `templateOf` is the template each slot was published under. */
  datatype Room = Room(
    config: RoomConfig,
    slots: seq<Market>,
    templateOf: seq<nat>,
    open: OpenIndex,
    watch: Watch,
    usedNonces: set<nat>,
    deposits: Deposits)

  function NewRoom(c: RoomConfig, now: Uint64): Room {
    Room(c, [], [], OpenIndex([], map[]), Watch(0, 0, 0, now, false), {},
         Deposits(map[], {}, [], map[], Purse(0, map[])))
  }

  // ------------------------------------------------------------------ views

  function ParticipantsReady(c: RoomConfig, d: Deposits): bool {
    && Get(d.integrityBondOf, c.participantA) == ROOM_INTEGRITY_BOND
    && Get(d.integrityBondOf, c.participantB) == ROOM_INTEGRITY_BOND
  }

  /** The message of a call the room makes on a slot. */
  function FromRoom(r: Room, now: Uint64): Msg {
    Msg(r.config.self, now, ParticipantsReady(r.config, r.deposits))
  }

  /** The rules of a slot. */
  function SlotConfig(c: RoomConfig, winnerRewardBps: nat, opensAt: Uint64): Config {
    Config(c.self, c.participantA, c.participantB, c.rewardAddressA, c.rewardAddressB, c.bondRecipient, c.resolvers,
           c.epochDuration, c.sourceFinalityDelay, c.maxPendingTime, c.challengeWindow, c.challengeTimeout,
           winnerRewardBps, opensAt, true, c.liquidityRouter)
  }

  /** Wallets barred from every slot of the room. */
  function RoomRestricted(c: RoomConfig): set<Address> {
    c.restricted + {c.publisher, c.gateSigner, c.integrityAdjudicator}
  }

  // ------------------------------------------------------------ publication

  function ValidatePermit(r: Room, now: Uint64, request: SlotRequest, permit: PublicationPermit, signer: Address,
                          restricted: seq<Address>): Result<()> {
    var _ :- Require(permit.slotIndex == |r.slots|, SlotIndexMismatch);
    var _ :- Require(permit.requestHash == (request, restricted) && permit.conditionHash == request.conditionHash
                     && permit.announceDelay == request.announceDelay, PermitMismatch);
    var _ :- Require(permit.issuedAt <= now, PermitNotYetIssued);
    var _ :- Require(permit.expiresAt > now, PermitExpired);
    var _ :- Require(permit.expiresAt > permit.issuedAt
                     && permit.expiresAt - permit.issuedAt <= r.config.maxPermitLifetime, PermitTooLongLived);
    var _ :- Require(now - permit.issuedAt <= r.config.maxPermitLifetime, PermitTooOld);
    var _ :- Require(permit.nonce !in r.usedNonces, PermitReplayed);
    var _ :- Require(permit.undecidedThroughSequence >= r.watch.lastObservedSequence, StaleAttestation);
    Require(signer == r.config.gateSigner, PermitInvalidSigner)
  }

  function ValidateRequest(r: Room, request: SlotRequest): Result<()> {
    var _ :- Require(request.templateId in r.config.templates
                     && r.config.templates[request.templateId] == request.winnerRewardBps, TemplateNotApproved);
    var _ :- Require(request.announceDelay >= r.config.minAnnounceDelay, AnnounceDelayTooShort);
    var _ :- Require(|r.open.openSlots| < r.config.maxOpenSlots, TooManyOpenSlots);
    if |r.slots| == 0 then Require(request.templateId == r.config.headlineTemplateId, NotHeadlineTemplate)
    else Require(HasLiquidity(r.slots[0]), HeadlineUnbacked)
  }

  /** Publishes one slot: the publisher calls, the gate has signed. */
  function PublishSlot(r: Room, sender: Address, now: Uint64, request: SlotRequest, permit: PublicationPermit,
                       signer: Address, restricted: seq<Address>): Result<Room> {
    var _ :- Require(sender == r.config.publisher, NotAuthorized);
    var _ :- Require(r.watch.roomClosedSequence == 0, RoomIsClosed);
    var _ :- Require(ParticipantsReady(r.config, r.deposits), NotReady);
    var _ :- ValidatePermit(r, now, request, permit, signer, restricted);
    var _ :- ValidateRequest(r, request);
    var opensAt :- Add64(now, request.announceDelay);
    var config := SlotConfig(r.config, request.winnerRewardBps, opensAt);
    var _ :- Require(ConfigOk(config), InvalidState);
    var index := |r.slots|;
    Ok(r.(usedNonces := r.usedNonces + {permit.nonce},
          watch := r.watch.(lastObservedSequence := permit.undecidedThroughSequence),
          slots := r.slots + [NewMarket(config, RoomRestricted(r.config) + (set a | a in restricted))],
          templateOf := r.templateOf + [request.templateId],
          open := AddOpen(r.open, index)))
  }

  // ----------------------------------------------------------- list of slots

  function AddOpen(o: OpenIndex, slot: nat): OpenIndex {
    OpenIndex(o.openSlots + [slot], o.indexPlusOne[slot := |o.openSlots| + 1])
  }

  /** Moves the last open slot into the place of the one removed. */
  function RemoveOpen(o: OpenIndex, slot: nat): Result<OpenIndex> {
    var plusOne := Get(o.indexPlusOne, slot);
    if plusOne == 0 then Ok(o)
    else
      var _ :- Require(plusOne <= |o.openSlots|, Panic);
      var last := |o.openSlots| - 1;
      if plusOne - 1 == last then Ok(OpenIndex(o.openSlots[..last], o.indexPlusOne[slot := 0]))
      else
        var moved := o.openSlots[last];
        Ok(OpenIndex(o.openSlots[plusOne - 1 := moved][..last], o.indexPlusOne[moved := plusOne][slot := 0]))
  }

  // ---------------------------------------------------------------- gating

  function AdvanceSequence(w: Watch, now: Uint64, sequence: nat): Result<Watch> {
    var _ :- Require(w.roomClosedSequence == 0, RoomIsClosed);
    var _ :- Require(sequence >= w.lastObservedSequence, SequenceRegression);
    Ok(w.(lastObservedSequence := sequence, lastGateActivityAt := now))
  }

  /** Calls made on slots one after the other; one that fails is skipped, but an
      unknown slot undoes the whole batch. */
  function CallEach(slots: seq<Market>, msg: Msg, calls: seq<(nat, Call)>): Result<seq<Market>>
    decreases |calls|
  {
    if calls == [] then Ok(slots)
    else
      var (slot, call) := calls[0];
      var _ :- Require(slot < |slots|, UnknownMarket);
      CallEach(slots[slot := Step(slots[slot], msg, call)], msg, calls[1..])
  }

  function MarkSafeCalls(sequence: nat, markets: seq<nat>, epochs: seq<Uint64>): (calls: seq<(nat, Call)>)
    requires |markets| == |epochs|
    ensures |calls| == |markets|
    ensures forall i :: 0 <= i < |markets| ==> calls[i] == (markets[i], MarkSafeCall(epochs[i], sequence))
  {
    seq(|markets|, i requires 0 <= i < |markets| => (markets[i], MarkSafeCall(epochs[i], sequence)))
  }

  function ProcessCalls(markets: seq<nat>, epochs: seq<Uint64>, maxActions: nat): (calls: seq<(nat, Call)>)
    requires |markets| == |epochs|
    ensures |calls| == |markets|
    ensures forall i :: 0 <= i < |markets| ==> calls[i] == (markets[i], ProcessCall(epochs[i], maxActions))
  {
    seq(|markets|, i requires 0 <= i < |markets| => (markets[i], ProcessCall(epochs[i], maxActions)))
  }

  /** The same call on each of a list of slots. */
  function SameCalls(markets: seq<nat>, call: Call): (calls: seq<(nat, Call)>)
    ensures |calls| == |markets|
    ensures forall i :: 0 <= i < |markets| ==> calls[i] == (markets[i], call)
  {
    seq(|markets|, i requires 0 <= i < |markets| => (markets[i], call))
  }

  function MarkRoomEpochsSafe(r: Room, sender: Address, now: Uint64, sequence: nat, markets: seq<nat>,
                              epochs: seq<Uint64>)
    : Result<Room>
  {
    var _ :- Require(sender == r.config.gateSigner, NotAuthorized);
    var _ :- Require(|markets| == |epochs|, LengthMismatch);
    var _ :- Require(|markets| <= MAX_BATCH, BatchTooLarge);
    var watch :- AdvanceSequence(r.watch, now, sequence);
    var slots :- CallEach(r.slots, FromRoom(r, now), MarkSafeCalls(sequence, markets, epochs));
    Ok(r.(watch := watch, slots := slots))
  }

  function SuspendRoom(r: Room, sender: Address, now: Uint64, sequence: nat): Result<Room> {
    var _ :- Require(sender == r.config.gateSigner, NotAuthorized);
    var watch :- AdvanceSequence(r.watch, now, sequence);
    var slots :- CallEach(r.slots, FromRoom(r, now), SameCalls(r.open.openSlots, SuspendCall(sequence)));
    Ok(r.(watch := watch, slots := slots))
  }

  function ReopenRoom(r: Room, sender: Address, now: Uint64, sequence: nat): Result<Room> {
    var _ :- Require(sender == r.config.gateSigner, NotAuthorized);
    var watch :- AdvanceSequence(r.watch, now, sequence);
    var slots :- CallEach(r.slots, FromRoom(r, now), SameCalls(r.open.openSlots, ReopenCall(sequence)));
    Ok(r.(watch := watch, slots := slots))
  }

  /** Closes one slot and takes it off the list; a slot that refuses is skipped. */
  function CloseOne(slots: seq<Market>, open: OpenIndex, msg: Msg, sequence: nat,
                    slot: nat): Result<(seq<Market>, OpenIndex)>
    requires slot < |slots|
  {
    match CloseForDecisiveEvent(slots[slot], msg, sequence)
    case Ok(closed) =>
      var rest :- RemoveOpen(open, slot);
      Ok((slots[slot := closed], rest))
    case Revert(_) => Ok((slots, open))
  }

  function CloseEach(slots: seq<Market>, open: OpenIndex, msg: Msg, sequence: nat, markets: seq<nat>)
    : Result<(seq<Market>, OpenIndex)>
    decreases |markets|
  {
    if markets == [] then Ok((slots, open))
    else
      var _ :- Require(markets[0] < |slots|, UnknownMarket);
      var (next, rest) :- CloseOne(slots, open, msg, sequence, markets[0]);
      CloseEach(next, rest, msg, sequence, markets[1..])
  }

  function CloseSlots(r: Room, sender: Address, now: Uint64, sequence: nat, markets: seq<nat>): Result<Room> {
    var _ :- Require(sender == r.config.gateSigner, NotAuthorized);
    var _ :- Require(|markets| <= MAX_BATCH, BatchTooLarge);
    var watch :- AdvanceSequence(r.watch, now, sequence);
    var (slots, open) :- CloseEach(r.slots, r.open, FromRoom(r, now), sequence, markets);
    Ok(r.(watch := watch, slots := slots, open := open))
  }

  /** Records the terminal sequence, raised past the watermark where needed. */
  function CloseRoom(r: Room, sender: Address, now: Uint64, decisiveSequence: nat): Result<Room> {
    var _ :- Require(sender == r.config.gateSigner, NotAuthorized);
    var sequence := if decisiveSequence > r.watch.lastObservedSequence then decisiveSequence
                    else r.watch.lastObservedSequence + 1;
    var watch :- AdvanceSequence(r.watch, now, sequence);
    Ok(r.(watch := watch.(roomClosedSequence := sequence, roomClosedAt := now)))
  }

  /** Anyone may close a room whose gate has been silent for too long. */
  function CloseRoomOnGateStall(r: Room, now: Uint64): Result<Room> {
    var _ :- Require(r.watch.roomClosedSequence == 0, RoomIsClosed);
    var _ :- Require(now >= r.watch.lastGateActivityAt + r.config.gateStallTimeout, TooEarly);
    Ok(r.(watch := r.watch.(roomClosedSequence := r.watch.lastObservedSequence + 1, roomClosedAt := now,
                            closedByStall := true)))
  }

  function CloseRemainingSlots(r: Room, now: Uint64, markets: seq<nat>): Result<Room> {
    var _ :- Require(r.watch.roomClosedSequence != 0, RoomNotClosed);
    var _ :- Require(|markets| <= MAX_BATCH, BatchTooLarge);
    var (slots, open) :- CloseEach(r.slots, r.open, FromRoom(r, now), r.watch.roomClosedSequence, markets);
    Ok(r.(slots := slots, open := open))
  }

  function ProcessRoom(r: Room, now: Uint64, markets: seq<nat>, epochs: seq<Uint64>, maxActions: nat): Result<Room> {
    var _ :- Require(|markets| == |epochs|, LengthMismatch);
    var _ :- Require(|markets| <= MAX_BATCH, BatchTooLarge);
    var slots :- CallEach(r.slots, FromRoom(r, now), ProcessCalls(markets, epochs, maxActions));
    Ok(r.(slots := slots))
  }

  // ------------------------------------------------------- bonds and claims

  function TakeIn(p: Purse, amount: nat): Purse {
    p.(held := p.held + amount)
  }

  function PayOut(p: Purse, to: Address, amount: nat): Result<Purse> {
    if amount <= p.held then Ok(Purse(p.held - amount, Credit(p.sent, to, amount))) else Revert(TransferFailed)
  }

  predicate IsParticipant(c: RoomConfig, a: Address) {
    a == c.participantA || a == c.participantB
  }

  function PostBond(c: RoomConfig, d: Deposits, sender: Address): Result<Deposits> {
    var _ :- Require(IsParticipant(c, sender), NotAuthorized);
    var _ :- Require(Get(d.integrityBondOf, sender) == 0, InvalidState);
    Ok(d.(integrityBondOf := d.integrityBondOf[sender := ROOM_INTEGRITY_BOND],
          purse := TakeIn(d.purse, ROOM_INTEGRITY_BOND)))
  }

  predicate AllFinal(slots: seq<Market>) {
    forall i :: 0 <= i < |slots| ==> !slots[i].ruling.finalOutcome.Unset?
  }

  /** The time from which no further claim can be filed; not a 64-bit number. */
  function ClaimWindowEnd(c: RoomConfig, w: Watch): nat {
    w.roomClosedAt + c.integrityClaimWindow
  }

  function ClaimBond(r: Room, sender: Address, now: Uint64): Result<Deposits> {
    var d := r.deposits;
    var _ :- Require(IsParticipant(r.config, sender), NotAuthorized);
    var _ :- Require(sender !in d.integrityBondClaimed, NothingToClaim);
    var _ :- Require(r.watch.roomClosedSequence != 0, RoomNotClosed);
    var _ :- Require(AllFinal(r.slots), TooEarly);
    var _ :- Require(now >= ClaimWindowEnd(r.config, r.watch), TooEarly);
    var _ :- Require(Get(d.openClaimsAgainst, sender) == 0, TooEarly);
    var amount := Get(d.integrityBondOf, sender);
    var _ :- Require(amount != 0, NothingToClaim);
    var purse :- PayOut(d.purse, sender, amount);
    Ok(d.(integrityBondClaimed := d.integrityBondClaimed + {sender},
          integrityBondOf := d.integrityBondOf[sender := 0],
          purse := purse))
  }

  function FileClaim(c: RoomConfig, w: Watch, d: Deposits, sender: Address, now: Uint64, participant: Address,
                     violationCode: nat, evidenceHash: nat): Result<Deposits>
  {
    var _ :- Require(IsParticipant(c, participant), InvalidState);
    var _ :- Require(violationCode != 0 && evidenceHash != 0, InvalidState);
    var _ :- Require(w.roomClosedSequence != 0, RoomNotClosed);
    var _ :- Require(now < ClaimWindowEnd(c, w), TooEarly);
    var _ :- Require(Get(d.integrityBondOf, participant) != 0, NothingToClaim);
    Ok(d.(claims := d.claims + [IntegrityClaim(sender, participant, violationCode, evidenceHash, now, Outstanding)],
          openClaimsAgainst := Credit(d.openClaimsAgainst, participant, 1),
          purse := TakeIn(d.purse, INTEGRITY_CLAIM_BOND)))
  }

  /** Takes a claim off the open count and gives it its final status. */
  function SettleClaim(d: Deposits, claimId: nat, status: ClaimStatus): Result<Deposits>
    requires claimId < |d.claims|
  {
    var claim := d.claims[claimId];
    var left :- Sub(Get(d.openClaimsAgainst, claim.participant), 1);
    Ok(d.(openClaimsAgainst := d.openClaimsAgainst[claim.participant := left],
          claims := d.claims[claimId := claim.(status := status)]))
  }

  function AdjudicateClaim(c: RoomConfig, d: Deposits, sender: Address, now: Uint64, claimId: nat,
                           uphold: bool): Result<Deposits>
  {
    var _ :- Require(sender == c.integrityAdjudicator, NotAuthorized);
    if claimId >= |d.claims| then Revert(Panic)
    else
      var claim := d.claims[claimId];
      var _ :- Require(claim.status.Outstanding?, InvalidState);
      var timeout :- Add64(claim.filedAt, c.integrityClaimTimeout);
      var _ :- Require(now < timeout, TooEarly);
      var settled :- SettleClaim(d, claimId, if uphold then Upheld else Rejected);
      if uphold then
        var forfeited := Get(d.integrityBondOf, claim.participant);
        var purse :- if forfeited != 0 then PayOut(d.purse, c.bondRecipient, forfeited) else Ok(d.purse);
        var paid :- PayOut(purse, claim.claimant, INTEGRITY_CLAIM_BOND);
        Ok(settled.(integrityBondOf := d.integrityBondOf[claim.participant := 0], purse := paid))
      else
        var paid :- PayOut(d.purse, c.bondRecipient, INTEGRITY_CLAIM_BOND);
        Ok(settled.(purse := paid))
  }

  function ExpireClaim(c: RoomConfig, d: Deposits, now: Uint64, claimId: nat): Result<Deposits> {
    if claimId >= |d.claims| then Revert(Panic)
    else
      var claim := d.claims[claimId];
      var _ :- Require(claim.status.Outstanding?, InvalidState);
      var timeout :- Add64(claim.filedAt, c.integrityClaimTimeout);
      var _ :- Require(now >= timeout, TooEarly);
      var settled :- SettleClaim(d, claimId, Expired);
      var paid :- PayOut(d.purse, claim.claimant, INTEGRITY_CLAIM_BOND);
      Ok(settled.(purse := paid))
  }

  // ------------------------------------------------------------- transitions

  datatype RoomCall =
    | PublishCall(request: SlotRequest, permit: PublicationPermit, signer: Address, restricted: seq<Address>)
    | MarkEpochsSafeCall(sequence: nat, markets: seq<nat>, epochs: seq<Uint64>)
    | SuspendRoomCall(sequence: nat)
    | ReopenRoomCall(sequence: nat)
    | CloseSlotsCall(sequence: nat, markets: seq<nat>)
    | CloseRoomCall(sequence: nat)
    | StallCloseCall
    | CloseRemainingCall(markets: seq<nat>)
    | ProcessRoomCall(markets: seq<nat>, epochs: seq<Uint64>, maximum: nat)
    | PostRoomBondCall
    | ClaimRoomBondCall
    | FileClaimCall(participant: Address, violationCode: nat, evidence: nat)
    | AdjudicateCall(claimId: nat, uphold: bool)
    | ExpireClaimCall(claimId: nat)
    /** A call somebody makes on a slot directly. */
    | SlotCall(slot: nat, call: Call)

  function WithDeposits(r: Room, d: Result<Deposits>): Result<Room> {
    var deposits :- d;
    Ok(r.(deposits := deposits))
  }

  /** A call on a slot that is not made through the room. */
  function CallSlot(r: Room, sender: Address, now: Uint64, slot: nat, call: Call): Result<Room> {
    var _ :- Require(slot < |r.slots|, UnknownMarket);
    var market :- Apply(r.slots[slot], Msg(sender, now, ParticipantsReady(r.config, r.deposits)), call);
    Ok(r.(slots := r.slots[slot := market]))
  }

  function ApplyRoom(r: Room, sender: Address, now: Uint64, call: RoomCall): Result<Room> {
    match call
    case PublishCall(request, permit, signer, restricted) =>
      PublishSlot(r, sender, now, request, permit, signer, restricted)
    case MarkEpochsSafeCall(sequence, markets, epochs) => MarkRoomEpochsSafe(r, sender, now, sequence, markets, epochs)
    case SuspendRoomCall(sequence) => SuspendRoom(r, sender, now, sequence)
    case ReopenRoomCall(sequence) => ReopenRoom(r, sender, now, sequence)
    case CloseSlotsCall(sequence, markets) => CloseSlots(r, sender, now, sequence, markets)
    case CloseRoomCall(sequence) => CloseRoom(r, sender, now, sequence)
    case StallCloseCall => CloseRoomOnGateStall(r, now)
    case CloseRemainingCall(markets) => CloseRemainingSlots(r, now, markets)
    case ProcessRoomCall(markets, epochs, maximum) => ProcessRoom(r, now, markets, epochs, maximum)
    case PostRoomBondCall => WithDeposits(r, PostBond(r.config, r.deposits, sender))
    case ClaimRoomBondCall => WithDeposits(r, ClaimBond(r, sender, now))
    case FileClaimCall(participant, code, evidence) =>
      WithDeposits(r, FileClaim(r.config, r.watch, r.deposits, sender, now, participant, code, evidence))
    case AdjudicateCall(claimId, uphold) =>
      WithDeposits(r, AdjudicateClaim(r.config, r.deposits, sender, now, claimId, uphold))
    case ExpireClaimCall(claimId) => WithDeposits(r, ExpireClaim(r.config, r.deposits, now, claimId))
    case SlotCall(slot, call) => CallSlot(r, sender, now, slot, call)
  }

  /** A call that reverts leaves the room and its slots as they were. */
  function StepRoom(r: Room, sender: Address, now: Uint64, call: RoomCall): Room {
    hide ApplyRoom;
    match ApplyRoom(r, sender, now, call)
    case Ok(next) => next
    case Revert(_) => r
  }
}
