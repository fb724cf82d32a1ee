/** The room contract itself: storage updated in place and slots that are objects
    of their own. Every method is proved to do exactly what the state machine of
    module Room does. */
module LiveRoomContract {
  import opened Prelude
  import opened Ledger
  import opened Market
  import opened Room
  import opened MarketInvariant
  import opened RoomInvariant
  import R = Room
  import opened LivePredictionMarketContract

  ghost function Views(slots: seq<LivePredictionMarket>): (views: seq<S.Market>)
    reads slots
    ensures |views| == |slots|
    ensures forall i :: 0 <= i < |slots| ==> views[i] == slots[i].Snapshot()
    decreases |slots|
  {
    if slots == [] then [] else Views(slots[..|slots| - 1]) + [slots[|slots| - 1].Snapshot()]
  }

  class LiveRoom {
    const config: RoomConfig

    var slots: seq<LivePredictionMarket>
    var templateOf: seq<nat>
    var openSlots: seq<nat>
    var openIndexPlusOne: map<nat, nat>

    var lastObservedSequence: nat
    var roomClosedSequence: nat
    var roomClosedAt: Uint64
    var lastGateActivityAt: Uint64
    var closedByStall: bool
    var usedNonce: set<nat>

    var integrityBondOf: map<Address, nat>
    var integrityBondClaimed: set<Address>
    var claims: seq<IntegrityClaim>
    var openClaimsAgainst: map<Address, nat>

    /** The token's view of this contract: its balance and what it has sent. */
    var balance: nat
    var sent: map<Address, nat>

    // ------------------------------------------------------------ abstraction

    ghost function SlotViews(): (views: seq<S.Market>)
      reads this`slots, slots
      ensures |views| == |slots|
      ensures forall i :: 0 <= i < |slots| ==> views[i] == slots[i].Snapshot()
    {
      Views(slots)
    }

    ghost function OpenView(): OpenIndex
      reads this`openSlots, this`openIndexPlusOne
    {
      OpenIndex(openSlots, openIndexPlusOne)
    }

    ghost function WatchView(): Watch
      reads this`lastObservedSequence, this`roomClosedSequence, this`roomClosedAt, this`lastGateActivityAt
      reads this`closedByStall
    {
      Watch(lastObservedSequence, roomClosedSequence, roomClosedAt, lastGateActivityAt, closedByStall)
    }

    ghost function DepositsView(): Deposits
      reads this`integrityBondOf, this`integrityBondClaimed, this`claims, this`openClaimsAgainst, this`balance
      reads this`sent
    {
      Deposits(integrityBondOf, integrityBondClaimed, claims, openClaimsAgainst, Purse(balance, sent))
    }

    /** The state of the state machine that these fields and slots represent. */
    ghost function Snapshot(): Room
      reads this, slots
    {
      Room(config, SlotViews(), templateOf, OpenView(), WatchView(), usedNonce, DepositsView())
    }

    /** No two slots are the same contract. */
    ghost predicate Distinct()
      reads this`slots
    {
      forall i, j :: 0 <= i < j < |slots| ==> slots[i] != slots[j]
    }

    ghost predicate Valid(now: Uint64)
      reads this, slots
    {
      Distinct() && RoomInv(Snapshot(), now)
    }

    /** The call behaved as the state machine says: it took effect, or reverted
        with the same error and changed nothing. */
    static ghost predicate Does(spec: Result<Room>, before: Room, after: Room, r: Result<()>) {
      match spec
      case Ok(next) => r.Ok? && after == next
      case Revert(error) => r == Revert(error) && after == before
    }

    constructor (config: RoomConfig, now: Uint64)
      requires RoomConfigOk(config)
      ensures Valid(now) && Snapshot() == NewRoom(config, now)
      ensures this.config == config && slots == []
    {
      this.config := config;
      slots, templateOf, openSlots, openIndexPlusOne := [], [], [], map[];
      lastObservedSequence, roomClosedSequence, roomClosedAt, lastGateActivityAt, closedByStall := 0, 0, 0, now, false;
      usedNonce := {};
      integrityBondOf, integrityBondClaimed, claims, openClaimsAgainst := map[], {}, [], map[];
      balance, sent := 0, map[];
      new;
      hide RoomInv, RoomConfigOk;
      NewRoomOk(config, now);
    }

    // ------------------------------------------------------------------ views

    predicate ParticipantsAreReady()
      reads this`integrityBondOf, this`integrityBondClaimed, this`claims, this`openClaimsAgainst, this`balance
      reads this`sent
      ensures ParticipantsAreReady() == ParticipantsReady(config, DepositsView())
    {
      && Get(integrityBondOf, config.participantA) == ROOM_INTEGRITY_BOND
      && Get(integrityBondOf, config.participantB) == ROOM_INTEGRITY_BOND
    }

    // ------------------------------------------------------- calls on one slot

    /** A slot is sound whenever all of them are. */
    lemma SlotValid(v: Watch, now: Uint64, slot: nat)
      requires SlotsOk(SlotViews(), config, v, now) && slot < |slots|
      ensures slots[slot].Valid(now)
    {
      hide Inv;
      assert SlotOk(SlotViews()[slot], config, v, now);
    }

    method TryMarkSafe(slot: nat, msg: Msg, epoch: Uint64, sequence: nat)
      requires slot < |slots| && Distinct() && slots[slot].Valid(msg.now)
      modifies slots[slot]
      ensures SlotViews() == old(SlotViews())[slot := Step(old(SlotViews())[slot], msg, MarkSafeCall(epoch, sequence))]
    {
      hide Inv, S.MarkEpochSafe, LivePredictionMarket.Snapshot;
      var r := slots[slot].MarkEpochSafe(msg, epoch, sequence);
    }

    method TrySuspend(slot: nat, msg: Msg, sequence: nat)
      requires slot < |slots| && Distinct() && slots[slot].Valid(msg.now)
      modifies slots[slot]
      ensures SlotViews() == old(SlotViews())[slot := Step(old(SlotViews())[slot], msg, SuspendCall(sequence))]
    {
      hide Inv, S.SuspendGate, LivePredictionMarket.Snapshot;
      var r := slots[slot].SuspendGate(msg, sequence);
    }

    method TryReopen(slot: nat, msg: Msg, sequence: nat)
      requires slot < |slots| && Distinct() && slots[slot].Valid(msg.now)
      modifies slots[slot]
      ensures SlotViews() == old(SlotViews())[slot := Step(old(SlotViews())[slot], msg, ReopenCall(sequence))]
    {
      hide Inv, S.ReopenGate, LivePredictionMarket.Snapshot;
      var r := slots[slot].ReopenGate(msg, sequence);
    }

    method TryProcess(slot: nat, msg: Msg, epoch: Uint64, maxActions: nat)
      requires slot < |slots| && Distinct() && slots[slot].Valid(msg.now)
      modifies slots[slot]
      ensures SlotViews() == old(SlotViews())[slot := Step(old(SlotViews())[slot], msg, ProcessCall(epoch, maxActions))]
    {
      hide Inv, S.ProcessEpoch, LivePredictionMarket.Snapshot;
      var r, _ := slots[slot].ProcessEpoch(msg.now, epoch, maxActions);
    }

    method TryClose(slot: nat, msg: Msg, sequence: nat) returns (r: Result<()>)
      requires slot < |slots| && Distinct() && slots[slot].Valid(msg.now)
      modifies slots[slot]
      ensures match CloseForDecisiveEvent(old(SlotViews())[slot], msg, sequence)
              case Ok(closed) => r.Ok? && SlotViews() == old(SlotViews())[slot := closed]
              case Revert(_) => r.Revert? && SlotViews() == old(SlotViews())
    {
      hide Inv, S.CloseForDecisiveEvent, LivePredictionMarket.Snapshot;
      r := slots[slot].CloseForDecisiveEvent(msg, sequence);
    }

    predicate KnowsAll(markets: seq<nat>)
      reads this`slots
    {
      forall i :: 0 <= i < |markets| ==> markets[i] < |slots|
    }

    /** The message of a call this room makes on a slot. */
    function Message(now: Uint64): (msg: Msg)
      reads this
      ensures msg == FromRoom(Snapshot(), now)
    {
      Msg(config.self, now, ParticipantsAreReady())
    }

    function CheckSequence(sequence: nat): (r: Result<()>)
      reads this`lastObservedSequence, this`roomClosedSequence, this`roomClosedAt, this`lastGateActivityAt
      reads this`closedByStall
      ensures forall now: Uint64 :: r == match AdvanceSequence(WatchView(), now, sequence)
                                         case Ok(_) => Ok(())
                                         case Revert(error) => Revert(error)
    {
      if roomClosedSequence != 0 then Revert(RoomIsClosed)
      else if sequence < lastObservedSequence then Revert(SequenceRegression)
      else Ok(())
    }

    method Advance(now: Uint64, sequence: nat)
      requires CheckSequence(sequence).Ok?
      modifies this`lastObservedSequence, this`lastGateActivityAt
      ensures AdvanceSequence(old(WatchView()), now, sequence) == Ok(WatchView())
      ensures WatchView().roomClosedSequence == 0 && WatchView().lastObservedSequence == sequence
    {
      lastObservedSequence := sequence;
      lastGateActivityAt := now;
    }

    // ------------------------------------------------------------------ gating

    method MarkEach(msg: Msg, sequence: nat, markets: seq<nat>, epochs: seq<Uint64>)
      requires |markets| == |epochs| && KnowsAll(markets) && CheckSequence(sequence).Ok? && Distinct()
        && msg.sender == config.self
      requires SlotsOk(SlotViews(), config, AdvanceSequence(WatchView(), msg.now, sequence).value, msg.now)
      modifies this`lastObservedSequence, this`lastGateActivityAt, slots
      ensures AdvanceSequence(old(WatchView()), msg.now, sequence) == Ok(WatchView())
      ensures CallEach(old(SlotViews()), msg, MarkSafeCalls(sequence, markets, epochs)) == Ok(SlotViews())
    {
      hide SlotsOk, Step, CallEach, LivePredictionMarket.Snapshot, LivePredictionMarket.Valid, SlotViews, WatchView,
        AdvanceSequence;
      Advance(msg.now, sequence);
      ghost var before, calls := SlotViews(), MarkSafeCalls(sequence, markets, epochs);
      BatchStarts(before, msg, calls);
      for i := 0 to |markets|
        invariant AdvanceSequence(old(WatchView()), msg.now, sequence) == Ok(WatchView())
        invariant WatchView().roomClosedSequence == 0 && WatchView().lastObservedSequence == sequence
        invariant SlotsOk(SlotViews(), config, WatchView(), msg.now)
        invariant CallEach(before, msg, calls[..i]) == Ok(SlotViews())
      {
        SlotValid(WatchView(), msg.now, markets[i]);
        BatchStep(before, SlotViews(), config, WatchView(), msg, calls, i);
        TryMarkSafe(markets[i], msg, epochs[i], sequence);
      }
      assert calls[..|markets|] == calls;
    }

    method MarkRoomEpochsSafe(sender: Address, now: Uint64, sequence: nat, markets: seq<nat>, epochs: seq<Uint64>)
      returns (r: Result<()>)
      requires Valid(now)
      modifies this`lastObservedSequence, this`lastGateActivityAt, slots
      ensures Does(R.MarkRoomEpochsSafe(old(Snapshot()), sender, now, sequence, markets, epochs), old(Snapshot()),
                   Snapshot(), r)
      ensures Valid(now)
    {
      hide RoomInv, LivePredictionMarket.Snapshot, Distinct, SlotViews, OpenView, DepositsView, WatchView,
        AdvanceSequence, CallEach, FromRoom, R.MarkRoomEpochsSafe;
      ghost var before := Snapshot();
      MarkRoomSpec(before, sender, now, sequence, markets, epochs);
      if sender != config.gateSigner { return Revert(NotAuthorized); }
      if |markets| != |epochs| { return Revert(LengthMismatch); }
      if |markets| > MAX_BATCH { return Revert(BatchTooLarge); }
      r := CheckSequence(sequence);
      if r.Revert? { return; }
      if !KnowsAll(markets) { return Revert(UnknownMarket); }
      var msg := Message(now);
      MarkEach(msg, sequence, markets, epochs);
    }

    method SuspendEach(msg: Msg, sequence: nat)
      requires KnowsAll(openSlots) && CheckSequence(sequence).Ok? && Distinct() && msg.sender == config.self
      requires SlotsOk(SlotViews(), config, AdvanceSequence(WatchView(), msg.now, sequence).value, msg.now)
      modifies this`lastObservedSequence, this`lastGateActivityAt, slots
      ensures AdvanceSequence(old(WatchView()), msg.now, sequence) == Ok(WatchView())
      ensures CallEach(old(SlotViews()), msg, SameCalls(openSlots, SuspendCall(sequence))) == Ok(SlotViews())
    {
      hide SlotsOk, Step, CallEach, LivePredictionMarket.Snapshot, LivePredictionMarket.Valid, SlotViews, WatchView,
        AdvanceSequence;
      Advance(msg.now, sequence);
      ghost var before, calls := SlotViews(), SameCalls(openSlots, SuspendCall(sequence));
      BatchStarts(before, msg, calls);
      for i := 0 to |openSlots|
        invariant AdvanceSequence(old(WatchView()), msg.now, sequence) == Ok(WatchView())
        invariant WatchView().roomClosedSequence == 0 && WatchView().lastObservedSequence == sequence
        invariant SlotsOk(SlotViews(), config, WatchView(), msg.now)
        invariant CallEach(before, msg, calls[..i]) == Ok(SlotViews())
      {
        SlotValid(WatchView(), msg.now, openSlots[i]);
        BatchStep(before, SlotViews(), config, WatchView(), msg, calls, i);
        TrySuspend(openSlots[i], msg, sequence);
      }
      assert calls[..|openSlots|] == calls;
    }

    method SuspendRoom(sender: Address, now: Uint64, sequence: nat) returns (r: Result<()>)
      requires Valid(now)
      modifies this`lastObservedSequence, this`lastGateActivityAt, slots
      ensures Does(R.SuspendRoom(old(Snapshot()), sender, now, sequence), old(Snapshot()), Snapshot(), r)
      ensures Valid(now)
    {
      hide RoomInv, LivePredictionMarket.Snapshot, Distinct, SlotViews, OpenView, DepositsView, WatchView,
        AdvanceSequence, CallEach, FromRoom, R.SuspendRoom;
      ghost var before := Snapshot();
      OpenFields();
      SuspendRoomSpec(before, sender, now, sequence);
      if sender != config.gateSigner { return Revert(NotAuthorized); }
      r := CheckSequence(sequence);
      if r.Revert? { return; }
      var msg := Message(now);
      SuspendEach(msg, sequence);
    }

    method ReopenEach(msg: Msg, sequence: nat)
      requires KnowsAll(openSlots) && CheckSequence(sequence).Ok? && Distinct() && msg.sender == config.self
      requires SlotsOk(SlotViews(), config, AdvanceSequence(WatchView(), msg.now, sequence).value, msg.now)
      modifies this`lastObservedSequence, this`lastGateActivityAt, slots
      ensures AdvanceSequence(old(WatchView()), msg.now, sequence) == Ok(WatchView())
      ensures CallEach(old(SlotViews()), msg, SameCalls(openSlots, ReopenCall(sequence))) == Ok(SlotViews())
    {
      hide SlotsOk, Step, CallEach, LivePredictionMarket.Snapshot, LivePredictionMarket.Valid, SlotViews, WatchView,
        AdvanceSequence;
      Advance(msg.now, sequence);
      ghost var before, calls := SlotViews(), SameCalls(openSlots, ReopenCall(sequence));
      BatchStarts(before, msg, calls);
      for i := 0 to |openSlots|
        invariant AdvanceSequence(old(WatchView()), msg.now, sequence) == Ok(WatchView())
        invariant WatchView().roomClosedSequence == 0 && WatchView().lastObservedSequence == sequence
        invariant SlotsOk(SlotViews(), config, WatchView(), msg.now)
        invariant CallEach(before, msg, calls[..i]) == Ok(SlotViews())
      {
        SlotValid(WatchView(), msg.now, openSlots[i]);
        BatchStep(before, SlotViews(), config, WatchView(), msg, calls, i);
        TryReopen(openSlots[i], msg, sequence);
      }
      assert calls[..|openSlots|] == calls;
    }

    method ReopenRoom(sender: Address, now: Uint64, sequence: nat) returns (r: Result<()>)
      requires Valid(now)
      modifies this`lastObservedSequence, this`lastGateActivityAt, slots
      ensures Does(R.ReopenRoom(old(Snapshot()), sender, now, sequence), old(Snapshot()), Snapshot(), r)
      ensures Valid(now)
    {
      hide RoomInv, LivePredictionMarket.Snapshot, Distinct, SlotViews, OpenView, DepositsView, WatchView,
        AdvanceSequence, CallEach, FromRoom, R.ReopenRoom;
      ghost var before := Snapshot();
      OpenFields();
      ReopenRoomSpec(before, sender, now, sequence);
      if sender != config.gateSigner { return Revert(NotAuthorized); }
      r := CheckSequence(sequence);
      if r.Revert? { return; }
      var msg := Message(now);
      ReopenEach(msg, sequence);
    }

    lemma OpenFields()
      ensures OpenView().openSlots == openSlots && OpenView().indexPlusOne == openIndexPlusOne
    {
    }

    method ProcessEach(msg: Msg, markets: seq<nat>, epochs: seq<Uint64>, maxActions: nat)
      requires |markets| == |epochs| && KnowsAll(markets)
      requires Distinct() && SlotsOk(SlotViews(), config, WatchView(), msg.now) && msg.sender == config.self
      modifies slots
      ensures CallEach(old(SlotViews()), msg, ProcessCalls(markets, epochs, maxActions)) == Ok(SlotViews())
    {
      hide SlotsOk, Step, CallEach, LivePredictionMarket.Snapshot, LivePredictionMarket.Valid, SlotViews, WatchView;
      ghost var before, calls := SlotViews(), ProcessCalls(markets, epochs, maxActions);
      BatchStarts(before, msg, calls);
      for i := 0 to |markets|
        invariant SlotsOk(SlotViews(), config, WatchView(), msg.now)
        invariant CallEach(before, msg, calls[..i]) == Ok(SlotViews())
      {
        SlotValid(WatchView(), msg.now, markets[i]);
        BatchStep(before, SlotViews(), config, WatchView(), msg, calls, i);
        TryProcess(markets[i], msg, epochs[i], maxActions);
      }
      assert calls[..|markets|] == calls;
    }

    method ProcessRoom(now: Uint64, markets: seq<nat>, epochs: seq<Uint64>, maxActions: nat) returns (r: Result<()>)
      requires Valid(now)
      modifies slots
      ensures Does(R.ProcessRoom(old(Snapshot()), now, markets, epochs, maxActions), old(Snapshot()), Snapshot(), r)
      ensures Valid(now)
    {
      hide RoomInv, LivePredictionMarket.Snapshot, Distinct, SlotViews, OpenView, DepositsView, WatchView, CallEach,
        FromRoom, R.ProcessRoom;
      ProcessRoomSpec(Snapshot(), now, markets, epochs, maxActions);
      if |markets| != |epochs| { return Revert(LengthMismatch); }
      if |markets| > MAX_BATCH { return Revert(BatchTooLarge); }
      if !KnowsAll(markets) { return Revert(UnknownMarket); }
      var msg := Message(now);
      ProcessEach(msg, markets, epochs, maxActions);
      return Ok(());
    }

    // ----------------------------------------------------------------- closing

    /** Takes a slot off the list of open slots: the last one moves into its place. */
    method RemoveOpenSlot(slot: nat)
      requires IndexInverse(OpenView())
      modifies this`openSlots, this`openIndexPlusOne
      ensures RemoveOpen(old(OpenView()), slot) == Ok(OpenView())
    {
      var indexPlusOne := Get(openIndexPlusOne, slot);
      if indexPlusOne == 0 { return; }
      var index := indexPlusOne - 1;
      var lastIndex := |openSlots| - 1;
      if index != lastIndex {
        var moved := openSlots[lastIndex];
        openSlots := openSlots[index := moved];
        openIndexPlusOne := openIndexPlusOne[moved := index + 1];
      }
      openSlots := openSlots[..lastIndex];
      openIndexPlusOne := openIndexPlusOne[slot := 0];
    }

    method CloseEach(msg: Msg, sequence: nat, markets: seq<nat>)
      requires KnowsAll(markets) && Distinct() && msg.sender == config.self
      requires SlotsOk(SlotViews(), config, WatchView(), msg.now) && OpenOk(OpenView(), SlotViews())
      modifies this`openSlots, this`openIndexPlusOne, slots
      ensures R.CloseEach(old(SlotViews()), old(OpenView()), msg, sequence, markets) == Ok((SlotViews(), OpenView()))
    {
      hide SlotsOk, OpenOk, R.CloseEach, LivePredictionMarket.Snapshot, LivePredictionMarket.Valid, SlotViews, OpenView,
        WatchView, RemoveOpen, CloseForDecisiveEvent;
      ghost var before, listed := SlotViews(), OpenView();
      CloseStarts(before, listed, msg, sequence, markets);
      for i := 0 to |markets|
        invariant SlotsOk(SlotViews(), config, WatchView(), msg.now) && OpenOk(OpenView(), SlotViews())
        invariant R.CloseEach(before, listed, msg, sequence, markets[..i]) == Ok((SlotViews(), OpenView()))
      {
        SlotValid(WatchView(), msg.now, markets[i]);
        CloseStep(before, listed, SlotViews(), OpenView(), config, WatchView(), msg, sequence, markets, i);
        var r := TryClose(markets[i], msg, sequence);
        if r.Ok? {
          RemoveOpenSlot(markets[i]);
        }
      }
      assert markets[..|markets|] == markets;
    }

    method CloseSlots(sender: Address, now: Uint64, sequence: nat, markets: seq<nat>) returns (r: Result<()>)
      requires Valid(now)
      modifies this`lastObservedSequence, this`lastGateActivityAt, this`openSlots, this`openIndexPlusOne, slots
      ensures Does(R.CloseSlots(old(Snapshot()), sender, now, sequence, markets), old(Snapshot()), Snapshot(), r)
      ensures Valid(now)
    {
      hide RoomInv, LivePredictionMarket.Snapshot, Distinct, SlotViews, OpenView, DepositsView, WatchView,
        AdvanceSequence, R.CloseEach, FromRoom, R.CloseSlots;
      ghost var before := Snapshot();
      CloseSlotsSpec(before, sender, now, sequence, markets);
      if sender != config.gateSigner { return Revert(NotAuthorized); }
      if |markets| > MAX_BATCH { return Revert(BatchTooLarge); }
      r := CheckSequence(sequence);
      if r.Revert? { return; }
      if !KnowsAll(markets) { return Revert(UnknownMarket); }
      var msg := Message(now);
      Advance(now, sequence);
      CloseEach(msg, sequence, markets);
    }

    /** Closes the room at a sequence raised past the watermark where needed. */
    method CloseRoom(sender: Address, now: Uint64, decisiveSequence: nat) returns (r: Result<()>)
      requires Valid(now)
      modifies this`lastObservedSequence, this`lastGateActivityAt, this`roomClosedSequence, this`roomClosedAt
      ensures Does(R.CloseRoom(old(Snapshot()), sender, now, decisiveSequence), old(Snapshot()), Snapshot(), r)
      ensures Valid(now)
    {
      hide RoomInv, SlotViews, OpenView, DepositsView, LivePredictionMarket.Snapshot;
      ghost var before := Snapshot();
      if sender != config.gateSigner { return Revert(NotAuthorized); }
      var sequence := if decisiveSequence > lastObservedSequence then decisiveSequence else lastObservedSequence + 1;
      r := CheckSequence(sequence);
      if r.Revert? { return; }
      Advance(now, sequence);
      roomClosedSequence := sequence;
      roomClosedAt := now;
      CloseRoomKeeps(before, sender, now, decisiveSequence);
    }

    method CloseRoomOnGateStall(now: Uint64) returns (r: Result<()>)
      requires Valid(now)
      modifies this`roomClosedSequence, this`roomClosedAt, this`closedByStall
      ensures Does(R.CloseRoomOnGateStall(old(Snapshot()), now), old(Snapshot()), Snapshot(), r)
      ensures Valid(now)
    {
      hide RoomInv, SlotViews, OpenView, DepositsView, LivePredictionMarket.Snapshot;
      ghost var before := Snapshot();
      if roomClosedSequence != 0 { return Revert(RoomIsClosed); }
      if now < lastGateActivityAt + config.gateStallTimeout { return Revert(TooEarly); }
      roomClosedSequence := lastObservedSequence + 1;
      roomClosedAt := now;
      closedByStall := true;
      StallCloseKeeps(before, now);
      return Ok(());
    }

    method CloseRemainingSlots(now: Uint64, markets: seq<nat>) returns (r: Result<()>)
      requires Valid(now)
      modifies this`openSlots, this`openIndexPlusOne, slots
      ensures Does(R.CloseRemainingSlots(old(Snapshot()), now, markets), old(Snapshot()), Snapshot(), r)
      ensures Valid(now)
    {
      hide RoomInv, LivePredictionMarket.Snapshot, Distinct, SlotViews, OpenView, DepositsView, R.CloseEach, FromRoom,
        R.CloseRemainingSlots;
      ghost var before := Snapshot();
      CloseRemainingSpec(before, now, markets);
      if roomClosedSequence == 0 { return Revert(RoomNotClosed); }
      if |markets| > MAX_BATCH { return Revert(BatchTooLarge); }
      if !KnowsAll(markets) { return Revert(UnknownMarket); }
      var msg := Message(now);
      CloseEach(msg, roomClosedSequence, markets);
      return Ok(());
    }

    // ------------------------------------------------------------- publication

    method CheckPermit(now: Uint64, request: SlotRequest, permit: PublicationPermit, signer: Address,
                       restricted: seq<Address>)
      returns (r: Result<()>)
      ensures r == ValidatePermit(Snapshot(), now, request, permit, signer, restricted)
    {
      hide LivePredictionMarket.Snapshot, OpenView, DepositsView;
      if permit.slotIndex != |slots| { return Revert(SlotIndexMismatch); }
      if permit.requestHash != (request, restricted) || permit.conditionHash != request.conditionHash
         || permit.announceDelay != request.announceDelay {
        return Revert(PermitMismatch);
      }
      if permit.issuedAt > now { return Revert(PermitNotYetIssued); }
      if permit.expiresAt <= now { return Revert(PermitExpired); }
      if permit.expiresAt <= permit.issuedAt || permit.expiresAt - permit.issuedAt > config.maxPermitLifetime {
        return Revert(PermitTooLongLived);
      }
      if now - permit.issuedAt > config.maxPermitLifetime { return Revert(PermitTooOld); }
      if permit.nonce in usedNonce { return Revert(PermitReplayed); }
      if permit.undecidedThroughSequence < lastObservedSequence { return Revert(StaleAttestation); }
      if signer != config.gateSigner { return Revert(PermitInvalidSigner); }
      return Ok(());
    }

    method CheckRequest(request: SlotRequest) returns (r: Result<()>)
      ensures r == ValidateRequest(Snapshot(), request)
    {
      hide LivePredictionMarket.Snapshot, WatchView, DepositsView, S.HasLiquidity;
      if request.templateId !in config.templates || config.templates[request.templateId] != request.winnerRewardBps {
        return Revert(TemplateNotApproved);
      }
      if request.announceDelay < config.minAnnounceDelay { return Revert(AnnounceDelayTooShort); }
      if |openSlots| >= config.maxOpenSlots { return Revert(TooManyOpenSlots); }
      if |slots| == 0 {
        if request.templateId != config.headlineTemplateId { return Revert(NotHeadlineTemplate); }
      } else if !slots[0].HasLiquidity() {
        return Revert(HeadlineUnbacked);
      }
      return Ok(());
    }

    /** Publishes one slot, a contract of its own; its number is returned. */
    method PublishSlot(sender: Address, now: Uint64, request: SlotRequest, permit: PublicationPermit, signer: Address,
                       restricted: seq<Address>) returns (r: Result<()>, market: nat)
      requires Valid(now)
      modifies this
      ensures Does(R.PublishSlot(old(Snapshot()), sender, now, request, permit, signer, restricted), old(Snapshot()),
                   Snapshot(), r)
      ensures r.Ok? ==> market == |old(slots)|
      ensures Valid(now)
    {
      hide RoomInv, LivePredictionMarket.Snapshot, Distinct, SlotViews, OpenView, DepositsView, WatchView, NewMarket,
        ConfigOk, ValidatePermit, ValidateRequest, ParticipantsReady, AddOpen, RoomRestricted, R.PublishSlot,
        SlotConfig;
      ghost var before := Snapshot();
      PublishSpec(before, sender, now, request, permit, signer, restricted);
      market := |slots|;
      if sender != config.publisher { return Revert(NotAuthorized), 0; }
      Closed();
      if roomClosedSequence != 0 { return Revert(RoomIsClosed), 0; }
      if !ParticipantsAreReady() { return Revert(NotReady), 0; }
      r := CheckPermit(now, request, permit, signer, restricted);
      if r.Revert? { return r, 0; }
      r := CheckRequest(request);
      if r.Revert? { return r, 0; }
      if now + request.announceDelay >= TWO_64 { return Revert(Panic), 0; }
      var slotConfig := SlotConfig(config, request.winnerRewardBps, now + request.announceDelay);
      if !ConfigOk(slotConfig) { return Revert(InvalidState), 0; }
      Deploy(slotConfig, RoomRestricted(config) + (set a | a in restricted), request.templateId, now);
      usedNonce := usedNonce + {permit.nonce};
      Observe(permit.undecidedThroughSequence);
    }

    method Deploy(slotConfig: Config, restricted: set<Address>, templateId: nat, ghost now: Uint64)
      requires ConfigOk(slotConfig) && Distinct()
      modifies this`slots, this`templateOf, this`openSlots, this`openIndexPlusOne
      ensures Distinct()
      ensures SlotViews() == old(SlotViews()) + [NewMarket(slotConfig, restricted)]
      ensures templateOf == old(templateOf) + [templateId]
      ensures OpenView() == AddOpen(old(OpenView()), |old(SlotViews())|)
    {
      hide LivePredictionMarket.Snapshot, LivePredictionMarket.Valid, NewMarket, ConfigOk, Distinct, AddOpen, OpenView;
      var deployed := new LivePredictionMarket(slotConfig, restricted, now);
      AddSlot(deployed, templateId);
    }

    lemma Closed()
      ensures WatchView().roomClosedSequence == roomClosedSequence
    {
    }

    method Observe(sequence: nat)
      modifies this`lastObservedSequence
      ensures WatchView() == old(WatchView()).(lastObservedSequence := sequence)
    {
      lastObservedSequence := sequence;
    }

    method AddSlot(deployed: LivePredictionMarket, templateId: nat)
      requires Distinct() && deployed !in slots
      modifies this`slots, this`templateOf, this`openSlots, this`openIndexPlusOne
      ensures slots == old(slots) + [deployed] && Distinct()
      ensures SlotViews() == old(SlotViews()) + [deployed.Snapshot()]
      ensures templateOf == old(templateOf) + [templateId]
      ensures OpenView() == AddOpen(old(OpenView()), |old(slots)|)
    {
      hide LivePredictionMarket.Snapshot;
      ghost var views := SlotViews();
      var index := |slots|;
      slots := slots + [deployed];
      templateOf := templateOf + [templateId];
      openSlots := openSlots + [index];
      openIndexPlusOne := openIndexPlusOne[index := |openSlots|];
    }

    // ------------------------------------------------------- bonds and claims

    method ReceiveTokens(amount: nat)
      modifies this`balance
      ensures balance == old(balance) + amount
    {
      balance := balance + amount;
    }

    method SendTokens(to: Address, amount: nat)
      requires amount <= balance
      modifies this`balance, this`sent
      ensures PayOut(Purse(old(balance), old(sent)), to, amount) == Ok(Purse(balance, sent))
      ensures balance == old(balance) - amount
    {
      balance := balance - amount;
      sent := Credit(sent, to, amount);
    }

    /** Money moved, or the call reverted, as the state machine says. */
    static ghost predicate Moves(spec: Result<Deposits>, before: Deposits, after: Deposits, r: Result<()>) {
      match spec
      case Ok(next) => r.Ok? && after == next
      case Revert(error) => r == Revert(error) && after == before
    }

    method PostIntegrityBond(sender: Address, now: Uint64) returns (r: Result<()>)
      requires Valid(now)
      modifies this`integrityBondOf, this`balance
      ensures Moves(PostBond(config, old(DepositsView()), sender), old(DepositsView()), DepositsView(), r)
      ensures Valid(now)
    {
      hide RoomInv, LivePredictionMarket.Snapshot, OpenView, WatchView, SlotViews;
      ghost var before := Snapshot();
      if sender != config.participantA && sender != config.participantB { return Revert(NotAuthorized); }
      if Get(integrityBondOf, sender) != 0 { return Revert(InvalidState); }
      integrityBondOf := integrityBondOf[sender := ROOM_INTEGRITY_BOND];
      ReceiveTokens(ROOM_INTEGRITY_BOND);
      DepositCallKeeps(before, sender, now, PostRoomBondCall);
      return Ok(());
    }

    /** Looks at the outcome of every slot in turn. */
    method EverySlotIsFinal() returns (final: bool)
      ensures final == AllFinal(SlotViews())
    {
      hide SlotViews;
      final := true;
      for i := 0 to |slots|
        invariant forall j :: 0 <= j < i ==> !SlotViews()[j].ruling.finalOutcome.Unset?
      {
        OutcomeSeen(slots[i]);
        if slots[i].finalOutcome == Unset {
          return false;
        }
      }
    }

    method ClaimIntegrityBond(sender: Address, now: Uint64) returns (r: Result<()>)
      requires Valid(now)
      modifies this`integrityBondOf, this`integrityBondClaimed, this`balance, this`sent
      ensures Moves(ClaimBond(old(Snapshot()), sender, now), old(DepositsView()), DepositsView(), r)
      ensures Valid(now)
    {
      hide RoomInv, LivePredictionMarket.Snapshot, OpenView, SlotViews, DepositsView, AllFinal, PayOut, Distinct;
      ghost var before := Snapshot();
      DepositFields();
      if sender != config.participantA && sender != config.participantB { return Revert(NotAuthorized); }
      if sender in integrityBondClaimed { return Revert(NothingToClaim); }
      if roomClosedSequence == 0 { return Revert(RoomNotClosed); }
      var final := EverySlotIsFinal();
      if !final { return Revert(TooEarly); }
      if now < roomClosedAt + config.integrityClaimWindow { return Revert(TooEarly); }
      if Get(openClaimsAgainst, sender) != 0 { return Revert(TooEarly); }
      if Get(integrityBondOf, sender) == 0 { return Revert(NothingToClaim); }
      BondIsCovered(before, now, sender);
      ReleaseBond(sender);
      DepositCallKeeps(before, sender, now, ClaimRoomBondCall);
      return Ok(());
    }

    lemma DepositFields()
      ensures DepositsView().integrityBondOf == integrityBondOf
        && DepositsView().integrityBondClaimed == integrityBondClaimed
      ensures DepositsView().claims == claims && DepositsView().openClaimsAgainst == openClaimsAgainst
      ensures DepositsView().purse == Purse(balance, sent)
    {
    }

    method ReleaseBond(sender: Address)
      requires Get(integrityBondOf, sender) <= balance
      modifies this`integrityBondOf, this`integrityBondClaimed, this`balance, this`sent
      ensures
        var d := old(DepositsView());
        var paid := PayOut(d.purse, sender, Get(d.integrityBondOf, sender));
        && paid.Ok?
        && DepositsView() == d.(integrityBondClaimed := d.integrityBondClaimed + {sender},
                                integrityBondOf := d.integrityBondOf[sender := 0],
                                purse := paid.value)
    {
      var amount := Get(integrityBondOf, sender);
      integrityBondClaimed := integrityBondClaimed + {sender};
      integrityBondOf := integrityBondOf[sender := 0];
      SendTokens(sender, amount);
    }

    method FileIntegrityClaim(sender: Address, now: Uint64, participant: Address, violationCode: nat, evidenceHash: nat)
      returns (r: Result<()>, claimId: nat)
      requires Valid(now)
      modifies this`claims, this`openClaimsAgainst, this`balance
      ensures Moves(FileClaim(config, WatchView(), old(DepositsView()), sender, now, participant, violationCode,
                              evidenceHash),
                    old(DepositsView()), DepositsView(), r)
      ensures r.Ok? ==> claimId == |old(claims)|
      ensures Valid(now)
    {
      hide RoomInv, LivePredictionMarket.Snapshot, OpenView, SlotViews, DepositsView, Distinct;
      ghost var before := Snapshot();
      DepositFields();
      claimId := |claims|;
      if participant != config.participantA && participant != config.participantB { return Revert(InvalidState), 0; }
      if violationCode == 0 || evidenceHash == 0 { return Revert(InvalidState), 0; }
      if roomClosedSequence == 0 { return Revert(RoomNotClosed), 0; }
      if now >= roomClosedAt + config.integrityClaimWindow { return Revert(TooEarly), 0; }
      if Get(integrityBondOf, participant) == 0 { return Revert(NothingToClaim), 0; }
      AddClaim(IntegrityClaim(sender, participant, violationCode, evidenceHash, now, Outstanding));
      DepositCallKeeps(before, sender, now, FileClaimCall(participant, violationCode, evidenceHash));
      return Ok(()), claimId;
    }

    method AddClaim(claim: IntegrityClaim)
      modifies this`claims, this`openClaimsAgainst, this`balance
      ensures
        var d := old(DepositsView());
        DepositsView() == d.(claims := d.claims + [claim],
                             openClaimsAgainst := Credit(d.openClaimsAgainst, claim.participant, 1),
                             purse := TakeIn(d.purse, INTEGRITY_CLAIM_BOND))
    {
      claims := claims + [claim];
      openClaimsAgainst := Credit(openClaimsAgainst, claim.participant, 1);
      ReceiveTokens(INTEGRITY_CLAIM_BOND);
    }

    /** Takes a claim off the open count and gives it its final status. */
    method Settle(claimId: nat, status: ClaimStatus)
      requires claimId < |claims| && SettleClaim(DepositsView(), claimId, status).Ok?
      modifies this`claims, this`openClaimsAgainst
      ensures SettleClaim(old(DepositsView()), claimId, status) == Ok(DepositsView())
    {
      var claim := claims[claimId];
      openClaimsAgainst := openClaimsAgainst[claim.participant := Get(openClaimsAgainst, claim.participant) - 1];
      claims := claims[claimId := claim.(status := status)];
    }

    method AdjudicateIntegrityClaim(sender: Address, now: Uint64, claimId: nat, uphold: bool) returns (r: Result<()>)
      requires Valid(now)
      modifies this`claims, this`openClaimsAgainst, this`integrityBondOf, this`balance, this`sent
      ensures Moves(AdjudicateClaim(config, old(DepositsView()), sender, now, claimId, uphold),
                    old(DepositsView()), DepositsView(), r)
      ensures Valid(now)
    {
      hide RoomInv, LivePredictionMarket.Snapshot, OpenView, WatchView, SlotViews, DepositsView, AdjudicateClaim,
        Distinct, ClaimIsCovered;
      ghost var before := Snapshot();
      DepositFields();
      if claimId < |claims| && claims[claimId].status.Outstanding? {
        ClaimCovered(before, now, claimId, if uphold then Upheld else Rejected);
      }
      r := Adjudicate(sender, now, claimId, uphold);
      if r.Ok? {
        DepositCallKeeps(before, sender, now, AdjudicateCall(claimId, uphold));
      }
    }

    method Adjudicate(sender: Address, now: Uint64, claimId: nat, uphold: bool) returns (r: Result<()>)
      requires claimId < |claims| && claims[claimId].status.Outstanding? ==>
        ClaimIsCovered(DepositsView(), claimId, if uphold then Upheld else Rejected)
      modifies this`claims, this`openClaimsAgainst, this`integrityBondOf, this`balance, this`sent
      ensures Moves(AdjudicateClaim(config, old(DepositsView()), sender, now, claimId, uphold),
                    old(DepositsView()), DepositsView(), r)
    {
      hide SettleClaim, PayOut;
      if sender != config.integrityAdjudicator { return Revert(NotAuthorized); }
      if claimId >= |claims| { return Revert(Panic); }
      var claim := claims[claimId];
      if !claim.status.Outstanding? { return Revert(InvalidState); }
      if claim.filedAt + config.integrityClaimTimeout >= TWO_64 { return Revert(Panic); }
      if now >= claim.filedAt + config.integrityClaimTimeout { return Revert(TooEarly); }
      Settle(claimId, if uphold then Upheld else Rejected);
      if uphold {
        Forfeit(claim.participant);
        SendTokens(claim.claimant, INTEGRITY_CLAIM_BOND);
      } else {
        SendTokens(config.bondRecipient, INTEGRITY_CLAIM_BOND);
      }
      return Ok(());
    }

    /** Sends a participant's bond, if there is one, to the bond recipient. */
    method Forfeit(participant: Address)
      requires Get(integrityBondOf, participant) <= balance
      modifies this`integrityBondOf, this`balance, this`sent
      ensures integrityBondOf == old(integrityBondOf)[participant := 0]
      ensures balance == old(balance) - Get(old(integrityBondOf), participant)
      ensures
        var forfeited := Get(old(integrityBondOf), participant);
        Ok(Purse(balance, sent)) == if forfeited != 0
          then PayOut(Purse(old(balance), old(sent)), config.bondRecipient, forfeited)
                                    else Ok(Purse(old(balance), old(sent)))
    {
      hide PayOut;
      var forfeited := Get(integrityBondOf, participant);
      integrityBondOf := integrityBondOf[participant := 0];
      if forfeited != 0 {
        SendTokens(config.bondRecipient, forfeited);
      }
    }

    method ExpireIntegrityClaim(now: Uint64, claimId: nat) returns (r: Result<()>)
      requires Valid(now)
      modifies this`claims, this`openClaimsAgainst, this`balance, this`sent
      ensures Moves(ExpireClaim(config, old(DepositsView()), now, claimId), old(DepositsView()), DepositsView(), r)
      ensures Valid(now)
    {
      hide RoomInv, LivePredictionMarket.Snapshot, OpenView, WatchView, SlotViews, DepositsView, ExpireClaim, Distinct,
        ClaimIsCovered;
      ghost var before := Snapshot();
      DepositFields();
      if claimId < |claims| && claims[claimId].status.Outstanding? {
        ClaimCovered(before, now, claimId, Expired);
      }
      r := Expire(now, claimId);
      if r.Ok? {
        DepositCallKeeps(before, ZERO_ADDRESS, now, ExpireClaimCall(claimId));
      }
    }

    method Expire(now: Uint64, claimId: nat) returns (r: Result<()>)
      requires claimId < |claims| && claims[claimId].status.Outstanding? ==>
        ClaimIsCovered(DepositsView(), claimId, Expired)
      modifies this`claims, this`openClaimsAgainst, this`balance, this`sent
      ensures Moves(ExpireClaim(config, old(DepositsView()), now, claimId), old(DepositsView()), DepositsView(), r)
    {
      hide SettleClaim, PayOut;
      if claimId >= |claims| { return Revert(Panic); }
      var claim := claims[claimId];
      if !claim.status.Outstanding? { return Revert(InvalidState); }
      if claim.filedAt + config.integrityClaimTimeout >= TWO_64 { return Revert(Panic); }
      if now < claim.filedAt + config.integrityClaimTimeout { return Revert(TooEarly); }
      Settle(claimId, Expired);
      SendTokens(claim.claimant, INTEGRITY_CLAIM_BOND);
      return Ok(());
    }
  }

  lemma OutcomeSeen(m: LivePredictionMarket)
    ensures m.Snapshot().ruling.finalOutcome == m.finalOutcome
  {
  }

  /** The claim can be settled, and its bond and the bond it is about are in the
      balance together. */
  ghost predicate ClaimIsCovered(d: Deposits, claimId: nat, status: ClaimStatus)
    requires claimId < |d.claims|
  {
    var settled := SettleClaim(d, claimId, status);
    && settled.Ok?
    && settled.value == d.(claims := settled.value.claims, openClaimsAgainst := settled.value.openClaimsAgainst)
    && Get(d.integrityBondOf, d.claims[claimId].participant) + INTEGRITY_CLAIM_BOND <= d.purse.held
  }

  lemma ClaimCovered(r: Room, now: Uint64, claimId: nat, status: ClaimStatus)
    requires RoomInv(r, now) && claimId < |r.deposits.claims| && r.deposits.claims[claimId].status.Outstanding?
    requires !status.Outstanding?
    ensures ClaimIsCovered(r.deposits, claimId, status)
  {
    hide SlotsOk, OpenOk, RoomConfigOk, Sum, OpenClaims, OpenAgainst, SettleClaim;
    var d := r.deposits;
    ClaimSettles(d, r.config, r.watch, now, claimId, status);
    BondInPurse(d, r.config, r.watch, now, d.claims[claimId].participant);
    assert 1 <= OpenClaims(d.claims);
  }

  lemma BondIsCovered(r: Room, now: Uint64, p: Address)
    requires RoomInv(r, now)
    ensures Get(r.deposits.integrityBondOf, p) <= r.deposits.purse.held
  {
    hide SlotsOk, OpenOk, RoomConfigOk, Sum, OpenClaims, OpenAgainst;
    BondInPurse(r.deposits, r.config, r.watch, now, p);
  }

  /** Publication: what each guard yields, and that past the guards it takes effect. */
  lemma PublishSpec(r: Room, sender: Address, now: Uint64, request: SlotRequest, permit: PublicationPermit,
                    signer: Address, restricted: seq<Address>)
    requires RoomInv(r, now)
    ensures
      var spec := R.PublishSlot(r, sender, now, request, permit, signer, restricted);
      var permitted := ValidatePermit(r, now, request, permit, signer, restricted);
      var requested := ValidateRequest(r, request);
      if sender != r.config.publisher then spec == Revert(NotAuthorized)
      else if r.watch.roomClosedSequence != 0 then spec == Revert(RoomIsClosed)
      else if !ParticipantsReady(r.config, r.deposits) then spec == Revert(NotReady)
      else if permitted.Revert? then spec == Revert(permitted.error)
      else if requested.Revert? then spec == Revert(requested.error)
      else if TWO_64 <= now + request.announceDelay then spec == Revert(Panic)
      else
        var config := SlotConfig(r.config, request.winnerRewardBps, now + request.announceDelay);
        if !ConfigOk(config) then spec == Revert(InvalidState)
        else
          && spec == Ok(r.(usedNonces := r.usedNonces + {permit.nonce},
                           watch := r.watch.(lastObservedSequence := permit.undecidedThroughSequence),
                           slots := r.slots + [NewMarket(config, RoomRestricted(r.config) + (set a | a in restricted))],
                           templateOf := r.templateOf + [request.templateId],
                           open := AddOpen(r.open, |r.slots|)))
          && RoomInv(spec.value, now)
  {
    hide RoomInv, ParticipantsReady, ValidatePermit, ValidateRequest, SlotConfig, ConfigOk, NewMarket, RoomRestricted,
      AddOpen;
    if R.PublishSlot(r, sender, now, request, permit, signer, restricted).Ok? {
      PublishKeeps(r, sender, now, request, permit, signer, restricted);
    }
  }

  lemma CloseStarts(before: seq<S.Market>, listed: OpenIndex, msg: Msg, sequence: nat, markets: seq<nat>)
    ensures R.CloseEach(before, listed, msg, sequence, markets[..0]) == Ok((before, listed))
  {
  }

  /** One more slot of a list that has come as far as `at`. */
  lemma CloseStep(before: seq<S.Market>, listed: OpenIndex, at: seq<S.Market>, open: OpenIndex, c: RoomConfig, w: Watch,
                  msg: Msg, sequence: nat, markets: seq<nat>, i: nat)
    requires i < |markets| && markets[i] < |at| && msg.sender == c.self
    requires R.CloseEach(before, listed, msg, sequence, markets[..i]) == Ok((at, open))
    requires SlotsOk(at, c, w, msg.now) && OpenOk(open, at)
    ensures
      var one := CloseOne(at, open, msg, sequence, markets[i]);
      && IndexInverse(open)
      && one.Ok?
      && R.CloseEach(before, listed, msg, sequence, markets[..i + 1]) == one
      && SlotsOk(one.value.0, c, w, msg.now) && OpenOk(one.value.1, one.value.0)
  {
    hide SlotsOk, CloseOne;
    CloseOneOk(at, open, c, w, msg, sequence, markets[i]);
    CloseEachSnoc(before, listed, msg, sequence, markets[..i], markets[i]);
    assert markets[..i + 1] == markets[..i] + [markets[i]];
  }

  lemma {:induction false} CloseEachSnoc(slots: seq<S.Market>, o: OpenIndex, msg: Msg, sequence: nat, markets: seq<nat>,
                                         last: nat)
    requires R.CloseEach(slots, o, msg, sequence, markets).Ok?
      && last < |R.CloseEach(slots, o, msg, sequence, markets).value.0|
    ensures
      var (at, open) := R.CloseEach(slots, o, msg, sequence, markets).value;
      R.CloseEach(slots, o, msg, sequence, markets + [last]) == CloseOne(at, open, msg, sequence, last)
    decreases |markets|
  {
    hide CloseOne;
    if markets == [] {
      assert markets + [last] == [last] && [last][1..] == [];
      var one := CloseOne(slots, o, msg, sequence, last);
      if one.Ok? {
        CloseStarts(one.value.0, one.value.1, msg, sequence, []);
      }
    } else {
      assert (markets + [last])[1..] == markets[1..] + [last];
      var (next, rest) := CloseOne(slots, o, msg, sequence, markets[0]).value;
      CloseEachSnoc(next, rest, msg, sequence, markets[1..], last);
    }
  }

  lemma CloseSlotsSpec(r: Room, sender: Address, now: Uint64, sequence: nat, markets: seq<nat>)
    requires RoomInv(r, now)
    ensures
      var spec := R.CloseSlots(r, sender, now, sequence, markets);
      var watch := AdvanceSequence(r.watch, now, sequence);
      if sender != r.config.gateSigner then spec == Revert(NotAuthorized)
      else if |markets| > MAX_BATCH then spec == Revert(BatchTooLarge)
      else if watch.Revert? then spec == Revert(watch.error)
      else if !(forall i :: 0 <= i < |markets| ==> markets[i] < |r.slots|) then spec == Revert(UnknownMarket)
      else
        var closed := R.CloseEach(r.slots, r.open, FromRoom(r, now), sequence, markets);
        && SlotsOk(r.slots, r.config, watch.value, now) && OpenOk(r.open, r.slots)
        && closed.Ok?
        && spec == Ok(r.(watch := watch.value, slots := closed.value.0, open := closed.value.1))
        && RoomInv(spec.value, now)
  {
    hide SlotsOk, OpenOk, DepositsOk, RoomConfigOk, FromRoom, R.CloseEach;
    if AdvanceSequence(r.watch, now, sequence).Ok? {
      var v := AdvanceSequence(r.watch, now, sequence).value;
      WatchRaised(r, now, sequence);
      CloseListKeeps(r, v, now, sequence, markets);
      ClosingReverts(r, v, now, sequence, markets);
    }
  }

  lemma ClosingReverts(r: Room, v: Watch, now: Uint64, sequence: nat, markets: seq<nat>)
    requires SlotsOk(r.slots, r.config, v, now) && OpenOk(r.open, r.slots)
    ensures R.CloseEach(r.slots, r.open, FromRoom(r, now), sequence, markets).Revert? ==>
      R.CloseEach(r.slots, r.open, FromRoom(r, now), sequence, markets).error == UnknownMarket
  {
    hide SlotsOk, OpenOk, R.CloseEach, ParticipantsReady;
    CloseEachOk(r.slots, r.open, r.config, v, FromRoom(r, now), sequence, markets);
  }

  lemma CloseRemainingSpec(r: Room, now: Uint64, markets: seq<nat>)
    requires RoomInv(r, now)
    ensures
      var spec := R.CloseRemainingSlots(r, now, markets);
      if r.watch.roomClosedSequence == 0 then spec == Revert(RoomNotClosed)
      else if |markets| > MAX_BATCH then spec == Revert(BatchTooLarge)
      else if !(forall i :: 0 <= i < |markets| ==> markets[i] < |r.slots|) then spec == Revert(UnknownMarket)
      else
        var closed := R.CloseEach(r.slots, r.open, FromRoom(r, now), r.watch.roomClosedSequence, markets);
        && SlotsOk(r.slots, r.config, r.watch, now) && OpenOk(r.open, r.slots)
        && closed.Ok?
        && spec == Ok(r.(slots := closed.value.0, open := closed.value.1))
        && RoomInv(spec.value, now)
  {
    hide SlotsOk, OpenOk, DepositsOk, RoomConfigOk, FromRoom, R.CloseEach;
    CloseListKeeps(r, r.watch, now, r.watch.roomClosedSequence, markets);
    ClosingReverts(r, r.watch, now, r.watch.roomClosedSequence, markets);
  }

  lemma SoundSlots(r: Room, now: Uint64)
    requires RoomInv(r, now)
    ensures SlotsOk(r.slots, r.config, r.watch, now)
  {
    hide SlotsOk, OpenOk, DepositsOk, RoomConfigOk;
  }

  /** Every slot in the list of open slots is a published one. */
  lemma OpenIsKnown(r: Room, now: Uint64)
    requires RoomInv(r, now)
    ensures forall i :: 0 <= i < |r.open.openSlots| ==> r.open.openSlots[i] < |r.slots|
  {
    hide SlotsOk, DepositsOk, RoomConfigOk;
    forall i | 0 <= i < |r.open.openSlots| ensures r.open.openSlots[i] < |r.slots| {
      assert Get(r.open.indexPlusOne, r.open.openSlots[i]) == i + 1;
    }
  }

  /** A suspension: what each guard yields, and that past the guards it takes effect. */
  lemma SuspendRoomSpec(r: Room, sender: Address, now: Uint64, sequence: nat)
    requires RoomInv(r, now)
    ensures
      var spec := R.SuspendRoom(r, sender, now, sequence);
      var watch := AdvanceSequence(r.watch, now, sequence);
      if sender != r.config.gateSigner then spec == Revert(NotAuthorized)
      else if watch.Revert? then spec == Revert(watch.error)
      else
        var slots := CallEach(r.slots, FromRoom(r, now), SameCalls(r.open.openSlots, SuspendCall(sequence)));
        && SlotsOk(r.slots, r.config, watch.value, now)
        && (forall i :: 0 <= i < |r.open.openSlots| ==> r.open.openSlots[i] < |r.slots|)
        && slots.Ok?
        && spec == Ok(r.(watch := watch.value, slots := slots.value))
        && RoomInv(spec.value, now)
  {
    hide SlotsOk, OpenOk, DepositsOk, RoomConfigOk, FromRoom, CallEach;
    OpenIsKnown(r, now);
    if AdvanceSequence(r.watch, now, sequence).Ok? {
      WatchRaised(r, now, sequence);
      BatchKeeps(r, AdvanceSequence(r.watch, now, sequence).value, now,
                 SameCalls(r.open.openSlots, SuspendCall(sequence)));
    }
  }

  /** A reopening: what each guard yields, and that past the guards it takes effect. */
  lemma ReopenRoomSpec(r: Room, sender: Address, now: Uint64, sequence: nat)
    requires RoomInv(r, now)
    ensures
      var spec := R.ReopenRoom(r, sender, now, sequence);
      var watch := AdvanceSequence(r.watch, now, sequence);
      if sender != r.config.gateSigner then spec == Revert(NotAuthorized)
      else if watch.Revert? then spec == Revert(watch.error)
      else
        var slots := CallEach(r.slots, FromRoom(r, now), SameCalls(r.open.openSlots, ReopenCall(sequence)));
        && SlotsOk(r.slots, r.config, watch.value, now)
        && (forall i :: 0 <= i < |r.open.openSlots| ==> r.open.openSlots[i] < |r.slots|)
        && slots.Ok?
        && spec == Ok(r.(watch := watch.value, slots := slots.value))
        && RoomInv(spec.value, now)
  {
    hide SlotsOk, OpenOk, DepositsOk, RoomConfigOk, FromRoom, CallEach;
    OpenIsKnown(r, now);
    if AdvanceSequence(r.watch, now, sequence).Ok? {
      WatchRaised(r, now, sequence);
      BatchKeeps(r, AdvanceSequence(r.watch, now, sequence).value, now,
                 SameCalls(r.open.openSlots, ReopenCall(sequence)));
    }
  }

  lemma MarkRoomSpec(r: Room, sender: Address, now: Uint64, sequence: nat, markets: seq<nat>, epochs: seq<Uint64>)
    requires RoomInv(r, now)
    ensures
      var spec := R.MarkRoomEpochsSafe(r, sender, now, sequence, markets, epochs);
      var watch := AdvanceSequence(r.watch, now, sequence);
      if sender != r.config.gateSigner then spec == Revert(NotAuthorized)
      else if |markets| != |epochs| then spec == Revert(LengthMismatch)
      else if |markets| > MAX_BATCH then spec == Revert(BatchTooLarge)
      else if watch.Revert? then spec == Revert(watch.error)
      else if !(forall i :: 0 <= i < |markets| ==> markets[i] < |r.slots|) then spec == Revert(UnknownMarket)
      else
        var slots := CallEach(r.slots, FromRoom(r, now), MarkSafeCalls(sequence, markets, epochs));
        && SlotsOk(r.slots, r.config, watch.value, now)
        && slots.Ok?
        && spec == Ok(r.(watch := watch.value, slots := slots.value))
        && RoomInv(spec.value, now)
  {
    hide SlotsOk, OpenOk, DepositsOk, RoomConfigOk, FromRoom, CallEach;
    if AdvanceSequence(r.watch, now, sequence).Ok? && |markets| == |epochs| {
      WatchRaised(r, now, sequence);
      BatchIsKnown(r, AdvanceSequence(r.watch, now, sequence).value, now, MarkSafeCalls(sequence, markets, epochs));
      BatchKeeps(r, AdvanceSequence(r.watch, now, sequence).value, now, MarkSafeCalls(sequence, markets, epochs));
    }
  }

  lemma ProcessRoomSpec(r: Room, now: Uint64, markets: seq<nat>, epochs: seq<Uint64>, maxActions: nat)
    requires RoomInv(r, now)
    ensures
      var spec := R.ProcessRoom(r, now, markets, epochs, maxActions);
      if |markets| != |epochs| then spec == Revert(LengthMismatch)
      else if |markets| > MAX_BATCH then spec == Revert(BatchTooLarge)
      else if !(forall i :: 0 <= i < |markets| ==> markets[i] < |r.slots|) then spec == Revert(UnknownMarket)
      else
        var slots := CallEach(r.slots, FromRoom(r, now), ProcessCalls(markets, epochs, maxActions));
        && SlotsOk(r.slots, r.config, r.watch, now)
        && slots.Ok?
        && spec == Ok(r.(slots := slots.value))
        && RoomInv(spec.value, now)
  {
    hide SlotsOk, OpenOk, DepositsOk, RoomConfigOk, FromRoom, CallEach;
    if |markets| == |epochs| {
      BatchIsKnown(r, r.watch, now, ProcessCalls(markets, epochs, maxActions));
      BatchKeeps(r, r.watch, now, ProcessCalls(markets, epochs, maxActions));
    }
  }

  /** A batch is accepted when it names only known slots. */
  lemma BatchIsKnown(r: Room, v: Watch, now: Uint64, calls: seq<(nat, Call)>)
    requires SlotsOk(r.slots, r.config, v, now)
    requires forall i :: 0 <= i < |calls| ==>
      Tame(calls[i].1, v.lastObservedSequence) && (v.roomClosedSequence == 0 || calls[i].1.ProcessCall?)
    ensures
      var n := CallEach(r.slots, FromRoom(r, now), calls);
      (n.Ok? <==> forall i :: 0 <= i < |calls| ==> calls[i].0 < |r.slots|) && (n.Revert? ==> n.error == UnknownMarket)
  {
    hide SlotOk, CallEach, Tame, ParticipantsReady;
    CallEachOk(r.slots, r.config, v, FromRoom(r, now), calls);
  }

  lemma BatchStarts(before: seq<S.Market>, msg: Msg, calls: seq<(nat, Call)>)
    ensures CallEach(before, msg, calls[..0]) == Ok(before)
  {
  }

  /** One more call of a batch that has come as far as `at`. */
  lemma BatchStep(before: seq<S.Market>, at: seq<S.Market>, c: RoomConfig, w: Watch, msg: Msg, calls: seq<(nat, Call)>,
                  i: nat)
    requires i < |calls| && CallEach(before, msg, calls[..i]) == Ok(at) && calls[i].0 < |at|
    requires SlotsOk(at, c, w, msg.now) && msg.sender == c.self
    requires Tame(calls[i].1, w.lastObservedSequence) && (w.roomClosedSequence == 0 || calls[i].1.ProcessCall?)
    ensures
      var next := at[calls[i].0 := Step(at[calls[i].0], msg, calls[i].1)];
      CallEach(before, msg, calls[..i + 1]) == Ok(next) && SlotsOk(next, c, w, msg.now)
  {
    hide SlotOk, Step, Tame;
    SlotStepOk(at[calls[i].0], c, w, msg, calls[i].1);
    CallEachSnoc(before, msg, calls[..i], calls[i]);
    assert calls[..i + 1] == calls[..i] + [calls[i]];
  }

  lemma {:induction false} CallEachSnoc(slots: seq<S.Market>, msg: Msg, calls: seq<(nat, Call)>, last: (nat, Call))
    requires CallEach(slots, msg, calls).Ok? && last.0 < |CallEach(slots, msg, calls).value|
    ensures
      var at := CallEach(slots, msg, calls).value;
      CallEach(slots, msg, calls + [last]) == Ok(at[last.0 := Step(at[last.0], msg, last.1)])
    decreases |calls|
  {
    hide Step;
    if calls != [] {
      assert (calls + [last])[1..] == calls[1..] + [last];
      CallEachSnoc(slots[calls[0].0 := Step(slots[calls[0].0], msg, calls[0].1)], msg, calls[1..], last);
    }
  }
}
