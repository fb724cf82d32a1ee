/** The invariant of one market and its preservation by every call. */
module MarketInvariant {
  import opened Prelude
  import opened Ledger
  import opened LedgerInvariant
  import opened Market

  // ------------------------------------------------------------------ queue

  /** One epoch's ids: in submission order, all of that epoch, and pending
      exactly from the cursor on. */
  ghost predicate EpochOk(q: Queue, epoch: Uint64) {
    var ids, cursor := Ids(q, epoch), Get(q.epochCursor, epoch);
    && cursor <= |ids|
    && (forall k :: 0 <= k < |ids| ==>
          && ids[k] < |q.actions|
          && q.actions[ids[k]].epoch == epoch
          && (q.actions[ids[k]].status.Pending? <==> cursor <= k))
    && (forall j, k :: 0 <= j < k < |ids| ==> ids[j] < ids[k])
  }

  ghost predicate QueueOk(q: Queue, g: Gate) {
    && (forall epoch: Uint64 :: EpochOk(q, epoch))
    && (forall i :: 0 <= i < |q.actions| ==>
          && ActionOk(q.actions[i])
          && i in Ids(q, q.actions[i].epoch)
          && (q.actions[i].status.Executed? ==> q.actions[i].epoch in g.epochSafe))
  }

  // ------------------------------------------------------------------- gate

  /** Every cleared epoch had ended, at a sequence of its own that the watermark
      has not fallen below; and once the gate is closed, every cleared epoch lies
      before the closing epoch and the decisive sequence. */
  ghost predicate GateOk(g: Gate, c: Config, now: Uint64)
  {
    && (forall e :: e in g.epochSafe ==>
          && e < CurrentEpoch(c, now)
          && e in g.epochSafeSequence
          && g.epochSafeSequence[e] <= g.lastSafeSequence)
    && (forall e, f :: e in g.epochSafe && f in g.epochSafe && e != f ==>
          && e in g.epochSafeSequence && f in g.epochSafeSequence
          && g.epochSafeSequence[e] != g.epochSafeSequence[f])
    && (g.state.Closed? ==>
          && g.closedAt <= now
          && g.closedEpoch == CurrentEpoch(c, g.closedAt)
          && g.resolutionDueAt == (g.closedAt + RESOLUTION_TIME) % TWO_64
          && g.lastSafeSequence < g.decisiveSequence
          && (forall e :: e in g.epochSafe ==> e < g.closedEpoch))
  }

  // ----------------------------------------------------------------- ruling

  ghost predicate CountOk(r: Ruling, c: Config, key: Verdict) {
    && Get(r.attestationCount, key) == |AttestedBy(r, key)| <= 2
    && AttestedBy(r, key) <= ResolverSet(c)
    && (r.provisionalOutcome.Unset? ==> |AttestedBy(r, key)| <= 1)
  }

  ghost predicate CountsOk(r: Ruling, c: Config) {
    && (forall key: Verdict :: CountOk(r, c, key))
    && (forall accept: bool ::
          && Get(r.verdictCount, accept) == |VerdictBy(r, accept)| <= 2
          && VerdictBy(r, accept) <= ResolverSet(c))
  }

  function ResolverSet(c: Config): set<Address> {
    set r | r in c.resolvers
  }

  ghost predicate RulingOk(r: Ruling, g: Gate, c: Config, now: Uint64) {
    && CountsOk(r, c)
    && (!r.provisionalOutcome.Unset? ==>
          && g.state.Closed?
          && r.provisionalEvidence != 0
          && |AttestedBy(r, (r.provisionalOutcome, r.provisionalEvidence))| == 2
          && r.provisionalAt <= g.resolutionDueAt && r.provisionalAt <= now)
    && (r.challenged ==>
          && !r.provisionalOutcome.Unset?
          && r.challengedAt < r.provisionalAt + c.challengeWindow
          && r.challengedAt <= now)
    && (!r.challenged ==> |VerdictBy(r, true)| == 0 && |VerdictBy(r, false)| == 0)
    && (r.challenged && r.finalOutcome.Unset? ==>
          && r.challengeBond == CHALLENGE_BOND
          && |VerdictBy(r, true)| <= 1 && |VerdictBy(r, false)| <= 1)
    && (!r.finalOutcome.Unset? ==> g.state.Closed?)
    && (!r.finalOutcome.Unset? ==> Justified(r, c, now) || (r.finalOutcome.Invalid? && Failed(r, g, c, now)))
  }

  /** Nothing was provisional by the deadline, or the challenge was accepted by two
      or ran out. */
  ghost predicate Failed(r: Ruling, g: Gate, c: Config, now: Uint64) {
    || (r.provisionalOutcome.Unset? && g.resolutionDueAt <= now)
    || (r.challenged && |VerdictBy(r, true)| == 2 && VerdictBy(r, true) <= ResolverSet(c))
    || (r.challenged && r.challengedAt + c.challengeTimeout <= now)
  }

  /** The outcome was attested by two resolvers on the same evidence, and either
      stood unchallenged through its window or was upheld by two. */
  ghost predicate Justified(r: Ruling, c: Config, now: Uint64) {
    && r.finalOutcome == r.provisionalOutcome
    && |AttestedBy(r, (r.finalOutcome, r.provisionalEvidence))| == 2
    && AttestedBy(r, (r.finalOutcome, r.provisionalEvidence)) <= ResolverSet(c)
    && (if r.challenged then |VerdictBy(r, false)| == 2 && VerdictBy(r, false) <= ResolverSet(c)
        else r.provisionalAt + c.challengeWindow <= now)
  }

  // ------------------------------------------------------------- everything

  ghost predicate BondsOk(b: Bonds) {
    b.totalIntegrityBondLiability == Sum(b.integrityBondOf)
  }

  ghost predicate WinnersOk(m: Market) {
    m.winnerRewardClaimed != {} ==> !m.ruling.finalOutcome.Unset? && !m.ruling.finalOutcome.Invalid?
  }

  /** The money held for bonds. */
  function BondsHeld(m: Market): nat {
    m.bonds.totalIntegrityBondLiability + HeldChallengeBond(m.ruling)
  }

  ghost predicate MoneyOk(m: Market) {
    BookOk(m.book, m.ruling.finalOutcome, TallyOf(m.queue.actions), BondsHeld(m), m.winnerRewardClaimed != {})
  }

  ghost predicate Inv(m: Market, now: Uint64) {
    && ConfigOk(m.config)
    && QueueOk(m.queue, m.gate)
    && GateOk(m.gate, m.config, now)
    && RulingOk(m.ruling, m.gate, m.config, now)
    && BondsOk(m.bonds)
    && WinnersOk(m)
    && MoneyOk(m)
  }

  // ----------------------------------------------------------- start and time

  lemma NewMarketOk(c: Config, additional: set<Address>, now: Uint64)
    requires ConfigOk(c)
    ensures Inv(NewMarket(c, additional), now)
  {
    hide BookOk, Sum;
    var m := NewMarket(c, additional);
    SumEmpty(m.bonds.integrityBondOf);
    NoActions(m.queue.actions);
    EmptyBookOk(m.book, TallyOf(m.queue.actions));
  }

  lemma NoActions(actions: seq<Action>)
    requires actions == []
    ensures TallyOf(actions) == NOTHING
  {
  }

  lemma EpochMonotone(c: Config, t: Uint64, now: Uint64)
    requires t <= now
    ensures CurrentEpoch(c, t) <= CurrentEpoch(c, now)
  {
    var d: nat := c.epochDuration;
    DivisionBounds(t, d);
    DivisionBounds(now, d);
    assert (now / d + 1) * d == (now / d) * d + d;
    MulCancel(t / d, now / d + 1, d);
  }

  /** The invariant survives the passing of time. */
  lemma InvLater(m: Market, t: Uint64, now: Uint64)
    requires Inv(m, t) && t <= now
    ensures Inv(m, now)
  {
    hide QueueOk, MoneyOk, CountsOk, ConfigOk, CurrentEpoch;
    EpochMonotone(m.config, t, now);
  }

  // ------------------------------------------------------------ submissions

  /** One more pending action, as one epoch sees it. */
  lemma RecordedEpochOk(q: Queue, a: Action, e: Uint64)
    requires EpochOk(q, e) && a.status.Pending?
    ensures EpochOk(q.(actions := q.actions + [a],
                       epochActionIds := q.epochActionIds[a.epoch := Ids(q, a.epoch) + [|q.actions|]]), e)
  {
    var next := q.(actions := q.actions + [a],
                   epochActionIds := q.epochActionIds[a.epoch := Ids(q, a.epoch) + [|q.actions|]]);
    var before, after, cursor := Ids(q, e), Ids(next, e), Get(q.epochCursor, e);
    assert after == if e == a.epoch then before + [|q.actions|] else before;
    hide Ids, Get;
    forall k | 0 <= k < |after|
      ensures
        && after[k] < |next.actions|
        && next.actions[after[k]].epoch == e
        && (next.actions[after[k]].status.Pending? <==> cursor <= k)
    {
      if k < |before| {
        assert after[k] == before[k];
        assert next.actions[before[k]] == q.actions[before[k]];
      }
    }
  }

  /** Recording one more pending action of the current epoch. */
  lemma RecordKeepsQueue(q: Queue, g: Gate, a: Action)
    requires QueueOk(q, g) && ActionOk(a) && a.status.Pending?
    ensures
      var id := |q.actions|;
      QueueOk(q.(actions := q.actions + [a],
                 epochActionIds := q.epochActionIds[a.epoch := Ids(q, a.epoch) + [id]]), g)
  {
    hide ActionOk, EpochOk;
    var id := |q.actions|;
    var next := q.(actions := q.actions + [a], epochActionIds := q.epochActionIds[a.epoch := Ids(q, a.epoch) + [id]]);
    forall epoch: Uint64 ensures EpochOk(next, epoch) {
      assert EpochOk(q, epoch);
      RecordedEpochOk(q, a, epoch);
    }
    forall i | 0 <= i < |next.actions|
      ensures
        && ActionOk(next.actions[i])
        && i in Ids(next, next.actions[i].epoch)
        && (next.actions[i].status.Executed? ==> next.actions[i].epoch in g.epochSafe)
    {
      if i < id {
        assert next.actions[i] == q.actions[i];
        assert i in Ids(q, q.actions[i].epoch);
      } else {
        assert Ids(next, a.epoch)[|Ids(q, a.epoch)|] == id;
      }
    }
  }

  /** A submission keeps the invariant when the book it leaves accounts for the
      new action. */
  lemma RecordKeeps(m: Market, book: Book, a: Action, now: Uint64)
    requires Inv(m, now) && ActionOk(a) && a.status.Pending?
    requires BookOk(book, m.ruling.finalOutcome, TallyOf(m.queue.actions).Plus(Weigh(a)), BondsHeld(m),
                    m.winnerRewardClaimed != {})
    ensures Inv(RecordAction(m.(book := book), a), now)
  {
    hide BookOk, QueueOk, GateOk, RulingOk, ConfigOk, TallyOf, Weigh, ActionOk, Ids, Sum;
    RecordKeepsQueue(m.queue, m.gate, a);
    TallyAppend(m.queue.actions, a);
  }

  lemma EscrowKeeps(b: Book, outcome: Outcome, t: Tally, bonds: nat, winnerPaid: bool, a: Action)
    requires BookOk(b, outcome, t, bonds, winnerPaid)
    requires a.status.Pending? && (a.kind.AddLiquidity? || (a.kind.Buy? && b.fees.totalLpShares != 0))
    ensures BookOk(Receive(b, a.amount).(pendingCollateral := b.pendingCollateral + a.amount), outcome,
                   t.Plus(Weigh(a)), bonds, winnerPaid)
  {
    hide Sum, FeesOk;
  }

  lemma DebitKeeps(b: Book, outcome: Outcome, t: Tally, bonds: nat, winnerPaid: bool, a: Action)
    requires BookOk(b, outcome, t, bonds, winnerPaid)
    requires a.status.Pending? && (a.kind.Sell? || a.kind.TransferPosition?)
    requires DebitPosition(b.wallets, a.user, a.outcomeA, a.amount).Ok?
    ensures BookOk(b.(wallets := DebitPosition(b.wallets, a.user, a.outcomeA, a.amount).value), outcome,
                   t.Plus(Weigh(a)), bonds, winnerPaid)
  {
    hide Sum, FeesOk, DebitPosition;
    DebitPositionSums(b.wallets, a.user, a.outcomeA, a.amount);
  }

  lemma SubmitBuyKeeps(m: Market, msg: Msg, outcomeA: bool, budget: nat, minimum: nat, deadline: Uint64)
    requires Inv(m, msg.now) && SubmitBuy(m, msg, outcomeA, budget, minimum, deadline).Ok?
    ensures Inv(SubmitBuy(m, msg, outcomeA, budget, minimum, deadline).value, msg.now)
  {
    hide QueueOk, GateOk, RulingOk, BookOk;
    var a := Action(Buy, Pending, msg.sender, ZERO_ADDRESS, outcomeA, CurrentEpoch(m.config, msg.now), deadline, budget,
                    minimum);
    EscrowKeeps(m.book, m.ruling.finalOutcome, TallyOf(m.queue.actions), BondsHeld(m), m.winnerRewardClaimed != {}, a);
    RecordKeeps(m, Escrow(m, budget).book, a, msg.now);
  }

  lemma SubmitLiquidityKeeps(m: Market, now: Uint64, provider: Address, amount: nat, minimum: nat, deadline: Uint64)
    requires Inv(m, now) && SubmitLiquidityAction(m, now, provider, amount, minimum, deadline).Ok?
    ensures Inv(SubmitLiquidityAction(m, now, provider, amount, minimum, deadline).value, now)
  {
    hide QueueOk, GateOk, RulingOk, BookOk;
    var a := Action(AddLiquidity, Pending, provider, ZERO_ADDRESS, false, CurrentEpoch(m.config, now), deadline, amount,
                    minimum);
    EscrowKeeps(m.book, m.ruling.finalOutcome, TallyOf(m.queue.actions), BondsHeld(m), m.winnerRewardClaimed != {}, a);
    RecordKeeps(m, Escrow(m, amount).book, a, now);
  }

  lemma SubmitPositionKeeps(m: Market, msg: Msg, kind: ActionKind, recipient: Address, outcomeA: bool, amount: nat,
                            minimum: nat, deadline: Uint64)
    requires Inv(m, msg.now) && (kind.Sell? || kind.TransferPosition?)
    requires SubmitPositionAction(m, msg, kind, recipient, outcomeA, amount, minimum, deadline).Ok?
    ensures Inv(SubmitPositionAction(m, msg, kind, recipient, outcomeA, amount, minimum, deadline).value, msg.now)
  {
    hide QueueOk, GateOk, RulingOk, BookOk, DebitPosition;
    var a := Action(kind, Pending, msg.sender, recipient, outcomeA, CurrentEpoch(m.config, msg.now), deadline, amount,
                    minimum);
    DebitKeeps(m.book, m.ruling.finalOutcome, TallyOf(m.queue.actions), BondsHeld(m), m.winnerRewardClaimed != {}, a);
    RecordKeeps(m, m.book.(wallets := DebitPosition(m.book.wallets, a.user, a.outcomeA, a.amount).value), a, msg.now);
  }

  // -------------------------------------------------------------- processing

  /** Settling the action at the cursor, as one epoch sees it. */
  lemma SettledEpochOk(q: Queue, epoch: Uint64, id: nat, status: ActionStatus, e: Uint64)
    requires EpochOk(q, epoch) && EpochOk(q, e) && !status.Pending?
    requires Get(q.epochCursor, epoch) < |Ids(q, epoch)| && id == Ids(q, epoch)[Get(q.epochCursor, epoch)]
    ensures id < |q.actions|
    ensures EpochOk(WithStatus(q, id, status).(epochCursor := q.epochCursor[epoch := Get(q.epochCursor, epoch) + 1]), e)
  {
    var next := WithStatus(q, id, status).(epochCursor := q.epochCursor[epoch := Get(q.epochCursor, epoch) + 1]);
    var ids, cursor := Ids(q, e), Get(next.epochCursor, e);
    forall k | 0 <= k < |ids|
      ensures
        && ids[k] < |next.actions|
        && next.actions[ids[k]].epoch == e
        && (next.actions[ids[k]].status.Pending? <==> cursor <= k)
    {
      assert ids[k] == id ==> e == epoch && k == Get(q.epochCursor, epoch);
    }
  }

  /** Settling the action at the cursor, as the queue sees it. */
  lemma SettledQueueOk(q: Queue, g: Gate, epoch: Uint64, status: ActionStatus)
    requires QueueOk(q, g) && Get(q.epochCursor, epoch) < |Ids(q, epoch)|
    requires !status.Pending? && (status.Executed? ==> epoch in g.epochSafe)
    ensures
      var cursor := Get(q.epochCursor, epoch);
      var id := Ids(q, epoch)[cursor];
      && id < |q.actions|
      && q.actions[id].status.Pending?
      && ActionOk(q.actions[id])
      && q.actions[id].epoch == epoch
      && QueueOk(WithStatus(q, id, status).(epochCursor := q.epochCursor[epoch := cursor + 1]), g)
  {
    hide ActionOk;
    assert EpochOk(q, epoch);
    var cursor := Get(q.epochCursor, epoch);
    var id := Ids(q, epoch)[cursor];
    var next := WithStatus(q, id, status).(epochCursor := q.epochCursor[epoch := cursor + 1]);
    hide EpochOk;
    forall e: Uint64 ensures EpochOk(next, e) {
      assert EpochOk(q, e);
      SettledEpochOk(q, epoch, id, status, e);
    }
    forall i | 0 <= i < |next.actions|
      ensures
        && ActionOk(next.actions[i])
        && i in Ids(next, next.actions[i].epoch)
        && (next.actions[i].status.Executed? ==> next.actions[i].epoch in g.epochSafe)
    {
      assert ActionOk(q.actions[i]);
      assert i in Ids(q, q.actions[i].epoch);
      SameAmounts(q.actions[i], next.actions[i]);
    }
  }

  lemma SameAmounts(a: Action, b: Action)
    requires ActionOk(a) && b.kind == a.kind && b.amount == a.amount
    ensures ActionOk(b)
  {
  }

  /** Settling never reverts where there is something to settle, and keeps the
      invariant; only the book, one status and one cursor change. */
  lemma SettleNextKeeps(m: Market, now: Uint64, epoch: Uint64)
    requires Inv(m, now) && 0 < Remaining(m.queue, epoch)
    ensures SettleNext(m, now, epoch).Ok?
    ensures
      var next := SettleNext(m, now, epoch).value;
      && Inv(next, now)
      && next == m.(book := next.book, queue := next.queue)
      && next.queue.epochActionIds == m.queue.epochActionIds
      && next.queue.epochCursor == m.queue.epochCursor[epoch := Get(m.queue.epochCursor, epoch) + 1]
  {
    hide BookOk, QueueOk, GateOk, RulingOk, TryExecute, Refund, FillKeeps;
    SettledQueueOk(m.queue, m.gate, epoch, Refunded);
    var cursor := Get(m.queue.epochCursor, epoch);
    var id := Ids(m.queue, epoch)[cursor];
    var a := m.queue.actions[id];
    var o, bonds, paid := m.ruling.finalOutcome, BondsHeld(m), m.winnerRewardClaimed != {};
    var restRefunded := TallySplit(m.queue.actions, id, a.(status := Refunded));
    RefundKeeps(m.book, a, o, restRefunded, bonds, paid);
    if Executable(m.gate, epoch) && now <= a.deadline {
      SettledQueueOk(m.queue, m.gate, epoch, Executed);
      var rest := TallySplit(m.queue.actions, id, a.(status := Executed));
      TryExecuteKeeps(m.book, a, m.config.winnerRewardBps, o, rest, bonds, paid);
      FillFacts(TryExecute(m.book, a, m.config.winnerRewardBps), o, rest, a, bonds, paid);
    }
  }

  lemma FillFacts(r: Result<Fill>, outcome: Outcome, rest: Tally, a: Action, bonds: nat, winnerPaid: bool)
    requires FillKeeps(r, outcome, rest, a, bonds, winnerPaid)
    ensures r.Ok?
    ensures r.value.Filled? ==>
      BookOk(r.value.book, outcome, rest.Plus(Weigh(a.(status := Executed))), bonds, winnerPaid)
  {
  }

  /** Draining never reverts within what remains, and moves the cursor that far. */
  lemma {:induction false} DrainKeeps(m: Market, now: Uint64, epoch: Uint64, count: nat)
    requires Inv(m, now) && count <= Remaining(m.queue, epoch)
    ensures Drain(m, now, epoch, count).Ok?
    ensures
      var last := Drain(m, now, epoch, count).value;
      && Inv(last, now)
      && last == m.(book := last.book, queue := last.queue)
      && last.queue.epochActionIds == m.queue.epochActionIds
      && Get(last.queue.epochCursor, epoch) == Get(m.queue.epochCursor, epoch) + count
      && (forall e: Uint64 | e != epoch :: Get(last.queue.epochCursor, e) == Get(m.queue.epochCursor, e))
    decreases count
  {
    hide Inv, SettleNext;
    if count != 0 {
      SettleNextKeeps(m, now, epoch);
      DrainKeeps(SettleNext(m, now, epoch).value, now, epoch, count - 1);
    }
  }

  lemma ProcessKeeps(m: Market, now: Uint64, epoch: Uint64, maximum: nat)
    requires Inv(m, now) && ProcessEpoch(m, now, epoch, maximum).Ok?
    ensures Inv(ProcessEpoch(m, now, epoch, maximum).value, now)
  {
    hide Inv, Drain;
    DrainKeeps(m, now, epoch, Min(maximum, Remaining(m.queue, epoch)));
  }

  // -------------------------------------------------------------------- gate

  /** Clearing more epochs leaves the queue in order. */
  lemma QueueStays(q: Queue, g: Gate, g': Gate)
    requires QueueOk(q, g) && g.epochSafe <= g'.epochSafe
    ensures QueueOk(q, g')
  {
    hide ActionOk, EpochOk;
  }

  lemma GateStays(m: Market, g: Gate, now: Uint64)
    requires Inv(m, now)
    requires m.gate.epochSafe <= g.epochSafe
    requires GateOk(g, m.config, now) && RulingOk(m.ruling, g, m.config, now)
    ensures Inv(m.(gate := g), now)
  {
    hide BookOk, QueueOk, GateOk, RulingOk, TallyOf, ConfigOk;
    QueueStays(m.queue, m.gate, g);
  }

  lemma MarkSafeKeeps(m: Market, msg: Msg, epoch: Uint64, sequence: nat)
    requires Inv(m, msg.now) && MarkEpochSafe(m, msg, epoch, sequence).Ok?
    ensures Inv(MarkEpochSafe(m, msg, epoch, sequence).value, msg.now)
  {
    hide MoneyOk, QueueOk, CurrentEpoch, CountsOk;
    GateStays(m, MarkEpochSafe(m, msg, epoch, sequence).value.gate, msg.now);
  }

  lemma SuspendKeeps(m: Market, msg: Msg, sequence: nat)
    requires Inv(m, msg.now) && SuspendGate(m, msg, sequence).Ok?
    ensures Inv(SuspendGate(m, msg, sequence).value, msg.now)
  {
    hide MoneyOk, QueueOk, CurrentEpoch, CountsOk;
    GateStays(m, SuspendGate(m, msg, sequence).value.gate, msg.now);
  }

  lemma ReopenKeeps(m: Market, msg: Msg, sequence: nat)
    requires Inv(m, msg.now) && ReopenGate(m, msg, sequence).Ok?
    ensures Inv(ReopenGate(m, msg, sequence).value, msg.now)
  {
    hide MoneyOk, QueueOk, CurrentEpoch, CountsOk;
    GateStays(m, ReopenGate(m, msg, sequence).value.gate, msg.now);
  }

  lemma CloseKeeps(m: Market, msg: Msg, sequence: nat)
    requires Inv(m, msg.now) && CloseForDecisiveEvent(m, msg, sequence).Ok?
    ensures Inv(CloseForDecisiveEvent(m, msg, sequence).value, msg.now)
  {
    hide MoneyOk, QueueOk, CurrentEpoch, CountsOk;
    GateStays(m, CloseForDecisiveEvent(m, msg, sequence).value.gate, msg.now);
  }

  // -------------------------------------------------------------- resolution

  /** Full backing before the outcome is solvency under every outcome. */
  lemma DecidingKeepsBook(b: Book, outcome: Outcome, t: Tally, bonds: nat)
    requires BookOk(b, Unset, t, bonds, false)
    ensures BookOk(b, outcome, t, bonds, false)
  {
    hide FeesOk, Sum;
  }

  lemma BondMoves(b: Book, outcome: Outcome, t: Tally, bonds: nat, winnerPaid: bool, amount: nat)
    requires BookOk(b, outcome, t, bonds, winnerPaid)
    ensures BookOk(Receive(b, amount), outcome, t, bonds + amount, winnerPaid)
    ensures amount <= bonds ==>
      forall to: Address :: Pay(b, to, amount).Ok?
        && BookOk(Pay(b, to, amount).value, outcome, t, bonds - amount, winnerPaid)
  {
    hide FeesOk, Sum;
  }

  /** One more vote for `mine`: counts and voters stay in step. */
  lemma CountedVote<K>(count: map<K, nat>, votes: map<K, set<Address>>, mine: K, sender: Address, key: K)
    requires Get(count, key) == |Voters(votes, key)| && Get(count, mine) == |Voters(votes, mine)|
    requires sender !in Voters(votes, mine)
    ensures
      var counted, voted := count[mine := Get(count, mine) + 1], votes[mine := Voters(votes, mine) + {sender}];
      && Get(counted, key) == |Voters(voted, key)|
      && Voters(voted, key) == (if key == mine then Voters(votes, mine) + {sender} else Voters(votes, key))
      && Get(counted, key) == Get(count, key) + (if key == mine then 1 else 0)
  {
  }

  lemma AttestedCounts(r: Ruling, c: Config, sender: Address, outcome: Outcome, evidence: nat, now: Uint64)
    requires CountsOk(r, c) && r.provisionalOutcome.Unset? && !outcome.Unset?
    requires sender in c.resolvers && sender !in AttestedBy(r, (outcome, evidence))
    ensures CountsOk(Attested(r, sender, outcome, evidence, now), c)
  {
    var s := Attested(r, sender, outcome, evidence, now);
    forall key: Verdict
      ensures CountOk(s, c, key)
    {
      hide Attested;
      Counted(r, c, key);
      AttestedCount(r, c, sender, outcome, evidence, now, key);
    }
    forall accept: bool
      ensures Get(s.verdictCount, accept) == |VerdictBy(s, accept)| <= 2 && VerdictBy(s, accept) <= ResolverSet(c)
    {
      hide AttestedBy, CountOk;
      VotesCounted(r, c, accept);
    }
  }

  lemma AttestedCount(r: Ruling, c: Config, sender: Address, outcome: Outcome, evidence: nat, now: Uint64, key: Verdict)
    requires CountOk(r, c, key) && CountOk(r, c, (outcome, evidence)) && r.provisionalOutcome.Unset? && !outcome.Unset?
    requires sender in ResolverSet(c) && sender !in AttestedBy(r, (outcome, evidence))
    ensures CountOk(Attested(r, sender, outcome, evidence, now), c, key)
  {
    hide ResolverSet, Get, Voters;
    CountedVote(r.attestationCount, r.attestedBy, (outcome, evidence), sender, key);
  }

  lemma AttestKeeps(m: Market, msg: Msg, outcome: Outcome, evidence: nat)
    requires Inv(m, msg.now) && AttestResult(m, msg, outcome, evidence).Ok?
    ensures Inv(AttestResult(m, msg, outcome, evidence).value, msg.now)
  {
    hide BookOk, QueueOk, GateOk, ConfigOk, RulingOk, Attested, TallyOf, AttestedBy;
    AttestedRulingOk(m.ruling, m.gate, m.config, msg.sender, outcome, evidence, msg.now);
  }

  lemma AttestedRulingOk(r: Ruling, g: Gate, c: Config, sender: Address, outcome: Outcome, evidence: nat, now: Uint64)
    requires RulingOk(r, g, c, now) && g.state.Closed? && now <= g.resolutionDueAt
    requires r.provisionalOutcome.Unset? && r.finalOutcome.Unset? && !outcome.Unset? && evidence != 0
    requires sender in c.resolvers && sender !in AttestedBy(r, (outcome, evidence))
    ensures
      var s := Attested(r, sender, outcome, evidence, now);
      && RulingOk(s, g, c, now)
      && s.finalOutcome == r.finalOutcome && s.challenged == r.challenged && s.challengeBond == r.challengeBond
  {
    hide CountsOk, Voters;
    var s := Attested(r, sender, outcome, evidence, now);
    AttestedCounts(r, c, sender, outcome, evidence, now);
    Counted(s, c, (outcome, evidence));
  }

  lemma Counted(r: Ruling, c: Config, key: Verdict)
    requires CountsOk(r, c)
    ensures CountOk(r, c, key)
  {
  }

  lemma VotesCounted(r: Ruling, c: Config, accept: bool)
    requires CountsOk(r, c)
    ensures Get(r.verdictCount, accept) == |VerdictBy(r, accept)| <= 2
    ensures VerdictBy(r, accept) <= ResolverSet(c)
  {
  }

  lemma ChallengeKeeps(m: Market, msg: Msg, evidence: nat, bond: nat)
    requires Inv(m, msg.now) && ChallengeResult(m, msg, evidence, bond).Ok?
    ensures Inv(ChallengeResult(m, msg, evidence, bond).value, msg.now)
  {
    hide BookOk, QueueOk, GateOk, ConfigOk, TallyOf, Receive;
    var r, s := m.ruling, ChallengeResult(m, msg, evidence, bond).value.ruling;
    SameCounts(r, s, m.config);
    BondMoves(m.book, Unset, TallyOf(m.queue.actions), BondsHeld(m), m.winnerRewardClaimed != {}, bond);
  }

  lemma SameCounts(r: Ruling, s: Ruling, c: Config)
    requires CountsOk(r, c)
    requires s.attestationCount == r.attestationCount && s.attestedBy == r.attestedBy
    requires s.verdictCount == r.verdictCount && s.verdictBy == r.verdictBy
    requires s.provisionalOutcome == r.provisionalOutcome
    ensures CountsOk(s, c)
  {
    forall key: Verdict ensures CountOk(s, c, key) {
      Counted(r, c, key);
    }
    assert forall accept: bool :: VerdictBy(s, accept) == VerdictBy(r, accept);
  }

  /** Writing the final outcome, with `bonds` of challenge bond paid out. */
  lemma FinalizeKeeps(m: Market, n: Market, now: Uint64)
    requires Inv(m, now) && m.ruling.finalOutcome.Unset?
    requires n == m.(book := n.book, ruling := n.ruling)
    requires RulingOk(n.ruling, n.gate, n.config, now)
    requires BookOk(n.book, Unset, TallyOf(n.queue.actions), BondsHeld(n), n.winnerRewardClaimed != {})
    ensures Inv(n, now)
  {
    hide BookOk, QueueOk, GateOk, ConfigOk, TallyOf, RulingOk;
    DecidingKeepsBook(n.book, n.ruling.finalOutcome, TallyOf(n.queue.actions), BondsHeld(n));
  }

  lemma FinalizeUnchallengedKeeps(m: Market, msg: Msg)
    requires Inv(m, msg.now) && FinalizeUnchallenged(m, msg).Ok?
    ensures Inv(FinalizeUnchallenged(m, msg).value, msg.now)
  {
    hide BookOk, QueueOk, GateOk, ConfigOk, TallyOf, CountsOk;
    var n := FinalizeUnchallenged(m, msg).value;
    SameCounts(m.ruling, n.ruling, m.config);
    Counted(m.ruling, m.config, (m.ruling.provisionalOutcome, m.ruling.provisionalEvidence));
    FinalizeKeeps(m, n, msg.now);
  }

  lemma InvalidateKeeps(m: Market, msg: Msg)
    requires Inv(m, msg.now) && InvalidateUnresolved(m, msg).Ok?
    ensures Inv(InvalidateUnresolved(m, msg).value, msg.now)
  {
    hide BookOk, QueueOk, GateOk, ConfigOk, TallyOf, CountsOk;
    var n := InvalidateUnresolved(m, msg).value;
    SameCounts(m.ruling, n.ruling, m.config);
    FinalizeKeeps(m, n, msg.now);
  }

  /** Deciding a challenge always has the challenge bond to pay out. */
  lemma DecideKeeps(m: Market, n: Market, to: Address, outcome: Outcome, now: Uint64)
    requires Inv(m, now) && m.ruling.challenged && m.ruling.finalOutcome.Unset?
    requires n == m.(ruling := m.ruling.(verdictBy := n.ruling.verdictBy, verdictCount := n.ruling.verdictCount))
    requires CountsOk(n.ruling, m.config)
    requires
      || (outcome.Invalid? && |VerdictBy(n.ruling, true)| == 2)
      || (outcome.Invalid? && m.ruling.challengedAt + m.config.challengeTimeout <= now)
      || (outcome == m.ruling.provisionalOutcome && |VerdictBy(n.ruling, false)| == 2)
    ensures Decide(n, to, outcome).Ok? && Inv(Decide(n, to, outcome).value, now)
  {
    hide BookOk, QueueOk, GateOk, ConfigOk, TallyOf, CountsOk, Pay;
    BondMoves(m.book, Unset, TallyOf(m.queue.actions), BondsHeld(m), m.winnerRewardClaimed != {}, CHALLENGE_BOND);
    var d := Decide(n, to, outcome).value;
    SameCounts(n.ruling, d.ruling, m.config);
    assert d.ruling.verdictBy == n.ruling.verdictBy && d.ruling.attestedBy == m.ruling.attestedBy;
    Counted(m.ruling, m.config, (m.ruling.provisionalOutcome, m.ruling.provisionalEvidence));
    VotesCounted(n.ruling, m.config, false);
    VotesCounted(n.ruling, m.config, true);
    PaidBook(n.book, to, CHALLENGE_BOND);
    FinalizeKeeps(m, d, now);
  }

  lemma PaidBook(b: Book, to: Address, amount: nat)
    ensures Pay(b, to, amount).Ok? ==> Pay(b, to, amount).value == b.(purse := Pay(b, to, amount).value.purse)
  {
  }

  lemma VoteKeepsCounts(m: Market, sender: Address, accept: bool)
    requires CountsOk(m.ruling, m.config)
    requires sender in m.config.resolvers && sender !in VerdictBy(m.ruling, accept)
      && |VerdictBy(m.ruling, accept)| <= 1
    ensures CountsOk(Voted(m.ruling, sender, accept), m.config)
    ensures |VerdictBy(Voted(m.ruling, sender, accept), accept)| == |VerdictBy(m.ruling, accept)| + 1
    ensures VerdictBy(Voted(m.ruling, sender, accept), !accept) == VerdictBy(m.ruling, !accept)
  {
    var r, s := m.ruling, Voted(m.ruling, sender, accept);
    forall key: Verdict ensures CountOk(s, m.config, key) {
      Counted(r, m.config, key);
    }
    forall b: bool
      ensures Get(s.verdictCount, b) == |VerdictBy(s, b)| <= 2 && VerdictBy(s, b) <= ResolverSet(m.config)
    {
      hide Get, Voters, CountOk;
      VotesCounted(r, m.config, b);
      VotesCounted(r, m.config, accept);
      CountedVote(r.verdictCount, r.verdictBy, accept, sender, b);
    }
    CountedVote(r.verdictCount, r.verdictBy, accept, sender, accept);
    CountedVote(r.verdictCount, r.verdictBy, accept, sender, !accept);
  }

  lemma VerdictKeeps(m: Market, msg: Msg, accept: bool)
    requires Inv(m, msg.now) && AttestChallengeVerdict(m, msg, accept).Ok?
    ensures Inv(AttestChallengeVerdict(m, msg, accept).value, msg.now)
  {
    hide BookOk, QueueOk, GateOk, ConfigOk, TallyOf, CountsOk, Decide;
    var n := m.(ruling := Voted(m.ruling, msg.sender, accept));
    VoteKeepsCounts(m, msg.sender, accept);
    VotesCounted(n.ruling, m.config, accept);
    if Get(n.ruling.verdictCount, accept) == 2 {
      if accept {
        DecideKeeps(m, n, m.ruling.challenger, Invalid, msg.now);
      } else {
        DecideKeeps(m, n, m.config.bondRecipient, m.ruling.provisionalOutcome, msg.now);
      }
    } else {
      assert n.ruling.attestedBy == m.ruling.attestedBy;
      assert MoneyOk(n);
    }
  }

  lemma ExpireKeeps(m: Market, msg: Msg)
    requires Inv(m, msg.now) && ExpireChallenge(m, msg).Ok?
    ensures Inv(ExpireChallenge(m, msg).value, msg.now)
  {
    hide BookOk, QueueOk, GateOk, ConfigOk, TallyOf, CountsOk, Decide;
    DecideKeeps(m, m, m.ruling.challenger, Invalid, msg.now);
  }

  // ------------------------------------------------------------------ claims

  /** A call that only moves money keeps the invariant when it keeps the book. */
  lemma BookMoves(m: Market, book: Book, now: Uint64)
    requires Inv(m, now)
    requires BookOk(book, m.ruling.finalOutcome, TallyOf(m.queue.actions), BondsHeld(m), m.winnerRewardClaimed != {})
    ensures Inv(m.(book := book), now)
  {
    hide BookOk, QueueOk, GateOk, RulingOk, ConfigOk, TallyOf;
  }

  lemma ClaimFeesKeeps(m: Market, msg: Msg)
    requires Inv(m, msg.now) && ClaimFees(m, msg).Ok?
    ensures Inv(ClaimFees(m, msg).value, msg.now)
  {
    hide BookOk, QueueOk, GateOk, RulingOk, ConfigOk, TallyOf, ClaimLpFees;
    ClaimLpFeesKeeps(m.book, m.ruling.finalOutcome, TallyOf(m.queue.actions), BondsHeld(m), m.winnerRewardClaimed != {},
                     msg.sender);
    BookMoves(m, ClaimFees(m, msg).value.book, msg.now);
  }

  lemma RedeemCallKeeps(m: Market, msg: Msg)
    requires Inv(m, msg.now) && Redeem(m, msg).Ok?
    ensures Inv(Redeem(m, msg).value, msg.now)
  {
    hide BookOk, QueueOk, GateOk, RulingOk, ConfigOk, TallyOf, RedeemPositions;
    RedeemKeeps(m.book, m.ruling.finalOutcome, TallyOf(m.queue.actions), BondsHeld(m), m.winnerRewardClaimed != {},
                msg.sender);
    BookMoves(m, Redeem(m, msg).value.book, msg.now);
  }

  lemma SettleLpCallKeeps(m: Market, msg: Msg)
    requires Inv(m, msg.now) && SettleLp(m, msg).Ok?
    ensures Inv(SettleLp(m, msg).value, msg.now)
  {
    hide BookOk, QueueOk, GateOk, RulingOk, ConfigOk, TallyOf, SettleLpInventory;
    SettleKeeps(m.book, m.ruling.finalOutcome, TallyOf(m.queue.actions), BondsHeld(m), m.winnerRewardClaimed != {},
                msg.sender);
    BookMoves(m, SettleLp(m, msg).value.book, msg.now);
  }

  lemma ClaimRewardKeeps(m: Market, msg: Msg)
    requires Inv(m, msg.now) && ClaimWinnerReward(m, msg).Ok?
    ensures Inv(ClaimWinnerReward(m, msg).value, msg.now)
  {
    hide BookOk, QueueOk, GateOk, RulingOk, ConfigOk, TallyOf, PayWinnerReward;
    var payout := WinnerReward(m, msg.sender).value;
    PayWinnerKeeps(m.book, m.ruling.finalOutcome, TallyOf(m.queue.actions), BondsHeld(m), m.winnerRewardClaimed != {},
                   msg.sender, payout);
    var n := ClaimWinnerReward(m, msg).value;
    assert msg.sender in n.winnerRewardClaimed;
  }

  lemma RefundFeeCallKeeps(m: Market, msg: Msg)
    requires Inv(m, msg.now) && ClaimInvalidWinnerFeeRefund(m, msg).Ok?
    ensures Inv(ClaimInvalidWinnerFeeRefund(m, msg).value, msg.now)
  {
    hide BookOk, QueueOk, GateOk, RulingOk, ConfigOk, TallyOf, RefundWinnerFee;
    RefundFeeKeeps(m.book, m.ruling.finalOutcome, TallyOf(m.queue.actions), BondsHeld(m), msg.sender);
    BookMoves(m, ClaimInvalidWinnerFeeRefund(m, msg).value.book, msg.now);
  }

  lemma PostBondKeeps(m: Market, msg: Msg)
    requires Inv(m, msg.now) && PostIntegrityBond(m, msg).Ok?
    ensures Inv(PostIntegrityBond(m, msg).value, msg.now)
  {
    hide BookOk, QueueOk, GateOk, RulingOk, ConfigOk, TallyOf, Receive, Sum;
    SumUpdate(m.bonds.integrityBondOf, msg.sender, INTEGRITY_BOND);
    BondMoves(m.book, m.ruling.finalOutcome, TallyOf(m.queue.actions), BondsHeld(m), m.winnerRewardClaimed != {},
              INTEGRITY_BOND);
  }

  lemma ClaimBondKeeps(m: Market, msg: Msg)
    requires Inv(m, msg.now) && ClaimIntegrityBond(m, msg).Ok?
    ensures Inv(ClaimIntegrityBond(m, msg).value, msg.now)
  {
    hide BookOk, QueueOk, GateOk, RulingOk, ConfigOk, TallyOf, Pay, Sum;
    var amount := Get(m.bonds.integrityBondOf, msg.sender);
    SumUpdate(m.bonds.integrityBondOf, msg.sender, 0);
    BondMoves(m.book, m.ruling.finalOutcome, TallyOf(m.queue.actions), BondsHeld(m), m.winnerRewardClaimed != {},
              amount);
  }

  // --------------------------------------------------------------- every call

  /** Every call that does not revert keeps the invariant. */
  lemma ApplyKeeps(m: Market, msg: Msg, call: Call)
    requires Inv(m, msg.now) && Apply(m, msg, call).Ok?
    ensures Inv(Apply(m, msg, call).value, msg.now)
  {
    hide Inv, PostIntegrityBond, SubmitBuy, SubmitLiquidityAction, SubmitPositionAction, MarkEpochSafe, ProcessEpoch,
      SuspendGate, ReopenGate, CloseForDecisiveEvent, AttestResult, ChallengeResult, AttestChallengeVerdict,
      FinalizeUnchallenged, ExpireChallenge, InvalidateUnresolved, ClaimFees, Redeem, SettleLp, ClaimWinnerReward,
      ClaimInvalidWinnerFeeRefund, ClaimIntegrityBond;
    match call
    case PostBondCall => PostBondKeeps(m, msg);
    case BuyCall(outcomeA, amount, minimum, deadline) => SubmitBuyKeeps(m, msg, outcomeA, amount, minimum, deadline);
    case AddLiquidityCall(amount, minimum, deadline) =>
      SubmitLiquidityKeeps(m, msg.now, msg.sender, amount, minimum, deadline);
    case AddLiquidityForCall(provider, amount, minimum, deadline) =>
      SubmitLiquidityKeeps(m, msg.now, provider, amount, minimum, deadline);
    case SellCall(outcomeA, amount, minimum, deadline) =>
      SubmitPositionKeeps(m, msg, Sell, ZERO_ADDRESS, outcomeA, amount, minimum, deadline);
    case TransferCall(outcomeA, recipient, amount, deadline) =>
      SubmitPositionKeeps(m, msg, TransferPosition, recipient, outcomeA, amount, 0, deadline);
    case MarkSafeCall(epoch, sequence) => MarkSafeKeeps(m, msg, epoch, sequence);
    case ProcessCall(epoch, maximum) => ProcessKeeps(m, msg.now, epoch, maximum);
    case SuspendCall(sequence) => SuspendKeeps(m, msg, sequence);
    case ReopenCall(sequence) => ReopenKeeps(m, msg, sequence);
    case CloseCall(sequence) => CloseKeeps(m, msg, sequence);
    case AttestCall(outcome, evidence) => AttestKeeps(m, msg, outcome, evidence);
    case ChallengeCall(evidence, bond) => ChallengeKeeps(m, msg, evidence, bond);
    case VerdictCall(accept) => VerdictKeeps(m, msg, accept);
    case FinalizeCall => FinalizeUnchallengedKeeps(m, msg);
    case ExpireCall => ExpireKeeps(m, msg);
    case InvalidateCall => InvalidateKeeps(m, msg);
    case ClaimFeesCall => ClaimFeesKeeps(m, msg);
    case RedeemCall => RedeemCallKeeps(m, msg);
    case SettleLpCall => SettleLpCallKeeps(m, msg);
    case ClaimRewardCall => ClaimRewardKeeps(m, msg);
    case RefundFeeCall => RefundFeeCallKeeps(m, msg);
    case ClaimBondCall => ClaimBondKeeps(m, msg);
  }
}
