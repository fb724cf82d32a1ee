/** The liquidity router itself: mappings updated in place, and rooms and slots that
    are objects of their own. Every method is proved to do exactly what module
    Commitments says. What contracts outside the factory answer is a parameter. */
module RoomLiquidityCommitmentsContract {
  import opened Prelude
  import opened Ledger
  import opened Market
  import opened MarketInvariant
  import opened Room
  import opened RoomInvariant
  import opened Commitments
  import C = Commitments
  import opened LivePredictionMarketContract
  import opened LiveRoomContract

  class RoomLiquidityCommitments {
    const self: Address

    var executedSlot: map<Commitment, map<MarketRef, nat>>
    var exposureReleased: map<Commitment, set<MarketRef>>
    var totalExecuted: map<Commitment, nat>
    var activeExposure: map<Commitment, nat>
    var cancelledNonce: set<(Address, nat)>

    /** The token's view of this contract: its balance, what each market may still take
        of it, and what each has taken. */
    var balance: nat
    var allowance: map<MarketRef, nat>
    var taken: map<MarketRef, nat>

    ghost function Books(): Router
      reads this
    {
      Router(executedSlot, exposureReleased, totalExecuted, activeExposure, cancelledNonce, balance, allowance, taken)
    }

    /** The router together with a room of the factory and the addresses of all other
        contracts. */
    ghost function World(host: LiveRoom, others: set<Address>): System
      reads this, host, host.slots
    {
      System(self, others, Books(), map[host.config.self := host.Snapshot()])
    }

    constructor (self: Address)
      ensures Books() == NEW_ROUTER && this.self == self
    {
      this.self := self;
      executedSlot, exposureReleased, totalExecuted, activeExposure := map[], map[], map[], map[];
      cancelledNonce, balance, allowance, taken := {}, 0, map[], map[];
    }

    function DrawnBy(c: Commitment): map<MarketRef, nat>
      reads this
      ensures DrawnBy(c) == Drawn(Books(), c)
    {
      if c in executedSlot then executedSlot[c] else map[]
    }

    function ReleasedBy(c: Commitment): set<MarketRef>
      reads this
      ensures ReleasedBy(c) == Released(Books(), c)
    {
      if c in exposureReleased then exposureReleased[c] else {}
    }

    /** `isSlot` is what the room that the policy names answers, and `template` what the
        market does. */
    method CheckCommitment(now: Uint64, c: Commitment, signer: Address, market: MarketRef, isSlot: Result<bool>,
                           template: Result<nat>)
      returns (r: Result<()>)
      ensures r == Validate(Books(), now, c, signer, market, isSlot, template)
    {
      hide Drawn, Books;
      Totals(c);
      if c.provider == ZERO_ADDRESS || c.amountPerSlot == 0 { return Revert(InvalidCommitment); }
      if now >= c.expiresAt { return Revert(CommitmentExpired); }
      if (c.provider, c.nonce) in cancelledNonce { return Revert(CommitmentCancelled); }
      if Get(DrawnBy(c), market) != 0 { return Revert(AlreadyExecuted); }
      if signer != c.provider { return Revert(InvalidSignature); }
      if isSlot.Revert? { return Revert(isSlot.error); }
      if !isSlot.value { return Revert(UnknownSlot); }
      if template.Revert? { return Revert(template.error); }
      var allowed := false;
      for i := 0 to |c.allowedTemplates|
        invariant allowed <==> template.value in c.allowedTemplates[..i]
      {
        if c.allowedTemplates[i] == template.value {
          allowed := true;
          break;
        }
      }
      if !allowed { return Revert(TemplateNotAllowed); }
      if Get(activeExposure, c) + c.amountPerSlot > c.maxSimultaneous { return Revert(ExposureExceeded); }
      if Get(totalExecuted, c) + c.amountPerSlot > c.maxTotal { return Revert(TotalExceeded); }
      return Ok(());
    }

    lemma Totals(c: Commitment)
      ensures Books().activeExposure == activeExposure && Books().totalExecuted == totalExecuted
      ensures Books().cancelledNonce == cancelledNonce && Books().held == balance
    {
    }

    method Book(c: Commitment, market: MarketRef)
      modifies this`executedSlot, this`totalExecuted, this`activeExposure
      ensures Books() == Booked(old(Books()), c, market)
    {
      executedSlot := executedSlot[c := DrawnBy(c)[market := c.amountPerSlot]];
      totalExecuted := Credit(totalExecuted, c, c.amountPerSlot);
      activeExposure := Credit(activeExposure, c, c.amountPerSlot);
    }

    /** The provider's money comes in, and the market is approved for it. */
    method Fund(market: MarketRef, amount: nat)
      modifies this`balance, this`allowance
      ensures Books() == Funded(old(Books()), market, amount)
    {
      balance := balance + amount;
      allowance := allowance[market := amount];
    }

    /** The token moves `amount` from this contract, on the market's call. */
    method TransferTo(market: MarketRef, amount: nat) returns (r: Result<()>)
      modifies this`balance, this`allowance, this`taken
      ensures match Take(old(Books()), market, amount)
              case Ok(books) => r.Ok? && Books() == books
              case Revert(error) => r == Revert(error) && Books() == old(Books())
    {
      if amount > Get(allowance, market) || amount > balance { return Revert(TransferFailed); }
      balance := balance - amount;
      allowance := allowance[market := Get(allowance, market) - amount];
      taken := Credit(taken, market, amount);
      return Ok(());
    }

    /** Submits the addition to a slot on the provider's behalf; what the slot takes is
        what its balance grows by. */
    method Submit(now: Uint64, c: Commitment, host: LiveRoom, index: nat) returns (takes: Result<nat>)
      requires host.Valid(now) && index < |host.slots| && self != host.config.self
      modifies host.slots
      ensures match SubmitToSlot(self, now, c, old(host.Snapshot()), old(host.SlotViews())[index])
              case Ok(submitted) =>
                takes == Ok(submitted.0) && host.SlotViews() == old(host.SlotViews())[index := submitted.1]
              case Revert(error) => takes == Revert(error) && host.SlotViews() == old(host.SlotViews())
      ensures host.Valid(now)
    {
      hide RoomInv, Inv, LivePredictionMarket.Snapshot, LiveRoom.OpenView, LiveRoom.WatchView, LiveRoom.DepositsView,
        ParticipantsReady, S.SubmitAddLiquidityFor;
      ghost var before := host.Snapshot();
      SoundSlots(before, now);
      host.SlotValid(host.WatchView(), now, index);
      SlotTakesAll(self, now, c, before, before.slots[index]);
      var msg := Msg(self, now, host.ParticipantsAreReady());
      var deadline := (now + HOUR) % TWO_64;
      BalanceSeen(host.slots[index]);
      var held := host.slots[index].balance;
      var submitted, _ := host.slots[index].SubmitAddLiquidityFor(msg, c.provider, c.amountPerSlot, 0, deadline);
      BalanceSeen(host.slots[index]);
      SubmissionKeepsRoom(before, self, now, index, c, deadline);
      if submitted.Revert? { return Revert(submitted.error); }
      assert host.slots[index].Snapshot() == host.SlotViews()[index];
      var grown: nat := host.slots[index].balance - held;
      takes := Ok(grown);
    }

    /** The market is asked to record the addition. */
    method Ask(now: Uint64, c: Commitment, market: MarketRef, host: LiveRoom, others: set<Address>, a: Answers)
      returns (takes: Result<nat>)
      requires host.Valid(now) && self != host.config.self
      modifies host.slots
      ensures match C.Submit(old(World(host, others)), now, c, market, a)
              case Ok(submitted) => takes == Ok(submitted.0) && World(host, others).rooms == submitted.1
              case Revert(error) =>
                takes == Revert(error) && World(host, others).rooms == old(World(host, others)).rooms
      ensures Books() == old(Books())
      ensures host.Valid(now)
    {
      hide RoomInv, LivePredictionMarket.Snapshot, LiveRoom.SlotViews, LiveRoom.OpenView, LiveRoom.WatchView,
        LiveRoom.DepositsView, Books, SubmitToSlot;
      if market.SlotOf? && market.room == host.config.self && market.index < |host.slots| {
        takes := Submit(now, c, host, market.index);
      } else if market.Other? && market.address in others {
        takes := a.takes;
      } else {
        takes := Revert(UnknownSlot);
      }
    }

    /** The draw is booked, and the money passes through. */
    method Draw(c: Commitment, market: MarketRef, takes: nat)
      requires takes <= c.amountPerSlot
      modifies this
      ensures Take(Funded(Booked(old(Books()), c, market), market, c.amountPerSlot), market, takes) == Ok(Books())
    {
      Book(c, market);
      Fund(market, c.amountPerSlot);
      var r := TransferTo(market, takes);
    }

    /** What the room that the policy names answers about the market. */
    function SlotAnswer(room: Address, market: MarketRef, host: LiveRoom, others: set<Address>,
                        a: Answers): Result<bool>
      reads this, host, host.slots
      ensures SlotAnswer(room, market, host, others, a) == AskRoom(World(host, others), room, market, a)
    {
      if room == host.config.self then
        Ok(market.SlotOf? && market.room == host.config.self && market.index < |host.slots|)
      else if room in others then a.isSlot
      else Revert(UnknownSlot)
    }

    /** What the market answers about its template. */
    function TemplateAnswer(market: MarketRef, host: LiveRoom, others: set<Address>, a: Answers): Result<nat>
      reads this, host, host.slots
      ensures TemplateAnswer(market, host, others, a) == AskTemplate(World(host, others), market, a)
    {
      if market.SlotOf? && market.room == host.config.self && market.index < |host.slots| then
        if market.index < |host.templateOf| then Ok(host.templateOf[market.index]) else Revert(UnknownSlot)
      else if market.Other? && market.address in others then a.template
      else Revert(UnknownSlot)
    }

    /** Draws a policy into a market. The money passes through this contract: it comes
        from the provider, and the market takes as much of it as it does. */
    method Execute(now: Uint64, c: Commitment, signer: Address, funded: bool, market: MarketRef, host: LiveRoom,
                   others: set<Address>, a: Answers)
      returns (r: Result<()>)
      requires host.Valid(now) && self != host.config.self
      modifies this, host.slots
      ensures match Act(old(World(host, others)), ExecuteDeed(now, c, signer, funded, market, a))
              case Ok(world) => r.Ok? && World(host, others) == world
              case Revert(error) => r == Revert(error) && World(host, others) == old(World(host, others))
      ensures host.Valid(now)
    {
      hide RoomInv, LivePredictionMarket.Snapshot, LiveRoom.SlotViews, LiveRoom.OpenView, LiveRoom.WatchView,
        LiveRoom.DepositsView, Books, Validate, Booked, C.Submit, Act, AskRoom, AskTemplate, Take, Funded;
      ghost var before := World(host, others);
      DrawInSteps(before, now, c, signer, funded, market, a);
      var isSlot, template := SlotAnswer(c.room, market, host, others, a), TemplateAnswer(market, host, others, a);
      r := CheckCommitment(now, c, signer, market, isSlot, template);
      if r.Revert? { return; }
      if !funded { return Revert(TransferFailed); }
      var takes := Ask(now, c, market, host, others, a);
      if takes.Revert? { return Revert(takes.error); }
      if takes.value > c.amountPerSlot { return Revert(TransferFailed); }
      Draw(c, market, takes.value);
      return Ok(());
    }

    /** Anyone may release the exposure of a draw once its market says that it is final. */
    method ReleaseExposure(c: Commitment, market: MarketRef, host: LiveRoom, others: set<Address>, a: Answers)
      returns (r: Result<()>)
      modifies this`exposureReleased, this`activeExposure
      ensures match C.ReleaseExposure(old(Books()), c, market, AskFinal(old(World(host, others)), market, a))
              case Ok(books) => r.Ok? && Books() == books
              case Revert(error) => r == Revert(error) && Books() == old(Books())
    {
      hide LivePredictionMarket.Snapshot, LiveRoom.OpenView, LiveRoom.WatchView, LiveRoom.DepositsView,
        LiveRoom.SlotViews;
      var amount := Get(DrawnBy(c), market);
      if amount == 0 { return Revert(NothingToRelease); }
      if market in ReleasedBy(c) { return Revert(NothingToRelease); }
      if market.SlotOf? && market.room == host.config.self && market.index < |host.slots| {
        OutcomeSeen(host.slots[market.index]);
        if host.slots[market.index].finalOutcome == Unset { return Revert(NotSettled); }
      } else if market.Other? && market.address in others {
        if a.final.Revert? { return Revert(a.final.error); }
        if !a.final.value { return Revert(NotSettled); }
      } else {
        return Revert(NotSettled);
      }
      if Get(activeExposure, c) < amount { return Revert(Panic); }
      exposureReleased := exposureReleased[c := ReleasedBy(c) + {market}];
      activeExposure := activeExposure[c := Get(activeExposure, c) - amount];
      return Ok(());
    }

    method Cancel(sender: Address, nonce: nat)
      modifies this`cancelledNonce
      ensures Books() == C.Cancel(old(Books()), sender, nonce)
    {
      cancelledNonce := cancelledNonce + {(sender, nonce)};
    }
  }

  lemma BalanceSeen(m: LivePredictionMarket)
    ensures m.Snapshot().book.purse.held == m.balance
  {
  }

  /** A draw, step by step. */
  lemma DrawInSteps(s: System, now: Uint64, c: Commitment, signer: Address, funded: bool, market: MarketRef, a: Answers)
    ensures
      var isSlot, template := AskRoom(s, c.room, market, a), AskTemplate(s, market, a);
      var r := Act(s, ExecuteDeed(now, c, signer, funded, market, a));
      var checked, submitted := Validate(s.router, now, c, signer, market, isSlot, template),
        C.Submit(s, now, c, market, a);
      if checked.Revert? then r == Revert(checked.error)
      else if !funded then r == Revert(TransferFailed)
      else if submitted.Revert? then r == Revert(submitted.error)
      else if submitted.value.0 > c.amountPerSlot then r == Revert(TransferFailed) && submitted.value.1 == s.rooms
      else
        && var q := Take(Funded(Booked(s.router, c, market), market, c.amountPerSlot), market, submitted.value.0);
        && q.Ok? && r == Ok(s.(router := q.value, rooms := submitted.value.1))
  {
    hide Validate, AskRoom, AskTemplate, Booked, SubmitToSlot;
    if IsPublished(s, market) {
      SlotTakesAll(s.self, now, c, s.rooms[market.room], SlotAt(s, market));
    }
  }

  lemma SubmissionKeepsRoom(r: Room, sender: Address, now: Uint64, slot: nat, c: Commitment, deadline: Uint64)
    requires RoomInv(r, now) && sender != r.config.self && slot < |r.slots|
    ensures
      var msg := Msg(sender, now, ParticipantsReady(r.config, r.deposits));
      var market := S.SubmitAddLiquidityFor(r.slots[slot], msg, c.provider, c.amountPerSlot, 0, deadline);
      market.Ok? ==> RoomInv(r.(slots := r.slots[slot := market.value]), now)
  {
    hide RoomInv, S.SubmitAddLiquidityFor, ParticipantsReady;
    var call := AddLiquidityForCall(c.provider, c.amountPerSlot, 0, deadline);
    if CallSlot(r, sender, now, slot, call).Ok? {
      SlotCallKeeps(r, sender, now, slot, call);
    }
  }
}
