# A verified model of the live prediction markets

The contracts run prediction markets over a live session. A market is a
two-outcome fixed-product pool whose users submit purchases, sales, additions of
liquidity and transfers into a queue grouped by epoch; an epoch executes once the
source gate has cleared it, and its actions are refunded when it never does. After
the decisive event two of three resolvers settle the outcome, with a challenge
path, and positions, shares, fees, rewards and bonds are paid out. A room
publishes many such markets, gates them in batches, holds the participants' bonds
and can be recovered by anyone when its gate goes silent. A router draws signed
liquidity policies into published slots.

## How the project is built

| files | content |
|---|---|
| `Prelude.dfy` | results of calls that may revert, checked arithmetic, finite sums |
| `MarketMath.dfy`, `ClientMath.dfy` | the quotes, and the client's copy of them with its Newton loop |
| `Ledger.dfy`, `LedgerInvariant.dfy`, `FeeBound.dfy` | the money of one market, what every movement keeps, and the fee bound |
| `Market.dfy`, `MarketInvariant.dfy`, `MarketRuns.dfy` | one market as a state machine, its invariant, whole runs |
| `MarketTheorems.dfy`, `Rewards.dfy`, `UserEffects.dfy`, `Settlements.dfy`, `Payouts.dfy`, `Reverts.dfy` | what follows: money, queue and ruling; the winner's pool; what users get, submission by submission and payout by payout; which calls fail on arithmetic |
| `Offers.dfy`, `Execution.dfy` | what the pool offers, written from the reserves, and exactly which submissions execute |
| `Acceptance.dfy`, `Timing.dfy`, `GateHistory.dfy` | exactly which calls a market accepts, its periods counted from the calls that start them, and its gate and votes read off the accepted calls |
| `Histories.dfy`, `RoomHistories.dfy` | concrete runs in which a promise fails |
| `LivePredictionMarket.dfy`, `MarketDriver.dfy` | the market contract as a class over storage fields, and whole runs of calls on it |
| `Room.dfy`, `RoomInvariant.dfy`, `RoomRuns.dfy` | a room over many markets, the same way |
| `RoomTheorems.dfy`, `RoomBonds.dfy`, `RoomReverts.dfy` | what follows for rooms; their bonds; which room calls fail on arithmetic |
| `RoomAcceptance.dfy`, `RoomTiming.dfy` | exactly which calls a room accepts, what they tell its slots and which rules these follow; its stall, watermark, closing and claims counted from the calls |
| `RoomRecovery.dfy`, `Recoverability.dfy` | the recovery of a room without its gate, and exactly when it is possible |
| `LiveRoom.dfy` | the room contract as a class whose slots are market objects |
| `Commitments.dfy`, `Draws.dfy`, `RouterFunds.dfy`, `RoomLiquidityCommitments.dfy` | the router together with the rooms and other contracts it draws into, exactly which draws it accepts, its balance, and the router as a class |

Each contract appears twice. As a state machine it is a value with one function
per external call, which yields the new state or the reason for the revert; the
invariants and the theorems over runs are proved of it. As a class it has the
contract's storage fields, updated step by step by its methods and loops; every
external method is proved to leave the fields as the state machine says, or to
report the same error and change nothing. A revert undoes a call, so the methods
check before they write where the contract writes first and relies on the undo.

Runs are arbitrary sequences of calls by arbitrary senders, with block times that
do not go back; a call that reverts changes nothing. In a room, runs mix calls on
the room with calls on its slots by anybody else, and in the router's system also
draws, releases, cancellations, new rooms, and whatever contracts outside the
factory answer and take.

## What was found

- A claim of liquidity fees can underflow (`contracts/src/LivePredictionMarket.sol:686`):
  entry debts are rounded down, so with three or more additions the providers
  together can be owed more than `unclaimedLpFees`, by at most one base unit per
  addition beyond the second (`MarketTheorems.FeesOwedBound`).
  `Histories.ThirdProviderCannotClaim` is a run in which the third claim reverts, and
  `MarketTheorems.EveryClaimIsPaidIff` says exactly when all claims are paid.
- The router's documentation says that it holds no balance between transactions
  (`contracts/src/RoomLiquidityCommitments.sol:17`). It trusts whatever contract the
  signed policy names as its room (`:131-133`), so that is so exactly as long as every
  market drawn into takes all it is given: always for slots of the factory, hence
  always while every policy drawn names a room of the factory
  (`RouterFunds.BalanceIsUntaken`); `RouterFunds.RouterCanHold` is a draw after which it
  does not hold. The signed caps bound such draws like all others
  (`Commitments.ExposureWithinCaps`).
- A participant who has claimed the integrity bond can post it again, on a market
  (`contracts/src/LivePredictionMarket.sol:367-376`) as in a room
  (`contracts/src/LiveRoom.sol:686-692`): the post is accepted, and can never be claimed:
  `MarketTheorems.RepostedBondIsLocked`, `RoomTheorems.RepostedRoomBondIsLocked`, with runs in
  `Histories.RepostHappens` and `RoomHistories.RoomRepostHappens`.
- Winner rewards collected from a stale epoch after everyone entitled has claimed,
  after a win or a tie, are out of everyone's reach: `Rewards.LateRewardsAreLocked`, with
  a run in `Histories.LateRewardsHappen`. Somebody can claim the pool exactly when there
  is any and an entitled address has not claimed (`Rewards.SomebodyCanClaimIff`).
- Challenge window, challenge timeout, claim timeout and stall timeout are compared with
  a 64-bit time, the first three after a checked addition, and initialization only
  rejects zero. A period that ends past the 64-bit clock strands what waits for it. A
  provisional market can then be neither challenged nor finalized, for ever
  (`Reverts.OverlongWindowStrands`, reached in `Histories.OverlongWindowHappens` and, by a slot
  of a room, in `RoomHistories.StrandedSlotHappens`); such a slot, an open claim past the
  clock, and a stall timeout past the clock each lock bonds
  (`RoomReverts.StrandedSlotLocksRoom`, `RoomReverts.StrandedClaimLocksBond`,
  `Recoverability.OverlongStallStrands`). `Recoverability.RecoverableIff` says exactly which
  reachable rooms can be recovered without a key, and `Recoverability.BondReturnsIff` exactly
  which bonds can come back; a room that is closed, final and without open claims is
  never stranded, however long its periods, and a slot without a result never is, since
  its deadline is truncated to 64 bits. `Reverts.NoUnexpectedReverts` and
  `RoomReverts.NoUnexpectedRoomReverts` say exactly which calls fail on arithmetic.
- The guard `PermitTooOld` (`contracts/src/LiveRoom.sol:437`) can never be the one that
  refuses a permit: `RoomTheorems.PermitPublishesOnce`.

## Model

| member | source | states |
|---|---|---|
| MarketMath.FloorSqrt | contracts/src/MarketMath.sol:50 | the root used by sales is the greatest number whose square is at most the argument |
| MarketMath.CeilSqrt | contracts/src/MarketMath.sol:50 | and its rounded-up form the least number whose square reaches it |
| MarketMath.BuyQuoteSound | contracts/src/MarketMath.sol:29-41 | a purchase with a positive budget never reverts; the budget splits without loss, and the new selected reserve is the least that does not lower the reserve product |
| MarketMath.SellQuoteSound | contracts/src/MarketMath.sol:43-57 | a sale never reverts; the gross collateral is exactly the greatest payout that does not lower the reserve product, and at most the positions sold |
| MarketMath.SplitPurchase | contracts/src/MarketMath.sol:38-40 | buying in two steps never yields more than at once, and at most one unit fewer |
| MarketMath.RoundTrip | contracts/src/MarketMath.sol:29-57 | selling back everything just bought returns at most the trade input |
| MarketMath.ProductNeverFalls | contracts/src/MarketMath.sol:29-57 | over any run of purchases and sales the reserve product does not fall |
| MarketMath.NoArbitrage | contracts/src/MarketMath.sol:29-57 | from positive reserves no run leaves traders with at least as many of both positions and more collateral |
| ClientMath.SqrtFloor | prototype/live-market-app/src/web3/marketMath.js:50-60 | the Newton loop terminates and returns the integer floor root for every input, and throws on negative ones |
| ClientMath.QuoteSell | prototype/live-market-app/src/web3/marketMath.js:62-75 | the client sale quote equals the contract quote in every field |
| ClientMath.PurchaseAgrees | prototype/live-market-app/src/web3/marketMath.js:34-48 | the client purchase quote equals the contract quote in every field, and fails exactly when it does, on every reward rate a market admits |
| LedgerInvariant.ExecuteBuyKeeps | contracts/src/LivePredictionMarket.sol:560-582 | executing a pending purchase never reverts and keeps backing, solvency, fee index, rewards and balance in order, before and after the outcome is known |
| LedgerInvariant.ExecuteSellKeeps | contracts/src/LivePredictionMarket.sol:584-602 | executing a pending sale never reverts and keeps the same in order |
| LedgerInvariant.ExecuteAddLiquidityKeeps | contracts/src/LivePredictionMarket.sol:604-638 | executing a pending addition never reverts and keeps the same in order, including one into a final market that every provider has left |
| LedgerInvariant.RefundKeeps | contracts/src/LivePredictionMarket.sol:640-648 | refunding any pending action never reverts and keeps the same in order |
| LedgerInvariant.DistributeKeeps | contracts/src/LivePredictionMarket.sol:665-673 | a fee raises the index by no more than itself |
| LedgerInvariant.AccrueKeeps | contracts/src/LivePredictionMarket.sol:675-680 | accrual moves earnings from index to credit exactly; a debt never exceeds what has accumulated |
| LedgerInvariant.MintKeeps | contracts/src/LivePredictionMarket.sol:622-627 | new shares enter at a debt rounded down by less than one unit |
| FeeBound.OverdraftBound | contracts/src/LivePredictionMarket.sol:665-690 | what all providers are owed exceeds the fees set aside by at most one unit per executed addition beyond the second |
| FeeBound.EveryoneIsPaidIff | contracts/src/LivePredictionMarket.sol:682-690 | all providers can be paid, in any order, exactly when what they are owed together is at most the fees set aside |
| Histories.ThirdProviderCannotClaim | contracts/src/LivePredictionMarket.sol:682-690 | the fee bound is met: a run of a new market, with three additions, two purchases, all cleared and processed, and two claims, after which the third claim underflows by one unit |
| MarketRuns.ReachableOk | contracts/src/LivePredictionMarket.sol:227-287 | every state that any run of calls by anyone reaches satisfies the whole invariant |
| MarketRuns.RunEvolves | contracts/src/LivePredictionMarket.sol:469-805 | no run rewrites a settled action, a cleared epoch, the closing of the gate, a provisional result or the final outcome |
| MarketTheorems.CompleteSetBacking | contracts/src/LivePredictionMarket.sol:439-467 | until the outcome is known all positions of either outcome, in pool, wallets and escrow, equal the collateral backing |
| MarketTheorems.ReservesStayPositive | contracts/src/LivePredictionMarket.sol:604-638 | while shares are outstanding both reserves are positive; before the outcome a market without shares has no backing and no pending purchases |
| MarketTheorems.Conservation | contracts/src/LivePredictionMarket.sol:361-365 | the balance is exactly the accounted liabilities, escrow exactly the pending purchases and additions, shares exactly what providers hold, and the reward pool what was paid into it until a winner claims |
| MarketTheorems.SettlementNeverFails | contracts/src/LivePredictionMarket.sol:807-841 | after finality, stale epochs included, all remaining positions are covered, and every holder can redeem and every provider settle, in any order |
| MarketTheorems.InvalidMarketRefundsEveryPayer | contracts/src/LivePredictionMarket.sol:867-875 | an invalid market refunds every payer in full in any order, and pays no winner |
| MarketTheorems.FeesOwedBound | contracts/src/LivePredictionMarket.sol:665-690 | the fee bound in every reachable state |
| MarketTheorems.EveryClaimIsPaidIff | contracts/src/LivePredictionMarket.sol:682-690 | when providers claim one after the other, in any order, each is sent all that it is owed exactly when what they are owed together is at most the fees set aside; with at most two executed additions always |
| MarketTheorems.EveryProviderIsPaidIff | contracts/src/LivePredictionMarket.sol:682-690 | when every provider can be paid, in every reachable state; with at most two additions always |
| MarketTheorems.FeeClaimIff | contracts/src/LivePredictionMarket.sol:682-690 | one claim succeeds exactly when something is owed and no more than is set aside |
| MarketTheorems.AdditionsMoveNoFees | contracts/src/LivePredictionMarket.sol:604-638 | additions and settlements leave everyone's fee claim as it was |
| MarketTheorems.QueueProgress | contracts/src/LivePredictionMarket.sol:516-548 | processing an executable or refundable epoch never reverts and moves the cursor by exactly the requested number or to the end |
| MarketTheorems.EveryActionSettles | contracts/test/LivePredictionMarket.t.sol:480-550 | after the pending time of its epoch every action is settled by a call anyone can make, however the market stands |
| MarketTheorems.SettledInOrder | contracts/src/LivePredictionMarket.sol:529-545 | within an epoch an action is pending exactly from the cursor on, in submission order |
| MarketTheorems.ChunkedProcessing | contracts/src/LivePredictionMarket.sol:516-548 | processing in two chunks is processing at once: same state or same error |
| MarketTheorems.DecisiveEventSafety | contracts/src/LivePredictionMarket.sol:705-713 | an executed action belongs to an epoch cleared before the closing epoch and before the decisive sequence |
| MarketTheorems.MarkedSequencesIncrease | contracts/src/LivePredictionMarket.sol:503-514 | each epoch is cleared after it ended and at a sequence above all earlier ones |
| MarketTheorems.FinalOutcomeWrittenOnce | contracts/src/LivePredictionMarket.sol:802-805 | the final outcome is written at most once |
| MarketTheorems.ResolutionIsJustified | contracts/src/LivePredictionMarket.sol:715-805 | a final outcome was attested by two resolvers on the same evidence and stood unchallenged through its window or was upheld by two; otherwise the market is invalid because nothing was provisional by the deadline or a challenge was accepted by two or ran out |
| MarketTheorems.FinalizationIsEnabled | contracts/src/LivePredictionMarket.sol:772-794 | anyone can finalize a closed market exactly when the period it waits for is over, at the latest from the resolution deadline plus both challenge periods on |
| MarketTheorems.TradingIsBonded | contracts/src/LivePredictionMarket.sol:304-307 | whenever anything has been submitted on a market that holds its own bonds, both bonds are posted and held, on top of backing and escrow, and stay so until the outcome is known |
| MarketTheorems.BondClaimIff | contracts/src/LivePredictionMarket.sol:877-889 | exactly when a participant's bond can be claimed, and what claiming and posting move |
| MarketTheorems.RepostedBondIsLocked | contracts/src/LivePredictionMarket.sol:367-376 | after a claim the same participant's next post is accepted, and after any further run no claim of it succeeds |
| Histories.RepostHappens | contracts/src/LivePredictionMarket.sol:367-376 | a run of a new market in which a bond is claimed, posted again and locked |
| Rewards.UnclaimedPool | contracts/src/LivePredictionMarket.sol:560-582 | until somebody claims the winner reward, the pool is nothing or at least 100 units |
| Rewards.RewardClaimIff | contracts/src/LivePredictionMarket.sol:843-865 | whatever the outcome, exactly who can claim the winner reward and what is paid: the last of those entitled takes the pool, one who leaves another behind half of it rounded down |
| Rewards.SomebodyCanClaimIff | contracts/src/LivePredictionMarket.sol:843-865 | somebody can claim the pool exactly when there is any and an entitled address has not claimed |
| Rewards.WinnerTakesPool | contracts/src/LivePredictionMarket.sol:843-865 | exactly when the winner reward can be claimed, that it is the whole pool, and that nobody else gets any |
| Rewards.TieSplitsPool | contracts/src/LivePredictionMarket.sol:851-858 | any pool is split after a tie, half rounded down to the first and all the rest to the second, whatever stale epochs add in between; one address for both takes it all at once |
| Rewards.LateRewardsAreLocked | contracts/src/LivePredictionMarket.sol:843-865 | once everyone entitled has claimed, after a win or a tie, rewards collected later stay out of everyone's reach |
| Histories.LateRewardsHappen | contracts/src/LivePredictionMarket.sol:843-865 | a run of a new market that ends with 10,000 units in the pool after the winner has claimed, which no further run pays to anyone |
| UserEffects.ExecutionHonoursUser | contracts/src/LivePredictionMarket.sol:550-638 | an execution returns at least the submitter's minimum to its beneficiary and changes nobody else's holdings |
| Settlements.HonouredOrUndone | contracts/src/LivePredictionMarket.sol:378-467 | over any run every submission takes exactly its amount and is settled at most once: then its beneficiary received at least the minimum and nobody else's holdings moved, or exactly what it took went back to its user and nothing else moved |
| Execution.ExecutedIff | contracts/src/LivePredictionMarket.sol:516-602 | over every run each submission is recorded in the epoch of its time and, if settled, executed exactly when by then its epoch is cleared and lies before the closing one, its deadline has not passed, and what the pool offers is positive and at least the minimum, or it is a transfer; otherwise it is refunded, never before its epoch is cleared or over |
| Offers.OfferIsExact | contracts/src/LivePredictionMarket.sol:560-638 | what an execution returns, from the reserves and the rates alone: the greatest number of positions, the collateral of the greatest payout less its fee, or the shares in proportion to the larger reserve |
| Offers.FillSharesFee | contracts/src/LivePredictionMarket.sol:665-673 | the fee of every executed purchase or sale reaches every provider in proportion to its shares, within one unit either way, and the backing when there is no provider |
| Offers.FillReshapes | contracts/src/LivePredictionMarket.sol:560-638 | what an execution does to the two reserves, the positions and the shares of the user, on either side |
| Timing.AfterChallenge | contracts/src/LivePredictionMarket.sol:737-786 | from a challenge at some time on, over every run: it can be expired exactly while undecided and from that time plus the timeout on, which returns the bond and invalidates the market; it is never challenged again or finalized as unchallenged |
| Timing.AfterSecondAttestation | contracts/src/LivePredictionMarket.sol:715-778 | the second attestation by another resolver makes the result provisional; from its time on, over every run: it can be finalized exactly from that time plus the window on and challenged exactly until then, and is never final before without a challenge |
| Timing.AfterClosing | contracts/src/LivePredictionMarket.sol:705-794 | from a closing at some time and sequence on, over every run: nothing can be submitted, only earlier epochs are cleared, before that sequence, and half an hour later attesting ends and invalidating begins |
| Timing.ClearedAfterFinality | contracts/src/LivePredictionMarket.sol:503-514 | over every run no epoch is cleared before it has been over for the finality delay |
| GateHistory.StateFollowsCalls | contracts/src/LivePredictionMarket.sol:503-770 | over every run gate, cleared epochs, attestations, verdicts, provisional result and challenge are exactly what the accepted calls said, at their times and sequences |
| Acceptance.AcceptedIff | contracts/src/LivePredictionMarket.sol:361-896 | in every reachable state and at every time exactly which of the 23 calls are accepted, and from whom, written out from rules, state and caller |
| Payouts.RedemptionPaysWorth | contracts/src/LivePredictionMarket.sol:807-817 | in every final state exactly the holders can redeem, and a redemption pays the worth of all positions held, rounded down, and takes them; a pair is worth one unit whatever the outcome |
| Payouts.EveryRedemptionIsPaid | contracts/src/LivePredictionMarket.sol:807-817 | over any run of redemptions, in any order and however often anyone asks, each caller is paid what its positions were worth at the start, nobody else anything, and the total paid out is the total worth redeemed |
| Payouts.SettlementPaysWorth | contracts/src/LivePredictionMarket.sol:819-841 | in every final state exactly the providers can settle, and a settlement burns the shares and pays the worth of their part of both reserves; fees owed stay, and the last provider empties the pool |
| UserEffects.ChallengeBondGoes | contracts/src/LivePredictionMarket.sol:752-800 | the challenge bond goes to the challenger when the challenge is accepted or runs out and to the bond recipient when it is rejected |
| UserEffects.AdditionBarelyDilutes | contracts/src/LivePredictionMarket.sol:604-638 | an addition dilutes the providers before it by less than one unit of either reserve, and not at all in the larger one |
| UserEffects.RestrictedWalletsHoldNothing | contracts/test/MarketSolvency.invariant.t.sol:198-203 | restricted wallets never hold positions, shares, fee credit or fee payments |
| UserEffects.PoolNeverLosesValue | contracts/src/LivePredictionMarket.sol:560-638 | until the outcome is known the reserve product never falls, over any run |
| UserEffects.NoArbitrageOverRuns | contracts/src/LivePredictionMarket.sol:560-638 | until the outcome is known, over any run of a market with reserves, users cannot together take out collateral that was not escrowed, set aside for providers or bonded without being left with fewer positions of an outcome |
| Reverts.NoUnexpectedReverts | contracts/src/LivePredictionMarket.sol:361-896 | no call fails for lack of tokens, and the calls that fail on arithmetic are exactly overdrawn positions, overclaimed fees and challenge periods past the 64-bit clock |
| Reverts.WindowWorksIff | contracts/src/LivePredictionMarket.sol:737-778 | a provisional result can be finalized at some time exactly when its window ends within the 64-bit clock, and challenged exactly when that end is also still to come |
| Reverts.TimeoutWorksIff | contracts/src/LivePredictionMarket.sol:780-786 | a challenge can be expired at some time exactly when its timeout ends within the 64-bit clock |
| Reverts.OverlongWindowStrands | contracts/src/LivePredictionMarket.sol:772-778 | a provisional result whose window ends past the clock is never challenged and never final, and nothing on that market is ever paid out, over any run |
| Histories.OverlongWindowHappens | contracts/src/LivePredictionMarket.sol:227-287 | such a market is accepted and reached: with the longest window two attestations in its first second strand it for ever |
| LivePredictionMarketContract.LivePredictionMarket.constructor | contracts/src/LivePredictionMarket.sol:227-287 | a new contract is the initial state and satisfies the invariant |
| LivePredictionMarketContract.LivePredictionMarket.AccountedLiabilities | contracts/src/LivePredictionMarket.sol:361-365 | the view sums what the market owes, which in every valid state is the token balance |
| LivePredictionMarketContract.LivePredictionMarket.PostIntegrityBond | contracts/src/LivePredictionMarket.sol:367-376 | takes effect exactly as the state machine says, or reverts with its error and changes nothing, and keeps the invariant: takes a bond from a participant who has none posted |
| LivePredictionMarketContract.LivePredictionMarket.SubmitBuy | contracts/src/LivePredictionMarket.sol:378-388 | takes effect exactly as the state machine says, or reverts with its error and changes nothing, and keeps the invariant: escrows the budget and records a purchase, whose number it returns |
| LivePredictionMarketContract.LivePredictionMarket.SubmitAddLiquidity | contracts/src/LivePredictionMarket.sol:390-398 | takes effect exactly as the state machine says, or reverts with its error and changes nothing, and keeps the invariant: escrows the amount and records an addition, whose number it returns |
| LivePredictionMarketContract.LivePredictionMarket.SubmitAddLiquidityFor | contracts/src/LivePredictionMarket.sol:404-413 | takes effect exactly as the state machine says, or reverts with its error and changes nothing, and keeps the invariant: only the router may, and the addition belongs to the provider |
| LivePredictionMarketContract.LivePredictionMarket.SubmitSell | contracts/src/LivePredictionMarket.sol:439-452 | takes effect exactly as the state machine says, or reverts with its error and changes nothing, and keeps the invariant: takes the positions and records a sale, whose number it returns |
| LivePredictionMarketContract.LivePredictionMarket.SubmitPositionTransfer | contracts/src/LivePredictionMarket.sol:454-467 | takes effect exactly as the state machine says, or reverts with its error and changes nothing, and keeps the invariant: takes the positions and records a transfer, whose number it returns |
| LivePredictionMarketContract.LivePredictionMarket.MarkEpochSafe | contracts/src/LivePredictionMarket.sol:503-514 | takes effect exactly as the state machine says, or reverts with its error and changes nothing, and keeps the invariant: clears an ended epoch at a sequence past the watermark, before the decisive one once closed |
| LivePredictionMarketContract.LivePredictionMarket.ProcessEpoch | contracts/src/LivePredictionMarket.sol:516-548 | takes effect exactly as the state machine says, or reverts with its error and changes nothing, and keeps the invariant: the loop settles exactly the promised number of actions one after the other |
| LivePredictionMarketContract.LivePredictionMarket.TryExecute | contracts/src/LivePredictionMarket.sol:550-558 | the in-place execution of an action changes the accounts as the ledger says, or leaves them when it is not filled |
| LivePredictionMarketContract.LivePredictionMarket.ExecuteBuy | contracts/src/LivePredictionMarket.sol:560-582 | the in-place purchase changes the accounts as the ledger says, or leaves them when it is not filled |
| LivePredictionMarketContract.LivePredictionMarket.ExecuteSell | contracts/src/LivePredictionMarket.sol:584-602 | the in-place sale changes the accounts as the ledger says, or leaves them when it is not filled |
| LivePredictionMarketContract.LivePredictionMarket.ExecuteAddLiquidity | contracts/src/LivePredictionMarket.sol:604-638 | the in-place addition changes the accounts as the ledger says, or leaves them when it is not filled |
| LivePredictionMarketContract.LivePredictionMarket.Refund | contracts/src/LivePredictionMarket.sol:640-648 | the in-place refund changes the accounts as the ledger says |
| LivePredictionMarketContract.LivePredictionMarket.ShareFee | contracts/src/LivePredictionMarket.sol:665-673 | the in-place sharing of a fee changes index, set-aside fees or backing as the ledger says |
| LivePredictionMarketContract.LivePredictionMarket.Accrue | contracts/src/LivePredictionMarket.sol:675-680 | the in-place accrual moves a provider's earnings to the credit as the ledger says |
| LivePredictionMarketContract.LivePredictionMarket.ClaimLpFees | contracts/src/LivePredictionMarket.sol:682-690 | takes effect exactly as the state machine says, or reverts with its error and changes nothing, and keeps the invariant: accrues and pays out the whole credit, and underflows exactly when more is owed than set aside |
| LivePredictionMarketContract.LivePredictionMarket.SuspendGate | contracts/src/LivePredictionMarket.sol:692-696 | takes effect exactly as the state machine says, or reverts with its error and changes nothing, and keeps the invariant: only the gate may, on an open market, not behind the watermark |
| LivePredictionMarketContract.LivePredictionMarket.ReopenGate | contracts/src/LivePredictionMarket.sol:698-703 | takes effect exactly as the state machine says, or reverts with its error and changes nothing, and keeps the invariant: only the gate may, on a suspended market, past the watermark, which it raises |
| LivePredictionMarketContract.LivePredictionMarket.CloseForDecisiveEvent | contracts/src/LivePredictionMarket.sol:705-713 | takes effect exactly as the state machine says, or reverts with its error and changes nothing, and keeps the invariant: only the gate may, past the watermark; the resolution deadline is truncated to 64 bits |
| LivePredictionMarketContract.LivePredictionMarket.AttestResult | contracts/src/LivePredictionMarket.sol:715-735 | takes effect exactly as the state machine says, or reverts with its error and changes nothing, and keeps the invariant: counts a resolver's attestation, the second of which makes the result provisional |
| LivePredictionMarketContract.LivePredictionMarket.ChallengeResult | contracts/src/LivePredictionMarket.sol:737-750 | takes effect exactly as the state machine says, or reverts with its error and changes nothing, and keeps the invariant: takes the bond of the one challenge, within the window |
| LivePredictionMarketContract.LivePredictionMarket.AttestChallengeVerdict | contracts/src/LivePredictionMarket.sol:752-770 | takes effect exactly as the state machine says, or reverts with its error and changes nothing, and keeps the invariant: counts a resolver's verdict, the second of which decides and pays the bond out |
| LivePredictionMarketContract.LivePredictionMarket.FinalizeUnchallenged | contracts/src/LivePredictionMarket.sol:772-778 | takes effect exactly as the state machine says, or reverts with its error and changes nothing, and keeps the invariant: anyone may, after the window of an unchallenged result |
| LivePredictionMarketContract.LivePredictionMarket.ExpireChallenge | contracts/src/LivePredictionMarket.sol:780-786 | takes effect exactly as the state machine says, or reverts with its error and changes nothing, and keeps the invariant: anyone may, after the timeout; the bond goes back and the market is invalid |
| LivePredictionMarketContract.LivePredictionMarket.InvalidateUnresolved | contracts/src/LivePredictionMarket.sol:788-794 | takes effect exactly as the state machine says, or reverts with its error and changes nothing, and keeps the invariant: anyone may, after the deadline of a closed market without a result |
| LivePredictionMarketContract.LivePredictionMarket.RedeemPositions | contracts/src/LivePredictionMarket.sol:807-817 | takes effect exactly as the state machine says, or reverts with its error and changes nothing, and keeps the invariant: pays the resolved value of all positions held |
| LivePredictionMarketContract.LivePredictionMarket.SettleLpInventory | contracts/src/LivePredictionMarket.sol:819-841 | takes effect exactly as the state machine says, or reverts with its error and changes nothing, and keeps the invariant: burns the shares and pays the resolved value of their part of the reserves |
| LivePredictionMarketContract.LivePredictionMarket.ClaimWinnerReward | contracts/src/LivePredictionMarket.sol:843-865 | takes effect exactly as the state machine says, or reverts with its error and changes nothing, and keeps the invariant: pays the pool to the winner, or half or the rest of it after a tie |
| LivePredictionMarketContract.LivePredictionMarket.ClaimInvalidWinnerFeeRefund | contracts/src/LivePredictionMarket.sol:867-875 | takes effect exactly as the state machine says, or reverts with its error and changes nothing, and keeps the invariant: pays back what the caller paid into the pool of an invalid market |
| LivePredictionMarketContract.LivePredictionMarket.ClaimIntegrityBond | contracts/src/LivePredictionMarket.sol:877-889 | takes effect exactly as the state machine says, or reverts with its error and changes nothing, and keeps the invariant: pays back a posted bond once, after finality |
| MarketDriver.Perform | contracts/src/LivePredictionMarket.sol:361-896 | any external call does to the market object what it does to the state machine |
| MarketDriver.Replay | contracts/src/LivePredictionMarket.sol:361-896 | a chronological sequence of calls on the object leaves it in the state that the run of the state machine reaches |
| MarketDriver.Deploy | contracts/src/LivePredictionMarket.sol:227-287 | a new contract followed by any such sequence is in the state that the theorems over runs speak of |
| RoomInvariant.GateUntouched | contracts/src/LivePredictionMarket.sol:503-514 | no call but the room's moves a slot's gate |
| RoomInvariant.RemoveOpenOk | contracts/src/LiveRoom.sol:661-673 | swap-and-pop keeps list and positions inverse and takes out exactly one slot |
| RoomInvariant.CallEachOk | contracts/src/LiveRoom.sol:519-538 | a batch is undone only by an unknown slot; otherwise it keeps every slot sound and opens or closes none |
| RoomInvariant.CloseEachOk | contracts/src/LiveRoom.sol:623-633 | closing a list is undone only by an unknown slot, keeps slots and index sound, moves nothing but gates, and past all watermarks skips no slot |
| RoomInvariant.ApplyRoomKeeps | contracts/src/LiveRoom.sol:370-784 | every call on the room, or on a slot by anyone else, keeps the room's invariant |
| RoomRuns.RunRoomEvolves | contracts/src/LiveRoom.sol:149-168 | no run of a room lowers its watermark, reopens it, frees a nonce or rewrites a slot's history |
| RoomRuns.RoomReachable | contracts/src/LiveRoom.sol:230-284 | every state that any run of a room reaches satisfies its invariant |
| RoomTheorems.WatermarkDominance | contracts/src/LiveRoom.sol:507-538 | no slot is ahead of the room's watermark, and once the room is closed every slot is below the closing sequence |
| RoomTheorems.RoomClosesOnce | contracts/src/LiveRoom.sol:589-615 | a closed room stays closed at the same sequence and time, with the same slots, and refuses every gate action |
| RoomTheorems.CloseRemainingSkipsNothing | contracts/src/LiveRoom.sol:617-633 | in a closed room a batch of up to 16 known slots is accepted and leaves every one of them closed |
| RoomTheorems.OpenIndexIsExact | contracts/src/LiveRoom.sol:661-673 | list and positions are inverse, without duplicates, hold exactly the published slots that are not closed, and no more than the maximum |
| RoomTheorems.SuspensionReachesEverySlot | contracts/src/LiveRoom.sol:540-549 | exactly when a suspension is accepted, and that it suspends every open slot and changes nothing else |
| RoomTheorems.ReopeningIsExact | contracts/src/LiveRoom.sol:551-560 | a reopening reopens exactly the suspended slots whose watermark is below its sequence |
| RoomTheorems.PermitPublishesOnce | contracts/src/LiveRoom.sol:370-454 | publication needs the publisher and a fresh permit signed by the gate for this very request, and adds one open slot of an approved template at its frozen reward, the headline first and others only while it has liquidity; a nonce works once; no permit is refused for its age alone |
| RoomAcceptance.PublicationIs | contracts/src/LiveRoom.sol:370-412 | a publication adds one fresh open slot; over every further run it keeps the template of the request and its opening time after the announced delay, and exactly the listed wallets and the officers may not trade on it |
| RoomAcceptance.SlotsFollowRoom | contracts/src/LiveRoom.sol:456-505 | every slot of every reachable room has the room's rules, each in its place, the reward of its template, and the room's officers barred |
| RoomAcceptance.RoomAcceptedIff | contracts/src/LiveRoom.sol:370-784 | in every reachable room and at every time exactly which calls are accepted, and from whom, written out from rules, state and caller |
| RoomAcceptance.BatchReachesSlots | contracts/src/LiveRoom.sol:519-659 | an accepted batch reaches every slot with exactly the calls listed for it, in their order, and changes nothing else about the room but the gate's watermark and clock |
| RoomTiming.StallClosesIff | contracts/src/LiveRoom.sol:604-615 | over every run anyone can close an open room for a stall exactly from the stall timeout after the last accepted gate action on, or after its creation |
| RoomTiming.GateActionHoldsStall | contracts/src/LiveRoom.sol:507-515 | after an accepted gate action no stall close is accepted before the timeout has run from it, whatever happens in between |
| RoomTiming.WatermarkIs | contracts/src/LiveRoom.sol:507-515 | the watermark of every reachable room is exactly what its gate said last, and no accepted call takes it back |
| RoomTiming.AfterRoomClosing | contracts/src/LiveRoom.sol:589-615 | from a closing at some time on, over every run: exactly at which sequence the room is closed, that claims can be filed exactly until the claim window from that time is over, and that no bond is claimed before |
| RoomTiming.AfterClaim | contracts/src/LiveRoom.sol:724-784 | from the filing of a claim at some time on, over every run: while it is open the adjudicator can decide it exactly until its timeout from that time, within the clock, and anyone can expire it exactly from then on |
| RoomTheorems.RoomBalance | contracts/src/LiveRoom.sol:686-784 | the balance is the posted bonds plus 10 USDC per open claim, and open claims are counted exactly |
| RoomTheorems.RoomBondClaimIff | contracts/src/LiveRoom.sol:698-719 | exactly when a participant's bond can be claimed |
| RoomBonds.ClaimBondsGo | contracts/src/LiveRoom.sol:751-784 | in every reachable room exactly when a claim can be decided or expires, who receives the two bonds then, and that nobody else is paid |
| RoomBonds.BondLeavesOnly | contracts/src/LiveRoom.sol:686-784 | over any run a posted bond leaves the room only by its participant's claim of it or by an integrity claim upheld since |
| RoomTheorems.RepostedRoomBondIsLocked | contracts/src/LiveRoom.sol:686-692 | after a claim the same participant's next post is accepted, and after any further run no claim of it succeeds |
| RoomReverts.NoUnexpectedRoomReverts | contracts/src/LiveRoom.sol:370-784 | no call on the room or on a slot fails for lack of tokens, and the calls that fail on arithmetic are exactly an opening time or a claim timeout past the 64-bit clock, an unknown claim, and what fails on a slot by itself |
| Recoverability.RecoverableIff | contracts/src/LiveRoom.sol:597-633 | a reachable room can be recovered without a key exactly when it is closed or its gate times out within the 64-bit clock, and so do the challenge period of each slot with a result that is not final and the timeout of every open claim; anyone then does it with open calls that all succeed, and otherwise no calls of accounts without a key do |
| Recoverability.BondReturnsIff | contracts/src/LiveRoom.sol:698-719 | a posted, never claimed bond can come back without a key exactly when the claim window ends within the clock, counted from the closing or the earliest possible one, every slot can finish and every open claim against that participant can expire |
| Recoverability.OverlongStallStrands | contracts/src/LiveRoom.sol:604-615 | with a stall timeout past the clock, which initialization accepts, a posted bond is locked and the room open after any run of accounts without a key |
| RoomReverts.StrandedSlotLocksRoom | contracts/src/LiveRoom.sol:698-719 | one slot whose window ends past the clock keeps the room from ever paying a bond back |
| RoomReverts.StrandedClaimLocksBond | contracts/src/LiveRoom.sol:751-784 | an open claim whose timeout ends past the clock is never decided and never expires, and its participant's bond is never paid back |
| RoomReverts.StrandedClaimHappens | contracts/src/LiveRoom.sol:724-749 | three calls that anyone and the participant can make bring such a claim about |
| RoomHistories.StrandedSlotHappens | contracts/src/LiveRoom.sol:370-412 | a run of accepted calls from a new room that publishes, closes and rules on a slot whose window ends past the clock, and locks both bonds for ever |
| RoomHistories.RoomRepostHappens | contracts/src/LiveRoom.sol:686-719 | in every room whose periods leave time for it, a run of accepted calls in which a bond is claimed, posted again and locked |
| RoomRecovery.NeverStuck | contracts/src/LiveRoom.sol:597-633 | from every reachable state anyone can, with permissionless calls that all succeed, close the room and every slot in batches of at most 16, finalize every slot, expire every claim and so free every posted, never claimed bond |
| RoomRecovery.BatchesClose | contracts/src/LiveRoom.sol:617-633 | the batches close every slot of a closed room and change nothing but gates |
| RoomRecovery.SlotsFinish | contracts/src/LivePredictionMarket.sol:772-794 | anyone can finalize all overdue slots |
| RoomRecovery.ClaimsExpire | contracts/src/LiveRoom.sol:776-784 | anyone can expire all timed-out claims, which frees no bond and takes none |
| LiveRoomContract.LiveRoom.constructor | contracts/src/LiveRoom.sol:230-284 | a new room is the initial state and satisfies the invariant |
| LiveRoomContract.LiveRoom.PublishSlot | contracts/src/LiveRoom.sol:370-412 | takes effect on room and slots exactly as the state machine says, or reverts with its error and changes nothing, and keeps the invariant: consumes the permit, raises the watermark and deploys a new market contract as an open slot |
| LiveRoomContract.LiveRoom.MarkRoomEpochsSafe | contracts/src/LiveRoom.sol:519-538 | takes effect on room and slots exactly as the state machine says, or reverts with its error and changes nothing, and keeps the invariant: clears an epoch on each listed slot, skipping those that refuse |
| LiveRoomContract.LiveRoom.SuspendRoom | contracts/src/LiveRoom.sol:540-549 | takes effect on room and slots exactly as the state machine says, or reverts with its error and changes nothing, and keeps the invariant: suspends the open slots one after the other |
| LiveRoomContract.LiveRoom.ReopenRoom | contracts/src/LiveRoom.sol:551-560 | takes effect on room and slots exactly as the state machine says, or reverts with its error and changes nothing, and keeps the invariant: reopens the open slots one after the other |
| LiveRoomContract.LiveRoom.CloseSlots | contracts/src/LiveRoom.sol:564-569 | takes effect on room and slots exactly as the state machine says, or reverts with its error and changes nothing, and keeps the invariant: closes the listed slots and takes them off the open list |
| LiveRoomContract.LiveRoom.CloseRoom | contracts/src/LiveRoom.sol:589-595 | takes effect on room and slots exactly as the state machine says, or reverts with its error and changes nothing, and keeps the invariant: closes the room past its watermark |
| LiveRoomContract.LiveRoom.CloseRoomOnGateStall | contracts/src/LiveRoom.sol:604-615 | takes effect on room and slots exactly as the state machine says, or reverts with its error and changes nothing, and keeps the invariant: lets anyone close a room whose gate has been silent for the stall timeout |
| LiveRoomContract.LiveRoom.CloseRemainingSlots | contracts/src/LiveRoom.sol:617-621 | takes effect on room and slots exactly as the state machine says, or reverts with its error and changes nothing, and keeps the invariant: lets anyone close slots of a closed room |
| LiveRoomContract.LiveRoom.CloseEach | contracts/src/LiveRoom.sol:623-633 | the loop closes and unlists slot after slot as the state machine does, skipping those that refuse |
| LiveRoomContract.LiveRoom.ProcessRoom | contracts/src/LiveRoom.sol:641-659 | takes effect on room and slots exactly as the state machine says, or reverts with its error and changes nothing, and keeps the invariant: processes an epoch on each listed slot, skipping those that refuse |
| LiveRoomContract.LiveRoom.RemoveOpenSlot | contracts/src/LiveRoom.sol:661-673 | the in-place swap-and-pop leaves list and positions as the state machine says |
| LiveRoomContract.LiveRoom.PostIntegrityBond | contracts/src/LiveRoom.sol:686-692 | takes a participant's bond into the deposits exactly as the state machine says, or reverts with its error, and keeps the invariant |
| LiveRoomContract.LiveRoom.ClaimIntegrityBond | contracts/src/LiveRoom.sol:698-719 | looks at every slot's outcome in turn and pays the bond exactly as the state machine says, or reverts with its error, and keeps the invariant |
| LiveRoomContract.LiveRoom.FileIntegrityClaim | contracts/src/LiveRoom.sol:724-749 | records a bonded claim, whose number it returns, exactly as the state machine says, or reverts with its error, and keeps the invariant |
| LiveRoomContract.LiveRoom.AdjudicateIntegrityClaim | contracts/src/LiveRoom.sol:751-771 | decides a claim and pays both bonds out exactly as the state machine says, or reverts with its error, and keeps the invariant |
| LiveRoomContract.LiveRoom.ExpireIntegrityClaim | contracts/src/LiveRoom.sol:776-784 | returns the bond of an unadjudicated claim exactly as the state machine says, or reverts with its error, and keeps the invariant |
| Commitments.ExposureWithinCaps | contracts/src/RoomLiquidityCommitments.sol:99-158 | over any run of draws, through rooms of the factory or any other contract, releases, cancellations, later pulls, new rooms and room events: total and exposure are the sums over drawn and unreleased markets, within the signed caps, each for the signed amount; a policy of a factory room has drawn into its published slots alone, and every factory slot drawn has a template the policy allows |
| Commitments.SlotsWithinCaps | contracts/src/RoomLiquidityCommitments.sol:142-143 | the caps in numbers of markets, drawn and unreleased; every drawn slot that is not final still counts |
| Commitments.DrawReachesSlot | contracts/src/RoomLiquidityCommitments.sol:99-119 | a draw into a slot of the factory, through whatever room, puts exactly the signed amount into it as the provider's pending addition, on any terms and good for one hour, leaves none in the router, and the addition is still the provider's after any further run |
| Draws.DrawIff | contracts/src/RoomLiquidityCommitments.sol:99-144 | after any run exactly which draws are accepted: terms, expiry, signature, no cancellation, money, not drawn before, the room named lists it, an allowed template, both caps on what the markets say was drawn, and the market accepts the addition; and that a draw books nothing else |
| Commitments.DrawnOnce | contracts/src/RoomLiquidityCommitments.sol:128 | a policy draws a market at most once, whatever happens in between |
| Commitments.CancelIsFinal | contracts/src/RoomLiquidityCommitments.sol:162-165 | after a cancellation no policy with that nonce ever draws again |
| Commitments.ReleaseIff | contracts/src/RoomLiquidityCommitments.sol:149-158 | exposure is released exactly once per drawn market, exactly when the market says it is final, no room being asked, and frees exactly the drawn amount |
| RouterFunds.BalanceIsUntaken | contracts/src/RoomLiquidityCommitments.sol:111-117 | over any such run the router holds exactly what the markets drawn into have left untaken; slots of the factory leave nothing, so it holds nothing exactly when every drawn market took all of it, in particular while every policy drawn names a room of the factory |
| RouterFunds.PullIff | contracts/src/RoomLiquidityCommitments.sol:115 | a market outside the factory can later take what its allowance covers, and nothing more |
| RouterFunds.RouterCanHold | contracts/src/RoomLiquidityCommitments.sol:131-133 | a draw that the router accepts through contracts outside the factory and after which it holds the whole amount, until the market takes it |
| RoomLiquidityCommitmentsContract.RoomLiquidityCommitments.constructor | contracts/src/RoomLiquidityCommitments.sol:66-69 | a new router has empty books |
| RoomLiquidityCommitmentsContract.RoomLiquidityCommitments.CheckCommitment | contracts/src/RoomLiquidityCommitments.sol:121-144 | whatever the room named and the market answer, the draws accepted and the first fault named are those of the state machine; the loop finds the template among the allowed ones |
| RoomLiquidityCommitmentsContract.RoomLiquidityCommitments.Execute | contracts/src/RoomLiquidityCommitments.sol:99-119 | draws into router and slots, or into a market outside the factory, exactly as the state machine says, or reverts with its error and changes neither, and keeps the room's invariant |
| RoomLiquidityCommitmentsContract.RoomLiquidityCommitments.ReleaseExposure | contracts/src/RoomLiquidityCommitments.sol:149-158 | releases a draw exactly as the state machine says, or reverts with its error and changes nothing |
| RoomLiquidityCommitmentsContract.RoomLiquidityCommitments.Cancel | contracts/src/RoomLiquidityCommitments.sol:162-165 | marks the caller's nonce as cancelled and changes nothing else |

## Left out

- Signatures, EIP-712 encoding and hashing: a permit or policy carries the address that signed it, and a hash is the value hashed.
- ERC-20 internals: transfers are exact, nobody donates tokens, and users' own balances and allowances are not modelled; whether a provider is funded is a parameter of a draw.
- Transfers whose recipient is the contract itself (a bond recipient, provider or reward address equal to the market's or the room's own address): the model takes what is sent out of the balance, so the balance equalities do not speak of such configurations.
- Gas: stipends, gas shares and `InsufficientGas`; a child call succeeds exactly when its guards hold, and changes nothing when they do not.
- `LiveMarketFactory` and clone addresses: a slot is known by its number in its room; `createMarket` is the creation of a market with any configuration.
- The 32-bit truncation of slot numbers, and overflow of 256-bit sums and products.
- Block times are 64-bit numbers, so the casts of `block.timestamp` are exact.
- Reentrancy guards and access-control storage: roles are addresses in the frozen configuration, and calls do not nest. What a contract outside the factory calls back while the router asks it is a later step of the run: the router has booked the draw before it asks.
- Events, names, questions and links, and views that only read one field or wrap a quote.
- `Math.mulDiv` and `Math.sqrt` of OpenZeppelin: modelled by their exact floors and ceilings rather than by their algorithms.
- `spotPriceA`, `fromUsdc` and `toUsdc`: display only.
- Duplicate entries in a room's list of templates: the configuration is a map, so it holds the last entry for each template.
- ClientMath.PurchaseAgrees: stated for the reward rates a market admits; above them the contract can revert where the client returns a negative trade input.
- RoomLiquidityCommitmentsContract.RoomLiquidityCommitments.Execute: one room of the factory is an object; any other contract, another room included, is its answers, which are parameters. Runs over many rooms are those of `Commitments.Act`.
- The application around the client quotes: wallet, router, network and user interface.
