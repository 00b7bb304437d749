# Sakura Perps: verified model

This project models the parts of Sakura Perps on which its solvency rests, and proves what they promise over
every input and every run:

- **Wide arithmetic** (`WideMath`): 256-bit products and shift-subtract division behind every fixed-point operation.
- **Positions, settlement and pricing** (`Position`, `Settlement`, `Pricing`): valuation, liquidation, payouts and
  fees, and the chain from an oracle quote to an exit price.
- **Accrual** (`Funding`, `Accrual`, `AccrualSteps`, `AccrualRuns`, `AccrualTimelines`, `AccrualLife`): one
  utilisation integral consumed by many markets, under clocks that may go backwards. `Pool` and `Market` are the
  accounts, updated in place; `AccrualSteps` is about one settlement on every path, legacy books included;
  `AccrualRuns` is about whole histories, `AccrualTimelines` about histories whose books and rates change,
  `AccrualLife` about markets from their creation on and why the rate ceilings keep them chargeable.
- **Liquidity** (`LpLedger`, `LpProgram`): deposits, requests, cancellations and withdrawals against tracked equity,
  with share tokens also sent and burned outside the program.
- **Risk rooms** (`RoomModel`, `RoomSets`, `RoomKernel`, `RoomInvariant`, `RoomRuns`, `RoomCommands`, `RoomHistory`,
  `RoomTerms`, `RoomOwnership`, `RoomAuthority`, `RoomObject`): the thirteen commands of the kernel as functions, the
  invariant that makes its runtime reconciliation redundant, exactly when each command is accepted and what it then
  moves, theorems over reachable rooms and their transcripts, who may author each record, and the room as the mutable
  object callers hold.
- **Wire format and gateway** (`Codec`, `Wire`, `WireReference`, `WireSizes`, `Gateway`, `GatewayRuns`, `GatewayFits`,
  `GatewayAdmission`, `GatewayObject`): canonical Borsh codecs built from combinators, compared with a direct
  reference layout and measured, and the authenticated gateway over them, with exactly which envelopes it admits.
- **Keeper** (`Journal`, `JournalSteps`, `JournalRuns`, `JournalObject`, `KeeperRuns`, `Scan`): the durable spending
  journal under crashes and failed writes, the loop that reconciles before it sends, and the circular scan of the
  book.

Conventions. Machine integers are subset types of `int` with their exact range, so every checked operation of the
source is an explicit `Result`. An ordered set is the strictly ascending sequence it iterates. Functions named after
an operation give its specification; where the source updates state in place, a class carries the same fields and
its methods are proved equal to those functions on every input, errors included. Clocks, oracle quotes, RPC answers
and storage failures are parameters.

SHA-256 (FIPS 180-4), Ed25519 strict verification (RFC 8032, section 5.1.7) and the prime-order key test are function
parameters of the gateway (`Gateway.Protocol`); nothing is assumed of them. Results that would need collision
resistance instead exhibit the collision.

## Findings

- `journal.ts` stops spending after an overrun "until an operator investigates". The latch is forgotten when the
  settlement that sets it could not be written and the process then restarts: the reservation is pending again with
  the latch unset. If by then the cluster no longer knows the transaction, `pending.ts` settles it at exactly its
  reservation, no overrun shows, and the keeper sends again. `KeeperRuns.LatchCanBeLost` is such a run of the loop, with
  reconciliation before every send and reservations as `reserveCost` measures them, and
  `KeeperRuns.LatchHoldsIffWritten` gives the exact condition: the keeper has stopped for good if and only if the latch
  reached the file. A restarted keeper that still meets the finalized receipt sends nothing in that tick, and once that
  tick's settlements are written it has stopped for good: `KeeperRuns.ReceiptStopsTheKeeper`.
- `cancel_withdraw` exists so that a request is never "a trap". It is one when the escrow holds more than the request
  recorded, which any holder of a share can bring about by a plain token transfer to the escrow account: cancelling
  insists on the exact balance, withdrawing burns the recorded shares and then closes an account that is not empty, and
  `close_stale_escrow` wants no open request. `LpLedger.StrandedIffOverfull` gives the exact condition over every later
  run, `LpLedger.OneShareStrands` that one share suffices for any pending request, and `LpLedger.StrandingIsReachable` a
  run from an empty pool.
- The room's reconciliation after every command, and the closing assertions of a liquidity withdrawal, can never
  refuse: `RoomRuns.ReconciliationIsRedundant` and `LpLedger.WithdrawSucceedsIff`, by which a withdrawal succeeds if and
  only if it is admitted, priced and its escrow holds exactly what the request recorded.
- The journal's hourly and daily limits hold while the cluster clock does not run backwards between ticks
  (`JournalRuns.HourlyLimitHolds`, `JournalRuns.DailyBudgetHolds`) and can be exceeded when it does:
  `KeeperRuns.BackwardsClockBreaksHourly` and `KeeperRuns.BackwardsClockBreaksDaily` are runs.
- Between the price `liquidation_price` returns and the price at which `is_liquidatable` changes its answer lies the
  rounding of equity and requirement to micro-dollars: `Position.LiquidationPriceSplitsExactly` places the unrounded
  threshold exactly, `Position.LiquidationPriceBrackets` bounds the rounded one by three micro-dollars, and
  `Position.LiquidationGapIsInhabited` gives a long and a short that are liquidatable on the safe side of their price.

## Model

| member | source | states |
|---|---|---|
| WideMath.MulWide | crates/risk/src/math.rs:33-52 | the two words returned are the exact 256-bit product |
| WideMath.CmpProducts | crates/risk/src/math.rs:63-65 | compares two products exactly, whatever their width |
| WideMath.DivWide | crates/risk/src/math.rs:71-100 | dividend = quotient × divisor + remainder with remainder below the divisor; errors exactly on a zero divisor or a quotient of more than 128 bits |
| WideMath.MulDivFloor | crates/risk/src/math.rs:106-116 | ⌊ab/c⌋ for all inputs on both paths; fails exactly when c = 0 or the result needs more than 128 bits |
| WideMath.MulDivCeil | crates/risk/src/math.rs:122-143 | ⌈ab/c⌉ likewise |
| WideMath.MulDivI128 | crates/risk/src/math.rs:163-188 | ab/c truncated toward zero for all signed inputs, the least value included |
| WideMath.UnsignedAbs | crates/risk/src/math.rs:192-199 | the magnitude, also of the least value, which has no signed counterpart |
| WideMath.MulDivExact | crates/risk/src/math.rs:106-143 | each rounded result brackets the exact quotient to within one, and is missing exactly when it does not fit |
| Position.SixDecimalsIsIdentity | crates/risk/src/scale.rs:94-106 | six-decimal collateral converts to quote units without change in both directions |
| Position.QuoteExact | crates/risk/src/scale.rs:94-106 | at every scale the conversions are the floor and the ceiling of the exact units, and missing exactly when those need more than 128 bits |
| Position.NotionalExact | crates/risk/src/position.rs:21-53 | a notional is the ceiling of size × price over 10^(decimals + 4), for assets of up to thirty-four decimals |
| Position.PnlIsFloorOfMove | crates/risk/src/position.rs:66-111 | gains rounded down and losses rounded up are together the floor of the signed move; fails exactly outside the signed range |
| Position.PnlMonotone | crates/risk/src/position.rs:66-111 | floored profit and loss never falls as the price moves in the position's favour |
| Position.EquityExact | crates/risk/src/position.rs:118-132 | collateral plus profit less both debts, and it exists exactly while no partial sum leaves the signed range |
| Position.VerdictExact | crates/risk/src/position.rs:33-158 | liquidatable if and only if collateral plus the floored move is at most the twice-rounded requirement, ties included, with the exact condition for there being a verdict |
| Position.UnderwaterIsLiquidatable | crates/risk/src/position.rs:118-158 | an account short of its unrounded requirement is always found liquidatable |
| Position.SolventIsNotLiquidatable | crates/risk/src/position.rs:118-158 | an unrounded surplus of three micro-dollars is never found liquidatable |
| Position.LiquidationPriceSplitsExactly | crates/risk/src/position.rs:215-273 | a price is strictly beyond the returned one if and only if the unrounded surplus is negative there; with no price returned it never is |
| Position.LiquidationPriceBrackets | crates/risk/src/position.rs:147-273 | strictly beyond the returned price every position is liquidatable; three micro-dollars of surplus away none is, on both sides and without a price |
| Position.LiquidationPriceExists | crates/risk/src/position.rs:215-273 | exactly when there is a price, when the answer is that no price liquidates, and the error otherwise |
| Position.LiquidationGapIsInhabited | crates/risk/src/position.rs:118-273 | a long and a short, with prices on the safe side of the one returned for them at which they are liquidatable |
| Settlement.FeeSplitResums | crates/risk/src/position.rs:425-437 | the two shares add up to the fee, the protocol's is floored, and only a share above 100% fails |
| Settlement.CloseIsClamped | crates/risk/src/position.rs:517-556 | gross = fee + net = floored equity clamped between nothing and collateral plus reserve, and bad debt is exactly negative equity |
| Settlement.CloseExact | crates/risk/src/position.rs:517-556 | the gross is what the equity is worth up to the position's own funds, the fee the fewest units that cover it up to the gross, in units at every scale; fails exactly when an amount needs more than 128 bits |
| Settlement.LiquidationFeeExact | crates/risk/src/position.rs:601-626 | the liquidation fee is the fewest units that cover it, up to what the close fee left |
| Settlement.SettlementConserves | crates/risk/src/position.rs:517-626 | gross = close fee + liquidation fee + net, fee splits included, never above collateral plus reserve |
| Settlement.LiquidationFeeIsTotal | crates/risk/src/position.rs:601-626 | a settlement the close produced can only fail for an unrepresentable fee |
| Settlement.CloseNeverWorsensUtilisation | programs/sakura-perps/src/pool.rs:693-745 | releasing a position's reserve after paying it passes the not-worsened check from any covered pool |
| Settlement.ReleaseKeepsRatio | programs/sakura-perps/src/pool.rs:693-745 | releasing r against an equity loss of r passes if and only if r = 0 or reserves were covered |
| Pricing.NormalizedFits | crates/risk/src/oracle.rs:185-212 | any 64-bit magnitude at an admitted exponent normalises, below a fixed bound |
| Pricing.NormalizedExact | crates/risk/src/oracle.rs:194-212 | m at exponent e becomes the floor of m × 10^(e + 10) for every exponent from -18 to 0 and no other |
| Pricing.ValidateAcceptsIff | crates/risk/src/oracle.rs:219-305 | a quote is accepted if and only if its exponent is the qualified one, both clocks find it fresh, its price is positive and in band and its confidence within its fraction; what is returned is that price and confidence |
| Pricing.TradableIsLiquidatable | crates/risk/src/oracle.rs:344-368 | under ordered guards, what trading accepts liquidation accepts at the same price |
| Pricing.ValidatedIsWithinConfidence | crates/risk/src/oracle.rs:219-305 | an accepted quote is fresh, positive, inside its band, with confidence a bounded fraction of it |
| Pricing.ClampKeepsConfidence | programs/sakura-perps/src/market.rs:1029-1074 | clamping to the moving average's band keeps a positive mid and the confidence fraction, whatever the average |
| Pricing.ClampLandsInBand | programs/sakura-perps/src/market.rs:1029-1074 | a price moves only to the nearer edge of the band around the average, and not at all inside it |
| Pricing.ClampExact | programs/sakura-perps/src/market.rs:1029-1074 | a price that stays keeps its confidence, one that moves takes it along in proportion, floored |
| Pricing.ClampIsTotal | programs/sakura-perps/src/market.rs:1029-1074 | the clamp cannot overflow on normalised prices |
| Pricing.ExecutionPriceIsTotal | crates/risk/src/position.rs:359-401 | under the gate a price is struck, positive and never better than mid; the only failure is a sum above 128 bits |
| Pricing.ChargedExact | crates/risk/src/position.rs:359-401 | paying up, the price is mid plus confidence plus the ceiling of the spread; only a sum above 128 bits fails |
| Pricing.GivenUpExact | crates/risk/src/position.rs:359-401 | receiving, the price is mid less confidence less the floor of the spread, and fails exactly when nothing is left |
| Pricing.ExitsAreAlwaysPriceable | programs/sakura-perps/src/market.rs:394-440 | whatever a qualified feed publishes and validation accepts, the clamped exit price exists for every side, direction, average and legal spread |
| Funding.FundingRateMirrors | crates/risk/src/funding.rs:156-179 | the heavier side pays, mirrored books pay mirrored rates, and the magnitude is the greatest integer at most the cap and the skewed sensitivity |
| Funding.FundingRateExists | crates/risk/src/funding.rs:156-179 | there is a rate exactly while the whole book has 128 bits and the rate is a signed number |
| Funding.BorrowStepExact | crates/risk/src/funding.rs:97-126 | index units and carry together grow by exactly rate × integral |
| Funding.FundingStepExact | crates/risk/src/funding.rs:216-233 | index units and carry together grow by exactly rate × time, carry in [0, 3600) for either sign |
| Funding.CarryIsCanonical | crates/risk/src/funding.rs:200-233 | equal charges mean equal index and equal carry |
| Funding.BorrowOwedSplits | crates/risk/src/funding.rs:133-146 | settling early never saves borrow and costs at most one micro-dollar |
| Funding.BorrowOwedExact | crates/risk/src/funding.rs:133-146 | the ceiling of notional × index gained over 10^9, with the exact condition for failing |
| Funding.FundingOwedExact | crates/risk/src/funding.rs:242-277 | notional × index gained over 10^9 truncated toward zero for a long, its negation for a short, with the exact condition for failing |
| Funding.FundingSidesMirror | crates/risk/src/funding.rs:242-277 | what a long pays a short of the same notional receives, and rounding only shrinks it |
| Accrual.Pool.CheckpointUtilization | programs/sakura-perps/src/pool.rs:610-638 | the pool's fields after a checkpoint, or the error it stops at |
| Accrual.Market.SampleFundingRate | programs/sakura-perps/src/market.rs:820-830 | the sampled rate and its never-retreating time |
| Accrual.Market.SampleFundingAfterBookChange | programs/sakura-perps/src/market.rs:838-844 | resamples unless a legacy book is still draining |
| Accrual.Market.Accrue | programs/sakura-perps/src/market.rs:852-955 | checkpoint, migration guard and settlement at the pool's high-water time, field by field |
| AccrualSteps.CheckpointExists | programs/sakura-perps/src/pool.rs:610-638 | a running integral fails to advance exactly when the time or the sum no longer fits |
| AccrualSteps.LegacySettles | programs/sakura-perps/src/market.rs:852-955 | a legacy book is charged for at most its window: borrow at the ratio of the moment, carried exactly, and funding truncated; a clock that does not advance charges nothing |
| AccrualRuns.PoolStep | programs/sakura-perps/src/pool.rs:610-638 | each event charges the old utilisation up to the new high-water time and no further |
| AccrualRuns.StepExact | programs/sakura-perps/src/market.rs:852-955 | each event moves a live market's charges by its rates times exactly what it newly consumed, and leaves other markets alone |
| AccrualRuns.IntegralIsArea | programs/sakura-perps/src/pool.rs:610-638 | over every run the integral is the area under the exposure history: no interval skipped or counted twice |
| AccrualRuns.BorrowIsRateTimesIntegral | programs/sakura-perps/src/market.rs:896-925 | at a fixed rate every run charges rate × integral consumed, to the last fraction |
| AccrualRuns.InsertionIsInvisible | programs/sakura-perps/src/market.rs:852-955 | checkpoints and settlements, also with backwards clocks, leave no mark on the exposure history |
| AccrualRuns.FundingIsExactIntegral | programs/sakura-perps/src/market.rs:924-936 | 3600 × index + carry is the exact signed integral of the sampled rate over every run |
| AccrualRuns.BorrowOwedTracksExposure | crates/risk/src/funding.rs:97-146 | a position owes notional × rate × exposure to within one index unit and one micro-dollar |
| AccrualTimelines.FundingIsRateArea | programs/sakura-perps/src/market.rs:820-955 | through trades, retunes and settlements, funding charged is the area under the rates that the books and parameters of the events call for |
| AccrualTimelines.FundingIsCadenceFreeThroughout | programs/sakura-perps/src/market.rs:820-955 | histories with one rate timeline leave equal funding index and carry, however they were settled between trades and retunes |
| AccrualTimelines.BorrowIsRateArea | programs/sakura-perps/src/market.rs:852-925 | through trades, flows and rate changes, borrow charged and owed is the area under rate × utilisation |
| AccrualTimelines.BorrowIsCadenceFreeThroughout | programs/sakura-perps/src/market.rs:852-925 | histories with one borrow timeline leave equal borrow index and carry, rate changes included |
| AccrualTimelines.InsertionKeepsRates | programs/sakura-perps/src/market.rs:852-955 | extra checkpoints and settlements, also with backwards clocks, leave both timelines unchanged |
| AccrualTimelines.BillsAreCadenceFree | crates/risk/src/funding.rs:133-277 | who settled, and when, changes no position's borrow or funding bill, across trades and retunes |
| AccrualTimelines.SteadyFunding | programs/sakura-perps/src/market.rs:924-953 | while book and parameters stand still, funding is the one rate over all settled time |
| AccrualTimelines.FundingIsCadenceFree | programs/sakura-perps/src/market.rs:820-955 | any settlement cadence over a steady book leaves the same index and carry |
| AccrualTimelines.BorrowIsCadenceFree | programs/sakura-perps/src/market.rs:852-955 | at a fixed rate, runs with one exposure history leave equal index and carry, however they were settled |
| AccrualLife.AlwaysTended | programs/sakura-perps/src/market.rs:548-597 | in everything a new system can become, a market ever touched is migrated, canonical and samples its own book's rate; the others are as listed |
| AccrualLife.AccrualNeverFails | programs/sakura-perps/src/market.rs:83-107 | within the rate ceilings and with reserves covered, accrual cannot fail at any non-negative clock |
| AccrualLife.StepSucceedsIff | programs/sakura-perps/src/market.rs:705-719 | an event fails if and only if its market is unlisted, its rates break a ceiling or its book exceeds 128 bits |
| AccrualLife.NothingFreezes | programs/sakura-perps/src/market.rs:852-955 | no sane history, however long, makes any settlement, trade or retune fail in accrual |
| AccrualLife.ClosesAlwaysBilled | programs/sakura-perps/src/market.rs:83-100 | a position opened at any point of a sane history has a computable borrow and funding bill at every later one |
| LpLedger.DepositTermsFair | programs/sakura-perps/src/pool.rs:230-374 | a deposit credits what arrived less its fee and mints no more than its worth |
| LpLedger.SharesExact | crates/risk/src/pool.rs:85-121 | a first deposit mints its worth less a million shares locked for good; a later one the floor of its proportional share and never none, with each error's condition |
| LpLedger.FlowFeeExact | crates/risk/src/pool.rs:165-170 | the fee is the ceiling of its basis points of the amount |
| LpLedger.DepositPricedIff | programs/sakura-perps/src/pool.rs:280-314 | exactly when a deposit is priced, and its fee, credit and minted shares as ceilings and floors of the amounts delivered |
| LpLedger.DepositSucceedsIff | programs/sakura-perps/src/pool.rs:230-374 | on a valid ledger a deposit succeeds if and only if it is admitted and vault and share count stay within 64 bits; no other sum and no closing assertion can refuse it |
| LpLedger.DepositMoves | programs/sakura-perps/src/pool.rs:230-374 | what a deposit moves, to the unit, and that it touches nothing else |
| LpLedger.WithdrawPrice | crates/risk/src/pool.rs:143-155 | redeeming pays the floor of its share of equity: never more, and less than a unit less |
| LpLedger.AssetsExact | crates/risk/src/pool.rs:143-155 | shares redeem for the floor of their proportional part of the equity, whatever it is |
| LpLedger.CapExact | crates/risk/src/pool.rs:215-238 | utilisation is within a cap if and only if the exact ratio is, without rounding or overflow |
| LpLedger.WithdrawPricedIff | programs/sakura-perps/src/pool.rs:416-500 | exactly when a withdrawal is priced, and its gross, fee and payout as floor and ceiling |
| LpLedger.WithdrawMoves | programs/sakura-perps/src/pool.rs:416-587 | what a withdrawal moves, to the unit, and that it touches nothing else |
| LpLedger.StepKept | programs/sakura-perps/src/pool.rs:230-587 | each operation keeps solvency and the share count, never lowers the share price, and moves vault surplus only by donation |
| LpLedger.RunKept | programs/sakura-perps/src/pool.rs:230-662 | the same over every run, tokens sent to escrows and to the locked account included: price never falls, surplus moves only by donations, recorded shares exceed existing tokens only by what holders burned |
| LpLedger.NoFreeRoundTrip | crates/risk/src/pool.rs:85-155 | shares bought and redeemed at once return no more than was credited |
| LpLedger.CancelSucceedsIff | programs/sakura-perps/src/pool.rs:1189-1238 | a pending request cancels in full, whatever the pool's state, if and only if its escrow holds exactly what it recorded; its shares return to the owner and nothing else moves |
| LpLedger.WithdrawSucceedsIff | programs/sakura-perps/src/pool.rs:416-587 | a withdrawal succeeds if and only if it is admitted, priced and its escrow holds exactly what the request recorded; no other check after pricing can refuse it |
| LpLedger.SharesMoveIff | programs/sakura-perps/src/pool.rs:964-973 | on a valid ledger a holder may send or burn any shares it has, and no balance they reach can overflow |
| LpLedger.OverfullForGood | programs/sakura-perps/src/pool.rs:1106-1238 | no event takes a share out of an escrow that holds too much, or its request away |
| LpLedger.StrandedIffOverfull | programs/sakura-perps/src/pool.rs:1177-1196 | a pending request stays open through every later run if and only if its escrow holds more than it recorded |
| LpLedger.OneShareStrands | programs/sakura-perps/src/pool.rs:964-973 | one share sent to the escrow by any holder strands any pending request |
| LpLedger.StrandingIsReachable | programs/sakura-perps/src/pool.rs:376-414 | from any new pool, whatever the amounts, a run to a request that could be cancelled, and after one transfer never can |
| LpProgram.Accounts.HandleDeposit | programs/sakura-perps/src/pool.rs:230-374 | the accounts after a deposit, or its error |
| LpProgram.Accounts.HandleRequestWithdraw | programs/sakura-perps/src/pool.rs:376-414 | the accounts after a request, or its error |
| LpProgram.Accounts.HandleCancelWithdraw | programs/sakura-perps/src/pool.rs:1189-1238 | the accounts after a cancellation, or its error |
| LpProgram.Accounts.HandleCloseStaleEscrow | programs/sakura-perps/src/pool.rs:1106-1138 | the accounts after closing an empty escrow without a request, or its error |
| LpProgram.Accounts.HandleWithdraw | programs/sakura-perps/src/pool.rs:416-587 | the accounts after a withdrawal, or its error |
| RoomSets.IdSetsCanonical | crates/rooms/src/lib.rs:125-126 | a list is an ordered set exactly when it rises strictly from end to end, so nothing occurs twice and one set is one list |
| RoomSets.AdmissionSetsCanonical | crates/rooms/src/lib.rs:160-160 | the same for admitted members, ordered by member, then owner, then generation |
| RoomSets.GenerationSetsCanonical | crates/rooms/src/lib.rs:161-161 | the same for admitted market generations, ordered by market, then generation |
| RoomInvariant.PayoutIsClamp | crates/rooms/src/lib.rs:375-397 | a payout is collateral plus floored profit or loss clamped to [0, collateral + cap], with the exact condition for failing |
| RoomInvariant.PayableInBand | crates/rooms/src/lib.rs:1027-1030 | settling at both ends of the price band at admission implies settling at every price between |
| RoomInvariant.SettleSucceeds | crates/rooms/src/lib.rs:1113-1158 | no balance, budget or counter of a reachable room can refuse an in-band settlement |
| RoomRuns.ApplyKeeps | crates/rooms/src/lib.rs:660-904 | every command keeps the strengthened invariant |
| RoomRuns.ReconciliationIsRedundant | crates/rooms/src/lib.rs:596-616 | after a successful apply the reconciliation succeeds, so execute fails exactly when apply does, with its error |
| RoomCommands.ExecuteExact | crates/rooms/src/lib.rs:596-616 | a reachable room accepts a command if and only if its slot is not past and the command's own conditions hold, stated in plain arithmetic for all thirteen commands; it then makes exactly the stated moves, puts its slot in force and appends it |
| RoomCommands.ApplyExact | crates/rooms/src/lib.rs:660-904 | each command by itself in a sound room: accepted if and only if its conditions hold, with every field it moves and none besides |
| RoomCommands.AdmitOpenExact | crates/rooms/src/lib.rs:906-1030 | an entry is admitted if and only if its consent, limits, budgets, backing and both ends of the band allow it, and its receipt is what was agreed |
| RoomCommands.AdmitCloseExact | crates/rooms/src/lib.rs:1049-1094 | an exit is admitted if and only if its consent, its position's terms, its time and its price allow it |
| RoomCommands.SettlementExact | crates/rooms/src/lib.rs:1113-1158 | in a sound room a stored position settles at any price of its band for the clamp of its profit or loss, moving the payout from cell to member and releasing the reserve |
| RoomRuns.ExecuteKeeps | crates/rooms/src/lib.rs:596-616 | executing a command keeps the invariant |
| RoomRuns.AfterInv | crates/rooms/src/lib.rs:557-616 | the invariant, conservation of every unit and coverage of every cell included, holds after any list of attempted commands |
| RoomRuns.MaturedAlwaysSettles | crates/rooms/src/lib.rs:1096-1158 | an open position whose terminal price is recorded can be settled by anyone at any later slot, at that price |
| RoomRuns.AdmittedCloseSettles | crates/rooms/src/lib.rs:1049-1094 | a close that passes its admission checks always settles |
| RoomRuns.RevisionsKept | crates/rooms/src/lib.rs:756-781 | no command removes a member or lowers its authorization revision; a policy change raises it by one |
| RoomRuns.ReplayComplete | crates/rooms/src/lib.rs:620-628 | every reachable room is rebuilt exactly from its own transcript |
| RoomRuns.ReplaySound | crates/rooms/src/lib.rs:620-628 | an accepted transcript yields a reachable room with exactly those records |
| RoomHistory.MemberLedger | crates/rooms/src/lib.rs:782-843 | free + withdrawn + at risk + losses and fees = contributed + realised gains, all recomputed from the transcript, with losses plus risk within contributions and the highest limit set |
| RoomHistory.LossWithinLimit | crates/rooms/src/lib.rs:968-981 | while the loss limit is never lowered, losses plus risk stay within it |
| RoomHistory.OpensBeforeMaturity | crates/rooms/src/lib.rs:935-939 | no position opens at or past its maturity or against a recorded terminal price |
| RoomHistory.TerminalIsPermanent | crates/rooms/src/lib.rs:878-899 | a recorded terminal price never changes, whatever is attempted |
| RoomHistory.MaturedPricesAgree | crates/rooms/src/lib.rs:1074-1111 | positions of one market generation and maturity settled at or after it settle at one price |
| RoomTerms.AdmissionHonours | crates/rooms/src/lib.rs:906-1030 | an admitted entry is within the member's policy, the cell's policy and its own consent, at the exact notional and fee |
| RoomTerms.OpenPositionsHonourTerms | crates/rooms/src/lib.rs:906-1047 | in every reachable room each open position still carries terms within both policies and its consent |
| RoomOwnership.OnlyOwnersArePaid | crates/rooms/src/lib.rs:822-865 | every withdrawal ever made was the registered owner's own command, and every settlement paid the registered owner |
| RoomOwnership.ExecutePaysOwners | crates/rooms/src/lib.rs:596-616 | no command removes a member or cell or changes its owner |
| RoomAuthority.EveryRecordAuthorized | crates/rooms/src/lib.rs:324-332 | in every reachable room every record was its rightful author's, told from the records before it: a trade by the registered owner or the delegate the last policy named, consenting to this room, this registration and as many trades as were made before; markets and terminal prices by the administrator; the rest by owners |
| RoomAuthority.MembersAsTold | crates/rooms/src/lib.rs:732-781 | every member's owner, delegate, revision and next nonce are what the transcript tells |
| RoomAuthority.BooksAsTold | crates/rooms/src/lib.rs:557-616 | a reachable room's flows in and out, clock and next position are what its transcript tells, and positions are numbered in the order they were opened |
| RoomObject.Room.Execute | crates/rooms/src/lib.rs:596-616 | clone, apply, reconcile, commit: the specified state and outcome, or an unchanged room and apply's error |
| RoomObject.Room.Apply | crates/rooms/src/lib.rs:660-904 | each command's in-place updates, or its error |
| RoomObject.Room.SettlePosition | crates/rooms/src/lib.rs:1113-1158 | the in-place settlement of one position |
| RoomObject.Room.CheckMember | crates/rooms/src/lib.rs:1165-1191 | the loop passes exactly when a member's stored exposure is the sum over its positions |
| RoomObject.Room.CheckCell | crates/rooms/src/lib.rs:1195-1211 | the loop passes exactly when a cell's reserve is the sum over its positions and covered |
| RoomObject.Room.CheckInvariants | crates/rooms/src/lib.rs:1161-1222 | passes exactly on the states that reconcile |
| RoomObject.Room.Replay | crates/rooms/src/lib.rs:620-628 | re-execution of a whole transcript, stopping at the first mismatch |
| Wire.RoundTrip | crates/rooms-auth/src/wire.rs:171-210 | every value whose encoding fits the frame encodes, and decodes back to itself |
| Wire.DecodedIsCanonical | crates/rooms-auth/src/wire.rs:201-210 | what decodes is exactly its value's encoding, so the re-encoding check never fires |
| Wire.EncodingInjective | crates/rooms-auth/src/wire.rs:194-196 | equal encodings are equal values |
| Wire.EncodePrefixedInjective | crates/rooms-auth/src/wire.rs:171-222 | equal signed or committed bytes are equal values |
| Wire.DomainsNeverCollide | crates/rooms-auth/src/wire.rs:16-19 | intent, genesis and receipt preimages are never the same bytes |
| Wire.DomainsSpell | crates/rooms-auth/src/wire.rs:16-19 | each preimage is its domain's published text, the version one in two bytes, and the body |
| Wire.Version1IsCanonical | crates/rooms-auth/src/wire.rs:21-119 | the published codecs invert their encodings and accept nothing else, trailing input and set order included |
| Wire.SettlementFits | crates/rooms-auth/src/lib.rs:443-469 | the record of a matured settlement always fits the frame |
| Wire.WriteAll | crates/rooms-auth/src/wire.rs:143-191 | however an encoding is split into writes, the bounded writer yields the whole of it or TooLarge |
| WireReference.ActionBytes | crates/rooms-auth/src/wire.rs:43-101 | every action is its declaration-order tag then its fields in order, little-endian |
| WireReference.IntentBytes | crates/rooms-auth/src/wire.rs:103-115 | an intent is its fields in order |
| WireReference.EnvelopeBytes | crates/rooms-auth/src/wire.rs:117-121 | an envelope is its intent's bytes then the signature |
| WireReference.AdmissionBytes | crates/rooms/src/lib.rs:160-160 | an admitted member is its id, owner and generation, eight bytes each |
| WireReference.GenerationBytes | crates/rooms/src/lib.rs:161-161 | an admitted market is its id then its generation |
| WireReference.BindingBytes | crates/rooms-auth/src/wire.rs:29-32 | a binding is its actor then the 32 key bytes |
| WireReference.GenesisBytes | crates/rooms-auth/src/wire.rs:21-41 | a genesis is its fields in order with a four-byte count of bindings |
| WireReference.OpenReceiptBytes | crates/rooms/src/lib.rs:356-370 | an opening receipt is its fields in order |
| WireReference.RecordBytes | crates/rooms-auth/src/lib.rs:65-88 | a record is its index, previous hash, evidence, outcome and hash, and what is hashed is all but the hash |
| WireSizes.SignedRecordFits | crates/rooms-auth/src/lib.rs:443-469 | the record of a signed envelope fits the frame when its policies, and its receipt's, are within 64 entries a set |
| GatewayRuns.RegistryBinds | crates/rooms-auth/src/lib.rs:113-134 | every principal acts under exactly the acceptable key its genesis binds |
| GatewayRuns.NoSharedKeys | crates/rooms-auth/src/lib.rs:113-134 | no two actors share a key |
| GatewayAdmission.NewSucceedsIff | crates/rooms-auth/src/lib.rs:105-151 | a genesis starts a gateway if and only if it binds 1 to 128 principals in strict order under distinct acceptable keys, its administrator among them, names a network and a deployment, and fits the frame |
| GatewayAdmission.AdmittedIff | crates/rooms-auth/src/lib.rs:175-335 | bytes are admitted if and only if they decode to an envelope for this genesis, signed by its bound actor, next in sequence, inside a window of at most 10,000 slots, on the revision in force and naming only principals |
| GatewayAdmission.RoomsNameOnlyPrincipals | crates/rooms-auth/src/lib.rs:307-335 | every owner, delegate and admitted owner a reachable room names is a bound principal |
| GatewayAdmission.SettlementNeverRefuses | crates/rooms-auth/src/lib.rs:224-243 | settling a matured position leads exactly where the kernel leads at the same slot: recording it never refuses |
| GatewayRuns.AfterInv | crates/rooms-auth/src/lib.rs:105-243 | in every run sequences count envelopes, records chain by hash, signed records carry valid signatures in their window, and the room is what they executed |
| GatewayRuns.AcceptedNeverAgain | crates/rooms-auth/src/lib.rs:175-220 | an accepted envelope is refused as WrongSequence in every later state and context |
| GatewayRuns.SequencesCountEnvelopes | crates/rooms-auth/src/lib.rs:194-209 | an actor's next sequence is the number of its accepted envelopes, and no two share one |
| GatewayRuns.StaleTradeNeverRevives | crates/rooms-auth/src/lib.rs:285-305 | a trade bound to an older authorization revision is refused in every later state |
| GatewayRuns.RevocationIsFinal | crates/rooms-auth/src/lib.rs:285-305 | after a policy change no trade bound to the revision before is ever accepted, even if the delegate is granted again |
| GatewayRuns.OnlySignedEffects | crates/rooms-auth/src/lib.rs:175-243 | the room's transcript is exactly what bound keys signed for this genesis, plus matured settlements |
| GatewayRuns.CommandSaysWhatWasSigned | crates/rooms-auth/src/lib.rs:337-441 | a command is the signed action, by its signer, at the host's slot and live price |
| GatewayRuns.MaturedAlwaysSettles | crates/rooms-auth/src/lib.rs:224-243 | a matured position with a recorded price can be settled through the gateway at any later slot |
| GatewayRuns.ReplayComplete | crates/rooms-auth/src/lib.rs:248-271 | every reachable gateway is rebuilt exactly from its own records and head |
| GatewayRuns.ReplaySound | crates/rooms-auth/src/lib.rs:248-271 | an accepted transcript yields a reachable gateway with that genesis, those records and that head |
| GatewayRuns.HeadCommitsToHistory | crates/rooms-auth/src/lib.rs:443-469 | equal heads mean equal genesis and records, or exhibit a SHA-256 collision among what was hashed |
| GatewayFits.ReachableIsSmall | crates/rooms-auth/src/lib.rs:307-335 | in every reachable gateway every member's and cell's policy is within 64 entries a set |
| GatewayFits.RecordsNeverRefuse | crates/rooms-auth/src/lib.rs:175-220 | in every reachable gateway an envelope leads exactly where admission and the kernel lead: recording it never refuses |
| GatewayAdmission.AppendIff | crates/rooms-auth/src/lib.rs:443-469 | a record is appended if and only if it and what its hash covers fit the frame; it is numbered, linked to the head and becomes the new one |
| GatewayAdmission.EveryRecordFits | crates/rooms-auth/src/lib.rs:443-469 | every record of a reachable gateway, and what its hash covers, fits the frame |
| GatewayObject.AuthenticatedRoom.New | crates/rooms-auth/src/lib.rs:105-151 | the validated registry and fresh state, or InvalidGenesis |
| GatewayObject.AuthenticatedRoom.Bind | crates/rooms-auth/src/lib.rs:113-134 | the loop accepts exactly strictly ordered bindings with distinct acceptable keys |
| GatewayObject.AuthenticatedRoom.Execute | crates/rooms-auth/src/lib.rs:175-220 | the checks in order, the kernel on a clone, the appended record; any refusal changes nothing |
| GatewayObject.AuthenticatedRoom.SettleMatured | crates/rooms-auth/src/lib.rs:224-243 | permissionless settlement on a clone; any refusal changes nothing |
| GatewayObject.AuthenticatedRoom.Append | crates/rooms-auth/src/lib.rs:443-469 | the record appended and the new head, when both encodings fit |
| GatewayObject.AuthenticatedRoom.Replay | crates/rooms-auth/src/lib.rs:248-271 | re-authentication and re-execution of a transcript, compared record by record |
| JournalRuns.DailyBudgetHolds | keeper/src/journal.ts:174-213 | in every run with crashes and failed writes, no day spends past the limit and today's spending plus all reservations fits, until an overrun latches |
| JournalRuns.HourlyLimitHolds | keeper/src/journal.ts:181-200 | no 3600 seconds hold more broadcasts than the hourly limit, despite pruning |
| JournalRuns.PersistedBeforeBroadcast | keeper/src/pending.ts:76-90 | nothing but a reservation broadcasts, and the file holds it as pending by then |
| JournalRuns.BroadcastStaysPending | keeper/src/journal.ts:186-213 | in every timely run whatever was broadcast stays pending in the file until a settlement of it was accepted |
| JournalRuns.RestartNeverRefuses | keeper/src/journal.ts:55-128 | a restart always accepts the file the keeper wrote and continues from it |
| JournalRuns.RunKeeps | keeper/src/journal.ts:159-213 | every timely run keeps memory and file valid, budgeted and counted |
| JournalRuns.PruningIsInvisible | keeper/src/journal.ts:181-199 | pruning at one instant loses nothing a later instant would count |
| JournalRuns.ReconciliationIsARun | keeper/src/pending.ts:12-61 | a reconciliation pass is a run of settlements |
| JournalRuns.ReconciliationIsProven | keeper/src/pending.ts:12-61 | only finalized metadata or a proven expiry releases a transaction; each is charged, read from its report, the least amount that covers both its fee and its balance debit, or its whole reservation when expired, and its day's spending grows by the sum of exactly those |
| JournalRuns.ResolvedIffProven | keeper/src/pending.ts:19-57 | a transaction is resolved if and only if its report proves it, at the cost and with the failed flag its report says |
| JournalRuns.UnknownStaysReserved | keeper/src/pending.ts:11-61 | a transaction whose outcome is unknown keeps its reservation |
| JournalRuns.ReservationCoversEstimate | keeper/src/pending.ts:63-74 | the reservation covers debit and fee plus the larger of a fifth, rounded up, and 5000 lamports |
| JournalSteps.LoadExact | keeper/src/journal.ts:55-128 | a missing file starts empty, a legacy one carries its one day over, a current one is taken whole if every field is trustworthy, and anything else is refused |
| JournalSteps.ReserveSucceedsIff | keeper/src/journal.ts:174-200 | a reservation is accepted if and only if it is well formed, new, within the day's remaining budget and under the hourly limit with no overrun; memory and file afterwards |
| JournalSteps.SettleExact | keeper/src/journal.ts:202-213 | settling charges exactly its cost to the day, removes exactly its transaction and latches exactly when it cost more than it reserved |
| JournalSteps.KeepExact | keeper/src/journal.ts:181-199 | the attempts kept are exactly those under an hour old, each as often as before |
| KeeperRuns.LifeIsARun | keeper/src/run.ts:42-240 | whatever the loop lives through is a timely run of the journal, so every law of those runs holds of it |
| KeeperRuns.BackwardsClockBreaksHourly | keeper/src/journal.ts:181-199 | a run under a backwards clock with three sends in one hour of a limit of two |
| KeeperRuns.BackwardsClockBreaksDaily | keeper/src/journal.ts:174-213 | a run under a backwards clock that spends twice a day's limit without latching |
| KeeperRuns.LatchHoldsIffWritten | keeper/src/journal.ts:202-213 | whatever the loop goes on to live through, nothing is ever sent again, if and only if the overrun latch reached the file |
| KeeperRuns.LatchCanBeLost | keeper/src/pending.ts:40-57 | a run of the loop, at the network's own fee, in which an overrun's unwritten settlement, a restart and an expiry let the keeper send again under a new signature |
| KeeperRuns.ReceiptStopsTheKeeper | keeper/src/run.ts:46-50 | a tick that meets a receipt above its reservation sends nothing, and once its settlements are written the keeper has stopped for good |
| JournalObject.KeeperJournal.Open | keeper/src/journal.ts:55-128 | the loaded state written back, or a refusal that never resets the file |
| JournalObject.KeeperJournal.Reserve | keeper/src/journal.ts:186-200 | the checks in order, then memory and file after the reservation |
| JournalObject.KeeperJournal.Settle | keeper/src/journal.ts:202-213 | spending, latch, pending list and file after a settlement |
| JournalObject.KeeperJournal.Save | keeper/src/journal.ts:130-154 | what memory and file hold when a write is done, lost or unconfirmed |
| JournalObject.BroadcastReserved | keeper/src/pending.ts:76-90 | nothing reaches the network unless the reservation was persisted first |
| JournalObject.ReconcilePending | keeper/src/pending.ts:12-61 | the loop's journal and resolutions, stopping at the first error |
| Scan.SortByIsSorted | keeper/src/scheduler.ts:8-8 | the sort returns the same rows in strictly ascending key order |
| Scan.BeforeIsLexicographic | keeper/src/scheduler.ts:8-8 | one key is before another exactly when it is a proper prefix or smaller at the first difference |
| Scan.BatchIsCircular | keeper/src/scheduler.ts:2-12 | a batch reads the sorted book circularly from just past the cursor |
| Scan.VisitsAreCircular | keeper/src/run.ts:89-102 | over every run, ticks cut short and listings reordered included, visit j is position start + j around the book |
| Scan.NoneStarves | keeper/src/scheduler.ts:1-12 | any n visits in a row are all different and miss no position |
| Scan.CoveredWithinRounds | keeper/src/run.ts:89-102 | every position is visited within ⌈n / limit⌉ full ticks, wherever the cursor starts |

## Left out

- `programs/sakura-perps/src/position.rs`: the program's open/close ledger is not part of this model; trades appear in
  accrual histories only as the book and exposure values they leave behind.
- Anchor account constraints, program addresses, token transfers and events: transfers are balance changes.
- Admin rotation, feed revocation, pool initialisation: one-branch state changes.
- `assert_market_invariants`: it constrains the position ledger that is not modelled.
- Legacy drain-only accrual: modelled up to the migration guard; the additivity theorems concern migrated markets.
- Retuning gates of `handle_set_risk_params` other than the spread, rate and window ceilings: parameter ranges only.
- `blended_entry_price`, `leverage_bps`, `profit_cap_usd`, `fees_dominate_funding`: no caller among the modelled operations.
- RoomObject.Room.Execute: on a room that does not satisfy its invariant the error of a failing reconciliation may differ
  in kind from the specified one; no such room is reachable.
- LpProgram.Accounts.HandleDeposit: like the other handlers, says nothing of the accounts after an error, which the
  runtime reverts.
- Accrual.Market.Accrue: says nothing of the accounts after an error, for the same reason.
- KeeperRuns.LatchHoldsIffWritten: assumes a configuration under which the keeper could send at all: a valid daily
  limit that covers its smallest reservation at the network's fee, an hourly limit of at least one, and a day left
  before the year 10000.
- JournalRuns.HourlyLimitHolds: for a clock that does not run backwards between ticks, as `JournalRuns.DailyBudgetHolds`;
  without it both are false, as the findings show.
- LpLedger.StrandedIffOverfull: speaks of runs of liquidity events; no instruction that trades touches an escrow or a
  request.
- AccrualLife.NothingFreezes: takes as given that reserves stay covered by equity, which
  `Settlement.CloseNeverWorsensUtilisation` and the opening ceiling keep.
- The guard's own gates and the balance floor of a send: they can only refuse more sends than the runs allow.
- Sets and lists of 2^32 or more elements: Borsh cannot count them, so they are outside the modelled types.
- The Borsh crate's allocation strategy for hostile lengths: only which inputs decode is modelled.
- Position of a serializer's writes: `Wire.WriteAll` holds for every split, so the derive macro's own split is not modelled.
- Journal instants outside the years 0000 to 9999: a day is then no longer named by its first ten characters.
- The wording and file-level checks of a malformed journal: a file is missing, legacy or current, and validity is that of
  its fields; locks, permissions and fsync order are one atomic replacement that may fail or go unconfirmed.
- `Guard`, `Health`, `ScanCoverage` and the rest of the keeper's loop: bookkeeping around the scan and the journal.
- String comparison in `Scan` is by character; it coincides with UTF-16 order on the base-58 keys the keeper scans.
- Room, gateway and keeper accessors, inspection bytes, `crates/rooms-web`, the dashboard and the client libraries.
