# Sarvex money and position core, in Dafny

Sarvex is an exchange for event contracts: binaries that pay out when an outcome falls in a range or
category, and futures paid inside a price band. This project models the parts that hold people's money and
positions, and proves what they keep over every input and every run.

**The margin engine** (`Payoffs`, `Stress`, `WorstCase`, `Engine`, `Standalone`, `EventMargins`, `Portfolio`).
The specification is a worst case: the largest amount an account can have paid out over every outcome the event
can settle on and every combination of partial fills of its working orders, trades included before any outcome.
The engine's loops look only at the integers around each payoff's kinks, snapped to the outcome grid; they are
proved to find exactly that worst case, because stress is convex between neighbouring kinks.

**The ledger** (`Ledger`, `LedgerRuns`, `LedgerEffects`, `LedgerService`): append-only rows with running balances,
idempotency keys, holds, and where each operation moves money.

**Cross margin** (`MarginExec`, `FillPostings`, `MarginRuns`, `FillRuns`, `Exchange`, `MarginEffects`,
`MarginCrash`, `Reconciler`, `RiskService`). Reserve, release and fill are a plan, one ledger posting and one table update.
Whole runs interleave them with everything else the ledger does; histories add crashes between posting and
update, retries and reconciliations.

**Event settlement** (`Settlement`, `SettlementRuns`, `SettlementSafety`, `SettlementResume`,
`SettlementReconciled`, `SettlementService`): the settlement pass as resumable steps that can crash anywhere,
alone and with the reconciler correcting accounts in between.

**Isolated margin** (`Isolated`, `Escrow`, `OrderHolds`, `IsolatedService`, `PartyBalances`): holds, the opening and
closing split, escrow against the positions the fills leave, who is paid what, and the remainder of a finished
order.

**Matching engine** (`Matching`, `OrderBook`, `MatchingEngine`, `TimePriority`, `CommandEffects`, `EngineService`,
`BookStream`, `BookFeed`, `Journal`, `EngineJournal`): matching on one book; the engine's markets, orders and
counters under all five commands, and price-time priority over its runs; the depth it announces, what a subscriber shows against the book itself, and what a restart rebuilds.

**Shadow gate** (`Shadow`, `ShadowCosts`), **positions** (`Positions`, `PositionService`, `CostBasis`) and **order counters**
(`OrderCounters`).

Where the source updates state in place there is a class or a method with a loop, and its contract ties the new
state to a function; the theorems are about that function.

## Where the code does not do what its documentation says

Each of these is a lemma about the code as it is, with the exact condition under which the code does what is
promised.

- A hold operation under a key that some other transaction already used is not recognised as a repeat: it moves
  the money again, under the old transaction (`LedgerRuns.SharedKeyMovesMoneyAgain`,
  `LedgerRuns.AcceptedMovesMoneyUnlessRecognised`).
- Reserve keys carry no version. Reserving a released order id again is approved and moves no money
  (`MarginCrash.ReusedOrderIdLocksNothing`, `MarginCrash.DriftKeptIff`).
- The reconciler's key names only version and balance. A second crash that leaves the same pair is never
  corrected (`MarginCrash.SecondCrashDefeatsReconciler`, `MarginCrash.ReconcileClosesDrift`).
- Between a settlement line's posting and its mark the reconciler takes the released margin for missing and moves
  it back from cash; the settlement completes all the same (`SettlementReconciled.SettledIffNothingKept`,
  `SettlementReconciled.CorrectionMovesIff`, `SettlementReconciled.CrashInWindowKeepsMargin`).
- Escrow is open interest at full payout exactly when the splits' errors cancel, in a symmetric band or with no
  short opened (`Escrow.EscrowConserved`). An order's split is decided when it is entered, against a position that
  other orders can move before it fills; `risk.working_orders_summary`, which should account for them, is read and
  never written (`services/risk-svc/src/main.rs:653-657`), so the quantity it adds is always zero. Two closing
  orders of the same units leave escrow short of their payout (`Escrow.TwoClosingOrdersEmptyEscrow`,
  `Escrow.SplitRightIff`).
- Amending an order leaves its split as it was entered. More units at a lower price need the same hold, so the
  amendment is allowed, and the units above the entry count are credited as closing ones
  (`Escrow.AmendedOrderDrainsEscrow`, `Escrow.AmendedAloneIff`). Fewer units at a higher price are allowed too, but
  the order's row refuses a count below the reserved units after the engine has taken it, and then never gets
  beyond partly filled (`OrderCounters.AmendAcceptedIff`, `OrderCounters.LoweredOrderStaysPartial`).
- A fill that opens at the edge of the band on its party's side can be made out neither for posting nor for the
  order's remainder: it is never posted and the hold is never released (`OrderHolds.CommittableIff`,
  `OrderHolds.EdgeExecutionStuck`).
- The shadow gate trips for a working order with no hold whose position is gone
  (`Shadow.OrphanedClosingOrderTripsGate`, `Shadow.GateExactly`).
- Self-trade prevention also refuses orders that would be filled before they reach the user's own
  (`Matching.SelfTradeRefusalNeededIff`).
- The engine announces its book only when its 25-level depth tracker notices a change. An order behind 25 better
  prices rests unannounced, and one cancelled there stays with the subscribers that had it
  (`BookFeeds.StreamConvergesIff`, `BookFeeds.NotifyInStepIff`, `BookFeeds.DeepOrderMissing`,
  `BookFeeds.DeepCancelLeavesPhantom`; `BookFeeds.DeepBookExists` is such a book). A level cut from a snapshot
  stays wrong until it is next sent (`BookFeeds.CutLevelStaysWrong`).
- The journal accepts payloads it will not read back: a restart works exactly when none is over 64 MiB. A crash
  inside an append stops the next start (`EngineJournals.RestartRebuildsEngineIff`,
  `EngineJournals.TornCommandStopsEngine`).
- An expired order reopened by a late fill cannot be cancelled, and an order filled before its own response is
  stored ends up marked partial (`OrderCounters.ExpiredOrderCannotBeCancelled`, `OrderCounters.CancelAcceptedIff`,
  `OrderCounters.ResponseStatusAgreesIff`). Its average price is then the response's own
  (`OrderCounters.ResponseKeepsAverageIff`, `OrderCounters.LateResponseMovesAverage`).
- Realised profit drifts from cash because averages are rounded twice, and units taken at price zero realise
  nothing (`CostBasis.ProfitExactIff`, `CostBasis.TradeExactIff`, `CostBasis.FreeUnitsRealiseNothing`,
  `CostBasis.FreeUnitsReached`).

## Model

| member | source | states |
|---|---|---|
| Payoffs.NewBook | services/crates/sarvex-domain/src/margin.rs:376-397 | A book is built exactly when every instrument fits the outcome kind and the grid is sound; otherwise the error is that of the first bad instrument, and the grid's only when no instrument is bad. |
| Payoffs.LetInExactly | services/crates/sarvex-domain/src/margin.rs:705-775 | A contract is let in if and only if its prices make a band worth between nothing and its maximum, a tick is worth something, and some outcome of the event's kind pays that maximum. |
| Payoffs.ValueBounds | services/crates/sarvex-domain/src/margin.rs:318-345 | At every outcome the event can settle on, a contract's value is between zero and its maximum; which outcomes pay which is `SplitRangePaysOnce`, `RangeBoundsInclusive`, `CategoryPaysItsNames` and `BandPaysByTheTick`. |
| Payoffs.OpenRangePays | services/crates/sarvex-domain/src/margin.rs:318-345 | A range with neither bound pays its payout at every outcome. |
| Payoffs.SplitRangePaysOnce | services/crates/sarvex-domain/src/margin.rs:318-345 | A range cut in two anywhere: at every outcome the parts pay together what the whole pays, and never both. |
| Payoffs.RangeBoundsInclusive | services/crates/sarvex-domain/src/margin.rs:318-345 | A range pays in full at both of its bounds and nothing one step beyond either. |
| Payoffs.CategoryPaysItsNames | services/crates/sarvex-domain/src/margin.rs:318-345 | Adding names to a category never lowers what it pays; each name added pays in full, and names on no list, and OTHER, pay nothing. |
| Payoffs.BandPaysByTheTick | services/crates/sarvex-domain/src/margin.rs:318-345 | A band pays nothing up to its lower end, its whole width from its upper end on, and one tick value more for each step between. |
| Payoffs.PriceBounds | services/crates/sarvex-domain/src/margin.rs:348-362 | A price inside the listing's band is worth between zero and the contract's maximum. |
| Payoffs.PriceMonotone | services/risk-svc/src/portfolio.rs:176-196 | A lower price is never worth more premium. |
| Payoffs.BandPriceIsItsPayment | services/crates/sarvex-domain/src/margin.rs:348-362 | A futures price is worth what the contract pays if the event settles at it. |
| Payoffs.ComplementsPayOnce | services/crates/sarvex-domain/src/margin.rs:348-362 | A binary price and its complement are worth one payout together, and each tick is worth the tick value. |
| Stress.FillWithinStress | services/crates/sarvex-domain/src/margin.rs:26-34 | In any scenario, the stress after filling part of an order plus the premium paid is at most the stress before. |
| Stress.ObligationWithinStress | services/crates/sarvex-domain/src/margin/tests.rs:314-374 | The per-order form of stress covers every combination of partial fills at once. |
| Stress.WorstFillsReachStress | services/crates/sarvex-domain/src/margin/tests.rs:314-374 | Filling exactly the orders that hurt reaches it, so the separable form equals the exhaustive one. |
| Stress.StressBetween | services/crates/sarvex-domain/src/margin.rs:590-644 | Stress is convex: at a mixture of two value vectors it never exceeds both ends. |
| WorstCase.MarginCoversEveryFill | services/crates/sarvex-domain/src/margin.rs:26-34 | Whatever part of the working orders fills and wherever the event resolves, premiums plus what is then owed stay within the margin. |
| WorstCase.MarginIsReached | services/crates/sarvex-domain/src/margin/tests.rs:314-374 | Some all-or-nothing fills and some outcome need every micro-USDC of it. |
| WorstCase.FillNeedsNoNewCash | services/risk-svc/src/margin_exec.rs:17-20 | Margin after any partial fill at the limit or better, plus the premium paid, is at most the margin before. |
| WorstCase.ReleaseLowersMargin | services/risk-svc/src/margin_exec.rs:380-492 | Shrinking or dropping a working order never raises the margin. |
| WorstCase.ReserveRaisesMargin | services/risk-svc/src/margin_exec.rs:244-378 | Adding a working order never lowers the margin. |
| WorstCase.SettlementIsPaidOut | services/crates/sarvex-domain/src/margin.rs:524-541 | Settling the net quantities pays what each position is paid by itself, added up. |
| WorstCase.RangeHolderPaid | services/crates/sarvex-domain/src/margin.rs:524-541 | A holder of q units of a range receives q payouts when the event settles inside it, bounds included, and nothing outside. |
| Engine.CandidatesContractual | services/crates/sarvex-domain/src/margin.rs:590-644 | Every outcome the engine looks at is one the event can settle on. |
| Engine.SnappedCandidate | services/crates/sarvex-domain/src/margin.rs:143-161 | No grid point stresses an account more than some snapped kink inside the bounds, or a bound itself. |
| Engine.CandidatesSuffice | services/crates/sarvex-domain/src/margin.rs:590-644 | No outcome at all, integers on any grid or categories, stresses an account more than some candidate. |
| Engine.CandidateMaximumIsMargin | services/crates/sarvex-domain/src/margin.rs:442-509 | The maximum over the finite candidates and the premium branch is the maximum over all scenarios. |
| Engine.MarginExists | services/crates/sarvex-domain/src/margin.rs:442-509 | Every account has a worst case, attained by some scenario. |
| Standalone.MarginWithinStandalone | services/crates/sarvex-domain/src/margin.rs:646-702 | Cross margin never locks more than separate margin for the same positions and orders, closing orders included. |
| Standalone.OneContractStandalone | services/crates/sarvex-domain/src/margin.rs:646-702 | On one contract, however the orders of a side and price are cut: shorts lock their full value, and orders their premium (the rest of the maximum when selling) for each unit; against a futures position only units beyond it count, against a binary one all. |
| EventMargins.NetPositions | services/crates/sarvex-domain/src/margin.rs:575-586 | Positions add up per instrument, or the first unknown instrument is reported. |
| EventMargins.SnapPoints | services/crates/sarvex-domain/src/margin.rs:143-161 | The loop over raw points yields exactly the neighbouring grid points inside the bounds, and the bounds. |
| EventMargins.BuildCandidates | services/crates/sarvex-domain/src/margin.rs:590-644 | The loop over instruments and orders yields exactly the specified candidates. |
| EventMargins.SettlementMicro | services/crates/sarvex-domain/src/margin.rs:524-541 | What the positions are paid one by one at an outcome, added up; refused exactly for outcomes the event cannot settle on, and then for the first unknown instrument. |
| EventMargins.SettleAccounts | services/crates/sarvex-domain/src/margin.rs:544-558 | Each account's amount in order; refused at an outcome the event cannot settle on, at the first account with an unknown instrument, and otherwise exactly when the amounts do not sum to zero, with that sum. |
| EventMargins.WorstPositionLoss | services/crates/sarvex-domain/src/margin.rs:515-521 | The settlement path finds the worst case of the positions alone, the same number as the margin path, or reports the first unknown instrument; some candidate is always tried. |
| EventMargins.StandaloneMargin | services/crates/sarvex-domain/src/margin.rs:646-702 | The loop over orders and positions computes the separate margin, closing capacity used up in order. |
| EventMargins.ExactDivision | services/crates/sarvex-domain/src/margin.rs:646-702 | Truncating division recovers a unit premium from a total, whatever the signs. |
| EventMargins.ComputeEventMargin | services/crates/sarvex-domain/src/margin.rs:442-509 | The engine returns the exact worst case with and without orders, the separate margin, and an outcome that attains the requirement, or the first error; requirement <= margin <= standalone. |
| Portfolio.SignRulesAgree | services/risk-svc/src/portfolio.rs:93-129 | The five writings of the buy/sell by yes/no/long/short sign rule agree, exactly when side and action are both given or both missing. |
| Portfolio.PricesAgree | services/risk-svc/src/portfolio.rs:93-129 | Stored and entered prices agree except for a binary NO order away from half the payout. |
| Portfolio.UntradedContractsDoNotMatter | services/risk-svc/src/portfolio.rs:261-326 | Cutting the book down to the contracts an account trades does not change its margin. |
| Ledger.BalanceIsFold | services/ledger-svc/src/main.rs:559-620 | An account's running balance and sequence number are the sum and the count of its entries, and user money is not negative. |
| Ledger.AppendEffect | services/ledger-svc/src/main.rs:559-620 | A posting moves each account by exactly its entries, rewrites nothing and keeps every earlier running balance sound. |
| Ledger.AppendSucceeds | services/ledger-svc/src/main.rs:559-620 | A posting whose every prefix leaves user money non-negative is accepted. |
| Ledger.AppendRefusesOverdraft | services/ledger-svc/src/main.rs:559-620 | A posting that would end with a user account below zero is refused. |
| LedgerRuns.StepSound | services/ledger-svc/src/main.rs:116-394 | Every operation keeps the ledger sound and only appends rows. |
| LedgerRuns.RunSound | services/ledger-svc/src/main.rs:116-394 | So does every run of operations. |
| LedgerRuns.BooksBalance | services/ledger-svc/src/main.rs:713-728 | After any run, the balances of all accounts add up to zero. |
| LedgerRuns.RunHoldsMatch | services/ledger-svc/src/main.rs:682-691 | When HOLDS money moves only through holds, each user's HOLDS balance is what its holds still keep back. |
| LedgerRuns.AcceptedMovesMoneyUnlessRecognised | services/ledger-svc/src/main.rs:527-557 | An accepted operation changes nothing if and only if the ledger recognises its key for that kind of operation. |
| LedgerRuns.RetryChangesNothing | services/ledger-svc/src/main.rs:643-674 | An accepted operation sent again with the same key leaves the ledger as it is. |
| LedgerRuns.SharedKeyMovesMoneyAgain | services/ledger-svc/src/main.rs:149-206 | A hold placed under the key of another kind of transaction moves cash again, under that transaction's number. |
| LedgerEffects.DepositRaisesCash | services/ledger-svc/src/main.rs:482-525 | A deposit is accepted if and only if it is positive; it raises the user's CASH by its amount against the wallet and moves nothing else. |
| LedgerEffects.PlaceMovesCash | services/ledger-svc/src/main.rs:149-206 | A hold under a new key is placed if and only if the user's cash covers it; the amount goes from CASH to HOLDS and is kept back whole by a hold of its own. |
| LedgerEffects.ReleaseMovesBack | services/ledger-svc/src/main.rs:208-280 | A release under a new key moves its amount, at most what the hold keeps, from HOLDS to CASH and draws on that hold alone. |
| LedgerEffects.CommitMovesOut | services/ledger-svc/src/main.rs:280-394 | A commit under a new key moves one amount from HOLDS to its destination and another to CASH, together at most what the hold keeps, and adds the entries given; it draws on that hold alone. |
| LedgerServices.LedgerService.LoadAccounts | services/ledger-svc/src/main.rs:559-620 | Each named account is loaded once with its latest balance, lazy ones created, or the posting fails on an unknown one. |
| LedgerServices.LedgerService.ApplyEntries | services/ledger-svc/src/main.rs:559-620 | The loop that updates balances in memory and inserts rows is the specified posting; an error leaves the tables as they were. |
| LedgerServices.LedgerService.Post | services/ledger-svc/src/main.rs:117-147 | `post_transaction` on the tables is the specified transition, error cases included. |
| LedgerServices.LedgerService.PlaceHold | services/ledger-svc/src/main.rs:149-206 | `place_hold` on the tables is the specified transition. |
| LedgerServices.LedgerService.ReleaseHold | services/ledger-svc/src/main.rs:208-278 | `release_hold` on the tables is the specified transition. |
| LedgerServices.LedgerService.CommitHold | services/ledger-svc/src/main.rs:280-394 | `commit_hold` on the tables is the specified transition, with its extra entries and partial release. |
| LedgerServices.LedgerService.AdminCreditDeposit | services/ledger-svc/src/main.rs:482-520 | `admin_credit_deposit` on the tables is the specified transition. |
| LedgerServices.LedgerService.EnsureBalanced | services/ledger-svc/src/main.rs:713-728 | Adding up debits and credits decides whether the entries sum to zero. |
| FillPostings.FillEntriesEffect | services/risk-svc/src/margin_exec.rs:143-182 | A fill's entries are balanced, touch each account at most once, and move every account by the sum over the parties; CLEARING nets to nothing. |
| FillPostings.FillEntriesRefused | services/risk-svc/src/margin_exec.rs:143-182 | Parties whose premiums do not net to zero are refused. |
| FillPostings.MoveStep | services/risk-svc/src/margin_exec.rs:112-138 | A margin move under a new key is accepted exactly when the paying account can pay, and moves CASH and MARGIN by it. |
| FillPostings.PremiumGoesThroughClearing | services/risk-svc/src/margin_exec.rs:143-182 | The whole premium of a fill goes in and out of the event's CLEARING account. |
| MarginRuns.ReserveKeepsInv | services/risk-svc/src/margin_exec.rs:244-378 | A reserve of a fresh order id, approved or refused, keeps all invariants. |
| MarginRuns.ReleaseAccepted | services/risk-svc/src/margin_exec.rs:380-492 | A release never needs cash: the ledger always takes its posting. |
| MarginRuns.ReleaseKeepsInv | services/risk-svc/src/margin_exec.rs:380-492 | A release, full, partial, stale or repeated, keeps all invariants. |
| MarginRuns.LegNeedsNoNewCash | services/risk-svc/src/margin_exec.rs:589-634 | One leg of a fill within its order's remaining count and limit leaves a requirement that, with the premium, fits what was posted. |
| MarginEffects.ReserveAddsOrder | services/risk-svc/src/margin_exec.rs:244-378 | An approved reserve of a new id adds one order, with the request's id, ticker, price and whole signed count, to the orders there were; positions and other accounts stay, and the margin answered is the exact worst case posted. A known id changes nothing. |
| MarginEffects.JoinedIsCovered | services/risk-svc/src/margin_exec.rs:589-634 | Of an order that joined so, exactly the fills of no more than its count at its limit or better are covered. |
| MarginEffects.LoneBuyLocksPremium | services/risk-svc/src/margin_exec.rs:244-378 | A buying order alone on an empty account locks count times the premium of its price. |
| MarginEffects.LoneSellLocksRest | services/risk-svc/src/margin_exec.rs:244-378 | A selling order alone locks count times what its premium leaves of the maximum, when some outcome pays the maximum. |
| MarginEffects.LoneOrderLocksTheSame | services/crates/sarvex-domain/src/margin.rs:646-702 | For an order alone, separate margin is exactly the worst case. |
| MarginEffects.EmptyAccountBuys | services/risk-svc/src/margin_exec.rs:244-378 | An empty account's buy is approved if and only if its cash covers count times the premium, which then goes from CASH to MARGIN; otherwise nothing changes. |
| MarginEffects.StaleReleaseRefused | services/risk-svc/src/margin_exec.rs:380-412 | A release is answered as stale if and only if it is older than the last fill of its order, and then changes nothing. |
| MarginEffects.FillMakesReleaseStale | services/risk-svc/src/margin_exec.rs:494-713 | After a fill that leaves part of the maker's order, a release older than that fill is answered as stale and changes nothing. |
| MarginEffects.ReleaseKeepsAsked | services/risk-svc/src/margin_exec.rs:380-492 | Any other release of a reserved order keeps the smaller of the units asked for and the units left, on the order's side, and touches no other order, position or account. |
| MarginEffects.FillMovesBoth | services/risk-svc/src/margin_exec.rs:494-713 | An applied fill between two users moves each position by its own signed count, takes the count off each order, or the order off, raises its sequence, and leaves all else in the tables. |
| FillRuns.DueIsPayable | services/risk-svc/src/margin_exec.rs:589-634 | A fill of reserved orders within their limits needs no cash beyond what its parties have locked, one user on both sides included. |
| FillRuns.FillAppliedIffAffordable | services/risk-svc/src/margin_exec.rs:494-713 | Any fresh fill is applied exactly when both parties can afford it, and otherwise changes nothing. |
| FillRuns.DueFillApplied | services/risk-svc/src/margin_exec.rs:17-20 | A fill of reserved orders is always applied, keeps the invariants, and lowers nobody's cash. |
| FillRuns.FillMovesPremium | services/risk-svc/src/margin_exec.rs:140-182 | Each user's cash plus margin moves by the premiums of its legs and by nothing else. |
| FillRuns.UnreservedBuyerRefused | services/order-router/src/main.rs:1139-1157 | Why the release worker waits for fills: a buyer with nothing locked and no cash is refused. |
| FillRuns.FillKeepsInv | services/risk-svc/src/margin_exec.rs:494-713 | A fill, applied, refused or repeated, keeps all invariants. |
| Exchange.OpeningKeepsInv | services/risk-svc/src/margin_exec.rs:850-892 | Before trading, the invariants hold. |
| Exchange.StepKeepsInv | services/risk-svc/src/margin_exec.rs:850-892 | Any request or foreign ledger operation keeps them. |
| Exchange.RunKeepsInv | services/risk-svc/src/margin_exec.rs:850-892 | Every state of every run keeps MARGIN = posted = required, CLEARING at zero, user money non-negative and positions summing to zero. |
| Exchange.RunHasNoViolations | services/risk-svc/src/margin_exec.rs:850-892 | So the service's own invariant query reports nothing in any reachable state, and each account has posted its exact worst case. |
| Exchange.NoFillIsRefused | services/risk-svc/src/margin_exec.rs:17-20 | In every run, no valid fill is ever refused by the ledger. |
| Exchange.ReserveDecidedByCash | services/risk-svc/src/margin_exec.rs:244-378 | An order is approved exactly when cash covers the rise of the margin, which is never negative; cash plus margin is unchanged either way. |
| Exchange.ReconcileFindsNothing | services/risk-svc/src/margin_exec.rs:756-848 | While nothing crashed the reconciler finds every account in step. |
| MarginCrash.EntriesMatchTables | services/risk-svc/src/margin_exec.rs:9-15 | Reserve, release and fill post to each MARGIN account exactly what they write to the tables. |
| MarginCrash.DriftIsOrphaned | services/risk-svc/src/margin_exec.rs:9-15 | Over any history of requests, crashes, retries and reconciliations, ledger minus tables equals the sum of the orphaned postings. |
| MarginCrash.PlanIsLocal | services/risk-svc/src/margin_exec.rs:915-927 | A plan depends only on the accounts it locks. |
| MarginCrash.OthersKeepLag | services/risk-svc/src/margin_exec.rs:915-927 | Requests of other users neither see nor disturb the gap a crash left. |
| MarginCrash.RetryReachesUninterrupted | services/risk-svc/src/margin_exec.rs:9-15 | After a crash and any requests of other users, a retry reaches exactly the state of the run without the crash and gives the reply the first try would have given. |
| MarginCrash.ReconcileClosesDrift | services/risk-svc/src/margin_exec.rs:756-848 | A correction closes the drift exactly when its key is new and the payer has the money; cash plus margin and every other balance are unchanged. |
| MarginCrash.SecondCrashDefeatsReconciler | services/risk-svc/src/margin_exec.rs:756-848 | From any account in step, two reserves the user can pay for that both crash, with a correction in between, leave a drift of the whole amount that no later correction moves. |
| MarginCrash.ReusedOrderIdLocksNothing | services/risk-svc/src/margin_exec.rs:244-378 | Reserving an order id whose key was used before is approved, moves no money, and the whole rise is missing from MARGIN. |
| MarginCrash.DriftKeptIff | services/risk-svc/src/margin_exec.rs:244-713 | A reserve, release or fill carried out leaves a user's drift as it was if and only if its ledger key is new, its posting is empty or the user's margin does not change. |
| Reconciler.PassClosesConfirmedDrift | services/risk-svc/src/margin_exec.rs:756-848 | A pass leaves an unconfirmed drift alone and closes a confirmed one exactly when it can be paid under a new key. |
| Reconciler.TwoPassesCloseDrift | services/risk-svc/src/margin_exec.rs:756-848 | Two passes with nothing in between close every drift that can be corrected. |
| RiskServices.MarginFor | services/risk-svc/src/margin_exec.rs:82-92 | The engine, called on an account's positions and orders, returns the requirement the invariants speak of. |
| RiskServices.BuildFillEntries | services/risk-svc/src/margin_exec.rs:143-182 | The accumulating map and the entry loop produce exactly the specified entries or refusal. |
| RiskServices.RiskService.ReserveOrder | services/risk-svc/src/margin_exec.rs:244-378 | `reserve_order_impl` on the tables and ledger is the planned posting and update, with the planned reply; what the plan reserves is `MarginEffects.ReserveAddsOrder`. |
| RiskServices.RiskService.ReleaseOrder | services/risk-svc/src/margin_exec.rs:380-492 | `release_order_impl` likewise, stale and repeated requests included (`MarginEffects.StaleReleaseRefused`, `MarginEffects.ReleaseKeepsAsked`). |
| RiskServices.RiskService.ApplyFill | services/risk-svc/src/margin_exec.rs:494-713 | `apply_fill_impl` likewise, both legs and a user trading with itself included. |
| RiskServices.RiskService.ReconcileMargin | services/risk-svc/src/margin_exec.rs:756-848 | One pass over all accounts is the specified pass: same corrections, same suspects, same drifts found. |
| SettlementRuns.NetsCancel | services/settlement-svc/src/event_settlement.rs:299-310 | When each contract's open interest is flat, payments sum to zero at every outcome. |
| SettlementRuns.PlanFacts | services/settlement-svc/src/event_settlement.rs:310-378 | The plan has one line per account with a position or margin, at its posted margin and its net, and no other. |
| SettlementRuns.LineDelta | services/settlement-svc/src/event_settlement.rs:37-77 | A line's entries are balanced, release its margin, settle its net against CLEARING, and overdraw nothing on the way. |
| SettlementSafety.PostedCoversNet | services/settlement-svc/src/event_settlement.rs:394-400 | No account owes more than it has posted, at any outcome. |
| SettlementSafety.PlanningSucceeds | services/settlement-svc/src/event_settlement.rs:239-378 | From a quiet state the checks pass and the plan is written, whatever the listed outcome. |
| SettlementSafety.PostStepSucceeds | services/settlement-svc/src/event_settlement.rs:380-420 | The next line's posting is accepted, and posting it again changes nothing. |
| SettlementSafety.MarkStepKeeps | services/settlement-svc/src/event_settlement.rs:420-436 | Marking the posted line keeps lines, tables and ledger in step. |
| SettlementResume.ClearingNeverNegative | services/settlement-svc/src/event_settlement.rs:380-388 | With losers posted first, CLEARING is never negative at any point. |
| SettlementResume.AdvanceSucceeds | services/settlement-svc/src/event_settlement.rs:157-475 | Every step of every proper call succeeds and brings the end one step nearer. |
| SettlementResume.FinishSucceeds | services/settlement-svc/src/event_settlement.rs:438-475 | Once every line is posted CLEARING and every MARGIN account of the event are empty, each user has its margin and its net, and no other account moved: not other events' margin, not the cash of users outside the event. |
| SettlementResume.SettlementIsResumable | services/settlement-svc/src/event_settlement.rs:9-14 | After any crashes and partial calls, a call run to completion ends in exactly the state of one uninterrupted call. |
| SettlementResume.EveryStepIsSafe | services/settlement-svc/src/event_settlement.rs:380-444 | On every such way no step fails and CLEARING stays funded. |
| SettlementResume.EveryRunSettles | services/settlement-svc/src/event_settlement.rs:1-14 | From every reachable state without working orders, settlement succeeds at any listed outcome. |
| SettlementReconciled.SettledIffNothingKept | services/settlement-svc/src/event_settlement.rs:380-475 | With the reconciler correcting any account at any point between calls and crashes, no step fails and the settlement completes; it ends settled if and only if every correction that moved a user's money was undone by another, and otherwise exactly those users' margins are in MARGIN instead of CASH. |
| SettlementReconciled.CorrectionMovesIff | services/risk-svc/src/margin_exec.rs:756-848 | At any turn of such a settlement a correction moves a user's money if and only if its key is new and either the margin was moved back before and the line is marked, or it was not, the margin is released, the line is not marked and the user's cash covers it. |
| SettlementReconciled.CorrectionGivesBack | services/risk-svc/src/margin_exec.rs:756-848 | A margin moved back is given back by a correction under a new key once the line is marked. |
| SettlementReconciled.CrashInWindowKeepsMargin | services/settlement-svc/src/event_settlement.rs:380-436 | After a crash between the first line's posting and its mark, the correction keeps the user's margin back if and only if its key is new and the user's cash before the settlement covers what the user owes. |
| SettlementServices.BuildSettlementEntries | services/settlement-svc/src/event_settlement.rs:37-77 | The branches that push entries produce the specified posting, or refuse a net above the margin. |
| SettlementServices.CheckOpenInterest | services/settlement-svc/src/event_settlement.rs:292-305 | The loop decides whether every contract's positions sum to zero. |
| SettlementServices.PlanAll | services/settlement-svc/src/event_settlement.rs:268-378 | The loops over holders and margin-only accounts write the specified lines or report the specified problem. |
| SettlementServices.NextLine | services/settlement-svc/src/event_settlement.rs:380-388 | The scan finds the pending line with the lowest net, ties by position. |
| SettlementServices.Settler.SettleEvent | services/settlement-svc/src/event_settlement.rs:157-475 | The call's loops make the steps of the model from wherever an earlier call stopped, to completion or to the step that fails. |
| Isolated.SplitTracksPosition | services/risk-svc/src/main.rs:161-286 | The opening and closing units of an order are exactly what it adds to and takes off the size of the position. |
| Isolated.OpeningSplitTelescopes | services/order-router/src/main.rs:1371-1396 | However executions are cut into fills, each opening count is part of its fill and they sum to min(max(filled - closing, 0), opening). |
| Isolated.HoldAmountAtBandEdge | services/order-router/src/main.rs:1525-1563 | A fill's commit can be made out exactly when its price is off the band's edge on the party's side; at the edge there is no amount at all. |
| Isolated.RiskIsExposure | services/risk-svc/src/main.rs:683-720 | A binary order's hold is what it can lose exactly for YES and LONG orders, or at half the payout. |
| Isolated.HoldIsWhatFillsCommit | services/risk-svc/src/main.rs:683-720 | Off the band's edge a hold is exactly what fills at the limit commit, however they cut the order: all units of a binary, the opening units of a future. |
| Escrow.PartyEscrow | services/order-router/src/main.rs:1420-1496 | A party adds to escrow what its opening units commit and takes out what its closing units are credited. |
| Escrow.FillEscrow | services/order-router/src/main.rs:1265-1369 | One fill moves escrow by the change of the units users hold long, plus what the two orders' splits misjudge, at full payout, plus the band's skew per unit opened short. |
| Escrow.LongIsShort | services/position-svc/src/main.rs:591-605 | After any trades the units held long by users equal the units held short, positions taken from the trades themselves. |
| Escrow.InterestStep | services/position-svc/src/main.rs:532-589 | Open interest grows by a trade less the units that close its buyer's and its seller's position, a user trading with itself included. |
| Escrow.EscrowConserved | services/order-router/src/main.rs:1401-1563 | After any trades the escrow account has grown by the positions held long at full payout, plus the payout of what the splits misjudged, plus the skew per unit opened short; in a symmetric band it equals open interest if and only if those errors cancel. |
| Escrow.EscrowRightThroughoutIff | services/order-router/src/main.rs:1265-1369 | In a symmetric band escrow equals open interest after every trade if and only if no trade's splits misjudge its positions. |
| Escrow.SplitRightIff | services/risk-svc/src/main.rs:161-286 | The split of an order, amended or not, is right for every way its fills and its user's other orders can interleave if and only if the position covers all it may fill whatever is taken away, or it was not amended above its entry count and the position never has anything to close or no other order moves it. |
| Escrow.AmendedAloneIff | services/order-router/src/main.rs:588-690 | With no other order beside it, an order's split is right if and only if it was amended above neither its entry count nor the position it could close. |
| Escrow.SafeOrdersConserveEscrow | services/order-router/src/main.rs:1265-1369 | While every order meets that condition against what its user's other orders filled, amended orders filled up to their amended count included, escrow is open interest at full payout plus the skew. |
| Escrow.TwoClosingOrdersEmptyEscrow | services/risk-svc/src/main.rs:234-286 | The failing family: a user long some units offers them twice; neither order needs a hold, both sell, and the payout of those units is missing from escrow. |
| Escrow.AmendedOrderDrainsEscrow | services/order-router/src/main.rs:588-690 | The second failing family: a flat user's order amended to more units at a lower price passes the hold check, and its fill leaves the payout of every unit above the entry count missing from escrow. |
| OrderHolds.Remainder | services/order-router/src/main.rs:1581-1673 | The loop over an order's fills leaves the hold less what they committed, or fails at the first opening fill that cannot be priced. |
| OrderHolds.CommittableIff | services/order-router/src/main.rs:1636-1650 | The remainder can be worked out if and only if no execution with opening units is at the band's edge on the order's side. |
| OrderHolds.HoldCoversFills | services/risk-svc/src/main.rs:683-720 | The hold placed at entry is at least what any executions of the order commit at its limit or better, whether the order was amended or not. |
| OrderHolds.AmendmentsFit | services/order-router/src/main.rs:618-650 | Whatever amendments are asked for before the first fill, split and hold stay, and the order is as entered or its hold is exactly what its new price and count need. |
| OrderHolds.OrderFinishes | services/order-router/src/main.rs:1581-1673 | For a finished order, amended or not, whose opening executions are off the edge, positive commits under distinct keys and the remainder add up to the hold. |
| OrderHolds.EdgeExecutionStuck | services/order-router/src/main.rs:1525-1563 | One opening execution at the edge: that fill is never posted and the order's remainder is never released. |
| OrderHolds.SaleAtTheTopIsStuck | services/order-router/src/main.rs:1525-1563 | Such an input: a future sold short within its limit at the top of the band, with money on hold. |
| OrderHolds.TurnAccepted | services/order-router/src/main.rs:1498-1523 | In any interleaving with other ledger operations, the next commit and the remainder are accepted. |
| OrderHolds.HoldIsConserved | services/ledger-svc/src/main.rs:682-691 | At the end committed plus released equals the hold, it is closed, and a later commit is refused. |
| OrderHolds.PlacedHoldIsConserved | services/ledger-svc/src/main.rs:149-394 | The same from the empty ledger on: after any run of operations that move HOLDS only by holds, an order's hold is placed, and its commits and remainder are taken in any interleaving until it closes. |
| IsolatedServices.FillPoster.PostFillParty | services/order-router/src/main.rs:1420-1496 | The posting of one party is the specified pair of ledger operations, stopping at the first error; an opening part without a hold or without an amount is refused. Where the money goes is `PartyBalances.PartyMoves`. |
| IsolatedServices.DonePartyRan | services/order-router/src/main.rs:1420-1496 | A party that is done made exactly the operations the escrow equation counts. |
| IsolatedServices.PartyPostedOnce | services/order-router/src/main.rs:1194-1260 | Posting a finished party again changes nothing. |
| PartyBalances.PartyMoves | services/order-router/src/main.rs:1420-1496 | A party posted for the first time raises its user's CASH by the closing credit, lowers the HOLDS of its hold's user by the commit, moves the escrow by commit less credit, and moves no other account. |
| PartyBalances.TradeTaken | services/order-router/src/main.rs:1265-1370 | With unused keys and holds that can pay for what its parties open, every posting of a fill is taken, whoever is the maker. |
| PartyBalances.ClosersArePaid | services/order-router/src/main.rs:1420-1496 | Over any trades each user's CASH rises by exactly what the user's own closing units are credited, and the escrow by what was committed less what was credited. |
| PartyBalances.EscrowPaysClosers | services/order-router/src/main.rs:1420-1496 | That net is what holds committed less what all users together were credited: the closers get exactly what the escrow gives. |
| Shadow.OpenLot.Apply | services/risk-svc/src/shadow.rs:47-75 | The in-place update of quantity and cost is the specified lot, flips through zero included; what the lot costs is `ShadowCosts.UniformFills`, `ShadowCosts.OneSidedFills` and `ShadowCosts.ReductionKeepsShare`. |
| Shadow.FillKeepsSensible | services/risk-svc/src/shadow.rs:47-75 | Cost keeps the sign of the quantity and at most quantity times maximum, despite truncating pro-rata division. |
| Shadow.LotsSurviveTruncation | services/risk-svc/src/shadow.rs:47-83 | After any fills in the band: quantity is their sum, a flat lot costs nothing, today's capital is between zero and the maximum. |
| ShadowCosts.UniformFills | services/risk-svc/src/shadow.rs:47-75 | Fills all at one unit value, in any directions, leave a lot that costs exactly its quantity at that value. |
| ShadowCosts.OneSidedFills | services/risk-svc/src/shadow.rs:47-75 | Fills all on one side leave a lot that costs exactly what they paid. |
| ShadowCosts.ReductionKeepsShare | services/risk-svc/src/shadow.rs:47-75 | A reduction leaves the cost's pro-rata share to within one micro, never less in size, whatever its price; a fill through zero opens what is left over at its own price. |
| ShadowCosts.UniformCapital | services/risk-svc/src/shadow.rs:76-83 | Today's capital of a lot bought at one value is its premium, and of one sold at it what the premium leaves of the maximum. |
| Shadow.Evaluate | services/risk-svc/src/shadow.rs:114-200 | A row is produced exactly when the engine accepts the account and the lots explain its positions; its four numbers and violation are as described. |
| Shadow.GateExactly | services/risk-svc/src/shadow.rs:6-18 | worst_case <= capital_cross always; no violation exactly when the margin is within short collateral plus holds. |
| Shadow.HoldsKeepGate | services/risk-svc/src/shadow.rs:6-18 | Holds that cover what separate margin locks for the orders keep the gate. |
| Shadow.GateHolds | services/risk-svc/src/shadow.rs:6-18 | When each hold covers its order's own worst loss, worst_case <= capital_cross <= capital_today. |
| Shadow.OrphanedClosingOrderTripsGate | services/risk-svc/src/shadow.rs:6-18 | A working order without a hold, on an account that holds nothing, trips the gate whenever it could lose anything. |
| Matching.WalkFills | third_party/liquibook/src/book/order_book.h:780-850 | The best-first walk fills exactly what is open, and leaves nothing that could still trade. |
| Matching.TradesWithinLimits | third_party/liquibook/src/book/order_book.h:780-850 | Every trade is with a resting order at its own price, within both limits. |
| Matching.AvailableIsOpen | services/me-core/src/engine.cpp:328-342 | `available_quantity` is the open quantity, saturated at 64 bits. |
| Matching.FokExactly | services/me-core/src/engine.cpp:344-361 | An accepted fill-or-kill order fills completely, and one refused for quantity could not have. |
| Matching.PostOnlyExactly | services/me-core/src/engine.cpp:315-326 | An order crosses exactly when it would trade, so accepted post-only orders get no fill. |
| Matching.NoSelfTrade | services/me-core/src/engine.cpp:344-361 | With self-trade prevention on, no fill pairs a user with itself. |
| Matching.SelfTradeIff | services/me-core/src/engine.cpp:344-361 | On any sorted book an order would trade with its own user if and only if the user has an open order it meets and what others offer ahead of that is less than its quantity. |
| Matching.SelfTradeRefusalNeededIff | services/me-core/src/engine.cpp:344-361 | Prevention refuses exactly the orders that meet one of the user's own, and the refusal was needed if and only if the quantity ahead of it is less than the order's. |
| OrderBooks.PrecheckLoop | services/me-core/src/engine.cpp:344-361 | The engine's iterator loops decide as the specified precheck, reject codes in the same order. |
| OrderBooks.MatchRegular | third_party/liquibook/src/book/order_book.h:780-850 | The matching loop is the best-first walk. |
| OrderBooks.MatchAllOrNone | third_party/liquibook/src/book/order_book.h:852-953 | The all-or-none loop with deferred entries trades as the walk and leaves the book the walk leaves when enough is open; otherwise it trades nothing and changes nothing. |
| OrderBooks.SubmitKeepsBook | services/me-core/src/engine.cpp:363-411 | A submit of any kind leaves both sides sorted, nothing empty and every bid below every ask. |
| OrderBooks.BookNeverCrosses | services/me-core/src/engine.cpp:363-495 | So does every run of submits, cancels and amends. |
| OrderBooks.OrderBook.Submit | services/me-core/src/engine.cpp:363-411 | The method that prechecks, matches (fill-or-kill through the all-or-none loop) and rests an order on the book is the specified transition; what becomes of the order is `CommandEffects.SubmitOutcome`, who trades first `TimePriority.PriceTimePriority`. |
| MatchingEngines.ApplyKeeps | services/me-core/src/engine.cpp:269-495 | Every command, accepted or refused, keeps every book sorted and uncrossed and every stream equal to what was last announced, numbered upwards within its counter; nothing published is taken back. |
| MatchingEngines.RunKeeps | services/me-core/src/engine.cpp:171-200 | So does every run of commands. |
| MatchingEngines.DepthShows | services/me-core/src/engine.cpp:681-706 | The depth the engine adds up shows at every price exactly what rests there. |
| TimePriority.WalkTakesFront | third_party/liquibook/src/book/order_book.h:780-850 | A match takes all of the entries at the front and then part of one more, in order, and leaves the rest. |
| TimePriority.QueuesStayInTurn | third_party/liquibook/src/book/order_book.h:714-725 | Over every run of commands, orders at one price stand in the order in which the last accepted submit or amendment of each was made; each order rests at most once, where its record says, with exactly what its record has unfilled. |
| TimePriority.PriceTimePriority | services/me-core/src/engine.cpp:363-495 | Price-time priority over every run: whatever command comes next, it fills an order only if every order ahead of it, by price or by place, is then filled completely and gone. |
| CommandEffects.SubmitOutcome | services/me-core/src/engine.cpp:363-411 | An accepted order is filled with as much as is open to it and its record says so; the rest rests at its price if and only if there is any and the order is neither immediate nor fill-or-kill. |
| CommandEffects.CancelOutcome | services/me-core/src/engine.cpp:413-432 | A cancelled order rested and rests no more; no record changes. |
| CommandEffects.AmendOutcome | services/me-core/src/engine.cpp:434-495 | An amended order had no fill and rests at its new price for its new quantity. |
| CommandEffects.OthersStay | services/me-core/src/engine.cpp:269-495 | A command moves no resting order but the one it names and those it fills. |
| CommandEffects.SubmitNumbers | services/me-core/src/engine.cpp:540-660 | An accepted order takes one number for itself, one per trade, one if its rest is dropped, and one per announced level, in its market and in all alike. |
| CommandEffects.RunCounts | services/me-core/src/engine.cpp:540-548 | Over every run the global counter is the sum of the markets' counters. |
| CommandEffects.RunInBand | services/me-core/src/engine.cpp:363-495 | Over every run each resting price is positive and within its market's band. |
| CommandEffects.ClosedBookTakesNothing | services/me-core/src/engine.cpp:296-495 | A closed book takes no order and no amendment, and its orders can still be cancelled. |
| EngineServices.NotifyMarket | third_party/liquibook/src/book/depth_order_book.h:188-204 | The end of a book operation: events numbered, and, if the depth tracker noticed, every changed total announced. |
| EngineServices.Snapshot | services/me-core/src/engine.cpp:497-543 | The two loops return the best levels of each side with their totals, at most 25 whatever is asked for. |
| EngineServices.MatchingEngine.AddBook | services/me-core/src/engine.cpp:269-294 | `apply_add_book` on the engine's tables is the specified transition, reject codes included. |
| EngineServices.MatchingEngine.CloseBook | services/me-core/src/engine.cpp:296-313 | `apply_close_book` likewise. |
| EngineServices.MatchingEngine.SubmitOrder | services/me-core/src/engine.cpp:363-411 | `apply_submit_order` likewise: checks in the engine's order, matching, fills on both orders' records, one count per event in the market and in all. |
| EngineServices.MatchingEngine.CancelOrder | services/me-core/src/engine.cpp:413-432 | `apply_cancel_order` likewise. |
| EngineServices.MatchingEngine.AmendOrder | services/me-core/src/engine.cpp:434-495 | `apply_amend_order` likewise: off the book and on again, each announced on its own. |
| BookStream.EmitLevels | services/me-core/src/engine.cpp:681-743 | The loops over the sorted prices of both sides emit one delta for each level whose total changed, under consecutive sequence numbers. |
| BookStream.DeltasAreChanges | services/me-core/src/engine.cpp:681-743 | Applied to the old depth the deltas give the new one; each names a level that changed, once, with its new total. |
| BookStream.SortBuffer | services/gw-ws/src/main.rs:400-405 | Sorting the buffer keeps the same events and the deltas in order of arrival. |
| BookStream.RunSubscription | services/gw-ws/src/main.rs:313-398 | A subscriber is sent the snapshot, then of the sorted buffer every trade and every delta newer than the snapshot, then everything live, each in order. |
| BookStream.SubscriptionSends | services/gw-ws/src/main.rs:313-405 | Every trade buffered or live is sent exactly once and so is every delta that is not old; buffered events go out by sequence number, deltas ahead keep their order. |
| BookStream.SentIsClientDepth | services/gw-ws/src/main.rs:313-398 | Applying what was sent gives the depth the convergence theorem speaks of. |
| BookFeeds.SnapshotSplits | services/gw-ws/src/main.rs:313-398 | The snapshot's counter splits the stream of deltas exactly where the snapshot was taken, whatever the engine ran before and after. |
| BookFeeds.SubscriberSeesIff | services/gw-ws/src/main.rs:313-398 | A subscriber shows what the engine's book has at a level if and only if the level was sent since and last announced right, or never sent and right in the snapshot. |
| BookFeeds.StreamConvergesIff | services/gw-ws/src/main.rs:313-398 | From a full snapshot of an announced book, a subscriber shows the engine's book at every level if and only if the engine has announced its book. |
| BookFeeds.NotifyInStepIff | third_party/liquibook/src/book/depth_order_book.h:188-204 | After a book operation the announced depth is the book if and only if the tracker noticed or the operation left the book at what was announced. |
| BookFeeds.ShallowBooksConverge | services/me-core/src/engine.cpp:681-743 | In every run in which no side ever has more than 25 prices, every subscriber, joining at any point, shows the book at every level. |
| BookFeeds.DeepOrderUnannounced | third_party/liquibook/src/book/depth.h:224-285 | An order resting behind 25 better prices at a price of its own is not announced at all. |
| BookFeeds.DeepOrderMissing | third_party/liquibook/src/book/depth.h:224-285 | A subscriber with the whole book before it does not show its level. |
| BookFeeds.DeepCancelLeavesPhantom | third_party/liquibook/src/book/depth.h:224-285 | Cancelling the last order of a price behind 25 better ones leaves it with every subscriber that had it. |
| BookFeeds.DeepBookExists | services/me-core/src/engine.cpp:363-411 | There are such books: 25 asks at rising prices leave any higher price behind all of them. |
| BookFeeds.CutLevelStaysWrong | services/me-core/src/engine.cpp:497-543 | A level cut from the snapshot stays wrong while it is not empty and no delta for it is sent. |
| Journals.LengthRoundTrips | services/me-core/src/engine.cpp:205-226 | Four length bytes give back the length. |
| Journals.LengthIsCanonical | services/me-core/src/engine.cpp:228-240 | Any four bytes are the length bytes of the number they denote. |
| Journals.DecodesIff | services/me-core/src/engine.cpp:205-254 | A file decodes to a list of commands exactly when it is their journal and each can be restored. |
| Journals.TornTailStopsRestore | services/me-core/src/engine.cpp:228-254 | A journal with part of one more frame restores exactly when not one byte of it was written; else header or truncation error. |
| Journals.RestoreJournal | services/me-core/src/engine.cpp:228-254 | The restoring loop applies the decoded commands in order, or reports the first fault. |
| Journals.Sequencer.Execute | services/me-core/src/engine.cpp:171-226 | A command is journaled, then applied, and the file stays the journal of the commands taken; one too long changes nothing. |
| Journals.RestartReachesLiveRunIff | services/me-core/src/engine.cpp:228-254 | For any deterministic commands, a restart reaches the state of the live run exactly when no journaled payload is over 64 MiB. |
| EngineJournals.RestartRebuildsEngineIff | services/me-core/src/engine.cpp:205-254 | After any run of commands a restart rebuilds books, orders, announced depth and sequence counters as they were if and only if no journaled message is over 64 MiB; otherwise the engine does not start. |
| EngineJournals.RestartIsInvisible | services/me-core/src/engine.cpp:205-254 | Stopped between two commands and started again, the engine goes on as if it had never stopped: what it publishes later extends what it published before, under the same numbers. |
| EngineJournals.TornCommandStopsEngine | services/me-core/src/engine.cpp:205-254 | Stopped inside an append it starts again if and only if not one byte of the command was written, and then without that command. |
| Positions.ExactlyOnce | services/position-svc/src/main.rs:407-469 | Under duplicates, gaps, failures and a lagging store, each net quantity is the sum over distinct applied fills. |
| Positions.NothingMissing | services/position-svc/src/main.rs:280-371 | When the store holds every earlier fill, nothing at or below the offset is ever missing. |
| Positions.LongEqualsShort | services/position-svc/src/main.rs:591-605 | Whatever was delivered, positions in each contract sum to zero. |
| Positions.PositionIsBoughtLessSold | services/position-svc/src/main.rs:407-469 | After any deliveries a position is the units bought less the units sold by the fills counted, buying and selling as the matching book has it. |
| PositionServices.RangeJoins | services/order-router/src/main.rs:761-833 | A range of stored fills is its lower part followed by its upper part. |
| PositionServices.PageSplits | services/order-router/src/main.rs:761-833 | Behind a full page, the rest of a range starts after the page's cursor. |
| PositionServices.DeliveryCatchesUp | services/position-svc/src/main.rs:280-320 | A delivery that does not fail applies the gap in front of its fill and then the fill. |
| PositionServices.PositionConsumer.ReplayGap | services/position-svc/src/main.rs:322-371 | Page after page, the replay applies every stored fill of the range once, in order, and its cursor always advances. |
| PositionServices.PositionConsumer.ApplyFill | services/position-svc/src/main.rs:407-469 | One fill's transaction on applied fills, quantities and offset is the specified step. |
| PositionServices.PositionConsumer.Consume | services/position-svc/src/main.rs:280-320 | One message leaves the tables where the gap and the fill, applied in order, leave them. |
| CostBasis.AverageWithinPrices | services/position-svc/src/main.rs:532-589 | An open position is carried at an average between the lowest and the highest price traded. |
| CostBasis.ProfitIsCashUpToRounding | services/position-svc/src/main.rs:532-589 | Realised profit plus the cost of the open position is the cash paid and received, within what the two divisions can round away. |
| CostBasis.LongsNeverUnderstate | services/position-svc/src/main.rs:532-589 | For a user that is never short the error is always in its favour. |
| CostBasis.TradeExactIff | services/position-svc/src/main.rs:546-580 | One trade keeps profit plus open cost equal to cash if and only if neither division leaves a remainder: none when adding, or an average of whole ticks, or nothing closed, when closing. |
| CostBasis.ProfitExactIff | services/position-svc/src/main.rs:532-589 | For a user that stays on one side, profit is cash exactly if and only if every trade was exact. |
| CostBasis.TickScales | services/position-svc/src/main.rs:532-589 | The tick value scales the profit and nothing else. |
| CostBasis.RoundTripOverstated | services/position-svc/src/main.rs:571-580 | An inexact run: three units bought for five ticks and sold for six show a profit of three. |
| CostBasis.FreeUnitsRealiseNothing | services/position-svc/src/main.rs:546-554 | Whatever is held at an average of zero, the next trade realises nothing, and the books are off by the whole price of what was held. |
| CostBasis.FreeUnitsReached | services/position-svc/src/main.rs:546-554 | Units bought at price zero are such a position. |
| OrderCounters.LateFill | services/order-router/src/main.rs:1683-1734 | A fill takes back cancelled quantity, then expired, and only then working quantity; filled + cancelled + expired <= count is kept. |
| OrderCounters.FillsStatus | services/order-router/src/main.rs:1683-1734 | Any fills leave an order filled if and only if they reach its count, and partly filled otherwise. |
| OrderCounters.CancelAcceptedIff | services/order-router/src/main.rs:569-574 | A cancel of a working order is written exactly when it holds no expired quantity. |
| OrderCounters.CancelPendingAccepted | services/order-router/src/main.rs:880-895 | Cancelling a pending order accounts for every unit, expired ones included. |
| OrderCounters.FinishAcceptedIff | services/order-router/src/main.rs:1026-1048 | A response is written unless it cancels the rest of an order that holds expired quantity. |
| OrderCounters.AmendAcceptedIff | services/migrations/000011_order_position_reservations.up.sql:7-9 | An amended count is written if and only if it covers what is filled, cancelled and expired, and what is reserved as opening and closing units. |
| OrderCounters.CountNeverFalls | services/migrations/000011_order_position_reservations.up.sql:7-9 | Once an order's units are reserved its row never counts less than it was entered for, whatever is written. |
| OrderCounters.LoweredOrderStaysPartial | services/order-router/src/main.rs:660-690 | An order amended below its entry count is lowered in the engine and not in the row; whatever the engine then fills, the row stays partly filled. |
| OrderCounters.ExpiredOrderCannotBeCancelled | services/order-router/src/main.rs:569-574 | An expired order reopened by a late partial fill cannot be cancelled. |
| OrderCounters.RunKeepsCounters | services/migrations/000012_api_contract_corrections.up.sql:17-21 | From insertion on, any order of reservations, fills, responses, cancels and amends, refused ones included, keeps filled + cancelled + expired <= count and reserved units <= count, with no expired quantity. |
| OrderCounters.RunRefusesIff | services/migrations/000011_order_position_reservations.up.sql:7-9 | In every reachable state the only writes refused are an amend below what is accounted for or reserved, and a reservation above the count. |
| OrderCounters.ResponseStatusAgreesIff | services/order-router/src/main.rs:1026-1048 | The status written from a response agrees with the counters exactly unless other fills, stored first, complete the order. |
| OrderCounters.LateResponseReopensFilled | services/order-router/src/main.rs:1026-1048 | An order whose rest is hit before its own response is stored ends up filled and marked partial. |
| OrderCounters.AverageBetween | services/order-router/src/main.rs:1683-1734 | In every reachable state, responses included, the average price is between the lowest and the highest fill price. |
| OrderCounters.AverageDrift | services/order-router/src/main.rs:1683-1734 | While responses are stored before any other fill, the average never overstates what was paid and understates it by at most one tick per fill. |
| OrderCounters.ResponseKeepsAverageIff | services/order-router/src/main.rs:1026-1048 | An order with room keeps a faithful average under every response that fits it if and only if no fill was stored before the response. |
| OrderCounters.ResponseDrift | services/order-router/src/main.rs:1026-1048 | What a response does to the average: it becomes the response's own, and the earlier fills are counted at it. |
| OrderCounters.LateResponseMovesAverage | services/order-router/src/main.rs:1026-1048 | The failing family: a fill stored before the response is later counted at the response's price, off by its whole price difference. |
| OrderCounters.OrderTable.UpdateFill | services/order-router/src/main.rs:1683-1734 | The update of one row is the specified fill and never breaks the table's check. |
| OrderCounters.OrderTable.PersistFills | services/order-router/src/main.rs:954-1057 | The loop over a response's fills and the write behind it either both happen as specified or leave the row as it was. |
| OrderCounters.OrderTable.AmendCount | services/order-router/src/main.rs:683-690 | The write behind an amendment happens as specified or leaves the row as it was. |

## Left out

- Prices and sizes are mathematical integers: 64-bit overflow is not modelled, except the saturation of
  `available_quantity` and the 32-bit length of a journal frame. `narrow` and `saturating_*` never apply.
- Users, contracts, orders and fills are numbered, and account names are constructors, so no two things share a
  name. The order id that one user reuses from another user (a primary-key conflict) is not modelled.
- One event at a time: other events' accounts appear only as foreign ledger operations. Escrow is for one contract.
- The number of users is fixed over a run and each has a CASH account from the start.
- Entries of one posting are in the order accounts are met, not in account-code order; each account appears once.
- EventMargins.Search: does not say which of several equally bad outcomes is reported as the worst.
- Fees are zero, as they are in the code. Clocks, timeouts, advisory locks, gRPC, NATS and SQL text are not part
  of this model: a locked transaction is one step, a ledger call another, and messages are sequences.
- Crashes are between a ledger post and the commit behind it; a posting that fails half-way is undone by its
  database transaction and leaves nothing.
- Settlement status FAILED behaves like POSTING and is not distinguished from it; `mark_failed` is left out.
- Matching.Walk: is for books without resting all-or-none or stop orders, which this engine never places.
- The book stream loses nothing: bounded event history (4096), slow subscribers and missing `contract_seq` are
  left out.
- Liquibook's depth tracker is its effect: a price is tracked while fewer than 25 prices of its side are better.
  Its level arrays, change ids and per-level order counts are left out, and so are a delta's difference and count.
- A market's stream lists its depth deltas; accepted, fill, cancel and close events are counted in the numbering
  and not listed.
- Journals.Replay: takes what a command does as a parameter; `EngineJournals` gives it the engine's commands.
  Event timestamps are left out, which a restart does not reproduce. Length bytes are taken little-endian, as on
  the machines it runs on.
- EngineJournals.RestartRebuildsEngineIff: takes protobuf as a format that parses what it wrote; the messages
  themselves are byte strings.
- A command refused because the queue is full reaches neither journal nor engine, and one whose caller gave up
  waiting is applied like any other; the queue is not part of this model.
- SettlementReconciled.SettledIffNothingKept: lets a correction come at any time, without the two sightings a pass
  needs; other movements of the users' cash during a settlement are left out.
- Positions.Deliver: takes a delivery as one message; transport-level reconnects are deliveries that repeat or skip.
- OrderCounters.Finish: covers the row of the response's own order; the makers' rows in the same transaction are
  rows of their own.
- Listing audit, strategy tags, limits, refdata, oracle, rfq, REST handlers, authentication and the frontend:
  reporting, CRUD or plumbing that would only add easy members.
