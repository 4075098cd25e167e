# Paper trading, arbitration and evidence: a verified model

A Dafny model of the `t0-trading` package: the paper execution engine (planner, order-event reducer,
top-of-book matcher, cash and inventory ledger, session log, PostgreSQL compare-and-swap repository),
the shadow journal, the shadow delivery protocol, the candidate arbitrator, market bars, bounded
feature and breadth state, the cycle simulator, the capture spool, and the promotion walk-forward.

`dafny verify dfyconfig.toml` checks the whole project.

## How it is built

| files | component |
|---|---|
| `PaperModel`, `OrderReducer`, `ReducerExact`, `LedgerParts`, `PaperLedger`, `LedgerExact` | records and validators, the reducer, the ledger, each with its exact conditions |
| `SessionLog`, `SessionBooks`, `SessionAccounts`, `SessionHistory` | the operation log, its replay, what every accepted log satisfies |
| `Planner`, `PlannerExact`, `Matching`, `MatchingExact`, `PaperSession` | planners, matcher, the five session commands |
| `SessionSafety`, `SessionGuards` | validity over every run, guards no run reaches |
| `SessionSubmission`, `SessionLimits`, `ExitLimits`, `SessionClosing`, `ClosingExact` | entries, exits, the clock and cancellations: exactly when, and with what effect |
| `QuoteAllocation`, `QuoteExecution`, `QuoteGates`, `QuotePriority`, `QuoteLiquidity`, `PrioritySample` | quotes: budgets, prices, service, priority, and one concrete run |
| `PaperRepository`, `RepositoryExact`, `RepositoryProtocol` | the two tables and their transactions, any number of clients |
| `DeliveryStore`, `DeliveryProtocol`, `DeliveryProgress` | delivery transactions, any number of dispatchers, and that a selection is sent |
| `Journal`, `JournalReplay`, `JournalExact`, `JournalCascade`, `CascadeReplay` | the live journal against batch replay, and the engines it drives against the three batch passes |
| `Sorting`, `Arbitration`, `Arbitrator`, `ArbitrationMerit`, `ArbitrationRuns`, `ArbitrationReplay` | the arbitration rule, the object that computes it, whole runs |
| `MarketBars`, `BarSummaries`, `FeatureWindows`, `Breadth` | bars, pruned windows, revisions |
| `Simulation`, `SimulationExact`, `Spool`, `SpoolProgress`, `SpoolProtocol`, `WalkForward` | simulator, outbox, folds and rounding |

Conventions. Money is `real`: the code's decimals are taken as exact, except in `WalkForward`, where half-up
rounding is the subject. Instants are integer microseconds. Exceptions are `Err` results. SHA-256 identities
are arbitrary functions (`Digests`, `Codes`); only results that promise success ask that the new order,
event or ledger collide with none of the log's (`FreshOrder` and what is built on it, the exact clock and
cancellation, `CrossingFills`), and a commit is refused by a unique key only when two operations of its own
session share a digest (`ServeOutcome`). Database transactions are atomic steps; each SQL statement reads
the clock once, and no result assumes that clock to be monotone. A loop or a mutated object of the source is
a method or class here, proved against a specification function; the theorems are about that function.

## Where the code does less than one might expect

- Strict priority on a quote holds exactly up to one exception (`StrictPriority`): an order that has already
  filled from the quote's stream session and sequence is skipped, and a lower-ranked order may then fill.
  That takes an identity that comes back, which the cursor check allows because it compares with the
  previous quote only (`IdentityReturns`), and one that still has a lot of recorded capacity, because the
  liquidity guard rejects the quote otherwise (`SkippedNeedsSpare`). A run reaches it (`PriorityCanFail`).
- Live and batch agree if and only if every envelope is timely and every clock settled
  (`LiveIsBatchExactly`). A clock taken outside every gap recorded so far is settled when an open disconnect
  at or before it is later recorded as a gap that covers it, and a clock with no such disconnect is covered
  by no later gap. A disconnect at the very instant of a clock just taken (`DisconnectAtTakenClock`), a gap
  of no length (`ZeroLengthGap`) and an envelope received exactly at a clock already taken
  (`LateEnvelopeDiverges`) break this without any error.
- A retried commit whose first execution succeeded reports a conflict when another client has committed in
  between; its transition is nevertheless stored exactly once (`CommittedOnce`).
- "Manifests last" holds for a staging exactly when the store did not yet have the manifest or already had
  the payloads staged before it (`ManifestLastExactly`); the failing case occurs (`RestagedManifestIsEarly`).

## Model

| member | source | states |
|---|---|---|
| OrderReducer.ReduceLoop | t0-trading/src/t0_trading/execution/engine.py:208-317 | the event loop, raising at the first inconsistent event, computes the fold `Reduce` about which everything below is proved |
| OrderReducer.AcceptedHistory | t0-trading/src/t0_trading/execution/engine.py:208-317 | for every accepted history: cumulative quantity is the sum of the fill evidence, average times quantity is exactly the money the fills exchanged, the quantity is complete exactly when the status is FILLED, the value never passes the limit price |
| OrderReducer.PrefixAccepted | t0-trading/src/t0_trading/execution/engine.py:208-317 | every prefix of an accepted history is accepted, and no event follows a terminal one |
| OrderReducer.AverageCheckRedundant | t0-trading/src/t0_trading/execution/engine.py:286-296 | dropping the average-price limit check changes no result, not even which error is raised: the per-fill check already implies it |
| ReducerExact.ReducerExactly | t0-trading/src/t0_trading/execution/engine.py:208-317 | an accepted history takes a valid event next if and only if it follows in number and time on a live order, with new digests, and its kind's own conditions hold in the history's own sums: acceptance or rejection first, cancellation after acceptance, expiry at or after the deadline, a fill before it that adds its shares and its money, once, in receipt order, within the limit |
| PaperLedger.InitialLedger | t0-trading/src/t0_trading/execution/ledger.py:23-42 | the first ledger offers, for each symbol, exactly the settled quantity above core, with the account's cash and no reservation |
| PaperLedger.ShiftLoop | t0-trading/src/t0_trading/execution/ledger.py:70-88 | the position loop with its `found` flag: moves one symbol, refuses an unknown symbol and a negative result |
| PaperLedger.ReserveEntryConserves | t0-trading/src/t0_trading/execution/ledger.py:91-125 | cash moves into the pending reservation and shares out of the available position without loss; the ledger stays valid |
| PaperLedger.SettleEntryConserves | t0-trading/src/t0_trading/execution/ledger.py:128-184 | exactly the fee-inclusive cost of the fill leaves cash plus pending cash and becomes held cost; unfilled shares return |
| PaperLedger.ReserveExitConserves | t0-trading/src/t0_trading/execution/ledger.py:187-220 | reserving an exit moves no money and no share |
| PaperLedger.SettleExitConserves | t0-trading/src/t0_trading/execution/ledger.py:223-284 | a sale never credits available cash; held cost falls by the cost of the units sold, profit rises by net proceeds less that cost, owned shares fall by the fill |
| LedgerExact.ReservesEntryExactly | t0-trading/src/t0_trading/execution/ledger.py:91-125 | an entry reserves if and only if it is of the ledger's day and planned on this very ledger, its digest is new, and cash and shares suffice; everything the ledger then changes is listed |
| LedgerExact.SettlesEntryExactly | t0-trading/src/t0_trading/execution/ledger.py:128-184 | a pending entry settles if and only if its order is terminal, the costs cover its day and its fill cost fits the cash set aside; the rest returns and the fill becomes an open cycle |
| LedgerExact.ReservesExitExactly | t0-trading/src/t0_trading/execution/ledger.py:187-220 | an exit reserves if and only if it is planned on this very ledger for the whole of its parent's open cycle; only that reservation changes |
| LedgerExact.SettlesExitExactly | t0-trading/src/t0_trading/execution/ledger.py:223-284 | a pending exit settles if and only if its order is terminal, the costs cover its day and it sold no more than the cycle; profit, and nothing of cash, moves by the sale's yield less its shares' cost |
| SessionLog.ReplayLoop | t0-trading/src/t0_trading/execution/runtime.py:61-116 | the validator's replay loop computes the fold `ReplayAll`, stopping at the first error |
| SessionLog.ReplayLinked | t0-trading/src/t0_trading/execution/runtime.py:61-116 | the loop's dictionaries hold exactly the orders and events a reader finds in the log, each history accepted by the reducer |
| SessionBooks.ReplayBooks | t0-trading/src/t0_trading/execution/runtime.py:61-116 | for every accepted log, live orders and reservations correspond both ways: a live entry owns its pending reservation, a live exit its parent's cycle, and every reservation is explained by orders at their own prices and sizes |
| SessionAccounts.AcceptedLogBalances | t0-trading/src/t0_trading/execution/ledger.py:91-284 | over every accepted log: initial cash less available less pending cash is the fee-inclusive outlay of the fills of settled entries, which is the entry cost of units sold plus that of units held; profit is net proceeds less the cost of units sold; shares balance per symbol. All sums are taken from the fill evidence, not from the ledger |
| SessionAccounts.ClosedBooks | t0-trading/src/t0_trading/execution/ledger.py:223-284 | with no reservation left, realised profit is net sale proceeds less the cash that left |
| SessionAccounts.CoreNeverSold | t0-trading/src/t0_trading/execution/ledger.py:23-42 | available plus reserved plus sold quantity of a symbol is its settled quantity less core, so core is never sold, across partial entries, partial exits and repeated exits |
| SessionHistory.ReplayNoRepeats | t0-trading/src/t0_trading/execution/runtime.py:71-110 | an accepted log never holds the same operation twice |
| SessionHistory.ApplyExtends | t0-trading/src/t0_trading/execution/runtime.py:134-331 | every command leaves the session as it is, or raises the revision by one and only appends to the log |
| Planner.ReadyEntryReserves | t0-trading/src/t0_trading/execution/engine.py:54-125 | a READY entry plan is a valid order covered by the cash it reserves, leaves the cash reserve untouched, and its ledger accepts it exactly when no reservation has its digest |
| PlannerExact.ReadyEntryExactly | t0-trading/src/t0_trading/execution/engine.py:54-125 | an entry is READY if and only if its versions match, the quote is tradable, fresh, deep enough and its limit in the band, shares above core suffice, quantity, notional, started cycles, daily loss and cash reserve are within limits, and it has a priority; every field of the order is given from the request; mismatched versions are an error, anything else is BLOCKED |
| Planner.ReserveCoversFills | t0-trading/src/t0_trading/execution/engine.py:54-58 | whatever fills an accepted history holds, their fee-inclusive cost is at most the reserved cash |
| Planner.ReadyExitReserves | t0-trading/src/t0_trading/execution/engine.py:128-205 | a READY exit plan is a valid order for the open quantity of its entry, and its ledger accepts it |
| PlannerExact.ReadyExitExactly | t0-trading/src/t0_trading/execution/engine.py:128-205 | an exit of an open cycle is READY if and only if the configuration is its entry's and the market allows it past the horizon; it sells the whole cycle at the bid less the offset |
| Matching.LotArithmetic | t0-trading/src/t0_trading/execution/matching.py:105-121 | the matched quantity is whole lots within both the open quantity and the budget, and falls short of a whole-lot order only if less than one lot of budget remains |
| Matching.MatchedEvent | t0-trading/src/t0_trading/execution/matching.py:23-69 | every event the matcher returns is valid, dated by the quote, and accepted by the reducer |
| Matching.MatchedFill | t0-trading/src/t0_trading/execution/matching.py:72-149 | a fill goes only to an eligible order, at the ask for a BUY and the bid for a SELL, within its budget, in whole lots, carrying the quote's identity and receipt, and is FILLED exactly when it completes the order |
| Matching.MatchedIncomplete | t0-trading/src/t0_trading/execution/matching.py:105-149 | an eligible whole-lot order that a quote leaves incomplete either leaves less than one lot of budget or had already traded on this quote and is skipped |
| Matching.MatchedClosing | t0-trading/src/t0_trading/execution/matching.py:82-104 | a live order gets EXPIRED exactly when its deadline has passed, otherwise CANCELLED exactly when the market does not trade, otherwise a fill or nothing |
| MatchingExact.CrossingFills | t0-trading/src/t0_trading/execution/matching.py:105-149 | an open order and a fresh crossing quote that is new to it trade: every whole lot open and offered, at the displayed price, in an event the reducer accepts |
| PaperSession.OfferLoop | t0-trading/src/t0_trading/execution/runtime.py:306-324 | the allocation loop over the sorted orders, spending the two budgets, computes `OfferAll` |
| SessionSafety.AppendTracks | t0-trading/src/t0_trading/execution/runtime.py:134-147 | appending one operation moves the ledger exactly as replaying it would |
| SessionSafety.SortKeeps | t0-trading/src/t0_trading/execution/runtime.py:306-308 | sorting the orders loses and invents none |
| SessionSafety.ApplyFine | t0-trading/src/t0_trading/execution/runtime.py:156-331 | each of the five commands, on every valid session, yields a valid session of the same day or an error other than a ledger mismatch or unordered quote cursors |
| SessionSafety.LedgerNeverDrifts | t0-trading/src/t0_trading/execution/runtime.py:61-153 | the validator never refuses a transition over its ledger comparison or its cursor order: the incrementally kept ledger is always the one the log re-derives |
| SessionSafety.ReplayLots | t0-trading/src/t0_trading/execution/matching.py:105-121 | when every order and fill of a log is whole lots, so is every reservation |
| SessionGuards.RunHealthy | t0-trading/src/t0_trading/execution/runtime.py:156-331 | every session reached from the empty one by any commands is valid, every order in it is covered by the cash it reserves and dated by the session, and every order and fill is whole lots |
| SessionGuards.SettlementNeverFails | t0-trading/src/t0_trading/execution/ledger.py:70-284 | in every reachable session an event the reducer accepts for a known order can be appended: the "fill exceeds reserved cash", negative-inventory and unmatched-settlement guards are unreachable |
| SessionGuards.FreshOrder | t0-trading/src/t0_trading/execution/runtime.py:180-186 | unless its digest or the current ledger's collides with one of the log's, an order planned against the current ledger is new to the log, because ledger revisions strictly increase |
| SessionGuards.ReadyEntryAppends | t0-trading/src/t0_trading/execution/runtime.py:185-200 | a READY entry planned against the session's own ledger always appends |
| SessionGuards.ReadyExitAppends | t0-trading/src/t0_trading/execution/runtime.py:203-236 | a READY exit for an open entry of the session always appends |
| SessionSubmission.OpensExactly | t0-trading/src/t0_trading/execution/runtime.py:134-153 | a new order the ledger accepts becomes two operations, itself and its ACCEPTED event, in a session one revision on, if and only if it is not dated before the last operation (or the account, in an empty log); otherwise the clock guard refuses it and nothing else can |
| SessionSubmission.EntrySubmittedExactly | t0-trading/src/t0_trading/execution/runtime.py:156-200 | an admitted READY entry is submitted whole if and only if its market facts are no older than the log |
| SessionSubmission.ExitSubmittedExactly | t0-trading/src/t0_trading/execution/runtime.py:203-236 | a READY exit of an open entry is submitted whole if and only if its market facts are no older than the log |
| SessionLimits.EntryTakenExactly | t0-trading/src/t0_trading/execution/runtime.py:156-200 | a submission adds an order if and only if it is admitted, the first of its arbitration, planned on the current ledger, allowed by every limit, and no older than the log; in shadow mode, or repeated, it leaves the session as it is |
| SessionLimits.EntriesWithinLimits | t0-trading/src/t0_trading/execution/engine.py:59-100 | every ENTRY of every reachable log was asked for by a command whose versions, quote, shares and risk limits allowed it on the ledger the log had at that point |
| ExitLimits.ExitTakenExactly | t0-trading/src/t0_trading/execution/runtime.py:203-236 | an exit of an open cycle is taken if and only if the market is of its symbol and day, the configuration is its entry's, the market allows it, and its facts are no older than the log |
| ExitLimits.ExitWithoutCycle | t0-trading/src/t0_trading/execution/runtime.py:210-217 | an unknown entry is refused; one without an open cycle leaves the session alone |
| SessionClosing.ClockExpires | t0-trading/src/t0_trading/execution/runtime.py:239-257 | on any valid session the clock ends every live order whose deadline has come with one EXPIRED event, touches no other order, and leaves no reservation of an overdue one |
| ClosingExact.ClockRefusedExactly | t0-trading/src/t0_trading/execution/runtime.py:239-257 | on a reachable session, digest collisions aside, the clock is refused if and only if some live order is overdue and the clock is behind the log |
| ClosingExact.CancelExactly | t0-trading/src/t0_trading/execution/runtime.py:259-272 | a live order of a reachable session is cancelled if and only if the call is in time order, gives a reason and the order was accepted; it ends CANCELLED, its reservation is released, and no other order is touched |
| ClosingExact.RunNumbered | t0-trading/src/t0_trading/execution/matching.py:23-69 | in every reachable session each order's events are numbered one by one |
| SessionGuards.ReplayEntries | t0-trading/src/t0_trading/execution/runtime.py:83-87 | an accepted log has at most one ENTRY for each arbitration |
| SessionGuards.ReachableBalances | t0-trading/src/t0_trading/execution/runtime.py:61-331 | every reachable session balances cash and shares and gives an arbitration at most one entry |
| QuoteAllocation.QuoteSpends | t0-trading/src/t0_trading/execution/runtime.py:296-331 | one accepted quote fills at most each side's budget, and trades no other symbol |
| QuoteExecution.QuotePaysDisplayedPrices | t0-trading/src/t0_trading/execution/runtime.py:298-324 | the fills of an accepted quote exchange the ask for each share bought and the bid for each share sold, of its symbol only, and take no more of a side than it newly displays, in the quotes' own figures |
| QuoteExecution.QuoteServesEligible | t0-trading/src/t0_trading/execution/runtime.py:306-324 | every eligible order that has not traded on a new quote's identity ends complete, or less than one lot of its side is left over |
| QuoteExecution.QuoteCloses | t0-trading/src/t0_trading/execution/matching.py:82-104 | a new quote ends the live orders of its symbol that are overdue EXPIRED, the others CANCELLED when the market does not trade, and gives the rest at most one fill each |
| QuoteGates.QuoteGated | t0-trading/src/t0_trading/execution/runtime.py:275-297 | a quote of another day is refused, the one last taken is ignored, one that may not follow it is refused, and without a policy nothing happens |
| QuoteGates.TakenQuote | t0-trading/src/t0_trading/execution/runtime.py:275-331 | a quote that is taken is of the day, new and in order, and becomes the last of its symbol; every other symbol keeps its own |
| QuoteAllocation.OthersIdle | t0-trading/src/t0_trading/execution/runtime.py:156-272 | no command but a quote trades a share or moves a quote cursor |
| QuoteAllocation.DisplayedSizeBoundsFills | t0-trading/src/t0_trading/execution/runtime.py:298-305 | over any run of commands, while a side's best price stays put, total fills are at most the first displayed size plus the sum of its increases |
| QuoteAllocation.EverythingInLots | t0-trading/src/t0_trading/execution/matching.py:105-121 | in every reachable session each order, fill, open remainder and reservation is a whole number of lots |
| QuotePriority.SortRanks | t0-trading/src/t0_trading/execution/runtime.py:306-308 | orders are offered in non-decreasing (priority, age, digest), each once |
| QuotePriority.StrictPriority | t0-trading/src/t0_trading/execution/runtime.py:306-324 | when a quote fills an order, an eligible order of that side that ranks before it ends complete if and only if it had not already traded on this quote's stream session and sequence |
| PrioritySample.PriorityCanFail | t0-trading/src/t0_trading/execution/matching.py:122-129 | a concrete run of seven valid commands from the empty session, after which a quote that meets every premise of `StrictPriority` is accepted, passes the earlier eligible order by and fills the later one; the identity has exactly one lot to spare, and no two orders, events or ledgers of the run share a digest |
| QuotePriority.IdentityReturns | t0-trading/src/t0_trading/execution/runtime.py:283-294 | the cursor check looks one quote back, so when two streams take turns an identity on which orders have traded passes it again |
| QuoteLiquidity.ReplayLiquidity | t0-trading/src/t0_trading/execution/runtime.py:96-107 | in every accepted log the liquidity guard's table holds, for each identity, symbol and side, exactly the shares the log has filled from it, within the capacity the first of those fills recorded |
| QuoteLiquidity.SkippedNeedsSpare | t0-trading/src/t0_trading/execution/runtime.py:96-107 | an order can be passed by in favour of a later one only if the identity's recorded capacity exceeds what has been taken from it by at least one lot |
| QuoteLiquidity.PriorityWithoutSpare | t0-trading/src/t0_trading/execution/runtime.py:96-107 | so where an identity has less than one lot to spare, strict priority has no exception |
| PaperRepository.Repository.Initialize | t0-trading/src/t0_trading/execution/postgres.py:34-48 | inserts the empty session only if absent, then reloads and compares account and costs; rolls back on any error |
| PaperRepository.Repository.Load | t0-trading/src/t0_trading/execution/postgres.py:50-81 | the row-by-row check succeeds exactly when checkpoint, checksum and operation rows agree |
| PaperRepository.Repository.Commit | t0-trading/src/t0_trading/execution/postgres.py:83-121 | compare-and-swap plus the INSERT loop, or the reload that accepts a lost reply; a refused insert leaves both tables unchanged |
| RepositoryExact.LoadsExactly | t0-trading/src/t0_trading/execution/postgres.py:50-81 | a load succeeds, with the checkpoint's own session, if and only if it is valid and of this key, its checksum is right, and the rows are its operations one by one |
| RepositoryExact.CommitsExactly | t0-trading/src/t0_trading/execution/postgres.py:83-121 | a commit is refused unless both sessions are of the key, the new one is valid and follows the old; it misses exactly when the stored revision or checksum is not the old one's; otherwise it writes the checkpoint and one row for each new operation, unless a number or digest is taken |
| RepositoryProtocol.EveryInterleaving | t0-trading/src/t0_trading/execution/postgres.py:34-121 | the invariant holds over every interleaving of any number of clients, with lost replies, requests executed late or repeatedly, and crashes |
| RepositoryProtocol.StoredState | t0-trading/src/t0_trading/execution/postgres.py:94-121 | at every moment the operation rows are exactly the checkpoint's operations, none twice, one ENTRY for each arbitration; the checkpoint is the sequential run of the committed commands and balances |
| RepositoryProtocol.OneChain | t0-trading/src/t0_trading/execution/postgres.py:83-121 | committed histories form one chain of prefixes with one session for each revision |
| RepositoryProtocol.HistoryOnlyGrows | t0-trading/src/t0_trading/execution/postgres.py:94-121 | no committed checkpoint is ever lost or replaced |
| RepositoryProtocol.StraddlingLoad | t0-trading/src/t0_trading/execution/postgres.py:50-81 | a load whose two reads straddle any further steps returns the session committed at its first read |
| RepositoryProtocol.ServeOutcome | t0-trading/src/t0_trading/execution/postgres.py:95-112 | the compare-and-swap misses exactly when the attempt's base is no longer the last checkpoint, whatever the state hashes are; a unique key refuses only when two of the session's operations share a digest |
| RepositoryProtocol.CommittedOnce | t0-trading/src/t0_trading/execution/postgres.py:108-112 | once an attempt's result is in the history, executing its request again changes nothing |
| RepositoryProtocol.AcknowledgedIsDurable | t0-trading/src/t0_trading/execution/runtime.py:361-373 | a client told COMMITTED finds its session in the history for ever |
| RepositoryProtocol.InsertFacts | t0-trading/src/t0_trading/execution/postgres.py:113-121 | inserts keep rows equal to operations and, when the session's operation digests are distinct, never violate a unique key |
| DeliveryStore.Repository.Withdraw | t0-trading/src/t0_trading/notifications/postgres.py:60-77 | raises the watermark and expires exactly the waiting rows at or before it |
| DeliveryStore.Repository.Add | t0-trading/src/t0_trading/notifications/postgres.py:79-118 | inserts once, with the status its deadline and the watermark give, or accepts only an identical row |
| DeliveryStore.Repository.FirstClaimable | t0-trading/src/t0_trading/notifications/postgres.py:140-148 | the claimable row with the earliest (decision, id), or none |
| DeliveryStore.Repository.TakeNext | t0-trading/src/t0_trading/notifications/postgres.py:120-167 | loses expired leases to UNKNOWN, expires overdue rows, then leases the first claimable row |
| DeliveryStore.Repository.Complete | t0-trading/src/t0_trading/notifications/postgres.py:187-241 | only the current, unexpired lease completes a row; a retry behind the watermark or deadline becomes EXPIRED; otherwise nothing changes |
| DeliveryStore.ClaimKeeps | t0-trading/src/t0_trading/notifications/postgres.py:120-155 | a claim hands out a waiting row that is not withdrawn, due, unexpired and cooled down, while nothing else is being sent |
| DeliveryStore.FinishKeeps | t0-trading/src/t0_trading/notifications/postgres.py:198-235 | a completion keeps at most one SENDING row and no withdrawn waiting row; a rate limit raises the shared cooldown |
| DeliveryProgress.EnqueuedExactly | t0-trading/src/t0_trading/notifications/postgres.py:79-118 | a new selection waits if and only if it is decided, in time and ahead of the watermark; it is EXPIRED exactly when overdue or withdrawn; no other row changes |
| DeliveryProgress.RepeatedExactly | t0-trading/src/t0_trading/notifications/postgres.py:109-117 | a selection that occupies a row is accepted, without effect, exactly when everything of it is the same |
| DeliveryProgress.WithdrawnExactly | t0-trading/src/t0_trading/notifications/postgres.py:60-77 | the watermark becomes the later of the two instants and exactly the waiting rows at or before it expire |
| DeliveryProgress.SweptExactly | t0-trading/src/t0_trading/notifications/postgres.py:127-139 | a run-out lease makes its row UNKNOWN, an overdue waiting row expires, nothing else moves |
| DeliveryProgress.PickedExactly | t0-trading/src/t0_trading/notifications/postgres.py:140-148 | a claim takes the due row with the earliest decision and smallest id, and none only if none is due |
| DeliveryProgress.FinishedExactly | t0-trading/src/t0_trading/notifications/postgres.py:187-241 | a completion succeeds exactly from the current unexpired lease; the whole new row and the cooldown are given |
| DeliveryProgress.ClearedExactly | t0-trading/src/t0_trading/notifications/postgres.py:169-185 | a dispatcher goes on to send exactly when its payload is readable, it holds the row, attempts are left, the destination is cooled, nothing is withdrawn, and a send of the timeout ends inside deadline and lease |
| DeliveryProgress.DispatchAnswers | t0-trading/src/t0_trading/notifications/telegram.py:73-119 | one uninterrupted dispatch of the next row, in time, puts the message on the wire exactly once and records the answer: SENT with its id, FAILED, UNKNOWN, or back to waiting after the pause a rate limit asks for |
| DeliveryProgress.FreshSelectionIsSent | t0-trading/src/t0_trading/notifications/telegram.py:73-119 | a fresh selection put where nothing else waits is SENT by the next dispatch the network answers |
| DeliveryProtocol.EveryInterleaving | t0-trading/src/t0_trading/notifications/telegram.py:73-119 | the invariant holds over every interleaving of dispatchers, producers and disconnects, with a crash at any point and completions retried |
| DeliveryProtocol.SendsAreBounded | t0-trading/src/t0_trading/notifications/telegram.py:98-109 | no selection is sent more than the maximum number of attempts |
| DeliveryProtocol.OneUncertainSend | t0-trading/src/t0_trading/notifications/telegram.py:101-118 | at most one send of a selection ends otherwise than in a definite rate-limit refusal |
| DeliveryProtocol.OneSendingAtATime | t0-trading/src/t0_trading/notifications/postgres.py:127-155 | at every moment at most one row is SENDING and no PENDING row lies at or before the watermark |
| DeliveryProtocol.WatermarkNeverDecreases | t0-trading/src/t0_trading/notifications/postgres.py:66-70 | watermark and cooldown never move back |
| DeliveryProtocol.NoClaimBehindWatermark | t0-trading/src/t0_trading/notifications/postgres.py:140-148 | once a disconnect is recorded no later claim hands out a selection decided at or before it |
| DeliveryProtocol.DispatchOne | t0-trading/src/t0_trading/notifications/telegram.py:73-119 | an uninterrupted dispatch is exactly the protocol steps claim, check, send and complete |
| Journal.ShadowJournal.IngestCall | t0-trading/src/t0_trading/arbitration/journal.py:262-277 | the ingest loop, failing on receipt regression or a foreign date |
| Journal.ShadowJournal.AdvanceTo | t0-trading/src/t0_trading/arbitration/journal.py:285-380 | the decision loop and the pending loop make exactly the engine calls of `Advance`, with the gap flag of the moment |
| Journal.ShadowJournal.DisconnectedCall | t0-trading/src/t0_trading/arbitration/journal.py:389-400 | opens the gap first, then advances to the disconnect |
| Journal.ShadowJournal.ConnectedCall | t0-trading/src/t0_trading/arbitration/journal.py:241-260 | closes the gap, recording it only when it has length |
| JournalReplay.ReplayAll | t0-trading/src/t0_trading/features/engine.py:285-309 | the batch loop produces the receipt-ordered merge of envelopes and decision clocks with the recorded gaps' flags |
| JournalReplay.LiveIsBatch | t0-trading/src/t0_trading/arbitration/journal.py:262-400 | however calls split and time the input, a discipline on each call as it happens suffices: a journal that takes all clocks and closes its gaps has then driven the engines exactly as batch replay does |
| JournalExact.LiveIsBatchExactly | t0-trading/src/t0_trading/arbitration/journal.py:241-400 | for every run that took all its clocks: the trace equals batch replay's if and only if no envelope came after a clock at or past its receipt was taken and every clock is settled, both read off the calls alone |
| JournalExact.SettledMeans | t0-trading/src/t0_trading/arbitration/journal.py:279-283 | a clock is settled exactly when the flag it was taken with is the one the gaps recorded by the end give it |
| JournalExact.CallFailsExactly | t0-trading/src/t0_trading/arbitration/journal.py:241-289 | a call fails exactly for envelopes out of order or off the day, a repeated session, a connection off the day, after the first clock or before the gap it closes, or a pending envelope a clock has overtaken |
| JournalCascade.BuildContexts | t0-trading/src/t0_trading/context/engine.py:452-489 | the context merge loop: groups snapshots by clock, applies receipts up to each clock, builds it, exhausts the reader; an empty input is refused |
| CascadeReplay.LiveDayIsBatchDay | t0-trading/src/t0_trading/arbitration/journal.py:303-376 | the journal's cascade, clock by clock (features, context, scoring with a pruned history, arbitration), emits the same snapshots, contexts, candidates and verdicts, or stops on the same arbitration error with a first part of them written, as three whole-day passes: feature replay, the context merge over its snapshots, and arbitration of all candidates at once |
| CascadeReplay.DayScores | t0-trading/src/t0_trading/strategy/baselines.py:324-406 | scoring a day at once equals scoring it clock by clock with only the pruned history and the clock's own context |
| CascadeReplay.HistoryAnswers | t0-trading/src/t0_trading/arbitration/journal.py:311-314 | the pruned feature history answers every lookup within the lag as the full history does |
| CascadeReplay.DayGroups | t0-trading/src/t0_trading/arbitration/engine.py:162-176 | grouping and sorting the day's candidates recovers the groups the clocks emitted, in order |
| JournalReplay.DisconnectExact | t0-trading/src/t0_trading/arbitration/journal.py:394-398 | recording a disconnect keeps the flags taken so far right if and only if it is later than every unaffected clock taken |
| JournalReplay.ConnectExact | t0-trading/src/t0_trading/arbitration/journal.py:253-258 | closing a gap keeps them right if and only if it has length and still covers, with warm-up, every unaffected clock taken inside |
| JournalReplay.OpenGapExact | t0-trading/src/t0_trading/arbitration/journal.py:279-283 | at the end of the day the flags are batch replay's if and only if no unaffected clock was taken after a disconnect still open |
| JournalExact.LateEnvelopeDiverges | t0-trading/src/t0_trading/arbitration/journal.py:262-289 | an envelope delivered after a clock at or past its receipt was taken makes live and batch differ for good |
| JournalReplay.DisconnectAtTakenClock | t0-trading/src/t0_trading/arbitration/journal.py:279-283 | concrete run: a disconnect at the very instant of the last decision taken leaves that decision unflagged live and flagged in batch |
| JournalReplay.ZeroLengthGap | t0-trading/src/t0_trading/arbitration/journal.py:253-258 | concrete run: a gap of no length leaves a decision flagged live and unflagged in batch |
| Arbitrator.CandidateArbitrator.FindWinners | t0-trading/src/t0_trading/arbitration/engine.py:80-121 | first pass: settles blocked, weak and cooling candidates and finds each symbol's winner |
| Arbitrator.CandidateArbitrator.Rank | t0-trading/src/t0_trading/arbitration/engine.py:123-147 | second pass: ranks winners, selects within the cap, remembers the selections |
| Arbitrator.CandidateArbitrator.Decide | t0-trading/src/t0_trading/arbitration/engine.py:50-159 | one clock computes the rule stated on the set of candidates, in listing order; an inadmissible clock changes nothing |
| Arbitration.WinnerOf | t0-trading/src/t0_trading/arbitration/engine.py:112-121 | every symbol with a contender has exactly one winner, the best by priority, strength and digest |
| Arbitration.FateIsCausal | t0-trading/src/t0_trading/arbitration/engine.py:85-147 | a selection is strong, not cooling and wins its symbol; a rejection that names a candidate names one selected now or last |
| ArbitrationMerit.OutcomeMeans | t0-trading/src/t0_trading/arbitration/engine.py:85-147 | each reason, by the candidate's own figures: blocked, weak, cooling after a named selection, behind a selected one of its symbol that it does not beat, or no place; only the leader of a symbol is selected |
| ArbitrationMerit.AheadIsSelectedFirst | t0-trading/src/t0_trading/arbitration/engine.py:123-141 | of two leaders, if one is selected and the other has the smaller strategy priority number, or the same and more strength, or the same and the earlier symbol, the other is selected with a smaller rank |
| ArbitrationMerit.CapacityIsMerited | t0-trading/src/t0_trading/arbitration/engine.py:132-147 | a leader turned away for capacity leaves every place taken, by leaders it is not ahead of |
| ArbitrationMerit.PlacesAreFilled | t0-trading/src/t0_trading/arbitration/engine.py:132-141 | as many are selected as there are leaders and places |
| ArbitrationMerit.ClockTakenExactly | t0-trading/src/t0_trading/arbitration/engine.py:50-78 | a clock is decided if and only if it is one clock, later than the last, of a covered day and the configured version, without repeats, and every symbol has as many candidates as rules, with exactly their strategies |
| ArbitrationMerit.VerdictsListed | t0-trading/src/t0_trading/arbitration/engine.py:149-159 | the verdicts carry each candidate's own figures and are listed by symbol, strategy priority and digest |
| ArbitrationRuns.ClockIsCapped | t0-trading/src/t0_trading/arbitration/engine.py:132-141 | a clock selects at most the cap and at most one candidate of a symbol |
| ArbitrationRuns.ExactlyOneVerdict | t0-trading/src/t0_trading/arbitration/engine.py:149-159 | every candidate of a clock gets exactly one verdict |
| ArbitrationRuns.RunsAreSafe | t0-trading/src/t0_trading/arbitration/engine.py:101-141 | over every run two selections of a symbol are at least the cooldown apart, their horizons never overlap, and every candidate a rejection names was really selected |
| ArbitrationReplay.ArbitrateCandidates | t0-trading/src/t0_trading/arbitration/engine.py:162-176 | grouping by clock and running one arbitrator over the sorted clocks computes `Arbitrate` |
| ArbitrationReplay.EveryCandidateAnswered | t0-trading/src/t0_trading/arbitration/engine.py:149-176 | over a whole input every digest gets exactly as many verdicts as candidates carry it |
| ArbitrationReplay.InputOrderIsIrrelevant | t0-trading/src/t0_trading/arbitration/engine.py:162-176 | the result, errors included, is the same for every order of the input |
| ArbitrationReplay.NoLookAhead | t0-trading/src/t0_trading/arbitration/engine.py:162-176 | arbitrating only the candidates up to a clock gives a prefix of the full result |
| MarketBars.StartFacts | t0-trading/src/t0_trading/market/state.py:146-154 | the interval start is on the grid and its interval contains the instant |
| MarketBars.VolumeIsConserved | t0-trading/src/t0_trading/market/state.py:194-317 | over every segment: finalized plus open volume is the latest cumulative volume less the baseline before the first applied trade; bars are aligned, disjoint and increasing, price and value consistent; the backward branch is never taken |
| BarSummaries.BarsSummarizeTrades | t0-trading/src/t0_trading/market/state.py:65-112 | over every segment each bar, finalized or open, is the first, last, highest and lowest price, the volume, value, count and buy and sell volume of exactly the applied trades of its interval, and every applied trade is in one of them |
| BarSummaries.AppliedExactly | t0-trading/src/t0_trading/market/state.py:229-285 | a trade is applied if and only if it is not before the last record, not of a closed interval, and continues the cumulative volume; otherwise it changes nothing and is reported |
| MarketBars.ClosedThroughGrows | t0-trading/src/t0_trading/market/state.py:287-317 | the closing boundary never moves back and finalized bars are never revised |
| MarketBars.MarketState.CheckSequence | t0-trading/src/t0_trading/market/state.py:174-192 | gap and regression issues of one envelope; only a sequence regression holds the sequence cursor, any regression holds the receipt cursor |
| MarketBars.MarketState.Apply | t0-trading/src/t0_trading/market/state.py:194-285 | one envelope: a new stream resets every symbol, a refused envelope changes none, an accepted one reacts on its own symbol only; issues and both cursors move as the sequence check says |
| MarketBars.MarketState.AdvanceTo | t0-trading/src/t0_trading/market/state.py:303-317 | the clock closes exactly the bars that have ended, one for each symbol, and reports them by end and symbol |
| FeatureWindows.PruneItems | t0-trading/src/t0_trading/features/engine.py:93-98 | pops expired items from the left and stops at the first one a window can still reach |
| FeatureWindows.SameWindow | t0-trading/src/t0_trading/features/engine.py:139-155 | a window within the pruning bound sees the same on the pruned items as on all of them |
| FeatureWindows.WindowFilters | t0-trading/src/t0_trading/features/engine.py:139-155 | a window keeps, in order, what it would keep item by item |
| FeatureWindows.WindowKeeps | t0-trading/src/t0_trading/features/engine.py:139-155 | an item is kept exactly when it was received within the last seconds of the decision, its own instant included |
| FeatureWindows.SymbolFeatures.Apply | t0-trading/src/t0_trading/features/engine.py:119-137 | one envelope, in any order of receipt: a stream other than the last forgets everything, a new session forgets the old one, a trade or quote is remembered; only a receipt no earlier than the last moves the clock and the stream; an envelope before the last decision is refused |
| FeatureWindows.SymbolFeatures.Observe | t0-trading/src/t0_trading/features/engine.py:100-117 | one trade or quote joins the history: book flow between complete quotes, whatever the order of receipts |
| FeatureWindows.SymbolFeatures.Snapshot | t0-trading/src/t0_trading/features/engine.py:157-171 | every window of a decision equals the same filter over all events since the last reset |
| Breadth.BestPrevails | t0-trading/src/t0_trading/context/breadth.py:99-107 | the kept revision has the greatest observation time, and the latest receipt among equals |
| Breadth.BreadthEngine.Apply | t0-trading/src/t0_trading/context/breadth.py:90-111 | the bounded table stays the full history's answer for every minute pruning has not passed |
| Breadth.BreadthEngine.Build | t0-trading/src/t0_trading/context/breadth.py:113-178 | the pairs a decision uses are those of the full history |
| Breadth.PairsExactly | t0-trading/src/t0_trading/context/breadth.py:113-178 | the pairs of a decision are exactly those of the standing revisions of the last closed minute and of the one a lookback earlier, each observed within the staleness bound of its own boundary |
| Breadth.StalenessCoversPruning | t0-trading/src/t0_trading/context/breadth.py:108-125 | pruning never reaches a minute a decision may look up if and only if the staleness bound is at least 60 seconds |
| Simulation.FundingFacts | t0-trading/src/t0_trading/simulation/engine.py:95-115 | an accepted buy leaves cash at or above the reserve and advances never exceed pending sales |
| SimulationExact.ExecutesAgainstBook | t0-trading/src/t0_trading/simulation/engine.py:45-58 | a buy never beats the book and a sale never exceeds it; prices and charges in the request's own rates |
| SimulationExact.ScheduleOrdered | t0-trading/src/t0_trading/simulation/engine.py:134-143 | events run by time; at one instant exits before entries, then by priority |
| SimulationExact.EntersExactly | t0-trading/src/t0_trading/simulation/engine.py:152-198 | a proposal enters if and only if its symbol is free, its book known, its size in lots and limits, its shares above core, and its cost within the notional limit and affordable from cash or an advance that pending sales cover |
| SimulationExact.CyclesAtBookPrices | t0-trading/src/t0_trading/simulation/engine.py:45-92 | every cycle a day closes bought at the entry book plus slippage and sold at the horizon book less slippage; its net is the sale after fee and tax less the purchase with its fee |
| SimulationExact.ResultExactly | t0-trading/src/t0_trading/simulation/engine.py:144-222 | a proposal is rejected exactly if it was not acceptable when its entry came, otherwise closed exactly if its horizon book is known, and left open if not |
| Simulation.EntryComesFirst | t0-trading/src/t0_trading/simulation/engine.py:134-143 | in the sorted schedule each event occurs once and a proposal's entry precedes its exit |
| Simulation.ShortfallUnreachable | t0-trading/src/t0_trading/simulation/engine.py:208-212 | the settled-shortfall exit branch is unreachable |
| Simulation.EveryProposalResolved | t0-trading/src/t0_trading/simulation/engine.py:144-230 | every proposal gets exactly one result, OPEN exactly when its cycle is left open |
| Simulation.BuysKeepReserve | t0-trading/src/t0_trading/simulation/engine.py:177-198 | along the whole day an event either starts one cycle, leaving cash at or above the reserve, or moves neither cash nor the count of cycles |
| Simulation.DayReconciles | t0-trading/src/t0_trading/simulation/engine.py:231-254 | core is never sold, advance principal plus interest stays within pending sales, and with no cycle open both final reconciliation checks hold |
| Simulation.Simulate | t0-trading/src/t0_trading/simulation/engine.py:118-222 | the event loop computes the replay of the schedule |
| Spool.CaptureSpool.Stage | t0-trading/src/t0_trading/capture/spool.py:54-80 | stages once, within the limit, and refuses different content under one key |
| Spool.CaptureSpool.Drain | t0-trading/src/t0_trading/capture/spool.py:88-119 | publishes in the order of the listing until the store fails or the process dies; pending bytes follow the files |
| Spool.CaptureSpool.Entries | t0-trading/src/t0_trading/capture/spool.py:38-44 | the listing of the pending files: each once, payloads before manifests, then by path |
| Spool.ListingUnique | t0-trading/src/t0_trading/capture/spool.py:38-44 | there is only one such listing, so a drain is determined by the files |
| SpoolProtocol.SpoolIsSafe | t0-trading/src/t0_trading/capture/spool.py:22-119 | over every staging, draining, outage, crash and restart: every staged object is in the spool or the store, a manifest that was not yet in the store when staged, once published, has every payload staged before it in the store, pending bytes are the spooled sizes within the limit |
| SpoolProtocol.ManifestLastExactly | t0-trading/src/t0_trading/capture/spool.py:54-119 | take any staging of a manifest: at every later moment its being in the store implies that every payload staged before it is, if and only if at that staging the store did not have the manifest or already had those payloads |
| SpoolProtocol.RestagedManifestIsEarly | t0-trading/src/t0_trading/capture/spool.py:54-119 | under every limit that holds both objects: a manifest staged again after it was published, while a payload staged in between is not |
| SpoolProgress.StagesExactly | t0-trading/src/t0_trading/capture/spool.py:54-62 | staging is refused exactly for other content under a pending key, or for lack of room |
| SpoolProgress.DrainsExactly | t0-trading/src/t0_trading/capture/spool.py:88-119 | a drain publishes, in listing order, exactly the entries before the first that does not go through, and stops there |
| SpoolProgress.ClearDrainEmpties | t0-trading/src/t0_trading/capture/spool.py:88-119 | with the store up, no conflicting content and no crash, a drain empties the spool into the store |
| WalkForward.RoundError | t0-trading/src/t0_trading/numeric.py:12-23 | half-up rounding to 0.0001 errs by at most 0.00005, to either side |
| WalkForward.TieGoesAway | t0-trading/src/t0_trading/numeric.py:20-23 | a tie rounds away from zero |
| WalkForward.TargetWithin | t0-trading/src/t0_trading/promotion/engine.py:31-64 | after three levels of rounding the target average is within 0.00015 of the exact mean of all eligible holdout outcomes, and absent exactly when there are none |
| WalkForward.SessionStands | t0-trading/src/t0_trading/promotion/evidence.py:59-62 | a session's rounded average stands for its total up to half a tick for each outcome |
| WalkForward.BuildFolds | t0-trading/src/t0_trading/promotion/engine.py:105-123 | the fold loop: too few sessions give nothing, else expanding windows as many as fit |
| WalkForward.SessionsPartition | t0-trading/src/t0_trading/promotion/engine.py:105-132 | each session falls in exactly one of the initial development-and-purge prefix, one holdout, or the pending tail, which is shorter than a holdout |
| WalkForward.WalkForwardTarget | t0-trading/src/t0_trading/promotion/engine.py:105-153 | over the folds the walk-forward builds, the target average is within 0.00015 of the exact mean of all outcomes in the sessions from the first holdout to the last, and absent exactly when there are none |
| WalkForward.NoLeakage | t0-trading/src/t0_trading/promotion/engine.py:107-111 | every development session of a fold precedes each of its holdout sessions by more than the purge, and holdouts lie within the sessions |

## Left out

- Decimal context precision, JSON, canonical hashing, time-zone conversion and pydantic parsing: exact reals, arbitrary digests, integer instants, validators as predicates.
- Quote tick alignment in the market validator: results hold for unaligned quotes too.
- Versions and provenance hashes that are only copied or compared travel together in a few digest fields of orders and requests.
- Configuration lookup by date: a command runs under the configuration already resolved for the session's date, the same for every client.
- The unique index that allows one account a day, and any second key in the paper tables.
- `PaperRuntime` telemetry results and the enabled switch.
- Delivery message text and payload decoding: readability is a parameter of a dispatch; the notifier's outer loop and realtime hand-off are not modelled.
- Journal file output, manifest and close; the formulas inside the feature, context and scoring engines: in the cascade they are arbitrary functions of the shape the code gives them, and their lineage checks and exceptions are not modelled.
- Snapshot reasons, health, book values and window statistics of the feature engine; ratios and dispersion of breadth; session calendar checks.
- Simulation report fields beyond results, positions, cash and advances (hold profit, provenance).
- Joining candidates, arbitrations and outcomes in `evaluate_arbitrated_session`, and the promotion gate's reasons.
- Object-store client errors other than unavailability and content conflict; removal of empty directories and leftover temporary files.
- CLI, scheduling, stream sockets, other HTTP and S3 plumbing: thin wrappers with easy properties.
- MarketBars.MarketState.AdvanceTo: instants before the epoch are excluded.
- MarketBars.VolumeIsConserved: the reported volume-weighted price is not rounded; value is bounded by the bar's low and high instead.
- Arbitrator.CandidateArbitrator.FindWinners: symbols are visited in any order, which the result does not depend on.
- DeliveryProtocol.DispatchOne: the send is one step; interference during it is covered by the interleaving results.
