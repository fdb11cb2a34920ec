# Frenix Pay: the payment-matching engine and the chain watchers that feed it

Customers pay USDT to one fixed address per chain. An order is recognised by its amount alone: every pending order of a
chain has a slightly different expected amount. One watcher per chain scans for transfers to the address, counts
confirmations, and reports every transfer it tracks on every poll to the order service, which advances, matches,
attributes as underpaid, or logs the transfer for manual review. The orders, the review queue and the scan cursors live in
Postgres; what a watcher is tracking lives in memory and is rebuilt from the orders after a restart.

The project models that machinery and proves what it promises over all runs.

- `Domain`, `OrderTable`, `Underpayment` hold the data, every SQL statement as a function from table to table together with
  the unique indexes, and the decimal arithmetic of an underpaid claim (sixteen decimals, nearest, halves up).
- `Repository`, `Service`, `CursorStore`, `EvmWatcher`, `TonWatcher`, `TronWatcher`, `Startup` are the imperative code, class
  by class and loop by loop, proved against those functions. Whatever the surroundings decide is a parameter: fresh ids,
  random draws, clock readings, rows locked by other transactions, and which round trip fails.
- `Engine` is the matching engine as a state machine over *single statements*: one OnTransfer call per chain may be in
  flight, and creations, expiry sweeps and the statements of other chains come between any two of its statements.
  `CompletedCall` shows that a whole call is a run of it. `EngineSafety`, `Delivery`, `Conservation` and `Settlement` prove
  what its runs keep.
- `EvmSystem` composes the engine with the EVM watcher (cursor, batches, in-flight map, restart and reseeding);
  `EvmGuarantees` states the end-to-end theorems and exactly where they stop; `PollRefinement` shows that a poll of the
  watcher class, loops and all, is a run of that system. `EvmLogs` relates the scan to the chain's ledger.
- `Paging` is the timestamp-cursor paging of TON and TRON; `TonReseeding` is elapsed time as a confirmation count through any
  number of restarts; `HexCodec` is the hexadecimal codec of the JSON-RPC layer.
- `Examples` gives the concrete inputs on which a promise of the documentation fails.

The functions that a method and the engine share are pinned by lemmas whose names end in `Mean` or `Means`, and by the
methods' own clauses: these speak of columns and of literal numbers only.

Amounts are integers in units of 1e-8 dollars, as `NUMERIC(20,8)` stores them; an on-chain amount is a multiple of 1e-6 and
is stored exactly. A requested base amount is a `real` in the same unit, so that its rounding on storage is explicit. Shares of an amount and their limit are integers in units of 1e-16 percent.

## Where the code and its documentation disagree

The model follows the code. For each of these there is the exact condition, for all inputs, and a concrete input.

- "Never silently dropped" (`README.md:29-31`, `internal/orders/service.go:115-117`): an error while writing the review row is
  only logged (`internal/orders/service.go:175-177`). `CompletedCall.DroppedOnlyByFailedReview`;
  `Examples.ReviewFaultDropsPayment`.
- "A restart resumes exactly where it left off" (`migrations/000001_init_schema.up.sql:48-50`): the cursor is saved before the
  transfers found are emitted. `EvmGuarantees.CrashLosesOnlyUnrecorded`; `Examples.CrashAfterSaveLosesPayment`.
- The same claim: a saved cursor of zero is taken for a first run, so blocks before the lookback are skipped.
  `EvmLogs.SkippedPayment`; `Examples.ZeroCursorSkipsPayment`.
- At least one report per transfer (`internal/orders/service.go:98-102`): a report that the sink rejects is not repeated when
  the head already makes the transfer final. The payment is then gone (`EvmGuarantees.SinkFaultLoses`;
  `Examples.RejectedReportLosesPayment`), or its order waits until a restart (`EvmGuarantees.SinkFaultStrands`,
  `TonReseeding.TrackLostIff`; `Examples.RejectedReportStrandsOrder`).
- Likewise, a second transfer in the same transaction overwrites the first. `EvmLogs.OverwritingLosesMoney`;
  `Examples.SecondTransferOverwrites`.
- Orders "distinguishable by amount alone" (`migrations/000001_init_schema.up.sql:14-16`): within the tolerance the order that
  expires first is claimed, not the nearest amount. `Settlement.OwnOrderIff`; `Examples.ExactPayerSettlesAnotherOrder`. What
  remains true is that a group of such orders settles as a whole: `Settlement.ClusterSettles`.
- A transfer logged as `unmatched` can be claimed later by a new order; its review row then keeps the old reason.
  `EngineSafety.FirstReviewWins`; `Examples.UnderpaidKeepsUnmatchedReview`.
- A TON or TRON transfer that the server does not show yet when a scan stores a cursor at or past its time is never handled.
  `Paging.HandledIff`, `Paging.LateEntryIsMissed`; `Examples.LateTransferIsNeverHandled`.

What an EVM scan, a crash or a rejected report loses this way stays lost over every further run, restarts included:
`EvmGuarantees.LostStaysLost`.

## Model

| member | source | states |
|---|---|---|
| Underpayment.DivRoundNearest | internal/orders/repository.go:235 | the stored quotient is the multiple of the last decimal nearest to the true one, halves up |
| Underpayment.GapPercentMeans | internal/orders/repository.go:234-235 | the share of the expected amount that is missing, in units of 1e-16 percent, is the multiple of a hundred nearest to the true share: times the expected amount it is the shortfall times 1e18, up to fifty expected amounts |
| Underpayment.LimitMeans | internal/orders/repository.go:235-238 | a share within a limit, or beyond it, as an inequality between the two amounts |
| Underpayment.GapPercentMonotone | internal/orders/repository.go:234-235 | a larger order misses a larger share of itself, even after rounding |
| Underpayment.BestCandidate | internal/orders/repository.go:229-245 | the strict-less scan returns a candidate of smallest gap, the first among equals, and nothing iff every gap exceeds the limit; for an amount that is not negative that is the first candidate or nothing |
| OrderTable.SmallestGapIsNearest | internal/orders/repository.go:205-210 | for an amount that is not negative, choosing by smallest gap is choosing the order nearest above the amount |
| Repository.Repository.CreateWithUniqueAmount | internal/orders/repository.go:37-91 | stores the first attempt whose amount is not taken, with every column given; the range error, a refused insert and exhausted retries are each characterised by the attempts and leave the table as it was |
| OrderTable.Round8Means | migrations/000001_init_schema.up.sql:13-17 | a stored amount is a nearest eight-decimal one, away from zero on a tie |
| Repository.CollisionMeans | migrations/000001_init_schema.up.sql:40-41 | the insert of a new order collides iff a pending order of its chain asks for the same amount |
| Repository.AttemptMeans | internal/orders/repository.go:49-76 | the row an attempt inserts, when it is refused and when it is taken, column by column |
| Repository.Repository.ListConfirming | internal/orders/repository.go:113-122 | exactly the chain's confirming orders, each once |
| Repository.Repository.TxAlreadyClaimed | internal/orders/repository.go:124-135 | true iff an order of the chain, in any status, holds the transfer, which is so iff the unique index would reject giving it to any open order of the chain |
| Repository.Repository.UpdateConfirmations | internal/orders/repository.go:145-164 | exactly the confirming row that holds the transfer with no higher a count gets the height and the count, and is confirmed, with the time, iff the count reaches the required one; true iff there is such a row; never rejected by an index |
| Repository.Repository.OldestOf | internal/orders/repository.go:186-193 | some row of earliest expiry among the candidates, none iff there is no candidate |
| Repository.Repository.ClaimExactMatch | internal/orders/repository.go:172-203 | an unlocked open order of the chain within the tolerance, of earliest expiry, gets the transfer, every column given, and no other row changes; nothing only if there is no such order; a unique violation only if an order of the chain already holds the transfer |
| Repository.Repository.OrderByExpected | internal/orders/repository.go:219-224 | the candidates, each once, in ascending order of expected amount |
| Repository.Repository.NearestAbove | internal/orders/repository.go:218-245 | the open order of smallest acceptable gap, otherwise no candidate is acceptable; for an amount that is not negative, the order nearest above it |
| Repository.Repository.ClaimUnderpaid | internal/orders/repository.go:211-263 | an unlocked open order above the amount, the nearest, whose shortfall in proportion is within the limit becomes underpaid, every column given; nothing only if every such order misses more; on any failure the table is unchanged |
| Repository.Repository.ExpirePastDue | internal/orders/repository.go:269-281 | exactly the pending rows with a due time before now expire, none of them is left, no other row changes, and exactly the changed ones are returned |
| Repository.Repository.LogReviewItem | internal/orders/review.go:25-35 | the row is appended iff no row of that chain and transfer is there and the write succeeds; otherwise nothing changes |
| Repository.ClaimIsRejectedIff | migrations/000001_init_schema.up.sql:43-46 | the unique index rejects a claim iff some order of the chain already holds the transfer |
| Service.Service.CreateOrder | internal/orders/service.go:63-92 | each rejection has its condition, checked in order; a valid request fails only for a bad offset range, a refused insert or taken amounts; on success exactly one row is added, whose columns are those of the request and of the successful attempt, due one expiry after its time, with an amount no pending order of the chain has |
| Service.ChainOfMeans | internal/orders/service.go:74 | a chain is recognised by its name in whatever case, and by nothing else |
| Service.CreationIsStep | internal/orders/repository.go:37-91 | storing an order is one step of the engine |
| Service.Service.OnTransfer | internal/orders/service.go:118-180 | the call's effect and verdict are those of the five-way protocol, under any locked rows and any failing statement; an error is returned exactly for a failed statement before the review |
| Service.VerdictMeans | internal/orders/service.go:126-151 | which orders a call met when it progresses, ignores, matches, or finds none, in terms of their columns; a match has the earliest expiry of those within the tolerance |
| Service.ShortfallMeans | internal/orders/service.go:153-171 | an order is found short only within the limit and nearest above the amount, a transfer unmatched only when every order above it misses more |
| Service.EffectMeans | internal/orders/service.go:126-171 | what each verdict has done to every order, column by column |
| Service.QueueMeans | internal/orders/service.go:157-179 | what each verdict has done to the review queue |
| Service.Service.ExpireOnce | internal/orders/service.go:209-218 | exactly the pending rows with a due time before now expire, none of them is left, and no other row changes; a failing statement is swallowed and changes nothing |
| Startup.SeedAll | internal/orders/service.go:230-247 | the watcher then tracks what it tracked before plus the transfer of every confirming order, with that order's amount and height |
| Startup.LoadPendingTransfers | internal/orders/service.go:224-250 | every watcher is seeded that way, or the start-up fails because a listing failed; a fresh watcher then tracks exactly the transfers its confirming orders wait for, as those orders hold them |
| Startup.SeededIsReseed | internal/orders/service.go:224-250 | for a fresh watcher the order of the listing does not matter: seeding yields one determined map |
| Startup.SeedingMeans | internal/orders/service.go:230-242 | that map holds exactly the transfers of confirming orders, each with its order's amount and height |
| Engine.RoundShift | internal/orders/repository.go:53-55 | rounding base plus offset to eight decimals is the rounded base plus the offset |
| Engine.StepKeepsInv | internal/orders/service.go:118-180 | every interleaved statement keeps indexes, rows, calls in flight and review rows consistent |
| Engine.CallStable | internal/orders/service.go:118-180 | what a call in flight relies on is not disturbed by anything but its own statements, an insert on its chain excepted |
| Engine.UpdateOutruns | internal/orders/repository.go:147-155 | after the update statement no order waits for the transfer although the reported count would do |
| EngineSafety.OnlyInsertsAreRejected | migrations/000001_init_schema.up.sql:40-46 | in every reachable state the indexes hold, and a statement is rejected by them iff it is an insert whose amount some pending order of the chain already has |
| EngineSafety.OrdersAreTellable | migrations/000001_init_schema.up.sql:40-46 | in every reachable state a transfer is on at most one order of its chain and pending orders of a chain ask for different amounts |
| EngineSafety.RunEvolves | internal/orders/repository.go:145-281 | over any run no row disappears, status moves only along the lifecycle, terminal rows never change, transfer and received amount are written once, confirmations never fall |
| EngineSafety.ExpiryStep | internal/orders/repository.go:271-276 | one step expires an order only by a sweep past its due time, and after a sweep no pending order is past due |
| EngineSafety.ExpiredWasDue | internal/orders/repository.go:265-276 | over every run no order is expired before some sweep found it past due |
| EngineSafety.RowsAreConsistent | internal/orders/repository.go:147-281 | in every reachable state the columns agree with the status; what was received lies within the tolerance (confirming, confirmed) or falls short by a proportion within the limit (underpaid), as an inequality between the amounts |
| EngineSafety.QuietShortfall | internal/orders/service.go:143-156 | if no row was skipped and no order inserted between the two claim statements, an underpaid order is short by more than the tolerance |
| EngineSafety.ReviewsAreCoherent | internal/orders/service.go:153-179 | one review row per transfer; an `underpaid` row points at an underpaid order holding exactly that payment; an `unmatched` row at none |
| EngineSafety.FirstReviewWins | internal/orders/review.go:21-35 | the underpaid review row is written iff the transfer had no review row |
| EngineSafety.OffsetCapacity | internal/orders/repository.go:45-90 | every stored amount is the stored base plus a configured number of ten-thousandths, so a chain never has more pending orders of one base than there are offsets |
| Delivery.AtLeastOnce | internal/orders/repository.go:137-155 | once matched, an order is confirmed iff some report, the claim's included, reached the required count; until then it stores the largest count reported, whatever the run |
| Delivery.OrderInsensitive | internal/orders/service.go:98-102 | two runs that report the transfer with the same counts, in any order and interleaving, leave the order with the same status and, while confirming, the same count |
| Delivery.OthersUntouched | internal/orders/service.go:126-141 | while an order holds a transfer, no statement of a call for it changes any other order |
| Delivery.ReportsSpareOthers | internal/orders/service.go:126-141 | and so over every run after the transfer was claimed |
| Delivery.VerdictHasNoTaker | internal/orders/service.go:143-179 | an unmatched verdict that saw every row leaves a state in which no order holds or could take the payment |
| Delivery.UnmatchedIsStable | internal/orders/service.go:143-179 | until an order is created on the chain no order can take it, over any run |
| Delivery.NoTakerMeansUnmatched | internal/orders/service.go:143-179 | and every further call for the payment can only end unmatched, touching no order |
| Delivery.VerdictIsRepeated | internal/orders/service.go:143-179 | over every run after such a verdict without an order created on the chain, each statement of a call for the payment leaves the orders alone, and the call returns only by logging it as unmatched |
| Conservation.ReturnRecords | internal/orders/service.go:118-180 | a call returns without a fault only once its transfer is on an order or in the review queue |
| Conservation.DeliveredCallsReturn | internal/orders/service.go:118-180 | without faults every reported transfer's call has returned or is in flight |
| Conservation.MoneyIsConserved | internal/orders/service.go:118-180 | the observed payments add up to what orders received plus the review rows whose transfer no order holds, and exactly the observed transfers are on record |
| CompletedCall.CallIsRun | internal/orders/service.go:118-180 | a completed call is a run of single statements of the engine |
| CompletedCall.FailsIff | internal/orders/service.go:126-156 | an error is returned iff one of the statements before the review is reached and fails, and then the tables are as they were |
| CompletedCall.DroppedOnlyByFailedReview | internal/orders/service.go:172-179 | after a call without error the transfer is missing from the record iff it was not on record before, no order the claim statements see takes it, and writing its review row fails |
| Settlement.ClusterSettles | internal/orders/repository.go:172-195 | as many new payments as a cluster has orders, each of any of its amounts, in any order, claim every order of it exactly once, the oldest first; nothing else changes |
| Settlement.SameBaseIsCluster | internal/orders/repository.go:49-55 | in every reachable state the pending orders of one base form a cluster when the whole offset range fits in the tolerance |
| Settlement.PayerGetsOwnOrder | internal/orders/repository.go:172-195 | a payer whose amount is close to no other open order gets their own |
| Settlement.OwnOrderIff | internal/orders/repository.go:186-193 | paying an order's exact amount is sure to claim it iff every other open order within the tolerance expires strictly later |
| HexCodec.RoundTrip | internal/chains/evm/types.go:17-35 | parsing a printed quantity gives it back for every 64-bit integer |
| HexCodec.DigitMeans | internal/chains/evm/types.go:19 | each hexadecimal digit, in either case, has its value |
| HexCodec.ParsesIff | internal/chains/evm/types.go:17-31 | text is read as a number iff after an optional prefix and sign it is one hexadecimal digit or more |
| HexCodec.Int64Means | internal/chains/evm/types.go:22 | a quantity is kept modulo 2^64, as a signed number |
| HexCodec.DigitsMean | internal/chains/evm/types.go:33-35 | a quantity is printed in lower case without leading zeros |
| HexCodec.ScanIsPositional | internal/chains/evm/types.go:25-31 | the digit-by-digit scan is the positional value |
| HexCodec.PaddedWord | internal/chains/evm/types.go:25-31 | a zero-padded word parses to the positional value of its digits: padding never changes an amount |
| CursorStore.CursorStore.GetCursor | internal/db/cursor_store.go:22-40 | returns the stored cursor, or height zero and no time on first use; no chain's cursor changes |
| CursorStore.CursorStore.SetCursor | internal/db/cursor_store.go:42-52 | replaces the chain's cursor and no other's; a failing write changes nothing |
| EvmScan.NextScanGap | internal/chains/evm/watcher.go:113-126 | the next scan starts past the block after the saved cursor iff that cursor is zero and the head lies more than one block past the lookback |
| EvmWatcher.Watcher.SeedPending | internal/chains/evm/watcher.go:62-69 | adds the transfer unless it is tracked already |
| EvmWatcher.Watcher.HandleLog | internal/chains/evm/watcher.go:171-192 | tracks the log's transfer with a hundred stored units for each token unit, or skips a log with too few topics or text that is no number |
| EvmWatcher.Watcher.FetchBatches | internal/chains/evm/watcher.go:137-163 | requests adjacent, disjoint, full batches up to the head, or a prefix of them if a request fails, and absorbs every answer |
| EvmWatcher.Watcher.ScanNewLogs | internal/chains/evm/watcher.go:113-169 | a successful scan covers exactly the block after the saved one, or fifty blocks back when none is saved, to the head, in batches of the configured size (two thousand when that is not positive), and saves the head; a failed one leaves the cursor as it was |
| EvmWatcher.Watcher.RefreshConfirmations | internal/chains/evm/watcher.go:194-218 | reports every tracked transfer exactly once with its count at the head, as a chain of completed calls, and forgets exactly the final ones |
| EvmWatcher.ReportsMean | internal/chains/evm/watcher.go:201-217 | the reports of a refresh are one for each tracked transfer, with its amount, height and count at the head |
| EvmWatcher.Watcher.Emit | internal/chains/evm/watcher.go:220-236 | one completed call for the transfer, with its amount and height and the number of blocks from its own to the head, never negative |
| EvmWatcher.Watcher.PollOnce | internal/chains/evm/watcher.go:91-111 | scan and refresh composed; an unreadable head changes nothing; a failing scan does not stop the refresh |
| EvmLogs.PaddedLogAmount | internal/chains/evm/watcher.go:171-188 | a well-formed log decodes to its block and to as many millionths of a dollar as its word counts, whatever the padding |
| EvmLogs.WholeDollars | internal/chains/evm/watcher.go:175-180 | a transfer of so many whole dollars carries exactly the amount an order of so many dollars stores |
| EvmLogs.ScanFindsLedger | internal/chains/evm/watcher.go:135-163 | a batched scan of an honest server finds exactly the ledger's transfers from its first to its last block |
| EvmLogs.SkippedPayment | internal/chains/evm/watcher.go:113-126 | a scan continuing from a saved cursor misses a payment between that cursor and the head iff the cursor is zero and the payment lies before the lookback |
| EvmLogs.OverwritingLosesMoney | internal/chains/evm/watcher.go:189-191 | the in-flight map holds at most the money the logs reported, and all of it iff no two logs share a transaction |
| EvmSystem.StepKeepsInv | internal/chains/evm/watcher.go:91-236 | every step of watcher, service, restart and surroundings keeps the system's invariant |
| EvmSystem.RunKeepsInv | internal/chains/evm/watcher.go:91-236 | so does every run |
| EvmSystem.ReseedFaithful | internal/orders/service.go:224-250 | what a restart reseeds has the ledger's amount and block and is on record |
| EvmSystem.ReturnIsRecorded | internal/chains/evm/watcher.go:208-209 | an emission ends only when its transfer is on record |
| EvmGuarantees.EveryPaymentIsCovered | internal/chains/evm/watcher.go:91-218 | in every reachable state every payment from the first scan that saved a cursor other than zero up to the cursor is in memory or on record, and between polls on record |
| EvmGuarantees.NoStrandedOrder | internal/orders/service.go:220-250 | at every step every confirming order's transfer is tracked with the order's amount and height, both set |
| EvmGuarantees.ForgettingIsSafe | internal/chains/evm/watcher.go:211-216 | a transfer dropped from memory is on record and no order waits for it |
| EvmGuarantees.PollConfirmsAllItCan | internal/chains/evm/watcher.go:194-218 | after a poll no order still waits that its head allowed to confirm |
| EvmGuarantees.NeverConfirmedEarly | internal/chains/evm/watcher.go:220-232 | a confirmed order's true block lies at least required - 1 below the highest head ever reported, stale heads and restarts included |
| EvmGuarantees.CursorAdvances | internal/chains/evm/watcher.go:113-169 | the cursor moves only by a save, then forward to the head (a head of zero leaves it at zero), and the scanned blocks continue the saved interval without a gap |
| EvmGuarantees.CrashLosesOnlyUnrecorded | internal/chains/evm/watcher.go:165-209 | a crash at any step keeps coverage iff no payment below the saved cursor still waits for its first emission in the interrupted refresh |
| EvmGuarantees.SinkFaultLoses | internal/chains/evm/watcher.go:209-235 | a payment whose report was rejected survives iff it was on record before or the head does not make it final yet |
| EvmGuarantees.SinkFaultStrands | internal/chains/evm/watcher.go:209-235 | after a rejected report some confirming order is untracked iff the head makes the transfer final, an order waits for it, and the call had not yet advanced that order |
| EvmGuarantees.RestartTracks | internal/orders/service.go:220-250 | a restart tracks every confirming order again, whatever was lost before |
| EvmGuarantees.LostStaysLost | internal/chains/evm/watcher.go:91-236 | a payment at or below the saved cursor that is neither in memory nor on record stays so over every further run |
| PollRefinement.EmissionIsRun | internal/chains/evm/watcher.go:208-217 | reporting one transfer, the call included, is a run of the composed system |
| PollRefinement.ScanIsRun | internal/chains/evm/watcher.go:113-169 | the batching loop, complete or cut short by a failing request, is a run of the composed system |
| PollRefinement.PollIsRun | internal/chains/evm/watcher.go:91-103 | a whole poll leads the composed system from the state before to exactly the state PollOnce leaves, invariant included |
| Paging.OneScanComplete | internal/chains/tron/watcher.go:137-170 | a scan read every shown entry from its minimum up to the new cursor iff the page cap did not cut between entries of the same time; a scan ended by a short page always did |
| Paging.ReadExactly | internal/chains/tron/watcher.go:137-168 | a poll reads exactly the entries shown by then, not before its minimum time, and with fewer such entries before them than its pages hold |
| Paging.HandledIff | internal/chains/tron/watcher.go:120-177 | over all polls of a new watcher, failed ones included, an entry the cursor has passed was handled iff it was shown by the poll that took the cursor past it and that poll's pages reached it, or a failed poll had read it before |
| Paging.PollsMissNothing | internal/chains/tron/watcher.go:120-177 | over any sequence of polls, failed ones included, that cut cleanly and see all there ever is up to the cursor they store, everything from the first saving scan up to the cursor was handled and the cursor never goes back |
| Paging.CursorNeverFalls | internal/chains/ton/watcher.go:127-173 | no poll lowers the cursor or handles anything at or before it, clean or not |
| Paging.LateEntryIsMissed | internal/chains/ton/watcher.go:127-173 | an entry not shown by the poll that takes the cursor past it is never handled, whatever follows |
| TonWatcher.LastIsLatest | internal/chains/ton/watcher.go:132-160 | with transfers in time order the largest time seen is the last one's |
| TonWatcher.HonestScanGetsFirst | internal/chains/ton/watcher.go:121-174 | a scan of an honest server gets the first of the transfers shown from the start time on, and the largest time seen is the last one's |
| TonWatcher.Watcher.SeedPending | internal/chains/ton/watcher.go:78-85 | adds the transfer, counting from the present clock, unless it is tracked already |
| TonWatcher.Watcher.HandleTransfer | internal/chains/ton/watcher.go:176-193 | tracks the transfer with a hundred stored units for each token unit, or skips one whose amount or logical time does not parse |
| TonWatcher.Watcher.HandlePage | internal/chains/ton/watcher.go:151-159 | the page's transfers tracked in order, the largest logical time and time kept |
| TonWatcher.ScanTracksExactly | internal/chains/ton/watcher.go:176-193 | after any entries exactly the transactions tracked before or having a usable transfer among them are tracked, the latter with the last such one's amount, a hundred stored units for each token unit, and place; the others are as they were |
| TonWatcher.LargestSeen | internal/chains/ton/watcher.go:151-159 | the two marks kept are the largest values met |
| TonWatcher.Watcher.ReadPages | internal/chains/ton/watcher.go:132-165 | for any server: the transfers of the pages up to the first short one, the twentieth, or a failing request, tracked in order, and whether no request failed |
| TonWatcher.GatherWindow | internal/chains/ton/watcher.go:132-165 | from an honest server the page loop gets a prefix of the window, each transfer once and in order: all of it, or twenty full pages, when no request fails |
| TonWatcher.Watcher.ScanNewTransfers | internal/chains/ton/watcher.go:121-174 | for any server, asked from the second after the stored time or from ten minutes ago: exactly which transfers are tracked afterwards and how, which failure is reported when, and the new cursor: the largest time seen after success, the old one after any failure or if none was seen |
| TonWatcher.Watcher.Emit | internal/chains/ton/watcher.go:211-226 | one completed call for the transfer, with its amount and logical time and the whole five-second blocks since it was observed, never negative |
| TonWatcher.Watcher.RefreshConfirmations | internal/chains/ton/watcher.go:195-233 | reports every tracked transfer exactly once, as a chain of completed calls, and forgets exactly those that have waited long enough |
| TonWatcher.ReportsMean | internal/chains/ton/watcher.go:195-226 | the reports of a refresh are one for each tracked transfer, with its amount, logical time and the five-second blocks since it was observed |
| TonWatcher.ScanIsPoll | internal/chains/ton/watcher.go:121-174 | such a scan, complete or cut short, is one poll of the paging model: the same entries handled, the stored second moving as the model's cursor |
| TonWatcher.ScanTracksAll | internal/chains/ton/watcher.go:121-174 | after a clean scan every decodable transfer between the old and the new cursor is tracked |
| TonReseeding.ElapsedReaches | internal/chains/ton/watcher.go:212-215 | the count is never negative and reaches n iff n times five seconds have passed |
| TonReseeding.CallIsPoll | internal/orders/service.go:118-141 | whatever is locked and whatever fails, a completed call for a tracked transfer changes its order as an accepted poll does, or not at all when a statement it reaches fails |
| TonReseeding.ReseedingIsConservative | internal/chains/ton/watcher.go:73-85 | through any number of restarts, re-reads and rejected reports the stored count never drops nor runs ahead of the time really elapsed, and no order is confirmed before the required block times have passed |
| TonReseeding.TrackLostIff | internal/chains/ton/watcher.go:222-231 | a confirming order is untracked iff the sink rejected a report that had reached the required count and neither a restart nor a scan reading the transfer again came since |
| TonReseeding.ReseededNeverAhead | internal/chains/ton/watcher.go:73-85 | at every later time a reseeded entry counts at most what it would have counted without the restart |
| TonReseeding.ConfirmedByFirstLatePoll | internal/chains/ton/watcher.go:195-233 | an accepted poll confirms a tracked confirming order iff the required block times have passed since the last reseeding |
| TronWatcher.LastIsLatest | internal/chains/tron/watcher.go:133-170 | with events in time order the largest timestamp seen is the last one's |
| TronWatcher.HonestScanGetsFirst | internal/chains/tron/watcher.go:120-177 | a scan of an honest server gets the first of the events shown from the minimum on, and the largest timestamp seen is the last one's |
| TronWatcher.Watcher.HandleEvent | internal/chains/tron/watcher.go:179-194 | tracks a transfer to the watched address with a hundred stored units for each token unit, skips transfers to others and unparseable values |
| TronWatcher.Watcher.HandlePage | internal/chains/tron/watcher.go:154-162 | the page's events tracked in order, the largest block and timestamp kept |
| TronWatcher.ScanTracksExactly | internal/chains/tron/watcher.go:179-194 | after any entries exactly the transactions tracked before or having a usable event among them are tracked, the latter with the last such one's amount, a hundred stored units for each token unit, and place; the others are as they were |
| TronWatcher.LargestSeen | internal/chains/tron/watcher.go:154-162 | the two marks kept are the largest values met |
| TronWatcher.Watcher.ReadPages | internal/chains/tron/watcher.go:137-168 | for any server: the events of the pages up to the first short one or without a fingerprint, the twentieth, or a failing request, tracked in order, and whether no request failed |
| TronWatcher.GatherWindow | internal/chains/tron/watcher.go:137-168 | from an honest server, following fingerprints gets a prefix of the window, each event once and in order: all of it, or twenty full pages, when no request fails |
| TronWatcher.Watcher.ScanNewEvents | internal/chains/tron/watcher.go:120-177 | for any server, asked from the millisecond after the stored time or from ten minutes ago: exactly which transactions are tracked afterwards and how, transfers to others never, which failure is reported when, and the new cursor: the largest timestamp seen after success, the old one after any failure or if none was seen |
| TronWatcher.ScanIsPoll | internal/chains/tron/watcher.go:120-177 | such a scan, complete or cut short, is one poll of the paging model: the same entries handled, the stored millisecond moving as the model's cursor |
| TronWatcher.ScanTracksAll | internal/chains/tron/watcher.go:120-177 | after a clean scan every decodable event to the address between the old and the new cursor is tracked |
| Examples.ReviewFaultDropsPayment | internal/orders/service.go:175-179 | a payment that leaves no trace although the call succeeds |
| Examples.ExactPayerSettlesAnotherOrder | internal/orders/repository.go:186-193 | an exact payer whose money always goes to another order |
| Examples.UnderpaidKeepsUnmatchedReview | internal/orders/review.go:27-30 | an underpaid order whose transfer stays in the queue as unmatched |
| Examples.CrashAfterSaveLosesPayment | internal/chains/evm/watcher.go:165-209 | a run after which a crash loses a payment for good |
| Examples.RejectedReportLosesPayment | internal/chains/evm/watcher.go:209-216 | a run in which a rejected report loses a payment for good |
| Examples.RejectedReportStrandsOrder | internal/chains/evm/watcher.go:209-216 | a run in which a rejected report leaves a confirming order untracked |
| Examples.ZeroCursorSkipsPayment | internal/chains/evm/watcher.go:118-123 | two polls, of head 0 and head 60, that skip a payment for good |
| Examples.SecondTransferOverwrites | internal/chains/evm/watcher.go:190 | two payments in one transaction of which one is tracked |
| Examples.LateTransferIsNeverHandled | internal/chains/ton/watcher.go:127-173 | two polls of a new watcher, the second showing an earlier transfer that neither they nor any later poll handle |

## Left out

- HTTP and JSON-RPC clients, retries, fallbacks and backoff: a call fails or returns data; what an honest server returns is a stated hypothesis.
- `internal/api`, `internal/ratelimit`, `internal/config`, `cmd/frenixpay`, connection setup and migrations: wiring and parsing; configuration values are parameters.
- `internal/chains/manager.go`: a map from chain to watcher; the `Run` loops and tickers, which only repeat a poll or a sweep.
- The audit log and all logging: write-only, errors discarded.
- The `mu` mutex of the watchers: only one goroutine of a watcher touches its map after start-up.
- TRON base58 addresses and `addressToTopic`: thin wrappers over libraries and fixed padding; whether an event is for the watched address is an input.
- TRON's `SeedPending`, `refreshConfirmations` and `emit`, and the `pollOnce` of TRON and TON: the first three are the EVM watcher's code line by line, and the last two only call scan and refresh.
- Columns that nothing decides on (user id, token, timestamps other than `expires_at` and `confirmed_at`, review status and notes), GetOrder, UUID generation: a fresh id is given.
- Postgres locking beyond SKIP LOCKED, which may hide any set of rows from a claim: each statement, and the ClaimUnderpaid transaction, is atomic.
- Chain reorganisations: the code has no recovery for them; a transfer keeps its block.
- The 32-bit `confirmations` columns and 64-bit overflow of block numbers: integers are unbounded except in the hexadecimal parser.
- TonWatcher.Watcher.HandleTransfer: the decimal amount and the logical time are given parsed or absent; an amount is a whole number of raw units, without fraction or exponent.
- TronWatcher.Watcher.HandleEvent: the decimal value is given parsed or absent, and the case-insensitive comparison of the recipient is an input.
- EvmWatcher.Watcher.FetchBatches: the loop body of scanNewLogs and the loop itself are separate methods here; the ghost range list records the requests.
- Service.Service.CreateOrder: chain names are lower-cased in ASCII only, which decides the same for the four names the service knows.
- Repository.Repository.CreateWithUniqueAmount: ids, random draws, clock and connection failures of every attempt are given; the draw is within rand.Intn's range.
- Conservation.MoneyIsConserved: holds for runs without failing statements, with one amount per transfer; what a failing statement costs is CompletedCall.DroppedOnlyByFailedReview.
- EvmGuarantees.EveryPaymentIsCovered: the chain's sink calls succeed and the process restarts between polls, with one transfer per transaction; the exact loss otherwise is stated by SinkFaultLoses, CrashLosesOnlyUnrecorded and EvmLogs.OverwritingLosesMoney.
- PollRefinement.PollIsRun: shows a poll whose calls nothing else interleaves with to be a run; interleavings are in the composed system itself.
- Paging.PollsMissNothing: whatever appears after a poll must be later than its cursor; HandledIff says what is handled without this. Entries of the same time have one fixed order.
- EvmGuarantees.NeverConfirmedEarly: the highest head counts as zero while no head above zero was reported.
