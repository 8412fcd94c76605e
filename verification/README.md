# Verified models of the benchmark's stateful cores

The repository sends orders to perpetual-futures venues, measures latency, confirms and cleans up
its orders and stores what it saw. This project models the parts of it that carry real state,
concurrency or arithmetic, and proves what they keep over every run:

- `OrderBook` and `Windows`: the incremental order-book parsers with their 15-level trimmed books,
  and the bounded histories that are shifted in place (book snapshots, network observations, samples).
- `FillWalk` and `TakerCost`: the depth walk behind an expected fill, and the two programs that
  account for a round trip's cost and slippage.
- `Feed` and `Confirmation`: the shared account feed with its many waiters, and the cancel
  confirmation built on it, up to the cleanup result and its retries.
- `Funding`: the deposit monitor with its cooldowns, targets and rolling daily cap.
- `Ledger`, `Shares`, `Dedup` and `Backfill`: the exchange-TPS counters, their tables and hourly
  rollups, the category shares, the deduplication of blocks and the historical backfill.
- `Barrier` and `RunLoops`: the coordinated start of senders, and the closed and open run loops.
- `Common`: options, results and a few sequence facts.

Code that works step by step is modelled by methods and classes with the program's own fields and
loops; each is proved against a specification function. Code that runs concurrently is modelled
twice where it has both sides: as a state machine with one step for each critical section, over all
sequences of steps, and as a class whose methods carry out those steps. Times are integers, zero
standing for the zero time. Prices, sizes and amounts are reals. Database tables are maps for one
venue. The network, the clock, the depositor, the context's cancellation and the order in which a
map is walked are inputs or nondeterministic choices.

`dafny verify dfyconfig.toml` checks the whole project.

What the proofs found out about the code, each with its exact condition and an input or a run where
it goes wrong:

- A snapshot level is the true level of the untrimmed book exactly when no price that was trimmed,
  and not named since, stands before it (`OrderBook.SnapshotLevelTrueIff`). Sixteen bids, the best
  then removed and a worse one added, give a wrong level (`OrderBook.SnapshotLevelFalse`).
- When a wait times out and that connection's reader then fails, another waiter is told of the
  failure exactly when the timeout did not drop the client, in every run and quiet continuation
  (`Feed.StaleLeavesWaiters`, `Feed.LoseAnswersIff`); after a drop only a deciding message from an old
  reader, its own timeout or a reconnect ends its wait (`Feed.StrandedUntilReconnect`,
  `Feed.ReconnectTellsAll`). A run of five steps strands one (`Feed.StrandedHappens`).
- Nothing drained is ever lost exactly when no store write failed in a flush with rows left, and what
  is lost is exactly those rows (`Ledger.NothingLostIff`, `Ledger.LostExactly`, `Ledger.LossHappens`).
- After retention an hour row still agrees with its minutes exactly when there is none, or when one
  of its minutes is kept and the deleted ones sum to nothing (`Ledger.RetentionIff`); a cutoff inside
  an hour breaks it (`Ledger.RetentionDisagrees`).
- The Go range refresh and the Python per-hour refresh give the same table exactly when no other hour
  of the range was out of date (`Ledger.RefreshesAgreeIff`, `Ledger.RefreshesDiffer`).
- A block is counted again exactly when its height had fallen more than 10000 below the highest and
  was not itself counted since that highest was reached (`Dedup.CountedAgainIff`,
  `Dedup.CountedTwice`). The bucket that a session drops when it ends spares the blocks it counted
  exactly when the clock had not passed into a new minute between two readings at its start
  (`Dedup.DropSparesSessionIff`, `Dedup.CountedThenDropped`).
- A backfilled minute is exact exactly when no height that the explorer fails at lies among the
  heights that could hold its lower blocks (`Backfill.RowExactIff`, `Backfill.StopUnbroken`,
  `Backfill.Run`); a failure at the lower of two blocks leaves a partial row (`Backfill.PartialMinute`).
- Actual cost minus expected cost equals the two slippages exactly when the fills against the trip
  have the same value on entry and exit (`TakerCost.GapIsSlippageIff`, `TakerCost.RoundTrip`), as for
  one-sided fills (`TakerCost.OneSidedTrip`) and not for a mixed entry (`TakerCost.MixedTripDiffers`).
  The sides recorded for entry and exit are opposite exactly for an order side of buy or sell in any
  case (`TakerCost.RecordedSidesOpposite`).
- The rounding of bucket starts finds the bucket of a time exactly from 1970 on
  (`Ledger.FloorUnixIff`).

## Model

| member | source | states |
|---|---|---|
| OrderBook.FirstNumber | internal/booktop/booktop.go:674-683 | the number taken is the first positive one, zero exactly when none is |
| OrderBook.UnnamedIsKept | internal/booktop/booktop.go:463-482 | a message leaves every price it does not name as it was |
| OrderBook.LastNamingDecides | internal/booktop/booktop.go:463-482 | a named price ends with the size of the last level naming it, or absent when that is not positive |
| OrderBook.ApplyExtendedLevels | internal/booktop/booktop.go:463-482 | the loop over the levels computes the book that the two lemmas above describe |
| OrderBook.MessageSets | internal/booktop/booktop.go:463-482 | the last level carrying a price sets it: in a delta with current numbers to the first positive of those, else to the first positive of its sizes, and deletes it when none is positive |
| OrderBook.MessageKeeps | internal/booktop/booktop.go:463-482 | a price that no level carries is left as it was |
| OrderBook.TrimmedTracksFull | internal/booktop/booktop.go:251-284 | after every message sequence the kept book is part of the untrimmed one, and what it lacks are exactly the prices trimmed and not named since |
| OrderBook.FullAtLast | internal/booktop/booktop.go:251-461 | in every message sequence the untrimmed book has at a price what the last level carrying it since the last replacing message says |
| OrderBook.FullLacks | internal/booktop/booktop.go:251-461 | and lacks every price not carried since then |
| OrderBook.KeptBounded | internal/booktop/booktop.go:586-593 | no side ever keeps more than 15 prices |
| OrderBook.AgreeBeyondTrim | internal/booktop/booktop.go:410-461 | on prices better than every price trimmed since the last replacing message the two books agree |
| OrderBook.SnapshotLevelTrueIff | internal/booktop/booktop.go:554-568 | the i-th snapshot level is the i-th level of the untrimmed book if and only if no lost price stands before it |
| OrderBook.SnapshotLevelFalse | internal/booktop/booktop.go:410-461 | sixteen bids in a snapshot and one delta lead to a snapshot level that is not the untrimmed one |
| OrderBook.SnapshotPrefix | internal/booktop/booktop.go:554-593 | snapshot levels better than every trimmed price are a prefix of the untrimmed book's sorted levels |
| OrderBook.RankIsIndex | internal/booktop/booktop.go:558-577 | the position of a price in the sorted levels is the number of better prices |
| OrderBook.OrderedIff | internal/booktop/booktop.go:570-577 | bids fall and asks rise |
| OrderBook.SortedLevelsUnique | internal/booktop/booktop.go:558-577 | a book has only one sequence of sorted levels |
| OrderBook.KeptIsPrefix | internal/booktop/booktop.go:579-593 | trimming to the best prices cuts the tail off the sorted levels |
| OrderBook.SortLevels | internal/booktop/booktop.go:570-577 | a permutation in the order of the side |
| OrderBook.SortedBookLevelsAll | internal/booktop/booktop.go:558-568 | from any walk order of the map, the book's one sorted sequence of levels |
| OrderBook.TrimBook | internal/booktop/booktop.go:586-593 | exactly the prices of rank 15 and beyond are deleted |
| OrderBook.BestLevel | internal/booktop/booktop.go:484-512 | the best price of the book with its size, zero exactly for an empty book |
| OrderBook.MakeSnapshot | internal/booktop/booktop.go:268-284 | a snapshot exactly when both sides have a level, its ladders sorted and its top their first levels |
| OrderBook.LighterParser.Parse | internal/booktop/booktop.go:251-286 | replaces or updates both sides, logs the message, keeps the trimmed books and returns their snapshot |
| OrderBook.ParseLevels | internal/booktop/booktop.go:537-552 | the fifteen best positive levels in order, repeats included |
| OrderBook.PositivesKeep | internal/booktop/booktop.go:537-552 | exactly the raw levels of positive price and size are left, each as often as before |
| OrderBook.ExtendedParser.Parse | internal/booktop/booktop.go:410-461 | snapshot, delta and generic messages: new books, log and snapshot, or the generic ladder and unchanged books |
| OrderBook.ParseGeneric | internal/booktop/booktop.go:514-535 | a generic message gives a snapshot exactly when both sides have a positive level, its ladders being those of the message |
| Windows.LastNAppend | internal/booktop/booktop.go:162-168 | the last-N suffix of a log after an append is that of the earlier suffix after the same append |
| Common.CopyDownIsDrop | internal/booktop/booktop.go:164-167 | copying a slice down onto itself and cutting its length drops the first elements |
| Windows.Tracker.Observe | internal/booktop/booktop.go:158-170 | the history is the last 2048 snapshots of everything observed |
| Windows.Tracker.SnapshotAt | internal/booktop/booktop.go:93-112 | the newest usable snapshot not after the time asked for, or the latest for a zero time |
| Windows.NewestUsableUnique | internal/booktop/booktop.go:102-110 | a history has one newest usable snapshot |
| Windows.WindowSearchAgrees | internal/booktop/booktop.go:102-110 | a snapshot found in the window is the one a search of the full history finds, never after the time; the two searches differ exactly when all usable ones were shifted out |
| Windows.RetainSamples | internal/app/coordinated.go:204-214 | the last limit samples, nothing for a limit that is not positive |
| Windows.RetainedIsSuffix | internal/app/coordinated.go:204-214 | over any number of cycles the retained samples are the last-N suffix of all of them |
| Windows.Monitor.Record | internal/netbaseline/tcp.go:165-176 | only positive values enter, and the window is the last-N suffix of those |
| Windows.TopPriorityIsMax | internal/netbaseline/tcp.go:125-130 | the priority used is the highest retained, and some observation has it |
| Windows.AtPriorityIs | internal/netbaseline/tcp.go:131-139 | the values taken are those of exactly the observations of the priority, in order |
| Windows.SortedOrderStatistic | internal/netbaseline/tcp.go:140-144 | the value at an index of the sorted values is that order statistic |
| Windows.CountOfPermutation | internal/netbaseline/tcp.go:140 | sorting does not change any order statistic |
| Windows.OrderStatisticUnique | internal/netbaseline/tcp.go:140-149 | an order statistic is one value |
| Windows.Monitor.SnapshotFloor | internal/netbaseline/tcp.go:119-149 | the minimum below ten values, else the order statistic at (n-1)/10, of the retained observations of highest priority, with the newest one's source |
| FillWalk.GreedyOptimal | internal/bench/coordinated.go:410-442 | the walk's notional is minimal on asks and maximal on bids among all fills of the same quantity, and is itself such a fill |
| FillWalk.GreedyCheapest | internal/bench/coordinated.go:417-432 | over ascending prices no allocation of a quantity costs less than the walk |
| FillWalk.WalkFills | internal/bench/coordinated.go:417-432 | the walk fills the smaller of the size and the total depth |
| FillWalk.WalkCost | internal/bench/coordinated.go:429 | the walk's allocation costs the walk's notional |
| FillWalk.AverageNeverFalls | internal/bench/coordinated.go:437 | the average ask price never falls as the filled size grows |
| FillWalk.ExpectedFillFromDepth | internal/bench/coordinated.go:410-442 | average price of the greedy fill, total depth, levels taken, and sufficiency exactly when depth reaches the size up to 1e-12 |
| FillWalk.AddExpectedFill | internal/bench/coordinated.go:336-396 | a fill exactly with a book, a positive size and a snapshot not after the time; buys walk asks, sells bids, exits the opposite side; and what is recorded of the top, the depth and the age, also when no level can be walked |
| FillWalk.WalkPricePositive | internal/bench/coordinated.go:358-361 | a walk over positive levels has a positive price, so the depth price is used |
| TakerCost.AggregateTotals | internal/venues/cost_common.py:111-125 | every total is the sum of its fills' terms, fees in absolute value, other side words counting for nothing |
| TakerCost.SideWords | internal/venues/cost_common.py:111-125 | the words for buy and sell, in any letter case |
| TakerCost.OrderIndependent | internal/venues/cost_common.py:111-125 | the aggregate of fills does not depend on their order |
| TakerCost.FillAggregate.Add | internal/venues/cost_common.py:111-125 | the dictionary updated in place is the aggregate of the fills so far |
| TakerCost.FillAggregate.AddSided | internal/venues/cost_common.py:115-125 | one fill of a known side, or none, is added |
| TakerCost.FillAggregate.Finish | internal/venues/cost_common.py:128-131 | no aggregate exactly when no fill was counted |
| TakerCost.BuildRoundTripCost | internal/venues/cost_common.py:25-95 | the amounts, the balance reconciliation, and clean exactly when both fills exist, both are complete and the difference is within tolerance |
| TakerCost.IncompleteIff | internal/venues/cost_common.py:207-212 | a leg is incomplete when short by more than a millionth of the expected quantity and more than a hundred-millionth |
| TakerCost.UsableIff | frontend/src/lib/taker-cost.ts:139-300 | a positive expected price is used unless the book, or where that is unknown its top, was too thin |
| TakerCost.SlippageIs | frontend/src/lib/taker-cost.ts:139-300 | a sell slips when it brings less than expected, any other side when it costs more |
| TakerCost.LegIdentity | frontend/src/lib/taker-cost.ts:246-287 | a leg's slippage plus its expected cost is its signed value |
| TakerCost.GapExcess | frontend/src/lib/taker-cost.ts:139-215 | the gap exceeds the slippages by the price move less the two legs' signed values |
| TakerCost.GapIsSlippageIff | frontend/src/lib/taker-cost.ts:139-215 | with expected sides that match the trip the gap equals the total slippage if and only if the fills against the trip have the same value on both legs |
| TakerCost.GapIsSlippage | frontend/src/lib/taker-cost.ts:139-215 | for one-sided entry and opposite exit fills with matching expected sides, buy or sell, gap equals entry plus exit slippage |
| TakerCost.RoundTrip | internal/venues/cost_common.py:25-131 | from the two fill lists through aggregation, cost and record: gap equals slippage if and only if the sums of the fills against the trip agree |
| TakerCost.OneSidedTrip | internal/venues/cost_common.py:25-131 | from one-sided fill lists through both programs, gap equals entry plus exit slippage |
| TakerCost.MixedTripDiffers | frontend/src/lib/taker-cost.ts:139-215 | an entry of a buy and a smaller sell with an exit of a sell alone has a gap that is not its slippage |
| TakerCost.RecordedSidesOpposite | internal/bench/coordinated.go:444-449 | recorded entry and exit sides are opposite exactly for buy or sell in any letter case |
| Feed.SendsNeverBlock | internal/accountfeed/feed.go:152-154 | in every interleaving each channel gets at most one answer, and whoever is owed one has an empty channel |
| Feed.IdsNeverReused | internal/accountfeed/feed.go:189-191 | a new waiter's identifier was never used before, and answers sent are never taken back |
| Feed.LoseAnswersIff | internal/accountfeed/feed.go:248-266 | in every run and continuation without reconnect, dispatch, loss or own timeout, a waiter is told of a reader's failure if and only if the client was current, and else waits on |
| Feed.StaleLeavesWaiters | internal/accountfeed/feed.go:194-266 | in every run, when a wait times out and the reader then fails, another waiter is told of it if and only if something was read since the wait began and within two minutes |
| Feed.StaleIff | internal/accountfeed/feed.go:268-280 | stale exactly when the last read, or the start without one, lies before the start or more than two minutes back |
| Feed.LoseClears | internal/accountfeed/feed.go:248-261 | a failure of the current client clears it and owes every waiter the error; of another client it changes nothing |
| Feed.ReceiveTakes | internal/accountfeed/feed.go:202-204 | a Wait call takes the one answer of its channel and is over |
| Feed.ToldStays | internal/accountfeed/feed.go:139-154 | an error a waiter is told is owed to it or its one answer in every continuation |
| Feed.StrandedUntilReconnect | internal/accountfeed/feed.go:230-266 | without a client and until a reconnect or its own timeout, a waiter stays registered with an empty channel unless a dispatched message decided it |
| Feed.StrandedHappens | internal/accountfeed/feed.go:194-266 | a run of a connection, two waits, a timeout and a failed reader leaves a waiter that is told nothing |
| Feed.ReconnectTellsAll | internal/accountfeed/feed.go:139-154 | a reconnect tells every waiter to start over, in every continuation |
| Feed.InstallAnswersAll | internal/accountfeed/feed.go:139-154 | a reconnect takes every waiter out to be answered |
| Feed.WaiterShownEverything | internal/accountfeed/feed.go:158-192 | until answered, a matcher has been shown in order exactly the retained and then all dispatched messages since its start, and matched none |
| Feed.AnsweredAtFirstDecision | internal/accountfeed/feed.go:230-246 | a waiter is answered at the first message on which its matcher decides, with that message's time and verdict |
| Feed.AnswerMeasures | internal/accountfeed/feed.go:230-246 | in every run the one answer of a decided waiter measures from its start to the arrival of the deciding message, with that message's bytes and the matcher's failure |
| Feed.FailureMeasures | internal/accountfeed/feed.go:148-154 | an answer after a failure or reconnect measures from the waiter's start to its sending and carries the error |
| Feed.MeasuredTime | internal/accountfeed/feed.go:310-332 | the time measured, also without a start or a finish, and never negative |
| Feed.DecidedShownFrom | internal/accountfeed/feed.go:171-246 | a decided matcher was shown exactly the messages offered to it from its start on, up to the deciding one |
| Feed.NothingMissed | internal/accountfeed/feed.go:295-308 | a message since a start no older than ten seconds is retained unless 1024 followed it |
| Feed.TrimKeeps | internal/accountfeed/feed.go:295-308 | at most the last 1024 messages are kept, none before the first that is no older than ten seconds |
| Feed.OkAnswerIsDecision | internal/accountfeed/feed.go:194-204 | an answer without an error comes from the first decision of the waiter's own matcher among messages since its own start |
| Feed.ShownPrefix | internal/accountfeed/feed.go:171-184 | replay shows a prefix of the messages, all of them or up to the first decision |
| Feed.FirstFresh | internal/accountfeed/feed.go:295-303 | everything before the index kept is older than the cutoff and the message there is not |
| Feed.Feed.Ready | internal/accountfeed/feed.go:207-217 | reusable exactly when connected, dialled for the key and authorised for more than ten seconds |
| Feed.Feed.Install | internal/accountfeed/feed.go:139-147 | the critical section of a reconnect |
| Feed.Feed.Ensure | internal/accountfeed/feed.go:119-156 | keeps a usable connection; else errors without change, or installs the new client and answers every old waiter once |
| Feed.Feed.AnswerAll | internal/accountfeed/feed.go:148-154 | each waiter taken out gets the error as its one answer, in any order of the map |
| Feed.Feed.Enter | internal/accountfeed/feed.go:158-192 | answers from the replay exactly when the matcher decides there, else registers |
| Feed.Feed.Replay | internal/accountfeed/feed.go:171-184 | shows the retained messages since the start up to the first decision |
| Feed.Feed.Dispatch | internal/accountfeed/feed.go:230-246 | buffers, trims and shows the message to every waiter in any order, answering and removing those that decide |
| Feed.Feed.Fail | internal/accountfeed/feed.go:248-261 | takes the waiters out only for the current client |
| Feed.Feed.Lost | internal/accountfeed/feed.go:248-266 | answers every waiter taken out with the error |
| Feed.Feed.GiveUp | internal/accountfeed/feed.go:195-200 | unregisters one waiter and invalidates a stale client, nothing else |
| Feed.Feed.InvalidateStale | internal/accountfeed/feed.go:268-286 | drops a stale client and keeps the waiters |
| Feed.Feed.TrimRecent | internal/accountfeed/feed.go:295-308 | the slice shifted in place is the trimmed buffer |
| Confirmation.FirstMatching | internal/venues/confirmutil/confirmutil.go:67-75 | an id of the set among the values, none exactly when there is none |
| Confirmation.RemovedWasReported | internal/venues/hyperliquid/confirmation.go:188-207 | an id leaves the set only because a message shown reports it cancelled |
| Confirmation.RemainingIff | internal/venues/extended/confirmation.go:94-107 | when no order names two planned ids, the ids left are exactly those never reported cancelled |
| Confirmation.CancelledIff | internal/venues/hyperliquid/confirmation.go:201-204 | a status counts in any letter case: with the word cancel in it at Hyperliquid, one of two spellings of cancelled at the others |
| Confirmation.ReportsIff | internal/venues/aster/confirmation.go:91-109 | which messages report an id: order updates at Hyperliquid, any at Extended, the order of a trade update at Aster |
| Confirmation.DecidedCompletes | internal/venues/aster/confirmation.go:91-109 | the message a cancel matcher decides on is the one that completes the set |
| Confirmation.EmptyingDecides | internal/venues/extended/confirmation.go:94-107 | the matcher decides on every message that takes the last id away |
| Confirmation.Remaining.Match | internal/accountfeed/confirmation.go:89-93 | the closure over the shrinking set is the matcher that the feed is given |
| Confirmation.Remaining.Delete | internal/venues/hyperliquid/confirmation.go:192-205 | the loop deletes the first still planned id of every cancelled order |
| Confirmation.IDSet | internal/venues/confirmutil/confirmutil.go:39-48 | exactly the non-empty texts |
| Confirmation.VerifyByOpenOrders | internal/venues/hyperliquid/confirmation.go:67-87 | verified exactly when the poll succeeded and lists none of the ids |
| Confirmation.ResultFromNetwork | internal/cleanup/execution.go:21-59 | OK exactly when there was no error and the response was accepted, with times, bytes and error text |
| Confirmation.ResultWithConfirmation | internal/cleanup/execution.go:61-123 | OK exactly when accepted and, where a confirmation was prepared, the feed or else the poll confirmed it; which of them, and whose times |
| Confirmation.WaitOkMeansCancelled | internal/accountfeed/confirmation.go:71-83 | a Wait without an error was shown exactly the messages offered from its start on up to the one completing the set, these report every planned id, and it measures from the start to that message |
| Confirmation.ConfirmedCleanup | internal/cleanup/execution.go:61-123 | a confirmed cleanup that ends OK was cancelled in fact: by feed messages from the time the request was written, by its own trace, none of them kept from the matcher, or by a poll without any of the ids; its measured end is the last message; and an accepted one that fails had neither |
| Confirmation.WithRetries | internal/cleanup/command.go:279-314 | at most three runs, each but the last failed in a retryable way, and the result is the last one, with the error of a retry that could not be prepared |
| Confirmation.RetryableIff | internal/cleanup/command.go:330-341 | tried again exactly when it failed and its error or description has one of five words in any letter case |
| Confirmation.AttemptIs | internal/cleanup/command.go:294-351 | a retry ends as prepared, with its number and the first error noted |
| Confirmation.BothTold | internal/cleanup/command.go:353-361 | of two errors neither is lost |
| Funding.PlanMeetsTarget | internal/funding/plan.go:19-59 | a deposit is planned exactly for an eligible account, at least the minimum, and is the largest within target and maximum |
| Funding.PlannerReads | internal/funding/plan.go:19-69 | the smallest deposit, the balance that counts and the dry run of an account |
| Funding.PlannedIsMadeIff | internal/funding/runner.go:57-71 | a planned deposit is made, and recorded with the plan's amount and the deposit's outcome, if and only if it is dry, no cap is set, or the last day's live successes with it keep the cap; otherwise nothing changes |
| Funding.UnplannedIsNoted | internal/funding/runner.go:36-56 | without a plan nothing is attempted or recorded and the account notes why |
| Funding.CycleServesAll | internal/funding/runner.go:30-75 | every account a cycle reaches with a live plan that the cap then allows is attempted, whatever becomes of the others |
| Funding.DailyIsSpent | internal/funding/state.go:160-170 | what the cap check counts are the live successes of the last 24 hours |
| Funding.RollingCap | internal/funding/runner.go:30-75 | over every run, restarts and pruning included, the recorded live deposits completed in any 24 hours total at most the cap |
| Funding.CooldownHolds | internal/funding/types.go:239-244 | any two live attempts of one account are at least its cooldown apart |
| Funding.CooldownIs | internal/funding/types.go:239-244 | the cooldown in milliseconds, half an hour by default |
| Funding.SpentAfterPruning | internal/funding/state.go:160-182 | pruning removes nothing that a window beginning within the last day counts |
| Funding.Runner.RecentEvents | internal/funding/state.go:172-182 | exactly the timed events of the last day, in order |
| Funding.Runner.SpentToday | internal/funding/state.go:160-170 | the sum of the live successes of the last day |
| Funding.Runner.Record | internal/funding/state.go:77-108 | a result replaces the account's state; an event is kept only for a deposit without an error |
| Funding.Runner.Observe | internal/funding/state.go:110-120 | a skipped account keeps its last attempt |
| Funding.Runner.Fail | internal/funding/state.go:122-138 | a balance error keeps the last attempt and, for a zero balance, the last balance |
| Funding.Runner.Serve | internal/funding/runner.go:30-75 | one account's part of a cycle, with a result exactly when an event was recorded |
| Funding.Runner.RunOnce | internal/funding/runner.go:18-77 | a cycle is the accounts' steps in order up to a cancellation, with one result for each event recorded |
| Ledger.FloorUnixIff | internal/exchangetps/store.go:440-445 | a multiple of the bucket, and the start of the bucket a time lies in if and only if the time is from 1970 on or a multiple itself |
| Ledger.LedgerConserved | internal/exchangetps/aggregator.go:33-115 | in every interleaving, field by field, what was stored, added and corrected is pending, drained, stored, dropped, lost or expired, once |
| Ledger.SettledMinute | internal/exchangetps/aggregator.go:33-115 | a minute no step took from, once neither pending nor drained, has stored all that was added to it |
| Ledger.DrainTakes | internal/exchangetps/aggregator.go:102-115 | a drain takes exactly the buckets whose minute ended a second ago or earlier, or all, with what they hold |
| Ledger.RetainKeeps | internal/exchangetps/store.go:384-391 | retention keeps the minutes from the cutoff on and nothing else changes |
| Ledger.LostExactly | internal/exchangetps/aggregator.go:60-70 | over any run the rows lost are exactly those that failed writes left unwritten |
| Ledger.NothingLostIff | internal/exchangetps/aggregator.go:60-70 | over any run nothing is lost if and only if no write failed in a flush with rows left |
| Ledger.LossHappens | internal/exchangetps/aggregator.go:67-70 | a row is added, drained and lost by a failed write |
| Ledger.RollupInvariant | internal/exchangetps/store.go:325-382 | once all flushes ended, each hour row that no retention, failed flush or direct write touched since its refresh is the sum of its minutes and exists exactly when one does |
| Ledger.HourSumCounts | internal/exchangetps/store.go:353-358 | every minute row of an hour counts once in its sum |
| Ledger.EmptyHourSum | internal/exchangetps/store.go:353-358 | an hour without minute rows sums to nothing |
| Ledger.HourSumIgnores | internal/exchangetps/store.go:353-358 | a minute row of another hour does not count |
| Ledger.RefreshesAgreeIff | scripts/hyperliquid_tps_backfill.py:162-178 | the per-hour and the range refresh give the same table if and only if no other hour of the range was out of date |
| Ledger.RefreshesDiffer | scripts/hyperliquid_tps_backfill.py:162-178 | an hour between two refreshed hours gets a row from the range refresh and none from the per-hour refresh |
| Ledger.RetentionIff | internal/exchangetps/store.go:384-399 | an hour that agreed with its minutes still does after retention if and only if it has no row, or it keeps a minute and the deleted ones sum to nothing |
| Ledger.RetentionDisagrees | internal/exchangetps/store.go:384-399 | a cutoff between two minutes of an hour leaves an hour row that counts both |
| Ledger.Counted | internal/exchangetps/aggregator.go:40-58 | every order counts as a place or a cancel, and nothing else but errors |
| Ledger.BucketIsFloor | internal/exchangetps/aggregator.go:117-121 | the bucket of a timestamp is the floor of its seconds to the minute |
| Ledger.BucketHolds | internal/exchangetps/aggregator.go:82-88 | the bucket is the whole minute of the timestamp, or of now for a missing one |
| Ledger.Aggregator.Add | internal/exchangetps/aggregator.go:82-100 | adds to the bucket of the timestamp, or of now for a missing one |
| Ledger.Aggregator.AddBlock | internal/exchangetps/aggregator.go:29-31 | one block with its transactions |
| Ledger.Aggregator.AddTransaction | internal/exchangetps/aggregator.go:40-58 | adds the counted action, nothing for one that is neither an order nor an error |
| Ledger.Aggregator.DropBucketAt | internal/exchangetps/aggregator.go:33-38 | removes the bucket of a time and no other |
| Ledger.Aggregator.Drain | internal/exchangetps/aggregator.go:102-115 | takes exactly the buckets that ended a second ago, or all |
| Ledger.Store.Write1m | internal/exchangetps/store.go:258-312 | adds to or replaces the minute row |
| Ledger.Store.RefreshRollups | internal/exchangetps/store.go:325-355 | deletes and rebuilds the hours of the range from their minutes |
| Ledger.Store.RefreshTouched | scripts/hyperliquid_tps_backfill.py:162-178 | rebuilds the hours of the touched minutes one by one |
| Ledger.Store.ApplyRetention | internal/exchangetps/store.go:384-391 | keeps exactly the minutes from the cutoff on |
| Ledger.WriteAll | internal/exchangetps/aggregator.go:67-77 | writes the drained rows until one fails, keeping the range of minutes written |
| Ledger.Flush | internal/exchangetps/aggregator.go:60-80 | runs as steps of the ledger, succeeds exactly when no write failed, and then leaves the hours of all it drained up to date |
| Shares.RoundedNear | internal/exchangetps/store.go:200-203 | a rounded quotient is within a half of the exact one |
| Shares.ShareTracksMean | internal/exchangetps/store.go:196-206 | after k merged samples a share is within (k-1)/2 ppm of the exact transaction-weighted mean |
| Shares.SamplesGrow | internal/exchangetps/store.go:196-206 | which samples count, with which share |
| Shares.ShareInHull | internal/exchangetps/store.go:196-206 | a share stays between the least and the greatest share merged |
| Shares.OrderMatters | internal/exchangetps/store.go:200-203 | the same samples in another order can give another share |
| Shares.TableTracksMean | internal/exchangetps/store.go:196-206 | every stored share keeps that bound over whatever was recorded, and its row all its transactions |
| Shares.Splits.Record | internal/exchangetps/store.go:196-208 | the upsert of one category keeps every row what its samples make it |
| Shares.Splits.RecordCategorySplitDelta1m | internal/exchangetps/store.go:167-217 | errors for a missing venue, then a missing bucket start; else records each named category with a non-negative share once, in any order, and nothing for an empty sample |
| Shares.EntryIs | internal/exchangetps/store.go:176-216 | a category's sample has the whole minute, the trimmed name, the share and the sampled sizes, and is recorded unless the name is blank or the share negative |
| Shares.TrimIs | internal/exchangetps/store.go:193 | trimming cuts exactly the white space at both ends |
| Shares.FiveFloors | internal/exchangetps/hyperliquid.go:351-359 | the five floored shares together are short of the counted part by fewer than five units |
| Shares.Categories | internal/exchangetps/hyperliquid.go:373-387 | which actions fall into which category |
| Shares.SampleShares | internal/exchangetps/hyperliquid.go:333-366 | the shares are the floored parts, and add up to between 999996 and 1000000 when the counts add up to the sampled transactions |
| Shares.HourShare | internal/exchangetps/store.go:364-377 | an hour's share is within half a ppm of the weighted mean of its minute shares |
| Shares.HourShareInHull | internal/exchangetps/store.go:364-377 | and between the least and the greatest of them |
| Dedup.CountedAgainIff | internal/exchangetps/hyperliquid.go:163-183 | a counted height is counted again if and only if it had fallen more than 10000 below the highest and was not counted since that was reached |
| Dedup.ReceivedIsCountedIff | internal/exchangetps/hyperliquid.go:163-202 | in every run a block received is counted if and only if it has a height and a time after every session's starting minute, and its height is new or had fallen far enough |
| Dedup.CountedTwice | internal/exchangetps/hyperliquid.go:163-215 | a block, one more than 10000 above it, and the block again are all counted |
| Dedup.DoubleCountedFarBelow | internal/exchangetps/hyperliquid.go:163-215 | of two counted blocks of one height, the later followed one more than 10000 above |
| Dedup.LastHeightIsMax | internal/exchangetps/hyperliquid.go:178-181 | lastHeight is the greatest height counted |
| Dedup.RememberedBound | internal/exchangetps/hyperliquid.go:204-215 | at most 10001 heights are remembered when the highest rises |
| Dedup.CountedAfterStart | internal/exchangetps/hyperliquid.go:185-202 | no counted block lies in or before the minute in which a session up to then started |
| Dedup.DropSparesSessionIff | internal/exchangetps/hyperliquid.go:149-150 | the bucket dropped at a session's end spares all its counted blocks if and only if the second clock reading at its start had not passed the ignored minutes |
| Dedup.CountedThenDropped | internal/exchangetps/hyperliquid.go:149-150 | a clock that passes into a new minute at the session's start lets a block be counted in the bucket dropped at its end |
| Dedup.AtMostPerMinute | internal/exchangetps/hyperliquid.go:217-253 | at most the configured number of blocks of a remembered minute is sampled |
| Dedup.SampleSlot | internal/exchangetps/hyperliquid.go:224-230 | the slot is the equal part of the minute that the block's time lies in |
| Dedup.SampledIff | internal/exchangetps/hyperliquid.go:217-264 | a counted block is queued if and only if samples are asked for, it has a time, its slot was not taken by another and there is room |
| Dedup.TakenIff | internal/exchangetps/hyperliquid.go:217-253 | a slot is taken exactly by an earlier taking or a counted block in it, until a block more than two minutes later |
| Dedup.SampledPicks | internal/exchangetps/hyperliquid.go:217-264 | the queue grows by some of the counted blocks, in order |
| Dedup.Collector.IgnoreCurrentSessionStartBucket | internal/exchangetps/hyperliquid.go:185-192 | the minutes ignored grow to that of now |
| Dedup.Collector.ShouldIgnoreBlock | internal/exchangetps/hyperliquid.go:194-202 | ignored exactly without a time or up to the ignored minute |
| Dedup.Collector.PruneSeen | internal/exchangetps/hyperliquid.go:204-215 | exactly the heights more than 10000 below the highest are forgotten |
| Dedup.Collector.AcceptHeight | internal/exchangetps/hyperliquid.go:163-183 | accepts exactly positive heights not remembered, and reports gaps |
| Dedup.Collector.ShouldSampleActionBreakdown | internal/exchangetps/hyperliquid.go:217-253 | samples exactly the first block of a slot, and forgets minutes more than two minutes older |
| Dedup.Collector.EnqueueActionSample | internal/exchangetps/hyperliquid.go:255-264 | a block joins the queue exactly when there is room |
| Dedup.Collector.HandleBlocks | internal/exchangetps/hyperliquid.go:440-466 | every block counted adds its transactions and one block to its minute, the others nothing, and each counted one is offered for a sample in turn |
| Dedup.Collector.HandleMessage | internal/exchangetps/hyperliquid.go:420-438 | exactly the blocks of the block channel and of untagged messages are handled |
| Dedup.AddStepsFeed | internal/exchangetps/hyperliquid.go:440-466 | handling blocks adds them to the buckets as steps of the ledger do |
| Dedup.BlocksReachRows | internal/exchangetps/aggregator.go:29-115 | a settled minute that nothing was taken from has grown in the table by exactly the counted blocks of that minute, in every interleaving |
| Backfill.FindLastBlockBefore | scripts/hyperliquid_tps_backfill.py:123-140 | the greatest height before the target, none exactly when there is none, for monotone times; in any case a block before it whose successor is not |
| Backfill.MinuteHolds | scripts/hyperliquid_tps_backfill.py:227 | the minute of a block is a whole one that holds its time |
| Backfill.SumsOne | scripts/hyperliquid_tps_backfill.py:231-256 | one height adds its block's transactions and one block to the minute it lies in, and nothing else |
| Backfill.SumsSplit | scripts/hyperliquid_tps_backfill.py:231-256 | the sums over two runs of heights add up |
| Backfill.MissingMinutes | scripts/hyperliquid_tps_backfill.py:89-120 | exactly the window's minutes without a row, two minutes old and before the newest row |
| Backfill.Walk | scripts/hyperliquid_tps_backfill.py:214-266 | every missing minute with a block on the way holds the sum of those blocks, all others are as before, and every written minute's hour is fresh |
| Backfill.EnterMinute | scripts/hyperliquid_tps_backfill.py:231-251 | a minute left behind is written with exactly what was gathered for it |
| Backfill.RowExactIff | scripts/hyperliquid_tps_backfill.py:214-250 | what a walk gathers of a minute is all of it if and only if none of it lies where the walk did not go |
| Backfill.StopUnbroken | scripts/hyperliquid_tps_backfill.py:214-250 | nothing of a missing minute lies there if and only if no failing height of the walk has blocks of the minute at or below it |
| Backfill.NothingBelow | scripts/hyperliquid_tps_backfill.py:227-229 | a walk that did not stop on an error missed no block from the first missing minute on |
| Backfill.Run | scripts/hyperliquid_tps_backfill.py:181-266 | the whole backfill: when it starts, that every missing minute with blocks on the chain is rebuilt exactly if and only if no failing height kept the walk from it, all of them without a failure, their rollups, and that other minutes are as before |
| Backfill.PartialMinute | scripts/hyperliquid_tps_backfill.py:214-250 | a failure at the lower of two blocks of a minute leaves a row with the upper one only |
| Barrier.SpinUntil | internal/bench/coordinated_timing.go:66-79 | returns at the first reading past the target or with the context done |
| Barrier.WaitUntil | internal/bench/coordinated_timing.go:44-64 | a wait for a target returns only past it or with the context done |
| Barrier.NobodyEarly | internal/bench/coordinated_timing.go:17-32 | in every interleaving nobody acts before all are ready nor, without a cancellation, before the target |
| Barrier.ClockAndContext | internal/bench/coordinated_timing.go:44-79 | the context is done exactly when a step cancelled it, and the clock shows the time gone by |
| Barrier.BeginsNow | internal/bench/coordinated_timing.go:17-27 | a sender begins at the time the clock then shows |
| Barrier.WaitsEnd | internal/bench/coordinated_timing.go:29-64 | when the gate opens, a sleeper wakes and a spinner acts |
| Barrier.PassesTo | internal/bench/coordinated_timing.go:44-64 | past the gate a sender sleeps, spins or, for a zero target, acts |
| Barrier.SendNeverBlocks | internal/bench/coordinated.go:178-208 | a result always finds room in the channel |
| Barrier.OwnSample | internal/bench/coordinated.go:202-207 | in every interleaving a filled slot holds the one sample its own sender sent, and was filled once |
| Barrier.NeverStuck | internal/bench/coordinated_timing.go:17-32 | from the target on some goroutine can always go on until every slot is filled |
| Barrier.WorkFalls | internal/bench/coordinated_timing.go:17-32 | every step but the clock's and the context's leaves less to do |
| Barrier.ProgressBounded | internal/bench/coordinated.go:178-208 | no run has more than 6 n + 2 such steps |
| Barrier.Completes | internal/bench/coordinated.go:178-208 | from the target on, taking open steps while there are any fills every slot, whatever samples the senders make |
| Barrier.FullCollects | internal/bench/coordinated.go:202-207 | a cycle with every slot filled has sent and collected exactly n results |
| Barrier.SubmitPrepared | internal/bench/coordinated.go:178-208 | the samples returned are the slots of the run, each the one its own sender sent |
| Barrier.CollectSamples | internal/bench/coordinated.go:203-207 | every result lands in the slot of its index |
| Barrier.ItemsByVenue | internal/bench/coordinated.go:249-253 | the last item of each venue |
| Barrier.SelectCleanups | internal/bench/coordinated.go:254-289 | exactly the eligible samples, in order |
| Barrier.CleansIff | internal/bench/coordinated.go:254-289 | which samples are cleaned up after |
| Barrier.CleanupCoordination | internal/bench/coordinated.go:484-496 | the greatest non-negative spin lead, and locking if any item asks for it |
| Barrier.ApplyCleanups | internal/bench/coordinated.go:314-326 | in any arrival order each picked sample gets its own outcome, failing it in strict mode, and no other changes |
| Barrier.WithCleanupCleansUp | internal/bench/coordinated.go:314-326 | a failed cleanup fails its sample and adds its error exactly in strict mode, and nothing else of the sample changes |
| RunLoops.RunClosedLoop | internal/bench/runner.go:60-81 | stops at the first failure and yields what running everything and cutting would |
| RunLoops.CutIs | internal/bench/runner.go:129-136 | the cut is the prefix that ends at the first failure, or everything |
| RunLoops.BoundedInFlight | internal/bench/runner.go:87-121 | at most the configured number of samples runs, and no result send blocks |
| RunLoops.NeverStuck | internal/bench/runner.go:96-124 | with room for one sample the open loop has an open step until it has finished |
| RunLoops.ProgressBounded | internal/bench/runner.go:96-124 | no run takes more than three steps for each sample |
| RunLoops.OpenLoopFinishes | internal/bench/runner.go:96-124 | from any point, taking open steps while there are any finishes the loop with every scheduled sample sent |
| RunLoops.SortedIsSequential | internal/bench/runner.go:126-128 | all of the first k indexes in order are the sequential run |
| RunLoops.SortByIndex | internal/bench/runner.go:126-128 | the same samples in ascending order of index |
| RunLoops.Gather | internal/bench/runner.go:123-136 | results in any order become the sequential run, cut at the first failure |
| RunLoops.RunOpenLoop | internal/bench/runner.go:83-146 | the open loop's result is the cut sequential run of a prefix of the indexes, and equals the closed loop's without cancellation |
| RunLoops.OnlyStopStops | internal/bench/runner.go:96-121 | the schedule is cut short only by a cancellation |

## Left out

- Dialing, websockets, HTTP, subprocesses, file locks and the SQL engine: only their outcomes enter, as inputs.
- Decoding: JSON shapes and key guessing; messages arrive as datatypes, with the values found under the keys tried.
- Floating point: rounding, overflow and not-a-number; prices and sizes are exact reals, and the lowest-decile index is the exact quotient.
- Order signing, transactions, SDK calls, the user interface, sessions and deployment scripts.
- Response classification: whether a response was accepted is an input, and so is the classifier's reason.
- Letter case and spaces beyond ASCII.
- Snapshot ages, exchange times, venues, metadata maps and `upd` columns that are only passed through.
- Times before 1970 in tables and buckets, apart from `Ledger.FloorUnixIff`.
- Aliasing of slice storage: an in-place shift is modelled by the sequence the slice then shows.
- Ledger.Flush: the drained rows are written with other adds excluded; interleavings with adds and drops are covered by the ledger's steps.
- Feed.Feed.Ensure: answers are sent with nothing in between; the state machine interleaves them with every other step.
- Feed.Feed.Lost: answers are sent with nothing in between, as for Ensure.
- Feed.Feed.Ready: ping intervals, pool lookup and closing of connections.
- Confirmation.ConfirmedCleanup: the Wait's reply is one that a run of the feed answers when it has no error; that an error is reported for a wait that timed out is an input.
- Confirmation: the matchers that confirm new orders and their terminal failures; only cancels are confirmed here.
- Confirmation.WithRetries: the pause between retries.
- Funding: status and skip texts are enumerated; a record lost because the process ends before its state is saved; a configuration changed between cycles.
- Funding.RollingCap: concerns recorded successes, as events are recorded only for deposits that return no error, and needs depositors that report a dry run as one.
- Dedup.Collector.HandleMessage: JSON decoding, and the workers that take sampled blocks from the queue.
- Backfill: retries and rate limits inside one explorer request; a window that begins before 1970.
- Barrier: thread locking, and the order in which goroutines are started.
- RunLoops: the timer of each scheduled sample; a cancellation during it is a step that ends the schedule.
- The HDR histogram, latency read paths, config merging, route fallback and backoff: mostly case splitting.
