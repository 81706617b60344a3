# Inventory watcher: the billing pipeline

A Dafny model of the billing pipeline of `inventory-watcher`, and proofs about it. Events are ingested into an
append-only store, resources are metered, metering entries are rated into cost entries, and cost entries are paid
from tenant wallets. Each stage is a small state machine. Every claim about a stage is proved for all its runs: all
inputs, all interleavings and all placements of the failures that the model lets happen.

`dafny verify dfyconfig.toml` checks the whole project.

## Files

| file | what it models |
|---|---|
| `Options.dfy`, `Numbers.dfy` | optional values, results, and the smaller and larger of two integers |
| `Runs.dfy` | runs of a state machine, and induction over them |
| `Tiers.dfy` | the tier waterfall, marginal prices, and the schedule they implement |
| `Rates.dfy` | the rate index with its four-way fallback, and the SQL lookup beside it |
| `Calendar.dfy`, `Periods.dfy` | the Gregorian calendar in UTC; period strings and the windows they resolve to |
| `Labels.dfy` | window labels, which serve as keys |
| `PeriodStrings.dfy` | which strings are periods, and the window and label of each |
| `Rating.dfy` | pricing one batch with the prior-usage cache |
| `RatingRuns.dfy` | runs of arrivals and batches; each entry is billed once |
| `OwnPrices.dfy` | entries priced on their own: rules, flat rates, tiers that do not accumulate |
| `WindowBills.dfy`, `CivilBills.dfy` | the bill of a window, for any calendar that tiles time and for the civil one |
| `CacheExactness.dfy` | exactly when the cache agrees with the query, and what happens when it does not |
| `MonthStraddler.dfy` | the start and the end of any month under a seeded rate |
| `MarkingFailures.dfy` | what is billed when marking entries rated fails |
| `Rater.dfy`, `SweptBills.dfy` | the rating sweep as it updates the store, and the bills it leaves |
| `Wallet.dfy`, `WalletPass.dfy` | wallet, ledger and deductions under interleaving and rounding; the deduction pass |
| `WalletTotals.dfy` | what a wallet holds after any run, counted from the steps of the run |
| `Ingest.dfy`, `IngestProgress.dfy` | receipts, raw events and concurrent batches; what a submitted batch leaves |
| `Alerts.dfy` | threshold alerts |
| `Forwarder.dfy`, `ForwarderRetries.dfy` | the forwarding cursor; failed posts and retries |
| `Meter.dfy`, `MeterEvents.dfy` | uptime intervals of compute instances; the inventory told from the events |
| `RuleCache.dfy`, `RuleHistory.dfy` | the pricing-rule cache and its version; both told from the updates |
| `Quotas.dfy`, `QuotaRoom.dfy` | project quotas under a tenant limit; the room it leaves |

Usage and prices are exact reals. Instants are integers in nanoseconds. Wallet amounts are integers in units of
10^-10, rounded to columns of six decimals where the schema does so, ties away from zero. SQL tables are sequences,
sets and maps; a transaction is one step. The calendar, the rule engine, the digest of an event, event validation and
event processing enter as functions; clock readings, query answers whose order the database chooses, and failures
enter as parameters or steps.

The recurring proof pattern: a step lemma says what one step keeps, and `Runs.Induction` carries it to every run.
`Runs.Leads` ties the loops of the stores and engines to the steps of those runs.

## What the proofs found

- In a batch whose entries come in time order, the per-batch cache and the usage query disagree exactly when an entry
  with usage starts before the window in which it ends and another entry of that window follows it in the batch. Then
  the bill depends on where batches are cut (`CacheExactness.CacheAgreesIffNoStraddler`,
  `CacheExactness.BillDependsOnTheSplit`). Under the seeded memory rate, forty units around the start of any month cost
  1.6 in one batch and nothing in two (`MonthStraddler.BillAtMonthStart`).
- An interval that ends at the very end of a month is billed to the next month, and yet counts as usage of the month for
  entries recorded after it (`MonthStraddler.EndOfMonthCountsTwice`).
- With prices that are not negative, the waterfall computes the tier schedule exactly when no tier that costs something
  ends below its start, and none that is not empty starts below an earlier bound (`Tiers.WaterfallIsScheduleIff`). With
  positive prices that means bounds never decrease (`Tiers.WaterfallIsScheduleIffAscending`); a free tier may break the
  order without harm (`Tiers.FreeDescendingTierIsExact`).
- A metering entry has as many cost entries as batches inserted one for it. If marking fails after the insert, the next
  batch bills the same entries again (`MarkingFailures.CostEntriesAreInsertions`,
  `MarkingFailures.PricedEntryBilledTwice`).
- Two weeks share a label exactly when one starts in the first four and the other in the last three days of the same
  calendar year, because the label takes the calendar year and the ISO week (`Labels.WeeklyLabelCollision`). The
  comment at the source calls the label an identifier of the window. Alerts and bills of weekly periods are exact up to
  such weeks (`Alerts.OneAlertPerWindow`, `CivilBills.PairFits`).
- The SQL rate lookup and the in-memory one rank tenant and instance type differently. They differ for the empty
  tenant too, when global rates are spelled both NULL and '' (`Rates.FindRateAgreesWithMatchRate`,
  `Rates.EmptyTenantLookupsDiffer`).
- A failed read of the forwarding cursor is returned as cursor 0 without an error. The sweep then moves the stored
  cursor back exactly when more rows than one batch holds lie up to it, for instance with 101 rows
  (`Forwarder.FailedReadStartsOver`, `Forwarder.CursorFallsBack`). While reads succeed it never moves back
  (`Forwarder.CursorNeverMovesBack`).
- A row that becomes visible late is covered exactly if it lies beyond the cursor and the batch under way
  (`Forwarder.NewRowCoveredIff`); one below the stored cursor is never forwarded (`Forwarder.LateRowIsLost`).
- Quota updates with a negative limit are not checked and make overcommitment reachable; without them it is not
  (`Quotas.NegativeUpdateOvercommits`, `Quotas.ProjectLimitsStayWithinTenantLimit`). The check of a create and its
  insert are separate steps. Two creates that pass their checks before either is inserted exceed the limit exactly when
  they do not fit together (`Quotas.RacingCreates`, `Quotas.RaceOvercommits`); if they take turns the limit holds
  (`Quotas.TurnsKeepTheBound`).
- Final metering does not look at the deletion time, so an instance whose delete event arrives twice is metered twice
  for its last stretch (`Meter.RedeliveredDelete`). Sweeps meter instances under the long name of the running state only,
  final metering under both (`MeterEvents.SweptUptime`, `MeterEvents.DeletedUptime`). Over every run, metered uptime is elapsed time plus the final
  intervals that something followed (`Meter.UptimeOverEveryRun`); which steps break the chain of intervals can be told
  from the tables beforehand (`Meter.StepKeepsChainIff`, `Meter.FinalShows`). Intervals cover all time since creation,
  also time spent in other states.
- In fixed point the balance and the ledger drift apart exactly at ties, by one micro-unit each
  (`Wallet.RoundDeduction`). An entry paid to within half a micro-unit stays as it is, but every sweep adds a ledger row
  of zero for it (`Wallet.SmallDeductions`, `Wallet.PaidEntriesStayPaid`). The order of payment survives rounding
  (`WalletPass.FirstInFirstPaid`).

## Model

| member | source | states |
|---|---|---|
| Tiers.ApplyTieredRate | inventory-watcher/internal/rating/rating.go:453-481 | the waterfall loop; for bounds that never decrease its cost is the sum over tiers of price times the part of the usage between neighbouring bounds |
| Tiers.WaterfallIsScheduleIff | inventory-watcher/internal/rating/rating.go:458-478 | with prices that are not negative, free tiers included, loop and schedule agree on every usage if and only if every tier with a price does not end below its start, and is empty or starts at or above all earlier bounds |
| Tiers.WaterfallIsScheduleIffAscending | inventory-watcher/internal/rating/rating.go:458-478 | with positive prices, loop and schedule agree on every usage if and only if no bound lies below the one before it |
| Tiers.FreeDescendingTierIsExact | inventory-watcher/internal/rating/rating.go:458-478 | bounds that decrease into a free tier leave loop and schedule in agreement on every usage |
| Tiers.TieredCostMonotone | inventory-watcher/internal/rating/rating.go:453-481 | with prices that are not negative, more usage never costs less and no increment has a negative cost |
| Tiers.MarginalCostBounds | inventory-watcher/internal/rating/rating.go:493-498 | with an open last tier, an increment costs between the lowest and the highest price times its size |
| Tiers.UsageBeyondLastBoundIsFree | inventory-watcher/internal/rating/rating.go:458-478 | without an open tier, usage beyond the last bound costs nothing |
| Tiers.SplitCostIsTotal | inventory-watcher/internal/rating/rating.go:486-498 | however usage is split into parts, the marginal costs add up to the marginal cost of the total |
| Rates.BuildRateIndex | inventory-watcher/internal/rating/rating.go:307-321 | every rate's key is indexed, and each key leads to the first rate with that key |
| Rates.MatchRateIsBestCandidate | inventory-watcher/internal/rating/rating.go:328-354 | matching equals a scan of the rate list for the best candidate by instance type, then tenant, then position; it finds nothing if and only if there is no candidate |
| Rates.FindRateAgreesWithMatchRate | inventory-watcher/internal/inventory/store.go:1157-1173 | the SQL lookup and the match pick the same key if and only if it is not the case that the tenant has a rate for any type but none for the type while a global rate for the type exists |
| Rates.EmptyTenantLookupsDiffer | inventory-watcher/internal/inventory/store.go:1168-1171 | the disagreement is reachable for the empty tenant, through NULL and '' |
| Calendar.DateRoundTrip | inventory-watcher/internal/billing/period.go:26-27 | the date of every day is valid and leads back to the day |
| Calendar.DayRoundTrip | inventory-watcher/internal/billing/period.go:26-27 | the day of every valid date leads back to the date |
| Calendar.YearStartClosed | inventory-watcher/internal/billing/period.go:26-27 | the months of the model add up to the usual leap-year formula |
| PeriodStrings.MonthLengthIs | inventory-watcher/internal/billing/period.go:26-27 | the lengths of the months by a closed formula |
| Periods.WindowsTileTime | inventory-watcher/internal/billing/period.go:21-79 | for every valid period string the window contains its reference time, every instant in it resolves to it, and its end starts the next window |
| Periods.SlotsStayInside | inventory-watcher/internal/billing/period.go:46-76 | day slots stay inside a month and hour slots inside a day |
| Periods.DaySlotsAreAligned | inventory-watcher/internal/billing/period.go:46-60 | a day slot starts a multiple of its size after the start of the month and is full size unless the month ends first |
| Periods.HourSlotsAreAligned | inventory-watcher/internal/billing/period.go:62-76 | a slot of hours starts a multiple of its size after midnight and is full size unless the day ends first |
| Periods.SlotStartIsQuotient | inventory-watcher/internal/billing/period.go:52-53 | the slot start is the whole number of slots before, times the slot size |
| PeriodStrings.PeriodsAreExactly | inventory-watcher/internal/billing/period.go:24-78 | a string is a period if and only if it is one of the names, empty, a number of days from 1 to 31 or a number of hours from 1 to 24, with signs, leading zeros and white space around allowed; numbers out of range are errors that say so |
| PeriodStrings.DecimalIsDuration | inventory-watcher/internal/billing/period.go:105-127 | the digits of a number followed by the unit are that many units |
| PeriodStrings.DailyWindow | inventory-watcher/internal/billing/period.go:40-43 | "daily" is the calendar day of the instant, labelled by its date |
| PeriodStrings.MonthlyWindow | inventory-watcher/internal/billing/period.go:25-28 | "monthly" and the empty string are its calendar month, labelled by year and month |
| PeriodStrings.DaysWindows | inventory-watcher/internal/billing/period.go:46-60 | a number of days is the slot of that many days from the start of the month, cut off at its end, labelled by its first and last day |
| PeriodStrings.HoursWindows | inventory-watcher/internal/billing/period.go:62-76 | a number of hours is the slot of that many hours from midnight, cut off at the next, labelled by its day and hours |
| PeriodStrings.OtherStringsFail | inventory-watcher/internal/billing/period.go:78-88 | any other string is an error and is labelled by the month |
| Labels.WindowsExpressible | inventory-watcher/internal/billing/period.go:24-44 | windows are whole calendar months, Monday-to-Monday weeks, single days, spans of days, or spans of hours in a day |
| Labels.DateTextReadsBack | inventory-watcher/internal/billing/period.go:92-101 | a written date gives back its year, month and day in that order |
| Labels.LabelsDetermineWindows | inventory-watcher/internal/billing/period.go:84-103 | in years of four digits, two windows of periods other than weekly with the same label are the same window, even under different period strings |
| Labels.WeekOfInstant | inventory-watcher/internal/billing/period.go:30-38 | the weekly window of an instant starts on a Monday, whose place in its year is given, and its label is that Monday's year and ISO week |
| PeriodStrings.WeekTextReadsBack | inventory-watcher/internal/billing/period.go:94 | a written week gives back its year and number |
| Labels.WeeklyLabelCollision | inventory-watcher/internal/billing/period.go:93-94 | two weeks share a label if and only if they are the same week, or one starts in the first four and the other in the last three days of the same year |
| Labels.WeeklyLabelsShared | inventory-watcher/internal/billing/period.go:93-94 | two instants have the same weekly label if and only if they are in the same week or in two weeks that collide |
| Labels.LabelsSharedExactly | inventory-watcher/internal/billing/period.go:84-103 | for every period string and years of four digits, two instants have the same label if and only if they are in the same window or, for weekly periods, in colliding weeks |
| Labels.WeekNumberOfMonday | inventory-watcher/internal/billing/period.go:129-132 | the ISO week number of a Monday from its day of the year |
| Labels.YearsFromMondayShareALabel | inventory-watcher/internal/billing/period.go:93-94 | in every year that begins on a Monday, its first week and the week 364 days later share a label |
| Labels.YearsLike2024StartOnMonday | inventory-watcher/internal/billing/period.go:93-94 | 2024 and every 400th year after it begin on a Monday |
| Rating.CumulativePrice | inventory-watcher/internal/rating/rating.go:123-142 | an entry under a cumulative rate is priced as the matched rate prices the increment over the prior usage |
| OwnPrices.OwnPriceIsCharged | inventory-watcher/internal/rating/rating.go:103-163 | an entry of VM uptime for which the rule engine answers costs the answer, whatever the rates are; else under a flat rate the price times its value; else under tiers that do not accumulate the schedule of its value alone, whatever usage came before |
| OwnPrices.RulesPriceUptimeOnly | inventory-watcher/internal/rating/rating.go:202-204 | entries other than VM uptime cost the same under any rules |
| OwnPrices.UnpricedIff | inventory-watcher/internal/rating/rating.go:103-121 | an entry has no price if and only if no rule answers for it and no rate matches it |
| Rating.RateEntry | inventory-watcher/internal/rating/rating.go:103-163 | one entry: its cost entry, if it has one, and the next cache; what the cost is, is stated by `OwnPrices.OwnPriceIsCharged` and `Rating.CumulativePrice` |
| Rating.RateEntries | inventory-watcher/internal/rating/rating.go:95-164 | the batch loop: the cost entries of the batch in order, and all its ids to be marked |
| Rating.SumBeforeIsPrefixSum | inventory-watcher/internal/inventory/store.go:1776-1786 | with increasing ids, the query before an entry sums the log up to that entry |
| Rating.LaterArrivalsAreInvisible | inventory-watcher/internal/inventory/store.go:1776-1786 | entries that arrive with larger ids do not change the query |
| Rating.CacheRefinesQuery | inventory-watcher/internal/rating/rating.go:134-141 | at every entry of a batch, wherever the batch lies in the log, the prior usage from the cache is what the query would return, if entries of the batch are carried by the cache exactly when they are counted by the query |
| RatingRuns.RatedEntriesArePrefix | inventory-watcher/internal/inventory/store.go:1194-1228 | over every run the rated entries are the first ones of the log |
| RatingRuns.EachEntryBilledOnce | inventory-watcher/internal/rating/rating.go:80-185 | over every run the cost log names, in order and each once, exactly the rated entries that were priced when they were marked |
| RatingRuns.BilledExactlyWhenPriced | inventory-watcher/internal/rating/rating.go:80-185 | every metering entry has one cost entry if it was priced when it was marked, else none |
| OwnPrices.CostEntriesCopyEntries | inventory-watcher/internal/rating/rating.go:145-161 | over every run every cost entry has the id, tenant, resource, meter, value and period of a metering entry |
| OwnPrices.EachOwnPriceIsBilled | inventory-watcher/internal/rating/rating.go:80-185 | over every run each cost entry of a meter whose entries are priced on their own has the own price of the entry it bills |
| OwnPrices.OwnPricesAreBilled | inventory-watcher/internal/rating/rating.go:80-185 | over every run the cost of such a meter is the sum of the own prices of its rated entries |
| OwnPrices.FlatBill | inventory-watcher/internal/rating/rating.go:446-451 | over every run the cost of a meter under a flat rate is the price times its rated usage, however it is split |
| OwnPrices.DrainedFlatBill | inventory-watcher/internal/rating/rating.go:446-451 | with nothing left unrated, the price times all its usage |
| WindowBills.SchemeIsCoherent | inventory-watcher/internal/rating/rating.go:123-142 | if all entries of a meter are priced by one cumulative scheme and lie in their windows, cache and query treat them alike |
| WindowBills.MeteringSumIsUsage | inventory-watcher/internal/inventory/store.go:1763-1786 | for entries that lie in their windows, the query sums exactly the usage of the window |
| WindowBills.BatchAddsIncrement | inventory-watcher/internal/rating/rating.go:95-164 | a batch costs a window what the usage of the batch adds to the schedule of the window |
| WindowBills.WindowBilledByTotal | inventory-watcher/internal/rating/rating.go:80-185 | for every log and every run of batches of any size, the cost entries of a window add up to the schedule applied once to the rated usage of the window |
| WindowBills.DrainedWindowBill | inventory-watcher/internal/rating/rating.go:80-185 | with nothing left unrated, the bill of a window is the schedule applied to its total usage |
| CivilBills.CivilTiles | inventory-watcher/internal/billing/period.go:21-79 | the civil calendar meets the requirement on calendars |
| CivilBills.PairFits | inventory-watcher/internal/rating/rating.go:134 | for two entries of any period, cache keys tell their windows apart if and only if their weeks do not collide |
| CivilBills.CivilLabelsFit | inventory-watcher/internal/rating/rating.go:134 | on a log of four-digit years without colliding weeks, cache keys tell windows apart |
| CivilBills.TieredWindowBill | inventory-watcher/internal/rating/rating.go:80-185 | the window bill for the civil calendar, any period, and a cumulative rate with ascending tiers: the closed-form schedule of the window's rated usage |
| CivilBills.DrainedTieredBill | inventory-watcher/internal/rating/rating.go:80-185 | with nothing left unrated, the closed-form schedule of the window's total usage |
| CacheExactness.CacheAgreesIffNoStraddler | inventory-watcher/internal/rating/rating.go:134-141 | for every batch in time order, wherever it lies in the log, cache and query agree at every entry of the meter if and only if no entry with usage straddles the start of its window before another entry of it in the batch |
| CacheExactness.BatchBill | inventory-watcher/internal/rating/rating.go:95-141 | a batch in time order, with straddlers or without, costs a window what its usage adds to the schedule on top of the usage the query counts before the batch |
| CacheExactness.BillDependsOnTheSplit | inventory-watcher/internal/rating/rating.go:95-141 | for every log in time order and every cut of it into two batches: the bill in one batch, and the bills of the two parts |
| MonthStraddler.MonthHasStraddler | inventory-watcher/internal/rating/rating.go:134-141 | around the start of every month, two entries of the civil calendar and the seeded memory rate form a straddler |
| MonthStraddler.BillAtMonthStart | inventory-watcher/internal/rating/rating.go:522 | those two entries of twenty units cost 1.6 in one batch and nothing in two |
| MonthStraddler.EndOfMonthCountsTwice | inventory-watcher/internal/inventory/store.go:1776-1786 | usage that ends at the very end of a month uses up the free units of the month for entries recorded later, though it is billed to the next |
| MarkingFailures.MarkedMoveIsBatch | inventory-watcher/internal/rating/rating.go:172-176 | if marking succeeds, a batch is the batch step of a run |
| MarkingFailures.CostEntriesAreInsertions | inventory-watcher/internal/rating/rating.go:166-176 | over every run in which inserts and marks may fail, a metering entry has as many cost entries as batches that priced and inserted it |
| MarkingFailures.FailedMarkBillsTwice | inventory-watcher/internal/rating/rating.go:172-176 | a batch whose mark fails is fetched again, and the same cost entries are inserted again |
| MarkingFailures.PricedEntryBilledTwice | inventory-watcher/internal/rating/rating.go:172-176 | each priced entry of such a batch has two cost entries more after the two batches |
| Rater.Store.UnratedMeteringEntries | inventory-watcher/internal/inventory/store.go:1194-1218 | the first unrated entries in id order, up to the limit |
| Rater.BatchShrinksQueue | inventory-watcher/internal/rating/rating.go:172-184 | marking a batch shortens the queue, and a batch below the limit empties it |
| Rater.Engine.RateNextBatch | inventory-watcher/internal/rating/rating.go:80-184 | one iteration takes the batch step, and goes on only if the queue became shorter |
| Rater.Engine.Sweep | inventory-watcher/internal/rating/rating.go:52-185 | a sweep ends, its effect is that of a run of batches, and without failures nothing is left unrated |
| Rater.SweepContinuesRun | inventory-watcher/internal/rating/rating.go:52-185 | a sweep from the state of a run leads to the state of a longer run |
| SweptBills.SweepSettles | inventory-watcher/internal/rating/rating.go:52-185 | a run followed by a sweep that leaves nothing unrated bills every window the closed-form schedule of its total usage |
| SweptBills.SweepAndSettle | inventory-watcher/internal/rating/rating.go:52-185 | from the state of any earlier run, a sweep without failure leaves every window of a meter under a cumulative tiered rate billed for its total usage |
| SweptBills.SweepAndBill | inventory-watcher/internal/rating/rating.go:52-185 | from the state of any earlier run, a sweep without failure bills every entry of a meter whose entries are priced on their own at its own price; under a flat rate that is the price times the usage |
| Wallet.RoundDeduction | inventory-watcher/internal/inventory/store.go:375-398 | a deduction rounds balance and ledger apart exactly at a tie, by one micro-unit |
| Wallet.TopUpKeeps | inventory-watcher/internal/inventory/store.go:1542-1577 | a top-up keeps the books and raises the balance by the rounded amount if it is positive and its reference is empty or unused, and by nothing otherwise |
| Wallet.DeductKeeps | inventory-watcher/internal/inventory/store.go:1579-1610 | a deduction within the floor and within the cost keeps the books |
| Wallet.WalletInvariant | inventory-watcher/internal/rating/rating.go:249-298 | over every interleaving of the rater's steps with top-ups, new costs, failures and crashes the books fit, and the rater's copy of the balance is never above the balance |
| Wallet.ExactBooks | inventory-watcher/internal/inventory/store.go:1542-1610 | without rounding: balance at or above the floor and equal to the ledger sum, every recorded balance the prefix sum, reference the sum of top-ups, applied between zero and the cost |
| Wallet.MicroBooks | inventory-watcher/internal/inventory/store.go:372-402 | with six decimals: balance at or above the floor, applied amounts offset the deduction rows exactly, balance above the ledger by at most one micro-unit per deduction |
| Wallet.SmallDeductions | inventory-watcher/internal/inventory/store.go:1587-1604 | below half a micro-unit a deduction changes nothing and adds a zero row; the exact thresholds for balance, applied amount and row |
| Wallet.PaidEntriesStayPaid | inventory-watcher/internal/rating/rating.go:267-291 | once an entry is paid to within half a micro-unit no later step of any run changes it |
| Wallet.WalkOneLeavesPaid | inventory-watcher/internal/rating/rating.go:267-291 | a deduction for such an entry leaves the wallet as it is |
| Wallet.TopUpsAreIdempotent | inventory-watcher/internal/inventory/store.go:1542-1550 | over every run a top-up reference is applied at most once |
| WalletTotals.RoundIsNearest | inventory-watcher/internal/inventory/store.go:372-402 | a column of six decimals holds the nearest multiple, the one away from zero at a tie |
| WalletTotals.TopUpCredits | inventory-watcher/internal/inventory/store.go:1542-1577 | a positive amount with an empty or unused reference raises balance and reference by itself and adds one row of it; anything else changes nothing |
| WalletTotals.BalanceFromSteps | inventory-watcher/internal/inventory/store.go:1542-1610 | over every run the reference balance is the opening one plus every amount topped up, each reference once, and the balance the same less what is applied to cost entries, up to one micro-unit per deduction; the cost entries are those that came in |
| WalletTotals.AppliedIsDeducted | inventory-watcher/internal/inventory/store.go:1579-1610 | over every run what is applied to a cost entry is what the deduction rows of that entry took |
| WalletPass.PassPaysInOrder | inventory-watcher/internal/rating/rating.go:267-291 | after any number of entries of a pass, with rounding or without, each has what is owed or what funds are left at its turn, and later ones are untouched |
| WalletPass.FirstInFirstPaid | inventory-watcher/internal/rating/rating.go:262-292 | with rounding or without, a pass takes off the balance the lesser of available funds and owed cost: a fully paid prefix, at most one entry paid in part, the rest untouched, and cost unpaid only with the balance at its floor |
| WalletPass.BooksArePayable | inventory-watcher/internal/rating/rating.go:262-266 | the books of every run meet what that needs, for the unapplied entries the database returns |
| WalletTotals.EarlierPeriodsFirst | inventory-watcher/internal/inventory/store.go:1642-1649 | a pass pays nothing for an entry while one of an earlier period is not paid up |
| WalletTotals.FailedDeductionsArePassedOver | inventory-watcher/internal/rating/rating.go:284-287 | a pass in which some deductions fail ends like a pass over the other entries |
| WalletPass.PassRuns | inventory-watcher/internal/rating/rating.go:249-298 | a pass is a run of the rater's steps |
| WalletPass.Store.TopUpWallet | inventory-watcher/internal/inventory/store.go:1542-1577 | accepts exactly positive amounts with an empty or unused reference, credits them to balance and reference and records them with the new balance; rejects others without effect |
| WalletPass.Store.DeductWallets | inventory-watcher/internal/rating/rating.go:267-291 | the pass pays the entries in order, one ledger row per deduction |
| Ingest.Serializable | inventory-watcher/internal/api/handler.go:368-407 | for every interleaving at the granularity of claims, the committed tables are those of the committed batches run one after the other; other batches leave no trace |
| IngestProgress.SubmissionGoesThroughIff | inventory-watcher/internal/api/handler.go:322-403 | from every state, a submitted batch whose keys no other transaction holds is published as a whole, its new events in order and each with its receipt, if and only if it has 1 to 100 valid events, reuses no identity and its new events can be processed; else it leaves no trace |
| IngestProgress.CommitPublishes | inventory-watcher/internal/inventory/store.go:44-60 | committing a transaction that has claimed all its events appends its new events and receipts, whatever else is open |
| IngestProgress.OnlyCommitsPublish | inventory-watcher/internal/inventory/store.go:44-60 | no other step changes the tables, and an abort only forgets its transaction |
| IngestProgress.TablesOfHistory | inventory-watcher/internal/api/handler.go:368-407 | over every interleaving the tables hold the new events of the committed batches, in commit order, and nothing else |
| IngestProgress.OwnIsNewEvents | inventory-watcher/internal/inventory/store.go:458-482 | a transaction writes exactly the events that are the first of their identity, in order, with receipts of their digests |
| Ingest.OwnStable | inventory-watcher/internal/inventory/store.go:458-482 | commits of others on other keys do not change what a transaction writes |
| Ingest.AcceptedIffConsistent | inventory-watcher/internal/inventory/store.go:458-482 | a batch is accepted if and only if no event reuses an identity for other content and every new event can be processed |
| Ingest.ReceiptsMatchRawEvents | inventory-watcher/internal/inventory/store.go:458-503 | over every run committed receipts and raw events match one to one, with equal digests |
| Ingest.ExactlyOnce | inventory-watcher/internal/api/handler.go:385-401 | with a digest that tells contents apart, every event of every committed batch is in the raw log exactly once |
| Ingest.ReplayChangesNothing | inventory-watcher/internal/api/handler.go:390-396 | at any point of any run, a committed batch is accepted again and changes no table |
| Ingest.ReceiptsNeverChange | inventory-watcher/internal/inventory/store.go:458-482 | committed receipts keep their digests and raw events stay, whatever follows |
| Ingest.Store.ClaimIngestionReceipt | inventory-watcher/internal/inventory/store.go:458-482 | new, replayed or colliding, decided by key and digest; a claim never changes a receipt |
| Ingest.Store.ProcessEvent | inventory-watcher/internal/api/handler.go:386-400 | one claimed and processed event, a skipped replay, or the error |
| Ingest.Store.ProcessEvents | inventory-watcher/internal/api/handler.go:368-407 | all of a batch takes effect or none of it, and which of the two it is |
| Alerts.ReachesMeansShare | inventory-watcher/internal/rating/rating.go:400-407 | a threshold is reached if and only if a hundred times the consumption is at least the threshold times the limit |
| Alerts.AlertExistsIffFired | inventory-watcher/internal/inventory/store.go:1821-1834 | over any run of evaluations an alert exists exactly once if some evaluation called for it, else not at all |
| Alerts.OneAlertPerWindow | inventory-watcher/internal/rating/rating.go:358-434 | with one quota per tenant and meter, an alert exists once if some evaluation in the window, or in the week that shares its label, read a consumption other than zero of at least the threshold in percent of a positive limit, and not at all otherwise; thresholds are the quota's own, or 50, 70, 90 and 100 |
| Alerts.LabelMeansWindow | inventory-watcher/internal/billing/period.go:84-103 | for every period, an instant has the label of a window if and only if it is in that window or in the week that shares its label |
| Alerts.AlertsReportReadings | inventory-watcher/internal/rating/rating.go:400-415 | an evaluation only adds alerts, and each has the quota, a crossed threshold, the label, the consumption and the limit of a reading |
| Alerts.Store.InsertAlert | inventory-watcher/internal/inventory/store.go:1821-1834 | inserts unless an alert with the same key exists, and says which |
| Alerts.Store.EvaluateThresholds | inventory-watcher/internal/rating/rating.go:367-429 | the evaluation loop: afterwards an alert exists once if a reading with a valid period called for it, spelled out as above; and the number of new alerts |
| Forwarder.DeliveredUpToCursor | inventory-watcher/internal/splunk/forwarder.go:61-123 | over every run with rows visible in id order, whatever fails or crashes: every row up to the stored cursor was delivered, and no row before all smaller ones |
| Forwarder.NewRowCoveredIff | inventory-watcher/internal/inventory/store.go:2111-2116 | a row that becomes visible keeps every row up to the cursors covered if and only if it lies beyond the cursors and the batch under way |
| Forwarder.CoveredUpToCursor | inventory-watcher/internal/splunk/forwarder.go:61-123 | over every run, whatever fails or crashes, every row up to the stored cursor was delivered, if late rows meet that condition when they appear |
| Forwarder.CursorNeverMovesBack | inventory-watcher/internal/inventory/store.go:2079-2094 | while cursor reads succeed the stored cursor never moves back |
| Forwarder.FailedReadStartsOver | inventory-watcher/internal/inventory/store.go:2079-2086 | after a failed read the first batch from the start sets the cursor, which moves back if and only if more rows than one batch holds lie up to it |
| Forwarder.CursorFallsBack | inventory-watcher/internal/inventory/store.go:2079-2086 | with 101 rows, all delivered, a failed read takes the cursor from 101 to 100 |
| ForwarderRetries.FailuresAreRetried | inventory-watcher/internal/splunk/forwarder.go:91-100 | failed posts are tried again from the same cursor, and the third in a row ends the sweep; the stored cursor stays, and the receiver has the batch once for each lost reply |
| ForwarderRetries.RetrySucceeds | inventory-watcher/internal/splunk/forwarder.go:91-116 | after fewer than three failures an accepted post moves the cursor to the end of the batch, and a full batch goes on without errors |
| Forwarder.LateRowIsLost | inventory-watcher/internal/inventory/store.go:2111-2116 | a row that becomes visible below the cursor is never delivered while reads succeed |
| Forwarder.Store.RawEventsSince | inventory-watcher/internal/inventory/store.go:2111-2134 | the first rows after the cursor in id order, with none left out |
| Forwarder.Engine.Iterate | inventory-watcher/internal/splunk/forwarder.go:75-122 | one iteration posts the next rows, or none on an error, and moves stored and local cursor as the steps of the protocol do |
| Forwarder.Engine.Sweep | inventory-watcher/internal/splunk/forwarder.go:61-123 | a sweep ends and its effect is that of a run of the protocol; it posts rows in order and each once, after a failed read from the start; the cursor stays or ends between the start and what was posted, and nothing is left pending when nothing fails |
| Meter.UptimeIsElapsedTime | inventory-watcher/internal/metering/metering.go:96-123 | for any clock readings and any mix of sweeps, updates and deletes, intervals are adjacent from creation and add up to the last end minus creation if and only if nothing is metered after the final interval |
| Meter.UptimeOverEveryRun | inventory-watcher/internal/metering/metering.go:96-163 | over every run, metered uptime is the last end minus creation plus the length of every final interval that something followed |
| Meter.StepKeepsChainIff | inventory-watcher/internal/metering/metering.go:133-163 | from chained intervals, a step keeps the chain if and only if it is not the case that the instance had its final interval and the step writes another one |
| Meter.FinalShows | inventory-watcher/internal/metering/metering.go:133-163 | an instance with chained intervals had its final one if and only if its next interval would start before the end of its last |
| Meter.QuietRunsAreChained | inventory-watcher/internal/metering/metering.go:96-163 | over every run whose steps keep to that condition, repeated deletes included, intervals form one chain and add up to elapsed time |
| Meter.RedeliveredDelete | inventory-watcher/internal/watcher/watcher.go:208-218 | an instance whose delete event is delivered twice is metered twice its time |
| Meter.DeleteEndsTheChain | inventory-watcher/internal/watcher/watcher.go:208-218 | if the only delete is the last word about an instance, the chain includes its final interval |
| Meter.ChainedDisjoint | inventory-watcher/internal/metering/metering.go:96-123 | chained intervals are disjoint and in time order |
| Meter.CreationTimeIsFixed | inventory-watcher/internal/inventory/store.go:892-925 | updates keep the creation time recorded first |
| MeterEvents.InventoryFollowsEvents | inventory-watcher/internal/inventory/store.go:892-950 | over every run an instance is known if and only if it was updated, with the creation time of its first update, the state of its last, and the deletion time of its last update or of the first delete since |
| MeterEvents.EveryRunFits | inventory-watcher/internal/metering/metering.go:96-163 | the invariant that the next two rows start from holds after every run |
| MeterEvents.SweptUptime | inventory-watcher/internal/inventory/store.go:547-554 | a sweep makes the uptime of an instance that is alive and in the long-named running state all the time since its creation, and leaves others as they are |
| MeterEvents.DeletedUptime | inventory-watcher/internal/metering/metering.go:133-163 | a delete makes the uptime of an instance running by either name all the time from creation to deletion, and marks it deleted unless it was |
| Meter.SweepReachesNow | inventory-watcher/internal/metering/metering.go:85-128 | a sweep brings every running instance up to the current time |
| Meter.Store.MeterComputeInstances | inventory-watcher/internal/metering/metering.go:96-123 | the sweep loop: one interval per running instance, and how far each got |
| RuleCache.CurrentVersionMeansFreshCache | inventory-watcher/internal/ruleengine/engine.go:57-87 | over every interleaving of rule updates with the separate reads of any number of reloads, a current cached version means the cache is the rule table |
| RuleCache.UpsertMovesVersion | inventory-watcher/internal/inventory/store.go:2185-2195 | every rule update moves the version sum by one |
| RuleCache.CacheHoldsTheRules | inventory-watcher/internal/ruleengine/engine.go:75-78 | the cache built from the rules holds every rule and nothing else |
| RuleHistory.UpsertReplacesText | inventory-watcher/internal/inventory/store.go:2185-2195 | an update replaces the text of its rule and no other |
| RuleHistory.VersionsCountUpdates | inventory-watcher/internal/inventory/store.go:2185-2195 | over every run the version of a rule is the number of its updates |
| RuleHistory.CacheHoldsLatestRules | inventory-watcher/internal/ruleengine/engine.go:57-87 | over every interleaving the table holds the last text of every rule, its version counts the updates, and a cache with the current version holds the last texts and nothing else |
| RuleHistory.ReloadBringsLatestRules | inventory-watcher/internal/ruleengine/engine.go:57-87 | from every state of a run a reload that no update interrupts brings the last texts |
| RuleCache.Store.UpsertPricingRule | inventory-watcher/internal/inventory/store.go:2185-2195 | replaces a known rule with its next version, or adds a new one at version 1 |
| RuleCache.Store.PricingRulesVersion | inventory-watcher/internal/inventory/store.go:2230-2234 | the sum of the versions |
| RuleCache.Engine.ReloadIfChanged | inventory-watcher/internal/ruleengine/engine.go:57-87 | the cached version becomes current, and the cache is the table if the version moved |
| Quotas.ProjectLimitsStayWithinTenantLimit | inventory-watcher/internal/api/handler.go:1248-1262 | over any run of creates, updates without negative limits, moves and deletes, active project limits stay within the tenant limit |
| QuotaRoom.CreateTakesRoom | inventory-watcher/internal/api/handler.go:971-1020 | a create goes through if and only if tenant, meter and unit are named, the limit is positive, the period valid, and there is no tenant limit or room under it; it takes up exactly its limit |
| QuotaRoom.UpdateMovesRoom | inventory-watcher/internal/api/handler.go:1104-1139 | an update goes through if and only if the row exists, the period is valid, and its limit is not positive or fits once the row is put aside; it takes up its new limit instead of its old one |
| QuotaRoom.DeleteGivesRoom | inventory-watcher/internal/inventory/store.go:1484-1493 | a delete takes effect on an active row once and gives back exactly its limit |
| QuotaRoom.RoomStaysOpen | inventory-watcher/internal/api/handler.go:1248-1262 | over any run without updates to negative limits the room under a tenant limit is never negative |
| Quotas.NegativeUpdateOvercommits | inventory-watcher/internal/api/handler.go:1121-1128 | after any accepted update to a negative limit, a create and a delete exceed the tenant limit |
| Quotas.RacingCreates | inventory-watcher/internal/api/handler.go:1003-1010 | two creates that both pass their checks before either is inserted break the bound if and only if they do not fit together |
| Quotas.RaceOvercommits | inventory-watcher/internal/api/handler.go:1003-1010 | under a limit of ten, two creates of six on an empty table both pass and make twelve |
| Quotas.InsertConserves | inventory-watcher/internal/api/handler.go:1003-1010 | an insert keeps the sum of the limits in the table and of those checked and not yet inserted |
| Quotas.BoundAfterDrainingIff | inventory-watcher/internal/api/handler.go:1003-1010 | in every state, once all checked creates are inserted the bound holds if and only if that sum is within the limit |
| Quotas.TurnsKeepTheBound | inventory-watcher/internal/api/handler.go:1003-1010 | over every run with checks and inserts apart, the bound holds if moves that add to the limits take turns |
| Quotas.Store.SumProjectLimits | inventory-watcher/internal/inventory/store.go:1719-1730 | the sum of active project limits, one row left out |
| Quotas.Store.ValidateProjectOvercommit | inventory-watcher/internal/api/handler.go:1248-1262 | accepts if there is no tenant limit or the sum fits |
| Quotas.Store.CreateQuota | inventory-watcher/internal/api/handler.go:971-1020 | adds a quota with tenant, meter, unit, positive limit and valid period that fits, and says why it does not add others |
| Quotas.Store.UpdateQuota | inventory-watcher/internal/api/handler.go:1104-1139 | replaces a row after checking the period and the overcommitment, the latter for positive limits only |
| Quotas.Store.SoftDeleteQuota | inventory-watcher/internal/inventory/store.go:1484-1493 | deactivates an active row once |

## Left out

- HTTP handling, generated routing, dashboards, CSV output, authentication, metrics and logging: no hard property.
- JSON decoding, SHA-256, UUIDs and the rule evaluator: foreign code; they are parameters, and the digest is assumed injective only where `Ingest.ExactlyOnce` says so.
- PostgreSQL itself: transactions are atomic steps, a claim waits for open transactions on its key, and column overflow is not modelled.
- float64 rounding of usage values, percentages and quota limits: they are exact reals.
- A failed prior-usage query, which the code takes as zero: that query succeeds in the model. Failed marking is in `MarkingFailures` only; the sweep of `Rater` marks what it inserts.
- Stored cost amounts have ten decimals, so the stored total of a window differs from the proved one by up to half of the last decimal per cost entry: costs are exact reals.
- Entries that arrive during a sweep: `Rater.Engine.Sweep` runs on a fixed log; runs let entries arrive between batches, and `Rating.LaterArrivalsAreInvisible` covers the queries of a batch.
- Wallet lifecycle states, several wallets per tenant, negative adjustments (not implemented by the handler), and the race between the reference check and the insert of a top-up: one active wallet, and a top-up is one step.
- Wallet amounts finer than 10^-10: they are integers in that unit.
- The side effects of an ingested event beyond its raw event: they commit and roll back with it and are represented by it.
- Alerts whose insert fails, and budget quotas over all meters as a separate case: consumption is read through a parameter.
- Uptime from ingested heartbeats, failed metering inserts, a delete that interleaves with the loop of one sweep, and CPU, memory, cluster, bare-metal and model meters: the interval logic is that of compute instances.
- Changes to tenant-level quotas and expiry of quotas: tenant limits are a fixed function.
- Kafka, OSAC clients, simulators, the replayer, `kube-cost-agent`, the reconciler, custom metrics and reports: clients, tools and plain aggregation.
- Rating.CacheRefinesQuery: requires coherent entries, because the code gives no more; `CacheExactness.CacheAgreesIffNoStraddler` states the exact condition for batches in time order.
- CacheExactness.CacheAgreesIffNoStraddler: batches in time order only; an entry that ends exactly where a window ends can be counted there by the query and is carried by the cache under the next window.
- CivilBills.TieredWindowBill: excludes years beyond four digits and entries in colliding weeks, where labels do not tell windows apart (`CivilBills.PairFits`); `WindowBills.WindowBilledByTotal` covers any log on which they do.
- Meter.DeleteEndsTheChain: one delete only; `Meter.QuietRunsAreChained` and `Meter.UptimeOverEveryRun` cover repeated ones.
