# Werk, modelled and verified in Dafny

Werk is a C++ toolkit of small stateful components: a scheduler, a replayer of historical data,
streaming statistics, rate limiting, profiling, logging, configuration and a console. This
project models the components whose behaviour over whole runs is hard to see from one body, and
proves what they promise.

Each component comes in two forms. The objects (`class`) keep the fields of the C++ objects and
update them in place with the same branches. Functions on values say what each operation does,
and every method is proved against its function; the theorems about runs are lemmas about those
functions. A ghost field of an object holds the value its concrete fields stand for.

| files | what they hold |
|---|---|
| `Multimaps`, `Division`, `Options`, `Clocks`, `Rings`, `Buffers` | shared pieces: the time-keyed multimap, integer division, the ring-buffer layout, text cut to a buffer |
| `Schedule`, `Scheduler` | the task scheduler |
| `Csv`, `CsvReader` | CSV text and the parser that reads one row ahead |
| `Series`, `Replay`, `Replayer` | time series, their merge by time, and the replayer over series objects |
| `Moments`, `Windows` | weighted statistics and the sliding windows that update them incrementally |
| `Summaries`, `Regression` | summary statistics and least squares |
| `Throttle`, `Order`, `Profiles` | the rate limiter, order statistics, profiles |
| `Console`, `ConsoleObjects`, `Reload`, `AsyncLog`, `Watchdog` | protocols as steps, with their objects |

How the C++ is rendered:

- `std::multimap` is a sequence in key order. Each entry carries the number of insertions made
  before it, so "equal keys leave in the order they came" is the strict order of (key, serial).
- `uint64_t` clocks and counts are `nat`. Wrap-around is modelled where the code can meet it: the
  age of a window slot, the cast of a CSV time, a time plus jitter, a profile delta stored as
  `uint64_t`, the 32-bit console sequence number. `Schedule.DrainBounded` gives the bound under
  which the scheduler's additions stay in range.
- `double` is `real`: no rounding and no NaN. Where the code returns NaN or divides by zero the
  model returns `None`.
- Virtual calls, inheritance and the template parameter of the windows become a constant tag and
  a `match`. `RangedSummaryStatistics` is `Summaries.SummaryStatistics` with `ranged` set.
- The system clock, random draws, file contents and what other threads do are parameters.

Where the code differs from what one would expect of it, the code is kept and the exact condition
is proved, with an input at which it fails:

- A pass of the scheduler ends if and only if no due task has interval 0 and a negative count
  (`Schedule.PassTerminatesIff`, `Schedule.StuckTask`).
- A fractile of 1 passes the assertion and reads past the end: a rank is in bounds if and only if
  the fraction is below 1 (`Order.RankInBounds`).
- A CSV file written by the rules of section 2 of RFC 4180 reads back if and only if no cell in
  quotes holds a quote, no other cell has whitespace at an edge, no cell holds a line break, and no
  row is a blank line: doubled quotes are not undone, unquoted cells are trimmed, a line ends at
  its first line break even inside quotes, and blank lines are skipped (`Csv.FileReadsBackIff`,
  `Csv.QuotesStayDoubled`, `Csv.EdgesTrimmed`, `Csv.BreakSplitsRow`, `Csv.BlankRowLost`).
- A reset of a summing window leaves its sum, which is right again if and only if the resets threw
  away nothing in total (`Windows.SlidingWindow.PerformAll`, `Windows.ResetForgets`).
- The counter of sliding statistics counts a removal as one more sample: it is the number of values
  held if and only if nothing was removed by weight -1 since the statistics were last cleared
  (`Windows.SlidingWindow.PerformAll`, `Windows.CountMisleads`).
- The console's sequence check stays silent over a queue without loss if and only if what was
  received under a process id comes from one client whose 32-bit counter has not wrapped: two
  clients in one process, or a process that got the id of an earlier one, both start at number 0
  (`Console.ReliableProtocol`, `Console.OneEachReports`).
- A console client that falls silent and sends again does not count as connected: only the first
  message of a process id never heard before brings the flag back (`Console.ConnectedIff`,
  `Console.HeardButNotConnected`).
- One reload of one configurable may find one key in one load of the configuration and the next key
  in the next load, for each lookup reads the published map anew; once no change is pending all of
  its keys were found in what is published (`Reload.ReloadReaches`, `Reload.ReloadsMix`).
- With one producer, once drained, the log has reported every dropped run if and only if the queue
  had room at the last log call; with many producers a silent log lacks no message if and only if
  it holds the last ticket (`AsyncLog.LastLogDecides`, `AsyncLog.SilentDropsIff`,
  `AsyncLog.LastDropUnreported`).
- The times of a jittered nondecreasing series stay within their bounds, whatever is drawn, if and
  only if every time plus the largest jitter fits 64 bits (`Series.JitterWithinIff`,
  `Series.JitterWraps`).

## Model

| member | source | states |
|---|---|---|
| Multimaps.EmplaceKeepsValid | src/Werk/Threading/Scheduler.hpp:91 | an insertion keeps entries in key order with equal keys in insertion order |
| Multimaps.EmplaceEntries | src/Werk/Data/TimeSeriesReplayer.cpp:52 | an insertion adds its entry and disturbs no other |
| Schedule.StepMeasure | src/Werk/Threading/Scheduler.hpp:77-95 | each turn of the drain loop lowers the number of runs still due by exactly one although the task may be put back |
| Schedule.PassTerminatesIff | src/Werk/Threading/Scheduler.hpp:77-95 | the loop ends if and only if no due task has interval 0 and a negative count |
| Schedule.StuckTask | src/Werk/Threading/Scheduler.hpp:77-95 | one such task, and no pass at or after its time ends |
| Schedule.DrainOrder | src/Werk/Threading/Scheduler.hpp:75-96 | a pass runs tasks in nondecreasing scheduled time, ties in insertion order, none before its time |
| Schedule.DrainTask | src/Werk/Threading/Scheduler.hpp:49-54 | each task runs at exactly t, t+i, t+2i, ... up to the clock and its count (count 0 once), and the table keeps exactly what is left of it |
| Schedule.EveryAt | src/Werk/Threading/Scheduler.hpp:91 | the k-th run of a task is at its first time plus k intervals |
| Schedule.DrainComposes | src/Werk/Threading/Scheduler.hpp:75-96 | executing at t1 and then at t2 >= t1 gives the runs and the table of executing once at t2 |
| Schedule.DrainBounded | src/Werk/Threading/Scheduler.hpp:91 | no time is computed above the clock plus an interval, so 64-bit additions do not wrap below that bound |
| Scheduler.ScheduledTask.Execute | src/Werk/Threading/Scheduler.hpp:49-54 | runs the action once and lowers a positive count |
| Scheduler.Scheduler.Schedule | src/Werk/Threading/Scheduler.hpp:69-73 | a new task enters the table at its time, behind equal times |
| Scheduler.Scheduler.RunHead | src/Werk/Threading/Scheduler.hpp:78-94 | one turn of the loop on the objects is one step on the table |
| Scheduler.Scheduler.Execute | src/Werk/Threading/Scheduler.hpp:75-96 | terminates, leaves the drained table and executes the actions of exactly the drained runs in their order |
| Csv.LineReadsBackIff | src/Werk/Data/Csv/CsvParser.cpp:60-87 | a line of any legal cells, in quotes or not, is returned as written if and only if no cell in quotes holds a quote and no other has whitespace at an edge |
| Csv.FileReadsBackIff | src/Werk/Data/Csv/CsvParser.cpp:41-100 | a file written by the rules of section 2 of RFC 4180, each cell in quotes or not as they allow, with either line break and with or without a last one, reads back row by row and cell by cell if and only if moreover no cell holds a line break and no row is a blank line |
| Csv.RowsHaveNoBreak | src/Werk/Data/Csv/CsvParser.cpp:41-46 | no field ever read holds a line break, whatever the text |
| Csv.QuotesStayDoubled | src/Werk/Data/Csv/CsvParser.cpp:80-83 | a cell in quotes with quotes and no commas comes back with its quotes doubled |
| Csv.EdgesTrimmed | src/Werk/Data/Csv/CsvParser.cpp:77-78 | a cell without quotes comes back without its edge whitespace |
| Csv.BlankRowLost | src/Werk/Data/Csv/CsvParser.cpp:46-49 | a row that is one empty cell without quotes does not come back |
| Csv.BreakSplitsRow | src/Werk/Data/Csv/CsvParser.cpp:41-46 | a field with a line break comes back as two rows |
| Csv.FieldsKeepQuotes | src/Werk/Data/Csv/CsvParser.cpp:80-83 | reading drops at most one pair of quotes per field, on any line |
| Csv.Spaces | src/Werk/Data/Csv/CsvParser.cpp:78 | what is trimmed: space, tab, line feed, vertical tab, form feed, carriage return |
| Csv.CleanIs | src/Werk/Data/Csv/CsvParser.cpp:77-83 | whitespace at the edges goes, then one pair of quotes if there is one |
| Csv.LineIsPieces | src/Werk/Data/Csv/CsvParser.cpp:60-87 | every line is pieces between commas: plain ones, ones in quotes with any commas, and at most a last one whose quote is never closed |
| Csv.PiecesAreFields | src/Werk/Data/Csv/CsvParser.cpp:60-87 | each such piece, cleaned, is a field |
| CsvReader.Split | src/Werk/Data/Csv/CsvParser.cpp:60-87 | the field loop ends on every line, unclosed quotes and trailing commas included, with the fields of the line |
| CsvReader.CsvParser.GetLine | src/Werk/Data/Csv/CsvParser.cpp:45 | takes one line off the file, or reports its end |
| CsvReader.CsvParser.MoveNext | src/Werk/Data/Csv/CsvParser.cpp:41-100 | the next row becomes current and the current one stays readable as the last, also at the end of the file; headers disturb neither |
| Series.StollReads | src/Werk/Data/Csv/CsvTimeSeries.hpp:60 | whitespace, a sign or none, the decimal digits of a number and anything that is no digit: that number, or a throw when it does not fit 64 bits |
| Series.StollThrows | src/Werk/Data/Csv/CsvTimeSeries.hpp:60 | without a digit there it throws |
| Series.StollDecimal | src/Werk/Data/Csv/CsvTimeSeries.hpp:60 | a number written in decimal is read back if and only if it fits 64 bits |
| Series.ReadingsOfDecimals | src/Werk/Data/Csv/CsvTimeSeries.hpp:50-62 | rows whose time cells are such numbers are readings at number times scale plus offset modulo 2^64 |
| Series.ShortRowEnds | src/Werk/Data/Csv/CsvTimeSeries.hpp:56-58 | a row without a time column ends the series, whatever comes behind it |
| Series.FileReadings | src/Werk/Data/Csv/CsvTimeSeries.hpp:50-62 | the same for a whole file that reads back |
| Series.JitteredAt | src/Werk/Data/JitterTimeSeries.hpp:51-61 | each jittered time is the larger of the one before and its own time plus the next draw |
| Series.JitteredOnlyForward | src/Werk/Data/JitterTimeSeries.hpp:51-61 | jittered times never go back, whatever the underlying times and the draws |
| Series.JitterNeverUnordered | src/Werk/Data/JitterTimeSeries.hpp:34-61 | a jittered series is played to its end if and only if it is empty or its first time is not 0 |
| Series.JitterWithinBounds | src/Werk/Data/JitterTimeSeries.hpp:51-61 | over a nondecreasing series with room for the largest jitter in 64 bits every jittered time lies within min and max of its own |
| Series.JitterWithinIff | src/Werk/Data/JitterTimeSeries.hpp:51-61 | that holds for every draw if and only if every time leaves that room |
| Series.JitterWraps | src/Werk/Data/JitterTimeSeries.hpp:56 | without that room the sum wraps: a first reading can get time 0, which the replayer takes for the end |
| Series.TimeSeries.MoveNext | src/Werk/Data/TimeSeries.hpp:48-51 | moves to the next of the series' readings or reports the end; a CSV series then still shows the row it left |
| Series.TimeSeries.MoveNextRow | src/Werk/Data/Csv/CsvTimeSeries.hpp:50-64 | reads one row ahead, stops at the end or a row without a time column, and keeps the row left as last values |
| Series.TimeSeries.MoveNextJitter | src/Werk/Data/JitterTimeSeries.hpp:51-61 | the time is the larger of the old time and the underlying time plus a draw, modulo 2^64 |
| Replay.AddKeepsOk | src/Werk/Data/TimeSeriesReplayer.cpp:32-53 | adding a source keeps the table in order and each key equal to its source's current time |
| Replay.AdvanceKeepsOk | src/Werk/Data/TimeSeriesReplayer.cpp:82-84 | erasing and re-adding the head keeps that, and everything left comes after the head |
| Replay.StepKeepsClock | src/Werk/Data/TimeSeriesReplayer.cpp:55-89 | no key is ever behind the clock, the clock never goes back, and a running clock moves by at most the timeout |
| Replay.DispatchOrder | src/Werk/Data/TimeSeriesReplayer.cpp:58-84 | dispatched times never decrease, ties go to the source queued first |
| Replay.AcceptedIsLongest | src/Werk/Data/TimeSeriesReplayer.cpp:38-50 | the readings a source may play are its longest prefix that is positive and nondecreasing |
| Replay.QueuedSource | src/Werk/Data/TimeSeriesReplayer.cpp:55-89 | whatever the others do, a queued source plays exactly those readings in order |
| Replay.ReplayMerges | src/Werk/Data/TimeSeriesReplayer.cpp:32-89 | distinct sources added before the start are each played exactly so, and nothing else is dispatched |
| Replay.RunIsFilledMerge | src/Werk/Data/TimeSeriesReplayer.cpp:71-85 | a timeout only inserts fillers into the merge without one |
| Replay.FillKeepsReal | src/Werk/Data/TimeSeriesReplayer.cpp:71-85 | the real events, their order and their times survive any timeout |
| Replay.GapFilled | src/Werk/Data/TimeSeriesReplayer.cpp:71-76 | a gap once the clock runs gets exactly the counted fillers, one timeout apart, then the event at its own time |
| Replay.FirstEvent | src/Werk/Data/TimeSeriesReplayer.cpp:71-76 | before the clock runs there are no fillers |
| Replay.FillerCountStep | README.md:232-234 | that count is the gap over the timeout, rounded up, less one |
| Replay.RunSteps | README.md:232-234 | consecutive events never go back and, once the clock runs, are at most a timeout apart |
| Replay.ReplayComplete | src/Werk/Data/TimeSeriesReplayer.cpp:32-89 | all of this for a whole replay with any timeout, which starts with a real event |
| Replay.CompletesAfter | src/Werk/Data/TimeSeriesReplayer.cpp:57-65 | the replay is complete after n executes if and only if n exceeds the number of its events |
| Replayer.TimeSeriesReplayer.AddDataSource | src/Werk/Data/TimeSeriesReplayer.cpp:32-53 | on objects: the series is queued at its next time, or dropped as finished or unordered, and a CSV series still shows the row it was at |
| Replayer.TimeSeriesReplayer.EraseHead | src/Werk/Data/TimeSeriesReplayer.cpp:82-83 | takes the earliest source out of the table |
| Replayer.TimeSeriesReplayer.Execute | src/Werk/Data/TimeSeriesReplayer.cpp:55-89 | one execute on objects is one step, and at a dispatch a CSV current source shows the very row whose time set the clock although its parser has moved on or ended |
| Replayer.TimeSeriesReplayer.Turn | src/Werk/Application/Context.cpp:543-548 | one turn of the main loop: the run is the event seen followed by the run from there, or the replay is complete |
| Replayer.TimeSeriesReplayer.RunToCompletion | src/Werk/Application/Context.cpp:543-548 | the main loop ends, and what the main action saw, event by event and row by row, is the run of the merge with its fillers |
| Moments.SampledDescribes | src/Werk/Math/WeightedSummaryStatistics.hpp:56-64 | an update with any weight of either sign that leaves a nonzero total adds the sample to the sums the accumulators stand for |
| Moments.DescribesDetermines | src/Werk/Math/WeightedSummaryStatistics.hpp:78-82 | those sums determine the accumulators, whatever was added and taken back |
| Moments.SampleTakenBack | src/Werk/Math/SlidingSummaryStatistics.hpp:55 | a sample taken back with the opposite weight leaves no trace but in the counter |
| Moments.BatchRemove | src/Werk/Math/SlidingSummaryStatistics.hpp:48-57 | taking the oldest of several samples back gives the batch statistics of the rest, never dividing by zero |
| Moments.DeviationsNonnegative | src/Werk/Math/WeightedSummaryStatistics.hpp:49-51 | squared deviations, and so m2, are never negative |
| Moments.AccumulatedIsWeightedStatistics | src/Werk/Math/WeightedSummaryStatistics.hpp:37-64 | after any weighted samples never totalling zero: weighted mean and weighted squared deviations |
| Windows.WeightedSummaryStatistics.Sample | src/Werk/Math/WeightedSummaryStatistics.hpp:56-64 | the in-place update of the five accumulators |
| Windows.WeightedSummaryStatistics.Reset | src/Werk/Math/WeightedSummaryStatistics.hpp:65-71 | back to nothing |
| Rings.RingPush | src/Werk/Utility/SlidingWindow.hpp:87-90 | writing the back slot appends to what the ring holds |
| Rings.RingPop | src/Werk/Utility/SlidingWindow.hpp:99-103 | moving the front drops the oldest |
| Rings.SlideKeepsRecent | src/Werk/Utility/SlidingWindow.hpp:63-67 | with indexes in order and none ahead, sliding keeps exactly those no older than the duration |
| Rings.AgeOfFuture | src/Werk/Utility/SlidingWindow.hpp:64 | an index ahead of the clock wraps round to a huge age |
| Windows.WindowIsMostRecent | src/Werk/Utility/SlidingWindow.hpp:56-104 | after any run a window holds the most recent samples since the last reset, in order |
| Windows.ApplyLeaves | src/Werk/Utility/SlidingWindow.hpp:56-84 | how many slots each operation leaves, with a slide stopping at the first that is not too old |
| Windows.WindowFills | src/Werk/Utility/SlidingWindow.hpp:68-80 | without slides it holds the last size of them, or all there are |
| Windows.WindowIsRecentPart | src/Werk/Utility/SlidingWindow.hpp:56-104 | with times in order it holds exactly those of the last size of them that are no older than the duration at the last slide |
| Windows.SlidingWindow.ForceSlideOne | src/Werk/Utility/SlidingWindow.hpp:94-104 | drops the oldest and takes it out of the sum or the statistics |
| Windows.SlidingWindow.SlideOne | src/Werk/Utility/SlidingWindow.hpp:56-62 | the same, or nothing when empty |
| Windows.SlidingWindow.Slide | src/Werk/Utility/SlidingWindow.hpp:63-67 | drops what is too old at the front |
| Windows.SlidingWindow.Sample | src/Werk/Utility/SlidingWindow.hpp:68-80 | appends, dropping the oldest when full |
| Windows.SlidingWindow.OnAddValue | src/Werk/Math/SlidingSummaryStatistics.hpp:44-47 | sum and statistics follow the content when a value enters |
| Windows.SlidingWindow.OnRemoveValue | src/Werk/Math/SlidingSummaryStatistics.hpp:48-57 | and when the oldest leaves, by weight -1, which the counter counts as one more sample, or a reset for the last one |
| Windows.SlidingWindow.Reset | src/Werk/Math/SlidingSummaryStatistics.hpp:59-62 | empties the window and the statistics; a summing window keeps its sum |
| Windows.SlidingWindow.PerformAll | src/Werk/Utility/SlidingWindow.hpp:56-157 | over any run the statistics but for their counter are the batch statistics of the content; the counter is the number held plus two for every removal by weight -1 since the statistics were last cleared; and the sum is the sum of the content exactly when the resets threw away nothing |
| Windows.CountMisleads | src/Werk/Math/WeightedSummaryStatistics.hpp:57 | three samples through a window of two: two held, one removal, so the counter is 4 |
| Windows.NothingForgottenWithoutReset | src/Werk/Utility/SlidingWindow.hpp:138-157 | without a reset the sum is the sum of the content |
| Windows.ResetForgets | src/Werk/Utility/SlidingWindow.hpp:81-84 | one sample and a reset leave an empty window whose sum is that sample |
| Throttle.ThrottleGrants | src/Werk/Utility/Throttle.hpp:59-81 | over nondecreasing times each use is granted exactly when fewer than size grants are no older than the duration, and grants size apart are more than the duration apart |
| Throttle.SlideSound | src/Werk/Utility/Throttle.hpp:59-63 | after a slide what is held is exactly the recent part of all grants |
| Throttle.Throttle.Slide | src/Werk/Utility/Throttle.hpp:59-63 | drops the expired grants at the front |
| Throttle.Throttle.Sample | src/Werk/Utility/Throttle.hpp:64-73 | takes a slot, dropping the oldest when full |
| Throttle.Throttle.TryUseSlot | src/Werk/Utility/Throttle.hpp:74-81 | takes a slot if and only if there is room |
| Throttle.Throttle.ForceSlideOne | src/Werk/Utility/Throttle.hpp:95-103 | drops the oldest |
| Throttle.Throttle.SlideAndTry | src/Werk/Utility/Throttle.hpp:59-81 | sliding and then trying a slot is one use of the rule |
| Throttle.Throttle.UseAt | src/Werk/Utility/Throttle.hpp:59-81 | doing so at each time gives the accepted times of the rule |
| Summaries.TakenSummarizes | src/Werk/Math/SummaryStatistics.hpp:57-65 | a plain update keeps the accumulators equal to the batch statistics of the samples |
| Summaries.SummaryStatistics.Sample | src/Werk/Math/SummaryStatistics.hpp:95-104 | and the extremes equal to the least and greatest sample |
| Summaries.SummaryStatistics.Reset | src/Werk/Math/SummaryStatistics.hpp:66-71 | no samples, although old extremes stay behind |
| Regression.CovarianceIsMeanCross | src/Werk/Math/SimpleLinearRegression.hpp:45 | covariance is the mean of the products of the deviations |
| Regression.VarianceIs | src/Werk/Math/SummaryStatistics.hpp:50-52 | the variance is the mean squared deviation, and 0 exactly when all samples are the same |
| Regression.LineExistsIff | src/Werk/Math/SimpleLinearRegression.hpp:51-56 | there are an alpha and a beta if and only if two of the x values differ |
| Regression.LeastSquares | src/Werk/Math/SimpleLinearRegression.hpp:51-56 | the line of alpha and beta has the least sum of squared errors of all lines and is the only one that has |
| Regression.PredictIsLine | src/Werk/Math/SimpleLinearRegression.hpp:59-61 | predict, computed around the mean of x, is the value of that line |
| Regression.CovarianceBounded | src/Werk/Math/SimpleLinearRegression.hpp:46-50 | the squared covariance never exceeds the product of the variances |
| Regression.ClampIs | src/Werk/Math/SimpleLinearRegression.hpp:46-50 | the clamp leaves what lies within -1 and 1 and cuts the rest |
| Regression.ClampChangesNothing | src/Werk/Math/SimpleLinearRegression.hpp:46-50 | so the clamp of the correlation never changes an exact result |
| Regression.SimpleLinearRegression.Sample | src/Werk/Math/SimpleLinearRegression.hpp:63-67 | the three accumulators stand for the samples and their products |
| Regression.SimpleLinearRegression.Reset | src/Werk/Math/SimpleLinearRegression.hpp:68-72 | no samples |
| Regression.SimpleLinearRegression.Fit | src/Werk/Math/SimpleLinearRegression.hpp:51-56 | on the object: a line exactly when two x values differ, and its alpha and beta minimise the squared errors over the samples fed |
| Order.SortSorts | src/Werk/Math/OrderStatistics.hpp:90-95 | sorting gives the same multiset in order |
| Order.SortedUnique | src/Werk/Math/OrderStatistics.hpp:90-95 | in only one way |
| Order.RankInBounds | src/Werk/Math/OrderStatistics.hpp:62-71 | a fractile reads inside the samples if and only if f is below 1 |
| Order.FractileMonotone | src/Werk/Math/OrderStatistics.hpp:62-71 | fractiles grow with f |
| Order.RankIs | src/Werk/Math/OrderStatistics.hpp:69 | the rank is the fraction of the count, rounded down |
| Order.FractileSplits | src/Werk/Math/OrderStatistics.hpp:62-71 | a fractile is a sample; no more than the fraction f of the samples lie below it and more than that fraction do not lie above it |
| Order.OrderStatistics.Sample | src/Werk/Math/OrderStatistics.hpp:76-83 | adds a sample and marks the cache |
| Order.OrderStatistics.Update | src/Werk/Math/OrderStatistics.hpp:90-95 | afterwards the cache is the sorted samples, whatever came between |
| Order.OrderStatistics.Min | src/Werk/Math/OrderStatistics.hpp:46-53 | the least sample, 0 when there is none |
| Order.OrderStatistics.Max | src/Werk/Math/OrderStatistics.hpp:54-61 | the greatest sample, 0 when there is none |
| Order.OrderStatistics.FractileAt | src/Werk/Math/OrderStatistics.hpp:62-71 | the sample of that rank in sorted order, 0 when there is none |
| Order.LeastAndGreatest | src/Werk/Math/OrderStatistics.hpp:46-61 | the ends of the sorted samples are samples and bound all others |
| Profiles.SampledDelta | src/Werk/Profiling/Profile.hpp:70-80 | what is sampled is the difference modulo 2^64, also for a stop before its start |
| Profiles.DeltaIs | src/Werk/Profiling/Profile.hpp:70-72 | the last delta is the signed difference while it fits |
| Profiles.ProfileConserves | src/Werk/Profiling/Profile.hpp:62-123 | over any run the count is warmup plus binned plus pending, warmup fills first, no bin is empty, fewer than sampleSize samples are pending |
| Profiles.ProfileHolds | src/Werk/Profiling/Profile.hpp:62-123 | over any run the warmup, the closed bins joined and the pending samples are exactly the differences modulo 2^64 of the counted stops since the last reset, in order |
| Profiles.BinsFull | src/Werk/Profiling/Profile.hpp:83-86 | a bin that was not closed from outside holds exactly sampleSize samples, or one for size 0 |
| Profiles.BinFractiles | src/Werk/Profiling/Profile.hpp:100-107 | the eight samples of a bin are its least, its 25, 50, 75, 90, 95 and 99 per cent points and its greatest |
| Profiles.AveragesOrdered | src/Werk/Profiling/Profile.hpp:95-109 | the eight averages are over the same number of bins and in the order minimum, fractiles, maximum |
| Profiles.ExtremesOfAll | src/Werk/Profiling/Profile.hpp:100-107 | the minimum of the minima and the maximum of the maxima are the extremes of all binned samples |
| Profiles.Profile.SummariesOrdered | src/Werk/Profiling/Profile.hpp:95-109 | so the summaries of every profile with a closed bin have equal counts and ordered averages |
| Profiles.Profile.SummariesExtreme | src/Werk/Profiling/Profile.hpp:100-107 | and its outer summaries hold the extremes of all binned samples |
| Profiles.Profile.Start | src/Werk/Profiling/Profile.hpp:62 | sets the start time |
| Profiles.Profile.Stop | src/Werk/Profiling/Profile.hpp:63-88 | counts a started stop into the warmup or the bin and closes a full bin; a stop in warmup keeps the start time |
| Profiles.Profile.Restart | src/Werk/Profiling/Profile.hpp:89-93 | a stop followed by a start |
| Profiles.Profile.CloseBin | src/Werk/Profiling/Profile.hpp:95-109 | the eight summaries each gain their order statistic of the bin, and the bin empties |
| Profiles.Profile.SampleFractiles | src/Werk/Profiling/Profile.hpp:95-109 | the same, called from outside |
| Profiles.Profile.Reset | src/Werk/Profiling/Profile.hpp:110-123 | everything but the last delta starts over |
| Console.ReceiveReports | src/Werk/Console/IpcConsoleServer.cpp:64-86 | a message adds at most one sequence report, about its own process id |
| Console.ReceiveLogs | src/Werk/Console/IpcConsoleServer.cpp:44-106 | exactly which lines a message adds to the log, and when |
| Console.ServerTimes | src/Werk/Console/IpcConsoleServer.cpp:94-101 | the heartbeat and command times of each process id and of the server are those of the last message and the last command heard |
| Console.PayloadIs | src/Werk/Console/IpcConsoleClient.cpp:41-43 | the text sent is the longest beginning without a NUL of at most 251 characters |
| Console.SendViews | src/Werk/Console/IpcConsoleClient.cpp:33-53 | a send concerns its own process id only, and nothing when the queue is full |
| Console.ReceiveViews | src/Werk/Console/IpcConsoleServer.cpp:34-109 | a receive concerns the process id of the first message only |
| Console.ReliableRunInStep | src/Werk/Console/IpcConsoleServer.cpp:64-86 | over every run without loss the clients of a process id, queue and server agree on every message |
| Console.ReliableProtocol | src/Werk/Console/IpcConsoleServer.cpp:64-86 | over a queue without loss: the commands run are a prefix in order of the non-empty sends; no report exactly while one client only was received under the process id and no more than 2^32 messages; with one client last number plus one plus queued is its next number |
| Console.OneEachReports | src/Werk/Console/IpcConsoleServer.cpp:64-86 | for any queue and any list of clients of one process sending in turn, none of it lost, a sequence report is logged if and only if two of them differ or there are more than 2^32 messages |
| Console.LossyProtocol | src/Werk/Console/IpcConsoleServer.cpp:64-86 | with one client under the process id, over a lossy queue nothing is reported out of order or twice, and once two messages have arrived a missing number is reported if and only if an earlier message was lost |
| Console.DrainsGoodQueue | src/Werk/Console/ConsoleCommandReceiver.hpp:45-56 | the receiver runs every command of a queue of good messages, in order |
| Console.DrainStopsAtBad | src/Werk/Console/ConsoleCommandReceiver.hpp:45-56 | a message with a bad magic or version is dropped and ends the drain; what follows stays queued |
| Console.DrainIsRun | src/Werk/Console/ConsoleCommandReceiver.hpp:45-56 | a drain leaves the server that receiving the taken messages one by one leaves |
| Buffers.CopiedIs | src/Werk/Logging/AsyncLog.cpp:82-84 | text copied into a buffer is its longest beginning without a NUL that fits with one behind it |
| ConsoleObjects.IpcConsoleClient.Send | src/Werk/Console/IpcConsoleClient.cpp:33-53 | queues the truncated text with the client's number, which advances only on success |
| ConsoleObjects.IpcConsoleClient.constructor | src/Werk/Console/IpcConsoleClient.hpp:41-49 | sends a first heartbeat and ignores its failure |
| ConsoleObjects.IpcConsoleServer.Receive | src/Werk/Console/IpcConsoleServer.cpp:34-109 | checks magic, version, sequence and age, and updates the client table and times |
| Console.ConnectedIff | src/Werk/Console/IpcConsoleServer.cpp:64-125 | from any point where it is down, the flag is up later if and only if the first message of some process id has come since and no update after it found the last message more than five seconds old |
| Console.HeardButNotConnected | src/Werk/Console/IpcConsoleServer.cpp:64-125 | so a client that falls silent and then sends again is heard and stays not connected |
| Console.ServerKnows | src/Werk/Console/IpcConsoleServer.cpp:64-86 | the server knows exactly the process ids it has heard a good message from |
| Console.ServerOfRun | src/Werk/Console/IpcConsoleServer.cpp:34-125 | the server of every run of the protocol is one of these |
| ConsoleObjects.IpcConsoleServer.Update | src/Werk/Console/IpcConsoleServer.cpp:111-125 | on the object: after an update the flag is up exactly when a first message has come with no silence found since, and a line is logged exactly when the flag falls |
| ConsoleObjects.ConsoleCommandReceiver.Execute | src/Werk/Console/ConsoleCommandReceiver.hpp:45-56 | drains the queue into the command manager until a receive fails |
| Reload.RunKeeps | src/Werk/Config/Config.cpp:35-75 | the invariants of maps, requests, reads and lookups hold in every interleaving |
| Reload.ReloadReaches | src/Werk/Config/Config.cpp:35-75 | the published map and every single lookup are of one whole finished load; idle with no request pending, the published load began after every request; idle with no change pending, every configurable has reloaded and found each of its keys in what is published |
| Reload.SwapSplitsReload | src/Werk/Config/Config.hpp:110-114 | a swap between two lookups of one configurable: the first is of the old load, the second of the new |
| Reload.ReloadsMix | src/Werk/Config/Config.hpp:110-114 | a run from the start in which that happens |
| Reload.StepsAreExecute | src/Werk/Config/Config.cpp:35-57 | uninterrupted, the background steps are what execute does: one whole load begun after every request |
| Reload.StepsAreReload | src/Werk/Config/Config.cpp:60-75 | uninterrupted, the foreground steps are what reloadConfigurables does: the latch cleared, each configurable's own keys found as published or absent, the thread done |
| Reload.LastSourceWins | src/Werk/Config/Config.cpp:48-52 | in a load each key has the value of the last source that sets it, and no other key is there |
| Reload.Config.LoadFrom | src/Werk/Config/Config.cpp:48-52 | a source writes over the inactive map only, and a failure is counted but does not stop the load |
| Reload.Config.Execute | src/Werk/Config/Config.cpp:35-57 | without a request nothing; else the overlay of all sources, last wins, is swapped in |
| Reload.Config.ReloadConfigurables | src/Werk/Config/Config.cpp:60-75 | after a change every configurable reads the published values, and the result is whether all accept |
| AsyncLog.LogKeepsCount | src/Werk/Logging/AsyncLog.cpp:36-120 | in every interleaving each ticket is in one place, and no report is written exactly when the tickets written are 0 to k-1 in order |
| AsyncLog.SilentDropsIff | src/Werk/Logging/AsyncLog.cpp:94-103 | with many producers, all pushed, drained and nothing reported, nothing was dropped if and only if the last ticket taken was written |
| AsyncLog.AllDropsReportedIff | src/Werk/Logging/AsyncLog.cpp:94-103 | with one producer and all drained, every dropped run was reported if and only if the last message logged was delivered |
| AsyncLog.LastLogDecides | src/Werk/Logging/AsyncLog.cpp:65-103 | that is, if and only if the queue had room at the last log call |
| AsyncLog.LastDropUnreported | src/Werk/Logging/AsyncLog.cpp:94-103 | for every capacity, one message more than fits and then a drain: one dropped run, no report |
| AsyncLog.SingleProducerReports | src/Werk/Logging/AsyncLog.cpp:94-103 | with one producer the delivered messages are written in order and each dropped run a delivery ends is reported once |
| AsyncLog.DrainedReports | src/Werk/Logging/AsyncLog.cpp:94-103 | once drained the reports number those runs |
| AsyncLog.SingleIsRun | src/Werk/Logging/AsyncLog.cpp:36-120 | a run of one producer is the run of many in which each ticket is pushed as soon as it is taken |
| AsyncLog.AsyncLog.LogRaw | src/Werk/Logging/AsyncLog.cpp:68-87 | takes a ticket and queues the message with its time, kind and cut text if there is room |
| AsyncLog.AsyncLog.WriteNext | src/Werk/Logging/AsyncLog.cpp:94-114 | writes one message, with a report in front if it was not the expected one |
| AsyncLog.LinesKeepMessages | src/Werk/Logging/AsyncLog.cpp:105-112 | a drain writes every queued message, once and in order |
| AsyncLog.LinesReport | src/Werk/Logging/AsyncLog.cpp:94-103 | a report stands in front of exactly the messages that were not the expected one, with that message's time and number and the number expected |
| AsyncLog.AsyncLog.Execute | src/Werk/Logging/AsyncLog.cpp:89-120 | writes all that is queued; the reports in the file number the dropped runs a delivery ended, which is all of them if and only if the last message was delivered |
| Watchdog.FiresOncePerReset | src/Werk/Threading/Watchdog.hpp:57-81 | between two firings some poll saw a reset, for any clock and interleaving |
| Watchdog.LatchIff | src/Werk/Threading/Watchdog.hpp:55-71 | the latch is up exactly when a poll saw a reset and none has come since |
| Watchdog.FiresOnlyLate | src/Werk/Threading/Watchdog.hpp:57-81 | in any run it fires only once all the allowed intervals and one more have passed since the last poll that was the first or saw a reset |
| Watchdog.FiresInTime | src/Werk/Threading/Watchdog.hpp:57-81 | in any run polled at least once an interval since a poll that saw a reset, with no reset since, it fires at exactly the first poll past them, within one interval more |
| Watchdog.Watchdog.Reset | src/Werk/Threading/Watchdog.hpp:55 | clears the latch |
| Watchdog.Watchdog.Execute | src/Werk/Threading/Watchdog.hpp:57-81 | one poll, executing the action exactly when it fires |

## Left out

- Series.TimeSeries.Csv: requires that every time cell is a number in range, because `std::stoll` throws otherwise and nothing in the repository catches it; overflow of the scaled time is excluded for the same reason.
- Replayer.TimeSeriesReplayer.AddDataSource: series that share a parser or an underlying series are not modelled, nor is a file with a time cell that cannot be converted in a row the replay would never reach.
- Windows.WeightedSummaryStatistics.Sample: requires a nonzero total weight, since the C++ divides by it; infinities and NaN are not part of the model.
- Order.OrderStatistics.FractileAt: requires a fraction below 1, the exact condition of `Order.RankInBounds`; sorting writes a sorted sequence instead of swapping elements in place, and samples are unsigned integers, so the NaN filter is left out.
- Scheduler.Scheduler.Execute: requires that the pass ends, the exact condition of `Schedule.PassTerminatesIff`; actions that schedule or change tasks while it runs are not modelled.
- Profiles.Profile.Stop: the difference of times exactly 2^63 apart, whose negation overflows in C++, is taken modulo 2^64 like any other.
- ConsoleObjects.IpcConsoleClient.Send: the 252-byte text buffer is modelled by its cut, not byte by byte; a message's time is whatever the sender put there.
- AsyncLog.AsyncLog.LogRaw: of a message's level only whether it is the JSON one is kept, and the formatting of `log` is not modelled.
- Reload.ReloadReaches: each lookup is one step, so a string pointer kept across two reloads, which the next load may clear, is not covered; the lists of sources and configurables are fixed during a run.
- Console.LossyProtocol: with several clients under one process id over a queue that loses messages, which messages are reported is not stated.
- Unsigned sums in windows over integer values, the square root in correlation and standard deviation, exponential averages, and floating-point rounding.
- PCAP files, file handles, JSON formatting, logging levels, threads and memory ordering: a file is its text, a log is the list of its lines.
- Wrap-around of 64-bit clocks, and of the timeout added to them, in the replayer and the watchdog.
- The application context, command dispatch, action variants, latches as such, units, bit and id utilities, scoped configuration, distributions and timers: wiring, or helpers without state that lasts from call to call.
