# Patriot Logger proximity core in Dafny

Patriot Logger times runners passing a Bluetooth Low Energy tag reader. Every received
advertisement carries an RSSI reading, and the app drives each tag pass through the
lifecycle FIRST_SAMPLE, TOO_FAR, APPROACHING, HERE, LOGGED, with TIMED_OUT for passes that
go silent. A desktop test driver replays recorded calibration files through several
detection handlers and writes one JSON result file per recording. Python scripts classify
the recordings and plot the handlers against each other.

This project models the deterministic decision logic of that system as pure Dafny functions
over immutable datatypes and proves properties of it:

- the tag state enum and its Room string converter (`TagStates`);
- the app's tag processor (`TagProcessing`), the bounded calibration buffer
  (`CalibrationBus`), the filter factory (`FilterFactory`) and the peak finder
  (`PeakFinding`);
- the RSSI ingest filters and the filter chain the driver applies (`IngestFilters`, with
  the medians in `Medians` and `Sorting`);
- the test handlers: non-consecutive threshold, time-based exit, the rise/fall finite
  state machine with its median variant, and the robust median-EMA handler
  (`ThresholdHandlers`, `MedianHandler`, `RobustHandler`);
- the pure helpers of the scanner service: tag id parsing, labels, time formatting, the
  timeout sweep, notification de-duplication, filter gating and handler pruning
  (`ScannerService`);
- the CSV exporter, with a reader for section 2 of RFC 4180 as its partner (`CsvExport`);
- the driver's CSV ingest, `DataParser`, filter chain, transition recording, nearest
  timestamp lookup, and the JSON it writes (`CsvIngest`, `Driver`, `ResultJson`);
- the plotting scripts' decisions, without the drawing: labels, loading, grouping, grid
  and page placement, marker resolution, the miss marker, the legend and its show/hide
  toggle, the file id and focus filter, and the sample scripts' reader, Hand/Shoe split
  and facet counts (`PyValues`, `ResultPlots`, `GridPlot`, `PagedPlot`, `SamplePlots`).

Java `float` and `double` values are Dafny `real`s; Java exceptions and null dereferences
are `None` results; mutable Java objects are values that each operation returns anew.
The entity classes do not declare every field the logic reads: TagStatus has no
`highestRssi` and TagData has `entryTimeMs` where CsvExporter and TagPeakFinder
(`peakSample.timestampMs`, TagPeakFinder.java:50) read `timestampMs`. The model follows the
code that reads the fields and gives its records those fields; `PeakFinding.FindPeak`
reports the peak sample's `entryTimeMs`, the one time field TagData declares.

## Model

| member | source | states |
|---|---|---|
| TagStates.ValueOf | app/src/main/java/com/patriotlogger/logger/data/TagStatus.java:15-22 | `valueOf` returns only a constant whose declared name is the given string; any other string is the IllegalArgumentException case (`None`) |
| TagStates.StateToString | app/src/main/java/com/patriotlogger/logger/data/TagStatusStateConverter.java:12-15 | null is stored as null, and a state as its constant name |
| TagStates.StateFromString | app/src/main/java/com/patriotlogger/logger/data/TagStatusStateConverter.java:7-10 | null reads back as null; a string raises exactly when it is no constant's name; a state read back is the one whose name was stored |
| TagStates.ValueOfName | app/src/main/java/com/patriotlogger/logger/data/TagStatus.java:15-22 | `valueOf` recognises the name of every one of the six constants |
| TagStates.ConverterRoundTrip | app/src/main/java/com/patriotlogger/logger/data/TagStatusStateConverter.java:7-15 | reading back what `toString` stored gives the original state, for all six states and for null |
| TagStates.NameInjective | app/src/main/java/com/patriotlogger/logger/data/TagStatus.java:15-22 | two different states are never stored under the same name |
| TagStates.NewTagStatus | app/src/main/java/com/patriotlogger/logger/data/TagStatus.java:56-65 | a new pass is last seen at its entry time, starts in the given state, with peak -500 and EMA 0 |
| TagProcessing.LoggedStaysOutOfProcess | app/src/main/java/com/patriotlogger/logger/data/TagStatus.java:67-69 | `isInProcess` is false only for LOGGED, and a pass that is no longer in process stays out of process whatever readings follow |
| TagStates.AdvancesTransitive | app/src/main/java/com/patriotlogger/logger/data/TagStatus.java:15-22 | moving forward along FIRST_SAMPLE, APPROACHING, HERE, LOGGED is transitive |
| TagStates.HandlerAdvancesTransitive | app/src/main/java/com/patriotlogger/logger/data/TagStatus.java:15-22 | moving forward along TOO_FAR, APPROACHING, HERE, LOGGED is transitive |
| Samples.RssiOf | app/src/test/java/com/patriotlogger/logger/test/OutlierDeltaFilter.java:41-43 | the RSSI list holds each sample's reading at the same position |
| Settings.DefaultSetting | app/src/main/java/com/patriotlogger/logger/data/Setting.java:14-91 | a fresh setting carries the arrival threshold -70, the approach threshold -90 and the filter range -105..-25 |
| Sorting.Insert | app/src/test/java/com/patriotlogger/logger/test/MedianRssiHandler.java:30 | inserting one element gives one more element and the same multiset plus that element |
| Sorting.Sort | app/src/test/java/com/patriotlogger/logger/test/MedianRssiHandler.java:30 | a sort keeps the length and is a permutation of its input |
| Sorting.SortSorted | app/src/test/java/com/patriotlogger/logger/test/MedianRssiHandler.java:30 | under any total preorder, the sort's output is ordered |
| Sorting.InsertSorted | app/src/test/java/com/patriotlogger/logger/test/MedianRssiHandler.java:30 | inserting into an ordered list keeps it ordered |
| Sorting.SortStable | scripts/plot_result3.py:86-87 | the sort is stable: for every key, the elements with that key leave in the order they came in |
| Sorting.SortInts | app/src/test/java/com/patriotlogger/logger/test/OutlierDeltaFilter.java:44 | sorting integers gives an ascending permutation of them |
| Medians.CountPermutation | app/src/test/java/com/patriotlogger/logger/test/OutlierDeltaFilter.java:41-44 | how many elements meet a condition does not depend on their order |
| Medians.MiddleIsMedian | app/src/test/java/com/patriotlogger/logger/test/OutlierDeltaFilter.java:45-46 | any value between the two middle elements of the sorted copy has at least half the window on either side and lies within the window's range |
| Medians.FloorMedian | app/src/test/java/com/patriotlogger/logger/test/OutlierDeltaFilter.java:39-47 | the integer median has at least half the window at or below it and at least half at or above it, and lies between the window's minimum and maximum; in every ascending ordering of the window it is the middle element for an odd count and the floor of the two middle elements' mean for an even count |
| Medians.MeanMedian | app/src/test/java/com/patriotlogger/logger/test/MedianRssiHandler.java:26-33 | the real median has at least half the window at or below it and at least half at or above it, and lies between the window's minimum and maximum; in every ascending ordering of the window it is the middle element for an odd count and the exact mean of the two middle elements for an even count |
| Medians.AscendingUnique | app/src/test/java/com/patriotlogger/logger/test/MedianRssiHandler.java:26-33 | two ascending orderings of the same readings are the same sequence, so the middle elements the medians read do not depend on how the window was sorted |
| Medians.AscendingCopiesAreSorted | app/src/test/java/com/patriotlogger/logger/test/OutlierDeltaFilter.java:39-47 | every ascending ordering of the window is the sorted copy the median reads |
| Medians.FloorMiddleIsMedian | app/src/test/java/com/patriotlogger/logger/test/OutlierDeltaFilter.java:39-47 | the floored middle of the sorted window has at least half the window on either side, lies within its range, and is the same for every ascending ordering of the window |
| Medians.MeanMiddleIsMedian | app/src/test/java/com/patriotlogger/logger/test/MedianRssiHandler.java:26-33 | the exact middle of the sorted window has at least half the window on either side, lies within its range, and is the same for every ascending ordering of the window |
| Medians.SingletonMedian | app/src/test/java/com/patriotlogger/logger/test/MedianRssiHandler.java:31-32 | the median of a single reading is that reading |
| TagProcessing.Ema | app/src/main/java/com/patriotlogger/logger/logic/TagProcessor.java:23-25 | the moving average moves from the old value toward the new reading by the fraction alpha, and stays between the two for alpha in [0, 1] |
| TagProcessing.ProcessSample | app/src/main/java/com/patriotlogger/logger/logic/TagProcessor.java:28-68 | a reading at or below the approaching threshold changes nothing; a visible one stamps last-seen, updates the EMA and can only raise the peak; a visible reading takes a new or approaching pass to APPROACHING or HERE; only a HERE pass can be logged, and a HERE pass stays HERE or is logged; the pass enters HERE exactly when the EMA reaches the arrived threshold and leaves it for LOGGED, stamping the exit, exactly when the EMA drops below; identity never changes and the state only moves forward; the step fails exactly when it unboxes a null setting |
| TagProcessing.ProcessAllMonotone | app/src/main/java/com/patriotlogger/logger/logic/TagProcessor.java:28-68 | over any run of readings the state only moves forward, the peak never drops and the pass keeps its identity |
| TagProcessing.FirstStrongReadingArrives | app/src/main/java/com/patriotlogger/logger/logic/TagProcessor.java:40-58 | with the default settings a new pass first seen at -60 dBm is promoted and arrives in the same step |
| CalibrationBus.Append | app/src/main/java/com/patriotlogger/logger/data/CalibrationTagDataBus.java:24-36 | the new reading goes at the end, and past 10000 readings the oldest is dropped, so a bounded buffer stays bounded |
| CalibrationBus.ConsumeAll | app/src/main/java/com/patriotlogger/logger/data/CalibrationTagDataBus.java:39-48 | draining hands out every pending reading in arrival order and leaves the buffer empty |
| CalibrationBus.AppendAllKeepsNewest | app/src/main/java/com/patriotlogger/logger/data/CalibrationTagDataBus.java:24-36 | after any run of appends the buffer holds exactly the newest 10000 readings, oldest first |
| CalibrationBus.DrainAfterAppends | app/src/main/java/com/patriotlogger/logger/data/CalibrationTagDataBus.java:24-48 | draining after appends returns the last 10000 readings, and a second drain returns nothing |
| FilterFactory.Build | app/src/main/java/com/patriotlogger/logger/logic/filters/FilterFactory.java:22-49 | the chain is one bound filter whose floor is the override or -105 and whose ceiling is the override or -25, raised to the arrival threshold when that lies above it |
| FilterFactory.BuildMinIgnoresSettings | app/src/main/java/com/patriotlogger/logger/logic/filters/FilterFactory.java:26-28 | the settings never move the floor |
| FilterFactory.DefaultsBounds | app/src/main/java/com/patriotlogger/logger/logic/filters/FilterFactory.java:26-42 | passing the default overrides equals passing none, giving -105 and max(-25, arrival threshold) |
| FilterFactory.ArrivalReadingPasses | app/src/main/java/com/patriotlogger/logger/logic/filters/FilterFactory.java:36-44 | a reading exactly at the arrival threshold is never cut off by the ceiling |
| PeakFinding.Forward | app/src/main/java/com/patriotlogger/logger/logic/TagPeakFinder.java:70-74 | the forward pass starts at the first reading and mixes each later reading with the previous forward value by weight alpha |
| PeakFinding.Backward | app/src/main/java/com/patriotlogger/logger/logic/TagPeakFinder.java:76-80 | the backward pass ends at the last forward value and mixes each earlier forward value with the next backward value by weight alpha |
| PeakFinding.ZeroPhase | app/src/main/java/com/patriotlogger/logger/logic/TagPeakFinder.java:64-83 | the zero-phase output has one value per reading |
| PeakFinding.ZeroPhaseWithin | app/src/main/java/com/patriotlogger/logger/logic/TagPeakFinder.java:64-83 | for alpha in [0, 1] every smoothed value lies within the range of the raw readings |
| PeakFinding.FirstMaxUnique | app/src/main/java/com/patriotlogger/logger/logic/TagPeakFinder.java:38-45 | there is at most one first index of the largest value |
| PeakFinding.ScanMax | app/src/main/java/com/patriotlogger/logger/logic/TagPeakFinder.java:38-45 | the scan reports no index exactly when no value exceeds -Double.MAX_VALUE, and otherwise an index holding the largest value; ties keep the earliest index |
| PeakFinding.FindPeak | app/src/main/java/com/patriotlogger/logger/logic/TagPeakFinder.java:29-54 | fewer than three readings give null; a null alpha raises; otherwise the peak is null exactly when no smoothed value exceeds -Double.MAX_VALUE, and else it reports the timestamp and smoothed value at the first index of the largest smoothed value |
| PeakFinding.PeakFoundForIntReadings | app/src/main/java/com/patriotlogger/logger/logic/TagPeakFinder.java:29-54 | with three or more readings in Java's int range and alpha in [0, 1], a peak is always found and its value lies within the readings' range |
| PeakFinding.HumpPeaksAtCentre | app/src/main/java/com/patriotlogger/logger/logic/TagPeakFinder.java:29-54 | a symmetric hump of readings peaks at its centre reading's timestamp |
| PeakFinding.FlatTopPeaksAtMiddle | app/src/main/java/com/patriotlogger/logger/logic/TagPeakFinder.java:29-54 | a flat top of three equal readings peaks at the middle one after smoothing |
| PeakFinding.TooFewSamples | app/src/main/java/com/patriotlogger/logger/logic/TagPeakFinder.java:30-32 | two readings are too few for a peak |
| IngestFilters.MinMaxProperties | app/src/main/java/com/patriotlogger/logger/logic/filters/MinMaxRssiFilter.java:10-12 | the bound filter ignores the timestamp, accepts both bounds when they are ordered, and rejects everything when they are crossed |
| IngestFilters.NewMinConsecutive | app/src/test/java/com/patriotlogger/logger/test/MinConsecutiveFilter.java:11-13 | a new step limiter has no previous reading and a step of at least 1 |
| IngestFilters.NewOutlierDelta | app/src/test/java/com/patriotlogger/logger/test/OutlierDeltaFilter.java:17-20 | a new outlier filter has an empty history and both knobs raised to at least 1 |
| IngestFilters.ShouldAccept | app/src/test/java/com/patriotlogger/logger/test/OutlierDeltaFilter.java:23-37 | a range filter accepts exactly the readings inside its inclusive bounds; the step limiter accepts the first reading and then exactly those within the step of the last accepted one, remembering it; the outlier filter accepts while its history is short and then exactly those within the limit of the history's median, sliding the window; a rejection leaves the filter unchanged |
| IngestFilters.RangeDescriptionRoundTrip | app/src/test/java/com/patriotlogger/logger/test/RssiRangeFilter.java:23-25 | a range filter's description can be read back into both of its bounds |
| IngestFilters.Consult | app/src/test/java/com/patriotlogger/logger/test/DriverMain.java:216-218 | one sample through a chain keeps one state per filter |
| IngestFilters.ConsultSpec | app/src/test/java/com/patriotlogger/logger/test/DriverMain.java:214-220 | a sample passes the chain exactly when every filter accepts it, and only the filters consulted before the first rejection change state |
| IngestFilters.RunChain | app/src/test/java/com/patriotlogger/logger/test/DriverMain.java:213-221 | the filtered list is no longer than the input |
| IngestFilters.ApplyFilters | app/src/test/java/com/patriotlogger/logger/test/DriverMain.java:211-222 | an empty chain returns the input as it is |
| IngestFilters.ApplyFiltersSubsequence | app/src/test/java/com/patriotlogger/logger/test/DriverMain.java:211-222 | the kept samples are some of the input samples, in input order |
| IngestFilters.RangeChainSelects | app/src/test/java/com/patriotlogger/logger/test/DriverMain.java:85-100 | a chain of range filters keeps exactly the samples inside every range, in order, and no filter changes |
| IngestFilters.MinConsecutiveBoundsSteps | app/src/test/java/com/patriotlogger/logger/test/MinConsecutiveFilter.java:16-29 | through a lone step limiter, neighbouring kept readings differ by at most the step, and the limiter ends remembering the last kept reading |
| ThresholdHandlers.NewNonConsecutive | app/src/test/java/com/patriotlogger/logger/test/NonConsecutiveThresholdHandler.java:13-22 | a new handler has the given threshold, needs at least one reading, starts with both counts zero and is TOO_FAR |
| ThresholdHandlers.ResetNonConsecutive | app/src/test/java/com/patriotlogger/logger/test/NonConsecutiveThresholdHandler.java:18-22 | re-initialising a handler in use is the same as building it afresh |
| ThresholdHandlers.NonConsecutiveStep | app/src/test/java/com/patriotlogger/logger/test/NonConsecutiveThresholdHandler.java:29-65 | outside HERE the handler enters HERE exactly when the strong readings reach the count needed, clearing the weak count, and otherwise approaches; in HERE it falls back to TOO_FAR exactly when the weak readings reach the count, clearing the strong count; every reading adds one to the strong or the weak count, which only those two transitions clear; a LOGGED handler never moves |
| ThresholdHandlers.RunNonConsecutive | app/src/test/java/com/patriotlogger/logger/test/NonConsecutiveThresholdHandler.java:29-65 | from a valid state the handler stays valid and never reaches LOGGED |
| ThresholdHandlers.NonConsecutiveBeforeHere | app/src/test/java/com/patriotlogger/logger/test/NonConsecutiveThresholdHandler.java:33-49 | until the needed strong readings have arrived, a fresh handler approaches and its counts are exactly the strong and the weak readings seen |
| ThresholdHandlers.NonConsecutiveEntersHere | app/src/test/java/com/patriotlogger/logger/test/NonConsecutiveThresholdHandler.java:41-50 | a fresh handler reaches HERE on the needed-th strong reading, however many weak readings came between |
| ThresholdHandlers.NewTimeExit | app/src/test/java/com/patriotlogger/logger/test/TimeBasedExitHandler.java:17-28 | a new handler keeps alpha and threshold, clamps a negative delay to 0, has no EMA and is TOO_FAR |
| ThresholdHandlers.TimeExitStep | app/src/test/java/com/patriotlogger/logger/test/TimeBasedExitHandler.java:36-64 | the first reading seeds the EMA and each later one mixes in with weight alpha, moving it toward the reading; outside HERE the handler enters HERE exactly when the EMA reaches the threshold, stamping the start, else approaches; HERE turns LOGGED only once the delay has passed since the start; the state only moves forward |
| ThresholdHandlers.RunTimeExit | app/src/test/java/com/patriotlogger/logger/test/TimeBasedExitHandler.java:36-64 | over any run the knobs stay fixed, the state only moves forward and a valid handler stays valid |
| ThresholdHandlers.TimeExitLogsAfterDelay | app/src/test/java/com/patriotlogger/logger/test/TimeBasedExitHandler.java:44-57 | when a fresh handler has logged, HERE began at the timestamp of one of the readings and a later reading came at least the delay after it |
| ThresholdHandlers.TimeExitHereStart | app/src/test/java/com/patriotlogger/logger/test/TimeBasedExitHandler.java:44-50 | while a fresh handler is HERE, HERE began at the timestamp of one of the readings |
| ThresholdHandlers.TimeExitEmaWithin | app/src/test/java/com/patriotlogger/logger/test/TimeBasedExitHandler.java:38-39 | with alpha in [0, 1] the EMA never leaves the range of the readings fed to it |
| MedianHandler.FreshFsm | app/src/test/java/com/patriotlogger/logger/test/AbstractRssiHandler.java:35-42 | after init the machine is TOO_FAR with no counts, no previous value and no top seen |
| MedianHandler.SlopeStep | app/src/test/java/com/patriotlogger/logger/test/AbstractRssiHandler.java:50-99 | the first value is only remembered; later a rise counts up and clears the falls, a fall counts up; the top mark is set exactly by a fall while approaching and is never cleared; TOO_FAR approaches once the value is at least -90 after three rises, APPROACHING arrives exactly when a top was seen and the value is at least -80, HERE logs exactly when two falls have been counted; each change moves one state forward |
| MedianHandler.RunFsm | app/src/test/java/com/patriotlogger/logger/test/AbstractRssiHandler.java:50-99 | over any run of values the rise count never drops and the state only moves forward |
| MedianHandler.RisingCountsAllRises | app/src/test/java/com/patriotlogger/logger/test/AbstractRssiHandler.java:58-62 | because a fall never clears it, the rise count after init counts every rise seen, not only consecutive ones |
| MedianHandler.RisesSurviveFalls | app/src/test/java/com/patriotlogger/logger/test/AbstractRssiHandler.java:58-62 | a rise, a fall and another rise leave a count of two rises |
| MedianHandler.NewMedianRssi | app/src/test/java/com/patriotlogger/logger/test/MedianRssiHandler.java:16-23 | a new handler has a window of at least 1, an empty buffer and a fresh machine |
| MedianHandler.Push | app/src/test/java/com/patriotlogger/logger/test/MedianRssiHandler.java:27-28 | the reading goes at the end of the buffer, dropping the oldest when the window is full |
| MedianHandler.MedianSmooth | app/src/test/java/com/patriotlogger/logger/test/MedianRssiHandler.java:26-34 | the smoothed value has at least half the window at or below it and at least half at or above it, and lies within the window's range; in every ascending ordering of the window it is the middle element for an odd count and the mean of the two middle elements for an even count |
| MedianHandler.MedianStep | app/src/test/java/com/patriotlogger/logger/test/MedianRssiHandler.java:26-34 | a reading is pushed into the window and the machine steps on the window's median |
| MedianHandler.RunMedian | app/src/test/java/com/patriotlogger/logger/test/MedianRssiHandler.java:26-34 | over any run the window size is kept, the buffer never exceeds it and the state only moves forward |
| MedianHandler.WindowIsLastReadings | app/src/test/java/com/patriotlogger/logger/test/MedianRssiHandler.java:27-28 | the window holds the last window-many readings, or all of them while fewer have arrived, oldest first |
| MedianHandler.MedianBufferIsWindow | app/src/test/java/com/patriotlogger/logger/test/MedianRssiHandler.java:26-34 | a fresh handler's buffer is the window of the readings it has been fed |
| RobustHandler.MaxWith | app/src/test/java/com/patriotlogger/logger/test/RobustMedianEmaHandler.java:123 | the larger of a value and a possibly infinite peak is at least both and is one of them |
| RobustHandler.NewRobustConfig | app/src/test/java/com/patriotlogger/logger/test/RobustMedianEmaHandler.java:51-65 | the thresholds are kept, the window and both counts are raised to at least 1, alpha is clamped to [0, 1] and the hysteresis to at least 0 |
| RobustHandler.DefaultRobustConfig | app/src/test/java/com/patriotlogger/logger/test/RobustMedianEmaHandler.java:47-49 | the default tunables are window 5, alpha 0.3, thresholds -90 and -85, three rises, two falls and 2 dB |
| RobustHandler.NewRobust | app/src/test/java/com/patriotlogger/logger/test/RobustMedianEmaHandler.java:67-77 | after init the handler is TOO_FAR with an empty window and no EMA |
| RobustHandler.NextEma | app/src/test/java/com/patriotlogger/logger/test/RobustMedianEmaHandler.java:86-88 | the first median seeds the EMA, later ones move it toward the median |
| RobustHandler.CountSlope | app/src/test/java/com/patriotlogger/logger/test/RobustMedianEmaHandler.java:96-103 | a rise counts up the rises and clears the falls, a fall counts up the falls and clears the rises, a flat step changes neither |
| RobustHandler.FromTooFar | app/src/test/java/com/patriotlogger/logger/test/RobustMedianEmaHandler.java:106-111 | TOO_FAR approaches exactly when the EMA reaches the approach threshold after enough rises, starting the approach peak at the EMA |
| RobustHandler.FromApproaching | app/src/test/java/com/patriotlogger/logger/test/RobustMedianEmaHandler.java:113-128 | while approaching the peak tracks the highest EMA; HERE comes exactly on a falling step once the EMA or the peak has reached the HERE threshold, with the HERE peak the larger of the two and at least one fall counted |
| RobustHandler.FromHere | app/src/test/java/com/patriotlogger/logger/test/RobustMedianEmaHandler.java:130-139 | in HERE the HERE peak only rises, and LOGGED comes exactly when enough falls have been counted and the EMA has dropped at least the hysteresis below the HERE peak |
| RobustHandler.RobustStep | app/src/test/java/com/patriotlogger/logger/test/RobustMedianEmaHandler.java:79-151 | each reading enters the window and its median the EMA; the first EMA only primes the slope; the counts follow the EMA's direction; the state only moves forward one step at a time, by the TOO_FAR, APPROACHING and HERE rules |
| RobustHandler.Transition | app/src/test/java/com/patriotlogger/logger/test/RobustMedianEmaHandler.java:105-147 | on a counted step the machine moves at most one state forward and touches only the peaks and, when arriving, the fall count |
| RobustHandler.RunRobust | app/src/test/java/com/patriotlogger/logger/test/RobustMedianEmaHandler.java:79-151 | over any run the handler stays valid, keeps its tunables and only moves forward |
| RobustHandler.RobustEmaWithin | app/src/test/java/com/patriotlogger/logger/test/RobustMedianEmaHandler.java:79-151 | the EMA of medians never leaves the range of the readings fed to it |
| ScannerService.TagIdOf | app/src/main/java/com/patriotlogger/logger/service/BleScannerService.java:319-329 | a tag id is reported only for a device name starting with "PT", and it is the 32-bit integer written after "PT" and one separator character; any other name, a missing record or a missing name gives null |
| ScannerService.TagIdRoundTrip | app/src/main/java/com/patriotlogger/logger/service/BleScannerService.java:319-329 | a name made of "PT", one separator and the decimal text of an int yields that int |
| ScannerService.PassesAll | app/src/main/java/com/patriotlogger/logger/service/BleScannerService.java:356-360 | a reading goes on exactly when every bound filter accepts it |
| ScannerService.DisplayLabel | app/src/main/java/com/patriotlogger/logger/service/BleScannerService.java:469-474 | a missing pass is "Unknown Tag"; otherwise the label starts with the name and " (#tag", ends with " Pass:track)" exactly when the pass has a track id and with "(#tag)" otherwise, and its length leaves room for nothing else between them |
| ScannerService.TwoDigits | app/src/main/java/com/patriotlogger/logger/service/BleScannerService.java:480 | the two-digit text of a value below 100 reads back as that value |
| ScannerService.FormatMmSs | app/src/main/java/com/patriotlogger/logger/service/BleScannerService.java:476-481 | a non-positive duration prints the placeholder; otherwise the text before the colon is the minutes within the hour printed as `%d` prints them, without leading zeros, and the two digits after it read back as the seconds within the minute |
| ScannerService.FormatDropsHours | app/src/main/java/com/patriotlogger/logger/service/BleScannerService.java:476-481 | a duration one hour longer prints the same |
| ScannerService.HandleUiUpdates | app/src/main/java/com/patriotlogger/logger/service/BleScannerService.java:399-415 | a message goes out exactly when the pass has a track id and either first approaches or newly becomes HERE; it names the pass and says "approaching..." or "passing..."; the remembered state changes only when a message goes out |
| ScannerService.AnnouncedOnce | app/src/main/java/com/patriotlogger/logger/service/BleScannerService.java:399-415 | announcing the same status twice in a row gives no second message |
| ScannerService.ApproachAnnouncedOnlyFirst | app/src/main/java/com/patriotlogger/logger/service/BleScannerService.java:403-406 | once any state of a track has been announced, its approach is never announced again |
| ScannerService.Sweep | app/src/main/java/com/patriotlogger/logger/service/BleScannerService.java:417-437 | every HERE pass unseen for longer than the timeout becomes TIMED_OUT with the exit stamped now, every other pass is untouched, and no pass is left abandoned |
| ScannerService.SweepIdempotent | app/src/main/java/com/patriotlogger/logger/service/BleScannerService.java:417-437 | a second sweep at the same instant changes nothing |
| ScannerService.NewTcaConfig | app/src/main/java/com/patriotlogger/logger/service/BleScannerService.java:97-118 | each of the eight settings the handler takes (tx power at 1 m, path-loss exponent, here distance, threshold seconds, window size, minimum points, approach distance, alpha) is the setting's value when present and its own default when null |
| ScannerService.NullKnobsMeanDefaults | app/src/main/java/com/patriotlogger/logger/service/BleScannerService.java:97-118 | a settings row of nulls configures the handler exactly as a fresh settings object |
| ScannerService.RebuildFilter | app/src/main/java/com/patriotlogger/logger/service/BleScannerService.java:120-127 | the rebuilt bound filter takes the row's bounds when present and -105 / -25 otherwise |
| ScannerService.NewService | app/src/main/java/com/patriotlogger/logger/service/BleScannerService.java:75-78 | a new service holds the default settings, their bound filter, no handlers and no announcements |
| ScannerService.ApplyCadences | app/src/main/java/com/patriotlogger/logger/service/BleScannerService.java:129-144 | a non-null cadence knob replaces the running value, a null one keeps it, and nothing else changes |
| ScannerService.ApplyCadencesIdempotent | app/src/main/java/com/patriotlogger/logger/service/BleScannerService.java:129-144 | applying a row twice is applying it once, and a row of nulls changes nothing |
| ScannerService.OnSettings | app/src/main/java/com/patriotlogger/logger/service/BleScannerService.java:158-169 | a null row is ignored; otherwise the row becomes current, the filter is rebuilt from it and every handler is dropped, while announcements are kept |
| ScannerService.FinishSample | app/src/main/java/com/patriotlogger/logger/service/BleScannerService.java:384-396 | after a reading the track holds a handler unless the pass is LOGGED or TIMED_OUT, no other track's handler changes, and the notification rule decides the message |
| ScannerService.SweepService | app/src/main/java/com/patriotlogger/logger/service/BleScannerService.java:417-437 | a sweep times out the abandoned passes, drops exactly their handlers and keeps the announcements |
| ScannerService.TimedOutNeverAnnounced | app/src/main/java/com/patriotlogger/logger/service/BleScannerService.java:426-432 | a pass that the sweep times out is never announced |
| Text.NatToString | app/src/test/java/com/patriotlogger/logger/test/DriverMain.java:340 | the decimal text of a number is a non-empty run of digits, without a leading zero, whose value is the number |
| Text.IntToString | app/src/main/java/com/patriotlogger/logger/util/CsvExporter.java:75-82 | a printed integer is non-empty and starts with a minus sign exactly when it is negative |
| Text.NumberChars | app/src/main/java/com/patriotlogger/logger/util/CsvExporter.java:75-82 | a printed integer holds only digits, apart from a leading minus sign on a negative number |
| Text.NoCommaInNumber | app/src/main/java/com/patriotlogger/logger/util/CsvExporter.java:75-82 | a printed integer never contains the CSV separator |
| Text.ParseJavaLong | app/src/test/java/com/patriotlogger/logger/test/DriverMain.java:323-326 | `Long.parseLong` on an optionally signed run of ASCII digits returns its value exactly when the value fits in 64 bits; any other text is rejected (ASCII digits only, see below) |
| Text.ParseJavaInt | app/src/test/java/com/patriotlogger/logger/test/DataParser.java:60-62 | `Integer.parseInt` on an optionally signed run of ASCII digits returns its value exactly when the value fits in 32 bits; any other text is rejected (ASCII digits only, see below) |
| Text.ParseIntToString | app/src/test/java/com/patriotlogger/logger/test/DriverMain.java:323-340 | parsing a printed integer gives the integer back |
| Text.ParseJavaLongToString | app/src/test/java/com/patriotlogger/logger/test/DriverMain.java:323-340 | `Long.parseLong` reads back every printed 64-bit value |
| Text.LeadingCount | app/src/test/java/com/patriotlogger/logger/test/DataParser.java:30 | the count covers exactly the maximal prefix of dropped characters |
| Text.TrailingCount | app/src/test/java/com/patriotlogger/logger/test/DataParser.java:30 | the count covers exactly the maximal suffix of dropped characters |
| Text.JavaTrim | app/src/test/java/com/patriotlogger/logger/test/DriverMain.java:363 | `trim()` removes exactly the leading and trailing characters up to U+0020: what is left is the part of the text after the leading run, neither end of it is such a character, and everything after it is |
| Text.PyStrip | scripts/plot_samples.py:57-58 | `strip()` removes exactly the leading and trailing whitespace characters in the same sense |
| Text.TrimUnspaced | app/src/test/java/com/patriotlogger/logger/test/DataParser.java:56-62 | `trim` leaves a string unchanged when it neither starts nor ends with a character up to U+0020 |
| Text.TrimNumber | app/src/test/java/com/patriotlogger/logger/test/DataParser.java:56-62 | a printed integer is its own trim |
| Text.PyStripEmptyIffAllSpace | scripts/plot_samples.py:26 | `strip()` leaves nothing exactly when every character is whitespace, in both directions |
| Text.LowerAscii | scripts/plot_samples.py:27 | lower-casing keeps the length and maps each character on its own |
| Text.Split | app/src/test/java/com/patriotlogger/logger/test/DriverMain.java:365 | `split(",", -1)` gives at least one piece and no piece contains the separator |
| Text.JoinSplit | app/src/test/java/com/patriotlogger/logger/test/DriverMain.java:383 | joining the pieces of a split with the separator gives the original line |
| Text.SplitJoin | app/src/main/java/com/patriotlogger/logger/util/CsvExporter.java:74-83 | splitting a join of separator-free pieces gives the pieces back |
| Text.JoinSnoc | app/src/main/java/com/patriotlogger/logger/util/CsvExporter.java:74-83 | appending one more piece adds one separator and the piece at the end |
| Text.JavaSplit | app/src/test/java/com/patriotlogger/logger/test/DataParser.java:37 | `split(",")` returns a prefix of the pieces `split(",", -1)` returns |
| Text.DropTrailingEmpty | app/src/test/java/com/patriotlogger/logger/test/DataParser.java:37 | the kept pieces are a prefix that ends in a non-empty piece, and every dropped piece is empty |
| Text.ReplaceCharAbsent | app/src/main/java/com/patriotlogger/logger/util/CsvExporter.java:112-118 | replacing a character that does not occur changes nothing |
| Text.CountCharAppend | app/src/main/java/com/patriotlogger/logger/util/CsvExporter.java:114-115 | occurrences of a character in a concatenation add up |
| Text.StrLeTotal | scripts/plot_result3.py:172-186 | Python's string order is total |
| Text.StrLeTrans | scripts/plot_result3.py:172-186 | Python's string order is transitive |
| CsvExport.Sanitize | app/src/main/java/com/patriotlogger/logger/util/CsvExporter.java:112-118 | null becomes empty, a value without comma or double quote is written as is, and any other value is enclosed in double quotes |
| CsvExport.QuotedRoundTrip | app/src/main/java/com/patriotlogger/logger/util/CsvExporter.java:114-115 | a value with its double quotes doubled and a closing quote reads back as the value, leaving the rest of the line |
| CsvExport.FieldRoundTrip | app/src/main/java/com/patriotlogger/logger/util/CsvExporter.java:112-118 | reading back a sanitized value gives the original text, whatever characters it holds |
| CsvExport.SanitizeRoundTrip | app/src/main/java/com/patriotlogger/logger/util/CsvExporter.java:112-118 | a sanitized value read as a one-field record gives the original value back |
| CsvExport.LineRoundTrip | app/src/main/java/com/patriotlogger/logger/util/CsvExporter.java:74-83 | a record of sanitized values joined by commas reads back as those values |
| CsvExport.DocumentRoundTrip | app/src/main/java/com/patriotlogger/logger/util/CsvExporter.java:66-85 | a file of records whose values hold no line feed reads back as those records, with one piece more than records when split at line feeds |
| CsvExport.GenerateSplitsCsv | app/src/main/java/com/patriotlogger/logger/util/CsvExporter.java:66-85 | the splits file starts with its header line, and a null or empty list gives the header line alone |
| CsvExport.SplitsHeaderLine | app/src/main/java/com/patriotlogger/logger/util/CsvExporter.java:19 | the splits header line is the encoding of its eight column names |
| CsvExport.SplitLineEncodes | app/src/main/java/com/patriotlogger/logger/util/CsvExporter.java:74-83 | each pass line is the encoding of the pass's eight values in header order, ended by a line feed |
| CsvExport.SplitsCsvEncodes | app/src/main/java/com/patriotlogger/logger/util/CsvExporter.java:66-85 | the splits file is the encoding of its header and each pass's values |
| CsvExport.SplitsCsvRoundTrip | app/src/main/java/com/patriotlogger/logger/util/CsvExporter.java:66-85 | the splits file reads back as the header followed by each pass's eight values in header order, one line per pass, provided no friendly name holds a line feed |
| CsvExport.NumberText | app/src/main/java/com/patriotlogger/logger/util/CsvExporter.java:75-82 | a number's decimal text needs no quoting and holds no line feed |
| CsvExport.StatePlain | app/src/main/java/com/patriotlogger/logger/util/CsvExporter.java:78 | a state's name needs no quoting and holds no line feed |
| CsvExport.NumericCsvRoundTrip | app/src/main/java/com/patriotlogger/logger/util/CsvExporter.java:90-105 | a plain header followed by records of numbers reads back as the header and the decimal text of each number |
| CsvExport.GenerateDataCsv | app/src/main/java/com/patriotlogger/logger/util/CsvExporter.java:90-105 | the data file starts with its header line, and a null or empty list gives the header line alone |
| CsvExport.DataRowsMisaligned | app/src/main/java/com/patriotlogger/logger/util/CsvExporter.java:20-103 | every reading line holds four values under a five-column header, and the column headed timestampMs holds the reading's rssi |
| CsvExport.TaggedDataCsvRoundTrip | app/src/main/java/com/patriotlogger/logger/util/CsvExporter.java:20-103 | with the tag id written, every reading line has the header's five columns and the tag id, timestamp and rssi each sit under their own names |
| CsvExport.GenerateCsvFiles | app/src/main/java/com/patriotlogger/logger/util/CsvExporter.java:44-61 | two files, splits then data, share the export timestamp in their names and count the passes and the readings given |
| CsvExport.CsvFilesLineCounts | app/src/main/java/com/patriotlogger/logger/util/CsvExporter.java:44-61 | each file has its header line and one line per counted row, provided no friendly name holds a line feed |
| CsvExport.GenerateTaggedDataCsv | app/src/main/java/com/patriotlogger/logger/util/CsvExporter.java:20-105 | the corrected data file starts with the five-column header line |
| CsvIngest.LastMatch | app/src/test/java/com/patriotlogger/logger/test/DriverMain.java:366-372 | the index found for a column is the last header cell carrying one of its names, or -1 when no cell does |
| CsvIngest.ScanCellTakes | app/src/test/java/com/patriotlogger/logger/test/DriverMain.java:367-371 | a header cell can give its index only to a column whose name list holds the cell's name; the other columns keep their index |
| CsvIngest.ScanHeaderIsLastMatch | app/src/test/java/com/patriotlogger/logger/test/DriverMain.java:366-372 | because the four name lists share no name, the header loop (`ScanHeader`) sets every column to the last cell whose trimmed, lower-cased name is one of its names, and to -1 when there is none |
| CsvIngest.FirstNonBlank | app/src/test/java/com/patriotlogger/logger/test/DriverMain.java:362-375 | the header is the first line that is not blank once trimmed, and every line before it is blank |
| CsvIngest.OptionalInt | app/src/test/java/com/patriotlogger/logger/test/DriverMain.java:388-395 | the tag id and smoothed cells give their parsed value when present, non-blank and parsable, and the default otherwise |
| CsvIngest.ReadRow | app/src/test/java/com/patriotlogger/logger/test/DriverMain.java:380-397 | a row is kept exactly when it is non-blank, reaches both the timestamp and RSSI columns and both parse; then it carries those values, tag id 0 and smoothed value equal to the RSSI when those cells are missing |
| CsvIngest.ReadRows | app/src/test/java/com/patriotlogger/logger/test/DriverMain.java:380-398 | the rows read are at most the data lines |
| CsvIngest.ReadSamplesFromResource | app/src/test/java/com/patriotlogger/logger/test/DriverMain.java:356-403 | the read fails exactly when there is no non-blank line or the header names no timestamp or no RSSI column; otherwise it reads at most the lines after the header |
| CsvIngest.ReadRowsAppend | app/src/test/java/com/patriotlogger/logger/test/DriverMain.java:380-398 | reading goes line by line, so reading two blocks of lines is reading each and concatenating |
| CsvIngest.BlankRowIgnored | app/src/test/java/com/patriotlogger/logger/test/DriverMain.java:381-382 | a blank data line anywhere changes nothing |
| CsvIngest.ReadRowText | app/src/test/java/com/patriotlogger/logger/test/DriverMain.java:383-396 | a sample printed as a row under the standard header reads back as the same sample |
| CsvIngest.ReadRowsText | app/src/test/java/com/patriotlogger/logger/test/DriverMain.java:380-398 | printed rows of samples read back as the same samples, in order |
| CsvIngest.ResourceRoundTrip | app/src/test/java/com/patriotlogger/logger/test/DriverMain.java:356-403 | writing samples under the timestamp,tagid,rssi,smoothedrssi header and reading the file gives the samples back |
| CsvIngest.ParseLongSafe | app/src/test/java/com/patriotlogger/logger/test/DataParser.java:56-58 | the trimmed text's long value when it parses, 0 otherwise |
| CsvIngest.ParseIntSafe | app/src/test/java/com/patriotlogger/logger/test/DataParser.java:60-62 | the trimmed text's int value when it parses, the default otherwise |
| CsvIngest.ParserRow | app/src/test/java/com/patriotlogger/logger/test/DataParser.java:37-50 | a line is kept exactly when split(",") leaves at least three cells and the RSSI, read with default -127, lies in [-127, 0]; the sample then has the parsed timestamp, tag id and RSSI and smoothed value 0 |
| CsvIngest.ParserRows | app/src/test/java/com/patriotlogger/logger/test/DataParser.java:29-51 | every sample read has an RSSI in [-127, 0] and smoothed value 0, and there are at most as many samples as lines |
| CsvIngest.ReadSamples | app/src/test/java/com/patriotlogger/logger/test/DataParser.java:24-54 | every sample read has an RSSI in [-127, 0] and smoothed value 0; a file of blank lines gives nothing, and the header line is never a sample |
| CsvIngest.ParserLoop | app/src/test/java/com/patriotlogger/logger/test/DataParser.java:28-51 | the loop yields at most one sample per line, each with an RSSI in [-127, 0], and none while the header is still due and only blank lines remain |
| CsvIngest.ReadSamplesSkipsHeader | app/src/test/java/com/patriotlogger/logger/test/DataParser.java:24-54 | the first non-blank line is skipped as the header whatever it holds, and every later line is read as data |
| CsvIngest.UnparsedRssiKept | app/src/test/java/com/patriotlogger/logger/test/DataParser.java:42-46 | an RSSI cell that does not parse is read as -127 and the row is kept |
| CsvIngest.TrailingEmptyRssiSkipsRow | app/src/test/java/com/patriotlogger/logger/test/DataParser.java:37-38 | an empty RSSI cell at the end of the line is dropped by split(","), so the row is skipped |
| CsvIngest.ParserRowAgrees | app/src/test/java/com/patriotlogger/logger/test/DataParser.java:37-50 | on a row under the standard header with RSSI in [-127, 0] DataParser reads the driver's sample except that the smoothed value becomes 0 |
| Driver.CutAtOrBefore | app/src/test/java/com/patriotlogger/logger/test/DriverMain.java:224-231 | the cut is a prefix of the samples, all at or before the cutoff, and it stops exactly at the first sample after the cutoff |
| Driver.CutOfOrderedIsFilter | app/src/test/java/com/patriotlogger/logger/test/DriverMain.java:224-231 | on samples in time order the cut keeps exactly the samples at or before the cutoff |
| Driver.CutIsNotFilter | app/src/test/java/com/patriotlogger/logger/test/DriverMain.java:228 | out of time order a sample at or before the cutoff that follows a later one is lost |
| Driver.Record | app/src/test/java/com/patriotlogger/logger/test/TestResult.java:12-14 | recording keeps the first timestamp of a state and leaves every other state alone |
| Driver.RecordIdempotent | app/src/test/java/com/patriotlogger/logger/test/TestResult.java:12-14 | recording a state a second time changes nothing |
| Driver.GetOrX | app/src/test/java/com/patriotlogger/logger/test/TestResult.java:16-19 | the text is "X" exactly when the state was never recorded, and otherwise reads back as its first timestamp |
| Driver.ParseLongOrNull | app/src/test/java/com/patriotlogger/logger/test/DriverMain.java:323-326 | null and "X" give null; any other text gives what Long.parseLong gives, a 64-bit value that is the text's decimal value |
| Driver.GetOrXParsesBack | app/src/test/java/com/patriotlogger/logger/test/DriverMain.java:145-151 | what getOrX writes, parseLongOrNull reads back to the recorded timestamp or to null |
| Driver.RecordTransitions | app/src/test/java/com/patriotlogger/logger/test/DriverMain.java:121-142 | the loop ends remembering the last returned state and records only APPROACHING, HERE and LOGGED |
| Driver.TransitionsRecordFirstOccurrence | app/src/test/java/com/patriotlogger/logger/test/DriverMain.java:121-142 | APPROACHING, HERE and LOGGED are recorded exactly when the handler returned them at least once, each with the timestamp of the first sample that returned it |
| Driver.RecordStep | app/src/test/java/com/patriotlogger/logger/test/DriverMain.java:134-141 | one more returned state records a not yet recorded pinned state, with its timestamp, exactly when it differs from the previous one, and keeps every recorded timestamp |
| Driver.Init | app/src/test/java/com/patriotlogger/logger/test/DriverMain.java:119 | init gives a valid handler in TOO_FAR |
| Driver.Accept | app/src/test/java/com/patriotlogger/logger/test/DriverMain.java:124 | accepting a sample keeps the handler valid and keeps its tunables, so init afterwards gives the same handler |
| Driver.RunHandler | app/src/test/java/com/patriotlogger/logger/test/DriverMain.java:123-142 | a run of samples keeps the handler valid and its tunables unchanged |
| Driver.StatesOf | app/src/test/java/com/patriotlogger/logger/test/DriverMain.java:123-124 | the driver sees one returned state per sample |
| Driver.DetectPeakTs | app/src/test/java/com/patriotlogger/logger/test/DriverMain.java:328-342 | fewer than three samples give "X", and any other answer is the decimal timestamp of one of the samples; from three samples on, the answer is "X" exactly when no zero-phase EMA value (alpha 0.30) exceeds the lowest double, and otherwise it is the timestamp of the first sample where that EMA is largest |
| Driver.PeakFoundFromThreeSamples | app/src/test/java/com/patriotlogger/logger/test/DriverMain.java:328-342 | with three or more samples of int readings a peak time is always found |
| Driver.TsMap | app/src/test/java/com/patriotlogger/logger/test/DriverMain.java:103-108 | the map has one key for each distinct sample timestamp |
| Driver.TsMapLastWins | app/src/test/java/com/patriotlogger/logger/test/DriverMain.java:105-106 | a later sample with the same timestamp overwrites, so each key maps to the reading of the last sample carrying it |
| Driver.InsertionPoint | app/src/test/java/com/patriotlogger/logger/test/DriverMain.java:305-307 | the insertion point of an absent timestamp splits the sorted list into those below it and those above it |
| Driver.Nearest | app/src/test/java/com/patriotlogger/logger/test/DriverMain.java:304-317 | the timestamp chosen for an absent one is listed, no listed timestamp is nearer, and no equally near one is earlier |
| Driver.PointForState | app/src/test/java/com/patriotlogger/logger/test/DriverMain.java:299-321 | null, "X" or an unparsable time give the null point; a mapped time gives its own reading; an unmapped time uses the nearest listed timestamp; any resolved point is a mapped timestamp's offset from the epoch and its reading |
| Driver.PointFoundForSamples | app/src/test/java/com/patriotlogger/logger/test/DriverMain.java:299-321 | with the map and the sorted list built from the same samples, every parsable time is pinned to a real reading |
| Driver.EvaluateHandler | app/src/test/java/com/patriotlogger/logger/test/DriverMain.java:144-165 | when the handler never recorded LOGGED, the peak pin is null |
| Driver.RecordedFirstEntry | app/src/test/java/com/patriotlogger/logger/test/DriverMain.java:121-142 | the recording loop keeps a pinned state exactly when the handler returned it, with the timestamp of the first sample that returned it |
| Driver.PinOfFirstEntry | app/src/test/java/com/patriotlogger/logger/test/DriverMain.java:145-158 | a state's pin, read back through getOrX and parseLongOrNull, is the point of its first entry's timestamp, and it holds a reading exactly when the handler returned the state |
| Driver.EvaluatePinsFirstEntries | app/src/test/java/com/patriotlogger/logger/test/DriverMain.java:144-165 | the APPROACHING, HERE and LOGGED pins are the points of each state's first entry, holding a reading exactly when the handler returned that state; the peak pin is the point of the peak found among the samples cut at the first LOGGED timestamp, or null when there was none |
| Driver.EvaluatePeakPin | app/src/test/java/com/patriotlogger/logger/test/DriverMain.java:149-159 | the peak is searched for only among the samples up to the first LOGGED timestamp, and its pin is null when the handler never returned LOGGED |
| Driver.EvaluateForgetsHistory | app/src/test/java/com/patriotlogger/logger/test/DriverMain.java:119-142 | a handler's earlier files leave nothing behind, because init resets it before each file |
| ResultJson.TwoPassEscape | app/src/test/java/com/patriotlogger/logger/test/DriverMain.java:287 | replacing backslashes and then quotes is the same as escaping each character once |
| ResultJson.Escape | app/src/test/java/com/patriotlogger/logger/test/DriverMain.java:287 | escaping leaves a text without backslash or quote as it is, never shortens a text and at most doubles it; it keeps the length only for such a text |
| ResultJson.Q | app/src/test/java/com/patriotlogger/logger/test/DriverMain.java:285-289 | null becomes the bare word null; any other name becomes a quoted string whose inside is its escaped form |
| ResultJson.QPlain | app/src/test/java/com/patriotlogger/logger/test/DriverMain.java:285-289 | a name with no backslash and no quote is written in quotes unchanged |
| ResultJson.QRoundTrip | app/src/test/java/com/patriotlogger/logger/test/DriverMain.java:285-289 | a quoted name without control characters reads back as that name under the string rules of section 7 of RFC 8259 |
| ResultJson.ControlCharBreaksJson | app/src/test/java/com/patriotlogger/logger/test/DriverMain.java:287 | control characters are not escaped, so a name holding a line break gives text that is not a JSON string |
| ResultJson.NameIndex | app/src/test/java/com/patriotlogger/logger/test/DriverMain.java:112-113 | the first entry of the given name, or the length when no entry has that name |
| ResultJson.PutAlgo | app/src/test/java/com/patriotlogger/logger/test/DriverMain.java:167-168 | insertion-ordered put keeps names distinct: a name seen before keeps its place and gets the new value, and a new name goes at the end |
| ResultJson.PointDoc | app/src/test/java/com/patriotlogger/logger/test/DriverMain.java:280-283 | a pin is an object with keys t and rssi, both null exactly when either field is missing, and otherwise the two numbers |
| ResultJson.PointJson | app/src/test/java/com/patriotlogger/logger/test/DriverMain.java:280-283 | pointJson writes exactly the rendering of that pin object |
| ResultJson.AlgoDoc | app/src/test/java/com/patriotlogger/logger/test/DriverMain.java:257-273 | a handler's object has keys APPROACHING, HERE, LOGGED, PEAK and line, four pin objects and one line item per line point |
| ResultJson.ResultDocLayout | app/src/test/java/com/patriotlogger/logger/test/DriverMain.java:234-278 | the document has keys sampleFile, baseTs, series and algorithms in that order; one series item per filtered sample with time relative to BASE_TS and the reading; one object per handler in insertion order |
| ResultJson.SampleText | app/src/test/java/com/patriotlogger/logger/test/DriverMain.java:246-247 | a series item as written is the rendering of the object {t, rssi} |
| ResultJson.LineText | app/src/test/java/com/patriotlogger/logger/test/DriverMain.java:269 | a line item as written is the rendering of the object {t, v} |
| ResultJson.CommaAfter | app/src/test/java/com/patriotlogger/logger/test/DriverMain.java:244-249 | writing each item followed by a comma unless it is the last gives the items joined by commas |
| ResultJson.CommaBefore | app/src/test/java/com/patriotlogger/logger/test/DriverMain.java:253-255 | writing a comma before each item but the first gives the items joined by commas |
| ResultJson.AlgoText | app/src/test/java/com/patriotlogger/logger/test/DriverMain.java:257-273 | a handler's text as written is the rendering of its object |
| ResultJson.SeriesText | app/src/test/java/com/patriotlogger/logger/test/DriverMain.java:243-250 | the series text is its items joined by commas |
| ResultJson.AlgorithmsText | app/src/test/java/com/patriotlogger/logger/test/DriverMain.java:252-274 | the algorithms text is each quoted name and its object, joined by commas |
| ResultJson.BuildJson | app/src/test/java/com/patriotlogger/logger/test/DriverMain.java:234-278 | the text written for a sample file is exactly the rendering of the result document |
| PyValues.OrZero | scripts/plot_result3.py:52 | x or 0 is the number for a number (True 1, False 0) and 0 for any other falsy value |
| PyValues.FromOption | app/src/test/java/com/patriotlogger/logger/test/DriverMain.java:280-283 | a null written by the driver loads as None, a number as that number |
| ResultPlots.GuessSpeed | scripts/plot_result3.py:27-30 | the speed label is always Run, Jog or Walk |
| ResultPlots.SpeedIntervals | scripts/plot_result3.py:23-30 | Run is exactly 70 rows or fewer, Walk exactly 140 or more, Jog the rows between; more rows never give a faster label |
| ResultPlots.SpeedBoundaries | scripts/plot_result.py:13-16 | 70 rows is Run and 71 Jog; 139 is Jog and 140 Walk |
| ResultPlots.GuessDistance | scripts/plot_result3.py:32-34 | "?" exactly without a peak, Close exactly when the peak is at least -78 dBm, Far exactly when it is below |
| ResultPlots.NumericRssi | scripts/plot_result3.py:65 | the numeric rssi values are exactly those of the series points whose rssi is a number, and none only when no point has one |
| ResultPlots.MaxReal | scripts/plot_result3.py:66 | max of a non-empty list is one of its values and no value exceeds it |
| ResultPlots.PeakOf | scripts/plot_result3.py:63-66 | the peak is absent exactly when no point has a numeric rssi, and is otherwise the greatest numeric rssi |
| ResultPlots.Basename | scripts/plot_result3.py:69 | the base name is the part of the path after the last slash or backslash |
| ResultPlots.LoadItem | scripts/plot_result3.py:61-76 | an item keeps the file's series and algorithms, is named by sampleFile or else the base name, and counts the rows and takes peak, speed and distance from them |
| ResultPlots.LoadResults | scripts/plot_result3.py:54-77 | there are at most as many items as files |
| ResultPlots.LoadedSpeeds | scripts/plot_result3.py:74 | every loaded item's speed is the one its row count gives |
| ResultPlots.LoadResultsSnoc | scripts/plot_result3.py:55-60 | a file that does not parse adds nothing; any other adds its item at the end |
| ResultPlots.ArgNearest | scripts/plot_result3.py:50-52 | the index chosen is the first of least distance in time to the target, a missing time counting as 0 |
| ResultPlots.FirstNearestUnique | scripts/plot_result3.py:52 | min picks one index: the first of least distance |
| ResultPlots.NearestSeriesY | scripts/plot_result3.py:50-52 | None exactly for an empty series, otherwise the rssi of the first sample nearest in time |
| ResultPlots.KeepsRssiVariants | scripts/plot_result3.py:233 | both plotters keep a pin's own reading only when it is a number no stronger than -60; plot_result3.py also drops readings below -120, and that is the only difference (plot_result.py:164) |
| ResultPlots.ResolveState | scripts/plot_result3.py:226-237 | a marker is drawn only for a truthy pin with a time; it keeps the pin's own reading when that is a number inside the kept range, falls back to the nearest sample's reading otherwise, and is skipped when that is None too |
| ResultPlots.ResolveList | scripts/plot_result3.py:226-237 | the loop draws exactly the states that resolve, each once, in list order |
| ResultPlots.ResolveEvents | scripts/plot_result3.py:226-237 | at most four markers, in the order APPROACHING, HERE, LOGGED, PEAK, one for every state that resolves |
| ResultPlots.GroupSpeed | scripts/plot_result3.py:81-85 | a speed becomes "Run" exactly when it starts with "run" in any case, and is kept as it is otherwise |
| ResultPlots.PagedGroupSpeed | scripts/plot_result.py:216-221 | with the group names checked first, a speed still becomes "Run" exactly when it starts with "run" in any case, and is kept otherwise |
| ResultPlots.GroupSpeedIdempotent | scripts/plot_result3.py:81-85 | grouping a grouped speed changes nothing |
| ResultPlots.GroupSpeedsAgree | scripts/plot_result.py:216-221 | plot_result.py's grouping (group names first, then the run test) groups every speed as plot_result3.py does |
| ResultPlots.InGroup | scripts/plot_result3.py:81-85 | a group holds only items whose grouped speed is its name, in load order |
| ResultPlots.NameLeTotalPreorder | scripts/plot_result3.py:87 | comparing names is total and transitive, so sorting by name is well defined |
| ResultPlots.SortedGroup | scripts/plot_result3.py:86-87 | each group is sorted by name and holds exactly its items, and items with equal names keep their load order, as `sorted` does |
| ResultPlots.SortGroups | scripts/plot_result3.py:79-89 | the ordered list is exactly the Run, Jog and Walk groups' items, all taken from the input |
| ResultPlots.SortGroupsOrder | scripts/plot_result3.py:88 | the ordered list runs Run, then Jog, then Walk, and by name within each |
| ResultPlots.GroupsPartition | scripts/plot_result3.py:80-85 | when every item is Run, Jog or Walk the three groups split the items |
| ResultPlots.SortGroupsPermutation | scripts/plot_result3.py:79-89 | then the ordered list is a permutation of the items |
| ResultPlots.LoadedItemsAllGrouped | scripts/plot_result3.py:74-88 | loaded items always carry one of the three speeds, so the ordered list is a permutation of them and nothing is left out |
| GridPlot.Slot | scripts/plot_result3.py:180-182 | slot idx sits at row idx // 5 and column idx % 5 |
| GridPlot.SlotsCoverGrid | scripts/plot_result3.py:172-182 | the 20 slots cover the 4 x 5 grid, each panel exactly once |
| GridPlot.Panels | scripts/plot_result3.py:180-188 | slot idx shows the idx-th ordered item, and is switched off exactly when there is no such item |
| GridPlot.PanelsIgnoreTail | scripts/plot_result3.py:175-188 | items after the twentieth never reach a panel |
| GridPlot.MissMarkerY | scripts/plot_result3.py:253-258 | the miss tick is drawn exactly when LOGGED is None, APPROACHING or HERE is truthy and the series is not empty; it sits at the last marker's y, else at the last raw reading |
| GridPlot.PointNode | scripts/plot_result3.py:227-230 | a pin loaded from a result file is a non-empty dict whose t and rssi are the written values or None |
| GridPlot.LoadedStates | scripts/plot_result3.py:209-227 | an algorithm entry loaded from a result file has the four pins the driver wrote and its line |
| GridPlot.DriverFilesNeverMiss | scripts/plot_result3.py:254 | the driver writes a missing LOGGED as a dict of nulls, which is not None, so on its files the miss tick is never drawn |
| GridPlot.NullPinGivesNoEvent | scripts/plot_result3.py:228-232 | a pin the driver wrote as nulls is truthy but has no time, so it gives no marker |
| GridPlot.EventArtists | scripts/plot_result3.py:239-251 | each marker gives two visible artists: a star for PEAK or the algorithm's marker otherwise, then its annotation |
| GridPlot.ArtistsOf | scripts/plot_result3.py:215-258 | an algorithm's artists are its line, two per marker and the miss tick, all visible when drawn |
| GridPlot.AlgoArtists | scripts/plot_result3.py:209-258 | an algorithm contributes one artist for a drawn line, two per resolved marker and one for a miss tick |
| GridPlot.Register | scripts/plot_result3.py:199 | setdefault then extend: a known label's list grows in place, a new label goes at the end, and labels stay distinct |
| GridPlot.DrawingNamesMeans | scripts/plot_result3.py:260-261 | a name is a drawing name exactly when some algorithm of that name drew something |
| GridPlot.RegisterAlgos | scripts/plot_result3.py:209-261 | after a panel's algorithms the labels are the earlier ones plus the names of the algorithms that drew something, still distinct |
| GridPlot.RegisterPanel | scripts/plot_result3.py:196-261 | a panel registers Measured exactly when its series is not empty or an algorithm of that name drew something |
| GridPlot.RegisterPanels | scripts/plot_result3.py:180-261 | the registry over several panels keeps labels distinct, and holds Measured exactly when some panel registered it |
| GridPlot.PlotRegistry | scripts/plot_result3.py:173-261 | plot_all registers labels only from the first twenty ordered items, and Measured exactly when one of those registers it |
| GridPlot.Without | scripts/plot_result3.py:274 | the labels other than the one given, in order |
| GridPlot.LegendLabels | scripts/plot_result3.py:270-274 | the legend lists the registered labels in registration order with Measured moved first |
| GridPlot.LegendIsPermutation | scripts/plot_result3.py:268-291 | the legend lists every registered label exactly once |
| GridPlot.SetVisible | scripts/plot_result3.py:104-105 | setting visibility changes only each artist's visible flag |
| GridPlot.InitLegend | scripts/plot_result3.py:101-109 | at the start only Measured's artists are shown, and each label's alpha is 1.0 if shown and 0.25 if hidden |
| GridPlot.EntryIndex | scripts/plot_result3.py:113-121 | a click is resolved to the first entry of its label, or to none |
| GridPlot.Pick | scripts/plot_result3.py:111-135 | a click on anything else, or on a label without artists, changes nothing; otherwise that label's artists are all shown exactly when none was shown, and no other entry changes |
| GridPlot.PickAligns | scripts/plot_result3.py:126-133 | after a click every artist of the label shares one visibility, matched by its alpha |
| GridPlot.InitLegendUniform | scripts/plot_result3.py:101-109 | the starting legend gives each label one visibility, matched by its alpha |
| GridPlot.PickFlips | scripts/plot_result3.py:126-133 | a click on a label whose artists share one visibility flips them all and its alpha |
| GridPlot.PickTwiceAt | scripts/plot_result3.py:111-135 | two clicks on such a label give the legend back |
| GridPlot.PickTwiceRestores | scripts/plot_result3.py:111-135 | from a uniform legend two clicks on the same thing give the legend back |
| GridPlot.PickKeepsUniform | scripts/plot_result3.py:111-135 | a click keeps the legend uniform |
| PagedPlot.MinReal | scripts/plot_result.py:35 | min of a non-empty list is one of its values and no value is below it |
| PagedPlot.DynamicYlim | scripts/plot_result.py:31-37 | without numeric readings the range is [-105, -70]; otherwise it reaches down to -105 and 2 dB below every reading, and up to -70 and 2 dB above every reading capped at -60, each bound being exactly the tightest of these: the fixed value or the one set by some reading |
| PagedPlot.Pieces | scripts/plot_result.py:71-73 | every piece is non-empty and holds at most the page size, and every piece but the last is full |
| PagedPlot.PiecesFlatten | scripts/plot_result.py:71-73 | the pieces, put back together, are the input |
| PagedPlot.PiecesCount | scripts/plot_result.py:73 | there are ceil(n / 4) pages of four |
| PagedPlot.PieceAt | scripts/plot_result.py:72-73 | piece k holds the elements from position 4k on, up to four of them |
| PagedPlot.Chunks | scripts/plot_result.py:71-73 | each piece comes with its 1-based number and the total page count |
| PagedPlot.GroupPages | scripts/plot_result.py:225-231 | a group gives ceil(n / 4) pages numbered from 1, each with 1 to 4 items and the group's page count |
| PagedPlot.TitleRangeIsPositions | scripts/plot_result.py:114-116 | a page's title range start-end is exactly its items' 1-based positions in the group |
| PagedPlot.GroupPagesCover | scripts/plot_result.py:225-231 | a group's pages hold its items, in order |
| PagedPlot.AllPages | scripts/plot_result.py:216-231 | every figure belongs to Walk, Jog or Run and holds one to four items |
| PagedPlot.AllPagesCoverLoaded | scripts/plot_result.py:204-231 | without the focus filter every loaded file is drawn exactly once |
| PagedPlot.PagesHoldTheirGroup | scripts/plot_result.py:216-231 | each page holds only items of its own speed group |
| PagedPlot.TrailingDigits | scripts/plot_result.py:99-101 | the longest run of digits ending the text |
| PagedPlot.IdRun | scripts/plot_result.py:99-101 | the id run is made only of digits |
| PagedPlot.LastThreeDigitsBeforeCsv | scripts/plot_result.py:94-105 | None exactly when the name has no id run; otherwise the last three digits of the run, or all of it when shorter |
| PagedPlot.LastUpToThree | scripts/plot_result.py:105 | the last min(3, n) characters of a digit run |
| PagedPlot.Format03 | scripts/plot_result.py:208 | the :03d format gives at least three characters |
| PagedPlot.Format03Digits | scripts/plot_result.py:208 | a number below 1000 is written as its three digits |
| PagedPlot.Digits3Injective | scripts/plot_result.py:208 | distinct numbers below 1000 give distinct three-digit texts |
| PagedPlot.LastThreeOfNumber | scripts/plot_result.py:105 | the last three characters of a number from 100 up are its three lowest digits |
| PagedPlot.SampleFileId | scripts/plot_result.py:94-105 | the id of a file named prefix, number, .csv is the number's three lowest digits |
| PagedPlot.IdRunOfSampleName | scripts/plot_result.py:99 | in prefix, digits, .csv the id run is the digits |
| PagedPlot.Suffixes | scripts/plot_result.py:208 | the suffix set is exactly the formatted ids |
| PagedPlot.FocusFilter | scripts/plot_result.py:207-211 | an empty id list keeps everything; otherwise exactly the items whose id is one of the suffixes survive |
| PagedPlot.FocusFilterAppend | scripts/plot_result.py:210-211 | the filter keeps order and repeats: filtering a concatenation concatenates the filtered parts, and a single item survives exactly when there are no ids or it is in focus |
| PagedPlot.FocusByNumber | scripts/plot_result.py:207-211 | for names prefix, number, .csv and ids below 1000, a file is kept exactly when its number modulo 1000 is one of the ids |
| PagedPlot.NoIdNoFocus | scripts/plot_result.py:211 | a name without a digit run is never kept when there are ids |
| PagedPlot.PageAlgorithmsPresent | scripts/plot_result.py:75-83 | an algorithm is in a page's legend exactly when in some panel it has a non-empty line or a truthy pin |
| PagedPlot.LegendCoversDrawn | scripts/plot_result.py:118-167 | whatever an algorithm draws on a page, its name is in the page's legend |
| SamplePlots.DecimalLiteralValue | scripts/plot_samples.py:61-62 | `float()` reads an optionally signed literal of whole digits, a point and fraction digits as the whole value plus the fraction over ten to its length, negated after "-"; without the point it reads the whole digits |
| SamplePlots.ReadsNegativeDecimal | scripts/plot_samples.py:61-62 | the reading "-70.5" is read as -70.5 |
| SamplePlots.ParseIntegerText | scripts/plot_samples.py:61-62 | a printed integer is read back by float() as that integer |
| SamplePlots.HeaderRow | scripts/plot_samples.py:25-28 | the header is the first row with a cell that is not blank once stripped, and every row before it has none |
| SamplePlots.HeaderCells | scripts/plot_samples.py:27 | the header cells are the row's cells stripped and lower-cased |
| SamplePlots.HeaderIndex | scripts/plot_samples.py:34 | header.index gives the first position holding the name |
| SamplePlots.Idx | scripts/plot_samples.py:32-35 | -1 exactly when the header holds none of the names; otherwise the first position of the first listed name the header holds |
| SamplePlots.RowValues | scripts/plot_samples.py:53-66 | a row gives values exactly when it reaches both columns and both stripped fields parse as floats; then the time is relative to BASE_TS and the rssi is the parsed value |
| SamplePlots.ReadFrame | scripts/plot_samples.py:52-67 | the frame has as many times as readings, at most one per row |
| SamplePlots.ReadFrameAppend | scripts/plot_samples.py:53-66 | rows are read one by one, so two blocks of rows give their frames end to end |
| SamplePlots.ReadCsvAnyHeader | scripts/plot_samples.py:14-67 | a file without a header row gives an empty frame; the pandas fallback is taken exactly when the header has no timestamp-like or no rssi column; otherwise the frame is the rows after the header read with those columns |
| SamplePlots.TimestampBeatsTime | scripts/plot_samples.py:36 | the timestamp column is chosen by name priority: with "timestamp" present it wins wherever it stands |
| SamplePlots.JavaAndPythonDisagree | scripts/plot_samples.py:36 | for the header "timestamp,time" the Python reader uses column 0 while the Java driver uses column 1 |
| SamplePlots.ClassifySpeed | scripts/plot_samples.py:69-74 | Run exactly up to 70 rows, Walk exactly from 140, Jog between |
| SamplePlots.SpeedBandsShared | scripts/plot_samples.py:69-74 | the sample plots and the result plots use the same speed bands |
| SamplePlots.ClassifyDistance | scripts/plot_samples.py:76-78 | Close exactly when the peak is at least -78 dBm, Far exactly when below |
| SamplePlots.LoadRecords | scripts/plot_samples.py:92-113 | at most one record per file, each with rows and with the labels its row count and peak give |
| SamplePlots.FileRecord | scripts/plot_samples.py:98-113 | a file's record holds its base name, its row count, its first time and its greatest reading as peak, with the speed and distance labels those give |
| SamplePlots.LoadRecordsSnoc | scripts/plot_samples.py:94-113 | an empty frame adds no record; otherwise one record at the end with the base name, row count, first time, and the greatest reading as peak |
| SamplePlots.ByFirstTs | scripts/plot_samples.py:86 | the files ordered by first timestamp, a permutation of the input in which files with equal first timestamps keep their input order |
| SamplePlots.SplitRunHandShoe | scripts/plot_samples.py:80-89 | the Shoe set is exactly the names in the later half, from position n div 2, of the ordering by first timestamp; empty input gives the empty set |
| SamplePlots.ShoeStartsLater | scripts/plot_samples.py:80-89 | with distinct names, every Shoe file started no earlier than every Hand file |
| SamplePlots.RunFiles | scripts/plot_samples.py:116 | exactly the name and first time of the records labelled Run |
| SamplePlots.Relabel | scripts/plot_samples.py:115-120 | a record labelled Run becomes Run (Shoe) or Run (Hand) by the split; nothing else changes |
| SamplePlots.RelabelIdempotent | scripts/plot_samples.py:118-120 | relabelling again changes nothing, since no record is Run any more |
| SamplePlots.FacetCount | scripts/plot_samples.py:128-131 | a facet counts at most every record |
| SamplePlots.Counts | scripts/plot_samples.py:127-131 | one count per facet of the 4 x 2 grid, each the number of records with that speed and distance |
| SamplePlots.GridTotalCountsGridRecords | scripts/plot_samples.py:127-131 | when every record lies in the grid, the eight counts add up to the number of records |
| SamplePlots.FacetsCoverRecords | scripts/plot_samples.py:92-131 | after relabelling every loaded record lies in the grid, so the counts add up to the number of records |
| SamplePlots.FileMessage | scripts/plot_samples_individual.py:73-83 | an empty frame is reported as skipped; otherwise the base name, the row count, the greatest reading and the mean |
| SamplePlots.Mean | scripts/plot_samples_individual.py:82 | the mean counted once per reading makes up the sum |
| SamplePlots.IndividualMain | scripts/plot_samples_individual.py:67-83 | no files gives one message; otherwise one message per file, in order |
| SamplePlots.SameFilesSkipped | scripts/plot_samples_individual.py:75-78 | the grid script makes a record for a file exactly when the per-file script prints its statistics |

## Left out

- Drawing, windows and printing: figure layout, colours, marker shapes, x-axis limits, titles other than the page range, and console messages are not modelled. Matplotlib artists are records with a kind and a visible flag.
- File system, globbing, `open`, `json.load` and `csv.reader`: the loaders take the parsed documents (or `None` for a file that does not parse) and the rows already split into cells.
- The pandas fallback of `read_csv_any_header`, taken when the header lacks a timestamp or an rssi column, is only recorded as such (`PandasFallback`); pandas parsing is not modelled.
- SamplePlots.ParsePyFloat: reads only plain decimal literals in ASCII digits; Python's `float()` also accepts exponents, `inf`, `nan`, underscores and non-ASCII decimal digits, so a cell such as `1e3` is skipped in the model but kept by the scripts.
- Text.ParseJavaLong / Text.ParseJavaInt: accept only ASCII digits 0-9; Java's `Character.digit` also accepts other Unicode decimal digits (for example Arabic-Indic ones), which the model rejects. The numbers they read are timestamps the driver printed itself and cells of CSV files the app writes, both printed with ASCII digits.
- PagedPlot.TrailingDigits: takes ASCII digits 0-9 only, where Python's `\d` in `r'(\d+)$'` matches every Unicode decimal digit; for "run٠12" Python's run is "٠12" and the model's "12". The file names the scripts read carry ASCII numbers, so the focus filter keeps the same files.
- PagedPlot.IdRun: the same ASCII-only restriction as PagedPlot.TrailingDigits, for `r'(\d+)\.csv$'`; for "run٠12.csv" Python's id run is "٠12" and the model's "12".
- PagedPlot.LastThreeDigitsBeforeCsv: inherits that restriction; on names with non-ASCII digits its value can differ from the script's, while on ASCII names it is exact.
- Text.LowerAscii: folds A-Z only, where Python's `.lower()` folds every cased character (and turns U+0130 into two characters); the header names it is compared with are ASCII, so which column a header cell names does not change unless a cell uses non-ASCII letters that fold onto ASCII ones (U+212A KELVIN SIGN folds to "k").
- ResultPlots.ArgNearest, ResultPlots.NearestSeriesY, ResultPlots.ResolveState, ResultPlots.ResolveList, ResultPlots.ResolveEvents, GridPlot.AlgoArtists, GridPlot.RegisterAlgos, GridPlot.RegisterPanel, GridPlot.RegisterPanels and GridPlot.PlotRegistry: require the time-typing predicates (TimesTyped, NodeTimeTyped, StatesTyped, SeriesTimed, PlottableItem), so only result files whose `"t"` values are numbers or null are modelled, as `BuildJson` writes them; on a truthy non-numeric `"t"` the scripts raise TypeError in `abs((p.get("t") or 0) - ...)` (plot_result3.py:52) or in `tt/1000.0` (plot_result3.py:237), and that path is not modelled.
- Floating point rounding, and Java `int`/`long` overflow, are not modelled: all numbers are unbounded integers or reals.
- DriverMain's `fmt` (`%.3f` formatting), `reflectCurrentValue` (reflection over handler fields) and the handler value line series: line points are taken as given text and values.
- The order in which plot_result.py visits a panel's algorithms (sorted names) only affects drawing order and is not modelled.
- ScannerService.TagIdOf: requires a device name other than exactly "PT", because `substring(3)` on it throws an uncaught StringIndexOutOfBoundsException.
- Driver.StatesOf: states only that one state comes back per sample; it is not related to prefixes of `RunHandler`.
- Threads, locking, LiveData posting, Android notifications, timers and the Room repository: the scanner service's helpers take the current time and the settings as parameters.
- The TCA and power-model distance handlers (linear regression from Apache Commons Math plus logarithmic distance models), the Kalman and EMA smoothers, and the random sample generator script are not part of this model.
- Android activities, fragments, adapters, view models, DAOs and the database are not part of this model.
- Timing logs and the files the driver writes to disk: only the text of each result file is modelled.

## Findings

| source | as written | input that shows it | evidently intended | confidence | as-written member | corrected member |
|---|---|---|---|---|---|---|
| app/src/main/java/com/patriotlogger/logger/util/CsvExporter.java:20-103 | the data file's header names five columns (dataId, trackId, tagId, timestampMs, rssi) but each row writes four values, so every value after trackId sits under the wrong column name | any data row, for example a record with dataId 1, trackId 2, timestamp 1000 and rssi -70: the parsed row has four fields, and -70 falls under timestampMs | each row writes the tag id as well, so each value sits under its own column name | not executed | CsvExport.DataRowsMisaligned | CsvExport.TaggedDataCsvRoundTrip |

The corrected data file is `CsvExport.GenerateTaggedDataCsv`. `CsvExport.GenerateCsvFiles` still
writes the data file as the code does, because the record the exporter receives carries no tag id.
