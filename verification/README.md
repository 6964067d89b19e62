# Verified model of EmpireBus Service

A Dafny 4.11 model of the stateful logic of EmpireBus Service, which watches and drives a motorhome over its Garmin EmpireBus: water and sensor histories, the heating scheduler and modes, the scheduled grey-water valve, GPS tracks and their migration, notifications, the set-point loop and its simulator, tank geometry, calibration curves and Bluetooth parsing. `dafny verify dfyconfig.toml` checks all of it.

Each source file has a module. Code that changes state is a class or a method with loops, proved equal to a specification function; the results below are lemmas about those functions, or invariants (`Valid`, `Inv`) every method keeps.

| area | modules | main results |
|---|---|---|
| water history | `WaterPoints`, `WaterTens`, `WaterArchive`, `WaterRuns`, `WaterChart`, `WaterLevels`, `WaterStore`, `WaterLogs`, `WaterMarkers` | after any run of appends, compactions that may die anywhere, and restarts, archive and live file hold each hour's reading of everything written, except in hours named exactly; the trimmed incremental chart equals the chart of the whole log, and exactly when it survives a restart; exactly the samples older than the retention leave the live file; every real fill is recorded, and every recorded one is real |
| sensor history | `SensorHistory` | hourly history of archives and live files equals that of everything appended; what compaction leaves where, and only for lack of writes; it is idempotent |
| grey discharges | `Session`, `GarminAdapter`, `GreyPipeline` | no valve report is lost or duplicated from frame to history |
| heating schedule | `HeatingTypes`, `Scheduler`, `Clocks` | the eight-day scan finds the first effective change wherever the clock is regular on the dates ahead, and visits every change when iterated; starts, actions and reports read in clock time |
| crash-safe machines | `Valve`, `Modes` | a due schedule opens, exactly one too late is missed, at most one opening each, always closed before it is forgotten, and exactly when a cancellation endangers that; stacked boosts restore what was held, on time |
| tracks | `GeoJson`, `TrackManager`, `Migration` | print and parse round-trip exactly for the well-formed tracks; exactly which writes lose a file, in any directory; migration conserves every sample and event |
| notifications | `Alerts`, `AldePower` | alerts are independent machines; limit, offline and power notices characterised exactly over whole traces |
| set point and codecs | `SetPoint`, `Int32`, `TankLevel`, `Calibration`, `Btle` | the loop is safe against any heater and reaches its target on the simulator; monotone level maps; parsers invert printers, and exactly when stale bytes are read |

Shared helpers are in `Wrappers` (options, results, floats that may not be finite), `Instants` (nanoseconds since the Unix epoch, Go's zero time) and `Sorting` (stable sorting, and ranging over maps in any order).

Conventions: instants and durations are integers in nanoseconds, UTC days are whole divisions of them; heating targets are thousandths or halves of a degree, chart values integers after rounding, levels and coordinates reals. Files are maps or sequences of values; writes are atomic and may fail or be the last thing the process does, which a method takes as a parameter or as a budget of successful writes.

Where the code and its description differ, or a promise holds only conditionally, the code is followed:

- A sample is lost from the chart on restart when it was the last stored before a crash, its chart was not yet written, and neither it nor any sample before it is later than the last one charted, as in a tie; an inversion elsewhere only makes the replay start early, which does no harm (`WaterChart.RestoresExactly`, `WaterLogs.ObservedTieIsSkipped`).
- Whether compaction keeps an hour's water level depends on the order of that hour's samples in the live file and on where the retention cutoff falls among them; a clock that steps back can break it, for that hour only (`WaterTens.CompactionKeepsExactly`, `WaterLogs.ObservedStepBackIsLost`, `WaterLogs.ObservedAcrossCutoffIsLost`).
- A load without a chart file rewrites the sample file with its last five minutes (`WaterLogs.MissingChartKeepsExactly`).
- Compaction can leave points that the next load drops (`WaterLogs.CompactionLosesSpacing`, `WaterLogs.CompactionKeepsSpacing`), and one that dies half-way leaves its chart over the old samples (`WaterLogs.InterruptedCompaction`).
- On a date whose midnight is skipped the scheduler resolves periods to the day before (`Clocks.SkippedMidnightResolvesYesterday`).
- Cancelling or replacing a schedule while its valve is open, or about to be opened, can leave the valve open for good; at all other times it is safe (`Valve.CancelWhileOpenLeavesItOpen`, `Valve.RewriteSafeIff`).
- A day's track file that can be neither read nor moved aside is overwritten by the session's first write (`TrackManager.BeginsClobbers`, `TrackManager.UnreadableOverwritten`).
- A Bluetooth event whose length byte overruns it is completed from earlier packets (`Btle.LeftoversIgnored`, `Btle.EarlierPacketHeardAgain`).
- `HeatingRuntimeState.Validate` accepts boosts that cannot be resumed; exactly which is `Modes.ResumesValid`.
- Tracks survive printing and parsing under the exact condition of `GeoJson.RoundTrip`; migrated days with one lone sample, or only events, do not parse back (`Migration.MigratedParses`).
- In crossing mode a violation starting within ten minutes of the last send is never announced (`Alerts.SuppressedCrossingStaysSilent`).

## Model

| member | source | states |
|---|---|---|
| WaterStore.Store.Observe | service/waterhistory/store.go:102-158 | From any state the service can be in, failed writes included: an observation is ignored, refused as out of range, or stored; state and events become exactly what the pure admission and detector say, memory takes the sample before anything is written, the sample file is as it was or has exactly the admitted sample appended, the archive is untouched, and of the new events a first part has reached the file. While memory and files agree, the file grows exactly by the spacing rule, and after a failed write the disk is still one from which the chart can be recovered. It fails only on a level out of range or a write that fails, and otherwise reports whether it stored a sample or recorded an event |
| WaterStore.Store.RecordGreyDischargeOpen | service/waterhistory/store.go:160-172 | The open instant is recorded, on disk and in memory, and nothing else of the state; samples, archive, chart and events are untouched, even after earlier failed writes; it fails only when a write does |
| WaterStore.Store.RecordGreyEmpty | service/waterhistory/store.go:174-201 | State and events become those of `RecordEmpty`: one grey-empty event per open discharge and instant, none twice; samples, archive and chart are untouched, and the event file keeps what it has; it fails only when a write does |
| WaterStore.Store.HasGreyEmptyEventAt | service/waterhistory/store.go:242-250 | True exactly when the event list holds a grey-empty event at that instant |
| WaterStore.Store.GreySampleIsBeforeLatestEmpty | service/waterhistory/store.go:252-260 | True exactly when the last grey-empty event of the list is later than the sample |
| WaterStore.Store.Load | service/waterhistory/store.go:623-674 | After a restart over any disk the samples are the last five minutes of the file as `compactSamples` thins it, and the chart is the one restored from the chart file over that, or the chart of all of it without one; if the chart file is current, or one sample behind and resumed in time, and the file is spaced, it is exactly the chart of the whole file. Only a missing chart file makes it rewrite the samples; the archive is untouched |
| WaterStore.Store.Compact | service/waterhistory/store.go:773-817 | Over any disk and any memory. Where the samples it works on go: after a finished compaction each one from `now - retention` on has a point of its ten minutes in the live file, nothing older is left there or on the chart, each older one has a point of its hour in its month's archive file; wherever it stops only older ones entered the archive. The files are exactly those of one archiving or finishing step of a run, over the samples of the file, or of memory if it has none; a finished one leaves ten-minute buckets, a settled disk, the chart of the buckets since the cutoff and their last five minutes in memory; a settled disk is left unchanged; it stops short only when a write fails. The buckets need not be spaced: see `WaterLogs.CompactionLosesSpacing` |
| WaterStore.HistoryKept | service/waterhistory/store.go:102-849 | So whatever the store has done, archive and live file together hold, for every hour its run did not lose, the reading of everything it put on them |
| WaterRuns.RunConserves | service/waterhistory/store.go:773-880 | After any run of appends, compactions (dying after any subset of the archive writes, or finished, from the file or from memory) and loads without a chart file, in any order and at any cutoffs: archive joined with live file gives, for every hour not lost, exactly the merge of everything the run wrote |
| WaterRuns.InOrderLosesNothing | service/waterhistory/store.go:773-880 | If what a run wrote is in time order no compaction in it loses any hour; only a load without a chart file can |
| WaterRuns.InOrderRunConserves | service/waterhistory/store.go:773-880 | So such a run conserves every hour, unless such a load dropped a sample of it |
| WaterRuns.TakesUnique | service/waterhistory/store.go:773-880 | Each step determines the files it leaves |
| WaterRuns.StepConserves | service/waterhistory/store.go:773-880 | One step of a run, and one hour it does not lose |
| WaterRuns.FinishPlaces | service/waterhistory/store.go:773-817 | Where a finished compaction puts each sample it works on: those from the cutoff on have a point of their ten minutes in the live file, no earlier than they; nothing before the cutoff is left there; each before it has a point of its hour in the archive file of its month |
| WaterRuns.OnlyOldArchived | service/waterhistory/store.go:819-849 | Wherever a compaction stops, a point new in the archive has the instant of a sample older than the cutoff |
| WaterStore.Store.WriteArchives | service/waterhistory/store.go:819-849 | Each archive file written is the gathered one; when the process dies the others are as before |
| WaterStore.StoringCarries | service/waterhistory/store.go:112-158 | Appending a sample and then persisting the chart leaves the disk recoverable at every point in between |
| WaterStore.RestartExact | service/waterhistory/store.go:651-674 | A restart over a disk whose chart file is current, or one sample behind and resumed in time, rebuilds the uninterrupted run's chart, whatever the order of the log |
| WaterStore.Store.TrimRawSamples | service/waterhistory/store.go:478-488 | Exactly the raw samples within five minutes of the given instant stay, all counted as processed |
| WaterStore.CompactionSettles | service/waterhistory/store.go:773-849 | A finished compaction leaves settled files; over settled files a compaction changes nothing, wherever it stops |
| WaterArchive.PartialArchiveConserves | service/waterhistory/store.go:819-849 | Dying after any subset of the archive writes, archive joined with live file still folds, in each hour, to what the full log folds to, in whatever order the log is |
| WaterArchive.CompactConserves | service/waterhistory/store.go:773-817 | With all archives written and the live file cut to recent ten-minute buckets the same holds for every hour in which the live file compacts cleanly, the exact condition below, whatever the other hours are like |
| WaterArchive.FiledConserves | service/waterhistory/store.go:773-849 | Over an empty live file, where memory is compacted, the files hold the history of the log and of exactly what was archived, wherever the writes stop |
| WaterArchive.AdoptedConserves | service/waterhistory/store.go:773-817 | Writing the recent buckets of memory then adds the rest, in every hour whose ten-minute buckets never step back |
| WaterArchive.RefiledCountsOnce | service/waterhistory/store.go:773-849 | Points archived again, when such a compaction died and is repeated, count once |
| WaterArchive.AppendConserves | service/waterhistory/store.go:949-967 | Appending a sample keeps each hour's history |
| WaterArchive.CompletedSettles | service/waterhistory/store.go:773-817 | A finished compaction leaves nothing for a second one at the same cutoff |
| WaterArchive.SettledUnchanged | service/waterhistory/store.go:773-849 | Compacting a settled disk rewrites every file to what it already holds |
| WaterPoints.BucketPoints | service/waterhistory/store.go:851-880 | One point per bucket, in time order, each the last-known-level merge of its bucket's points since the cutoff |
| WaterPoints.BucketingUnique | service/waterhistory/store.go:851-880 | The bucketing of a list is determined by the list |
| WaterPoints.BucketingIdempotent | service/waterhistory/store.go:851-880 | Bucketing a list that already has one point per bucket gives it back |
| WaterPoints.BucketStandsFor | service/waterhistory/store.go:851-880 | Every point is stood for by the one point of its bucket, stamped no earlier |
| WaterPoints.FoldSplitsAt | service/waterhistory/store.go:851-880 | Merging a range is merging its halves and joining them when the list runs through the first before the second |
| WaterPoints.BeforeAbsorbed | service/waterhistory/store.go:819-849 | What expired adds nothing in front of the whole list: archiving before the live file is rewritten is harmless |
| WaterPoints.OutOfOrderTensDisagree | service/waterhistory/store.go:851-880 | Ten-minute buckets can lose: a two-sample log out of order whose hourly merge changes after bucketing |
| WaterTens.HourlyAfterOrderedTens | service/waterhistory/store.go:851-880 | Non-decreasing ten-minute buckets within an hour suffice for its merge to survive |
| WaterTens.CompactionKeepsExactly | service/waterhistory/store.go:773-880 | The exact condition, hour by hour, on a log's instants and the retention cutoff: every choice of levels keeps the hour's reading through a compaction if and only if, within the hour, behind a point that is kept come only points that are kept, in ten minutes no earlier |
| WaterTens.CleanCompactionKeeps | service/waterhistory/store.go:773-880 | Such an hour keeps its reading: archived part and ten-minute buckets join to the hourly merge |
| WaterLogs.ObservedStepBackIsLost | service/waterhistory/store.go:102-158 | A run of two observations that stores such a log: a sample older than the last one, observed by a clock that stepped back; compaction changes its hour |
| WaterLogs.ObservedAcrossCutoffIsLost | service/waterhistory/store.go:102-158 | A run of two observations that stores a log whose ten minutes are in order but whose samples straddle the cutoff out of order: compaction changes its hour |
| WaterChart.WindowExact | service/waterhistory/store.go:426-444 | After any run over an ordered log each window holds exactly the tank's readings within five minutes of its latest, with their exact sum, and is not empty once a reading came |
| WaterChart.AverageExact | service/waterhistory/store.go:426-444 | The incremental average never divides by zero and equals the average by definition over the untrimmed log |
| WaterChart.ChartExact | service/waterhistory/store.go:398-472 | Every reporting hour's chart point, found through the bucket index, is the point defined directly from the full untrimmed log |
| WaterChart.FoldIndexed | service/waterhistory/store.go:446-472 | The bucket index and the chart points always describe each other: one point per hour |
| WaterChart.RoundsToNearest | service/waterhistory/store.go:426-472 | Rounding is to the nearest integer, away from zero on a tie |
| WaterChart.ChartKeyIsHour | service/waterhistory/store.go:446-472 | A reporting key is the hour of an instant; the two hours next to the Unix epoch share one |
| WaterChart.RestartRestores | service/waterhistory/store.go:651-740 | From a chart persisted after any `k` samples of any log, points, index and both windows are those of the uninterrupted run, unless the replay starts behind the first sample not charted; an earlier start rewrites the same points |
| WaterChart.RestoresExactly | service/waterhistory/store.go:651-740 | The exact condition on a log's instants: every choice of levels is restored if and only if all samples are charted, none is, or the first one not charted or one charted is later than the last charted |
| WaterChart.EarlyReplay | service/waterhistory/store.go:651-740 | Replaying samples the chart already covers ends with the chart it started from |
| WaterChart.ReplaySkipsCovered | service/waterhistory/store.go:651-674 | The replay starts at the first sample not charted if and only if the cut is clean (that sample is later than the last charted, and none before it is), and no later than it if and only if one of them is later than the last charted |
| WaterChart.CleanCutInOrder | service/waterhistory/store.go:651-674 | On a log in time order both conditions say that the cut is at an end or its two neighbours differ; ties elsewhere do not matter |
| WaterChart.TiedSampleSkipped | service/waterhistory/store.go:651-674 | Where it fails: a sample stored at the instant the persisted chart reaches is skipped and its level lost from the chart |
| WaterChart.LateReplayLoses | service/waterhistory/store.go:651-674 | Whenever it fails there are levels, each sample with one, for which the skipped sample is lost |
| WaterLogs.ObservedTieIsSkipped | service/waterhistory/store.go:102-158 | A run of two observations that stores the tie: a sample at T, then an older one observed at T; a crash before the second chart write loses it from the chart |
| WaterChart.CompactUnchanged | service/waterhistory/store.go:914-927 | Loading drops nothing exactly from logs whose samples are spaced as Observe spaces them |
| WaterLogs.SpacedExactly | service/waterhistory/store.go:203-219 | Spaced as Observe spaces them means that two neighbours differ in a level or lie a minute or more apart |
| WaterLogs.CompactionLosesSpacing | service/waterhistory/store.go:773-927 | Compaction can undo the spacing: levels 50, 60, 50 at 599, 610 and 640 seconds are spaced, their ten-minute buckets are not, and the next load drops the second point and its window entry |
| WaterLogs.CompactionKeepsSpacing | service/waterhistory/store.go:773-927 | When it does not: the next load keeps every compacted point if and only if no two neighbouring ten minutes of the compacted samples have equal readings that end less than a minute apart |
| WaterLogs.MissingChartKeepsExactly | service/waterhistory/store.go:651-700 | Of the logs Observe spaces, those that keep an hour's reading through a load without a chart file, whatever the levels, are exactly those with no sample in that hour older than five minutes |
| WaterLogs.RewriteDropsNothing | service/waterhistory/store.go:651-700 | From such an hour of a spaced log the load drops no sample at all |
| WaterLogs.InterruptedCompaction | service/waterhistory/store.go:773-817 | After a compaction that died between the chart file and the samples file a load replays nothing: the points stay the compacted ones, with the windows of the old samples; if nothing was kept the whole old chart comes back |
| WaterLevels.DetectorTracks | service/waterhistory/store.go:318-363 | In every run the detector stands within the threshold above its base, or holds a candidate that rose by at least the threshold |
| WaterLevels.FillsAreReal | service/waterhistory/store.go:318-363 | Every fill rises by at least the threshold, and either an offline reading committed it or all readings of a settling period equalled its level |
| WaterLevels.FillRecorded | service/waterhistory/store.go:318-363 | And every real fill is recorded: while the detector stands on a base, a climb to the threshold above its lowest reading that settles, or meets an offline reading, gives exactly one fill at that reading, from that lowest reading to the level reached, and none before |
| WaterLevels.SteadyFillRecorded | service/waterhistory/store.go:346-356 | In particular, online readings all equal to a level the threshold above the base give one fill, at exactly the first of them a settling period after the first |
| WaterLevels.FallForgets | service/waterhistory/store.go:342-345 | A reading below the one before ends a climb unrecorded, and the detector stands on it |
| WaterLevels.FreshSideOfRun | service/waterhistory/store.go:136-150 | Whatever discharges and grey readings are interleaved, the fresh side of the stored state is the detector on the fresh readings |
| WaterLevels.ReachableLevels | service/waterhistory/store.go:286-363 | In every reachable state: without a candidate base <= v < base + threshold, with one v is its current level and at least the threshold above its base |
| WaterLevels.RecordedFillsAreReal | service/waterhistory/store.go:136-141 | The fill events a run records are exactly such rises |
| WaterLevels.RunRecordsFill | service/waterhistory/store.go:136-158 | In any run, whatever is interleaved, a climb of its fresh readings that settles or meets an offline one is recorded by the step that brings that reading |
| WaterLevels.InOrderReadings | service/waterhistory/store.go:102-141 | Samples with valid fresh levels at increasing instants are the detector's online readings, one for one |
| WaterLevels.AdmissionCases | service/waterhistory/store.go:102-131 | What becomes of any sample: ignored without a level that counts or at the last sample's instant, refused outside 0 to 100, else admitted, and offline, with the clock's instant, exactly when older than the last |
| WaterLevels.BeforeLatestEmptyIff | service/waterhistory/store.go:252-260 | A grey level does not count when the last recorded grey empty is later |
| WaterLevels.EmptyDrains | service/waterhistory/store.go:174-284 | A close that counts records one event with the whole grey level used, down to nothing; the tank then stands empty unless a later sample came, and the discharge is no longer open if it was opened by then |
| WaterLevels.GreyLevelHeld | service/waterhistory/store.go:136-158 | The grey level is the last one reported since any close |
| WaterLevels.GreyBaseFollows | service/waterhistory/store.go:221-240 | Outside a discharge the grey base ends within the threshold above the reading, moved to it or left where it was, and left whenever it is so already |
| WaterLevels.HasGreyEmptyIff | service/waterhistory/store.go:242-250 | The duplicate check agrees with the recorded instants |
| WaterMarkers.SortEvents | service/waterhistory/store.go:601-608 | The in-place exchange sort orders the events by time and keeps them all |
| WaterMarkers.GroupMarkers | service/waterhistory/store.go:601-621 | Every event is in exactly one marker, in time order; an event is in the previous marker exactly when it is within the window of it and of another tank than that marker's first |
| SensorHistory.BucketSensorSamples | service/history/store.go:336-353 | One sample per bucket, in time order, each the latest of its bucket since the cutoff |
| SensorHistory.BucketingIdempotent | service/history/store.go:336-353 | Bucketing a list with one sample per bucket gives it back |
| SensorHistory.HourlyAfterTenMinutes | service/history/store.go:304-334 | After ten-minute bucketing every hour keeps a sample at least as late as any it had |
| SensorHistory.ArchiveNamesApart | service/history/store.go:355-357 | Archive names of different sensors never collide, even when one identifier is a prefix of another |
| SensorHistory.HourlyHistoryConserved | service/history/store.go:268-353 | With distinct instants, the hourly bucketing of archives and live file is the hourly bucketing of everything ever appended |
| SensorHistory.PartialArchiveConserves | service/history/store.go:304-334 | Stopping after any subset of the archive writes conserves every sensor's history |
| SensorHistory.CompletedConserves | service/history/store.go:304-334 | A finished compaction of a sensor conserves the history and is settled |
| SensorHistory.SettledUnchanged | service/history/store.go:304-334 | Compacting a settled sensor changes no file |
| SensorHistory.RecentLosesNothing | service/history/store.go:102-113 | Trimming the ring on every append drops no sample the window will ask for, exactly when none of the window is followed by one stamped more than the window after it, as only a stamp from the future can be |
| SensorHistory.Store.Append | service/history/store.go:89-147 | A sample without an instant is stamped with the clock; ring, file and log grow by exactly that sample, the file only if the write succeeds |
| SensorHistory.Store.AppendRing | service/history/store.go:102-113 | The ring keeps what the window needs after any run of appends |
| SensorHistory.Store.Recent | service/history/store.go:162-173 | The samples of the window in order; all of those ever appended exactly under that condition |
| SensorHistory.Store.CompactSensorFile | service/history/store.go:304-334 | One sensor's compaction: it finishes exactly when the live file and every archive file it has to rewrite can be written; a finished one leaves the latest sample of every ten minutes since the cutoff, and no others; wherever it stops only its samples before the cutoff entered the archive, under their own month, the conservation invariant holds and other sensors are untouched |
| SensorHistory.Store.Compact | service/history/store.go:268-302 | All sensors at `now - retention`: every live file is as it was or has been thinned to the latest sample of every ten minutes since, and has been thinned whenever its own writes succeed, whatever befalls the others; only older samples entered the archive, under their sensor and month; the conservation invariant is kept whatever fails, finished files are settled, and a settled store is left unchanged |
| Session.Session.Ingest | heating/session.go:324-359 | A frame of any integers queues an edge exactly when it reports its signal on after a report of off |
| Session.Session.DrainReceivedSignalEdges | heating/session.go:151-160 | Hands out all queued edges once, in order |
| Session.Session.SignalIsOn | heating/session.go:141-149 | The state and receive time of the signal's last status frame |
| GarminAdapter.Adapter.NothingLost | service/adapters/garmin/adapter.go:177-295 | Handed out, queued and waiting discharge events are, in order and once each, those of every edge received over all sessions |
| GarminAdapter.Adapter.InstallSession | service/adapters/garmin/adapter.go:177-189 | Replacing a session first takes over all its edges |
| GarminAdapter.Adapter.PollState | service/adapters/garmin/adapter.go:229-270 | A poll takes over all edges received so far |
| GarminAdapter.Adapter.QueueGreyWaterDischargeEvents | service/adapters/garmin/adapter.go:272-284 | Signal 4 edges become opens and signal 5 edges closes; others are dropped |
| GarminAdapter.Adapter.DrainGreyWaterDischargeEvents | service/adapters/garmin/adapter.go:286-295 | Hands out all queued discharge events once, in order |
| GarminAdapter.ValveReported | service/adapters/garmin/adapter.go:272-284 | A frame makes an open, or a close, exactly when it reports valve signal 4, or 5, on after the last report of that signal was off |
| GreyPipeline.NoEdgeLostOrDuplicated | service/adapters/garmin/adapter.go:177-295 | Over any pattern of frames, polls, pumps and session changes, recorded ++ queued ++ waiting is the sequence of true discharge edges |
| GreyPipeline.CompletesIff | service/waterhistory/store.go:160-201 | A close counts exactly when an open precedes it with no counted close in between |
| GreyPipeline.EmptiesAreCompletions | service/waterhistory/store.go:160-201 | For marks in increasing time the recorded grey empties are exactly the closes that count, whatever telemetry is interleaved |
| GreyPipeline.GreyPipelineExact | service/waterhistory/store.go:160-284 | End to end for frames in increasing time: the marks recorded are the valve reports in the frames, all of them once the queues are empty, and the recorded grey empties are the closes among them that follow an open with no close in between |
| HeatingTypes.Validate | service/domains/heating/types.go:101-136 | Accepts exactly the programmes with an identifier, distinct days, valid periods from midnight in strictly increasing order; each refusal names a fault that is there |
| HeatingTypes.InOrderPairs | service/domains/heating/types.go:118-134 | Comparing neighbours orders every pair of periods |
| HeatingTypes.AcceptsExactly | service/domains/heating/types.go:101-136 | Validate's condition in numbers: an identifier, distinct days, sound periods from 00:00, each later than those before it in minutes |
| Scheduler.ResolveLocalTime | service/automation/scheduler/scheduler.go:150-169 | The first whole minute of the scan whose civil date is the target's and whose time of day has reached the asked one, or nothing within thirty hours |
| Scheduler.ResolvedReads | service/automation/scheduler/scheduler.go:150-169 | In nanoseconds: a valid time resolves to the first minute, of the 1800 from the date's midnight, at which the clock shows that date and the asked hour and minute or later; to nothing exactly when none does |
| Scheduler.StraightStart | service/automation/scheduler/scheduler.go:150-169 | Where the clock reads straight through the day, that is midnight plus the asked hours and minutes |
| Scheduler.FirstStepIsFirst | service/automation/scheduler/scheduler.go:157-168 | The step found meets the test and no earlier one does |
| Scheduler.ResolveMonotone | service/automation/scheduler/scheduler.go:150-169 | On any clock a later local time resolves no earlier, and resolves only if the earlier one does |
| Scheduler.ResolvedDay | service/automation/scheduler/scheduler.go:150-169 | The result lies on the asked date exactly when the clock puts that date's midnight on it |
| Scheduler.ResolveDayStarts | service/automation/scheduler/scheduler.go:138-148 | All starts of the day in order, or nothing when one cannot be resolved |
| Scheduler.NextDistinctTransition | service/automation/scheduler/scheduler.go:115-136 | The result is the first start after now, day by day, whose effective state differs; no result means no start of eight days differs; an error means some start cannot be resolved |
| Scheduler.Calculate | service/automation/scheduler/scheduler.go:42-76 | Active period and index in force now, the first effective change after it, and an action that is never a no-op; each error exactly for its cause |
| Scheduler.ReportReads | service/automation/scheduler/scheduler.go:42-76 | What it reports where the clock runs straight through the next eight days of whole minutes: the active period is the last of today's periods that begins by the time of day, and the next change is `offset` times 24 hours plus the hour and minute of that date's period after today's midnight |
| Scheduler.ActiveReads | service/automation/scheduler/scheduler.go:42-76 | The period in force is the last of its weekday's that begins no later than the time of day |
| Scheduler.WeekdayOfKnownDates | service/automation/scheduler/scheduler.go:105-113 | Weekdays count from Sunday: 1 January 1970 was a Thursday, 1 January 2000 a Saturday, and they run in turn |
| Scheduler.ActionLeadsOver | service/automation/scheduler/scheduler.go:171-189 | The action takes a heater that meets the current period's demand to one that meets the next one's; two periods count as one state exactly when their demands are equal |
| Scheduler.StateHoldsUntilChange | service/automation/scheduler/scheduler.go:115-136 | Where the clock is regular on the nine dates from now, the effective state is constant from now up to the reported change |
| Scheduler.ChangeTakesEffect | service/automation/scheduler/scheduler.go:42-76 | At the reported instant the reported period is the one in force, exactly when no later start of the day resolves to the same instant |
| Scheduler.EarliestChange | service/automation/scheduler/scheduler.go:42-76 | No earlier instant has another effective state, and the reported one does unless a later start of the day shares it |
| Scheduler.NothingEverChanges | service/automation/scheduler/scheduler.go:115-136 | Eight days cover the week: when the scan finds nothing, no later instant has another effective state, up to any date through which the clock is regular |
| Scheduler.FirstChangeUnique | service/automation/scheduler/scheduler.go:115-136 | The first change is unique, so the answer is determined |
| Scheduler.IterationVisitsEveryChange | service/automation/scheduler/scheduler.go:42-76 | Iterating at each reported instant gives strictly increasing instants, constant state between them, a change across each, and each announced period in force, wherever the clock is regular on the nine dates ahead |
| Scheduler.Next | service/automation/scheduler/scheduler.go:78-103 | Among enabled programmes the earliest change, the first listed on a tie; no result only when every one is silent; other errors come from a failing programme |
| Clocks.UtcIsRegular | service/automation/scheduler/scheduler.go:191-197 | The regularity asked of a clock holds for UTC on all dates |
| Clocks.UtcIsStraight | service/automation/scheduler/scheduler.go:191-197 | UTC runs straight through days of 24 hours, on all dates |
| Clocks.LondonIsRegularSince1847 | service/automation/scheduler/scheduler.go:150-169 | It holds on every date since 2 December 1847, summer time included, for a clock like Europe/London that is irregular before |
| Clocks.LondonOldMidnight | service/automation/scheduler/scheduler.go:150-169 | That clock has an irregular midnight: local mean time ended with one, and the date falls on the day before |
| Clocks.SkippedMidnightResolvesYesterday | service/automation/scheduler/scheduler.go:150-169 | Without it the scan is wrong: on a date whose midnight the clocks skip, every resolvable start falls on the day before |
| Valve.App.ScheduleGreyWaterOpening | service/runtime/water.go:92-128 | Refuses, each exactly for its cause, a duration that is not positive or not whole minutes and a bad time; succeeds exactly when the duration is at most a day, the opening is not the zero time and the save works; then record and memory are the pending schedule, and nothing changes if not |
| Valve.OpeningIsAhead | service/runtime/water.go:110-115 | Where the clock is regular today and tomorrow the opening is in the future, today or tomorrow |
| Valve.OpeningShowsTime | service/runtime/water.go:106-115 | Where the clock runs straight through today and tomorrow it is the very next instant that shows the asked time of day |
| Valve.App.CancelGreyWaterOpening | service/runtime/water.go:130-138 | The schedule is removed from file and memory together, exactly when the save works, and nothing else of either changes |
| Valve.App.ExecuteDue | service/runtime/water.go:228-306 | One execution under any outcome of its effects is the run of the step machine's actions wake, mark, open, close, finish; an open valve is held until `minutes` after the time it was scheduled for |
| Valve.ExecutionCases | service/runtime/water.go:228-306 | What an execution leaves, case by case and in nanoseconds: nothing before the time or without a schedule; missed after the window; otherwise opened, held to the end of the window and closed, or stopped at the effect that failed |
| Valve.OpensInWindow | service/runtime/water.go:240-271 | A pending schedule executed from its time to its time plus its minutes, inclusive, whose effects succeed is opened by the present reading, closed and cleared, and ends completed without a schedule |
| Valve.MissedIff | service/runtime/water.go:240-246 | An execution that can save records a schedule as missed if and only if it is pending and its time plus its minutes has passed |
| Valve.App.SaveAndApply | service/runtime/water.go:169-191 | Memory changes only when the file has, and only to a storable record |
| Valve.App.Load | service/runtime/water.go:140-161 | A restart takes its state from the file alone |
| Valve.StepKeepsInv | service/runtime/water.go:193-288 | Every step, failure and crash keeps: memory equals file, at most one open per schedule, whatever is open is recorded as open |
| Valve.ScheduleOpensOnce | service/runtime/water.go:228-271 | Over any disciplined run with crashes a schedule commands open at most once, every open was allowed by a reading within [OpenAt, OpenAt + duration], and a valve left open is recorded as open |
| Valve.MarkedBeforeOpening | service/runtime/water.go:247-255 | The record reads open before the open command is given |
| Valve.ClosedBeforeCleared | service/runtime/water.go:258-288 | Between a successful open and the removal of its schedule a close is attempted |
| Valve.RestartCloses | service/runtime/water.go:193-271 | After a crash with the valve open, restarting and waking closes it and removes the schedule without opening again |
| Valve.CancelWhileOpenLeavesItOpen | service/runtime/water.go:130-138 | Why cancelling must wait: a run that cancels while open and then crashes leaves the valve open with nothing to close it |
| Valve.RewriteSafeIff | service/runtime/water.go:92-138 | At any point of any execution, a cancellation or new schedule that reaches the file keeps whatever is left open recorded as open, through all later disciplined steps and crashes, if and only if nothing is left open and no open command is about to be given |
| Modes.App.SetHeatingMode | service/runtime/mode.go:72-100 | Succeeds exactly when the state is valid, the heater obeyed and the save worked; file and memory change together or not at all |
| Modes.App.SetHeatingModeBoost | service/runtime/mode.go:44-59 | Succeeds exactly for a positive duration and a valid target when heater and save succeed; then memory is a boost to that target until that much later, over the mode and target held outside any boost |
| Modes.App.CancelHeatingModeBoost | service/runtime/mode.go:61-70 | Success restores exactly the mode and target the boost resumes; without a boost the state is returned as it is |
| Modes.App.ReconcileExpiredBoost | service/runtime/mode.go:215-240 | An expired boost is resumed in file and memory before the heater is told; a boost that has not expired is left alone |
| Modes.App.LoadRuntimeState | service/runtime/mode.go:102-121 | Default without a file, off for a corrupt one, resumed and saved for an expired boost, otherwise the file |
| Modes.RunKeepsInv | service/config/runtime_state.go:106-145 | After any calls, failures, expiries and reloads the state is valid, equals its file, and any boost resumes a supported mode with a target exactly when that is manual |
| Modes.ResumesValid | service/config/runtime_state.go:128-142 | Validate alone does not guarantee it: a valid boost, with or without a manual target of its own, resumes to a valid state exactly when its resume mode and resume target agree |
| Modes.StackedBoostsRestore | service/runtime/mode.go:123-159 | However boosts were stacked, failed, cancelled, expired or reloaded, one successful cancel or expiry restores the mode and target held before the first |
| Modes.BoostLasts | service/runtime/mode.go:123-131 | Until it expires, expiry checks and restarts leave a boost exactly as it is |
| Modes.BoostEndsOnTime | service/runtime/mode.go:44-142 | A boost set now lasts exactly its duration: an expiry check or a restart before then changes nothing, and one from then on puts back the mode and target held before |
| GeoJson.BuildGeoJson | service/tracking/manager.go:665-714 | The printed document: a feature without events, otherwise a collection of head and event points; and, read off the document, its header gives name, instants to the second, first and last, number of points and interval, and each event point kind, instant and position |
| GeoJson.ParseTrackFile | service/tracking/manager.go:716-741 | Accepts exactly line-string features whose times and positions pair up and parse |
| GeoJson.ParseActiveTrack | service/tracking/manager.go:766-806 | The loop over a collection's features equals the fold the round trip is proved about |
| GeoJson.SingleReads | service/tracking/manager.go:716-741 | A single feature is accepted exactly when it is a line with an instant for each position of two or three numbers, and name and samples are read off it |
| GeoJson.CollectionReads | service/tracking/manager.go:766-806 | Of a collection the last feature with samples, such a line or a dated point that is no event, gives name and samples; without one, or without a name, nothing is read |
| GeoJson.EventRead | service/tracking/manager.go:779-788 | Every other point with a kind and an instant adds one event, in order |
| GeoJson.RoundTrip | service/tracking/manager.go:665-806 | Parsing the print of a track gives it back to whole seconds if and only if times pair with positions of two or three numbers and, with events, there are points, a name and named kinds |
| GeoJson.TripReads | service/tracking/manager.go:665-806 | What such a trip gives back: name, positions and kinds as they were, every instant as the whole second it lies in |
| GeoJson.SecondTripExact | service/tracking/manager.go:665-806 | A second print and parse changes nothing more |
| GeoJson.BuiltLinesLongEnough | service/tracking/manager.go:489-491 | A printed document's line strings have two positions, as section 3.1.4 of RFC 7946 asks, exactly when there are two points or an event |
| TrackManager.PrintedParses | service/tracking/manager.go:485-806 | Every document this code writes parses back to a sound track and meets RFC 7946 |
| TrackManager.Manager.WriteTrack | service/tracking/manager.go:485-551 | Success puts the track's print under its present name, with its old suffix unless another file has that name and else the first free one, and overwrites no other file; failure leaves the track as it was, and at worst a second copy under an unused name |
| TrackManager.Manager.ChooseName | service/tracking/manager.go:497-508 | The name of the present range with the old suffix, exactly unless another file has it; then with the first free suffix |
| TrackManager.FirstFreeSuffix | service/tracking/manager.go:501-507 | The search for a free suffix ends, at the first free one from 2 |
| TrackManager.RangeCovers | service/tracking/manager.go:557-576 | The named range covers every sample and event of an ordered track, and begins and ends at one of them |
| TrackManager.WriteExact | service/tracking/manager.go:357-385 | Whatever the directory holds, a write or its rollback changes no file but the track's own, and loses recorded samples if and only if it succeeds over a file of its name that the track does not extend |
| TrackManager.BeginsClobbers | service/tracking/manager.go:387-431 | A session comes to stand over such a file exactly when it is daily and the day's first file records something and was neither read nor moved aside |
| TrackManager.UnreadableOverwritten | service/tracking/manager.go:404-417 | The loss itself: a day file that does not parse and could not be moved aside is gone after the session's first write |
| TrackManager.Manager.AppendSample | service/tracking/manager.go:357-385 | The sample is recorded as the last, on the UTC day it belongs to, and is in the file if the track is writable; otherwise times, points and events are as before, and so is the directory, at worst with a second copy under an unused name. Each file is unchanged, extended by the track, or moved aside, except exactly when a successful write covers a file the track does not extend; what is new on disk parses back |
| TrackManager.Manager.AppendEvent | service/tracking/manager.go:453-470 | The event is recorded at the last position, or dropped without one; a failed write rolls back and leaves the files, a stray copy apart; files are lost exactly as for a sample |
| TrackManager.RecordedSampleReads | service/tracking/manager.go:357-385 | The print of a track with a recorded fix parses to the track's positions followed by the fix, with every instant to the second |
| TrackManager.RecordedEventReads | service/tracking/manager.go:453-470 | That of a track with a recorded event parses to one event more, of that kind and second, at the track's last position |
| TrackManager.Manager.BeginSession | service/tracking/manager.go:387-431 | A daily session takes up the day's first file exactly where it left off, moves an unreadable one aside, or stands over it when that fails; otherwise an empty track under a free name. No file is lost yet, and a later loss is threatened exactly in the last case |
| TrackManager.Manager.ObserveEngine | service/tracking/manager.go:162-186 | Only changes of the engine signal count; in engine mode they begin a session or mark its end; the event is written as by `AppendEvent`; files are lost exactly as for a sample |
| TrackManager.Manager.Sample | service/tracking/manager.go:229-259 | A fix is recorded exactly when the mode's gate is open and the write works; a failed write leaves the files, a stray copy apart; files are lost exactly as for a sample appended |
| TrackManager.Manager.Delete | service/tracking/manager.go:336-355 | The file goes, and with it the session exactly if it was the active one; nothing happens if there is no such file |
| TrackManager.Manager.FindDayTrack | service/tracking/manager.go:433-451 | The first file of the day by name, if there is one |
| TrackManager.NotAfterReads | service/tracking/manager.go:433-451 | By name means: the first name is a beginning of the second, or has the smaller letter where they first differ |
| Migration.GroupByDay | service/tracking/migrate.go:53-81 | Each day's group is exactly the day's samples and events of all sources in order, and exists exactly when there are any |
| Migration.GroupsConserve | service/tracking/migrate.go:53-81 | Across the groups every sample and every event of every source appears exactly once |
| Migration.SortTrack | service/tracking/migrate.go:175-192 | The sorted track pairs each instant with its own position |
| Migration.SortedTrackOrdered | service/tracking/migrate.go:175-192 | In time order, and the same samples and events |
| Migration.SortedTrackStable | service/tracking/migrate.go:175-192 | Samples and events of one instant keep the order of their sources |
| Migration.TrackActivityRange | service/tracking/migrate.go:194-213 | Start and end are the first and last instants of samples and events together |
| Migration.RangeReads | service/tracking/migrate.go:194-213 | These are instants of the list, none of it before the one or after the other, as long as none is the zero time |
| Migration.StartsInDay | service/tracking/migrate.go:93-99 | The range that names a day's file starts on that day |
| Migration.TargetsDiffer | service/tracking/migrate.go:93-99 | Different days go to different files |
| Migration.MigratedParses | service/tracking/migrate.go:123-132 | A migrated day parses back exactly when it has two samples, or one and an event: lone points and bare events do not |
| Migration.MigratedSays | service/tracking/migrate.go:123-132 | What a migrated document says of its track, read off it as above; a lone sample is a point under the same header |
| Migration.MigratedLinesLongEnough | service/tracking/migrate.go:123-132 | A migrated day's line strings have two positions, as section 3.1.4 of RFC 7946 asks, lone samples being printed as points |
| Migration.ParseLegacyTrack | service/tracking/migrate.go:141-173 | The loop over a legacy collection equals the fold used above; nothing when there is no sample and no event |
| Migration.LegacyReads | service/tracking/migrate.go:141-173 | A legacy document is read as the tracker reads any, except that events need a position of two or three numbers and a name is not needed; it is invalid exactly when neither sample nor event is left |
| Migration.CountPoints | service/tracking/migrate.go:83-86 | Points is the number of samples of all sources |
| Migration.MigrationConserves | service/tracking/migrate.go:53-119 | The planned tracks together hold every sample and event of every source exactly once |
| Migration.DryRunAgrees | service/tracking/migrate.go:92-112 | A dry run reports, days, files, points and error alike, what a real run over the same directory does |
| Migration.WriteDays | service/tracking/migrate.go:92-112 | Days are written in order until a name is taken or a write fails; no existing file changes, and it fails only when more days are due than writes succeed |
| Migration.CountReads | service/tracking/migrate.go:92-112 | The days reported are those before the first whose target name is taken, which the error names; all of them without an error |
| Migration.IntervalReads | service/tracking/migrate.go:215-222 | The interval written is the first gap of the first source with two samples, five seconds without one |
| Migration.ArchiveSources | service/tracking/migrate.go:113-119 | Each source is under its own name or its archive name, unchanged, wherever the renaming stops |
| Migration.MigrateLegacyTracks | service/tracking/migrate.go:28-121 | The report is the specified one unless a write fails, which takes fewer writes that succeed than days and sources; a dry run changes nothing; success leaves every day's document and every source archived; failure loses no source |
| Alerts.Validate | service/notifications/alerts.go:39-75 | Accepts exactly the well-formed settings, and an error points at the first alert that is not |
| Alerts.Evaluator.Evaluate | service/notifications/alerts.go:116-172 | A reading moves the shared maps and sends as the step function of the whole evaluator says |
| Alerts.Evaluator.CheckSilence | service/notifications/alerts.go:174-196 | So does an offline check |
| Alerts.Evaluator.Configure | service/notifications/alerts.go:108-114 | Every alert starts afresh |
| Alerts.StepProduct | service/notifications/alerts.go:122-196 | With unique identifiers one event moves each alert's part of the shared maps as its own machine moves, with the same notifications |
| Alerts.RunProduct | service/notifications/alerts.go:122-196 | Over any run the notifications of one alert are those of its own machine |
| Alerts.OthersDoNotMatter | service/notifications/alerts.go:122-196 | Configuring the other alerts makes no difference to an alert's notifications |
| Alerts.SendCharacterised | service/notifications/alerts.go:148-172 | A side is sent exactly when the reading breaks the limit and either the last heard one did not and ten minutes have passed since the last send, or the alert repeats and five have |
| Alerts.SendsAreSpaced | service/notifications/alerts.go:12-13 | Two sends of a side are at least ten minutes apart in crossing mode and five in repeat mode, even if the clock steps back |
| Alerts.SuppressedCrossingStaysSilent | service/notifications/alerts.go:158-168 | In crossing mode a violation that begins within ten minutes of the last send is never announced while it lasts |
| Alerts.OfflineNoticesSeparated | service/notifications/alerts.go:122-132 | Between two offline notices of an alert its sensor gave a finite reading |
| Alerts.OfflineCharacterised | service/notifications/alerts.go:174-196 | An offline notice is given exactly at a check more than thirty minutes after the last finite reading of the sensor in the trace, with no offline notice since |
| Alerts.OutputIsWhatIsSent | service/notifications/alerts.go:122-196 | An alert's notifications at an event are one for each side sent, high before low before offline, each with its sensor, reading, limit and instant |
| AldePower.Evaluator.Evaluate | service/notifications/alde_power.go:22-55 | The fields and the warning follow the step function |
| AldePower.LatchFollowsTrace | service/notifications/alde_power.go:22-55 | The latch is the trace's outstanding warning, and the timer the start of the current run |
| AldePower.WarningCharacterised | service/notifications/alde_power.go:22-55 | A warning is given at a step exactly when the unbroken run of over-allowance steps of one session ending there spans a minute and none was given since the last disabled or known-safe step |
| AldePower.OverRunMaximal | service/notifications/alde_power.go:30-41 | The run is unbroken and maximal: unknown data, safe data, disabling and a new session end it |
| AldePower.WarningsSeparated | service/notifications/alde_power.go:26-41 | Between two warnings lies a disabled or known-safe step: unknown data and new sessions never rearm |
| SetPoint.SetTargetTemp | heating/client.go:134-196 | Against any heater: success means the observed target is the request, presses never exceed the distance in half degrees, and overshoot and a wrong end are never reported |
| SetPoint.WaitFor | heating/session.go:186-215 | The first observed state that is the target or lies between it and the previous one by any step nearer; nothing when none does |
| SetPoint.DriveSafe | heating/client.go:134-196 | The loop's safety from any intermediate target |
| SetPoint.DriveFollows | heating/client.go:134-196 | What the loop did, turn by turn, as a path of observed targets each nearer than the last: done at the target, failed at a press that could not be sent, timed out in a turn that showed nothing nearer |
| SetPoint.EchoReaches | cmd/servsim/echo.go:52-98 | Against the simulator the loop reaches any target, one press for each half degree |
| SetPoint.EchoModel.OnCommand | cmd/servsim/echo.go:52-98 | The simulator's new state and answering frames for every command |
| SetPoint.PowerAnswered | cmd/servsim/echo.go:52-98 | In the bytes of the wire: power on is answered by power 1 and busy 0, and by a first target of 20.0 degrees if there was none; power off by power 0 |
| SetPoint.ButtonsAnswered | cmd/servsim/echo.go:52-98 | Releasing button 107 or 108 moves the target, 20.0 degrees at first, half a degree up or down and answers with it; pressing them is not answered |
| SetPoint.OthersEchoed | cmd/servsim/echo.go:52-98 | Light and valve commands are echoed, and every other command leaves the simulator alone and unanswered |
| SetPoint.EchoModel.Observe | cmd/servsim/echo.go:34-50 | What the simulator learns from power and target frames |
| SetPoint.TargetRoundTrip | heating/state.go:133-140 | Decoding the simulator's target frame gives the target back whenever it fits the wire's int32 |
| SetPoint.TargetReads | heating/state.go:133-149 | Of eight bytes a target is read exactly from signal 105 with unit 22: the half degree Celsius nearest to the signed thousandths of a kelvin in the last four |
| SetPoint.HeaterState.Update | heating/state.go:77-131 | The new power, busy, pump, target and raw target values for every frame of any integers; true exactly when one of them changed, be it the raw value inside one half degree |
| Int32.SignedInt32 | service/adapters/garmin/adapter.go:599-611 | Accepts exactly four byte values, and encoding the result gives them back |
| Int32.LittleEndianRoundTrip | cmd/servsim/echo.go:119-130 | Four little-endian bytes of any int32 decode to it |
| Int32.BytesRoundTrip | heating/state.go:137 | Any four bytes are the encoding of what they decode to |
| Int32.DoubleWordOfBytes | heating/state.go:133-140 | The decoder's shifts and ors, which take any integers, combine four bytes as their weights say |
| TankLevel.Join | service/runtime/mopeka.go:191-203 | Cap and barrel formulas agree where they meet |
| TankLevel.VolumeGrows | service/runtime/mopeka.go:191-203 | A higher level holds strictly more |
| TankLevel.VolumeIsOfShape | service/runtime/mopeka.go:179-203 | The volume is that of a hemisphere with a barrel on top: pi times a quantity that starts from nothing and, between any two levels, grows by at least the lower squared surface radius and at most the upper one, times the height in between |
| TankLevel.PercentGrows | service/runtime/mopeka.go:209-214 | A higher level reads a strictly higher percentage |
| TankLevel.PercentRange | service/runtime/mopeka.go:209-214 | 0 when empty, 100 at the fill height, and above 100 exactly above it |
| TankLevel.PercentBelowLinear | service/runtime/mopeka.go:179-190 | The dome never reads more than the linear share of the height |
| Calibration.New | service/watercalibration/calibration.go:17-51 | Accepts exactly the finite curves from 0% to 100% that rise strictly in both coordinates |
| Calibration.AcceptsExactly | service/watercalibration/calibration.go:17-51 | The same condition over all pairs of points, though the loop compares neighbours |
| Calibration.LitresAtPercent | service/watercalibration/calibration.go:53-76 | The loop computes the interpolated curve, clamped at both ends and so for the infinities too; nothing for an empty curve, NaN for NaN |
| Calibration.KnotsHit | service/watercalibration/calibration.go:53-76 | The curve passes through every calibration point |
| Calibration.LinearBetween | service/watercalibration/calibration.go:53-76 | Between two neighbouring points litres grow in proportion to percent |
| Calibration.StrictlyIncreasing | service/watercalibration/calibration.go:53-76 | More percent is strictly more litres on [0, 100] |
| Calibration.WithinEnds | service/watercalibration/calibration.go:53-83 | Any percent at all gives litres between the first point's and the capacity |
| Btle.ParseADElements | service/adapters/btle/packet.go:24-40 | Returns the elements of the payload's decomposition, and success exactly when nothing is left over |
| Btle.ParsePrint | service/adapters/btle/packet.go:24-40 | Parsing a printed list of elements, zero padding anywhere, returns that list (Bluetooth Core, Vol 3 Part C section 11) |
| Btle.PrintParse | service/adapters/btle/packet.go:24-40 | Every byte belongs to exactly one element, is padding, or starts an element that overruns the payload |
| Btle.ParseAdvertisingReports | service/adapters/btle/packet.go:81-117 | The reports read through the event's slice, which reaches past the bytes that arrived into the rest of the buffer, or the first error in the order the code finds it; no panic with 257 bytes of buffer or more |
| Btle.ReportsRoundTrip | service/adapters/btle/packet.go:81-117 | Parsing a printed event returns its reports, whatever follows them, once three of its bytes have arrived and the rest is in the buffer (Bluetooth Core, Vol 4 Part E section 7.7.65.2) |
| Btle.AcceptedIsPrinted | service/adapters/btle/packet.go:81-117 | The buffer of every accepted event is the print of the reports read from it, which end where the length byte says or before |
| Btle.Receive | service/adapters/btle/hci_linux.go:91-110 | One round of the scan loop: the packet overwrites the front of the one buffer, the reports are read there behind the packet type, and the slice never leaves the 4096 bytes |
| Btle.ArrivedIsPrinted | service/adapters/btle/packet.go:81-117 | The bytes that arrived are themselves a print of the reports if and only if the declared length does not overrun them |
| Btle.TruthfulLength | service/adapters/btle/packet.go:88 | Then nothing the buffer holds behind them matters, be the event accepted or refused |
| Btle.LeftoversIgnored | service/adapters/btle/packet.go:88-114 | For an accepted event nothing behind the bytes that arrived matters if and only if the reports, as read, end within them |
| Btle.EarlierPacketHeardAgain | service/adapters/btle/hci_linux.go:91-110 | After any packet, its first five bytes alone make the scanner hear the same reports again |
| Btle.StaleBytesHeard | service/adapters/btle/packet.go:88-114 | Four bytes that declare fourteen: the report heard is made of leftovers, and changes with them |
| Btle.PrintMac | service/adapters/btle/packet.go:121-127 | The address bytes from last to first in hex |
| Btle.MacReads | service/adapters/btle/packet.go:121-127 | Each byte is two lower-case hex digits, the last byte first, with colons between |
| Btle.MacInjective | service/adapters/btle/packet.go:121-127 | The string determines the address |

## Left out

- WaterStore.Store.Observe: after a failed write only what became of the files is promised, not that memory agrees with the files until the next `Load` or finished `Compact`; memory may then hold samples the file lacks, and the spacing rule follows memory.
- WaterStore.Store.RecordGreyEmpty: on an instant already recorded the source may change the grey anomaly level in memory without writing it; the model does the same and file and memory agree only on the rest.
- WaterRuns.RunConserves: an hour that a compaction may lose for some levels counts as lost even if the levels at hand survive; the month labels come from a function assumed constant over each UTC hour.
- WaterStore.Store.Load: torn or unparsable lines, an unreadable chart file and a directory without write permission are not modelled.
- SensorHistory.HourlyHistoryConserved: with two samples of one sensor at one instant only coverage holds (every hour keeps a sample at least as late), because which of the two survives depends on order.
- SensorHistory.ArchiveNamesApart: month labels come from a function that is assumed to give seven characters, as `2006-01` does.
- Scheduler.Calculate: a nil location is not modelled; the time-zone database is any pair of functions, regular on the dates a lemma names; `Clocks.LondonIsRegularSince1847` has one summer only.
- Valve.App.ExecuteDue: a crash inside an execution is a step of the machine, not of this method; the wake channel, the manual hold buttons and the recovery of a corrupt record are left out, and so is the promise to close after an open command that reported failure, which the source does not make.
- Valve.ScheduleOpensOnce: schedules are neither made nor cancelled while one is open or executing (`Valve.RewriteSafeIff` is about those); the window is judged by the clock reading that allowed the opening, not by when the command reached the valve.
- Modes.App.SetHeatingMode: calls run one at a time; the commands that apply a mode to the heater enter as one outcome, so which commands they are and the heater's own state after a failed save are not tracked.
- GeoJson.RoundTrip: documents are trees; JSON text, number formatting and years beyond 9999 are left out.
- TrackManager.Manager.BeginSession: names are a function that is distinct for each suffix and carries the UTC day; a directory that cannot be listed and two files moved aside within one nanosecond are left out.
- TrackManager.Manager.AppendSample: what a file records is what the parser reads of it, to whole seconds; further features of a foreign document go when the track is written.
- TrackManager.Manager.Delete: names are not checked against the track pattern.
- Migration.MigrateLegacyTracks: the names of legacy files are an input; unreadable directories are left out, and archive names are assumed not to collide.
- AldePower.WarningCharacterised: assumes a clock that does not step back and readings other than Go's zero time; the message text is left out.
- SetPoint.SetTargetTemp: switching the heater on and reading its first target are inputs; the 0.01 tolerances disappear on the half-degree grid.
- SetPoint.HeaterState.Update: timestamps and evidence labels are left out.
- TankLevel.PercentBelowLinear: reals stand for floats, with no rounding.
- The water summary, document and usage prediction, tail loading of sensor files, chart files of older formats.
- Track listing, service-data and manufacturer-data lookup, telemetry scalars, the electric-supply decoder.
- HTTP, WebSocket, BLE sockets, discovery, location providers, web push, YAML and JSON text, fsync, logging and the web interface.
- Interleavings of concurrent calls: every locked operation is one step.
