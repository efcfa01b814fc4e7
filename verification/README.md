# Factory energy platform: verified model

A Dafny model of the parts of the platform that account for energy and move telemetry: the decision of what
each interval between two telemetry samples is worth, the aggregation of a window into totals and days, the
export pipeline with its checkpoints and retention, the fleet stream client, the response compressor, the
device simulator's queue, the shared token refresh, and feature entitlements.

`dafny verify dfyconfig.toml` checks the whole project.

## How the model is laid out

| file | what it models |
|---|---|
| `TelemetryNormalization.dfy` | one raw payload to one normalised sample |
| `IntervalEnergy.dfy`, `IntervalProperties.dfy` | the energy decision for two adjacent samples, and its properties |
| `ShiftCalendar.dfy`, `Sorting.dfy` | weekly shifts; the stable sort |
| `EnergyAccounting.dfy`, `AccountingTheorems.dfy` | rows to samples to window totals, and its properties |
| `CheckpointStore.dfy`, `Retention.dfy`, `RetentionHealing.dfy` | the checkpoint table, the object store, the retention pass, and what crashed passes leave |
| `ExportProtocol.dfy`, `ExportCoverage.dfy`, `ExportExactness.dfy`, `ExportProgress.dfy`, `ExportWorker.dfy` | export calls as effects, runs of them, what they cover and exactly when, how they advance, and the worker that drives them |
| `ExportInterleaving.dfy`, `ObjectReferences.dfy` | calls that overlap; objects that no checkpoint names |
| `FrameSplitter.dfy`, `StreamReconnect.dfy` | the fleet stream's event splitter and its reconnect machine |
| `GzipResponder.dfy` | the compressing ASGI responder |
| `StoreAndForward.dfy` | the simulator's bounded queue |
| `TokenRefresh.dfy` | single-flight token refresh over two layers |
| `Entitlements.dfy`, `Decimals.dfy` | feature lists, role order, the auth cache; numbers as text |

Code that updates state is a class or a method with loops; each is proved equal to a specification function,
and the properties are lemmas about that function. Everything outside the program is a parameter: clock
readings, query results, the broker's answers, and how each awaited call ends. Energies, powers and telemetry
times are reals; export times are whole microseconds. A crash is a call that persists only a prefix of its
effects, so a claim about every run holds in every crashed prefix of it too. Lemmas carry `{:induction false}`, so
that each proof is the one written.

## What the model shows about the code

- **A stuck meter bypasses the gap limits.** The noise-floor branch returns the fallback energy without
  looking at the gap (`services/shared/telemetry_normalization.py:487-508`). `LongGapCredit` says this is the
  only way past the limit of the crediting method, and exactly when it happens; `StuckMeterWindow` shows a window
  without a gap limit bill a gap of any length.
- **A window never reports an assumed power factor.** `aggregate_window` carries a `pf_estimated` flag meant
  to feed warnings (`services/shared/energy_accounting.py:230-232`), but `build_samples` never enables the
  option that would set it, and the row-level estimate never contributes. `WindowRefinesToPairs` has the flag
  false for every input.
- **Coverage has one exact condition.** An export that follows a failed or interrupted one starts at its own
  clock minus the lookback. `CoverageExactly` and `CallCoversExactly` say when that loses nothing: each instant
  between the latest completed batch end and the new window must have been read by an earlier answer, with its
  records written. `OutageLosesRecord` is a run that loses a record; `AnsweredGapLosesNothing` one whose
  window starts beyond that end and that does not; `FailureShadows` shows how a failure leads there;
  `RunsCover` gives a test that a caller can make.
- **A count that fails reads as zero** (`services/data-export-service/data_source.py:192-194`), so the call ends as if
  there were nothing to export. A count of zero therefore says nothing about the source here.
- **Checkpoints do not prevent every duplicate.** The service's README says they do; the window is
  start-inclusive, so a call made from a completed checkpoint exports again what the last batch holds of that
  instant, and nothing else (`OverlapIsTheBoundary`). A call made from the lookback window, after a failure, can
  repeat a whole batch (`CallExportsExactly`, `LookbackRepeats`). The model follows the code.
- **A crowded instant stops the export.** Repeated successful calls reach every record exactly while no instant on
  the way has as many records as a batch holds (`ReachedExactly`, `CrowdStops`); with a batch size of one
  `OneByOneNeverMoves` and `StuckRun` show a device that never gets past its first record.
- **Keys name days.** A later batch with the same first and last day replaces the object: `BatchKeptExactly` and
  `RowKeepsBatchExactly` say exactly when a batch survives, and `SameDayRunReplaces` is a run of two successful calls
  that leaves a written record in no object. Coverage is therefore stated about batches written.
- **A crashed retention pass** can leave rows whose object is gone: `CrashKeepsPresentExactly` says exactly when, and
  `CrashedPassOrphans` is a run. Only rows it was about to delete are affected, repeating it undoes the crash, and so
  does any later complete pass (`CrashOrphansListed`, `RepeatedPassHeals`, `LaterPassHeals`, `RunContained`). An
  ordinary shutdown is enough, since it cancels the worker wherever it is: `CancelledPassOrphans`, `RunWorkers`.
- **A pass between a forced export's write and its checkpoint** can delete the object just written, with every call
  successful: `PassBetweenOrphans`. Overlapping calls alone do no harm (`InterleavingKeeps`).
- **Objects can end up named by no checkpoint, and then no pass ever deletes them.** An idle call after a batch over
  midnight is enough (`IdleCallUnreferences`, `SaveUnreferencesExactly`, `UnreferencedForGood`); a row left
  IN_PROGRESS is never deleted either (`UnfinishedStays`).
- **A callback that throws can silence an active stream**, and a refresh that ends after the stop still clears the
  session (`ThrowingCallbackSilences`, `LateRefreshClears`).
- **Other messages overtake the response start** while the responder holds it, and one sent in place of a body leaves
  the start unsent (`ExtensionOrder`, `ExtensionOvertakes`).
- **A content type outside the compressible list is compressed too** when the response has a single body
  message (`services/shared/http_compression.py:133-148`); `Compresses` is the exact condition, `ImageIsCompressed`
  an instance.

## Model

| member | source | states |
|---|---|---|
| `TelemetryNormalization.ResolveFirst` | services/shared/telemetry_normalization.py:255-284 | the first alias, in order, that carries a number gives both value and field |
| `TelemetryNormalization.CandidatesExact` | services/shared/telemetry_normalization.py:233-243 | the candidate list holds every present power alias once, the winner first |
| `TelemetryNormalization.OverlapIsTwoCandidates` | services/shared/telemetry_normalization.py:245-246 | the alias flag is raised exactly when two different aliases are present |
| `TelemetryNormalization.ConflictIsOffBaseline` | services/shared/telemetry_normalization.py:247-249 | the conflict flag is raised exactly when some alias is over 1 W from the winner |
| `TelemetryNormalization.ResolveActivePower` | services/shared/telemetry_normalization.py:229-252 | the loop yields the winner in watts, its field and exactly those flags |
| `TelemetryNormalization.UnitsAgree` | services/shared/telemetry_normalization.py:234-243 | reporting the winning alias in W instead of kW gives the same power |
| `TelemetryNormalization.NormalizeTelemetrySample` | services/shared/telemetry_normalization.py:287-373 | the step-by-step normalisation yields the specified sample, flags included |
| `TelemetryNormalization.ImportExportSplit` | services/shared/telemetry_normalization.py:314-331 | import and export are non-negative, exclusive, and in bidirectional mode differ by the net power |
| `TelemetryNormalization.FlagsOfNormalisation` | services/shared/telemetry_normalization.py:292-349 | normalising raises none of the interval flags; export_seen iff export power is positive |
| `TelemetryNormalization.MirroredSamplesAgree` | services/shared/telemetry_normalization.py:310-345 | negated power and power-factor aliases under inverted polarity give the same sample for billing |
| `IntervalEnergy.ChooseFallback` | services/shared/telemetry_normalization.py:433-482 | measured power first, then V·I·pf, then an assumed pf where allowed |
| `IntervalEnergy.ComputeIntervalEnergyDelta` | services/shared/telemetry_normalization.py:376-640 | the flag-growing cascade takes the specified decision in every field |
| `IntervalProperties.CreditIsAllOrNothing` | services/shared/telemetry_normalization.py:390-640 | energy is never negative; credited classes cover the elapsed time exactly, the others neither time nor energy |
| `IntervalProperties.CounterCreditExactly` | services/shared/telemetry_normalization.py:484-564 | the counter settles an interval iff its step is forward, in time, within the hard maximum and in tolerance, or within noise against no positive fallback; the energy is the step, or zero |
| `IntervalProperties.EstimateExactly` | services/shared/telemetry_normalization.py:487-613 | an interval is estimated iff both endpoint powers are known and the counter does not settle it, within the gap unless within noise; the energy is the trapezoid |
| `IntervalProperties.TrapezoidBetween` | services/shared/telemetry_normalization.py:130-135 | estimated energy lies between the smaller and larger endpoint power held throughout |
| `IntervalProperties.ClassNamesEvidence` | services/shared/telemetry_normalization.py:469-613 | which evidence each quality class and method stands for, both ways |
| `IntervalProperties.LongGapCredit` | services/shared/telemetry_normalization.py:487-592 | an interval is credited past the gap limit of its own method iff the step is within the noise floor and the interval is longer than the limit of what then credits it; past both limits, iff within the noise floor |
| `IntervalProperties.CreditedGapRespected` | services/shared/telemetry_normalization.py:534-613 | outside the noise floor every credited interval respects its method's gap limit |
| `IntervalProperties.StuckMeterBillsTheGap` | services/shared/telemetry_normalization.py:487-508 | a stuck meter bills steady power over a silence of any length |
| `IntervalProperties.ReasonFollowsVerdict` | services/shared/telemetry_normalization.py:523-625 | on normalised samples each refusal reason names its verdict; reset and reverse are told apart as specified |
| `IntervalProperties.PolaritySymmetry` | services/shared/telemetry_normalization.py:310-640 | reversing the wiring and inverting the polarity changes nothing billed, over both stages |
| `IntervalProperties.CounterTelescopes` | services/shared/telemetry_normalization.py:484-564 | intervals settled by the counter sum to last minus first reading, up to one noise floor per noisy interval |
| `ShiftCalendar.IsInsideShift` | services/shared/energy_accounting.py:127-148 | the loop finds a covering shift iff there is one |
| `ShiftCalendar.WindowByWeekday` | services/shared/energy_accounting.py:140-147 | one shift's weekly window by weekday and second, over midnight and Sunday to Monday |
| `ShiftCalendar.InsideShiftIsWeekArithmetic` | services/shared/energy_accounting.py:112-148 | inside a shift iff the second of the week lies in an active parseable shift's window modulo the week |
| `Sorting.SortSpec` | services/shared/energy_accounting.py:203 | sorting gives a sorted permutation |
| `Sorting.SortIsStable` | services/shared/energy_accounting.py:203 | rows with equal times keep their order |
| `EnergyAccounting.BuildSamples` | services/shared/energy_accounting.py:188-245 | the three loops produce the sample of every sorted point |
| `EnergyAccounting.WindowTotals.AddInterval` | services/shared/energy_accounting.py:290-302 | one interval added to a mutable set of totals, field by field |
| `EnergyAccounting.WindowAccounting.SetDefault` | services/shared/energy_accounting.py:288-289 | a day's totals are created empty on first use and shared with no other day |
| `EnergyAccounting.WindowAccounting.Book` | services/shared/energy_accounting.py:288-316 | one charge lands once on its day and once on the window |
| `EnergyAccounting.WindowAccounting.Record` | services/shared/energy_accounting.py:262-316 | one sample's effect on the running account |
| `EnergyAccounting.AggregateWindow` | services/shared/energy_accounting.py:248-318 | the aggregation loop over mutable totals computes the specified window |
| `AccountingTheorems.AccountAppend` | services/shared/energy_accounting.py:262-316 | accounting distributes over concatenation of samples |
| `AccountingTheorems.WindowAdditive` | services/shared/energy_accounting.py:203-318 | cutting sorted points at a shared one and adding both halves gives the whole |
| `AccountingTheorems.RowsAdditive` | services/shared/energy_accounting.py:195-318 | the same over rows in time order, unusable rows anywhere, with the sample counts |
| `AccountingTheorems.CountedGapIff` | services/shared/energy_accounting.py:214-219 | a gap counts iff it is positive and within the limit |
| `AccountingTheorems.SampleCarriesEnergy` | services/shared/energy_accounting.py:221-229 | dividing by the duration and multiplying back leaves the pair's business energy; a counting sample is never estimated |
| `AccountingTheorems.WindowRefinesToPairs` | services/shared/energy_accounting.py:213-318 | every total, and every day's total, is the sum over adjacent pairs of their business energy, booked under what the machine was doing |
| `AccountingTheorems.CountedPairsWithinGap` | services/shared/energy_accounting.py:214-219 | a pair that contributes is forward in time and, with a gap limit set, within it |
| `AccountingTheorems.StuckMeterWindow` | services/shared/energy_accounting.py:188-318 | a stuck meter's window bills full power over a gap of any length, and nothing when a gap limit is set and exceeded |
| `AccountingTheorems.PowerFactorNeverAssumed` | services/shared/energy_accounting.py:222-232 | no interval of a window rests on an assumed power factor |
| `AccountingTheorems.StampedRowsAgreeOnTime` | services/shared/energy_accounting.py:209-226 | for rows with `timestamp` the decision's elapsed time is the counted gap |
| `AccountingTheorems.WindowMatchesMeter` | services/shared/energy_accounting.py:248-318 | a gapless window settled by the counter reports the meter's difference up to the noise floors |
| `AccountingTheorems.LossesBalance` | services/shared/energy_accounting.py:163-185 | idle, off-hours and over add up to the loss, which is at most the energy, in total and per day; without shifts all energy is off-hours |
| `AccountingTheorems.TotalIsSumOfDays` | services/shared/energy_accounting.py:288-316 | every field of the total is the sum of that field over the days |
| `AccountingTheorems.RowOrderIrrelevant` | services/shared/energy_accounting.py:195-203 | with no shared times the order of the rows does not matter |
| `CheckpointStore.UpsertSpec` | services/data-export-service/checkpoint.py:180-194 | an upsert keeps ids and (device, exported-at) unique, writes its row and changes no other |
| `CheckpointStore.LastCheckpointSpec` | services/data-export-service/checkpoint.py:97-106 | the last checkpoint has the device's greatest exported-at time, if any |
| `CheckpointStore.ListedMembers` | services/data-export-service/checkpoint.py:261-280 | the retention list holds eligible rows only, in (updated_at, id) order |
| `CheckpointStore.LatestReferenceSpec` | services/data-export-service/checkpoint.py:282-298 | the latest reference to a key is the newest row that has it |
| `Retention.CheckpointTable.DeleteByIds` | services/data-export-service/checkpoint.py:300-310 | exactly the rows with the ids go, and they are counted |
| `Retention.ApplyCheckpointRetention` | services/data-export-service/retention.py:13-39 | the loop deletes the doomed objects and then the listed rows, and counts both: as many artifacts as there are doomed keys |
| `Retention.OldestExpiredGo` | services/data-export-service/checkpoint.py:267-280 | only expired terminal rows are deleted, oldest first, as many as the batch allows |
| `Retention.RetentionExact` | services/data-export-service/retention.py:17-32 | a referenced object survives iff a row referring to it does, for every limit and with ties; unreferenced objects stay |
| `Retention.EligibleGrows` | services/data-export-service/checkpoint.py:267-275 | the rows eligible at a cutoff are the first of those eligible later |
| `Retention.RerunAfterCrash` | services/data-export-service/retention.py:22-32 | a pass crashed after any deletion and repeated, also later or larger, ends as if it had not crashed |
| `ExportProtocol.Exporter.PickWindow` | services/data-export-service/exporter.py:49-81 | the window choice, with its two range errors |
| `ExportProtocol.Exporter.SaveCheckpoint` | services/data-export-service/checkpoint.py:180-194 | an awaited save takes effect or not, and raises or not, as its answer says |
| `ExportProtocol.Exporter.WriteBatch` | services/data-export-service/s3_writer.py:100-200 | an awaited write takes effect or not, and raises or not, as its answer says |
| `ExportProtocol.Exporter.TryExport` | services/data-export-service/exporter.py:45-227 | the body up to the handler has the script's effects, or a prefix that the failure completes |
| `ExportProtocol.Exporter.ExportDeviceData` | services/data-export-service/exporter.py:35-261 | one call changes table and store by exactly the script of effects |
| `ExportProtocol.ScriptJustified` | services/data-export-service/exporter.py:157-248 | a COMPLETED save always follows the write it names; all others carry no key |
| `ExportProtocol.RetentionKeepsProtocol` | services/data-export-service/retention.py:13-39 | a complete pass keeps what the table says backed, and leaves no key without its object |
| `ExportProtocol.CrashKeepsPresentExactly` | services/data-export-service/retention.py:22-32 | a pass that crashes after its first rows leaves every key with its object iff none of those rows is the latest reference to its key |
| `ExportProtocol.CrashOrphansListed` | services/data-export-service/retention.py:22-32 | a key that a crashing pass leaves without its object belongs only to rows that pass was about to delete |
| `ExportExactness.CrashedPassOrphans` | services/data-export-service/retention.py:22-34 | a run of one completed call and one crashed pass after which a COMPLETED row names a missing object |
| `ExportProtocol.RepeatedPassHeals` | services/data-export-service/retention.py:17-32 | a crashed pass followed by its repetition, also later or larger, is that repetition alone |
| `RetentionHealing.LaterPassHeals` | services/data-export-service/retention.py:13-39 | whatever passes crash and whatever calls and passes come in between, the next complete pass with no earlier cutoff and no smaller limit leaves no key without its object, if what is saved in between is stamped no earlier than the crashed cutoffs |
| `RetentionHealing.RunContained` | services/data-export-service/retention.py:13-39 | in every run, with passes crashing and completing any number of times, rows without an object are among those a pass with the reach of the unhealed crashes would delete, and none when no crash is unhealed; provided calls made meanwhile stamp nothing before that cutoff |
| `ObjectReferences.SaveUnreferencesExactly` | services/data-export-service/checkpoint.py:180-194 | a save leaves an object unreferenced iff every row with its key is the one overwritten, with another key |
| `ObjectReferences.PassUnreferencesNothing` | services/data-export-service/retention.py:17-32 | no pass, whole or cut, leaves an object unreferenced or deletes one that is |
| `ObjectReferences.UnreferencedForGood` | services/data-export-service/retention.py:17-32 | an unreferenced object stays, through any passes and calls, until a batch of the same device and days is exported again |
| `ObjectReferences.UnfinishedStays` | services/data-export-service/checkpoint.py:267-275 | a row that is neither COMPLETED nor FAILED survives every pass |
| `ObjectReferences.IdleCallUnreferences` | services/data-export-service/exporter.py:74-203 | a run of two successful calls, the second without new telemetry, that leaves the object of a batch over midnight unreferenced, with a record no other object holds |
| `ExportProtocol.ProtocolHolds` | services/data-export-service/exporter.py:157-248 | in every crashed prefix of every run, crashed retention passes included, a row has a key iff COMPLETED and each COMPLETED row was preceded by its batch's write under the recomputed key; while no pass has crashed that key is in the store |
| `ExportInterleaving.InterleavingKeeps` | services/data-export-service/exporter.py:35-261 | however the effects of any number of calls take turns, with passes anywhere, COMPLETED rows are backed; their keys name objects while passes are whole and none runs between a write and its completion |
| `ExportInterleaving.PassBetweenOrphans` | services/data-export-service/exporter.py:168-203 | a run in which every call succeeds and the pass is whole, but deletes the object a forced export has just written |
| `ExportProtocol.RunsKeepKeysOnCompleted` | services/data-export-service/checkpoint.py:180-194 | the hypothesis of exact retention holds after every run |
| `ExportProtocol.ForcedRangeWithoutTelemetry` | services/data-export-service/exporter.py:93-149 | a forced range without telemetry writes nothing and leaves a FAILED checkpoint at its end |
| `ExportProtocol.StoreHoldsLastWrite` | services/data-export-service/s3_writer.py:53-65 | in every run each object is the last batch written under its day-grained key |
| `ExportProtocol.BatchKeptExactly` | services/data-export-service/s3_writer.py:53-65 | a written batch is what its key holds iff the device's last batch with the same first and last day is that batch |
| `ExportProtocol.RowKeepsBatchExactly` | services/data-export-service/exporter.py:176-203 | a COMPLETED row's key holds the row's own batch iff the last batch written under it ends at the row's time with its record count |
| `ExportCoverage.BatchIsGapless` | services/data-export-service/data_source.py:70-78 | a limited sorted query leaves out nothing older than its last record |
| `ExportCoverage.CallHistory` | services/data-export-service/exporter.py:151-203 | a call completes nothing, or has written and then completed one batch |
| `ExportCoverage.StepCovers` | services/data-export-service/exporter.py:74-203 | one step keeps coverage when its window starts no later than the frontier |
| `ExportCoverage.StepCoversEnds` | services/data-export-service/exporter.py:151-203 | a record that ends a completed batch and shares its time with none was written |
| `ExportCoverage.GuardMeansNoGap` | services/data-export-service/exporter.py:74-81 | a completed last checkpoint, or a long enough lookback, means no gap |
| `ExportCoverage.RunsCover` | services/data-export-service/exporter.py:35-261 | over whole runs every record from the first start to the latest completed end is in a written batch |
| `ExportExactness.WrittenExactly` | services/data-export-service/exporter.py:35-261 | for any two instants, every record between them is surely written, whatever source gave the run's answers, iff for each instant some answer showed all its records and those are written |
| `ExportExactness.CoverageExactly` | services/data-export-service/exporter.py:35-261 | the same up to the latest completed batch end: a run covers iff every instant up to there is settled |
| `ExportExactness.CallSettles` | services/data-export-service/exporter.py:120-203 | a completing call settles every instant from its window's start to as far as its answer has read: the clock, or the last record of a truncated answer |
| `ExportExactness.CallCoversExactly` | services/data-export-service/exporter.py:74-203 | after a covered run a completing call keeps coverage iff every instant between the frontier and the start of its window is settled already |
| `ExportExactness.OutageLosesRecord` | services/data-export-service/exporter.py:77-81 | a run of three calls, the second failed and the third late, whose own answers fit a source with a record it never writes |
| `ExportExactness.AnsweredGapLosesNothing` | services/data-export-service/exporter.py:77-81 | a run whose last window starts beyond the frontier and that covers all the same, because an earlier answer had read that far |
| `ExportExactness.SameDayRunReplaces` | services/data-export-service/s3_writer.py:53-65 | a run of two successful calls on one day after which both rows name one key and a written record is in no object |
| `ExportProgress.FailureShadows` | services/data-export-service/exporter.py:229-248 | after a failure the next incremental window starts at the clock minus the lookback |
| `ExportProgress.BatchAdvancesExactly` | services/data-export-service/exporter.py:120-152 | a batch ends later iff a newer record is visible and the limit exceeds the records at the start |
| `ExportProgress.OverlapIsTheBoundary` | services/data-export-service/exporter.py:75-203 | of two successful calls in a row from a completed checkpoint, the second batch starts where the first ends, begins with what the first holds of that instant in the same order, and repeats a record of the first iff it lies there |
| `ExportExactness.CallExportsExactly` | services/data-export-service/exporter.py:120-152 | any call that writes a batch exports, again or not, the records from its window's start to as far as its answer has read; at that instant itself, an untied record iff the answer is truncated |
| `ExportExactness.LookbackRepeats` | services/data-export-service/exporter.py:77-81 | a run in which the call after a failure exports the whole earlier batch again |
| `ExportProgress.SuccessMovesCheckpoint` | services/data-export-service/exporter.py:157-203 | a successful call leaves the last checkpoint COMPLETED at its batch end |
| `ExportProgress.CheckpointAfter` | services/data-export-service/exporter.py:74-203 | with no crowded instant before the target, each successful call passes the target or leaves one record fewer before it |
| `ExportProgress.TargetReached` | services/data-export-service/exporter.py:74-203 | then as many successful calls as there are records before a target reach it |
| `ExportProgress.CrowdStops` | services/data-export-service/exporter.py:120-152 | no number of successful calls moves the checkpoint past an instant with as many records as a batch holds, nor writes a later record |
| `ExportProgress.ReachedExactly` | services/data-export-service/exporter.py:74-203 | from a checkpoint whose instant holds a record, repeated successful calls reach a target iff no instant from the checkpoint to before it has as many records as a batch holds |
| `ExportExactness.OneByOneNeverMoves` | services/data-export-service/exporter.py:120-152 | with a batch size of one and two records, the checkpoint stays at the first and the second is never written, however many calls succeed |
| `ExportExactness.StuckRun` | services/data-export-service/exporter.py:120-152 | such runs exist at every length, with the second record there to be seen |
| `ExportWorker.ExportWorker.RunRetentionIfDue` | services/data-export-service/worker.py:142-150 | a pass runs iff forced, first or due since the last whole one; one that raises or is cancelled, after some rows or all, is that event of a run and leaves the last run as it was |
| `ExportWorker.ExportWorker.ExportAllDevices` | services/data-export-service/worker.py:152-190 | the device loop, stopped before any device or cancelled after any effect of a call, is a run |
| `ExportWorker.ExportWorker.RunLoop` | services/data-export-service/worker.py:103-140 | the main loop does exactly the events of the life specified: first pass forced, an exception of a pass skips a cycle or, in the first, ends the loop, a cancellation ends it |
| `ExportWorker.RunWorkers` | services/data-export-service/worker.py:73-190 | over whole lives of workers, one after another, with stops, cancellations and cut passes anywhere, every COMPLETED row is backed; its key names an object while no pass is cut, and again whenever the last pass was whole, if the database's clock lags the worker's by no more than the retention period |
| `ExportWorker.CancelledPassOrphans` | services/data-export-service/worker.py:73-150 | a worker's life, cancelled inside a pass, that leaves a COMPLETED row without its object |
| `FrameSplitter.IndexOf` | ui-web/lib/fleetStreamReconnect.ts:87 | the first blank line, or none |
| `FrameSplitter.SplitAppend` | ui-web/lib/fleetStreamReconnect.ts:79-99 | splitting a part and then its leftover with the rest is splitting the whole |
| `FrameSplitter.RestHasNoSeparator` | ui-web/lib/fleetStreamReconnect.ts:87-98 | the leftover never contains a blank line |
| `FrameSplitter.SplitLosesNothing` | ui-web/lib/fleetStreamReconnect.ts:87-98 | chunks, separators and leftover give back the text |
| `FrameSplitter.SplitJoin` | ui-web/lib/fleetStreamReconnect.ts:87-98 | splitting undoes framing (LF framing of section 9.2.6 of the WHATWG HTML standard) |
| `FrameSplitter.FrameReader.OnChunk` | ui-web/lib/fleetStreamReconnect.ts:84-98 | one chunk hands on every complete event and keeps the rest |
| `FrameSplitter.FeedIsOneShot` | ui-web/lib/fleetStreamReconnect.ts:79-99 | feeding the pieces is splitting their concatenation |
| `FrameSplitter.ChunkingIrrelevant` | ui-web/lib/fleetStreamReconnect.ts:79-99 | the events do not depend on how the stream is cut |
| `FrameSplitter.ReadStream` | ui-web/lib/fleetStreamReconnect.ts:79-99 | a whole connection hands on the events of the one-shot split |
| `StreamReconnect.FleetStreamConnector.HandleAll` | ui-web/lib/fleetStreamReconnect.ts:24-162 | over any sequence of callbacks the connector stays safe, never connects again once inactive, and pays every connect without an open from the budget |
| `StreamReconnect.RunConnector` | ui-web/lib/fleetStreamReconnect.ts:24-162 | from its creation on: one activity at most, six connects in a row without an open at most, five once one succeeded, silence while active only when they are used up, a refresh rejected, or a callback threw where nothing catches it |
| `StreamReconnect.AlwaysSafe` | ui-web/lib/fleetStreamReconnect.ts:24-162 | under every interleaving, with callbacks throwing or not, one activity at most, six attempts at most without an open, silence while active only for those three reasons |
| `StreamReconnect.ThrowingCallbackSilences` | ui-web/lib/fleetStreamReconnect.ts:100-128 | an onError that throws after a failed fetch leaves an active connector with nothing pending, its retries unused |
| `StreamReconnect.LateRefreshClears` | ui-web/lib/fleetStreamReconnect.ts:134-160 | a refresh awaited when the stream is stopped still clears the session if it brings no token |
| `StreamReconnect.StoppedStaysStopped` | ui-web/lib/fleetStreamReconnect.ts:131-160 | once inactive, never active nor connecting again |
| `StreamReconnect.AttemptsBounded` | ui-web/lib/fleetStreamReconnect.ts:124-147 | without an open every connect is paid from a budget nothing refills |
| `GzipResponder.SetSpec` | services/shared/http_compression.py:141-144 | setting a header makes it readable and leaves the others |
| `Decimals.DecimalReadsBack` | services/shared/http_compression.py:143 | the length written into the header reads back |
| `GzipResponder.Respond` | services/shared/http_compression.py:96-163 | the responder, fed any messages, sends what the specification says; a conforming response is conserved in each of the ways below, extensions anywhere in between or not |
| `GzipResponder.WhileMore` | services/shared/http_compression.py:112-131 | until the last body a response is either forwarded as it came or wholly held back |
| `GzipResponder.Outcome` | services/shared/http_compression.py:96-163 | the three things a conforming response can turn into, and when |
| `GzipResponder.ResponseConserved` | services/shared/http_compression.py:96-163 | one start, one final body last, the body or its coding, and a Content-Length equal to the bytes sent (sections 8.4.1.3 and 8.6 of RFC 9110) |
| `GzipResponder.EventStreamForwarded` | services/shared/http_compression.py:123-128 | an event stream is forwarded message by message |
| `GzipResponder.ExtensionsApart` | services/shared/http_compression.py:108-110 | over any sequence extensions are all forwarded in order and change nothing else that is sent |
| `GzipResponder.ConservedWithExtensions` | services/shared/http_compression.py:96-163 | without its extensions what is sent conserves what was given without them |
| `GzipResponder.StartSentExactly` | services/shared/http_compression.py:123-163 | the start has been sent iff some body was final, or any body of a streamed response |
| `GzipResponder.ExtensionOrder` | services/shared/http_compression.py:108-110 | an extension goes at once behind what has been sent, so it overtakes the start iff no body has released it |
| `GzipResponder.ExtensionOvertakes` | services/shared/http_compression.py:108-110 | an extension before the body is sent before the start; one in place of the body leaves the start unsent |
| `GzipResponder.ImageIsCompressed` | services/shared/http_compression.py:133-148 | a PNG of at least the minimum size in a single body message is compressed, although its type is not compressible |
| `StoreAndForward.DeviceSimulator.RunLoop` | tools/device-simulator/simulator.py:142-167 | the main loop, over any passes, loses and doubles no sample, keeps the queue bounded and in order, counts acknowledgements, drops only older samples and spaces heartbeats |
| `StoreAndForward.DeviceSimulator.FlushPendingPayloads` | tools/device-simulator/simulator.py:217-243 | the loop replays from the front until a failure, a hundred, or the end |
| `StoreAndForward.QueueConserves` | tools/device-simulator/simulator.py:169-254 | in every run each sample is acknowledged, pending or dropped exactly once, the queue is bounded and first in first out, and dropped samples are older than pending ones |
| `StoreAndForward.HeartbeatsSpaced` | tools/device-simulator/simulator.py:264-269 | heartbeats are never closer than the interval |
| `TokenRefresh.RefreshIsAuthRequest` | ui-web/lib/apiFetch.ts:33-40 | the refresh request counts as an auth request whatever the base address |
| `TokenRefresh.RunClient` | ui-web/lib/apiFetch.ts:42-120 | the client's variables under any interleaving: an outstanding refresh is the one in flight, no call makes more than two fetches, no refresh request waits or retries |
| `TokenRefresh.RefreshIsSingleFlight` | ui-web/lib/apiFetch.ts:42-54 | under every interleaving one refresh outstanding at most, none triggered by a refresh, two fetches per call at most |
| `TokenRefresh.WaitersAreServed` | ui-web/lib/apiFetch.ts:50-53 | a waiting call's promise is settled, about to settle, or in flight |
| `Entitlements.UniqueOrdered` | services/shared/feature_entitlements.py:144-152 | the loop keeps the first of each |
| `Entitlements.UniqueSpec` | services/shared/feature_entitlements.py:144-152 | no duplicates, same members |
| `Entitlements.NormalizeFeatureKeys` | services/shared/feature_entitlements.py:102-121 | the loop normalises, or reports the first unknown feature |
| `Entitlements.NormalizedSpec` | services/shared/feature_entitlements.py:102-121 | it succeeds iff all features are known, and then removes repeats |
| `Entitlements.RolesAreOrdered` | services/shared/feature_entitlements.py:220-242 | viewer, operator, plant manager, org admin see ever more, without duplicates |
| `Entitlements.BuiltStateOrdered` | services/shared/feature_entitlements.py:209-255 | the same of the built state, with the caller's own list |
| `Entitlements.PlantManagerSeesExactly` | services/shared/feature_entitlements.py:227-240 | a plant manager sees the baseline, granted machine health, and what is granted, delegated and delegatable |
| `Entitlements.EntitlementsRoundTrip` | services/shared/auth_middleware.py:123-142 | an entitlement state comes back from its cached form unchanged |
| `Entitlements.CacheKeyIsInjective` | services/shared/auth_middleware.py:119-120 | a cache key names one user and one pair of versions, whatever the user id contains |
| `Entitlements.CacheRoundTrip` | services/shared/auth_middleware.py:145-182 | an auth state put into the cache comes back in every field for the same user and versions, and changes what no other user or version finds |

## Left out

- Float rounding, NaN, infinities and the parsing of numbers, dates and shift texts: values are reals and optional values; a shift text is the list of integers its fields convert to.
- Zone rules: the platform zone is an arbitrary function from instants to local stamps.
- `is_phase_diagnostic_field` ignores case and surrounding blanks of a field name; the model classifies keys once.
- `effective_business_power_w`, `to_dict` and the version strings: single expressions and presentation.
- The order in which quality flags are listed: they are a set.
- A row without `timestamp` is normalised at the moment of the call; the model takes that reading as part of the row, so additivity of such rows assumes the same reading in both calls.
- Exception texts other than the three literal ones, logging, durations and result objects of an export call.
- MySQL, S3, InfluxDB, MQTT and HTTP themselves: a table, a map, a sorted start-inclusive range query with a limit and no late arrivals, and answers from outside. Record times are whole microseconds.
- The effects of a retention pass taking turns with those of a call: a pass, whole or crashed, is one step, which may fall between any two effects of calls.
- The import energy of an interval, which is its business energy on every path: one field stands for both.
- The worker's sleeping, shutdown event and `force_export` argument check: runs allow any order of calls and passes.
- gzip itself (RFC 1952): a compressor with an inverse. Environment defaults and the request-side test of Accept-Encoding are outside the responder.
- A callback that calls the stream's stop function before it returns.
- Decoding bytes to text in the stream client, and the events' contents.
- `authFetch` beyond its calls of the refresh, tenant headers, and a synchronous throw before the first await.
- `simulator.py` signal handling and reconnect backoff; a sample is its generation number.
- The loop over the four fixed roles in `build_feature_entitlement_state` is a map display; values of a cached list that are not text are rejected rather than converted.
- Expiry and failures of the auth cache: an entry is in the map or it is not; JSON text is a writer with an inverse.
- Authorisation checks, token signatures and tenant isolation: not part of this model.
