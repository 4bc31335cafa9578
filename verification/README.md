# Corpus rebuild and bar store: a Dafny model

This project models the code that rebuilds the feature table of a trading-data platform and keeps its bar
tables, and proves what that code promises over every run rather than over single calls. It covers:

- **bulk_load** as a protocol. Any number of sessions take an advisory lock, open a provenance row, pass or fail a
  precheck, replace or append rows in one data transaction, mark failures in a commit of their own, and may be
  killed between any two steps (`LoadProtocol`, `LoadInvariant`, `LoadSafety`; the class `LoadStore.Database` is
  the imperative call, proved to be a run of the protocol; `LoadStream` is its row loop, `BatchIdentity` its keys
  and what they say of the DELETE).
- **The disk-budget planner**: calendar arithmetic (`Civil`), pro-rated row counts (`RowCounts`), projected peaks
  (`DiskBudget`), the guard before each load (`DiskGuard`), the greedy partition of years (`YearSplit`, `SpanCuts`,
  `SpanPlanner`), and the budget over a whole run with compression, kills and resumes (`BudgetRun`).
- **The rebuild stage**: unit ranges and spans (`RebuildUnits`), the compression bound (`Compression`), the two-deep
  pipeline and its accounting (`RebuildStage` and `StagePipeline` on values, `RebuildPipeline` on the summary
  object), the spool files (`Spool`, `SpoolUnit`, `SpoolLoad`), adoption by a run (`StageProblems`), and what a run
  has once all its steps are completed, over the provenance rows of the load protocol (`RunCompletion`).
- **The durable step runner** (`RunnerChain`, `StepRunner`; `StepRaces` for several processes at once).
- **The bar store**: the write contract and the two derivation stages (`WriteContract`, `BarDerivation`), reading
  past values through the revision log (`BarHistory`), the selection writer (`BarSelection`), the session grid
  (`SessionGrid`), and the row accumulator (`Accumulator`).

`Prelude`, `Text`, `TextOrder` and `Decimals` hold what the others share. `dafny verify dfyconfig.toml` checks the
whole project.

## Where the code and its documentation disagree

The model follows the code; each point is a lemma.

- `BulkLoadSpec` says every field but the run takes part in the batch key. The time column does not, symbols enter
  joined with `|`, and replace_where values enter printed, so two symbol lists can share a key, and so can a missing
  value and the text "None" or a number and its digits (`BatchIdentity.KeysAgree`, `SymbolsCanCollide`,
  `PrintsCanCollide`).
- `_bulk_load_delete_statement` says the DELETE and the supersede flip are one definition. The flip goes by the
  printed mapping, the DELETE by its values: a batch of the same unit key is always retired, but keeps each row the
  loading mapping does not name (`LoadSafety.RetiredBatchKeepsRowIff`), and a load whose mapping asks for a missing
  value retires the batch of "None" without deleting a row (`LoadSafety.RetiredButNotDeleted`). Two mappings delete
  alike exactly when they want the same values (`BatchIdentity.SameScopeIff`). Only the results on what a
  replacing unit's scope holds assume that unit keys tell the DELETEs apart in this sense
  (`LoadProtocol.KeysFixScopes`), which they do wherever all values are texts (`LoadInvariant.LabelsFixScopes`).
- `unit_key` and `bulk_load` say units that must coexist may differ in writer, tf or replace_where. The DELETE reads
  replace_where alone: a batch survives another unit's load exactly when none of its rows matches that mapping
  (`LoadSafety.BatchSurvivesIff`), and two units that differ only in tf do not coexist
  (`LoadSafety.UnitsOfTwoTimeframesDoNotCoexist`).
- `footprint_before` says a plan that fits passes every step's gate. That holds for every span step at every moment
  (`BudgetRun.SpanGatesNeverRefuse`), and for the 1d stage too when no 1h row is on disk by then
  (`BudgetRun.GateNeverRefuses`). The pilot writes 1h rows first and compresses what it may: the 1d gate then passes
  exactly when those rows fit beside the 1d peak, less what compression has freed (`BudgetRun.DailyGateAfterPilotIff`),
  and a plan that fits can fail it (`BudgetRun.PilotCanFailTheDailyGate`).
- `value_as_of` says a value first served after the asked time gives nothing. A bar first stored after it gives its
  first value instead, exactly when it has since been overwritten or was answered by then
  (`BarHistory.ValueAsOfIsHeldIff`), and `adjusted_pairs` then pairs a close that was not held
  (`BarHistory.PairsAreHeldPairs`).
- A spool reads back as written unless a text holds a carriage return, which text mode turns into a line end
  (`Spool.SpoolReadsBackIff`); an empty label comes back as missing (`Spool.NormalIff`).
- A unit that another session completes between planning and its load fails the run's step as foreign; the retry
  adopts it (`RunCompletion.UnitCountsIff`, `RetryEndsClean`).
- Appending chunks while single rows are buffered changes the row order (`Accumulator.CallOrderIff`).

## Model

| member | source | states |
|---|---|---|
| BatchIdentity.KeysAgree | services/_batch_utils.py:386-482 | two specs share a batch key exactly when they agree on all but the time column, the run, how separator-bearing symbols are grouped, and replace_where values that print alike |
| BatchIdentity.KeysAgreeOnPlainSymbols | services/_batch_utils.py:452-482 | when no symbol holds the separator, the sorted symbol list is part of the identity |
| BatchIdentity.UnitsAgree | services/_batch_utils.py:361-382 | two specs name one unit exactly when writer, target and tf agree and their mappings print alike, lists in any order |
| BatchIdentity.SymbolOrderNeverMatters | services/_batch_utils.py:402-439 | the order a caller lists the symbols in never changes the identity |
| BatchIdentity.SymbolsCanCollide | services/_batch_utils.py:452-454 | a concrete pair of different symbol lists with one key, so a load of the second is skipped |
| BatchIdentity.SameScopeIff | services/_batch_utils.py:755-777 | two mappings delete the same rows of every table exactly when they want the same values in the same columns, or neither can match anything |
| BatchIdentity.LabelsKeepTheirScopes | services/_batch_utils.py:361-382 | while every value is a text, equal unit keys mean equal DELETEs |
| BatchIdentity.OneTextTwoValues | services/_batch_utils.py:361-382 | among missing values, texts, integers and booleans, two different values print alike only when one of them is that text |
| BatchIdentity.PrintsCanCollide | services/_batch_utils.py:361-382 | concrete pairs, a missing value and "None", 1 and "1", with one batch key and two DELETEs |
| LoadStream.ClampIsProjection | services/_batch_utils.py:711-716 | the float clamp gives only storable values, leaves storable ones alone and keeps order |
| LoadStream.ClampOf | src/core/real_column_range.py:44-58 | a magnitude below the smallest becomes zero, one above the largest the largest of its sign, every other value stays |
| LoadStream.CopyRows | services/_batch_utils.py:692-718 | the COPY loop accepts exactly the time-ordered in-range streams of the right width and names the first bad row of any other |
| LoadStream.CleanIsOrdered | services/_batch_utils.py:697-707 | an accepted stream is ordered and in range end to end, not only between neighbours |
| LoadInvariant.StepKeepsInv | services/_batch_utils.py:502-752 | every step of every session keeps locks, generations, the single completed row of a unit, its row count, and that each stored row is as a committed batch streamed it |
| LoadInvariant.RunKeepsInv | services/_batch_utils.py:502-752 | the same for every reachable state, kills at any point included, whatever the loads stream |
| LoadInvariant.RunKeepsHeld | services/_batch_utils.py:673-732 | while every load streams rows of its own unit only, a completed batch keeps all its rows |
| LoadInvariant.RunKeepsScopes | services/_batch_utils.py:755-777 | where unit keys tell the DELETEs apart besides, no stored row is left without a completed batch |
| LoadInvariant.DeleteStaysInUnit | services/_batch_utils.py:755-777 | under that discipline the DELETE reaches no row of another unit key |
| LoadInvariant.DeleteReachesOwnUnit | services/_batch_utils.py:755-777 | where unit keys tell the DELETEs apart, it reaches exactly the rows of the unit's own batches |
| LoadInvariant.LabelsFixScopes | services/_batch_utils.py:457-464 | where every replace_where value is a text, unit keys tell the DELETEs apart |
| LoadInvariant.OnlyCommitsChangeTables | services/_batch_utils.py:619-752 | no step but a data transaction changes a stored row or a completed batch |
| LoadSafety.TableIsUnionOfBatches | services/_batch_utils.py:673-732 | no partial load is ever visible: a stored row is as a committed batch streamed it, a completed one for append-only units; in a disciplined run where unit keys tell the DELETEs apart the table is exactly the completed batches' rows |
| LoadSafety.ExactlyOnce | services/_batch_utils.py:606-752 | an append-only unit has one provenance row; none of its rows is stored before it completes, and after it only those its one load streamed, all of them while no other load's mapping names them |
| LoadSafety.ScopeIsTheCurrentBatch | services/_batch_utils.py:673-732 | a replacing unit has at most one completed row; in a disciplined run where unit keys tell the DELETEs apart its scope holds exactly that batch's rows |
| LoadSafety.OnlyItsOwnCommitTouchesAUnit | services/_batch_utils.py:727-732 | a failed, refused or killed replacement leaves a unit's rows and completed batch as they were, and so does any other unit's load, its rows as long as loads stream their own rows only |
| LoadSafety.StepsPassTheGuard | production/migrations/386_provenance_batch.sql:86-216 | no step deletes a provenance row or makes a status move the table's guard refuses |
| LoadSafety.StatusesMove | production/migrations/386_provenance_batch.sql:142-155 | in every run a row's status keeps or moves from started to completed or failed, from failed to started, from completed to superseded, and never otherwise |
| LoadSafety.HistoryIsNeverRewritten | production/migrations/418_provenance_batch_generation.sql:94-118 | over any stretch of a run a superseded row never changes and a completed one can only be superseded |
| LoadSafety.GenerationsAreContiguous | services/_batch_utils.py:619-660 | a key's generations are exactly 1 to n and all below n are superseded |
| LoadSafety.StreamedIsKept | services/_batch_utils.py:673-732 | what a settled batch streamed is never restated |
| LoadSafety.StreamedWasCommitted | services/_batch_utils.py:719-728 | the rows recorded for a batch come from a data transaction that happened |
| LoadSafety.CommittedOnce | services/_batch_utils.py:619-732 | no batch has two data transactions |
| LoadSafety.CommitStampsItsRun | services/_batch_utils.py:719-728 | a data transaction leaves its row completed, counted, without an error, under its own session's run |
| LoadSafety.CompletedUnderItsRun | services/_batch_utils.py:244-251 | over every run a completed row names the run of the session whose data transaction completed it, whoever opened the row first |
| LoadSafety.CompletedLoadIsFinal | services/_batch_utils.py:619-632 | an append-only unit's completed row never changes again, and in a disciplined run neither do its rows |
| LoadSafety.RetryAlwaysPossible | services/_batch_utils.py:633-660 | whatever was left behind, a session that gets the lock of a unit not completed can load it |
| LoadSafety.BatchSurvivesIff | services/_batch_utils.py:755-777 | a batch survives another unit's load exactly when none of its rows matches that load's mapping |
| LoadSafety.UnitsOfTwoTimeframesDoNotCoexist | services/_batch_utils.py:456-464 | a concrete pair of units that differ in tf, where the second load empties a batch still marked completed |
| LoadSafety.RetiredBatchKeepsRowIff | services/_batch_utils.py:755-765 | a commit retires every other completed batch of its unit key, and each of their rows stays exactly when the loading mapping does not name it |
| LoadSafety.RetiredButNotDeleted | services/_batch_utils.py:755-765 | a concrete load that retires a batch and leaves its row stored with no completed batch behind it |
| LoadStore.Database.TryLock | services/_batch_utils.py:581-585 | the lock is taken exactly when no session holds it, as one step of the protocol |
| LoadStore.Database.LastGeneration | services/_batch_utils.py:236-239 | the key's last generation, 0 if it has none |
| LoadStore.Database.OpenProvenance | services/_batch_utils.py:619-660 | skips exactly a completed key, else leaves a row started without an error under this load's own run: one attempt more than the row it takes over, or the first of the next generation; no other row changes |
| LoadStore.StageRows | services/_batch_utils.py:687-718 | the COPY is staged exactly when no primary key repeats or conflicts, and holds every row |
| LoadInvariant.KeysOfRowsAgree | services/_batch_utils.py:687-718 | two rows conflict exactly when they agree in every column of the table's primary key |
| LoadStore.Database.DataTransaction | services/_batch_utils.py:673-732 | delete, supersede, copy and complete take effect together or not at all |
| LoadStore.Database.MarkFailed | services/_batch_utils.py:849-866 | the failure mark is its own commit, and losing it leaves the row started |
| LoadStore.Database.BulkLoad | services/_batch_utils.py:502-752 | when each result occurs, if and only if, and the tables after it: a missing time column or a held lock changes nothing, a precheck refusal leaves the row started, a failure leaves it failed, both leave the rows, and a lost acknowledgement leaves the load done |
| LoadStore.CleanStreamRows | services/_batch_utils.py:692-718 | the table rows of an accepted stream are the streamed values column by column, clamped in the real columns |
| Civil.MonthSpan | services/corpus_rerun_budget.py:117-118 | a month lasts 28 to 31 days and lies inside its calendar year |
| Civil.ChunkFloorHolds | services/corpus_rerun_budget.py:125-127 | the chunk of an instant holds it, and chunk starts keep time's order |
| Civil.ChunkEndsByIff | services/corpus_rerun_budget.py:125-127 | compressing every chunk that ends by a bound compresses exactly the time before the bound's chunk |
| RowCounts.CountRows | services/corpus_rerun_budget.py:87-99 | the loop over the counts computes the pro-rated sum |
| RowCounts.RowsAddOverTime | services/corpus_rerun_budget.py:87-99 | cutting an interval anywhere loses no row and counts none twice |
| RowCounts.RowsAddOverTfs | services/corpus_rerun_budget.py:87-99 | disjoint timeframes cut the rows too |
| RowCounts.RowsAreSpreadEvenly | services/corpus_rerun_budget.py:87-99 | a month's rows are spread evenly: a stretch inside it holds its share of its length |
| RowCounts.MinusTakesTheCell | services/corpus_rerun_budget.py:104-109 | nothing of a cell that is not stored is taken off, and of a stored one its rows, down to zero |
| RowCounts.MinusLeavesTheRest | services/corpus_rerun_budget.py:104-109 | what is left to write is part of the counts, and cell by cell the count less what is stored, never negative |
| DiskBudget.LargestGroupIsLargest | services/corpus_rerun_budget.py:174-178 | no (timeframe, chunk) group of an interval exceeds the spool term's group |
| DiskBudget.LargestGroupIsAttained | services/corpus_rerun_budget.py:174-178 | that bound is some real group's rows |
| DiskBudget.GateWithinPeak | services/corpus_rerun_budget.py:246-265 | a step's modelled start plus its increment never exceeds its span's peak, whatever the compression ratio |
| BudgetRun.CompressionFrees | services/corpus_rerun_budget.py:201-217 | with a ratio of at least 1, moving the compression frontier on never means more bytes |
| BudgetRun.IntradayGateHolds | services/corpus_rerun.py:1059-1105 | the gate of a span's step stays within the span's peak for any part of the step already written and any frontier past the open chunk |
| BudgetRun.FrontierReachesTheNextSpan | services/corpus_rerun.py:1184-1208 | the 1d stage, and the last timeframe of a span, leave everything before the next span's open chunk compressed: their units are completed and they compressed up to their bound |
| BudgetRun.SpanEndCheckPasses | services/corpus_rerun.py:1199-1206 | the check for uncompressed chunks at the end of a span holds of itself once the stage has ended without a problem and compressed |
| BudgetRun.RowsLandAhead | services/corpus_rerun_budget.py:201-217 | no row is ever written behind the compression frontier |
| BudgetRun.StepsKeepInv | services/corpus_rerun_budget.py:185-265 | at every moment of a run, with or without a pilot, what is written and compressed is what the peaks assume |
| BudgetRun.StepsAreInOrder | services/corpus_rerun.py:150-164 | the gated steps come one after another, each once: the 1d stage, then each span's 1h, 15m and 5m, and none after the last |
| BudgetRun.NoOtherStepExecutes | services/backfill_feature_factory.py:1875-1895 | a planned unit is executed by one step only |
| BudgetRun.SpanGatesNeverRefuse | services/corpus_rerun.py:1059-1105 | pilot or not, a plan that fits passes every span step's gate at every moment of every run: part way, during compression, after a kill |
| BudgetRun.GateNeverRefuses | services/corpus_rerun_budget.py:246-265 | without a pilot, a plan that fits passes every step's gate at every moment of every run: between steps, part way, during compression, after a kill |
| BudgetRun.PassingGateLeavesRoom | services/corpus_rerun.py:1059-1105 | at every moment of every run, whatever the step can still write, with the WAL and two spools of any of its groups, takes no more than the gate's bytes: a gate that passes leaves room for the whole step |
| BudgetRun.DailyGateAfterPilotIff | services/corpus_rerun.py:1212-1240 | at every moment of the 1d stage after a pilot its gate passes exactly when the 1d peak and the intraday rows already there, less what compression has freed, stay within the limit |
| BudgetRun.PilotCanFailTheDailyGate | services/corpus_rerun.py:1212-1240 | a concrete plan that fits and whose 1d gate the pilot's rows make fail |
| YearSplit.NearestCandidate | services/corpus_rerun_budget.py:291-294 | the scan picks the candidate nearest the target, the first of equals |
| YearSplit.CutsIncrease | services/corpus_rerun_budget.py:289-295 | no candidate range is empty: each cut is past the one before and leaves a year for every later span |
| YearSplit.SpansAreAboutEqual | services/corpus_rerun_budget.py:284-296 | no span holds more than an even share plus the largest single year |
| YearSplit.CutYears | services/corpus_rerun_budget.py:284-295 | the greedy loop computes these cuts |
| SpanCuts.SpansPartitionTheYears | services/corpus_rerun_budget.py:296-296 | the spans start with the first year, end with the last, meet end to start, and hold at least a year each |
| SpanCuts.WholeInOneSpan | services/corpus_rerun_budget.py:279-296 | whatever lies within one of the years lies whole in exactly one span and touches no other |
| SpanPlanner.SplitYears | services/corpus_rerun_budget.py:279-296 | spans are returned exactly when there is a year for each, and they are the partition |
| SpanPlanner.SpanRowsAreAboutEqual | services/corpus_rerun_budget.py:280-281 | "about equal": a span's rows are at most total/n plus the largest year |
| SpanPlanner.PlanSpans | services/corpus_rerun_budget.py:317-341 | the plan is the least span count that fits, and it refuses exactly when none fits |
| SpanPlanner.NoRowBeforeTheSpans | services/corpus_rerun_budget.py:111-114 | the spans of a split start by the first intraday row still to be written |
| SpanPlanner.YearsEndWithRows | services/corpus_rerun_budget.py:111-114 | the years to cover start and end with a year that holds intraday rows, and there are none when no row is intraday |
| SpanPlanner.EveryRowInOneSpan | services/corpus_rerun_budget.py:317-341 | every month with an intraday row, stored or not, is rebuilt whole by exactly one span |
| SpanPlanner.SplitIsPlanned | services/corpus_rerun_budget.py:327-341 | the spans of a split start by the horizon's year and hold the start of every intraday unit |
| SpanPlanner.PlannedRunPassesEveryGate | services/corpus_rerun_budget.py:246-251 | whatever plan_spans returns, no gate refuses at any point of any pilot-free run of it, a resume with stored rows included |
| SpanPlanner.PlannedSpansPassTheirGates | services/corpus_rerun.py:1059-1105 | the same of every span step when the pilot ran first |
| SpanPlanner.PeakCountsEveryRowOnce | services/corpus_rerun_budget.py:201-217 | in a span's peak every intraday row before its end is in exactly one of three terms and every 1d row in exactly one of two |
| DiskGuard.UnitDiskGuard.Check | services/corpus_rerun_budget.py:397-417 | a unit is refused exactly when its projected bytes leave no room under the limit or above the reserve |
| DiskGuard.UnitDiskGuard.LoadUnits | services/backfill_feature_factory.py:1785-1862 | a stage's loads, each checked before and measured after, up to the first refused one |
| DiskGuard.RatioIsLargest | services/corpus_rerun_budget.py:384-386 | over any run the ratio is the largest of the seed and every ratio measured |
| DiskGuard.OnlyARecordLoadPassesTheLimit | services/corpus_rerun_budget.py:397-417 | in every run of guarded loads all but the last leave the growth, WAL included, within its share of the free space at launch and the reserve free, and so does the last unless it stored more per spool byte than the seed and every load before it |
| DiskGuard.GuardedLoadsKeepTheLimit | services/corpus_rerun_budget.py:381-417 | while no load stores more per spool byte than the seed, no run of guarded loads passes the fraction limit or the reserve |
| DiskGuard.LargerRatioRefusesMore | services/corpus_rerun_budget.py:384-386 | a larger measured ratio never admits a unit a smaller one refused |
| RebuildUnits.RebuildUnitRanges | services/backfill_feature_factory.py:757-789 | one range per calendar year up to the horizon, or the whole history for 1d |
| RebuildUnits.RangesDependOnTheYearOnly | services/backfill_feature_factory.py:757-772 | a deeper backfill inside the first year renames no unit |
| RebuildUnits.YearOfInstant | services/backfill_feature_factory.py:780-789 | an instant lies in exactly one calendar year |
| RebuildUnits.EveryBarInItsYearsUnit | services/backfill_feature_factory.py:780-789 | a bar is in the unit of its own year and no other |
| RebuildUnits.EveryBarHasAUnit | services/backfill_feature_factory.py:780-789 | no bar from the first year up to the horizon is left without one |
| RebuildUnits.EveryUnitInOneSpan | services/backfill_feature_factory.py:1875-1895 | each planned unit is executed by exactly one span step of its timeframe and lies inside that span |
| RunCompletion.EveryPlannedUnitBelongs | services/corpus_rerun.py:1162-1210 | once stage_1d and every span step have completed without a problem, each planned unit has a completed row, the run's own or adopted under the same batch key, at any later moment and whatever other sessions load |
| RunCompletion.CompletedRunHasEveryUnit | services/corpus_rerun.py:871-913 | the same from the runner's own rows: when all rebuild steps are completed, over any calls, kills and retries, each was completed by a call whose stage had no problem |
| StepRunner.CompletedByACall | services/corpus_rerun.py:892-913 | a step other than the data gate is completed by a call whose handler returned |
| StepRunner.CompletedByOneCall | services/corpus_rerun.py:257-267 | and by one call only |
| RunCompletion.UnitCountsIff | services/_batch_utils.py:351-358 | at the end of a stage a unit counts for the run exactly when it was found completed at planning or a session of the run has committed its load |
| RunCompletion.OwnedIffLoaded | services/_batch_utils.py:351-358 | an append-only unit's completed row names a run exactly when a session of that run committed its load |
| RunCompletion.RetryEndsClean | services/backfill_feature_factory.py:2141-2153 | a retry adopts whatever was completed before it: its stage has no problem but its own failures |
| RunCompletion.CompletedOwnerStays | services/_batch_utils.py:344-358 | a completed append-only row is there for good, under the run that loaded it |
| Compression.CompressionBound | services/backfill_feature_factory.py:1499-1539 | the loop returns the greatest bound that no pending unit's start and not the open chunk floor lies before |
| Compression.LoopBoundIsBound | services/backfill_feature_factory.py:1520-1539 | over groups that list the planned units, it is the bound the runs below compress by |
| Compression.DoneIff | services/backfill_feature_factory.py:2246-2255 | the bound is the open chunk floor exactly when no pending unit starts before it |
| Compression.FeatureTable.CompressCompleted | services/_batch_utils.py:891-910 | exactly the chunks that end by the bound are compressed besides those that were, each as one step of the run |
| Compression.FeatureTable.EndStage | services/backfill_feature_factory.py:2239-2255 | a stage's end computes the bound and leaves no chunk that ends by it uncompressed |
| Compression.RunKeepsSound | services/backfill_feature_factory.py:1509-1518 | over any sequence of stages, kills included, the compressed chunks are exactly those before a frontier that never goes back and never passes a pending unit's start |
| Compression.RunRemembers | services/backfill_feature_factory.py:1499-1539 | completed units, chunks and compressed chunks of a state are exactly what the run began with and what its loads and compressions made of them |
| Compression.NoPendingUnitIsLockedOut | services/_batch_utils.py:830-834 | after any sequence of stages, failures and kills, the precheck passes for every unit not completed |
| Compression.OverlapsIff | services/_batch_utils.py:815-834 | a chunk counts as overlapping a unit exactly when some instant lies in both |
| Compression.OpenChunkStaysOpen | services/backfill_feature_factory.py:1493-1496 | no compressed chunk reaches into the horizon's year |
| Compression.RenamedUnitIsRefusedIff | services/backfill_feature_factory.py:1516-1518 | over every run of stages, a unit the plan does not hold is refused exactly when a chunk it overlaps ends by the largest bound compressed so far |
| Compression.FrontierReaches | services/corpus_rerun.py:1199-1206 | a stage that compressed up to its bound, knowing every unit before an instant to be completed, leaves no chunk that ends by that instant uncompressed |
| StagePipeline.PipelineRefinesSequence | services/backfill_feature_factory.py:2115-2220 | the two-deep pipeline ends as the one-group-at-a-time stage does, with its fates; beyond a refusal it only skips or abandons |
| StagePipeline.FatesOfAFullRun | services/backfill_feature_factory.py:1741-1872 | in a stage that runs to its end a unit is skipped, loaded with its rows or failed exactly as its completion, its group's workers and its own load say, and there is no other fate |
| StagePipeline.StageFatesAreDecreed | services/backfill_feature_factory.py:1741-1872 | after a refusal too, every fate is the one the world decides of some unit of the scope, or an untried unit's abandonment |
| RebuildStage.LoadsInOrder | services/backfill_feature_factory.py:1784-1862 | in a group whose workers succeed each unit is tried in order: failed for a failed load, skipped when found completed, loaded with its rows; the one the guard refuses fails and those after it are abandoned |
| RebuildStage.StageAddsUp | services/backfill_feature_factory.py:1741-1872 | units_total is skipped plus loaded plus failed plus abandoned, and every unit of the scope has a fate |
| RebuildStage.CompletedIff | services/backfill_feature_factory.py:1840-1854 | no unit has two fates, and one is in the completed set exactly when it was skipped or loaded |
| RebuildStage.TallyAddsUp | services/backfill_feature_factory.py:1840-1854 | each counter is how often its fate occurs, the row sum is that of the loaded units, and exactly the completing fates mark their key |
| RebuildStage.CleanStageCompletesItsScope | services/corpus_rerun.py:1164-1167 | when nothing failed or was abandoned, every unit of the scope is in the completed set |
| RebuildPipeline.Stage.Decide | services/backfill_feature_factory.py:1840-1854 | one unit's fate moves its counter, its row sum and the completed set, and nothing else |
| RebuildPipeline.Stage.Plan | services/backfill_feature_factory.py:2122-2163 | planning counts a group's scope, skips its completed units and returns the rest |
| RebuildPipeline.Stage.WriteGroup | services/backfill_feature_factory.py:1741-1872 | one group's units get the fates of GroupLoadsEnd, in order, in the summary's counters |
| RebuildPipeline.GroupLoadsEnd | services/backfill_feature_factory.py:1741-1872 | a lost worker fails every unit; otherwise each is tried in order up to the one the guard refuses, which fails, and those after it are abandoned |
| RebuildPipeline.Stage.PlanNextGroup | services/backfill_feature_factory.py:2205-2209 | a group with work is handed to the workers before the group ahead loads, and is abandoned if that one is refused |
| RebuildPipeline.Stage.Run | services/backfill_feature_factory.py:2115-2220 | the stage ends as the pipeline does and with the sequential stage's fates, a refusal adding only skips and abandonments; its counters and row sum are those of its units' fates, and its completed set holds what was planned completed, found completed or loaded, and nothing else |
| Decimals.IntRoundTrip | services/backfill_feature_factory.py:1244-1244 | an integer time printed in decimal reads back |
| Spool.LineRoundTrip | services/backfill_feature_factory.py:1232-1267 | a line reads back as its row, empty labels as missing |
| Spool.SpooledIff | services/backfill_feature_factory.py:1236-1238 | a spool is refused exactly when a text holds a comma or a newline |
| Spool.SpoolRoundTrip | services/backfill_feature_factory.py:1232-1267 | a whole file reads back as its rows |
| Spool.AnyNewlineReadsBack | services/backfill_feature_factory.py:1254-1267 | read in text mode, each of the three newlines reads back as one |
| Spool.SpoolReadsBackIff | services/backfill_feature_factory.py:1254-1267 | it does so exactly when no text holds a carriage return |
| SpoolUnit.KeptIff | services/backfill_feature_factory.py:1297-1302 | a row is kept exactly when it is in range, past the warmup and trading |
| SpoolUnit.EveryRowInOneUnit | services/backfill_feature_factory.py:1297-1302 | over a symbol's units each kept row is written exactly once, by its year's unit |
| SpoolUnit.WriteUnitSpool | services/backfill_feature_factory.py:1273-1332 | the block loop writes the kept rows' lines whatever the block size, and returns their count |
| SpoolUnit.MergeKeepsRows | services/backfill_feature_factory.py:1824-1824 | the k-way merge loses, adds and repeats nothing |
| SpoolUnit.MergeIsInOrder | services/backfill_feature_factory.py:1824-1824 | merging time-ordered streams gives a time-ordered stream |
| SpoolLoad.PartReadsBack | services/backfill_feature_factory.py:1254-1332 | a symbol's spool reads back as its kept rows, in order and inside the unit |
| SpoolLoad.SpooledUnitLoads | services/backfill_feature_factory.py:1784-1850 | the files the workers write for a unit read back, and merged they are an ordered permutation of its kept rows, always accepted by the load, stored as they are, as many as declared |
| SpoolLoad.UnitRowsAreKeptRows | services/backfill_feature_factory.py:1254-1267 | each table row of the load is one kept row, column by column: symbol, timeframe, bar time, the two regime texts and every numeric value under its own name, missing ones NULL |
| StageProblems.Problems | services/corpus_rerun.py:1162-1182 | a stage has no problem exactly when nothing failed or was abandoned and every unit's completed row is the run's own or adopted |
| StageProblems.AdoptedIff | services/backfill_feature_factory.py:2141-2153 | a unit is adopted, from exactly its row's run, when it was found completed under another |
| RunnerChain.BuildSteps | services/corpus_rerun.py:150-164 | the gates, the pilot, the 1d stage, 1h, 15m and 5m of each span, and the closing steps, in this order, each step's upstream the one before it |
| RunnerChain.StepNamesAreDistinct | services/corpus_rerun.py:150-164 | no two steps share a name, however many spans |
| StepRunner.CompletedStepsAreAPrefix | services/corpus_rerun.py:871-913 | over any calls and kills the completed steps are a prefix of the chain |
| StepRunner.CompletedStaysAsItIs | services/corpus_rerun.py:257-267 | a completed step's row never changes again |
| StepRaces.PendingStepCanComplete | services/corpus_rerun.py:871-913 | whatever other processes do, a step not completed whose upstream is completed can be read, begun and completed by a process that runs nothing |
| StepRaces.PrefixNeedsNoLock | services/corpus_rerun.py:871-913 | however many processes run steps at once, statement by statement, the completed steps are a prefix and the data gate's result stands exactly with its step |
| StepRaces.CompletedRowsStay | services/corpus_rerun.py:257-267 | nor does any statement of any process change a completed row |
| StepRunner.GateStoredIffCompleted | services/corpus_rerun.py:401-423 | the data gate's result is stored exactly when its step is completed, with its caveat code exactly once |
| StepRunner.RunsIff | services/corpus_rerun.py:871-890 | a step is refused exactly when its upstream is not completed |
| StepRunner.FirstPendingStepCanRun | services/corpus_rerun.py:257-262 | a step left started or failed can always be run again |
| StepRunner.ThroughReturnsCompleted | services/corpus_rerun.py:915-922 | through returns normally only with every step up to its own completed, and touches none beyond |
| StepRunner.Runner.RunStep | services/corpus_rerun.py:871-913 | execute on the stored rows, a kill or an error at any point of the handler included |
| StepRunner.ExecuteEnds | services/corpus_rerun.py:871-913 | each way a call can end: left alone, refused, completed with its summary, failed with its summary or error, or started when killed, and no other step's row changed |
| StepRunner.Runner.RunThrough | services/corpus_rerun.py:915-922 | the loop stops at the first step that does not end well |
| StepRunner.Runner.StoreGate | services/corpus_rerun.py:401-423 | result, caveat and completion together, only on a started step |
| WriteContract.Classify | src/intelligence/bars/write_contract.py:57-91 | new, changed, unchanged and removed rows by exact value; an error exactly when a NaN is compared |
| WriteContract.WriteGivesExpected | services/bar_derivation.py:1454-1515 | applying a delta gives the incoming rows inside its scope and the stored ones outside |
| WriteContract.UndoGivesStored | services/bar_derivation.py:1475-1484 | the table before a write is recoverable from its revision rows and inserted keys |
| WriteContract.SecondWritePlansNothing | src/intelligence/bars/write_contract.py:1-20 | writing the same rows again plans nothing |
| WriteContract.PlansNothingIff | src/intelligence/bars/write_contract.py:57-91 | a write plans nothing exactly when the table already is what it should become |
| WriteContract.LoggedIff | services/bar_derivation.py:1475-1484 | a key's old value is logged exactly when the write changes or removes it |
| WriteContract.RefusedIsFlagged | src/intelligence/bars/write_contract.py:94-124 | a refused removal would also have been flagged |
| WriteContract.RefusesRemovalIff | src/intelligence/bars/write_contract.py:108-124 | a write is refused exactly when it is not waived, enough rows are stored, and more than the allowed share of their keys would be lost |
| WriteContract.RevisionFlaggedIff | src/intelligence/bars/write_contract.py:94-107 | a write is flagged exactly when it replaces or deletes more than the allowed share of enough stored rows |
| WriteContract.ComparesNaNIff | src/intelligence/bars/write_contract.py:53-77 | the comparison stays clear of NaN exactly when each incoming row and the stored row it meets hold numbers or nothing |
| WriteContract.KeepsTheRest | src/intelligence/bars/write_contract.py:108-124 | one that is not keeps the rest of the stored keys |
| WriteContract.NothingPlannedNothingRefused | src/intelligence/bars/write_contract.py:94-124 | a write that plans nothing is neither flagged nor refused |
| BarDerivation.HoldsVendorRowsIff | services/bar_derivation.py:1143-1155 | a stored row fails the grid exactly when its vendor or its kind is not the derived grid's; all others are compared |
| BarDerivation.GridStore.PlanGrid | services/bar_derivation.py:1128-1172 | the deltas of all timeframes, whether vendor rows are stored, and whether any removal is refused |
| BarDerivation.GridStore.WriteDerived | services/bar_derivation.py:1454-1515 | every timeframe's delta and revision rows take effect together or not at all |
| BarDerivation.GridStore.RunSymbol | services/bar_derivation.py:1334-1449 | when a symbol fails, is refused (some timeframe would lose too many of its stored bars) or applied; only an applied load changes bars, flags or digests, then to exactly the derived ones, keeping its share of the stored bars |
| BarDerivation.AppliedLoadIsReversible | services/bar_derivation.py:1475-1484 | each timeframe's prior bars are recoverable from the load's revision rows and inserted keys |
| BarDerivation.SecondRunPlansNothing | services/bar_derivation.py:1128-1205 | a second run on the same inputs plans no bar, flag or digest write and is not refused |
| BarDerivation.FlagsBecomeDesired | services/bar_derivation.py:1173-1187 | deleting and writing the planned flags leaves exactly the desired ones |
| BarDerivation.DailyStore.RunSymbol | services/bar_derivation.py:1642-1815 | the daily stage's outcome, bars, load row and revision rows; refused exactly when unwaived and too many stored days would be lost, and an applied unwaived load keeps its share of them |
| BarDerivation.DailyLoadHolds | services/bar_derivation.py:1689-1692 | after an applied daily load the days inside the observed span are the derived ones and every day outside is as it was |
| BarDerivation.DailyLoadIsReversible | services/bar_derivation.py:1915-1947 | the canonical days before it are recoverable, and a second run plans nothing |
| BarHistory.RawBar.Serve | services/ohlcv_raw_writer.py:1-24 | an offer that changes any column and is no older than the stored answer replaces the row and logs the displaced close; an equal one does nothing, an older one is only logged as superseded |
| BarHistory.ValueAsOfIsHeldIff | services/bar_reconciliation_audit.py:254-273 | the value read back is the one held, in whatever order the log is read, exactly unless the bar was first stored later and has since been overwritten or was answered by then |
| BarHistory.AdjustedPairs | services/bar_reconciliation_audit.py:283-315 | one pair, in day order, for exactly the complete days of the span whose two closes read back as of the run's end |
| BarHistory.PairsAreHeldPairs | services/bar_reconciliation_audit.py:292-299 | every pair of closes held when the run ended is among them, and a row is such a pair exactly when neither close was stored late in that sense |
| BarSelection.CanonicalBars.WriteRows | services/bar_selection.py:137-144 | the batched upserts write every row whatever the batch size |
| BarSelection.EverySlot | services/bar_selection.py:147-250 | slot by slot: winners with a volume are held, slots left out are retracted if a ranked vendor wrote them, all others are untouched |
| BarSelection.SecondCallDoesNothingIff | services/bar_selection.py:173-250 | a second call leaves the table as it is, and adds, changes and drops nothing exactly when no written row stands in a slot the call would retract |
| BarSelection.CanonicalBars.SelectAndWrite | services/bar_selection.py:147-250 | the writer's table, counters and session choices after a call, for any batch size |
| BarSelection.CanonicalBars.RecordChoices | services/bar_selection.py:278-310 | the selected sessions hold exactly the choices, other sessions what they held |
| SessionGrid.SessionSlots | services/bar_reconciliation_audit.py:575-593 | strictly increasing, and exactly the sessions' slots inside the window |
| SessionGrid.InstantInOneSlot | services/bar_reconciliation_audit.py:596-611 | every instant of a session lies in exactly one slot, clipped at the close |
| SessionGrid.BucketFineVolume | services/bar_reconciliation_audit.py:596-611 | each bucket holds exactly its slot's fine volume, and only slots with a bar have one |
| SessionGrid.BucketIsASlot | services/bar_reconciliation_audit.py:604-610 | a session's bar is bucketed into one of that session's own slots |
| SessionGrid.CoarseSlotIff | services/bar_reconciliation_audit.py:604-610 | a bar is bucketed exactly into the session slot that holds its instant, clipped at the close, and a bar outside every session into none |
| SessionGrid.VolumeIsConserved | services/bar_reconciliation_audit.py:596-611 | the buckets sum to the in-session volume |
| SessionGrid.MissingSlots | services/bar_derivation.py:870-893 | exactly the bar's 5m slots before its clipped end that are neither stored nor answered, in order |
| Accumulator.CallOrderIff | services/_batch_utils.py:2067-2086 | for distinct rows, finalize gives call order exactly when no chunk overtook buffered rows |
| Accumulator.OneModeKeepsOrder | services/_batch_utils.py:2067-2086 | one append mode alone keeps call order |
| Accumulator.CompletesIff | services/_batch_utils.py:2088-2107 | a disk-backed accumulator raises exactly when its rows exceed the estimate or rows come singly without a flush size: it never truncates |
| Accumulator.ChunkAccumulator.AppendRow | services/_batch_utils.py:2067-2078 | both modes take a row the same way, and disk raises exactly on overflow |
| Accumulator.ChunkAccumulator.AppendChunk | services/_batch_utils.py:2080-2086 | both modes take a chunk the same way |
| Accumulator.ChunkAccumulator.Finalize | services/_batch_utils.py:2118-2140 | both modes return the same rows, nothing if none were appended; only in memory are they then given up |

## Left out

Assumptions of the load protocol:

- That a replacing load streams only rows its mapping names, and no load a row another replacing unit's mapping names,
  is assumed only where a result says "disciplined" or "while loads stream their own rows"; without it
  `BatchSurvivesIff` says what happens. That unit keys tell the DELETEs apart is assumed only where a result says so.
- SQL equality is equality of typed values, NULL aside: the server's own reading of a text as a number or a date is
  not modelled. What str gives for a float or a time is a given function.
- sha256 and canonical JSON are taken as injective; advisory locks hash the key itself, so hash collisions between
  locks are not modelled.
- The data transaction is one atomic, serialised step, the provenance row's own commits likewise. Statement
  timeouts, GUCs, `unit_stats`, the post-load compression and the writer allow-list are not part of the model. A
  precheck is any refusal or none, except in `Compression`, where its compressed-chunk test is concrete.
- LoadStore.Database.BulkLoad: takes a column list without repeats (the server refuses others), and its rows as a
  sequence rather than a lazy iterator, so an iterator that raises part way is the environment's break.

Assumptions of the planner and the rebuild:

- Floats are reals, so rounding of byte figures and rows is not modelled. Times are whole microseconds from the
  epoch on, and years run from 1970 to 9998, where the calendar library itself stops.
- The gate reads growth from the disk; here growth is the modelled footprint, bytes per row times rows, compressed
  before the frontier. The WAL and spools are counted as the code counts them.
- A run of `BudgetRun` moves on from a step only once its stage has ended well (its units known to be completed,
  compression up to the bound), which is what `CleanStageCompletesItsScope` and `FeatureTable.EndStage` leave; its
  frontier at each span follows from that. The APR switch that turns compression off is not modelled.
- That a rebuild step's handler returns only when stage_problems is empty is a premise of `RunCompletion`, as the code
  raises otherwise. Completion only grows in `Compression` and `RunCompletion`: horizon, code, APR and inputs are fixed.
  What happens to a renamed unit is `RenamedUnitIsRefusedIff`. In `DiskGuard` only the loads themselves use disk.
- What workers, database and disk guard answer in a stage is a parameter, one answer per unit; the spool
  directories, the worker pool, logging and the measured maxima are left out. A raised error ends the stage without a
  summary, as in the code.
- Formatting with nine significant digits and parsing it are a given inverse pair on the values stored; the numeric
  kernels, the market calendar and the warm-up length are parameters. Text encoding is not modelled, and a negative
  block size is outside the model.
- split_symbol_chunks, unit digests and code keys are identities only.

Assumptions of the runner and the bar store:

- A step handler is an arbitrary outcome; pins, git, subprocess gates and the process-wide lock are left out.
- derive_daily, aggregate_session_grid, select_slots, corporate actions, AnsweredWindows and the content digest are
  parameters. Flags carry their version and detail; the daily stage's own flag replacement and digest rewrite are
  not part of the model. The daily stage's stored rows are read in the state its write applies to.
- Digests are the current one per month, not the appended history.
- The loads that write one bar have distinct times, in the order of the writes, none before its answer. Raw's request
  ids, its batches and the validation before a write are not part of the model.
- Calendars and time zones are given sessions in day order; session_window's New York midnights, completeness cells,
  aggregate_sessions and confirmed_spans_from_requests would only add loops of the same kind.
- Accumulated rows are taken after float32 conversion; the scratch file's lifetime and close are not modelled.
- Accumulator.ChunkAccumulator.Finalize: a second finalize differs between the two modes, as stated, because the
  in-memory mode gives its chunks up.
