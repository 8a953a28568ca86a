# NOVA: a model of its stateful cores

NOVA is an asset and operations system: a NestJS service over PostgreSQL, with scripts that bring a
legacy catalogue into it. This project models its cores that carry state, loops or arithmetic, and
proves what they keep on every input, run or interleaving.

## The parts

| files | what they model |
|---|---|
| `Csv`, `CsvLaws`, `ImportExport`, `ImportLaws`, `Export`, `ExportLaws`, `ExportNoOp` | the CSV scanner and printer and what they read, the upsert loop and the exports and what they leave, and export followed by import |
| `TelemetryCache` | the single-slot telemetry cache that serves stale values while one request per key refreshes them |
| `ReportCache` | the bounded report cache in insertion order |
| `ExportPayload`, `ExportQueue` | the queued report payload and the queue with its racing workers and timeouts |
| `HostMatch`, `Ranking` | choosing a monitored host for a unit, per integration and across integrations |
| `Traffic`, `Thinning`, `Chart`, `ReportLaws` | traffic integrals, the two ways of thinning points, the axes of a chart, and what they come to for the points given |
| `LegacyExport`, `LegacyBundle`, `LegacyContents`, `LegacyOrder`, `LegacyTags`, `LegacyWords` | the exporter of the legacy tables, what its bundles hold, in which order, and guarantee, and what its codes are made of |
| `LegacyCodes`, `LegacyImport`, `LegacyImporter`, `LegacyRows`, `LegacyReport`, `LegacyReferences`, `LegacyRerun` | code cleaning and allocation, the import script, the rows it writes, its report, its references, dry runs, and importing again |
| `Sla`, `PolicyLaws`, `Exceptions`, `CaseLaws`, `ExceptionLaws`, `ExceptionRaces`, `ExceptionsService` | SLA policies and the exception cases with their derived fields, what each request leaves of them, also when requests overlap |
| `Reconciliation`, `Automations`, `RuleLaws`, `RunLaws`, `AutomationsService` | automation runs, which make open cases equal to detector hits, also when they break off, when rules are due, and the tick |
| `RunRaces`, `AutomationRaces`, `OverlapLaws` | the same with nothing in one step: runs that overlap, alone and among everything else, and rules that change while the tick works |
| `Text`, `Options`, `Uniqueness` | trimming, case mapping, numerals, optional values, and lists without repetition |

Where the source changes fields or local variables step by step, a class or a method with loops does
the same and is tied to a function; the theorems are about these functions. For every operation one of
them says the whole outcome in terms of the request and the tables alone; most of these are named
`...Means`, and most stand in the modules named `...Laws`, `...Contents`, `...Rows` and `...Words`.
Tables are sequences or maps of rows, a single database call is atomic, and times are integers in
milliseconds. Caches and the queue are state machines whose events are the stretches between two awaits,
so their theorems speak of all interleavings. What a backend, a detector or a clock returns is an argument.

## What the proofs brought to light

* A cell such as ` =1` passes the formula guard untouched, is trimmed when read, and is guarded only
  by the next print (`Csv.CellSettlesIff`).
* The Starlink export does not round-trip types like `starlink mini` (`Export.StarlinkNoOpIff`).
* A table can survive export and import unchanged although some of its rows are not normal, when another
  row is read back under the same key (`ExportNoOp.UntidyNoOpExists`, exact in `ExportImportIsNoOpIff`).
* Refreshing the oldest report does not save it from eviction (`ReportCache.RefreshedOldestIsEvicted`).
* A worker that timed out can overwrite the success of its successor with an error
  (`ExportQueue.SuccessCanBecomeError`); the condition is exact.
* `slimReportPoints` keeps its limit exactly from limits of two on (`Thinning.SlimWithinLimitIff`); its
  only caller uses the default of 360, so smaller limits are no input of the system as it stands.
* The order of report points matters exactly when two values of one instant reach differently far into
  the gaps around them (`Traffic.OrderFreeIff`).
* A legacy unit code of dashes only makes every later import fail (`LegacyRerun.RerunCanFail`,
  `LegacyRerun.RawCodeStopsReruns`); bundles of the exporter are never affected (`LegacyBundle.ExportThenImportTwice`).
* The city is part of a legacy unit's key but not of its code, so the exporter loses an ONU of two units
  of one name in two cities (`LegacyTags.SameNameInTwoCitiesLoses`).
* Two policy updates that overlap can leave a resolution time below the first response time, and the
  breach test of a pending case then no longer follows its deadline (`Sla.OverlappingUpdatesFitIff`,
  `Sla.BreachFollowsDeadlineIff`).
* Overlapping requests can leave the triage and the breach of a case wrong, and exactly when is known
  (`ExceptionRaces.LateWriteIff`, `ExceptionRaces.LateBreachIff`). Status and time stamps always agree
  with each other, but a late hit can take back what a user did
  (`ExceptionRaces.LateHitUndoesResolution`). One undisturbed recalculation repairs triage and breach
  (`ExceptionRaces.RacesAreRepaired`).
* An acknowledged case can keep a resolution time, a recovered one keeps its open urgency, and the
  breach time moves with every computation (`ExceptionLaws`).
* Overlapping runs of one automation rule can resolve each other's hits: the last touch decides
  (`RunRaces.OverlappingRunsSettle`).
* A run that breaks off in its recovery is recorded as failed without counts although it has resolved
  cases (`Automations.BrokenRunIsMadeUpFor`).
* A rule disabled while the tick is at work still runs, and is left disabled with a next run
  (`AutomationRaces.DisabledRuleStillRuns`).

As in the source, nothing is rolled back: an import that meets a refused row keeps the rows before it,
and an automation run that breaks off keeps the cases it has written.

## Model

| member | source | states |
|---|---|---|
| Csv.ParseCsv | apps/api/src/import-export/csv.ts:3-58 | the scanning loop returns exactly the records of the automaton `Parse`, one character at a time with its look-ahead |
| Csv.RunQuote | apps/api/src/import-export/csv.ts:14-33 | scanning a printed cell from a field start yields its text, whatever commas, quotes or line breaks it holds |
| Csv.LineEnd | apps/api/src/import-export/csv.ts:35-42 | a printed line followed by a line feed is read as that line: no bare carriage return swallows the break |
| Csv.TrimEndKeepsRows | apps/api/src/import-export/csv.ts:4-7 | trimming the end of the text never changes which rows are returned |
| Csv.RoundTrip | apps/api/src/import-export/csv.ts:3-74 | parsing a printed table of any rows, formula-leading cells included, returns exactly the rows that show something, each cell guarded and trimmed |
| Csv.SafeRoundTrip | apps/api/src/import-export/csv.ts:3-74 | tables of trimmed cells without formula lead come back exactly, minus the rows that are entirely empty |
| Csv.CellSurvivesIff | apps/api/src/import-export/csv.ts:30-63 | a cell comes back as it was if and only if it is trimmed and does not lead a formula |
| Csv.CellSettlesIff | apps/api/src/import-export/csv.ts:61-63 | a second print and parse changes a cell if and only if trimming uncovered a formula lead the guard had not seen |
| Csv.HiddenFormulaExists | apps/api/src/import-export/csv.ts:61-63 | a leading space before `=` is such a cell: print-parse-print is not a fixpoint on it |
| Csv.ReprintIsFixpointIff | apps/api/src/import-export/csv.ts:3-74 | printing and parsing what was parsed changes nothing if and only if no cell of the table was of that kind; no row is lost either way |
| Csv.SecondReprintSettles | apps/api/src/import-export/csv.ts:3-74 | after one more round every table is a fixpoint |
| Csv.SameTextIff | apps/api/src/import-export/csv.ts:61-74 | two tables print the same text if and only if they show the same cells: printed cells and lines can be told from what follows them |
| Csv.ReprintIsSameTextIff | apps/api/src/import-export/csv.ts:3-74 | printing what was read gives the same text again if and only if every row shows something and no shown cell has white space at its ends |
| CsvLaws.ParseMeans | apps/api/src/import-export/csv.ts:3-58 | any well written file, whatever pieces of its cells are quoted and however its lines end, is read as it is meant: its first row that holds something names the columns, every other such row is a record, short rows are filled up and the last of several columns of one name counts |
| CsvLaws.TrimmedIsSame | apps/api/src/import-export/csv.ts:4-7 | white space around a file and a byte order mark before it are not read |
| ExportLaws.PrintMeans | apps/api/src/import-export/csv.ts:3-74 | of a printed table exactly the rows that show something are read back, in order, each cell trimmed, with an apostrophe before a leading =, +, - or @ |
| ImportExport.ImportExportService.ImportRow | apps/api/src/import-export/import-export.service.ts:103-210 | one row is refused without a trace or upserted, and reported as existing exactly when it did exist |
| ImportExport.ImportExportService.ImportRows | apps/api/src/import-export/import-export.service.ts:97-214 | the upsert loop leaves the tables and the report of the function `Import`, stopping at the first refused line |
| ImportExport.ImportExportService.ExecuteImport | apps/api/src/import-export/import-export.service.ts:97-214 | the whole request, from resource name and text to tables and report |
| ImportExport.PlanStable | apps/api/src/import-export/import-export.service.ts:103-210 | what a row asks for does not depend on the rows written before it |
| ImportExport.ImportIsReplay | apps/api/src/import-export/import-export.service.ts:97-214 | the loop is the replay of plans made beforehand from the original tables |
| ImportExport.ReplayIsPutAll | apps/api/src/import-export/import-export.service.ts:97-214 | a stopped import keeps exactly the rows before the refused line and counts the new keys among them |
| ImportExport.ImportTwice | apps/api/src/import-export/import-export.service.ts:97-214 | importing any file again changes nothing: it stops at the same line, or counts every row as updated |
| ImportLaws.PlanMeans | apps/api/src/import-export/import-export.service.ts:41-202 | a record is accepted if and only if no needed column is empty and its parent is in its table, and then asks for exactly the fields its columns give; else it is refused for the first empty column, or for the parent |
| ImportLaws.ExecuteMeans | apps/api/src/import-export/import-export.service.ts:27-214 | a request that names none of the four resources is refused without a trace; every other one writes what its records ask for, the last of one key counting, up to the first refused one, and reports that one's line or how many keys were new |
| ExportLaws.ExportMeans | apps/api/src/import-export/import-export.service.ts:8-268 | an export has one row for each row of the table, for Starlinks for each whose type mentions the word in any case, with the fields of that row in the columns of their names |
| Export.ReadBackIff | apps/api/src/import-export/import-export.service.ts:97-268 | an exported row asks an import for exactly the row it came from if and only if that row is normal |
| Export.GuardStays | apps/api/src/import-export/csv.ts:61-63 | a guarded formula comes back with its apostrophe, so it never equals its original |
| Export.ExportRowSurvives | apps/api/src/import-export/import-export.service.ts:216-268 | no exported normal row is dropped as empty |
| Export.ExportThenImport | apps/api/src/import-export/import-export.service.ts:97-268 | importing an export into any tables that hold the parents restores every exported row, touches nothing else and counts exactly the missing rows as created |
| Export.ExportImportIsNoOp | apps/api/src/import-export/import-export.service.ts:97-268 | on normalised tables export then import changes nothing and reports created 0 and updated = total rows |
| Export.StarlinkNoOpIff | apps/api/src/import-export/import-export.service.ts:245-267 | the Starlink export, chosen by substring and printed without its type, is a no-op if and only if every chosen type is the bare word |
| ExportNoOp.PutAllNoOpIff | apps/api/src/import-export/import-export.service.ts:113-207 | upserting rows in order changes nothing if and only if the last row of each key is already there |
| ExportNoOp.ExportImportIsNoOpIff | apps/api/src/import-export/import-export.service.ts:97-268 | for all four files, import after export changes nothing and says so if and only if every exported row is accepted and the row listed last under each key, as it is read back, is asked for as it is stored |
| ExportNoOp.NoOpIffNormal | apps/api/src/import-export/import-export.service.ts:97-268 | while no two rows are read back under one key, that is so if and only if every row is normal, has its parent and, for Starlinks, is of the bare kind |
| ExportNoOp.UntidyNoOpExists | apps/api/src/import-export/import-export.service.ts:97-268 | without that it can be so for rows that are not normal: two partners of one name whose codes differ by a space |
| TelemetryCache.RunKeeps | apps/api/src/monitoring/monitoring.service.ts:110-541 | every interleaving of calls, arrivals, failures and clean-ups keeps the cache invariant |
| TelemetryCache.OneRequestPerKey | apps/api/src/monitoring/monitoring.service.ts:110-135 | at most one coalesced backend request per key is outstanding |
| TelemetryCache.EveryReplyHonest | apps/api/src/monitoring/monitoring.service.ts:504-541 | every value served was computed under the caller's key, and only fast calls see the placeholder |
| TelemetryCache.CachedStartsIncrease | apps/api/src/monitoring/monitoring.service.ts:110-135 | successive cached results of one key come from strictly later requests |
| TelemetryCache.FailureFreesKey | apps/api/src/monitoring/monitoring.service.ts:115-134 | a failed refresh leaves the cached entry alone, and its clean-up frees exactly its key, whatever happened between the two |
| TelemetryCache.StaleIsRevalidated | apps/api/src/monitoring/monitoring.service.ts:513-523 | a call under the cached key gets the cached value at once, and an expired one has a refresh under way |
| TelemetryCache.CallMeans | apps/api/src/monitoring/monitoring.service.ts:504-541 | after any history, a call starts a request if and only if caching is off or its key has neither an unexpired entry nor a request under way; it is answered with the entry, else with the placeholder if fast, else with the request under way |
| TelemetryCache.CacheIsLastDelivery | apps/api/src/monitoring/monitoring.service.ts:115-128 | after any history the cache holds what was delivered last, whatever its key, with a life that counts from the delivery; nothing else ever changes it |
| TelemetryCache.FirstAnswerCounts | apps/api/src/monitoring/monitoring.service.ts:118-131 | a request stands as the first of its answers says, whatever comes later |
| TelemetryCache.OutstandingIff | apps/api/src/monitoring/monitoring.service.ts:110-135 | a request is outstanding from its start to its first clean-up after an answer |
| TelemetryCache.UnitHostTelemetry.Refresh | apps/api/src/monitoring/monitoring.service.ts:110-135 | joins the outstanding request of the key or starts one |
| TelemetryCache.UnitHostTelemetry.GetUnitHostTelemetry | apps/api/src/monitoring/monitoring.service.ts:504-541 | the method takes the step and gives the reply of the state machine |
| TelemetryCache.UnitHostTelemetry.OnValue | apps/api/src/monitoring/monitoring.service.ts:120-128 | the value callback is the arrival step |
| TelemetryCache.UnitHostTelemetry.OnSettled | apps/api/src/monitoring/monitoring.service.ts:129-131 | the final callback is the clean-up step |
| ReportCache.PrunedSound | apps/api/src/monitoring/monitoring.service.ts:57-70 | pruning keeps the bound and never changes an entry it keeps |
| ReportCache.WrittenSurvivesIff | apps/api/src/monitoring/monitoring.service.ts:735-741 | the entry just written is missing if and only if it was new, the cache was full and its own life was over |
| ReportCache.OnlyOldestLiveIsEvicted | apps/api/src/monitoring/monitoring.service.ts:57-70 | a write loses an unexpired entry only when all entries are unexpired, and then exactly the one inserted first |
| ReportCache.RefreshedOldestIsEvicted | apps/api/src/monitoring/monitoring.service.ts:735-741 | writing a key again keeps its old place: the oldest entry, expired and then refreshed, is the next to go although it now lives longest |
| ReportCache.NeverAboveLimit | apps/api/src/monitoring/monitoring.service.ts:57-744 | between any two events of any interleaving the cache holds at most 80 entries |
| ReportCache.EveryHitHonest | apps/api/src/monitoring/monitoring.service.ts:721-744 | every hit returned an unexpired value that a read of that very key produced |
| ReportCache.LookupMeans | apps/api/src/monitoring/monitoring.service.ts:721-734 | after any history a lookup returns what the cache holds under its key if that is unexpired and caching is on, and in every other case starts a read |
| ReportCache.FinishMeans | apps/api/src/monitoring/monitoring.service.ts:57-744 | after any history the end of a read writes its value under its key, and an entry of another key is lost only when a new key comes to 80 entries: all expired ones, or, when none is, the oldest; the rest keep their order |
| ReportCache.CacheKeyInjective | apps/api/src/monitoring/monitoring.service.ts:725 | unit and period can be told from the cache key, in any year an instant can be printed for |
| ReportCache.ReportCacheField.DropExpired | apps/api/src/monitoring/monitoring.service.ts:60-63 | the first loop leaves the unexpired entries in order |
| ReportCache.ReportCacheField.DropOldest | apps/api/src/monitoring/monitoring.service.ts:65-69 | the second loop ends and leaves the newest entries up to the limit |
| ReportCache.ReportCacheField.Prune | apps/api/src/monitoring/monitoring.service.ts:57-70 | both loops together are `Pruned` |
| ReportCache.ReportCacheField.Store | apps/api/src/monitoring/monitoring.service.ts:735-741 | storing keeps the bound and is `Write`, with the expiry counted from the lookup |
| ExportPayload.DecodeEncode | apps/api/src/monitoring/monitoring.service.ts:945-957 | base64url (section 5 of RFC 4648, without padding) decodes to the bytes it encoded and stays in its alphabet |
| ExportPayload.FindInSummary | apps/api/src/monitoring/monitoring.service.ts:945-951 | the pattern finds the payload that was put into a summary, and nothing before it |
| ExportPayload.FoundIsFirst | apps/api/src/monitoring/monitoring.service.ts:950-954 | whatever a summary holds, the payload found is the first after the marker at its start or after white space, as long as the alphabet goes, and none is found if and only if there is none |
| Uniqueness.UniqueSound | apps/api/src/monitoring/monitoring.service.ts:923 | the unit ids kept are the given ones, each once |
| ExportPayload.NormalizeIdempotent | apps/api/src/monitoring/monitoring.service.ts:921-943 | normalising a normalised payload at any later time changes nothing |
| ExportPayload.NormalizeMeans | apps/api/src/monitoring/monitoring.service.ts:921-943 | normalisation fails exactly for an unreadable date, a range that does not end after it starts, or no unit, and else keeps every distinct trimmed id in the order of first mention, the range asked for or the last week, docx only if asked for, the charts flag and all other fields |
| ExportPayload.DecodeInvertsEncode | apps/api/src/monitoring/monitoring.service.ts:921-958 | a queued job decodes, at any time, to exactly the normalised payload |
| ExportQueue.ReachableInv | apps/api/src/monitoring/monitoring.service.ts:1029-1157 | every interleaving of immediate workers, cron workers, requeues and late finishers keeps the queue invariant |
| ExportQueue.EnqueueAdds | apps/api/src/monitoring/monitoring.service.ts:1029-1049 | a request that normalisation accepts adds one queued run for what was asked at the end of the table, and its summary decodes to that; any other request changes nothing |
| ExportQueue.RunMoves | apps/api/src/monitoring/monitoring.service.ts:1052-1157 | a run is claimed by its request's own worker once or by the cron worker that read it, put back when its claim is more than 30 minutes old, and ended by one of its workers, each with exactly the fields of that write; nothing else changes it |
| ExportQueue.WorkersMove | apps/api/src/monitoring/monitoring.service.ts:1045-1157 | a request's own worker acts once, the cron worker picks up queued rows as they are then, and rows are added by requests alone |
| ExportQueue.UnreadableEnds | apps/api/src/monitoring/monitoring.service.ts:1140-1156 | a row whose summary does not decode is ended with an error when the cron worker gets to it, and no other row is touched |
| ExportQueue.ClaimsAreApart | apps/api/src/monitoring/monitoring.service.ts:1052-1065 | each claim takes effect more than 30 minutes after the stamp of every earlier one, and there is at most one more claim than requeues |
| ExportQueue.SlowClaimShrinksGap | apps/api/src/monitoring/monitoring.service.ts:1045-1157 | counted from the moment the request's own claim took effect, the cron worker's claim can follow sooner by exactly the delay between stamp and effect |
| ExportQueue.ClaimsAreApartIff | apps/api/src/monitoring/monitoring.service.ts:1045-1157 | claims that take effect within a given delay of their stamp always take effect more than 30 minutes apart if and only if that delay is zero; one request and the cron worker suffice for the failing half |
| ExportQueue.OpenRunsDecode | apps/api/src/monitoring/monitoring.service.ts:1029-1157 | while a run is open its summary decodes to the enqueued payload, and no worker ever had another one |
| ExportQueue.PickDecodes | apps/api/src/monitoring/monitoring.service.ts:1140-1156 | what the cron worker read decodes, so its error branch is never taken for these runs |
| ExportQueue.TerminalStays | apps/api/src/monitoring/monitoring.service.ts:1077-1099 | success and error together are never left, even when a timed-out worker finishes late |
| ExportQueue.OutcomeFrozenIff | apps/api/src/monitoring/monitoring.service.ts:1077-1099 | the outcome of an ended run can still change if and only if one of its workers is active |
| ExportQueue.FrozenForever | apps/api/src/monitoring/monitoring.service.ts:1052-1157 | an ended run without active workers never changes again |
| ExportQueue.NeverRequeuedIsFinal | apps/api/src/monitoring/monitoring.service.ts:1052-1101 | a run that was never requeued is final as soon as it ends |
| ExportQueue.SuccessCanBecomeError | apps/api/src/monitoring/monitoring.service.ts:1045-1157 | the request's own worker is slow, the cron worker puts its run back, picks it up, claims it and succeeds, and then the first worker turns the success into an error |
| ExportQueue.RunTable.TryClaim | apps/api/src/monitoring/monitoring.service.ts:1053-1065 | the conditional update counts one row exactly when the run was queued |
| ExportQueue.RunTable.RequeueStale | apps/api/src/monitoring/monitoring.service.ts:1108-1122 | the conditional update requeues exactly the running rows older than 30 minutes |
| ExportQueue.RunTable.Complete | apps/api/src/monitoring/monitoring.service.ts:1077-1099 | whatever became of the row, it is ended with the worker's outcome; payload, stamp and all other workers stay as they are, and only this worker is done |
| Ranking.RankOrderFree | apps/api/src/integrations/integrations.service.ts:786-792 | without ties the sorted list depends only on which items there are |
| HostMatch.SelectHostMeans | apps/api/src/integrations/integrations.service.ts:780-826 | the match is the best host, and it is ambiguous exactly when a second host lies within the margin |
| HostMatch.SelectionMeans | apps/api/src/integrations/integrations.service.ts:780-826 | in terms of the scores alone: the earliest best host from 55 on, ambiguous if another from 55 on is less than 12 behind, with the number of hosts from 55 on; else no host, the best positive score and the number of positive ones |
| HostMatch.AcrossCounts | apps/api/src/integrations/integrations.service.ts:1640-1670 | across integrations the candidates are the integrations with a host from 55 on, and without any the unit is unmatched with score 0 |
| HostMatch.CloseSecondIff | apps/api/src/integrations/integrations.service.ts:807-808 | looking at the second item only decides whether any other item is close to the best |
| HostMatch.MatchedIffClearWinner | apps/api/src/integrations/integrations.service.ts:780-826 | a host is matched if and only if one candidate reaches 55 and every other is below 55 or at least 12 behind |
| HostMatch.TwoLevelsAreOne | apps/api/src/integrations/integrations.service.ts:780-1670 | choosing per integration and then across integrations gives the status, readiness, score and host of one choice over all hosts |
| HostMatch.MatchIsOrderFree | apps/api/src/integrations/integrations.service.ts:780-826 | a matched result does not depend on the order of the hosts |
| HostMatch.AcrossIsOrderFree | apps/api/src/integrations/integrations.service.ts:1640-1670 | a matched result does not depend on the order or grouping of the integrations |
| HostMatch.AddIntegration | apps/api/src/integrations/integrations.service.ts:1602-1610 | one integration appends its match to the list of every unit |
| HostMatch.SelectForUnits | apps/api/src/integrations/integrations.service.ts:1569-1670 | the two loops select for every unit what `SelectAcross` selects among its candidates |
| Thinning.SlimReportPoints | apps/api/src/integrations/integrations.service.ts:1122-1146 | the sampling loop returns `Slim`, one point per sample index |
| Thinning.SampleSteps | apps/api/src/integrations/integrations.service.ts:1131-1136 | sampled indices start at the first point, end at the last, and step by the exact step rounded down or up |
| Thinning.SampleStrictlyIncreases | apps/api/src/integrations/integrations.service.ts:1134-1139 | no index is sampled twice |
| Thinning.SampleUncapped | apps/api/src/integrations/integrations.service.ts:1135 | rounding never passes the last index, so the cap never acts |
| Thinning.SlimWithinLimitIff | apps/api/src/integrations/integrations.service.ts:1122-1146 | the limit is kept if and only if it is at least two or nothing had to be thinned; then the count is exact and both ends stay |
| ReportLaws.SampleIsNearest | apps/api/src/integrations/integrations.service.ts:1131-1139 | every sample is the point nearest to its exact position, the later one when two are equally near |
| Thinning.StrideKeeps | apps/api/src/monitoring/report-presentation.service.ts:346-347 | the stride keeps exactly the multiples of its step, ceil(n / step) of them |
| Thinning.StrideCount | apps/api/src/monitoring/report-presentation.service.ts:346-347 | ceil(n / ceil(n / m)) is at most m and more than half of m |
| Thinning.SlimPointsBounds | apps/api/src/monitoring/report-presentation.service.ts:338-348 | only valid points are kept, the first one always, and never more than the limit |
| ReportLaws.SlimPointsMean | apps/api/src/monitoring/report-presentation.service.ts:338-348 | of the points with a value every one is kept, or above the limit every step-th from the first on, with the least step that keeps the limit |
| Thinning.StrideKeepsLastIff | apps/api/src/monitoring/report-presentation.service.ts:346-347 | the last valid point is kept if and only if its index is a multiple of the step |
| Traffic.ReportTrafficBits | apps/api/src/integrations/integrations.service.ts:1086-1120 | the loop over the sorted valid samples computes the two sums |
| Traffic.CoveredTelescopes | apps/api/src/integrations/integrations.service.ts:1105-1114 | the covered seconds are the span from first to last sample, even with repeated times |
| Traffic.BitsAdditive | apps/api/src/integrations/integrations.service.ts:1105-1114 | splitting a series at a sample splits both sums |
| Traffic.BitsBetween | apps/api/src/integrations/integrations.service.ts:1105-1114 | the integral lies between the least and greatest value times the covered seconds |
| Traffic.TotalsPresentIff | apps/api/src/integrations/integrations.service.ts:1098-1119 | a total is reported if and only if two valid samples have different times |
| Traffic.OrderFreeIff | apps/api/src/integrations/integrations.service.ts:1086-1120 | the totals do not depend on the order of the points if and only if any two samples of one instant have the same value or the same time from the sample before to the sample after |
| Traffic.SwapEffect | apps/api/src/integrations/integrations.service.ts:1086-1120 | swapping any two samples of one instant changes the integral by half the difference of their values times the difference of these times |
| Traffic.OrderFree | apps/api/src/integrations/integrations.service.ts:1086-1120 | in particular the result does not depend on the input order unless one instant carries two values |
| Traffic.TieSwapEffect | apps/api/src/integrations/integrations.service.ts:1086-1120 | swapping two samples of one instant changes the integral by exactly this amount |
| Traffic.ConsumptionAddsUp | apps/api/src/integrations/integrations.service.ts:1148-1174 | received and sent bytes add up, each is there exactly when its direction was measured, and the total when either was |
| Traffic.OtherSeriesDoNotCount | apps/api/src/integrations/integrations.service.ts:1155-1158 | other kinds and later series of a kind do not change the consumption |
| ReportLaws.ConsumptionMeans | apps/api/src/integrations/integrations.service.ts:1086-1174 | the bytes of a direction are an eighth of the bits, each value of the first series of its kind weighed by half the time from the point before it to the point after it, points of one instant in the order listed; total, averages, peaks and covered time are those of the two directions |
| Chart.AxisReaches | apps/api/src/monitoring/report-presentation.service.ts:268-288 | every axis starts at zero or above, spans at least one unit and reaches every value of its series |
| Chart.ClampActsOnlyBelowZero | apps/api/src/monitoring/report-presentation.service.ts:291-305 | a plotted height lies between 0 and 1 and is the exact position on the axis if and only if the value is not negative |
| Chart.HeightsKeepOrder | apps/api/src/monitoring/report-presentation.service.ts:297-303 | heights keep the order of the values on one axis |
| Chart.PositionsRise | apps/api/src/monitoring/report-presentation.service.ts:293-296 | positions along x rise strictly from 0 to 1 |
| ReportLaws.AxisMeans | apps/api/src/monitoring/report-presentation.service.ts:268-288 | an axis ends at the greatest of its values, one above its start, and 100 for a percentage; it starts at zero, or for days at 0.96 of the least value if all are positive |
| ReportLaws.PointsStandEvenly | apps/api/src/monitoring/report-presentation.service.ts:293-305 | points stand evenly along x, and those below zero lie on the bottom |
| LegacyCodes.CleanCodeFixedIff | apps/api/scripts/import-legacy-catalog.ts:27-37 | a code survives cleaning with every fallback if and only if it is clean: allowed characters, no doubled or edge dash |
| LegacyCodes.CleanCodeIdempotent | apps/api/scripts/import-legacy-catalog.ts:27-37 | cleaning twice is cleaning once whenever the first cleaning left something, and that something is clean |
| LegacyCodes.RawFallback | apps/api/scripts/import-legacy-catalog.ts:36 | when nothing is left the fallback is returned as it is, clean or not |
| LegacyCodes.FirstFree | apps/api/scripts/import-legacy-catalog.ts:58-66 | trying candidates ends, with an unused code of the root's family |
| LegacyCodes.PickFree | apps/api/scripts/import-legacy-catalog.ts:58-64 | the inner loop ends and finds the first free candidate |
| LegacyCodes.BuildLegacyUnitCodeMap | apps/api/scripts/import-legacy-catalog.ts:43-71 | the two loops compute the code map `UnitCodes` |
| LegacyCodes.UnitCodesDistinct | apps/api/scripts/import-legacy-catalog.ts:43-71 | distinct unit keys get distinct codes, each extending the base of its unit |
| LegacyCodes.UnitCodesClean | apps/api/scripts/import-legacy-catalog.ts:43-71 | codes built from clean bases are clean, so cleaning them again finds them |
| LegacyWords.CleanCodeMeans | apps/api/scripts/import-legacy-catalog.ts:27-37 | a cleaned code is the words of the text in capitals joined by dashes, letters, digits, dots and underscores making the words; without any word it is the fallback as it is |
| LegacyWords.UnitCodesMean | apps/api/scripts/import-legacy-catalog.ts:43-71 | every unit gets the first code of its root that no unit before it has: its own cleaned code, with its city, group or key behind it if another unit has the same, then numbered from 2; units of one key get the code of the last of them |
| Text.CasesMean | apps/api/scripts/import-legacy-catalog.ts:30 | mapping the case changes exactly the letters of the other case, keeps their order and makes them letters of its own |
| Text.DecimalMeans | apps/api/scripts/import-legacy-catalog.ts:62 | a numeral behind a code stands for its number, without a zero before it |
| LegacyImporter.Importer.StorePartner | apps/api/scripts/import-legacy-catalog.ts:141-158 | creating a partner, real or pretended, and the unique index that may refuse it |
| LegacyImporter.Importer.EnsurePartner | apps/api/scripts/import-legacy-catalog.ts:136-159 | finds the partner under its cleaned code or creates it |
| LegacyImporter.Importer.LoadPartners | apps/api/scripts/import-legacy-catalog.ts:161-169 | the partner loop is `ImportPartners` |
| LegacyImporter.Importer.EnsureFallbackPartner | apps/api/scripts/import-legacy-catalog.ts:172-191 | the fallback partner is looked up once and created at most once |
| LegacyImporter.Importer.LoadUnit | apps/api/scripts/import-legacy-catalog.ts:193-229 | one turn of the unit loop: skip, or attach to the partner or the fallback as `UnitStep`; what the row holds is in `LegacyRows.ImportMeans` |
| LegacyImporter.Importer.LoadUnits | apps/api/scripts/import-legacy-catalog.ts:193-229 | the unit loop is `ImportUnits` |
| LegacyImporter.Importer.EnsureStock | apps/api/scripts/import-legacy-catalog.ts:231-259 | the stock unit is found or created under the Starlink partner |
| LegacyImporter.Importer.LoadEquipment | apps/api/scripts/import-legacy-catalog.ts:261-303 | one turn of the equipment loop: skip, place by key or by code, put in stock, or leave out |
| LegacyImporter.Importer.LoadEquipments | apps/api/scripts/import-legacy-catalog.ts:261-303 | the equipment loop is `ImportEquipments` |
| LegacyImporter.RunImport | apps/api/scripts/import-legacy-catalog.ts:108-303 | the whole script leaves the tables and the report of `ImportBundle`, which `LegacyRows.ImportMeans` describes |
| LegacyRows.ImportMeans | apps/api/scripts/import-legacy-catalog.ts:27-303 | every row a real run adds, well ended or not, is a partner, unit or equipment of the bundle under the code it is given, field by field, with the partner of its cleaned code or the fallback and the unit of its key, of its code or the stock; as many as reported, and a run that ends well leaves out nothing with a place |
| LegacyImport.DryRunAgrees | apps/api/scripts/import-legacy-catalog.ts:134-303 | for every bundle and database a dry run reports exactly what a real run reports if its writes succeed |
| LegacyReport.StatsAddUp | apps/api/scripts/import-legacy-catalog.ts:95-303 | the report accounts for every unit, plus the stock unit if created, and for every equipment of the bundle |
| LegacyReport.ClosedNeedsNoFallback | apps/api/scripts/import-legacy-catalog.ts:171-281 | a closed bundle never asks for the fallback partner and leaves no equipment out, in either mode and with any database |
| LegacyReferences.ImportKeepsReferences | apps/api/scripts/import-legacy-catalog.ts:108-303 | no successful real run writes a unit without partner row or an equipment without unit row, whatever intact tables it starts from |
| LegacyRerun.PartnersMirror | apps/api/scripts/import-legacy-catalog.ts:161-169 | no real run fails in its partner loop, and the map keeps mirroring the table |
| LegacyRerun.RunMirrors | apps/api/scripts/import-legacy-catalog.ts:108-303 | a run over a tidy bundle always succeeds; after any successful run every known code is in the table |
| LegacyRerun.RecordedIsNoOp | apps/api/scripts/import-legacy-catalog.ts:108-303 | importing a bundle whose rows are recorded changes nothing and counts only skips, in either mode |
| LegacyRerun.RerunIff | apps/api/scripts/import-legacy-catalog.ts:108-303 | after a complete real run, a second run is complete if and only if rereading the tables finds every unit code and tag; it then changes nothing |
| LegacyRerun.RerunCleanIff | apps/api/scripts/import-legacy-catalog.ts:108-303 | while no identifier looks like a code, that is so if and only if every code the importer gives the bundle's units and equipments is clean |
| LegacyRerun.ImportTwice | apps/api/scripts/import-legacy-catalog.ts:108-303 | a tidy, closed bundle goes into any database, and a second run creates nothing and changes nothing |
| LegacyRerun.RawCodeStopsReruns | apps/api/scripts/import-legacy-catalog.ts:193-229 | a unit stored under a code that is not clean makes every later real run fail, after any number of runs in between that end well or not, unless a row has that code as identifier |
| LegacyRerun.RerunCanFail | apps/api/scripts/import-legacy-catalog.ts:36-229 | a unit whose code is only dashes is imported once and stops the second run |
| LegacyExport.SlugIsClean | apps/api/scripts/export-legacy-sqlite.py:67-71 | every slug is a non-empty clean code within its limit, however the limit cuts it |
| LegacyWords.SlugMeans | apps/api/scripts/export-legacy-sqlite.py:67-71 | a slug is the words of the folded text in capitals, letters and digits making the words, joined by dashes and cut at the limit without a dash at the cut |
| LegacyWords.ExportedSlugs | apps/api/scripts/export-legacy-sqlite.py:127-263 | the slugs of partners, of units by group and name, and of Starlinks by antenna or identifier, with their fallbacks and limits |
| LegacyWords.NormMeans | apps/api/scripts/export-legacy-sqlite.py:74-76 | a normalised name is the words of the folded text in small letters, written without a break |
| LegacyWords.UnitKeyTells | apps/api/scripts/export-legacy-sqlite.py:183 | two contacts are of one unit if and only if their groups, unit names and cities have the same normal form |
| LegacyWords.AtMostMeans | apps/api/scripts/export-legacy-sqlite.py:315-317 | texts are ordered by the first character in which they differ, a text before those it starts |
| LegacyExport.SortRises | apps/api/scripts/export-legacy-sqlite.py:315-317 | the lists of a bundle rise by code or tag |
| LegacyBundle.EnterPartner | apps/api/scripts/export-legacy-sqlite.py:127-138 | a partner is entered once under its slug |
| LegacyBundle.EnterContact | apps/api/scripts/export-legacy-sqlite.py:174-246 | one contact updates partners, unit, lookup tables and equipment as `ContactStep` |
| LegacyBundle.EnterStarlink | apps/api/scripts/export-legacy-sqlite.py:263-301 | one Starlink finds its unit by contact, then by name, and becomes an equipment if it has a serial number, as `StarlinkStep` |
| LegacyBundle.BuildBundle | apps/api/scripts/export-legacy-sqlite.py:157-347 | the three loops and the sorting compute the bundle `Exported`, which `LegacyContents` describes list by list |
| LegacyContents.EquipmentsMean | apps/api/scripts/export-legacy-sqlite.py:174-301 | the equipments of a bundle are exactly the ONUs of contacts and the Starlinks with a serial number that are last under their tags, with the fields of their rows; a Starlink is at the unit of the last contact of its place's id, else of the last of its place's name, else at none, and active exactly when at one |
| LegacyContents.SomeContactIsLast | apps/api/scripts/export-legacy-sqlite.py:202-265 | a Starlink's two searches are about something: unless no contact has the identifier, or the name, one of them is the last that has it |
| LegacyContents.UnitsMean | apps/api/scripts/export-legacy-sqlite.py:174-246 | the units of a bundle are those its contacts name, each once and as its first contact describes it |
| LegacyContents.PartnersMean | apps/api/scripts/export-legacy-sqlite.py:127-262 | the partners of a bundle are those its contacts, backups and partner table name, each once under the name it was first called, with the contacts it serves |
| LegacyOrder.ListsRise | apps/api/scripts/export-legacy-sqlite.py:315-317 | partners and units rise by code and equipments by tag, and units of one code stand in the order of their first contacts, in which the importer hands out codes |
| LegacyBundle.GatherFits | apps/api/scripts/export-legacy-sqlite.py:174-301 | whatever the tables hold, codes are clean, unit partners exist, and every equipment has a unit or is a Starlink |
| LegacyBundle.ExportIsClosed | apps/api/scripts/export-legacy-sqlite.py:157-347 | every exported bundle is closed |
| LegacyBundle.ExportIsTidy | apps/api/scripts/export-legacy-sqlite.py:157-347 | every exported bundle is tidy |
| LegacyBundle.ExportedUnitsGetDistinctCodes | apps/api/scripts/import-legacy-catalog.ts:43-71 | the importer gives every exported unit a clean code of its own that extends the exported one |
| LegacyBundle.EveryContactCounted | apps/api/scripts/export-legacy-sqlite.py:199-246 | links and main counts add up to the number of contacts, backup links and counts to the contacts with a backup partner |
| LegacyTags.EquipmentsAreLast | apps/api/scripts/export-legacy-sqlite.py:174-301 | a bundle has exactly the last equipment made under each tag, and none is missing if and only if no two have the same tag |
| LegacyTags.OnuTagsTell | apps/api/scripts/export-legacy-sqlite.py:224-228 | below a hundred links the length limit never cuts an ONU's tag, so equal tags mean equal unit code and link number |
| LegacyTags.NothingLostIff | apps/api/scripts/export-legacy-sqlite.py:174-301 | then no equipment is lost if and only if no two ONUs share unit code and link number and no two Starlinks with a serial number the slug of their identifier |
| LegacyTags.SameNameInTwoCitiesLoses | apps/api/scripts/export-legacy-sqlite.py:182-239 | two contacts of one group and unit name in different cities make two units of one code, and one of their ONUs is lost |
| LegacyBundle.ExportThenImportTwice | apps/api/scripts/import-legacy-catalog.ts:108-303 | every exported bundle imports into any database without fallback partner or left-out equipment, and importing it again changes nothing |
| Sla.DefaultsSettle | apps/api/src/exceptions/exceptions.service.ts:177-258 | adding the defaults keeps every policy in place and fitting; adding them again changes nothing |
| Sla.SavedPoliciesFit | apps/api/src/exceptions/exceptions.service.ts:549-679 | whatever a create or an update saves has 1 <= first response <= resolution, a code of its own, and leaves the other policies alone |
| Sla.OverlappingUpdatesFitIff | apps/api/src/exceptions/exceptions.service.ts:600-679 | two updates checked before either is written leave a fitting policy if and only if the two requests together do |
| Sla.OverlapCanBreak | apps/api/src/exceptions/exceptions.service.ts:650-664 | raising one time while lowering the other: each request is valid, together they are not |
| Sla.FirstMatchIs | apps/api/src/exceptions/exceptions.service.ts:263-273 | the search finds the oldest active policy of a kind and severity, or there is none |
| Sla.OldestExactPolicyWins | apps/api/src/exceptions/exceptions.service.ts:260-278 | a policy of the case's own kind wins, the oldest first, and later policies never displace it; the two steps after it are in `CaseLaws.PolicyChosenIff` |
| CaseLaws.PolicyChosenIff | apps/api/src/exceptions/exceptions.service.ts:260-278 | the policy found is the oldest active one of the kind and severity; without one the oldest active generic one of the severity; without that the first active SLA-GENERIC-MEDIUM; and none if and only if all three are missing |
| CaseLaws.BuildStands | apps/api/src/exceptions/exceptions.service.ts:54-334 | the ten derived fields of a case: deadlines of the policy that governs it or 30 and 240 minutes, its queue or that of the kind, impact and urgency by severity, triage, the breach of a deadline, and the score |
| CaseLaws.DefaultPromises | apps/api/src/exceptions/exceptions.service.ts:177-278 | the minutes and the queue that the untouched defaults give a case of any kind, by severity |
| CaseLaws.DefaultCodes | apps/api/src/exceptions/exceptions.service.ts:177-258 | whatever policies there are, each of the seven default codes has one afterwards, and those there were stay |
| PolicyLaws.CreatePolicyMeans | apps/api/src/exceptions/exceptions.service.ts:549-598 | a new policy holds what was asked, 30 and 240 minutes and the queue of its kind if nothing was, behind all others, or is refused for the first reason there is |
| PolicyLaws.UpdatePolicyMeans | apps/api/src/exceptions/exceptions.service.ts:600-679 | a change writes what it asks of its policy, cleaned, and touches no other, or is refused for the first reason there is |
| Sla.BreachIsOneDeadline | apps/api/src/exceptions/exceptions.service.ts:294-313 | with fitting policies the deadlines are in order and a breach is exactly the passing of the one deadline triage chooses |
| Sla.BreachFollowsDeadlineIff | apps/api/src/exceptions/exceptions.service.ts:294-313 | whatever the policies, the breach is at all times the passing of that deadline if and only if the case is resolved, is not pending triage, or its deadlines are in order |
| Sla.UnfitPolicyMovesBreach | apps/api/src/exceptions/exceptions.service.ts:301-313 | a policy whose deadlines are out of order, and a time at which the breach has left the deadline |
| Sla.OnlyBreachAndScoreDependOnTime | apps/api/src/exceptions/exceptions.service.ts:280-334 | policy, queue, triage and deadlines do not depend on the clock; a breach, once there, stays |
| Sla.PriorityFollowsSeverity | apps/api/src/exceptions/exceptions.service.ts:75-111 | priorities lie between 0 and 100 and follow severity, with exactly one way for a high case to pass a critical one |
| ExceptionsService.Service.EnsureDefaultSlaPolicies | apps/api/src/exceptions/exceptions.service.ts:251-257 | the upsert loop adds exactly the missing defaults |
| ExceptionsService.Service.CreateSlaPolicy | apps/api/src/exceptions/exceptions.service.ts:549-598 | the checks in their order, and the policy appended |
| ExceptionsService.Service.UpdateSlaPolicy | apps/api/src/exceptions/exceptions.service.ts:600-679 | nothing changes before the last check; a saved policy fits, keeps its code unique, and differs from the old one only in the fields that were asked for |
| ExceptionsService.Service.BuildOperationalState | apps/api/src/exceptions/exceptions.service.ts:280-334 | the defaults are put in place and the ten derived fields computed, which `CaseLaws.BuildStands` describes |
| ExceptionsService.Service.CreateException | apps/api/src/exceptions/exceptions.service.ts:909-988 | creates the case with its derived fields, or refuses an unknown assignee |
| ExceptionsService.Service.UpdateException | apps/api/src/exceptions/exceptions.service.ts:990-1114 | the four-status update with its time stamps, or the error |
| ExceptionsService.Service.BulkUpdateExceptions | apps/api/src/exceptions/exceptions.service.ts:796-836 | the bulk loop over the distinct ids, each case updated at its own time |
| ExceptionsService.Service.UpsertFromAutomation | apps/api/src/exceptions/exceptions.service.ts:1180-1308 | a hit opens a case or confirms the one with its fingerprint, and the counters say which |
| ExceptionsService.Service.ResolveRecoveredCases | apps/api/src/exceptions/exceptions.service.ts:1310-1366 | the loop resolves the stale cases in order, each at its own time, all of them or as many as it gets to before something throws, and counts them |
| ExceptionsService.Service.RecalculateSlaPolicies | apps/api/src/exceptions/exceptions.service.ts:681-747 | the loop recomputes every case at its own time and counts the changes |
| Exceptions.RunKeeps | apps/api/src/exceptions/exceptions.service.ts:280-1366 | every run of create, update, bulk, hit, recovery (also one that breaks off), recalculation and policy operations keeps triage, breach, time stamps, deadlines and priority of every case consistent |
| CaseLaws.CreateMeans | apps/api/src/exceptions/exceptions.service.ts:909-988 | a case is stored as asked, behind all others, with the derived fields of exactly its stored ones, unless its assignee is unknown |
| CaseLaws.UpdateMeans | apps/api/src/exceptions/exceptions.service.ts:990-1114 | an update stores the fields asked for, the time stamps its status brings and the derived fields of what is then stored, for its case and no other, unless case or assignee is unknown |
| CaseLaws.HitMeans | apps/api/src/exceptions/exceptions.service.ts:1180-1308 | a hit confirms the case of its fingerprint, reopening a resolved one, or raises one behind all others; in both cases with the derived fields of what is stored, and nothing else changes |
| CaseLaws.RecalculationMeans | apps/api/src/exceptions/exceptions.service.ts:681-747 | a recalculation computes every case's derived fields anew from its stored ones and its creation time, and changes nothing else |
| CaseLaws.RecoveryMeans | apps/api/src/exceptions/exceptions.service.ts:1310-1366 | a whole recovery resolves, closes and takes out of breach exactly the rule's open cases that are not among the fingerprints, and leaves everything else of them as it was |
| PolicyLaws.BulkMeans | apps/api/src/exceptions/exceptions.service.ts:796-836 | a bulk update makes the update of its action, field by field, of every selected case once and of no other, or is refused for the first reason there is, without a trace |
| ExceptionLaws.ReportCounts | apps/api/src/exceptions/exceptions.service.ts:704-729 | the recalculation counts exactly the cases whose policy, queue, triage or deadlines come out differently |
| ExceptionLaws.RecalculationSettles | apps/api/src/exceptions/exceptions.service.ts:681-747 | a second recalculation at any later times reports no change and alters only breach times and priorities |
| ExceptionLaws.TriageIsNeverCorrected | apps/api/src/exceptions/exceptions.service.ts:681-747 | after any history a recalculation finds every stored triage right |
| ExceptionLaws.BulkIsAllOrNothing | apps/api/src/exceptions/exceptions.service.ts:796-836 | a bulk update refuses without touching a case, or carries out its action on every selected case, each at its own time, and on no other |
| ExceptionLaws.ResolvedAtLeavesIff | apps/api/src/exceptions/exceptions.service.ts:1019-1029 | a resolution time stays only on resolved cases if and only if no resolved case is acknowledged or silenced |
| ExceptionLaws.ResolvedAtCanRemain | apps/api/src/exceptions/exceptions.service.ts:1022-1029 | two requests that leave an acknowledged case with a resolution time |
| ExceptionLaws.RecoveryKeepsUrgency | apps/api/src/exceptions/exceptions.service.ts:1328-1349 | recovery keeps the open urgency, which differs from the resolved one unless the severity is low |
| ExceptionLaws.BreachIsRestamped | apps/api/src/exceptions/exceptions.service.ts:306-313 | the stored breach time is the time of the last computation |
| ExceptionRaces.LandedOnSeen | apps/api/src/exceptions/exceptions.service.ts:990-1366 | a late write that nothing overtook makes exactly the row its operation intended |
| ExceptionRaces.LateWriteIff | apps/api/src/exceptions/exceptions.service.ts:1036-1095 | a late write of an update, hit, recovery or recalculation leaves the triage right if and only if the row still fits what was read: always for resolving, acknowledging and recovering, for the others when both rows agree on being resolved, acknowledged or assigned as far as the written fields leave it open |
| ExceptionRaces.LateBreachIff | apps/api/src/exceptions/exceptions.service.ts:1036-1095 | a late write leaves a breach on a resolved case if and only if it writes no status, was computed from an open case in breach, and lands on a resolved one |
| ExceptionRaces.LandedSound | apps/api/src/exceptions/exceptions.service.ts:1036-1095 | wherever it lands, a write computed from an old row leaves status and time stamps in agreement with each other |
| ExceptionRaces.RaceKeepsStamps | apps/api/src/exceptions/exceptions.service.ts:549-1366 | under every interleaving of row reads, policy reads, late writes and policy updates, status and time stamps agree with each other, priorities are in range and no fingerprint has two cases; deadlines are in order as well when no two updates of a policy overlap |
| ExceptionRaces.RacesAreRepaired | apps/api/src/exceptions/exceptions.service.ts:681-747 | after any such interleaving one undisturbed recalculation makes triage and breach of every case right again, and the whole desk when no two updates of a policy overlapped |
| ExceptionRaces.CarryKeepsIff | apps/api/src/exceptions/exceptions.service.ts:990-1366 | carrying out a late write keeps a right desk right if and only if the row still fits what was read |
| ExceptionRaces.FittingRaceKeepsRight | apps/api/src/exceptions/exceptions.service.ts:549-1366 | an interleaving whose writes all land on rows they still fit keeps every case right throughout |
| ExceptionRaces.OverlapBreaksTriage | apps/api/src/exceptions/exceptions.service.ts:990-1095 | reopening and assigning one acknowledged case at once leaves it assigned and pending |
| ExceptionRaces.OverlapBreaksBreach | apps/api/src/exceptions/exceptions.service.ts:704-744 | a recalculation that read an open case in breach leaves the breach on the case a user resolved meanwhile |
| ExceptionRaces.LateHitUndoesStatusIff | apps/api/src/exceptions/exceptions.service.ts:1250-1284 | a late hit keeps the status a user set meanwhile if and only if it is the one the hit computed |
| ExceptionRaces.LateHitUndoesResolution | apps/api/src/exceptions/exceptions.service.ts:1250-1284 | a hit that read an acknowledged case takes back a resolution made meanwhile, and the resolution time stays |
| Reconciliation.HitLoop | apps/api/src/automations/automations.service.ts:669-694 | after the hit loop confirmed cases keep an acknowledged or silenced status, new ones are open, and created + updated is the number of hits |
| Reconciliation.RunReconciles | apps/api/src/automations/automations.service.ts:667-700 | after loop and recovery the rule's open cases are exactly its hits; other cases are untouched and dropped ones resolved |
| Reconciliation.RepeatIsQuiet | apps/api/src/automations/automations.service.ts:667-700 | repeating a run with the same hits creates nothing, resolves nothing and changes no status |
| Reconciliation.SecondRunIsQuiet | apps/api/src/automations/automations.service.ts:667-700 | that holds after every successful run |
| Reconciliation.BrokenRunIsPrefix | apps/api/src/exceptions/exceptions.service.ts:1310-1363 | a run that breaks off after n hits and k recovered cases has confirmed the cases of those hits and resolved exactly the first k that were stale before it; the others are stale still |
| Reconciliation.BrokenRunIsResumed | apps/api/src/automations/automations.service.ts:667-700 | the repeated run creates and resolves what was left, no more, and is in step with its hits |
| RunRaces.LastTouchTells | apps/api/src/automations/automations.service.ts:667-700 | under every interleaving of the turns of any number of runs of one rule, a case is open if it was touched last by a hit, closed if by a recovery, and else as it was |
| RunRaces.OverlappingRunsSettle | apps/api/src/automations/automations.service.ts:667-700 | when all these runs are complete, each with the stale list of its own query, what all hit is open, what none hits is not, and what some hit is open if and only if its last touch was a hit |
| RunRaces.InStepWithIff | apps/api/src/automations/automations.service.ts:667-700 | the rule is then in step with one of the runs if and only if what that run hit was touched last by a hit, and what only others hit by a recovery |
| RunRaces.LateQueriesKeepCommonHits | apps/api/src/automations/automations.service.ts:667-700 | if all their hit loops end before any of them queries, what stays open is exactly what was open then and what all of them hit |
| RunRaces.AloneIsDeskAfter | apps/api/src/automations/automations.service.ts:652-753 | stopped after any number of its turns, a run alone leaves the desk of a run that breaks off there |
| RunRaces.AloneSucceedsIff | apps/api/src/automations/automations.service.ts:652-720 | a run alone is complete if and only if it had a turn for each hit, for the query and for each stale case; its desk and row are then those of a successful run |
| Automations.FingerprintTellsCode | apps/api/src/automations/automations.service.ts:449-554 | a fingerprint tells which rule code made it, so rules never share a case |
| Automations.FingerprintTellsItem | apps/api/src/automations/automations.service.ts:449-554 | of one rule, different detectors or items have different fingerprints |
| RuleLaws.DueAgainIff | apps/api/src/automations/automations.service.ts:47-754 | after a run, however it ended, an enabled rule is due if and only if its period has passed since the end: one minute, five minutes, or an hour for any other cadence |
| RuleLaws.DueAfterTickIff | apps/api/src/automations/automations.service.ts:47-773 | after a tick every rule it served is due when its own period is over, and every other one when it was due before |
| RuleLaws.CreateRuleMeans | apps/api/src/automations/automations.service.ts:305-356 | a rule is created as asked if and only if its code is free and its template right; enabled it is due from then on, disabled never |
| RuleLaws.UpdateRuleMeans | apps/api/src/automations/automations.service.ts:358-414 | a change is carried out, in the fields asked for, if and only if the rule exists and its template stays right; switching on or a new cadence makes it due at once, switching off never due, any other change leaves it due when it was |
| RuleLaws.HitsAsFound | apps/api/src/automations/automations.service.ts:449-650 | each item a detector finds becomes a hit of the detector's kind, with the rule's severity or the detector's own, under code, detector and item |
| RuleLaws.RunCasesShow | apps/api/src/automations/automations.service.ts:449-720 | after any history and a successful run every case the rule hit shows the kind and severity its detector stands for |
| RunLaws.RunMeans | apps/api/src/automations/automations.service.ts:652-754 | after any history, for every rule and wherever its run breaks off: each case is confirmed if a handled hit has its fingerprint and the rule writes cases, resolved if it was dropped and the recovery got to it, else as it was; new cases are those of hits; and the run row counts exactly that, or nothing when it failed |
| RunLaws.RunTouches | apps/api/src/automations/automations.service.ts:669-720 | after any history, wherever the run breaks off, a case with the fingerprint of a handled hit shows the kind and severity of the last such hit and the derived fields computed at its moment |
| Automations.WorldsKeep | apps/api/src/automations/automations.service.ts:305-773 | every sequence of requests, manual runs and ticks keeps cases consistent, rule codes unique and fingerprints with their rule, wherever runs break off |
| Automations.SuccessfulRunReconciles | apps/api/src/automations/automations.service.ts:652-720 | after any history a successful run leaves the rule's open cases equal to its hits with the right counters, and a second one creates and resolves nothing |
| Automations.BrokenRunIsMadeUpFor | apps/api/src/automations/automations.service.ts:652-753 | after any history, a run that breaks off in its hits or its recovery is recorded without counts but has handled exactly the hits and resolved exactly the first stale cases before the break; the world stays good, and repeating the run makes up for it |
| Automations.TickServesEveryDueRule | apps/api/src/automations/automations.service.ts:756-772 | with nothing else happening meanwhile a tick runs every due rule once, oldest first, touches no other, and leaves none due at the time it read |
| AutomationRaces.MovesKeep | apps/api/src/automations/automations.service.ts:305-773 | every interleaving of the turns of any number of runs, requests, rule changes and ticks keeps cases consistent, codes unique, fingerprints with their rule, every run row in step with its run, and the tick with the rules it read |
| AutomationRaces.TickServesAsRead | apps/api/src/automations/automations.service.ts:756-772 | whatever happens meanwhile, a tick begins one new run for each rule due when it read them, as it was read, oldest first and each when the one before has ended; when it is over all have run |
| AutomationRaces.DisabledRuleStillRuns | apps/api/src/automations/automations.service.ts:756-772 | a rule disabled after the tick read it and before its turn runs all the same, and when the tick is over it is disabled but has a next run |
| AutomationRaces.LeftoverIff | apps/api/src/automations/automations.service.ts:358-413 | a disabled rule comes to have a next run exactly when a run of it ends while it is disabled, and loses it exactly when it is switched on or off again |
| AutomationRaces.UndisturbedIsExecute | apps/api/src/automations/automations.service.ts:652-753 | a run that nothing disturbs is the one step of the simple system: stopped anywhere it is the run that breaks off there, and it can end if and only if it had all its turns |
| AutomationRaces.UndisturbedRunReconciles | apps/api/src/automations/automations.service.ts:652-720 | after any interleaved history such a run leaves the rule's open cases equal to its hits |
| AutomationRaces.OverlapAfterAnyHistory | apps/api/src/automations/automations.service.ts:652-720 | after any interleaved history, runs of one rule begun together and mixed in any order settle as runs of one rule do |
| OverlapLaws.LastTouchDecides | apps/api/src/automations/automations.service.ts:305-773 | whatever else goes on, as long as no request resolves or reopens a case of the rule, a case is open if the runs of the rule touched it last by a hit, closed if by a recovery, and else as it was |
| OverlapLaws.UpdateIsCalmIff | apps/api/src/exceptions/exceptions.service.ts:1019-1095 | an update leaves the rule's cases as open as they are if and only if it sets no status, or one on the same side of resolved, or is of no case of the rule |
| OverlapLaws.OtherTurnOpens | apps/api/src/automations/automations.service.ts:667-700 | a turn of a run of another rule never opens or closes a case of this one |
| OverlapLaws.OverlapSettlesAmongOthers | apps/api/src/automations/automations.service.ts:305-773 | after any history and among all these other moves, for a run that does all its work in them: what it hit is open if and only if the last touch was a hit, what every run of the rule taking part hits is open, and what none of them hits is not |
| AutomationsService.Automation.HandleHits | apps/api/src/automations/automations.service.ts:669-694 | the hit loop up to where the run breaks off, with its two counters |
| AutomationsService.Automation.ExecuteRule | apps/api/src/automations/automations.service.ts:652-754 | the run row written as running and finished on both paths, the cases up to where the run breaks off, in its hits or in its recovery, and the rule rescheduled as `RuleLaws.DueAgainIff` says |
| AutomationsService.Automation.TickAt | apps/api/src/automations/automations.service.ts:760-772 | the tick is `Tick`: due rules read once and run as they were read |

## Left out

- Unicode: `toUpperCase`, `toLowerCase` and `ascii_fold` beyond ASCII letters; upper and lower case map ASCII only, and the exporter's folding is an arbitrary function. Python's `strip` is not told apart from the `trim` of JavaScript, since rows reach the exporter's model stripped.
- Floating point: traffic sums and chart ratios use exact reals, and `Math.round` in the thinning rounds the exact quotient.
- JSON, `Date` parsing and ISO strings: injective, order-keeping functions given as arguments; an unparsable silence time in a case update is not modelled.
- Identifiers: rows of policies, cases, rules and runs are named by their position, imported legacy rows by arbitrary functions of their code, and random case codes are not modelled.
- Database failures other than a violated unique index and a break inside an automation run; failures of the very writes that record a run or reschedule its rule.
- Overlap at two levels at once: `ExceptionRaces` splits every operation on a case into its reads and its late write, `AutomationRaces` splits runs into turns, each of which handles one hit or one stale case in one step. Adding the default policies and reading the policies afterwards count as one instant.
- The order in which a query without `orderBy` returns rows: stale cases come in the order they were created.
- Tables of rules are read and written one statement at a time; the checks of a rule update and its write are one step.
- Deleting users: the database clears the assignee of a case without recomputing its triage; no operation modelled here does so.
- `preview`, `template` and the pagination of the import pages, the host scores of `scoreHostForUnit` (an arbitrary function), and units suggested for unmatched hosts.
- `build_bundle`: link details, contact details, the raw copies, redaction and the summary counts of Starlinks; `parse_city` and `parse_starlink_local` are applied before the model begins.
- Activities, comments, attachments, summaries for the dashboard, and report export runs beyond their run row.
- Rendering of PDF, DOCX, SVG and HTML, labels and colours of the charts.
- CRUD endpoints, authentication, settings and the web application.
- ExportQueue: the cron workers of the model may overlap and act on old picks, while the source runs one at a time; the theorems about all runs cover more than the source has, the counterexamples stay within it.
- ExportQueue.ClaimsAreApart: the distance counts from the stamp the earlier claim stored, which its worker read before the claim took effect; `ExportQueue.SlowClaimShrinksGap` shows that 30 minutes between the effects themselves does not hold when a claim is delayed, and by how much it fails.
- Automations.WorldsKeep: takes a run as one step; `AutomationRaces.MovesKeep` is the statement for runs that interleave.
- Automations.TickServesEveryDueRule: takes the tick as one step; `AutomationRaces.TickServesAsRead` says what remains of it when other things happen meanwhile.
- Sla.SavedPoliciesFit: speaks of updates that are not interleaved with another update of the same policy; the overlapping case has its own exact condition.
