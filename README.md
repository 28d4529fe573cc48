# Apolo-11 telemetry cycle, modelled in Dafny

Apolo-11 simulates the telemetry of a fleet of space-mission devices. A background loop
(`Apolo11Simulation.start_simulation`) repeats one cycle until it is stopped:

1. the data generator writes a batch of 1 to 100 JSON log files into the devices directory.
   Each file holds one record (date, mission, device type, device status, hash) and is named
   `APL<mission>-<cycle:04d><index:03d>.log`;
2. the report generator enumerates the `*.log` files and builds four analyses:
   - the event counts per mission, device type and status;
   - the disconnected devices, those with more than one `unknown` status;
   - the inoperable totals per device type (`killed` + `unknown`, across missions);
   - the status percentages per mission and device type;
3. it saves the analysis as a report, moves every log file to the backups directory, and
   appends the cycle's section (a heading and four HTML tables) to `Dashboard.md`;
4. the simulation runs its own archiving pass through the file manager, then sleeps.

The model follows the program's structure, one Dafny module per concern:

- `Dicts` models Python dictionaries as ordered association lists, so insertion order (and
  with it the order of the dashboard rows) is part of the model.
- `Telemetry`, `Text` and `Html` hold the record type, the status and device names, number
  formatting and the HTML table markup.
- `Events`, `Disconnections`, `Consolidation`, `Percentages` and `Analysis` are the four
  analyses. Each one has a specification function and a method with the source's loops,
  proved equal to it.
- `Platform.Host` is the machine: the two directories as maps from file name to record, the
  saved reports, the dashboard text, and a journal of effects in the order they happen.
- `Files`, `Generator`, `Archive`, `Dashboard` and `Reports` are the file manager, the data
  generator, archiving, the dashboard text and the report generator. The report generator
  is a class whose methods change the host.
- `Simulation` is the simulation class and the loop. It is driven by a script of per-cycle
  inputs: the random mission, the random picks, the timestamps and the point at which
  `stop_simulation` is called.
- `TestVariant` is the second copy of the report generator kept in `test.py`, where four
  pieces behave differently: three are defects (see "## Findings"), and the fourth is the
  percentage cell, which test.py renders as `str(p)` where the modules write `{p:.2f}%`.

Where the description of the system and the code differ, the model follows the code:

- A status outside the six known ones is not skipped as a recoverable ingestion error. The
  increment at `modules/ReportGenerator.py:72` raises `KeyError`, which leaves
  `generate_reports` and ends `start_simulation`, so the model returns a `Failure` and the
  loop stops with `running` still set, unless `stop_simulation` was called during that cycle.
- `ReportGenerator.move_processed_files_to_backup` calls `shutil.move` with no handler.
  Only `FileManager.move_to_backup` logs a failed move and continues.

## Model

| member | source | states |
|---|---|---|
| Dicts.Put | modules/ReportGenerator.py:137 | assignment to a dictionary key: an existing key keeps its place and gets the new value, a new key goes last, and no other key or value changes |
| Events.ZeroCounters | modules/ReportGenerator.py:68-69 | a new counter dictionary has exactly the six statuses, in source order, all zero |
| Events.Increment | modules/ReportGenerator.py:63-72 | counting one record succeeds exactly when its status is one of the six; otherwise it fails with that status (the KeyError) and the table stays well formed |
| Events.BumpLookup | modules/ReportGenerator.py:72 | after an increment, the count at (mission, type, status) grows by one and every other count is unchanged |
| Events.IncrementMissions | modules/ReportGenerator.py:63-64 | missions appear in the table once, in order of first appearance among the records |
| Events.IncrementTypes | modules/ReportGenerator.py:67-69 | each mission's device types appear once, in order of first appearance among that mission's records |
| Events.IncrementAgrees | modules/ReportGenerator.py:55-72 | one loop step keeps the table in agreement with the records read so far (keys and every count) |
| Events.TallySucceeds | modules/ReportGenerator.py:55-72 | counting succeeds exactly when every record has a valid status, and then the table agrees with the records |
| Events.TallyFails | modules/ReportGenerator.py:60-72 | a failure names the status of the first bad record, and every record before it is valid |
| Events.TallyFailureSticks | modules/ReportGenerator.py:55-72 | once a prefix fails, the whole enumeration fails with the same error |
| Events.StatusCountsSum | modules/ReportGenerator.py:68-72 | the six status counts of a pair add up to the number of records of that pair |
| Events.PairCounts | modules/ReportGenerator.py:63-72 | a pair is in the table exactly when some record has it; its counters are the six statuses with the per-status record counts, summing to the pair's record count |
| Events.AnalyzeEvents | modules/ReportGenerator.py:48-74 | the loop computes the specification count, succeeds exactly when all records are valid, and the table agrees with the records |
| Disconnections.FlaggedIff | modules/ReportGenerator.py:84-98 | an entry (type, n) is recorded for a mission exactly when the type is present, n is its unknown count and n > 1 |
| Disconnections.FlagKeys | modules/ReportGenerator.py:92-93 | each mission appears at most once and only missions of the count table appear |
| Disconnections.FlagIff | modules/ReportGenerator.py:83-98 | a mission is listed only with a non-empty list; (type, n) is listed under it exactly when the pair exists with n unknowns and n > 1 |
| Disconnections.ManageDisconnections | modules/ReportGenerator.py:76-100 | the nested loops compute the specification of the flagged devices |
| Consolidation.AddPair | modules/ReportGenerator.py:111-117 | adding one pair's inoperable count keeps the device types unique |
| Consolidation.AccumulateValue | modules/ReportGenerator.py:111-117 | after a device type is added, its running total is the sum over the missions seen plus the prefix of the current mission |
| Consolidation.AccumulateKeys | modules/ReportGenerator.py:114-115 | the device types are those seen so far, in order of first appearance |
| Consolidation.AccumulateStep | modules/ReportGenerator.py:109-117 | one inner-loop step preserves the consolidation invariant |
| Consolidation.ConsolidateMissions | modules/ReportGenerator.py:102-119 | every device type of the table appears once, in order of first appearance, with its killed + unknown total over all missions |
| Percentages.Shares | modules/ReportGenerator.py:130-131 | the breakdown has the counters' statuses in the same order |
| Percentages.SharesSound | modules/ReportGenerator.py:130-131 | every share lies between 0 and 100 and the shares add up to exactly 100 |
| Percentages.SharesPrefixSum | modules/ReportGenerator.py:130-131 | the shares of the first k statuses add up to the share of their combined count |
| Percentages.PercentBounds | modules/ReportGenerator.py:131 | count / total * 100 lies in [0, 100] when count <= total |
| Percentages.PercentWhole | modules/ReportGenerator.py:131 | a count equal to the total is 100 percent |
| Percentages.SharesGet | modules/ReportGenerator.py:131 | the share of a status is its count over the pair's total, times 100 |
| Percentages.TallyPositive | modules/ReportGenerator.py:130 | in a table counted from valid records every pair has a positive total, so the division never divides by zero |
| Percentages.DeviceShares | modules/ReportGenerator.py:129-137 | a mission's percentage dictionary has the same device types, in the same order |
| Percentages.PercentagesLookup | modules/ReportGenerator.py:128-137 | the percentage table has the count table's missions and each mission's device types; the entry of a pair is the breakdown of its counters |
| Percentages.PairTotal | modules/ReportGenerator.py:130 | the total of an existing pair is positive |
| Percentages.StoreStep | modules/ReportGenerator.py:134-137 | storing one pair's breakdown extends the mission's percentage dictionary by that pair |
| Percentages.MissionStep | modules/ReportGenerator.py:128-137 | the outer loop adds the mission with the breakdowns of all its device types |
| Percentages.CalculatePercentages | modules/ReportGenerator.py:121-139 | the nested loops compute the specification percentage table |
| Analysis.FailureIsBadStatus | modules/ReportGenerator.py:58-72 | a failed analysis names a status outside the six |
| Analysis.AnalyzeAndManage | modules/ReportGenerator.py:39-46 | the analysis succeeds exactly when all records are valid; on failure it carries the KeyError of the first bad record; on success it has the record counts and the three analyses derived from them |
| Platform.Host.Glob | modules/ReportGenerator.py:147 | every log file of the devices directory (a name ending in `.log` and not starting with '.', as glob's `*` skips hidden names) is listed exactly once, in some order |
| Platform.Host.WriteLog | modules/DataGenerator.py:56-62 | the file is created or overwritten with the record; nothing else changes |
| Platform.Host.Move | modules/ReportGenerator.py:151 | a move succeeds exactly when the source exists; the file then leaves devices and lands in backups under the same name, replacing a backup of that name; a failed move changes nothing |
| Platform.Host.SaveReport | modules/ReportGenerator.py:141-144 | the report file holds the analysis; nothing else changes |
| Platform.Host.OpenDashboard | modules/ReportGenerator.py:158 | opening Dashboard.md in append mode changes no file |
| Platform.Host.Append | modules/ReportGenerator.py:159 | a write to the open dashboard puts the text at its end |
| Platform.Host.Note | modules/FileManager.py:36-37 | a logged error changes no file |
| Files.Join | modules/FileManager.py:20-21 | the joined path ends with the relative part |
| Files.DirectoriesDistinct | modules/FileManager.py:20-21 | the devices and backups directories of a base are different paths |
| Files.FileManager.constructor | modules/FileManager.py:14-26 | the paths are base/devices and base/backups |
| Files.FileManager.MoveToBackup | modules/FileManager.py:28-37 | an existing file moves from devices to backups; a missing one is logged, raises nothing and changes neither directory |
| Text.NatToString | modules/ReportGenerator.py:171 | the decimal rendering of a count is non-empty, all digits, with no leading zero |
| Text.NatToStringValue | modules/ReportGenerator.py:171 | reading the rendering back gives the number |
| Text.NatToStringInjective | modules/ReportGenerator.py:171 | different counts render differently |
| Text.ZeroPadSound | modules/DataGenerator.py:53 | `:04d` and `:03d` give at least the width, exactly the width for a number below 10^width, and read back to the number |
| Generator.LogFileNameFrame | modules/DataGenerator.py:53 | a log file name is "APL", the mission, '-', the padded cycle and index, then ".log" |
| Generator.BodySplit | modules/DataGenerator.py:53 | in the name body the first '-' ends the mission code when the code has no '-' |
| Generator.DigitsSplit | modules/DataGenerator.py:53 | the digits after the '-' read back as the cycle number followed by a three-digit index |
| Generator.LogFileNameRoundTrip | modules/DataGenerator.py:53 | parsing the file name gives back mission, cycle and index, for a mission without '-' and an index below 1000 |
| Generator.LogFileNamesDistinct | modules/DataGenerator.py:53 | different (mission, cycle, index) triples give different file names |
| Generator.Writes | modules/DataGenerator.py:54 | a batch's journal has one write per file, in order |
| Generator.StoreAllSnoc | modules/DataGenerator.py:43-54 | writing one more file updates the directory with that file and journals its write |
| Generator.StoreAllLookup | modules/DataGenerator.py:56-62 | after a batch with distinct names, a file is present exactly when it was present before or is in the batch; a batch file holds its record and any other file is untouched |
| Generator.BatchNames | modules/DataGenerator.py:41-53 | a call with at most 100 files writes as many files as picks, with distinct names that parse back to (mission, cycle, i) |
| Generator.BatchRecords | modules/DataGenerator.py:38-52 | every record has the mission, the shared timestamp, a known device type and status, and the hash of timestamp+mission+type+status; all records are valid |
| Generator.DataGenerator.constructor | modules/DataGenerator.py:24-32 | the generator keeps its storage path and the four device types |
| Generator.DataGenerator.GenerateDataLog | modules/DataGenerator.py:34-54 | the devices directory gains the batch, written in index order and journalled in that order; no other part of the machine changes |
| Html.RowLines | test.py:196-198 | there is one line per row, each that row's `<tr>` line |
| Html.RowsTextSnoc | modules/ReportGenerator.py:167-171 | writing a row after the earlier rows appends exactly its line |
| Html.AppendRow | modules/ReportGenerator.py:170-171 | appending one row line to the dashboard extends the row text by that row |
| Html.RowsTextAppend | test.py:196-198 | the row text of two row lists is the concatenation of their texts |
| Html.CellsNoChar | test.py:194-197 | the cells contain no character absent from the tags and the texts |
| Html.TableLines | test.py:192-200 | a table is the opening line, the header line, one line per row and `</table>`, when no cell contains a line break |
| Html.TableLinesThen | test.py:192-200 | the lines of a table followed by more text are the table's lines and then the text's lines |
| Html.ParseCellsRoundTrip | test.py:194-197 | the cell texts can be read back from the markup when they contain no '<' |
| Html.RowLineRoundTrip | test.py:196-197 | a row line parses back to its cells |
| Html.HeaderLineRoundTrip | test.py:194-195 | the header line parses back to the headers |
| Archive.Moves | modules/ReportGenerator.py:151 | the journal has one move per name, in order |
| Archive.ArchiveKeepsFiles | modules/ReportGenerator.py:146-151 | no file is lost: a moved file is in backups with its record; an unmoved one stays in devices; backups only gains files from devices |
| Archive.ArchiveClearsLogs | modules/ReportGenerator.py:147-151 | after the pass no log file is left in devices and every other file stays |
| Archive.ArchiveIdempotent | modules/ReportGenerator.py:146-151 | a second pass changes neither directory |
| Archive.ArchiveStep | modules/ReportGenerator.py:148-151 | moving one more file removes it from devices and stores it in backups |
| Dashboard.LeafRowsSound | modules/ReportGenerator.py:169-171 | every row of a pair is [mission, type, status, the value of that status] |
| Dashboard.PairRowsSound | modules/ReportGenerator.py:168-171 | every row of a mission belongs to one of its device types |
| Dashboard.TableRowsSound | modules/ReportGenerator.py:167-171 | every row of the three nested loops names a key path of the table and its value |
| Dashboard.LeafRowsComplete | modules/ReportGenerator.py:169-171 | every status of a pair has a row |
| Dashboard.PairRowsComplete | modules/ReportGenerator.py:168-171 | every (device type, status) of a mission has a row |
| Dashboard.TableRowsComplete | modules/ReportGenerator.py:167-171 | every key path of the table has a row |
| Dashboard.PairRowsCount | modules/ReportGenerator.py:168-171 | a mission whose device types each have n statuses gives n rows per type |
| Dashboard.TableRowsCount | modules/ReportGenerator.py:167-171 | the row count is n times the number of pairs |
| Dashboard.EventPaths | modules/ReportGenerator.py:167-169 | the key paths of the count table are its pairs with the six statuses |
| Dashboard.EventRowsSound | modules/ReportGenerator.py:162-172 | the events table has six rows per pair, each a pair of the table, a status and its count |
| Dashboard.EventRowsComplete | modules/ReportGenerator.py:162-172 | every pair and status has its events row |
| Dashboard.PercentPaths | modules/ReportGenerator.py:203-205 | the key paths of the percentage table are the count table's pairs with the six statuses, valued at their share |
| Dashboard.PercentPairCount | modules/ReportGenerator.py:203-204 | the percentage table has as many pairs as the count table |
| Dashboard.PercentRowsSound | modules/ReportGenerator.py:198-208 | the percentages table has six rows per pair, each a status with its share rendered as `fmt(share)%` |
| Dashboard.PercentRowsComplete | modules/ReportGenerator.py:198-208 | every pair and status has its percentages row |
| Dashboard.EntryRowsSound | modules/ReportGenerator.py:181-183 | a disconnection row is [mission, type, count] for an entry of that mission |
| Dashboard.DisconnectionRowsSound | modules/ReportGenerator.py:180-183 | every disconnection row comes from an entry of the table |
| Dashboard.DisconnectionRowsComplete | modules/ReportGenerator.py:180-183 | every entry of the table has a row |
| Dashboard.DisconnectionSection | modules/ReportGenerator.py:175-184 | the disconnections table lists exactly the pairs with more than one unknown, with their unknown count |
| Dashboard.ConsolidationSection | modules/ReportGenerator.py:187-195 | the consolidation table has one row per device type (distinct types) with its inoperable total, and every type of the count table has its row |
| Dashboard.HeadersNoBreak | modules/ReportGenerator.py:162-202 | no title or header contains a line break |
| Dashboard.HeadingLinesThen | modules/ReportGenerator.py:159 | the cycle heading is an empty line and then `# Análisis para Ciclo <id>` |
| Dashboard.SectionLinesThen | modules/ReportGenerator.py:162-172 | a section is an empty line, its `##` title, and its table lines |
| Dashboard.DashboardLines | modules/ReportGenerator.py:153-208 | the appended text is, line by line, the heading and the events, disconnections, consolidation and percentages sections, in that order |
| Reports.ListingValid | modules/ReportGenerator.py:52-60 | the records of an enumeration are all valid exactly when every log file of the directory is |
| Reports.SectionWrites | modules/ReportGenerator.py:162-172 | the title write, the table-opening write, the header write, the row writes and the closing write together make up the section |
| Reports.EntryRowsSnoc | modules/ReportGenerator.py:181-183 | writing one more disconnection entry appends its row |
| Reports.LeafRowsSnoc | modules/ReportGenerator.py:169-171 | writing one more status appends its row |
| Reports.ConsolidationRowsSnoc | modules/ReportGenerator.py:192-194 | writing one more device type appends its row |
| Reports.ReportGenerator.constructor | modules/ReportGenerator.py:10-17 | the generator keeps its three paths |
| Reports.ReportGenerator.DashboardPath | modules/ReportGenerator.py:19-21 | the dashboard path ends in Dashboard.md |
| Reports.ReportGenerator.ReadLogs | modules/ReportGenerator.py:52-60 | the enumeration lists each log file once, and the records read are those files' contents in listing order |
| Reports.ReportGenerator.MoveProcessedFilesToBackup | modules/ReportGenerator.py:146-151 | every log file enumerated moves from devices to backups, one journal entry per move in enumeration order; reports and dashboard are untouched |
| Reports.ReportGenerator.WriteLeafRows | modules/ReportGenerator.py:169-171 | the status loop appends the rows of one pair |
| Reports.ReportGenerator.WritePairRows | modules/ReportGenerator.py:168-171 | the device-type loop appends the rows of one mission |
| Reports.ReportGenerator.WriteTableRows | modules/ReportGenerator.py:167-171 | the three nested loops append the rows of the whole table |
| Reports.ReportGenerator.WriteEntryRows | modules/ReportGenerator.py:181-183 | the entry loop appends the rows of one mission's disconnections |
| Reports.ReportGenerator.WriteDisconnectionRows | modules/ReportGenerator.py:180-183 | the mission loop appends every disconnection row |
| Reports.ReportGenerator.WriteConsolidationRows | modules/ReportGenerator.py:192-194 | the loop appends one row per device type |
| Reports.ReportGenerator.GenerateDashboard | modules/ReportGenerator.py:153-208 | the dashboard gains exactly the cycle's text (heading and four sections); the only journal entry is the opening; no directory changes |
| Reports.ReportGenerator.GenerateReports | modules/ReportGenerator.py:23-37 | success exactly when every log file is valid. On a KeyError nothing changes. On success: the analysis describes the enumerated records, the report is saved, every log file is archived, the dashboard gains the cycle's text, and the effects come in the order save, moves, dashboard |
| Simulation.CycleEffects | modules/Apolo11Simulation.py:20-25 | a cycle's effects are its writes, the report save, its moves, the dashboard opening and the sleep |
| Simulation.LogFileNameIsLog | modules/DataGenerator.py:53 | every generated name matches `*.log` |
| Simulation.BatchShape | modules/Apolo11Simulation.py:22 | a cycle's batch has distinct `*.log` names carrying the cycle's number, and valid statuses |
| Simulation.BatchesDisjoint | modules/Apolo11Simulation.py:20-22 | batches of different cycles share no file name |
| Simulation.StoreValid | modules/Apolo11Simulation.py:22-23 | writing a valid batch into a directory whose log files are valid keeps them valid |
| Simulation.NoLogsValid | modules/Apolo11Simulation.py:23 | a directory without log files has only valid log files |
| Simulation.BatchLogs | modules/Apolo11Simulation.py:22-23 | written into a directory without log files, the batch is exactly the log files present |
| Simulation.StoreThenClear | modules/Apolo11Simulation.py:22-24 | writing a batch and archiving every log file leaves the directory as archiving alone would |
| Simulation.StoreKeeps | modules/Apolo11Simulation.py:22 | every file of a batch with distinct names is present with its record after writing |
| Simulation.ArchiveKeepsOthers | modules/Apolo11Simulation.py:24 | archiving keeps in backups what it had, unless devices holds a file of the same name |
| Simulation.ArchiveKeepsBatch | modules/Apolo11Simulation.py:24 | archiving puts every moved batch file in backups with its record |
| Simulation.EmptyListing | modules/Apolo11Simulation.py:31 | a directory without log files enumerates to nothing |
| Simulation.ListingHead | modules/Apolo11Simulation.py:31 | the first name enumerated is a log file of the directory |
| Simulation.HistorySnoc | modules/Apolo11Simulation.py:19-25 | a completed cycle extends the history |
| Simulation.DevicesStep | modules/Apolo11Simulation.py:22-24 | after any cycle, devices holds the original directory without its log files |
| Simulation.BackupsStep | modules/Apolo11Simulation.py:22-24 | after a cycle every batch so far is in backups with its records, and backups lost no file |
| Simulation.HistoryBatches | modules/Apolo11Simulation.py:19-22 | the history records the batch of each cycle |
| Simulation.StepFacts | modules/Apolo11Simulation.py:19-25 | only the first cycle can meet an invalid log file, and only one that was there before the run; from the second cycle on, the report covers exactly the cycle's own batch |
| Simulation.AccountedSnoc | modules/Apolo11Simulation.py:19-25 | one more completed cycle keeps the account of the machine |
| Simulation.ReplayAccounted | modules/Apolo11Simulation.py:19-25 | after any number of completed cycles: devices holds the original directory without its log files; every batch is in backups; no backup is lost; every report is saved; dashboard and journal hold the cycles' texts and effects in order |
| Simulation.ProgressSnoc | modules/Apolo11Simulation.py:19-25 | a completed cycle extends the progress of the run |
| Simulation.RunDone | modules/Apolo11Simulation.py:20-24 | a successful iteration is the next cycle of the script |
| Simulation.CycleStep | modules/Apolo11Simulation.py:19-25 | a successful iteration extends the progress of the run |
| Simulation.FirstCycleOnly | modules/Apolo11Simulation.py:22-23 | a report failure can only happen in the first cycle, on a directory that held an invalid log file before the run |
| Simulation.ProgressDevices | modules/Apolo11Simulation.py:19-25 | after at least one cycle, devices holds the original directory without its log files |
| Simulation.Apolo11Simulation.constructor | modules/Apolo11Simulation.py:10-14 | the three components share one machine and the simulation is not running |
| Simulation.Apolo11Simulation.StopSimulation | modules/Apolo11Simulation.py:27-28 | the simulation is no longer running |
| Simulation.Apolo11Simulation.MoveProcessedFilesToBackup | modules/Apolo11Simulation.py:30-34 | every log file enumerated goes through the file manager to backups; none of those moves fails |
| Simulation.Apolo11Simulation.FinishCycle | modules/Apolo11Simulation.py:24-25 | after the report generator archived everything, the simulation's own pass moves nothing, and the cycle sleeps |
| Simulation.Apolo11Simulation.ReportCycle | modules/Apolo11Simulation.py:23 | generate_reports, recorded as the cycle's outcome: on failure nothing changes; on success the report, archive and dashboard effects happen |
| Simulation.Apolo11Simulation.RunCycle | modules/Apolo11Simulation.py:20-25 | one iteration writes the batch, then reports (stopping on a KeyError), archives and sleeps, with exactly the cycle's effects in order |
| Simulation.Apolo11Simulation.NextCycle | modules/Apolo11Simulation.py:19-25 | an iteration either completes the next cycle of the script, or fails in the first cycle because of a bad log file that was there before the run, leaving backups, reports and Dashboard.md untouched |
| Simulation.Apolo11Simulation.StartSimulation | modules/Apolo11Simulation.py:16-28 | cycles numbered from 1 run up to and including the one in which the stop arrives. A KeyError ends the loop with running still set unless the stop arrived in that cycle (`stop_simulation`, modules/Apolo11Simulation.py:27-28, clears it at once), and only in cycle 1, after the batch was written and before any report, move or dashboard write. Otherwise the machine is accounted for by the completed cycles and the devices directory is left without log files |
| TestVariant.FreshPair | test.py:132-135 | registering one pair in an empty table gives the one-mission, one-type table |
| TestVariant.CalculatePercentagesAsWritten | test.py:119-137 | the loops return after the first pair: only the first pair's breakdown, or None when no mission has a device type |
| TestVariant.FirstPairOnlyNone | test.py:126-137 | the variant gives None exactly when no mission has a device type |
| TestVariant.FirstShares | test.py:127-135 | the first breakdown of a mission is its first device type's shares |
| TestVariant.FirstPairOnlyAgrees | test.py:126-137 | the variant agrees with the modules' percentages exactly when there is one mission with one device type; otherwise it keeps only the first pair |
| TestVariant.ItemRows | test.py:177-178 | a mission's entries give two rows each |
| TestVariant.ItemRowsAt | test.py:177-178 | entry k gives the rows [m, device_type, type] and [m, unknown_count, n] |
| TestVariant.RowCounts | test.py:177-178 | the variant has twice as many disconnection rows as the modules |
| TestVariant.DisconnectionItemRowsAgree | test.py:175-179 | the two disconnection sections agree exactly when no device is flagged |
| TestVariant.OneFlaggedDevice | test.py:175-179 | one flagged device gives two key-name rows in the variant, one row in the modules |
| TestVariant.SectionsTextSnoc | test.py:165-167 | the sections loop writes each title and then its table; a failing builder stops it after the title |
| TestVariant.FirstThreeSections | test.py:158-167 | the events, disconnections and consolidation sections are always written |
| TestVariant.TestDashboardSections | test.py:151-167 | with a percentage table the four sections are written; without one the call fails after the `## Porcentajes` title |
| TestVariant.TestDashboardAgrees | test.py:151-190 | with no flagged device and a percentage table, the variant's generic table builder writes the modules' dashboard text when its percentage cells are rendered as `fmt(p)%`; test.py's own `str(p)` cells differ from the modules' whenever the percentage table has a row |
| TestVariant.AppendSection | test.py:165-167 | writing the title and then the table of section k extends the sections text |
| TestVariant.ReportGenerator.constructor | test.py:8-15 | the variant's generator works on the given machine |
| TestVariant.ReportGenerator.GenerateDashboard | test.py:151-167 | the dashboard gains the variant's text, and the call completes exactly when every section builder succeeds |

## Left out

- Threads: `Apolo11Simulation.run` starts `start_simulation` on a thread. A call of
  `stop_simulation` from another thread is modelled as the `stopRequested` flag of the cycle
  in which it arrives, so the loop ends after that cycle, and `running` is cleared even when
  that cycle ends in a KeyError.
- Time: `time.sleep` is only a journal entry, and the clock (timestamps, report names) is an input.
- Randomness: the mission code, the file count and the device picks are inputs. Each cycle's
  inputs are taken to be in the ranges `random` produces.
- SHA-256 is the uninterpreted parameter `digest`.
- JSON encoding and decoding: a log file holds its record and a report file its analysis,
  both as values. A log file whose JSON is unreadable or lacks a field is not modelled; only
  a bad status is.
- Floating point: percentages are exact rationals (`real`), not IEEE doubles. The `:.2f`
  formatting is the parameter `fmt`, and test.py's `str(percentage)` is the parameter `show`.
- The file system: `os.makedirs` and path existence checks are not modelled, and the two
  directories are maps from file name to record. A glob enumeration is one snapshot, with
  nothing else touching the directory during a cycle.
- `ControlDashboard.py`, `SimulationComponent.py` and `apolo-11.py` are not part of this model.
  They are the interactive front end and the wiring of the components.
- In test.py, `analyze_and_manage`, `analyze_events`, `manage_disconnections`,
  `consolidate_missions`, `save_report` and `move_processed_files_to_backup` match the
  modules' versions and are modelled once, in the modules. test.py's `generate_reports` has
  the modules' text, but it calls test.py's own `calculate_percentages` and
  `generate_dashboard`; that composition is not modelled as one operation. The two callees'
  differences are modelled in `TestVariant`: with an empty devices directory it would save a
  null percentage table, move nothing and then fail in the dashboard
  (`TestVariant.TestDashboardSections`), where the modules' `GenerateReports` completes.
- TestVariant.TestDashboardAgrees: the agreement is stated for cells rendered as `fmt(p)%`
  (`PercentCell(fmt)`), the modules' format. test.py renders a cell as `str(p)`, the parameter
  `show`, which has no `%`. So test.py's dashboard differs from the modules' whenever the
  percentage table has a row, and with an empty table test.py's builder fails instead
  (`TestVariant.TestDashboardSections`); the lemma covers the variant's table builder, not
  test.py's cell format.
- Simulation.Apolo11Simulation.StartSimulation: requires that the script contains a stop request.
  A run that is never stopped does not end, and the model covers the runs that do.
- Percentages.CalculatePercentages: requires a positive total for every pair. The source would
  divide by zero otherwise. Tables counted from records always meet this (`Percentages.TallyPositive`).
- Generator.DataGenerator.GenerateDataLog: requires 1 to 100 picks of known device types and
  statuses, which is what `random.randint(1, 100)` and `random.choice` produce.
- Reports.ReportGenerator.MoveProcessedFilesToBackup: the move of a file that disappeared after
  the enumeration (a race with another process) is not modelled, since nothing else touches
  the directory.

## Findings

| source | as written | input that shows it | evidently intended | confidence | as-written member | corrected member |
|---|---|---|---|---|---|---|
| test.py:126-137 | `return percentage_calculation_data` sits inside the inner loop | one mission with the device types Nave and Traje: only Nave's breakdown is returned; with no log files the function returns None | return after both loops, as in modules/ReportGenerator.py:139 | high; not executed | TestVariant.CalculatePercentagesAsWritten | Percentages.CalculatePercentages |
| test.py:175-179 | the rows iterate `device.items()` of each disconnection entry | one flagged device d with 2 unknowns in mission m gives rows [m, device_type, d] and [m, unknown_count, 2] | one row [m, d, 2] per entry, as in modules/ReportGenerator.py:180-183 | high; not executed | TestVariant.OneFlaggedDevice | Dashboard.DisconnectionSection |
| test.py:186-190 | the percentages section iterates the result of `calculate_percentages`, which is None for an empty table | an empty devices directory: the call fails after writing `## Porcentajes` | an empty percentages table, as in modules/ReportGenerator.py:198-208 | high; not executed | TestVariant.TestDashboardSections | Reports.ReportGenerator.GenerateDashboard |
