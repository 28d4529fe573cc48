/** The simulation loop (`Apolo11Simulation`): every cycle writes a batch of log
    files, analyses and archives them with the report writer, runs its own
    archiving pass and sleeps, until another thread clears `running`. The random
    mission choice, the random picks, the clock and the moment of the stop
    request are the script of per-cycle inputs. */
module Simulation {
  import opened Telemetry
  import opened Text
  import opened Analysis
  import opened Platform
  import opened Files
  import opened Generator
  import opened Reports
  import opened Archive
  import opened Dashboard

  /** The inputs of one cycle: the mission drawn by `choice`, the generator's
      timestamp and picks, the report file name (made from the clock), and
      whether `stop_simulation` was called while the cycle ran. */
  datatype Cycle = Cycle(mission: string, timestamp: string, picks: seq<Pick>, reportName: string,
                         stopRequested: bool)

  /** Inputs the source can produce: a listed mission, 1 to 100 files of listed
      device types and statuses. */
  predicate ValidCycle(c: Cycle) {
    && c.mission in MissionCodes && 1 <= |c.picks| <= 100
    && forall i :: 0 <= i < |c.picks| ==> ValidPick(c.picks[i])
  }

  /** What one completed cycle did: its id, the files it wrote, the devices
      directory the report writer found, the report it saved, the enumeration its
      analysis read, the analysis, the files it archived and the text it appended
      to the dashboard. */
  datatype CycleRun = CycleRun(id: nat, files: seq<(string, Record)>, dir: map<string, Record>,
                               reportName: string, listed: seq<string>, analysis: Analysis,
                               moved: seq<string>, text: string)

  /** The report writer's part of a cycle: its enumeration and its archiving
      pass each list every log file of the directory once, its analysis
      describes the listed records, and the dashboard text is the one of that
      analysis under the cycle's id. */
  ghost predicate Reported(run: CycleRun, fmt: real -> string) {
    && Listing(run.dir, run.listed) && Listing(run.dir, run.moved)
    && (forall i :: 0 <= i < |run.listed| ==> run.listed[i] in run.dir)
    && Describes(RecordsOf(run.dir, run.listed), run.analysis)
    && run.text == DashboardText(run.analysis, run.id, fmt)
  }

  /** The effects of one completed cycle, in order. */
  function CycleEffects(run: CycleRun, interval: nat): (es: seq<Effect>)
    ensures |es| == |run.files| + |run.moved| + 3
    ensures es[|run.files|] == SavedReport(run.reportName) && es[|es| - 1] == Slept(interval)
  {
    Writes(run.files) + [SavedReport(run.reportName)] + Moves(run.moved) + [DashboardOpened, Slept(interval)]
  }

  /** The effects of the completed cycles, one after another. */
  function Journal(runs: seq<CycleRun>, interval: nat): seq<Effect> {
    if runs == [] then [] else Journal(runs[..|runs| - 1], interval) + CycleEffects(runs[|runs| - 1], interval)
  }

  /** The text the completed cycles append to the dashboard, one after another. */
  function Dashboards(runs: seq<CycleRun>): string {
    if runs == [] then "" else Dashboards(runs[..|runs| - 1]) + runs[|runs| - 1].text
  }

  /** The reports directory after the completed cycles saved their analyses. */
  function SavedReports(reports: map<string, Analysis>, runs: seq<CycleRun>): map<string, Analysis> {
    if runs == [] then reports
    else SavedReports(reports, runs[..|runs| - 1])[runs[|runs| - 1].reportName := runs[|runs| - 1].analysis]
  }

  /** The names of a batch. */
  function NamesOf(files: seq<(string, Record)>): set<string> {
    set i | 0 <= i < |files| :: files[i].0
  }

  /** Every file of the batch is in the directory with its record. */
  ghost predicate Kept(dir: map<string, Record>, files: seq<(string, Record)>) {
    forall i :: 0 <= i < |files| ==> files[i].0 in dir && dir[files[i].0] == files[i].1
  }

  lemma MissionCodesNoDash(m: string)
    requires m in MissionCodes
    ensures '-' !in m
  {
  }

  lemma LogFileNameIsLog(m: string, c: nat, i: nat)
    ensures IsLogName(LogFileName(m, c, i))
  {
    var n := LogFileName(m, c, i);
    var p := "APL" + m + "-" + ZeroPad(c, 4) + ZeroPad(i, 3);
    assert n == p + ".log";
    assert n[0] == 'A' && n[|n| - 4..] == ".log";
  }

  /** A cycle's batch: distinct log file names carrying the cycle id, valid
      records. */
  lemma BatchShape(c: Cycle, cycleId: nat, digest: string -> string)
    requires ValidCycle(c)
    ensures var files := Batch(c.timestamp, c.mission, cycleId, c.picks, digest);
      && |files| == |c.picks|
      && (forall i, j :: 0 <= i < j < |files| ==> files[i].0 != files[j].0)
      && (forall i :: 0 <= i < |files| ==> files[i].0 == LogFileName(c.mission, cycleId, i) && i < 1000)
      && (forall i :: 0 <= i < |files| ==> IsLogName(files[i].0) && files[i].1.deviceStatus in StatusNames)
  {
    MissionCodesNoDash(c.mission);
    BatchNames(c.timestamp, c.mission, cycleId, c.picks, digest);
    BatchRecords(c.timestamp, c.mission, cycleId, c.picks, digest);
    forall i | 0 <= i < |c.picks| {
      LogFileNameIsLog(c.mission, cycleId, i);
    }
  }

  /** Batches of different cycles share no file name. */
  lemma BatchesDisjoint(c: Cycle, id: nat, c': Cycle, id': nat, digest: string -> string, i: nat, i': nat)
    requires ValidCycle(c) && ValidCycle(c') && id != id'
    requires i < |c.picks| && i' < |c'.picks|
    ensures Batch(c.timestamp, c.mission, id, c.picks, digest)[i].0 != Batch(c'.timestamp, c'.mission, id', c'.picks, digest)[i'].0
  {
    MissionCodesNoDash(c.mission);
    MissionCodesNoDash(c'.mission);
    LogFileNamesDistinct(c.mission, id, i, c'.mission, id', i');
  }

  /** Writing valid records keeps every log file valid. */
  lemma StoreValid(d: map<string, Record>, files: seq<(string, Record)>)
    requires forall i, j :: 0 <= i < j < |files| ==> files[i].0 != files[j].0
    requires forall i :: 0 <= i < |files| ==> files[i].1.deviceStatus in StatusNames
    ensures LogsValid(d) ==> LogsValid(StoreAll(d, files))
  {
    if LogsValid(d) {
      forall n | n in StoreAll(d, files) && IsLogName(n) ensures StoreAll(d, files)[n].deviceStatus in StatusNames {
        StoreAllLookup(d, files, n);
      }
    }
  }

  /** A directory without log files has no invalid one. */
  lemma NoLogsValid(d: map<string, Record>)
    requires LogNamesOf(d) == {}
    ensures LogsValid(d)
  {
    assert forall n :: n in d && IsLogName(n) ==> n in LogNamesOf(d);
  }

  /** Writing a batch of log files into a directory without log files gives a
      directory whose log files are exactly the batch. */
  lemma BatchLogs(p: map<string, Record>, files: seq<(string, Record)>)
    requires forall i, j :: 0 <= i < j < |files| ==> files[i].0 != files[j].0
    requires forall i :: 0 <= i < |files| ==> IsLogName(files[i].0)
    requires LogNamesOf(p) == {}
    ensures LogNamesOf(StoreAll(p, files)) == NamesOf(files)
  {
    forall n | n in LogNamesOf(StoreAll(p, files)) ensures n in NamesOf(files) {
      StoreAllLookup(p, files, n);
      assert n !in LogNamesOf(p);
    }
    forall n | n in NamesOf(files) ensures n in LogNamesOf(StoreAll(p, files)) {
      StoreAllLookup(p, files, n);
    }
  }

  /** Writing log files and then archiving every log file leaves the directory
      as archiving alone would have. */
  lemma StoreThenClear(p: map<string, Record>, files: seq<(string, Record)>)
    requires forall i, j :: 0 <= i < j < |files| ==> files[i].0 != files[j].0
    requires forall i :: 0 <= i < |files| ==> IsLogName(files[i].0)
    ensures var d := StoreAll(p, files); Remaining(d, LogNamesOf(d)) == Remaining(p, LogNamesOf(p))
  {
    var d := StoreAll(p, files);
    forall n | n in Remaining(d, LogNamesOf(d)) ensures n in Remaining(p, LogNamesOf(p)) && Remaining(d, LogNamesOf(d))[n] == p[n] {
      StoreAllLookup(p, files, n);
    }
    forall n | n in Remaining(p, LogNamesOf(p)) ensures n in Remaining(d, LogNamesOf(d)) {
      StoreAllLookup(p, files, n);
    }
  }

  /** An archive keeps the backups of files it does not touch. */
  lemma ArchiveKeepsOthers(d: map<string, Record>, b: map<string, Record>, names: set<string>,
                           files: seq<(string, Record)>)
    requires Kept(b, files)
    requires forall i :: 0 <= i < |files| ==> files[i].0 !in d
    ensures Kept(Archived(d, b, names), files)
  {
  }

  /** An archive that moves every file of a batch keeps the batch. */
  lemma ArchiveKeepsBatch(d: map<string, Record>, b: map<string, Record>, names: set<string>,
                          files: seq<(string, Record)>)
    requires Kept(d, files)
    requires forall i :: 0 <= i < |files| ==> files[i].0 in names
    ensures Kept(Archived(d, b, names), files)
  {
  }

  lemma StoreKeeps(p: map<string, Record>, files: seq<(string, Record)>)
    requires forall i, j :: 0 <= i < j < |files| ==> files[i].0 != files[j].0
    ensures Kept(StoreAll(p, files), files)
  {
    forall i | 0 <= i < |files| ensures files[i].0 in StoreAll(p, files) && StoreAll(p, files)[files[i].0] == files[i].1 {
      StoreAllLookup(p, files, files[i].0);
    }
  }

  /** A directory without log files enumerates to nothing. */
  lemma EmptyListing(d: map<string, Record>, names: seq<string>)
    requires Listing(d, names) && LogNamesOf(d) == {}
    ensures names == []
  {
    ListingHead(d, names);
  }

  lemma ListingHead(d: map<string, Record>, names: seq<string>)
    requires Listing(d, names)
    ensures |names| > 0 ==> names[0] in LogNamesOf(d)
  {
    if |names| > 0 {
      assert names[0] in names;
    }
  }

  lemma CycleJournal(j: seq<Effect>, run: CycleRun, interval: nat)
    ensures j + Writes(run.files) + [SavedReport(run.reportName)] + Moves(run.moved) + [DashboardOpened] + [Slept(interval)]
            == j + CycleEffects(run, interval)
  {
    var w, s, m := Writes(run.files), [SavedReport(run.reportName)], Moves(run.moved);
    Assoc(j, w + s + m, [DashboardOpened, Slept(interval)]);
    Assoc(j, w + s, m);
    Assoc(j, w, s);
    Assoc(j + w + s + m, [DashboardOpened], [Slept(interval)]);
  }

  /** The devices directory before cycle k (0-based) of a run that started
      with d0: d0 itself, and afterwards d0 without its log files. */
  ghost function Before(d0: map<string, Record>, k: nat): map<string, Record> {
    if k == 0 then d0 else Remaining(d0, LogNamesOf(d0))
  }

  /** Cycle k (0-based) of a run that started with the devices directory d0:
      it has id k + 1 and wrote the batch of the k-th inputs of the script, the
      report writer found the directory as it was before the cycle plus that
      batch and reported on it, and from the second cycle on the enumeration
      listed exactly the cycle's own batch. */
  ghost predicate CycleDone(script: seq<Cycle>, d0: map<string, Record>, run: CycleRun, k: nat,
                            digest: string -> string, fmt: real -> string)
    requires k < |script|
  {
    var c := script[k];
    && run.id == k + 1
    && run.files == Batch(c.timestamp, c.mission, run.id, c.picks, digest) && run.reportName == c.reportName
    && run.dir == StoreAll(Before(d0, k), run.files)
    && Reported(run, fmt)
    && (k >= 1 ==> forall n :: n in run.listed <==> n in NamesOf(run.files))
  }

  /** Every completed cycle is cycle k of the script, in order. */
  ghost predicate History(script: seq<Cycle>, d0: map<string, Record>, runs: seq<CycleRun>,
                          digest: string -> string, fmt: real -> string)
  {
    && |runs| <= |script|
    && forall k {:trigger CycleDone(script, d0, runs[k], k, digest, fmt)} :: 0 <= k < |runs| ==>
         CycleDone(script, d0, runs[k], k, digest, fmt)
  }

  /** A completed cycle extends the history. */
  lemma HistorySnoc(script: seq<Cycle>, d0: map<string, Record>, runs: seq<CycleRun>, run: CycleRun,
                    digest: string -> string, fmt: real -> string)
    requires |runs| < |script| && History(script, d0, runs, digest, fmt)
    requires CycleDone(script, d0, run, |runs|, digest, fmt)
    ensures History(script, d0, runs + [run], digest, fmt)
  {
    forall k | 0 <= k < |runs| + 1 ensures CycleDone(script, d0, (runs + [run])[k], k, digest, fmt) {
      if k < |runs| {
        assert CycleDone(script, d0, runs[k], k, digest, fmt);
        DoneTransfer(script, d0, runs[k], (runs + [run])[k], k, digest, fmt);
      } else {
        DoneTransfer(script, d0, run, (runs + [run])[k], k, digest, fmt);
      }
    }
  }

  lemma DoneTransfer(script: seq<Cycle>, d0: map<string, Record>, x: CycleRun, y: CycleRun, k: nat,
                     digest: string -> string, fmt: real -> string)
    requires k < |script| && x == y && CycleDone(script, d0, x, k, digest, fmt)
    ensures CycleDone(script, d0, y, k, digest, fmt)
  {}

  /** A cycle archives every log file present, so the next cycle starts from the
      original directory without its log files. */
  lemma DevicesStep(d0: map<string, Record>, k: nat, files: seq<(string, Record)>)
    requires forall i, j :: 0 <= i < j < |files| ==> files[i].0 != files[j].0
    requires forall i :: 0 <= i < |files| ==> IsLogName(files[i].0)
    ensures var d := StoreAll(Before(d0, k), files); Remaining(d, LogNamesOf(d)) == Before(d0, k + 1)
  {
    StoreThenClear(Before(d0, k), files);
    if k > 0 {
      ArchiveClearsLogs(d0);
      assert Remaining(Before(d0, k), {}) == Before(d0, k);
    }
  }

  /** After cycle k's archive the backups hold every batch written so far. */
  lemma BackupsStep(script: seq<Cycle>, runs: seq<CycleRun>, d0: map<string, Record>, b: map<string, Record>,
                    digest: string -> string)
    requires forall k :: 0 <= k < |script| ==> ValidCycle(script[k])
    requires |runs| < |script|
    requires forall k :: 0 <= k < |runs| ==>
               runs[k].files == Batch(script[k].timestamp, script[k].mission, k + 1, script[k].picks, digest)
    requires forall k :: 0 <= k < |runs| ==> Kept(b, runs[k].files)
    ensures var c := script[|runs|];
            var files := Batch(c.timestamp, c.mission, |runs| + 1, c.picks, digest);
            var d := StoreAll(Before(d0, |runs|), files);
            && Kept(Archived(d, b, LogNamesOf(d)), files)
            && (forall k :: 0 <= k < |runs| ==> Kept(Archived(d, b, LogNamesOf(d)), runs[k].files))
            && b.Keys <= Archived(d, b, LogNamesOf(d)).Keys
  {
    hide Batch, StoreAll, Remaining, LogFileName;
    var c := script[|runs|];
    var files := Batch(c.timestamp, c.mission, |runs| + 1, c.picks, digest);
    var prev := Before(d0, |runs|);
    var d := StoreAll(prev, files);
    BatchShape(c, |runs| + 1, digest);
    StoreKeeps(prev, files);
    ArchiveKeepsBatch(d, b, LogNamesOf(d), files);
    if |runs| > 0 {
      ArchiveClearsLogs(d0);
    }
    forall k | 0 <= k < |runs| ensures Kept(Archived(d, b, LogNamesOf(d)), runs[k].files) {
      var older := runs[k].files;
      BatchShape(script[k], k + 1, digest);
      forall i | 0 <= i < |older| ensures older[i].0 !in d {
        var n := older[i].0;
        StoreAllLookup(prev, files, n);
        forall i' | 0 <= i' < |files| ensures files[i'].0 != n {
          BatchesDisjoint(c, |runs| + 1, script[k], k + 1, digest, i', i);
        }
        assert n !in LogNamesOf(prev);
      }
      ArchiveKeepsOthers(d, b, LogNamesOf(d), older);
    }
  }

  /** Each completed cycle wrote the batch of its inputs. */
  lemma HistoryBatches(script: seq<Cycle>, d0: map<string, Record>, runs: seq<CycleRun>,
                       digest: string -> string, fmt: real -> string)
    requires History(script, d0, runs, digest, fmt)
    ensures forall k :: 0 <= k < |runs| ==>
              runs[k].files == Batch(script[k].timestamp, script[k].mission, k + 1, script[k].picks, digest)
  {
    hide Batch, Reported;
    forall k | 0 <= k < |runs|
      ensures runs[k].files == Batch(script[k].timestamp, script[k].mission, k + 1, script[k].picks, digest)
    {
      ghost var done := CycleDone(script, d0, runs[k], k, digest, fmt);
    }
  }

  /** What the next cycle of a run finds and leaves behind, before the report
      writer's outcome is known: a KeyError is only possible in the first
      cycle, archiving keeps every batch written so far, leaves the directory
      as it was after the first cycle, and from the second cycle on the log
      files are exactly the cycle's batch. */
  lemma StepFacts(script: seq<Cycle>, d0: map<string, Record>, b: map<string, Record>, runs: seq<CycleRun>,
                  digest: string -> string, fmt: real -> string)
    requires forall k :: 0 <= k < |script| ==> ValidCycle(script[k])
    requires |runs| < |script| && History(script, d0, runs, digest, fmt)
    requires forall k :: 0 <= k < |runs| ==> Kept(b, runs[k].files)
    ensures var c := script[|runs|];
            var files := Batch(c.timestamp, c.mission, |runs| + 1, c.picks, digest);
            var d := StoreAll(Before(d0, |runs|), files);
            && (!LogsValid(d) ==> runs == [] && !LogsValid(d0))
            && Kept(Archived(d, b, LogNamesOf(d)), files)
            && (forall k :: 0 <= k < |runs| ==> Kept(Archived(d, b, LogNamesOf(d)), runs[k].files))
            && b.Keys <= Archived(d, b, LogNamesOf(d)).Keys
            && Remaining(d, LogNamesOf(d)) == Before(d0, |runs| + 1)
            && (|runs| >= 1 ==> LogNamesOf(d) == NamesOf(files))
  {
    var c := script[|runs|];
    var prev := Before(d0, |runs|);
    var files := Batch(c.timestamp, c.mission, |runs| + 1, c.picks, digest);
    var d := StoreAll(prev, files);
    BatchShape(c, |runs| + 1, digest);
    StoreValid(prev, files);
    if |runs| > 0 {
      ArchiveClearsLogs(d0);
      NoLogsValid(prev);
      BatchLogs(prev, files);
    }
    HistoryBatches(script, d0, runs, digest, fmt);
    BackupsStep(script, runs, d0, b, digest);
    DevicesStep(d0, |runs|, files);
  }

  lemma KeptSnoc(b: map<string, Record>, runs: seq<CycleRun>, run: CycleRun)
    requires forall k :: 0 <= k < |runs| ==> Kept(b, runs[k].files)
    requires Kept(b, run.files)
    ensures forall k :: 0 <= k < |runs| + 1 ==> Kept(b, (runs + [run])[k].files)
  {
    forall k | 0 <= k < |runs| + 1 ensures Kept(b, (runs + [run])[k].files) {
      if k < |runs| {
        assert (runs + [run])[k] == runs[k];
      }
    }
  }

  lemma DashboardsSnoc(runs: seq<CycleRun>, run: CycleRun)
    ensures Dashboards(runs + [run]) == Dashboards(runs) + run.text
  {
    assert (runs + [run])[..|runs|] == runs;
  }

  lemma JournalSnoc(runs: seq<CycleRun>, run: CycleRun, interval: nat)
    ensures Journal(runs + [run], interval) == Journal(runs, interval) + CycleEffects(run, interval)
  {
    assert (runs + [run])[..|runs|] == runs;
  }

  lemma SavedReportsSnoc(reports: map<string, Analysis>, runs: seq<CycleRun>, run: CycleRun)
    ensures SavedReports(reports, runs + [run]) == SavedReports(reports, runs)[run.reportName := run.analysis]
  {
    assert (runs + [run])[..|runs|] == runs;
  }

  /** What the simulation can observe of the machine: both directories, the
      saved reports, the dashboard text and the effects so far. */
  datatype Machine = Machine(devices: map<string, Record>, backups: map<string, Record>,
                             reports: map<string, Analysis>, dashboard: string, journal: seq<Effect>)

  /** The machine a completed cycle leaves behind: the report writer archived
      every log file of the directory it found, saved the report and appended
      the cycle's dashboard text, and the effects are the cycle's. */
  ghost function After(now: Machine, run: CycleRun, interval: nat): Machine {
    var names := LogNamesOf(run.dir);
    Machine(Remaining(run.dir, names), Archived(run.dir, now.backups, names),
            now.reports[run.reportName := run.analysis], now.dashboard + run.text,
            now.journal + CycleEffects(run, interval))
  }

  /** The machine that the completed cycles `runs` leave behind, from `start`. */
  ghost function Replay(start: Machine, runs: seq<CycleRun>, interval: nat): Machine {
    if runs == [] then start else After(Replay(start, runs[..|runs| - 1], interval), runs[|runs| - 1], interval)
  }

  /** The machine `now` after the cycles `runs` of the script, when the
      simulation started on `start`: every cycle was the next one of the
      script, and the machine is what they left behind. */
  ghost predicate Progress(script: seq<Cycle>, start: Machine, runs: seq<CycleRun>, interval: nat,
                           digest: string -> string, fmt: real -> string, now: Machine)
  {
    History(script, start.devices, runs, digest, fmt) && now == Replay(start, runs, interval)
  }

  /** What the machine holds after the cycles `runs`: the devices directory as
      it was after the first archive, every batch written in the backups,
      nothing gone from the backups, every report saved, and the dashboard text
      and the effects of the cycles, in order. */
  ghost predicate Accounted(start: Machine, runs: seq<CycleRun>, interval: nat, now: Machine) {
    && now.devices == Before(start.devices, |runs|)
    && (forall k :: 0 <= k < |runs| ==> Kept(now.backups, runs[k].files))
    && start.backups.Keys <= now.backups.Keys
    && now.reports == SavedReports(start.reports, runs)
    && now.dashboard == start.dashboard + Dashboards(runs)
    && now.journal == start.journal + Journal(runs, interval)
  }

  lemma HistoryPrefix(script: seq<Cycle>, d0: map<string, Record>, runs: seq<CycleRun>,
                      digest: string -> string, fmt: real -> string)
    requires History(script, d0, runs, digest, fmt) && runs != []
    ensures History(script, d0, runs[..|runs| - 1], digest, fmt)
  {
    var prev := runs[..|runs| - 1];
    forall k | 0 <= k < |prev| ensures CycleDone(script, d0, prev[k], k, digest, fmt) {
      assert CycleDone(script, d0, runs[k], k, digest, fmt);
      DoneTransfer(script, d0, runs[k], prev[k], k, digest, fmt);
    }
  }

  /** One more completed cycle keeps the account. */
  lemma AccountedSnoc(script: seq<Cycle>, start: Machine, runs: seq<CycleRun>, run: CycleRun, interval: nat,
                      digest: string -> string, fmt: real -> string, now: Machine)
    requires forall k :: 0 <= k < |script| ==> ValidCycle(script[k])
    requires |runs| < |script| && History(script, start.devices, runs, digest, fmt)
    requires CycleDone(script, start.devices, run, |runs|, digest, fmt)
    requires Accounted(start, runs, interval, now)
    ensures Accounted(start, runs + [run], interval, After(now, run, interval))
  {
    StepFacts(script, start.devices, now.backups, runs, digest, fmt);
    var next := After(now, run, interval);
    KeptSnoc(next.backups, runs, run);
    DashboardsSnoc(runs, run);
    JournalSnoc(runs, run, interval);
    SavedReportsSnoc(start.reports, runs, run);
    Assoc(start.dashboard, Dashboards(runs), run.text);
    Assoc(start.journal, Journal(runs, interval), CycleEffects(run, interval));
  }

  /** The machine that a history of cycles leaves behind is accounted for. */
  lemma {:induction false} ReplayAccounted(script: seq<Cycle>, start: Machine, runs: seq<CycleRun>,
                                           interval: nat, digest: string -> string, fmt: real -> string)
    requires forall k :: 0 <= k < |script| ==> ValidCycle(script[k])
    requires History(script, start.devices, runs, digest, fmt)
    ensures Accounted(start, runs, interval, Replay(start, runs, interval))
  {
    if runs != [] {
      var prev := runs[..|runs| - 1];
      var run := runs[|runs| - 1];
      assert runs == prev + [run];
      HistoryPrefix(script, start.devices, runs, digest, fmt);
      ReplayAccounted(script, start, prev, interval, digest, fmt);
      assert CycleDone(script, start.devices, runs[|prev|], |prev|, digest, fmt);
      AccountedSnoc(script, start, prev, run, interval, digest, fmt, Replay(start, prev, interval));
    }
  }

  /** Completing the next cycle of the script keeps the progress invariant. */
  lemma ProgressSnoc(script: seq<Cycle>, start: Machine, runs: seq<CycleRun>, run: CycleRun, interval: nat,
                     digest: string -> string, fmt: real -> string, now: Machine)
    requires |runs| < |script| && Progress(script, start, runs, interval, digest, fmt, now)
    requires CycleDone(script, start.devices, run, |runs|, digest, fmt)
    ensures Progress(script, start, runs + [run], interval, digest, fmt, After(now, run, interval))
  {
    HistorySnoc(script, start.devices, runs, run, digest, fmt);
    assert (runs + [run])[..|runs|] == runs;
  }

  /** The facts a completed cycle establishes about itself when it ran on the
      machine `now`: it is cycle |runs| + 1, wrote the batch of the script's next
      inputs on top of the devices directory it found, and reported on it. */
  ghost predicate Ran(script: seq<Cycle>, runs: seq<CycleRun>, run: CycleRun, digest: string -> string,
                      fmt: real -> string, now: Machine)
    requires |runs| < |script|
  {
    var c := script[|runs|];
    && run.id == |runs| + 1
    && run.files == Batch(c.timestamp, c.mission, run.id, c.picks, digest) && run.reportName == c.reportName
    && run.dir == StoreAll(now.devices, run.files)
    && Reported(run, fmt)
  }

  /** A cycle that ran on the machine reached after `runs` is the next cycle of
      the history. */
  lemma RunDone(script: seq<Cycle>, start: Machine, runs: seq<CycleRun>, run: CycleRun, interval: nat,
                digest: string -> string, fmt: real -> string, now: Machine)
    requires forall k :: 0 <= k < |script| ==> ValidCycle(script[k])
    requires |runs| < |script| && Progress(script, start, runs, interval, digest, fmt, now)
    requires Ran(script, runs, run, digest, fmt, now)
    ensures CycleDone(script, start.devices, run, |runs|, digest, fmt)
  {
    ReplayAccounted(script, start, runs, interval, digest, fmt);
    StepFacts(script, start.devices, now.backups, runs, digest, fmt);
  }

  /** A cycle that ran to its end moves the machine on by one step of the
      progress invariant. */
  lemma CycleStep(script: seq<Cycle>, start: Machine, runs: seq<CycleRun>, run: CycleRun, interval: nat,
                  digest: string -> string, fmt: real -> string, now: Machine)
    requires forall k :: 0 <= k < |script| ==> ValidCycle(script[k])
    requires |runs| < |script| && Progress(script, start, runs, interval, digest, fmt, now)
    requires Ran(script, runs, run, digest, fmt, now)
    ensures Progress(script, start, runs + [run], interval, digest, fmt, After(now, run, interval))
  {
    RunDone(script, start, runs, run, interval, digest, fmt, now);
    ProgressSnoc(script, start, runs, run, interval, digest, fmt, now);
  }

  /** The report writer can only raise in the first cycle, and only because the
      devices directory held a malformed log file before the simulation started:
      every later cycle finds nothing but its own, valid, batch. */
  lemma FirstCycleOnly(script: seq<Cycle>, start: Machine, runs: seq<CycleRun>, interval: nat,
                       digest: string -> string, fmt: real -> string, now: Machine)
    requires forall k :: 0 <= k < |script| ==> ValidCycle(script[k])
    requires |runs| < |script| && Progress(script, start, runs, interval, digest, fmt, now)
    requires var c := script[|runs|];
             !LogsValid(StoreAll(now.devices, Batch(c.timestamp, c.mission, |runs| + 1, c.picks, digest)))
    ensures runs == [] && !LogsValid(start.devices)
    ensures now.devices == start.devices && now.journal == start.journal
  {
    ReplayAccounted(script, start, runs, interval, digest, fmt);
    StepFacts(script, start.devices, now.backups, runs, digest, fmt);
  }

  /** Before the first cycle, the machine is where the simulation started. */
  lemma ProgressStart(script: seq<Cycle>, start: Machine, interval: nat, digest: string -> string,
                      fmt: real -> string)
    ensures Progress(script, start, [], interval, digest, fmt, start)
  {
  }

  /** After at least one completed cycle, the devices directory is the one the
      simulation started with, without its log files. */
  lemma ProgressDevices(script: seq<Cycle>, start: Machine, runs: seq<CycleRun>, interval: nat,
                        digest: string -> string, fmt: real -> string, now: Machine)
    requires forall k :: 0 <= k < |script| ==> ValidCycle(script[k])
    requires Progress(script, start, runs, interval, digest, fmt, now) && runs != []
    ensures now.devices == Remaining(start.devices, LogNamesOf(start.devices))
  {
    ReplayAccounted(script, start, runs, interval, digest, fmt);
  }

  class Apolo11Simulation {
    const dataGenerator: DataGenerator
    const fileManager: FileManager
    const reportGenerator: ReportGenerator
    const host: Host
    var running: bool

    /** The three components work on the same machine. */
    predicate Valid() {
      dataGenerator.host == host && fileManager.host == host && reportGenerator.host == host
    }

    constructor(dataGenerator: DataGenerator, fileManager: FileManager, reportGenerator: ReportGenerator)
      requires dataGenerator.host == fileManager.host == reportGenerator.host
      ensures Valid() && !running
      ensures this.dataGenerator == dataGenerator && this.fileManager == fileManager
      ensures this.reportGenerator == reportGenerator
    {
      this.dataGenerator := dataGenerator;
      this.fileManager := fileManager;
      this.reportGenerator := reportGenerator;
      this.host := dataGenerator.host;
      this.running := false;
    }

    /** `stop_simulation`: the loop ends after the cycle under way. */
    method StopSimulation()
      modifies this
      ensures !running
    {
      running := false;
    }

    /** `move_processed_files_to_backup` of the simulation: every log file
        enumerated at the start goes through `FileManager.move_to_backup`; none
        of those moves fails. */
    method MoveProcessedFilesToBackup() returns (ghost moved: seq<string>)
      requires Valid()
      modifies host
      ensures Listing(old(host.devices), moved)
      ensures host.devices == Remaining(old(host.devices), LogNamesOf(old(host.devices)))
      ensures host.backups == Archived(old(host.devices), old(host.backups), old(host.LogNames()))
      ensures host.journal == old(host.journal) + Moves(moved)
      ensures host.reports == old(host.reports) && host.dashboard == old(host.dashboard)
    {
      var files := host.Glob();
      moved := files;
      ghost var devices0, backups0, journal0 := host.devices, host.backups, host.journal;
      ghost var done: set<string> := {};
      for i := 0 to |files|
        invariant done == set k | 0 <= k < i :: files[k]
        invariant host.devices == Remaining(devices0, done)
        invariant host.backups == Archived(devices0, backups0, done)
        invariant host.journal == journal0 + Moves(files[..i])
        invariant host.reports == old(host.reports) && host.dashboard == old(host.dashboard)
      {
        var filename := files[i];
        assert filename in LogNamesOf(devices0) by {
          assert filename in files;
        }
        assert filename !in done;
        ArchiveStep(devices0, backups0, done, filename);
        fileManager.MoveToBackup(filename);
        done := done + {filename};
        assert done == set k | 0 <= k < i + 1 :: files[k];
        assert Moves(files[..i + 1]) == Moves(files[..i]) + [Moved(filename)];
      }
      assert done == LogNamesOf(devices0) by {
        forall n | n in LogNamesOf(devices0) ensures n in done {
          assert n in files;
          var k :| 0 <= k < |files| && files[k] == n;
        }
        forall n | n in done ensures n in LogNamesOf(devices0) {
          var k :| 0 <= k < |files| && files[k] == n;
          assert n in files;
        }
      }
    }

    /** The end of an iteration once the report writer archived every log file:
        the archiving pass finds nothing to move, then the cycle sleeps. */
    method FinishCycle(interval: nat)
      requires Valid() && host.LogNames() == {}
      modifies host
      ensures host.devices == old(host.devices) && host.backups == old(host.backups)
      ensures host.reports == old(host.reports) && host.dashboard == old(host.dashboard)
      ensures host.journal == old(host.journal) + [Slept(interval)]
    {
      ghost var passed := MoveProcessedFilesToBackup();
      EmptyListing(old(host.devices), passed);
      assert Archived(old(host.devices), old(host.backups), {}) == old(host.backups);
      assert Moves(passed) == [];
      host.Note(Slept(interval));
    }

    /** `generate_reports` within a cycle that wrote `files`: the outcome as a
        record of the cycle. It raises KeyError when a log file in the directory
        is malformed; otherwise it saves the report, archives every log file and
        appends the dashboard. */
    method ReportCycle(cycleId: nat, ghost files: seq<(string, Record)>, reportName: string, fmt: real -> string)
      returns (r: Result<Analysis>, ghost run: CycleRun)
      requires Valid()
      modifies host
      ensures run.id == cycleId && run.files == files && run.reportName == reportName
      ensures run.dir == old(host.devices)
      ensures r.Failure? ==>
                && !LogsValid(run.dir) && r.error !in StatusNames
                && host.devices == run.dir && host.journal == old(host.journal)
                && host.backups == old(host.backups) && host.reports == old(host.reports)
                && host.dashboard == old(host.dashboard)
      ensures r.Success? ==>
                && run.analysis == r.value && Reported(run, fmt)
                && host.devices == Remaining(run.dir, LogNamesOf(run.dir))
                && host.backups == Archived(run.dir, old(host.backups), LogNamesOf(run.dir))
                && host.reports == old(host.reports)[reportName := r.value]
                && host.dashboard == old(host.dashboard) + run.text
                && host.journal == old(host.journal) + [SavedReport(reportName)] + Moves(run.moved) + [DashboardOpened]
    {
      hide Describes, DashboardText, Listing, RecordsOf, Remaining, Archived, Moves, LogsValid;
      ghost var d := host.devices;
      ghost var listed, moved;
      r, listed, moved := reportGenerator.GenerateReports(cycleId, reportName, fmt);
      ghost var a := if r.Success? then r.value else Analysis([], [], [], []);
      run := CycleRun(cycleId, files, d, reportName, listed, a, moved, DashboardText(a, cycleId, fmt));
    }

    /** One iteration of the loop of `start_simulation`: generate the batch,
        generate the reports (a KeyError ends the iteration there), run the
        archiving pass, sleep. After the report writer archived every log file
        the pass finds nothing to move. */
    method RunCycle(cycleId: nat, c: Cycle, interval: nat, digest: string -> string, fmt: real -> string)
      returns (r: Result<Analysis>, ghost run: CycleRun)
      requires Valid() && ValidCycle(c)
      modifies host
      ensures run.id == cycleId && run.files == Batch(c.timestamp, c.mission, cycleId, c.picks, digest)
      ensures run.reportName == c.reportName && run.dir == StoreAll(old(host.devices), run.files)
      ensures r.Failure? ==>
                && !LogsValid(run.dir) && r.error !in StatusNames
                && host.devices == run.dir && host.journal == old(host.journal) + Writes(run.files)
                && host.backups == old(host.backups) && host.reports == old(host.reports)
                && host.dashboard == old(host.dashboard)
      ensures r.Success? ==>
                && run.analysis == r.value && Reported(run, fmt)
                && host.devices == Remaining(run.dir, LogNamesOf(run.dir))
                && host.backups == Archived(run.dir, old(host.backups), LogNamesOf(run.dir))
                && host.reports == old(host.reports)[c.reportName := r.value]
                && host.dashboard == old(host.dashboard) + run.text
                && host.journal == old(host.journal) + CycleEffects(run, interval)
    {
      ghost var journal0 := host.journal;
      ghost var files := Batch(c.timestamp, c.mission, cycleId, c.picks, digest);
      dataGenerator.GenerateDataLog(c.mission, cycleId, c.timestamp, c.picks, digest);
      r, run := ReportCycle(cycleId, files, c.reportName, fmt);
      if r.Failure? {
        return;
      }
      ArchiveClearsLogs(run.dir);
      FinishCycle(interval);
      CycleJournal(journal0, run, interval);
    }

    /** One pass of the loop of `start_simulation` after `|runs|` completed
        cycles: either it completes the next cycle of the script, or the report
        writer raises, which only the first cycle can do, and only because of a
        malformed log file that was in the directory before the run. */
    method NextCycle(cycleId: nat, c: Cycle, interval: nat, digest: string -> string, fmt: real -> string,
                     ghost script: seq<Cycle>, ghost start: Machine, ghost runs: seq<CycleRun>)
      returns (r: Result<Analysis>, ghost run: CycleRun)
      requires Valid() && forall k :: 0 <= k < |script| ==> ValidCycle(script[k])
      requires cycleId == |runs| + 1 <= |script| && c == script[|runs|]
      requires Progress(script, start, runs, interval, digest, fmt,
                        Machine(host.devices, host.backups, host.reports, host.dashboard, host.journal))
      modifies host
      ensures r.Failure? ==>
                var files := Batch(script[0].timestamp, script[0].mission, 1, script[0].picks, digest);
                && runs == [] && r.error !in StatusNames && !LogsValid(start.devices)
                && host.devices == StoreAll(start.devices, files) && host.journal == start.journal + Writes(files)
                && host.backups == start.backups && host.reports == start.reports
                && host.dashboard == start.dashboard
      ensures r.Success? ==>
                Progress(script, start, runs + [run], interval, digest, fmt,
                         Machine(host.devices, host.backups, host.reports, host.dashboard, host.journal))
    {
      ghost var now := Machine(host.devices, host.backups, host.reports, host.dashboard, host.journal);
      r, run := RunCycle(cycleId, c, interval, digest, fmt);
      if r.Failure? {
        FirstCycleOnly(script, start, runs, interval, digest, fmt, now);
        return;
      }
      CycleStep(script, start, runs, run, interval, digest, fmt, now);
    }

    /** `start_simulation`: cycles numbered from 1 run until the stop request
        that the script places in some cycle; that cycle still completes. A
        KeyError from the report writer ends the call with `running` still set,
        unless the stop request arrived in that same cycle; the KeyError can only happen in cycle 1, from a log file that was in the devices
        directory before the simulation started, since every later cycle finds
        only its own, valid, batch. */
    method StartSimulation(script: seq<Cycle>, interval: nat, digest: string -> string, fmt: real -> string)
      returns (cycles: nat, error: Option<string>, ghost runs: seq<CycleRun>)
      requires Valid()
      requires forall k :: 0 <= k < |script| ==> ValidCycle(script[k])
      requires exists k :: 0 <= k < |script| && script[k].stopRequested
      modifies this, host
      ensures 1 <= cycles <= |script|
      ensures forall k :: 0 <= k < cycles - 1 ==> !script[k].stopRequested
      ensures running <==> error.Some? && !script[cycles - 1].stopRequested
      ensures error.None? ==> script[cycles - 1].stopRequested && |runs| == cycles
      ensures error.Some? ==>
                var files := Batch(script[0].timestamp, script[0].mission, 1, script[0].picks, digest);
                && cycles == 1 && runs == [] && error.value !in StatusNames
                && !LogsValid(old(host.devices))
                && host.devices == StoreAll(old(host.devices), files)
                && host.journal == old(host.journal) + Writes(files)
                && host.backups == old(host.backups) && host.reports == old(host.reports)
                && host.dashboard == old(host.dashboard)
      ensures error.None? ==>
                && Progress(script, old(Machine(host.devices, host.backups, host.reports, host.dashboard, host.journal)),
                            runs, interval, digest, fmt,
                            Machine(host.devices, host.backups, host.reports, host.dashboard, host.journal))
                && host.devices == Remaining(old(host.devices), LogNamesOf(old(host.devices)))
    {
      hide *;
      running := true;
      var cycleId: nat := 0;
      error := None;
      runs := [];
      ghost var k0 :| 0 <= k0 < |script| && script[k0].stopRequested;
      ghost var start := Machine(host.devices, host.backups, host.reports, host.dashboard, host.journal);
      ProgressStart(script, start, interval, digest, fmt);
      while running
        invariant Valid()
        invariant cycleId <= |script| && (running ==> cycleId <= k0)
        invariant forall k :: 0 <= k < cycleId - 1 ==> !script[k].stopRequested
        invariant running ==> cycleId == 0 || !script[cycleId - 1].stopRequested
        invariant !running ==> 1 <= cycleId && script[cycleId - 1].stopRequested
        invariant |runs| == cycleId && error == None
        invariant Progress(script, start, runs, interval, digest, fmt,
                           Machine(host.devices, host.backups, host.reports, host.dashboard, host.journal))
        decreases |script| - cycleId
      {
        var c := script[cycleId];
        assert c.stopRequested || cycleId < k0;
        var r;
        ghost var run;
        r, run := NextCycle(cycleId + 1, c, interval, digest, fmt, script, start, runs);
        cycleId := cycleId + 1;
        if r.Failure? {
          // A stop request made during this cycle has already cleared the flag.
          if c.stopRequested {
            running := false;
          }
          cycles, error := cycleId, Some(r.error);
          return;
        }
        runs := runs + [run];
        if c.stopRequested {
          running := false;
        }
      }
      cycles := cycleId;
      ProgressDevices(script, start, runs, interval, digest, fmt,
                      Machine(host.devices, host.backups, host.reports, host.dashboard, host.journal));
    }
  }
}
