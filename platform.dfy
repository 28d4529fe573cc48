/** The machine the simulation runs on, as the components see it: the devices
    directory of log files, the backups directory, the saved reports, the text of
    Dashboard.md, and a journal of the effects performed, in order. */
module Platform {
  import opened Telemetry
  import opened Analysis

  datatype Effect =
    | Wrote(name: string)            // a log file written to the devices directory
    | SavedReport(name: string)      // an analysis saved in the reports directory
    | Moved(name: string)            // devices/name moved to backups/name
    | MoveFailed(name: string)       // a move whose source was missing, logged as an error
    | DashboardOpened                // Dashboard.md opened in append mode
    | Slept(seconds: nat)            // the pause at the end of a cycle

  /** The names `*.log` matches: glob's `*` does not match a leading '.', so
      hidden names such as `.x.log` are not log files. */
  predicate IsLogName(name: string) {
    |name| >= 4 && name[0] != '.' && name[|name| - 4..] == ".log"
  }

  /** The names of the log files among the given files. */
  ghost function LogNamesOf(files: map<string, Record>): set<string> {
    set n | n in files && IsLogName(n)
  }

  class Host {
    var devices: map<string, Record>
    var backups: map<string, Record>
    var reports: map<string, Analysis>
    var dashboard: string
    var journal: seq<Effect>

    /** A machine whose directories hold the given files and whose dashboard
        holds the given text. */
    constructor(devices: map<string, Record>, backups: map<string, Record>, dashboard: string)
      ensures this.devices == devices && this.backups == backups
      ensures this.reports == map[] && this.dashboard == dashboard && this.journal == []
    {
      this.devices := devices;
      this.backups := backups;
      this.reports := map[];
      this.dashboard := dashboard;
      this.journal := [];
    }

    /** The names of the log files currently in the devices directory. */
    ghost function LogNames(): set<string>
      reads this
    {
      LogNamesOf(devices)
    }

    /** `glob.glob(os.path.join(devices, '*.log'))`, reduced to base names: every
        log file of the devices directory exactly once, in an unspecified order. */
    method Glob() returns (names: seq<string>)
      ensures forall i, j :: 0 <= i < j < |names| ==> names[i] != names[j]
      ensures forall n :: n in names <==> n in LogNames()
    {
      var left := set n | n in devices && IsLogName(n);
      names := [];
      while left != {}
        invariant left <= LogNames()
        invariant forall n :: n in names <==> n in LogNames() && n !in left
        invariant forall i, j :: 0 <= i < j < |names| ==> names[i] != names[j]
        decreases |left|
      {
        var n :| n in left;
        names := names + [n];
        left := left - {n};
      }
    }

    /** `save_data`: writes (or overwrites) one log file. */
    method WriteLog(name: string, r: Record)
      modifies this
      ensures devices == old(devices)[name := r] && journal == old(journal) + [Wrote(name)]
      ensures backups == old(backups) && reports == old(reports) && dashboard == old(dashboard)
    {
      devices := devices[name := r];
      journal := journal + [Wrote(name)];
    }

    /** `shutil.move(devices/name, backups/name)`: succeeds exactly when the source
        exists; a failed move changes nothing (the caller sees the exception). */
    method Move(name: string) returns (moved: bool)
      modifies this
      ensures moved == (name in old(devices))
      ensures moved ==> devices == old(devices) - {name} && backups == old(backups)[name := old(devices)[name]]
                        && journal == old(journal) + [Moved(name)]
      ensures !moved ==> devices == old(devices) && backups == old(backups) && journal == old(journal)
      ensures reports == old(reports) && dashboard == old(dashboard)
    {
      moved := name in devices;
      if moved {
        backups := backups[name := devices[name]];
        devices := devices - {name};
        journal := journal + [Moved(name)];
      }
    }

    /** `save_report`: the analysis stored under the report's name. */
    method SaveReport(name: string, a: Analysis)
      modifies this
      ensures reports == old(reports)[name := a] && journal == old(journal) + [SavedReport(name)]
      ensures devices == old(devices) && backups == old(backups) && dashboard == old(dashboard)
    {
      reports := reports[name := a];
      journal := journal + [SavedReport(name)];
    }

    /** `open(Dashboard.md, 'a')`. */
    method OpenDashboard()
      modifies this
      ensures journal == old(journal) + [DashboardOpened]
      ensures devices == old(devices) && backups == old(backups) && reports == old(reports)
      ensures dashboard == old(dashboard)
    {
      journal := journal + [DashboardOpened];
    }

    /** One `write` to the open dashboard: the text goes at the end. */
    method Append(text: string)
      modifies this
      ensures dashboard == old(dashboard) + text
      ensures devices == old(devices) && backups == old(backups) && reports == old(reports)
      ensures journal == old(journal)
    {
      dashboard := dashboard + text;
    }

    /** An effect that touches no file: a logged error or a pause. */
    method Note(e: Effect)
      requires e.MoveFailed? || e.Slept?
      modifies this
      ensures journal == old(journal) + [e]
      ensures devices == old(devices) && backups == old(backups) && reports == old(reports)
      ensures dashboard == old(dashboard)
    {
      journal := journal + [e];
    }
  }
}
