/** Archiving processed log files: every file named in a batch leaves the devices
    directory and lands in the backups directory under the same name, replacing
    a backup of that name. Both `ReportGenerator.move_processed_files_to_backup`
    and `Apolo11Simulation.move_processed_files_to_backup` do this for the log
    files they enumerate. */
module Archive {
  import opened Telemetry
  import opened Platform

  /** The devices directory after the named files were moved out. */
  function Remaining(devices: map<string, Record>, names: set<string>): map<string, Record> {
    devices - names
  }

  /** The backups directory after the named files of devices were moved in. */
  function Archived(devices: map<string, Record>, backups: map<string, Record>, names: set<string>): map<string, Record> {
    map n | n in backups.Keys + (devices.Keys * names) :: if n in devices && n in names then devices[n] else backups[n]
  }

  /** The journal entries of moving the names, in order. */
  function Moves(names: seq<string>): (es: seq<Effect>)
    ensures |es| == |names| && forall i :: 0 <= i < |names| ==> es[i] == Moved(names[i])
  {
    seq(|names|, i requires 0 <= i < |names| => Moved(names[i]))
  }

  /** Archiving loses no file: each file of devices is afterwards either still
      in devices (not named) or in backups (named), with the same record; and
      backups gains no file that was in neither directory. */
  lemma ArchiveKeepsFiles(devices: map<string, Record>, backups: map<string, Record>, names: set<string>)
    ensures forall n :: n in devices && n !in names ==> n in Remaining(devices, names) && Remaining(devices, names)[n] == devices[n]
    ensures forall n :: n in devices && n in names ==>
              n !in Remaining(devices, names) && n in Archived(devices, backups, names)
              && Archived(devices, backups, names)[n] == devices[n]
    ensures forall n :: n in Archived(devices, backups, names) ==> n in backups || n in devices
    ensures forall n :: n in backups && !(n in devices && n in names) ==>
              n in Archived(devices, backups, names) && Archived(devices, backups, names)[n] == backups[n]
  {
  }

  /** Archiving all log files leaves none in the devices directory, and the
      other files where they were. */
  lemma ArchiveClearsLogs(devices: map<string, Record>)
    ensures LogNamesOf(Remaining(devices, LogNamesOf(devices))) == {}
    ensures forall n :: n in devices && !IsLogName(n) ==> n in Remaining(devices, LogNamesOf(devices))
  {
  }

  /** A second archive pass right after a complete one changes nothing. */
  lemma ArchiveIdempotent(devices: map<string, Record>, backups: map<string, Record>)
    ensures var d := Remaining(devices, LogNamesOf(devices));
            var b := Archived(devices, backups, LogNamesOf(devices));
            Remaining(d, LogNamesOf(d)) == d && Archived(d, b, LogNamesOf(d)) == b
  {
    var d := Remaining(devices, LogNamesOf(devices));
    var b := Archived(devices, backups, LogNamesOf(devices));
    assert LogNamesOf(d) == {};
    assert Archived(d, b, {}) == b;
  }

  /** Moving one more named file extends the archive by that file. */
  lemma ArchiveStep(devices: map<string, Record>, backups: map<string, Record>, names: set<string>, n: string)
    requires n in devices && n !in names
    ensures Remaining(devices, names + {n}) == Remaining(devices, names) - {n}
    ensures Archived(devices, backups, names + {n}) == Archived(devices, backups, names)[n := devices[n]]
  {
    var a := Archived(devices, backups, names + {n});
    var b := Archived(devices, backups, names)[n := devices[n]];
    assert a.Keys == b.Keys;
  }
}
