/** The report writer (`ReportGenerator`): once per cycle it analyses the log
    files of the devices directory, saves the analysis as a report, archives the
    log files and appends the cycle's section to Dashboard.md. */
module Reports {
  import opened Dicts
  import opened Telemetry
  import opened Text
  import opened Html
  import opened Events
  import opened Disconnections
  import opened Consolidation
  import opened Analysis
  import opened Platform
  import opened Files
  import opened Archive
  import opened Dashboard

  /** Every log file of the directory holds one of the six statuses. */
  ghost predicate LogsValid(devices: map<string, Record>) {
    forall n :: n in devices && IsLogName(n) ==> devices[n].deviceStatus in StatusNames
  }

  /** The records of the named files, in the order of the names. */
  ghost function RecordsOf(devices: map<string, Record>, names: seq<string>): seq<Record>
    requires forall i :: 0 <= i < |names| ==> names[i] in devices
  {
    seq(|names|, i requires 0 <= i < |names| => devices[names[i]])
  }

  /** names lists every log file of the directory once. */
  ghost predicate Listing(devices: map<string, Record>, names: seq<string>) {
    && (forall i, j :: 0 <= i < j < |names| ==> names[i] != names[j])
    && (forall n :: n in names <==> n in LogNamesOf(devices))
  }

  /** The records of a listing are all valid exactly when every log file is. */
  lemma ListingValid(devices: map<string, Record>, names: seq<string>)
    requires Listing(devices, names)
    ensures forall i :: 0 <= i < |names| ==> names[i] in devices
    ensures AllValid(RecordsOf(devices, names)) <==> LogsValid(devices)
  {
    assert forall i :: 0 <= i < |names| ==> names[i] in names;
    if AllValid(RecordsOf(devices, names)) {
      forall n | n in devices && IsLogName(n) ensures devices[n].deviceStatus in StatusNames {
        assert n in LogNamesOf(devices);
        var i :| 0 <= i < |names| && names[i] == n;
        assert RecordsOf(devices, names)[i] == devices[n];
      }
    }
  }

  /** `f"\n## {title}\n"`, the opening line and the header line of a section. */
  function SectionHead(title: string, headers: seq<string>): string {
    "\n## " + title + "\n" + (TableOpenLine + "\n") + (HeaderLine(headers) + "\n")
  }

  /** The writes of a section, one after another, make up the section. */
  lemma SectionWrites(d: string, title: string, headers: seq<string>, rows: seq<seq<string>>)
    ensures d + SectionHead(title, headers) + RowsText(rows) + "</table>\n" == d + Section(title, headers, rows)
  {
    var a := "\n## " + title + "\n";
    var b := TableOpenLine + "\n";
    var c := HeaderLine(headers) + "\n";
    var r := RowsText(rows);
    Assoc(d, a + b + c, r);
    Assoc(d, a + b + c + r, "</table>\n");
    Assoc(a + b, c, r);
    Assoc(a, b, c + r);
    Assoc(a + b, c + r, "</table>\n");
    Assoc(a, b, (c + r) + "</table>\n");
    Assoc(c, r, "</table>\n");
    Assoc(a, b + (c + (r + "</table>\n")), "");
    assert HtmlTable(headers, rows) == b + (c + (r + "</table>\n"));
  }

  lemma AppendAll(d: string, h: string, s1: string, s2: string, s3: string, s4: string)
    ensures d + h + s1 + s2 + s3 + s4 == d + (h + s1 + s2 + s3 + s4)
  {
    Assoc(d, h, s1);
    Assoc(d, h + s1, s2);
    Assoc(d, h + s1 + s2, s3);
    Assoc(d, h + s1 + s2 + s3, s4);
  }

  lemma EntryRowsSnoc(m: string, entries: seq<Disconnection>, k: nat)
    requires k < |entries|
    ensures EntryRows(m, entries[..k + 1]) ==
              EntryRows(m, entries[..k]) + [[m, entries[k].deviceType, NatToString(entries[k].unknownCount)]]
  {
    var a := EntryRows(m, entries[..k + 1]);
    var b := EntryRows(m, entries[..k]) + [[m, entries[k].deviceType, NatToString(entries[k].unknownCount)]];
    assert |a| == |b|;
    forall i | 0 <= i < |a| ensures a[i] == b[i] {
      assert entries[..k + 1][i] == entries[i];
    }
  }

  lemma LeafRowsSnoc<V>(m: string, d: string, leaf: Dict<string, V>, cell: V -> string, k: nat)
    requires k < |leaf|
    ensures LeafRows(m, d, leaf[..k + 1], cell) == LeafRows(m, d, leaf[..k], cell) + [[m, d, leaf[k].0, cell(leaf[k].1)]]
  {
    assert leaf[..k + 1][k] == leaf[k];
  }

  lemma ConsolidationRowsSnoc(c: ConsolidationTable, i: nat)
    requires i < |c|
    ensures ConsolidationRows(c[..i + 1]) == ConsolidationRows(c[..i]) + [[c[i].0, NatToString(c[i].1)]]
  {
    assert c[..i + 1][i] == c[i];
  }

  class ReportGenerator {
    const devicesPath: string
    const backupPath: string
    const reportsPath: string
    const host: Host

    /** The three directories; the host stands for their contents. */
    constructor(devicesPath: string, backupPath: string, reportsPath: string, host: Host)
      ensures this.devicesPath == devicesPath && this.backupPath == backupPath
      ensures this.reportsPath == reportsPath && this.host == host
    {
      this.devicesPath := devicesPath;
      this.backupPath := backupPath;
      this.reportsPath := reportsPath;
      this.host := host;
    }

    /** `dashboard_filepath`: Dashboard.md inside the reports directory. */
    function DashboardPath(): (p: string)
      ensures |p| >= |"Dashboard.md"| && p[|p| - |"Dashboard.md"|..] == "Dashboard.md"
    {
      Join(reportsPath, "Dashboard.md")
    }

    /** The enumeration and reading part of `analyze_events`: every log file of
        the devices directory once, in glob order, with its record. */
    method ReadLogs() returns (names: seq<string>, records: seq<Record>)
      ensures Listing(host.devices, names)
      ensures forall i :: 0 <= i < |names| ==> names[i] in host.devices
      ensures records == RecordsOf(host.devices, names)
    {
      names := host.Glob();
      assert forall i :: 0 <= i < |names| ==> names[i] in names;
      records := [];
      for i := 0 to |names|
        invariant records == RecordsOf(host.devices, names[..i])
      {
        assert names[..i + 1][..i] == names[..i];
        records := records + [host.devices[names[i]]];
      }
      assert names[..|names|] == names;
    }

    /** `move_processed_files_to_backup`: every log file enumerated at the start
        is moved to backups under its name; no move can fail, since each
        enumerated file is still there when its turn comes. `moved` is the
        enumeration order. */
    method MoveProcessedFilesToBackup() returns (ghost moved: seq<string>)
      modifies host
      ensures Listing(old(host.devices), moved)
      ensures host.devices == Remaining(old(host.devices), old(host.LogNames()))
      ensures host.backups == Archived(old(host.devices), old(host.backups), old(host.LogNames()))
      ensures host.journal == old(host.journal) + Moves(moved)
      ensures host.reports == old(host.reports) && host.dashboard == old(host.dashboard)
    {
      var files := host.Glob();
      moved := files;
      ghost var devices0, backups0, journal0 := host.devices, host.backups, host.journal;
      ghost var done: set<string> := {};
      for i := 0 to |files|
        invariant done == set k | 0 <= k < i :: files[k]
        invariant host.devices == Remaining(devices0, done)
        invariant host.backups == Archived(devices0, backups0, done)
        invariant host.journal == journal0 + Moves(files[..i])
        invariant host.reports == old(host.reports) && host.dashboard == old(host.dashboard)
      {
        var name := files[i];
        assert name in LogNamesOf(devices0) by {
          assert name in files;
        }
        assert name !in done;
        ArchiveStep(devices0, backups0, done, name);
        var ok := host.Move(name);
        assert ok;
        done := done + {name};
        assert done == set k | 0 <= k < i + 1 :: files[k];
        assert Moves(files[..i + 1]) == Moves(files[..i]) + [Moved(name)];
      }
      assert done == LogNamesOf(devices0) by {
        forall n | n in LogNamesOf(devices0) ensures n in done {
          assert n in files;
          var k :| 0 <= k < |files| && files[k] == n;
        }
        forall n | n in done ensures n in LogNamesOf(devices0) {
          var k :| 0 <= k < |files| && files[k] == n;
          assert n in files;
        }
      }
    }

    /** The innermost loop of the events and percentages tables: one row per
        status of the pair (m, d). */
    method WriteLeafRows<V>(m: string, d: string, leaf: Dict<string, V>, cell: V -> string)
      modifies host
      ensures host.dashboard == old(host.dashboard) + RowsText(LeafRows(m, d, leaf, cell))
      ensures host.devices == old(host.devices) && host.backups == old(host.backups)
      ensures host.reports == old(host.reports) && host.journal == old(host.journal)
    {
      ghost var start := host.dashboard;
      assert host.dashboard == start + RowsText(LeafRows(m, d, leaf[..0], cell));
      hide RowLine, RowsText;
      for k := 0 to |leaf|
        invariant host.dashboard == start + RowsText(LeafRows(m, d, leaf[..k], cell))
        invariant host.devices == old(host.devices) && host.backups == old(host.backups)
        invariant host.reports == old(host.reports) && host.journal == old(host.journal)
      {
        var (state, value) := leaf[k];
        var row := [m, d, state, cell(value)];
        ghost var rows := LeafRows(m, d, leaf[..k], cell);
        host.Append(RowLine(row) + "\n");
        LeafRowsSnoc(m, d, leaf, cell, k);
        AppendRow(start, rows, row);
      }
      assert leaf[..|leaf|] == leaf;
    }

    /** The middle loop: every device type of mission m with its rows. */
    method WritePairRows<V>(m: string, devices: Dict<string, Dict<string, V>>, cell: V -> string)
      modifies host
      ensures host.dashboard == old(host.dashboard) + RowsText(PairRows(m, devices, cell))
      ensures host.devices == old(host.devices) && host.backups == old(host.backups)
      ensures host.reports == old(host.reports) && host.journal == old(host.journal)
    {
      ghost var start := host.dashboard;
      for j := 0 to |devices|
        invariant host.dashboard == start + RowsText(PairRows(m, devices[..j], cell))
        invariant host.devices == old(host.devices) && host.backups == old(host.backups)
        invariant host.reports == old(host.reports) && host.journal == old(host.journal)
      {
        var (deviceType, leaf) := devices[j];
        WriteLeafRows(m, deviceType, leaf, cell);
        assert devices[..j + 1][..j] == devices[..j];
        RowsTextAppend(PairRows(m, devices[..j], cell), LeafRows(m, deviceType, leaf, cell));
        Assoc(start, RowsText(PairRows(m, devices[..j], cell)), RowsText(LeafRows(m, deviceType, leaf, cell)));
      }
      assert devices[..|devices|] == devices;
    }

    /** The three nested loops of the events and percentages tables. */
    method WriteTableRows<V>(t: Nested<V>, cell: V -> string)
      modifies host
      ensures host.dashboard == old(host.dashboard) + RowsText(TableRows(t, cell))
      ensures host.devices == old(host.devices) && host.backups == old(host.backups)
      ensures host.reports == old(host.reports) && host.journal == old(host.journal)
    {
      ghost var start := host.dashboard;
      for i := 0 to |t|
        invariant host.dashboard == start + RowsText(TableRows(t[..i], cell))
        invariant host.devices == old(host.devices) && host.backups == old(host.backups)
        invariant host.reports == old(host.reports) && host.journal == old(host.journal)
      {
        var (mission, devices) := t[i];
        WritePairRows(mission, devices, cell);
        assert t[..i + 1][..i] == t[..i];
        RowsTextAppend(TableRows(t[..i], cell), PairRows(mission, devices, cell));
        Assoc(start, RowsText(TableRows(t[..i], cell)), RowsText(PairRows(mission, devices, cell)));
      }
      assert t[..|t|] == t;
    }

    /** The disconnection rows of one mission: one per flagged device type. */
    method WriteEntryRows(m: string, entries: seq<Disconnection>)
      modifies host
      ensures host.dashboard == old(host.dashboard) + RowsText(EntryRows(m, entries))
      ensures host.devices == old(host.devices) && host.backups == old(host.backups)
      ensures host.reports == old(host.reports) && host.journal == old(host.journal)
    {
      ghost var start := host.dashboard;
      assert host.dashboard == start + RowsText(EntryRows(m, entries[..0]));
      hide RowLine, RowsText, NatToString;
      for k := 0 to |entries|
        invariant host.dashboard == start + RowsText(EntryRows(m, entries[..k]))
        invariant host.devices == old(host.devices) && host.backups == old(host.backups)
        invariant host.reports == old(host.reports) && host.journal == old(host.journal)
      {
        var device := entries[k];
        var row := [m, device.deviceType, NatToString(device.unknownCount)];
        ghost var rows := EntryRows(m, entries[..k]);
        host.Append(RowLine(row) + "\n");
        EntryRowsSnoc(m, entries, k);
        AppendRow(start, rows, row);
      }
      assert entries[..|entries|] == entries;
    }

    /** The two loops of the disconnections table. */
    method WriteDisconnectionRows(dt: DisconnectionTable)
      modifies host
      ensures host.dashboard == old(host.dashboard) + RowsText(DisconnectionRows(dt))
      ensures host.devices == old(host.devices) && host.backups == old(host.backups)
      ensures host.reports == old(host.reports) && host.journal == old(host.journal)
    {
      ghost var start := host.dashboard;
      for i := 0 to |dt|
        invariant host.dashboard == start + RowsText(DisconnectionRows(dt[..i]))
        invariant host.devices == old(host.devices) && host.backups == old(host.backups)
        invariant host.reports == old(host.reports) && host.journal == old(host.journal)
      {
        var (mission, entries) := dt[i];
        WriteEntryRows(mission, entries);
        assert dt[..i + 1][..i] == dt[..i];
        RowsTextAppend(DisconnectionRows(dt[..i]), EntryRows(mission, entries));
        Assoc(start, RowsText(DisconnectionRows(dt[..i])), RowsText(EntryRows(mission, entries)));
      }
      assert dt[..|dt|] == dt;
    }

    /** The loop of the consolidation table: one row per device type. */
    method WriteConsolidationRows(c: ConsolidationTable)
      modifies host
      ensures host.dashboard == old(host.dashboard) + RowsText(ConsolidationRows(c))
      ensures host.devices == old(host.devices) && host.backups == old(host.backups)
      ensures host.reports == old(host.reports) && host.journal == old(host.journal)
    {
      ghost var start := host.dashboard;
      assert host.dashboard == start + RowsText(ConsolidationRows(c[..0]));
      hide RowLine, RowsText, NatToString;
      for i := 0 to |c|
        invariant host.dashboard == start + RowsText(ConsolidationRows(c[..i]))
        invariant host.devices == old(host.devices) && host.backups == old(host.backups)
        invariant host.reports == old(host.reports) && host.journal == old(host.journal)
      {
        var (deviceType, count) := c[i];
        var row := [deviceType, NatToString(count)];
        ghost var rows := ConsolidationRows(c[..i]);
        host.Append(RowLine(row) + "\n");
        ConsolidationRowsSnoc(c, i);
        AppendRow(start, rows, row);
      }
      assert c[..|c|] == c;
    }

    /** `generate_dashboard`: opens Dashboard.md for appending and appends the
        cycle heading and the four sections. */
    method GenerateDashboard(a: Analysis, cycleId: nat, fmt: real -> string)
      modifies host
      ensures host.dashboard == old(host.dashboard) + DashboardText(a, cycleId, fmt)
      ensures host.journal == old(host.journal) + [DashboardOpened]
      ensures host.devices == old(host.devices) && host.backups == old(host.backups)
      ensures host.reports == old(host.reports)
    {
      hide Section, SectionHead, HtmlTable, RowsText, RowLine, HeaderLine, Cells, NatToString;
      host.OpenDashboard();
      ghost var d0 := host.dashboard;
      var heading := CycleHeading(cycleId);
      host.Append(heading);

      ghost var d1 := host.dashboard;
      host.Append(SectionHead("Análisis de Eventos", EventHeaders));
      WriteTableRows(a.events, NatToString);
      host.Append("</table>\n");
      SectionWrites(d1, "Análisis de Eventos", EventHeaders, EventRows(a.events));

      ghost var d2 := host.dashboard;
      host.Append(SectionHead("Gestión de Desconexiones", DisconnectionHeaders));
      WriteDisconnectionRows(a.disconnections);
      host.Append("</table>\n");
      SectionWrites(d2, "Gestión de Desconexiones", DisconnectionHeaders, DisconnectionRows(a.disconnections));

      ghost var d3 := host.dashboard;
      host.Append(SectionHead("Consolidación de Misiones", ConsolidationHeaders));
      WriteConsolidationRows(a.consolidation);
      host.Append("</table>\n");
      SectionWrites(d3, "Consolidación de Misiones", ConsolidationHeaders, ConsolidationRows(a.consolidation));

      ghost var d4 := host.dashboard;
      host.Append(SectionHead("Porcentajes", PercentageHeaders));
      WriteTableRows(a.percentages, PercentCell(fmt));
      host.Append("</table>\n");
      SectionWrites(d4, "Porcentajes", PercentageHeaders, TableRows(a.percentages, PercentCell(fmt)));

      AppendAll(d0, heading,
        Section("Análisis de Eventos", EventHeaders, EventRows(a.events)),
        Section("Gestión de Desconexiones", DisconnectionHeaders, DisconnectionRows(a.disconnections)),
        Section("Consolidación de Misiones", ConsolidationHeaders, ConsolidationRows(a.consolidation)),
        Section("Porcentajes", PercentageHeaders, TableRows(a.percentages, PercentCell(fmt))));
    }

    /** `generate_reports`: analyse the log files; if a record has a status
        outside the six, the KeyError ends the call before anything is written.
        Otherwise save the analysis under reportName, archive every log file and
        append the cycle to the dashboard, in that order. `listed` is the
        enumeration the analysis read, `moved` the one the archiving used. */
    method GenerateReports(cycleId: nat, reportName: string, fmt: real -> string)
      returns (r: Result<Analysis>, ghost listed: seq<string>, ghost moved: seq<string>)
      modifies host
      ensures Listing(old(host.devices), listed)
      ensures forall i :: 0 <= i < |listed| ==> listed[i] in old(host.devices)
      ensures r.Success? <==> LogsValid(old(host.devices))
      ensures r.Failure? ==>
                && r.error !in StatusNames
                && Tally(RecordsOf(old(host.devices), listed)) == Failure(r.error)
                && host.devices == old(host.devices) && host.backups == old(host.backups)
                && host.reports == old(host.reports) && host.dashboard == old(host.dashboard)
                && host.journal == old(host.journal)
      ensures r.Success? ==>
                && Describes(RecordsOf(old(host.devices), listed), r.value)
                && Listing(old(host.devices), moved)
                && host.reports == old(host.reports)[reportName := r.value]
                && host.devices == Remaining(old(host.devices), old(host.LogNames()))
                && host.backups == Archived(old(host.devices), old(host.backups), old(host.LogNames()))
                && host.dashboard == old(host.dashboard) + DashboardText(r.value, cycleId, fmt)
                && host.journal == old(host.journal) + [SavedReport(reportName)] + Moves(moved) + [DashboardOpened]
    {
      var names, records := ReadLogs();
      listed, moved := names, [];
      ListingValid(host.devices, names);
      r := AnalyzeAndManage(records);
      if r.Failure? {
        return;
      }
      host.SaveReport(reportName, r.value);
      moved := MoveProcessedFilesToBackup();
      GenerateDashboard(r.value, cycleId, fmt);
    }
  }
}
