/** The second copy of the report generator, in test.py. Its counting and its
    disconnection and consolidation analyses are those of the modules; three
    pieces are defects:
    - its `calculate_percentages` returns from inside the inner loop, so it keeps
      only the first (mission, device type) pair, and gives None on an empty table;
    - its disconnections section walks the items of every entry dictionary, so
      each entry gives two rows, one per key, with the key's name as middle cell;
    - its dashboard appends a title and then a table produced by a generic HTML
      table builder, and a None percentage table makes the builder fail after
      the title of the last section is written.
    A fourth difference is the percentage cell: `str(percentage)` here, a
    parameter `show`, against the modules' `fmt(percentage)%`. */
module TestVariant {
  import opened Dicts
  import opened Telemetry
  import opened Text
  import opened Html
  import opened Events
  import opened Disconnections
  import opened Consolidation
  import opened Percentages
  import opened Platform
  import opened Dashboard

  // ------------------------------------------------ calculate_percentages

  /** What the early return leaves: the first pair of the first mission that has
      one, as a one-mission, one-device-type table; None when no mission has a
      device type (the loop runs out and the function falls off its end). */
  function FirstPairOnly(t: EventTable): Option<PercentTable>
    requires PositiveTotals(t)
  {
    if t == [] then None
    else if t[0].1 == [] then
      assert PositiveTotals(t[1..]) by {
        forall i, j | 0 <= i < |t[1..]| && 0 <= j < |t[1..][i].1| ensures SumValues(t[1..][i].1[j].1) > 0 {
          assert t[1..][i] == t[i + 1];
        }
      }
      FirstPairOnly(t[1..])
    else Some([(t[0].0, [(t[0].1[0].0, Shares(t[0].1[0].1))])])
  }

  /** Registering one pair in an empty table: the mission's dictionary is
      created, then the pair's breakdown stored in it. */
  lemma FreshPair(data: PercentTable, m: string, d: string, b: Breakdown)
    requires data == []
    ensures m !in Keys(data) && UniqueKeys(data)
    ensures var r := Put(data, m, []); Put(r, m, Put(Get(r, m), d, b)) == [(m, [(d, b)])]
  {
    var none: Dict<string, Breakdown> := [];
    PutNew(data, m, none);
    PutNew(none, d, b);
    PutLast(data, m, none, [(d, b)]);
    assert data + [(m, none)] == [(m, none)];
    assert none + [(d, b)] == [(d, b)];
    assert data + [(m, [(d, b)])] == [(m, [(d, b)])];
    var r := Put(data, m, none);
    assert r == [(m, none)];
    assert Get(r, m) == none;
  }

  /** `calculate_percentages` as test.py writes it: the `return` sits in the body
      of the inner loop. */
  method CalculatePercentagesAsWritten(t: EventTable) returns (r: Option<PercentTable>)
    requires PositiveTotals(t)
    ensures r == FirstPairOnly(t)
  {
    var data: PercentTable := [];
    for i := 0 to |t|
      invariant PositiveTotals(t[i..]) && FirstPairOnly(t[i..]) == FirstPairOnly(t)
      invariant data == []
    {
      var (m, devices) := t[i];
      assert t[i..][0] == t[i] && t[i..][1..] == t[i + 1..];
      for j := 0 to |devices|
        invariant j == 0
      {
        var (d, counts) := devices[j];
        assert SumValues(t[i..][0].1[0].1) > 0;
        var percentageData := Shares(counts);
        FreshPair(data, m, d, percentageData);
        if m !in Keys(data) {
          data := Put(data, m, []);
        }
        data := Put(data, m, Put(Get(data, m), d, percentageData));
        assert data == [(m, [(d, percentageData)])];
        return Some(data);
      }
    }
    assert t[|t|..] == [];
    return None;
  }

  /** The variant gives None exactly when no mission has a device type; for a
      count table that is exactly the empty table, where the modules' version
      gives the empty dictionary. */
  lemma {:induction false} FirstPairOnlyNone(t: EventTable)
    requires PositiveTotals(t)
    ensures FirstPairOnly(t).None? <==> forall i :: 0 <= i < |t| ==> t[i].1 == []
  {
    if t != [] && t[0].1 == [] {
      FirstPairOnlyNone(t[1..]);
      forall i | 0 <= i < |t[1..]| ensures t[1..][i] == t[i + 1] { }
      assert forall i :: 0 <= i < |t| ==> i == 0 || t[i] == t[1..][i - 1];
    }
  }

  /** The breakdown of a mission's first device type, alone. */
  lemma FirstShares(devices: Dict<string, Counters>)
    requires |devices| >= 1 && forall j :: 0 <= j < |devices| ==> SumValues(devices[j].1) > 0
    ensures DeviceShares(devices)[..1] == [(devices[0].0, Shares(devices[0].1))]
    ensures |DeviceShares(devices)| == |devices|
    ensures |devices| == 1 ==> DeviceShares(devices) == [(devices[0].0, Shares(devices[0].1))]
  {
    hide Shares, SumValues;
    assert |Keys(DeviceShares(devices))| == |Keys(devices)|;
  }

  /** On a count table produced from records, the variant agrees with the
      modules' `calculate_percentages` exactly when the table has one mission
      with one device type; otherwise it drops every pair but the first. */
  lemma FirstPairOnlyAgrees(t: EventTable)
    requires WellFormed(t) && PositiveTotals(t)
    ensures FirstPairOnly(t) == Some(PercentagesOf(t)) <==> |t| == 1 && |t[0].1| == 1
    ensures t != [] ==> FirstPairOnly(t) == Some([(t[0].0, PercentagesOf(t)[0].1[..1])])
  {
    hide Shares, SumValues;
    if t != [] {
      assert DevicesOk(t[0].1);
      var p := PercentagesOf(t);
      assert |p| == |t| && p[0] == (t[0].0, DeviceShares(t[0].1));
      FirstShares(t[0].1);
      if |t| == 1 && |t[0].1| == 1 {
        assert p == [(t[0].0, DeviceShares(t[0].1))];
      }
    }
  }

  // ------------------------------------------------- disconnections section

  /** The rows of one mission's entries, one per item of each entry dictionary:
      `{'device_type': …, 'unknown_count': …}`, in that key order. */
  function ItemRows(m: string, entries: seq<Disconnection>): (rows: seq<seq<string>>)
    ensures |rows| == 2 * |entries|
  {
    if entries == [] then []
    else
      var e := entries[|entries| - 1];
      ItemRows(m, entries[..|entries| - 1])
        + [[m, "device_type", e.deviceType], [m, "unknown_count", NatToString(e.unknownCount)]]
  }

  /** The rows of test.py's disconnections section. */
  function DisconnectionItemRows(dt: DisconnectionTable): seq<seq<string>> {
    if dt == [] then []
    else
      var (m, entries) := dt[|dt| - 1];
      DisconnectionItemRows(dt[..|dt| - 1]) + ItemRows(m, entries)
  }

  /** Entry k of a mission gives rows 2k and 2k + 1, whose middle cells are the
      key names rather than the device type. */
  lemma {:induction false} ItemRowsAt(m: string, entries: seq<Disconnection>, k: nat)
    requires k < |entries|
    ensures ItemRows(m, entries)[2 * k] == [m, "device_type", entries[k].deviceType]
    ensures ItemRows(m, entries)[2 * k + 1] == [m, "unknown_count", NatToString(entries[k].unknownCount)]
  {
    var init := entries[..|entries| - 1];
    if k < |entries| - 1 {
      ItemRowsAt(m, init, k);
    }
  }

  /** The number of entries of a disconnection table. */
  function EntryCount(dt: DisconnectionTable): nat {
    if dt == [] then 0 else EntryCount(dt[..|dt| - 1]) + |dt[|dt| - 1].1|
  }

  lemma {:induction false} RowCounts(dt: DisconnectionTable)
    ensures |DisconnectionItemRows(dt)| == 2 * EntryCount(dt)
    ensures |DisconnectionRows(dt)| == EntryCount(dt)
  {
    if dt != [] {
      RowCounts(dt[..|dt| - 1]);
    }
  }

  /** test.py's section has the same rows as the modules' one exactly when no
      device is flagged; every flagged device doubles the row count. */
  lemma DisconnectionItemRowsAgree(dt: DisconnectionTable)
    ensures DisconnectionItemRows(dt) == DisconnectionRows(dt) <==> EntryCount(dt) == 0
  {
    RowCounts(dt);
  }

  /** One flagged device: test.py writes the rows [m, device_type, d] and
      [m, unknown_count, 2], the modules the single row [m, d, 2]. */
  lemma OneFlaggedDevice(m: string, d: string)
    ensures DisconnectionItemRows([(m, [Disconnection(d, 2)])])
      == [[m, "device_type", d], [m, "unknown_count", "2"]]
    ensures DisconnectionRows([(m, [Disconnection(d, 2)])]) == [[m, d, "2"]]
  {
    var dt := [(m, [Disconnection(d, 2)])];
    assert dt[..0] == [];
    assert [Disconnection(d, 2)][..0] == [];
    assert NatToString(2) == "2";
    assert EntryRows(m, [Disconnection(d, 2)]) == [[m, d, "2"]];
  }

  // ---------------------------------------------------------- the dashboard

  /** `generate_events_section` … `generate_percentages_section`: the table of
      each section, or None when the section builder fails on a None table. */
  function SectionTables(events: EventTable, dt: DisconnectionTable, c: ConsolidationTable,
                         percentages: Option<PercentTable>, show: real -> string): seq<(string, Option<string>)>
  {
    [ ("Análisis de Eventos", Some(HtmlTable(EventHeaders, EventRows(events)))),
      ("Gestión de Desconexiones", Some(HtmlTable(DisconnectionHeaders, DisconnectionItemRows(dt)))),
      ("Consolidación de Misiones", Some(HtmlTable(ConsolidationHeaders, ConsolidationRows(c)))),
      ("Porcentajes", if percentages.None? then None else Some(HtmlTable(PercentageHeaders, TableRows(percentages.value, show)))) ]
  }

  /** The text the sections loop appends for sections[..k], and whether it got
      past all of them: a failing builder stops it after that section's title. */
  function SectionsText(sections: seq<(string, Option<string>)>): (string, bool) {
    if sections == [] then ("", true)
    else
      var (text, completed) := SectionsText(sections[..|sections| - 1]);
      var (title, table) := sections[|sections| - 1];
      if !completed then (text, false)
      else if table.None? then (text + ("\n## " + title + "\n"), false)
      else (text + ("\n## " + title + "\n" + table.value), true)
  }

  /** What test.py's generate_dashboard appends, and whether it returns normally. */
  function TestDashboard(events: EventTable, dt: DisconnectionTable, c: ConsolidationTable,
                         percentages: Option<PercentTable>, cycleId: nat, show: real -> string): (string, bool)
  {
    var (text, completed) := SectionsText(SectionTables(events, dt, c, percentages, show));
    (CycleHeading(cycleId) + text, completed)
  }

  lemma SectionsTextSnoc(sections: seq<(string, Option<string>)>, s: (string, Option<string>))
    ensures SectionsText(sections + [s]) ==
      var (text, completed) := SectionsText(sections);
      if !completed then (text, false)
      else if s.1.None? then (text + ("\n## " + s.0 + "\n"), false)
      else (text + ("\n## " + s.0 + "\n" + s.1.value), true)
  {
    assert (sections + [s])[..|sections|] == sections;
  }

  /** The three sections before the percentages are always written. */
  lemma FirstThreeSections(secs: seq<(string, Option<string>)>, s1: string, s2: string, s3: string)
    requires |secs| == 4 && secs[0].1.Some? && secs[1].1.Some? && secs[2].1.Some?
    requires s1 == "\n## " + secs[0].0 + "\n" + secs[0].1.value
    requires s2 == "\n## " + secs[1].0 + "\n" + secs[1].1.value
    requires s3 == "\n## " + secs[2].0 + "\n" + secs[2].1.value
    ensures SectionsText(secs[..3]) == (s1 + s2 + s3, true)
  {
    assert secs[..0] == [];
    SectionsTextSnoc(secs[..0], secs[0]);
    assert secs[..0] + [secs[0]] == secs[..1];
    assert "" + s1 == s1;
    SectionsTextSnoc(secs[..1], secs[1]);
    assert secs[..1] + [secs[1]] == secs[..2];
    SectionsTextSnoc(secs[..2], secs[2]);
    assert secs[..2] + [secs[2]] == secs[..3];
  }

  /** With a percentage table the variant writes the four titled sections of
      the modules' dashboard, save for its disconnection rows and percentage
      cells; without one it fails after writing the title of the percentages
      section, the three earlier sections already written. */
  lemma TestDashboardSections(events: EventTable, dt: DisconnectionTable, c: ConsolidationTable,
                              percentages: Option<PercentTable>, cycleId: nat, show: real -> string)
    ensures var (text, completed) := TestDashboard(events, dt, c, percentages, cycleId, show);
      var head := CycleHeading(cycleId)
        + Section("Análisis de Eventos", EventHeaders, EventRows(events))
        + Section("Gestión de Desconexiones", DisconnectionHeaders, DisconnectionItemRows(dt))
        + Section("Consolidación de Misiones", ConsolidationHeaders, ConsolidationRows(c));
      && (completed <==> percentages.Some?)
      && (percentages.Some? ==> text == head + Section("Porcentajes", PercentageHeaders, TableRows(percentages.value, show)))
      && (percentages.None? ==> text == head + "\n## Porcentajes\n")
  {
    hide HtmlTable, EventRows, DisconnectionItemRows, ConsolidationRows, TableRows, CycleHeading;
    var secs := SectionTables(events, dt, c, percentages, show);
    var h := CycleHeading(cycleId);
    var s1 := Section("Análisis de Eventos", EventHeaders, EventRows(events));
    var s2 := Section("Gestión de Desconexiones", DisconnectionHeaders, DisconnectionItemRows(dt));
    var s3 := Section("Consolidación de Misiones", ConsolidationHeaders, ConsolidationRows(c));
    FirstThreeSections(secs, s1, s2, s3);
    SectionsTextSnoc(secs[..3], secs[3]);
    assert secs[..3] + [secs[3]] == secs;
    var last := if percentages.None? then "\n## Porcentajes\n"
                else Section("Porcentajes", PercentageHeaders, TableRows(percentages.value, show));
    assert SectionsText(secs).0 == s1 + s2 + s3 + last;
    Assoc(h, s1, s2);
    Assoc(h, s1 + s2, s3);
    Assoc(h, s1 + s2 + s3, last);
  }

  /** The dashboard of the modules is the variant's when no device is flagged,
      the percentage table is present and the variant's cells are rendered as
      the modules' `fmt(p)%`, which test.py's `str(p)` is not. */
  lemma TestDashboardAgrees(a: Analysis.Analysis, cycleId: nat, fmt: real -> string)
    requires EntryCount(a.disconnections) == 0
    ensures TestDashboard(a.events, a.disconnections, a.consolidation, Some(a.percentages), cycleId, PercentCell(fmt))
      == (DashboardText(a, cycleId, fmt), true)
  {
    TestDashboardSections(a.events, a.disconnections, a.consolidation, Some(a.percentages), cycleId, PercentCell(fmt));
    DisconnectionItemRowsAgree(a.disconnections);
  }

  /** Writing the title and then the table of section k after the text of the
      sections before it. */
  lemma AppendSection(start: string, sections: seq<(string, Option<string>)>, k: nat)
    requires k < |sections| && SectionsText(sections[..k]).1
    ensures var text := start + SectionsText(sections[..k]).0 + ("\n## " + sections[k].0 + "\n");
      && (sections[k].1.None? ==> !SectionsText(sections[..k + 1]).1 && start + SectionsText(sections[..k + 1]).0 == text)
      && (sections[k].1.Some? ==>
            SectionsText(sections[..k + 1]).1 && start + SectionsText(sections[..k + 1]).0 == text + sections[k].1.value)
  {
    SectionsTextSnoc(sections[..k], sections[k]);
    assert sections[..k] + [sections[k]] == sections[..k + 1];
    var prior := SectionsText(sections[..k]).0;
    var title := "\n## " + sections[k].0 + "\n";
    Assoc(start, prior, title);
    if sections[k].1.Some? {
      Assoc(start, prior + title, sections[k].1.value);
      Assoc(prior, title, sections[k].1.value);
    }
  }

  class ReportGenerator {
    const host: Host

    constructor(host: Host)
      ensures this.host == host
    {
      this.host := host;
    }

    /** test.py's `generate_dashboard`: the cycle heading, then for every
        (title, builder, data) the title and the built table; `completed` is
        false when a builder fails, which ends the call. */
    method GenerateDashboard(events: EventTable, dt: DisconnectionTable, c: ConsolidationTable,
                             percentages: Option<PercentTable>, cycleId: nat, show: real -> string)
      returns (completed: bool)
      modifies host
      ensures host.dashboard == old(host.dashboard) + TestDashboard(events, dt, c, percentages, cycleId, show).0
      ensures completed == TestDashboard(events, dt, c, percentages, cycleId, show).1
      ensures host.journal == old(host.journal) + [DashboardOpened]
      ensures host.devices == old(host.devices) && host.backups == old(host.backups)
      ensures host.reports == old(host.reports)
    {
      hide HtmlTable, EventRows, DisconnectionItemRows, ConsolidationRows, TableRows;
      host.OpenDashboard();
      host.Append(CycleHeading(cycleId));
      ghost var start := host.dashboard;
      var sections := SectionTables(events, dt, c, percentages, show);
      ghost var whole := TestDashboard(events, dt, c, percentages, cycleId, show);
      Assoc(old(host.dashboard), CycleHeading(cycleId), SectionsText(sections).0);
      assert sections[..0] == [];
      for k := 0 to |sections|
        invariant host.dashboard == start + SectionsText(sections[..k]).0
        invariant SectionsText(sections[..k]).1
        invariant host.journal == old(host.journal) + [DashboardOpened]
        invariant host.devices == old(host.devices) && host.backups == old(host.backups)
        invariant host.reports == old(host.reports)
      {
        var (title, table) := sections[k];
        AppendSection(start, sections, k);
        host.Append("\n## " + title + "\n");
        if table.None? {
          assert k == 3 && sections[..k + 1] == sections;
          return false;
        }
        host.Append(table.value);
      }
      assert sections[..|sections|] == sections;
      return true;
    }
  }
}
