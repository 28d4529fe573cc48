/** The text one cycle appends to Dashboard.md (`ReportGenerator.generate_dashboard`):
    the cycle heading, then four titled HTML tables (events, disconnections,
    consolidation, percentages), each listing its analysis in dictionary order. */
module Dashboard {
  import opened Dicts
  import opened Telemetry
  import opened Text
  import opened Html
  import opened Events
  import opened Disconnections
  import opened Consolidation
  import opened Percentages
  import opened Analysis

  /** A three-level dictionary: mission -> device type -> status -> value. The
      count table and the percentage table both have this shape. */
  type Nested<V> = Dict<string, Dict<string, Dict<string, V>>>

  /** Distinct keys at every level. */
  ghost predicate NestedOk<V>(t: Nested<V>) {
    && UniqueKeys(t)
    && (forall i :: 0 <= i < |t| ==> UniqueKeys(t[i].1))
    && (forall i, j :: 0 <= i < |t| && 0 <= j < |t[i].1| ==> UniqueKeys(t[i].1[j].1))
  }

  /** The rows of one (mission, device type) pair: one per status, in order. */
  function LeafRows<V>(m: string, d: string, leaf: Dict<string, V>, cell: V -> string): seq<seq<string>> {
    seq(|leaf|, k requires 0 <= k < |leaf| => [m, d, leaf[k].0, cell(leaf[k].1)])
  }

  /** The rows of one mission: its device types in order, each with its rows. */
  function PairRows<V>(m: string, devices: Dict<string, Dict<string, V>>, cell: V -> string): seq<seq<string>> {
    if devices == [] then []
    else
      var (d, leaf) := devices[|devices| - 1];
      PairRows(m, devices[..|devices| - 1], cell) + LeafRows(m, d, leaf, cell)
  }

  /** The three nested loops of the events and percentages tables: for every
      mission, device type and status, in dictionary order, the row
      [mission, device type, status, cell(value)]. */
  function TableRows<V>(t: Nested<V>, cell: V -> string): seq<seq<string>> {
    if t == [] then []
    else
      var (m, devices) := t[|t| - 1];
      TableRows(t[..|t| - 1], cell) + PairRows(m, devices, cell)
  }

  /** `t[m][d]`, empty where missing. */
  function Leaf<V>(t: Nested<V>, m: string, d: string): Dict<string, V> {
    GetOr(GetOr(t, m, []), d, [])
  }

  /** The key path (m, d, s) exists in t. */
  predicate Present<V>(t: Nested<V>, m: string, d: string, s: string) {
    m in Keys(t) && d in Keys(GetOr(t, m, [])) && s in Keys(Leaf(t, m, d))
  }

  lemma LeafRowsSound<V>(m: string, d: string, leaf: Dict<string, V>, cell: V -> string)
    requires UniqueKeys(leaf)
    ensures forall row :: row in LeafRows(m, d, leaf, cell) ==>
              |row| == 4 && row[0] == m && row[1] == d && row[2] in Keys(leaf) && row[3] == cell(Get(leaf, row[2]))
  {
    var rows := LeafRows(m, d, leaf, cell);
    forall row | row in rows
      ensures |row| == 4 && row[0] == m && row[1] == d && row[2] in Keys(leaf) && row[3] == cell(Get(leaf, row[2]))
    {
      var k :| 0 <= k < |rows| && rows[k] == row;
      GetAt(leaf, k);
    }
  }

  /** A row of mission m's rows: a device type of m, one of its statuses, and its value. */
  predicate PairRowOk<V>(m: string, devices: Dict<string, Dict<string, V>>, cell: V -> string, row: seq<string>) {
    && |row| == 4 && row[0] == m && row[1] in Keys(devices)
    && row[2] in Keys(GetOr(devices, row[1], []))
    && row[3] == cell(Get(GetOr(devices, row[1], []), row[2]))
  }

  /** A row of the table: an existing key path and its value. */
  predicate TableRowOk<V>(t: Nested<V>, cell: V -> string, row: seq<string>) {
    |row| == 4 && Present(t, row[0], row[1], row[2]) && row[3] == cell(Get(Leaf(t, row[0], row[1]), row[2]))
  }

  lemma PairRowSnoc<V>(m: string, devices: Dict<string, Dict<string, V>>, cell: V -> string, row: seq<string>)
    requires UniqueKeys(devices) && devices != []
    requires PairRowOk(m, devices[..|devices| - 1], cell, row)
    ensures PairRowOk(m, devices, cell, row)
  {
  }

  lemma PairRowLast<V>(m: string, devices: Dict<string, Dict<string, V>>, cell: V -> string, row: seq<string>)
    requires UniqueKeys(devices) && devices != []
    requires var (d, leaf) := devices[|devices| - 1];
             |row| == 4 && row[0] == m && row[1] == d && row[2] in Keys(leaf) && row[3] == cell(Get(leaf, row[2]))
    ensures PairRowOk(m, devices, cell, row)
  {
  }

  lemma {:induction false} PairRowsSound<V>(m: string, devices: Dict<string, Dict<string, V>>, cell: V -> string)
    requires UniqueKeys(devices) && forall j :: 0 <= j < |devices| ==> UniqueKeys(devices[j].1)
    ensures forall row :: row in PairRows(m, devices, cell) ==> PairRowOk(m, devices, cell, row)
  {
    if devices != [] {
      var i := |devices| - 1;
      var init := devices[..i];
      var (d, leaf) := devices[i];
      SplitLast(devices);
      PairRowsSound(m, init, cell);
      LeafRowsSound(m, d, leaf, cell);
      forall row | row in PairRows(m, devices, cell) ensures PairRowOk(m, devices, cell, row) {
        if row in PairRows(m, init, cell) {
          PairRowSnoc(m, devices, cell, row);
        } else {
          assert row in LeafRows(m, d, leaf, cell);
          PairRowLast(m, devices, cell, row);
        }
      }
    }
  }

  lemma TableRowSnoc<V>(t: Nested<V>, cell: V -> string, row: seq<string>)
    requires UniqueKeys(t) && t != []
    requires TableRowOk(t[..|t| - 1], cell, row)
    ensures TableRowOk(t, cell, row)
  {
  }

  lemma TableRowLast<V>(t: Nested<V>, cell: V -> string, row: seq<string>)
    requires UniqueKeys(t) && t != []
    requires PairRowOk(t[|t| - 1].0, t[|t| - 1].1, cell, row)
    ensures TableRowOk(t, cell, row)
  {
  }

  /** Every row of the table names an existing key path and shows its value. */
  lemma {:induction false} TableRowsSound<V>(t: Nested<V>, cell: V -> string)
    requires NestedOk(t)
    ensures forall row :: row in TableRows(t, cell) ==> TableRowOk(t, cell, row)
  {
    if t != [] {
      var i := |t| - 1;
      var init := t[..i];
      var (m, devices) := t[i];
      SplitLast(t);
      assert NestedOk(init) by {
        forall a | 0 <= a < |init| ensures init[a] == t[a] { }
      }
      TableRowsSound(init, cell);
      PairRowsSound(m, devices, cell);
      forall row | row in TableRows(t, cell) ensures TableRowOk(t, cell, row) {
        if row in TableRows(init, cell) {
          TableRowSnoc(t, cell, row);
        } else {
          assert row in PairRows(m, devices, cell);
          TableRowLast(t, cell, row);
        }
      }
    }
  }

  lemma LeafRowsComplete<V>(m: string, d: string, leaf: Dict<string, V>, cell: V -> string, s: string)
    requires UniqueKeys(leaf) && s in Keys(leaf)
    ensures [m, d, s, cell(Get(leaf, s))] in LeafRows(m, d, leaf, cell)
  {
    var k := IndexOf(leaf, s);
    assert LeafRows(m, d, leaf, cell)[k] == [m, d, s, cell(Get(leaf, s))];
  }

  lemma {:induction false} PairRowsComplete<V>(m: string, devices: Dict<string, Dict<string, V>>, cell: V -> string,
                                               d: string, s: string)
    requires UniqueKeys(devices) && forall j :: 0 <= j < |devices| ==> UniqueKeys(devices[j].1)
    requires d in Keys(devices) && s in Keys(GetOr(devices, d, []))
    ensures [m, d, s, cell(Get(GetOr(devices, d, []), s))] in PairRows(m, devices, cell)
  {
    var i := |devices| - 1;
    var init := devices[..i];
    var (d', leaf) := devices[i];
    assert devices[..i + 1] == devices;
    GetOrSnoc(devices, i, d, []);
    assert Keys(devices) == Keys(init) + [d'];
    if d == d' {
      LeafRowsComplete(m, d, leaf, cell, s);
    } else {
      PairRowsComplete(m, init, cell, d, s);
    }
  }

  /** Every existing key path has its row in the table. */
  lemma {:induction false} TableRowsComplete<V>(t: Nested<V>, cell: V -> string, m: string, d: string, s: string)
    requires NestedOk(t) && Present(t, m, d, s)
    ensures [m, d, s, cell(Get(Leaf(t, m, d), s))] in TableRows(t, cell)
  {
    var i := |t| - 1;
    var init := t[..i];
    var (m', devices) := t[i];
    assert t[..i + 1] == t;
    GetOrSnoc(t, i, m, []);
    assert Keys(t) == Keys(init) + [m'];
    if m == m' {
      PairRowsComplete(m, devices, cell, d, s);
    } else {
      assert NestedOk(init) by {
        forall a | 0 <= a < |init| ensures init[a] == t[a] { }
      }
      TableRowsComplete(init, cell, m, d, s);
    }
  }

  /** Number of (mission, device type) pairs of a table. */
  function PairCount<V>(t: Nested<V>): nat {
    if t == [] then 0 else PairCount(t[..|t| - 1]) + |t[|t| - 1].1|
  }

  lemma {:induction false} PairRowsCount<V>(m: string, devices: Dict<string, Dict<string, V>>, cell: V -> string, n: nat)
    requires forall j :: 0 <= j < |devices| ==> |devices[j].1| == n
    ensures |PairRows(m, devices, cell)| == n * |devices|
  {
    if devices != [] {
      var init := devices[..|devices| - 1];
      PairRowsCount(m, init, cell, n);
      assert n * |devices| == n * |init| + n;
    }
  }

  lemma Distribute(n: nat, a: nat, b: nat)
    ensures n * (a + b) == n * a + n * b
  {
  }

  /** With n statuses under every pair, the table has n rows per pair. */
  lemma {:induction false} TableRowsCount<V>(t: Nested<V>, cell: V -> string, n: nat)
    requires forall i, j :: 0 <= i < |t| && 0 <= j < |t[i].1| ==> |t[i].1[j].1| == n
    ensures |TableRows(t, cell)| == n * PairCount(t)
  {
    if t != [] {
      var init := t[..|t| - 1];
      var (m, devices) := t[|t| - 1];
      forall i, j | 0 <= i < |init| && 0 <= j < |init[i].1| ensures |init[i].1[j].1| == n {
        assert init[i] == t[i];
      }
      TableRowsCount(init, cell, n);
      PairRowsCount(m, devices, cell, n);
      var a, b := PairCount(init), |devices|;
      assert PairCount(t) == a + b;
      Distribute(n, a, b);
    }
  }

  // ---------------------------------------------------------------- events

  const EventHeaders: seq<string> := ["Misión", "Tipo de Dispositivo", "Estado", "Cantidad"]

  /** The rows of the events table: [mission, device type, status, `{count}`]. */
  function EventRows(t: EventTable): seq<seq<string>> {
    TableRows(t, NatToString)
  }

  /** A count table's key paths are its pairs with the six statuses, and the
      value at a path is the counter. */
  lemma EventPaths(t: EventTable, m: string, d: string, s: string)
    requires WellFormed(t)
    ensures NestedOk(t)
    ensures Present(t, m, d, s) <==> PairPresent(t, m, d) && s in StatusNames
    ensures Present(t, m, d, s) ==> Get(Leaf(t, m, d), s) == Lookup(t, m, d, s)
  {
    assert NestedOk(t) by {
      forall i | 0 <= i < |t| ensures UniqueKeys(t[i].1) && forall j :: 0 <= j < |t[i].1| ==> UniqueKeys(t[i].1[j].1) {
        assert DevicesOk(t[i].1);
      }
    }
    WellFormedGet(t, m);
  }

  /** The events section lists exactly six rows per (mission, device type) pair,
      and every row is a pair of the table, one of the six statuses and the
      decimal text of its counter. */
  lemma EventRowsSound(t: EventTable)
    requires WellFormed(t)
    ensures |EventRows(t)| == 6 * PairCount(t)
    ensures forall row :: row in EventRows(t) ==>
              && |row| == 4 && PairPresent(t, row[0], row[1]) && row[2] in StatusNames
              && row[3] == NatToString(Lookup(t, row[0], row[1], row[2]))
  {
    EventPaths(t, "", "", "");
    TableRowsSound(t, NatToString);
    forall row | row in EventRows(t)
      ensures && |row| == 4 && PairPresent(t, row[0], row[1]) && row[2] in StatusNames
              && row[3] == NatToString(Lookup(t, row[0], row[1], row[2]))
    {
      assert TableRowOk(t, NatToString, row);
      EventPaths(t, row[0], row[1], row[2]);
    }
    forall i, j | 0 <= i < |t| && 0 <= j < |t[i].1| ensures |t[i].1[j].1| == 6 {
      assert DevicesOk(t[i].1);
      assert |Keys(t[i].1[j].1)| == |StatusNames|;
    }
    TableRowsCount(t, NatToString, 6);
  }

  /** Every pair of the table and every status has its row. */
  lemma EventRowsComplete(t: EventTable, m: string, d: string, s: string)
    requires WellFormed(t) && PairPresent(t, m, d) && s in StatusNames
    ensures [m, d, s, NatToString(Lookup(t, m, d, s))] in EventRows(t)
  {
    EventPaths(t, m, d, s);
    TableRowsComplete(t, NatToString, m, d, s);
  }

  // ----------------------------------------------------------- percentages

  const PercentageHeaders: seq<string> := ["Misión", "Tipo de Dispositivo", "Estado", "Porcentaje"]

  /** The key paths of the percentage table are those of the count table, and
      each holds the status's percentage of its pair. */
  lemma PercentPaths(t: EventTable, m: string, d: string, s: string)
    requires WellFormed(t) && PositiveTotals(t)
    ensures NestedOk(PercentagesOf(t))
    ensures Present(PercentagesOf(t), m, d, s) <==> PairPresent(t, m, d) && s in StatusNames
    ensures Present(PercentagesOf(t), m, d, s) ==>
              PairPresent(t, m, d) && Get(Leaf(PercentagesOf(t), m, d), s) == Percent(Lookup(t, m, d, s), PairTotal(t, m, d))
  {
    var p := PercentagesOf(t);
    EventPaths(t, m, d, s);
    PercentagesLookup(t, m, d);
    SameKeys(p, t, m);
    assert NestedOk(p) by {
      forall i | 0 <= i < |p|
        ensures UniqueKeys(p[i].1) && forall j :: 0 <= j < |p[i].1| ==> UniqueKeys(p[i].1[j].1)
      {
        assert DevicesOk(t[i].1);
        SameKeys(p[i].1, t[i].1, d);
        forall j | 0 <= j < |p[i].1| ensures UniqueKeys(p[i].1[j].1) {
          SameKeys(p[i].1[j].1, t[i].1[j].1, s);
        }
      }
    }
    if PairPresent(t, m, d) && s in StatusNames {
      WellFormedGet(t, m);
      var c := Get(Get(t, m), d);
      SharesGet(c, s);
    }
  }

  /** The percentages section lists six rows per pair, and every row is a pair
      of the count table, one of the six statuses and the rendering of that
      status's percentage of the pair's events. */
  lemma PercentRowsSound(t: EventTable, cell: real -> string)
    requires WellFormed(t) && PositiveTotals(t)
    ensures |TableRows(PercentagesOf(t), cell)| == 6 * PairCount(t)
    ensures forall row :: row in TableRows(PercentagesOf(t), cell) ==>
              && |row| == 4 && PairPresent(t, row[0], row[1]) && row[2] in StatusNames
              && row[3] == cell(Percent(Lookup(t, row[0], row[1], row[2]), PairTotal(t, row[0], row[1])))
  {
    var p := PercentagesOf(t);
    PercentPaths(t, "", "", "");
    TableRowsSound(p, cell);
    forall row | row in TableRows(p, cell)
      ensures && |row| == 4 && PairPresent(t, row[0], row[1]) && row[2] in StatusNames
              && row[3] == cell(Percent(Lookup(t, row[0], row[1], row[2]), PairTotal(t, row[0], row[1])))
    {
      assert TableRowOk(p, cell, row);
      PercentPaths(t, row[0], row[1], row[2]);
    }
    forall i, j | 0 <= i < |p| && 0 <= j < |p[i].1| ensures |p[i].1[j].1| == 6 {
      assert DevicesOk(t[i].1);
      assert |Keys(t[i].1[j].1)| == |StatusNames|;
    }
    assert PairCount(p) == PairCount(t) by {
      PercentPairCount(t);
    }
    TableRowsCount(p, cell, 6);
  }

  lemma {:induction false} PercentPairCount(t: EventTable)
    requires PositiveTotals(t)
    ensures PairCount(PercentagesOf(t)) == PairCount(t)
  {
    if t != [] {
      var init := t[..|t| - 1];
      assert PositiveTotals(init) by {
        forall i, j | 0 <= i < |init| && 0 <= j < |init[i].1| ensures SumValues(init[i].1[j].1) > 0 {
          assert init[i] == t[i];
        }
      }
      PercentPairCount(init);
      assert PercentagesOf(t)[..|t| - 1] == PercentagesOf(init);
    }
  }

  /** Every pair and status of the count table has its percentage row. */
  lemma PercentRowsComplete(t: EventTable, cell: real -> string, m: string, d: string, s: string)
    requires WellFormed(t) && PositiveTotals(t) && PairPresent(t, m, d) && s in StatusNames
    ensures [m, d, s, cell(Percent(Lookup(t, m, d, s), PairTotal(t, m, d)))] in TableRows(PercentagesOf(t), cell)
  {
    PercentPaths(t, m, d, s);
    TableRowsComplete(PercentagesOf(t), cell, m, d, s);
  }

  // -------------------------------------------------------- disconnections

  const DisconnectionHeaders: seq<string> := ["Misión", "Tipo de Dispositivo", "Cantidad de Desconexiones"]

  /** The rows of one mission's entries: [mission, device type, unknown count]. */
  function EntryRows(m: string, entries: seq<Disconnection>): seq<seq<string>> {
    seq(|entries|, k requires 0 <= k < |entries| =>
      [m, entries[k].deviceType, NatToString(entries[k].unknownCount)])
  }

  /** The rows of the disconnections table: every mission's entries, in order. */
  function DisconnectionRows(dt: DisconnectionTable): seq<seq<string>> {
    if dt == [] then []
    else
      var (m, entries) := dt[|dt| - 1];
      DisconnectionRows(dt[..|dt| - 1]) + EntryRows(m, entries)
  }

  /** A row of the section: an entry of its mission, with the count in decimal. */
  predicate EntryRowOk(dt: DisconnectionTable, row: seq<string>) {
    && |row| == 3 && AllDigits(row[2]) && row[2] == NatToString(DigitsValue(row[2]))
    && Disconnection(row[1], DigitsValue(row[2])) in GetOr(dt, row[0], [])
  }

  lemma EntryRowsSound(m: string, entries: seq<Disconnection>, row: seq<string>)
    requires row in EntryRows(m, entries)
    ensures |row| == 3 && row[0] == m && AllDigits(row[2]) && row[2] == NatToString(DigitsValue(row[2]))
    ensures Disconnection(row[1], DigitsValue(row[2])) in entries
  {
    var k :| 0 <= k < |entries| && EntryRows(m, entries)[k] == row;
    NatToStringValue(entries[k].unknownCount);
  }

  /** Every row of the section is an entry of the table. */
  lemma {:induction false} DisconnectionRowsSound(dt: DisconnectionTable)
    requires UniqueKeys(dt)
    ensures forall row :: row in DisconnectionRows(dt) ==> EntryRowOk(dt, row)
  {
    if dt != [] {
      var i := |dt| - 1;
      var init := dt[..i];
      var (m, entries) := dt[i];
      SplitLast(dt);
      DisconnectionRowsSound(init);
      assert dt[..i + 1] == dt;
      forall row | row in DisconnectionRows(dt) ensures EntryRowOk(dt, row) {
        if row in DisconnectionRows(init) {
          assert EntryRowOk(init, row);
          GetOrSnoc(dt, i, row[0], []);
          assert Keys(dt) == Keys(init) + [m];
        } else {
          EntryRowsSound(m, entries, row);
          GetOrSnoc(dt, i, m, []);
        }
      }
    }
  }

  /** Every entry of the table has its row. */
  lemma {:induction false} DisconnectionRowsComplete(dt: DisconnectionTable, m: string, e: Disconnection)
    requires UniqueKeys(dt) && e in GetOr(dt, m, [])
    ensures [m, e.deviceType, NatToString(e.unknownCount)] in DisconnectionRows(dt)
  {
    var i := |dt| - 1;
    var init := dt[..i];
    var (m', entries) := dt[i];
    assert dt[..i + 1] == dt;
    GetOrSnoc(dt, i, m, []);
    if m == m' {
      var k :| 0 <= k < |entries| && entries[k] == e;
      assert EntryRows(m, entries)[k] == [m, e.deviceType, NatToString(e.unknownCount)];
    } else {
      DisconnectionRowsComplete(init, m, e);
    }
  }

  /** The disconnections section lists exactly the (mission, device type) pairs
      of the count table whose unknown count exceeds the threshold, each with
      that count; a count equal to the threshold gets no row. */
  lemma DisconnectionSection(t: EventTable, m: string, d: string)
    requires WellFormed(t)
    ensures forall row :: row in DisconnectionRows(Flag(t)) ==>
              && |row| == 3 && PairPresent(t, row[0], row[1])
              && Lookup(t, row[0], row[1], "unknown") > DisconnectionThreshold
              && row[2] == NatToString(Lookup(t, row[0], row[1], "unknown"))
    ensures PairPresent(t, m, d) && Lookup(t, m, d, "unknown") > DisconnectionThreshold ==>
              [m, d, NatToString(Lookup(t, m, d, "unknown"))] in DisconnectionRows(Flag(t))
  {
    var dt := Flag(t);
    FlagIff(t, m, d, Lookup(t, m, d, "unknown"));
    DisconnectionRowsSound(dt);
    forall row | row in DisconnectionRows(dt)
      ensures && |row| == 3 && PairPresent(t, row[0], row[1])
              && Lookup(t, row[0], row[1], "unknown") > DisconnectionThreshold
              && row[2] == NatToString(Lookup(t, row[0], row[1], "unknown"))
    {
      assert EntryRowOk(dt, row);
      FlagIff(t, row[0], row[1], DigitsValue(row[2]));
    }
    if PairPresent(t, m, d) && Lookup(t, m, d, "unknown") > DisconnectionThreshold {
      DisconnectionRowsComplete(dt, m, Disconnection(d, Lookup(t, m, d, "unknown")));
    }
  }

  // --------------------------------------------------------- consolidation

  const ConsolidationHeaders: seq<string> := ["Tipo de Dispositivo", "Cantidad de Dispositivos"]

  /** The rows of the consolidation table: [device type, inoperable total]. */
  function ConsolidationRows(c: ConsolidationTable): seq<seq<string>> {
    seq(|c|, i requires 0 <= i < |c| => [c[i].0, NatToString(c[i].1)])
  }

  /** The consolidation section has one row per device type seen in any mission,
      no device type twice, and each with its fleet-wide inoperable total. */
  lemma ConsolidationSection(t: EventTable, c: ConsolidationTable)
    requires IsConsolidation(t, c)
    ensures |ConsolidationRows(c)| == |Dedup(FlatTypes(t))|
    ensures forall i, j :: 0 <= i < j < |c| ==> ConsolidationRows(c)[i][0] != ConsolidationRows(c)[j][0]
    ensures forall row :: row in ConsolidationRows(c) ==>
              |row| == 2 && row[0] in FlatTypes(t) && row[1] == NatToString(InoperableTotal(t, row[0]))
    ensures forall d :: d in FlatTypes(t) ==> [d, NatToString(InoperableTotal(t, d))] in ConsolidationRows(c)
  {
    hide InoperableTotal, FlatTypes, NatToString, Dedup;
    var rows := ConsolidationRows(c);
    forall row | row in rows
      ensures |row| == 2 && row[0] in FlatTypes(t) && row[1] == NatToString(InoperableTotal(t, row[0]))
    {
      var i :| 0 <= i < |rows| && rows[i] == row;
      assert Keys(c)[i] == c[i].0;
    }
    forall d | d in FlatTypes(t) ensures [d, NatToString(InoperableTotal(t, d))] in rows {
      assert d in Keys(c);
      var i := IndexOf(c, d);
      assert rows[i] == [d, NatToString(InoperableTotal(t, d))];
    }
  }

  // ------------------------------------------------------------- the text

  /** `f"\n# Análisis para Ciclo {cycle_id}\n"`. */
  function CycleHeading(cycleId: nat): string {
    "\n# Análisis para Ciclo " + NatToString(cycleId) + "\n"
  }

  /** A titled section: `f"\n## {title}\n"` and then the table. */
  function Section(title: string, headers: seq<string>, rows: seq<seq<string>>): string {
    "\n## " + title + "\n" + HtmlTable(headers, rows)
  }

  /** `f"{percentage:.2f}%"`, with the two-decimal rendering a parameter. */
  function PercentCell(fmt: real -> string): real -> string {
    p => fmt(p) + "%"
  }

  /** Everything one call of generate_dashboard appends, in order. */
  function DashboardText(a: Analysis, cycleId: nat, fmt: real -> string): string {
    CycleHeading(cycleId)
      + Section("Análisis de Eventos", EventHeaders, EventRows(a.events))
      + Section("Gestión de Desconexiones", DisconnectionHeaders, DisconnectionRows(a.disconnections))
      + Section("Consolidación de Misiones", ConsolidationHeaders, ConsolidationRows(a.consolidation))
      + Section("Porcentajes", PercentageHeaders, TableRows(a.percentages, PercentCell(fmt)))
  }

  // ------------------------------------------------------------- its lines

  /** The lines of a section up to its closing `</table>` line. */
  function SectionLines(title: string, headers: seq<string>, rows: seq<seq<string>>): seq<string> {
    ["", "## " + title] + TableBlock(headers, rows)
  }

  lemma SectionText(title: string, table: string, rest: string)
    ensures "\n## " + title + "\n" + table + rest == "" + "\n" + (("## " + title) + "\n" + (table + rest))
  {
  }

  /** A section followed by more text: an empty line, the `## title` line, the
      table's lines, then the lines of the text after it. */
  lemma SectionLinesThen(title: string, headers: seq<string>, rows: seq<seq<string>>, rest: string)
    requires '\n' !in title && NoChar('\n', headers) && NoCharIn('\n', rows)
    ensures Lines(Section(title, headers, rows) + rest) == SectionLines(title, headers, rows) + Lines(rest)
  {
    var heading := "## " + title;
    var table := HtmlTable(headers, rows);
    var block := TableBlock(headers, rows);
    SectionText(title, table, rest);
    assert '\n' !in heading by {
      assert '\n' !in "## ";
    }
    TableLinesThen(headers, rows, rest);
    LinesCons(heading, table + rest);
    LinesCons("", heading + "\n" + (table + rest));
    assert Lines(Section(title, headers, rows) + rest) == [""] + ([heading] + (block + Lines(rest)));
    TwoLines("", heading, block, Lines(rest));
  }

  lemma TwoLines(a: string, b: string, c: seq<string>, d: seq<string>)
    ensures [a] + ([b] + (c + d)) == ([a, b] + c) + d
  {
  }

  lemma HeadersNoBreak()
    ensures NoChar('\n', EventHeaders) && NoChar('\n', DisconnectionHeaders)
    ensures NoChar('\n', ConsolidationHeaders) && NoChar('\n', PercentageHeaders)
    ensures '\n' !in "Análisis de Eventos" && '\n' !in "Gestión de Desconexiones"
    ensures '\n' !in "Consolidación de Misiones" && '\n' !in "Porcentajes"
  {
    assert '\n' !in "Misión" && '\n' !in "Tipo de Dispositivo" && '\n' !in "Estado" && '\n' !in "Cantidad";
    assert '\n' !in "Cantidad de Desconexiones" && '\n' !in "Cantidad de Dispositivos" && '\n' !in "Porcentaje";
  }

  /** The heading of a cycle: an empty line, then `# Análisis para Ciclo N`. */
  lemma HeadingLinesThen(cycleId: nat, rest: string)
    ensures Lines(CycleHeading(cycleId) + rest) == ["", "# Análisis para Ciclo " + NatToString(cycleId)] + Lines(rest)
  {
    var heading := "# Análisis para Ciclo " + NatToString(cycleId);
    HeadingText(cycleId, rest);
    assert '\n' !in heading by {
      assert '\n' !in "# Análisis para Ciclo ";
    }
    LinesCons(heading, rest);
    LinesCons("", heading + "\n" + rest);
  }

  lemma HeadingText(cycleId: nat, rest: string)
    ensures CycleHeading(cycleId) + rest == "" + "\n" + ("# Análisis para Ciclo " + NatToString(cycleId) + "\n" + rest)
  {
  }

  /** The rows of every section of an analysis are free of line breaks. */
  predicate SingleLineRows(a: Analysis, fmt: real -> string) {
    && NoCharIn('\n', EventRows(a.events))
    && NoCharIn('\n', DisconnectionRows(a.disconnections))
    && NoCharIn('\n', ConsolidationRows(a.consolidation))
    && NoCharIn('\n', TableRows(a.percentages, PercentCell(fmt)))
  }

  /** What generate_dashboard appends, line by line: an empty line, the cycle
      heading, then the events, disconnections, consolidation and percentages
      sections in that order, each an empty line, its `##` title, and its table;
      the text ends with a line break. */
  lemma DashboardLines(a: Analysis, cycleId: nat, fmt: real -> string)
    requires SingleLineRows(a, fmt)
    ensures Lines(DashboardText(a, cycleId, fmt)) ==
              ["", "# Análisis para Ciclo " + NatToString(cycleId)]
              + SectionLines("Análisis de Eventos", EventHeaders, EventRows(a.events))
              + SectionLines("Gestión de Desconexiones", DisconnectionHeaders, DisconnectionRows(a.disconnections))
              + SectionLines("Consolidación de Misiones", ConsolidationHeaders, ConsolidationRows(a.consolidation))
              + SectionLines("Porcentajes", PercentageHeaders, TableRows(a.percentages, PercentCell(fmt)))
              + [""]
  {
    var h := CycleHeading(cycleId);
    var s1 := Section("Análisis de Eventos", EventHeaders, EventRows(a.events));
    var s2 := Section("Gestión de Desconexiones", DisconnectionHeaders, DisconnectionRows(a.disconnections));
    var s3 := Section("Consolidación de Misiones", ConsolidationHeaders, ConsolidationRows(a.consolidation));
    var s4 := Section("Porcentajes", PercentageHeaders, TableRows(a.percentages, PercentCell(fmt)));
    var l0 := ["", "# Análisis para Ciclo " + NatToString(cycleId)];
    var l1 := SectionLines("Análisis de Eventos", EventHeaders, EventRows(a.events));
    var l2 := SectionLines("Gestión de Desconexiones", DisconnectionHeaders, DisconnectionRows(a.disconnections));
    var l3 := SectionLines("Consolidación de Misiones", ConsolidationHeaders, ConsolidationRows(a.consolidation));
    var l4 := SectionLines("Porcentajes", PercentageHeaders, TableRows(a.percentages, PercentCell(fmt)));
    HeadersNoBreak();
    assert Lines("") == [""];
    assert s4 + "" == s4;
    SectionLinesThen("Porcentajes", PercentageHeaders, TableRows(a.percentages, PercentCell(fmt)), "");
    SectionLinesThen("Consolidación de Misiones", ConsolidationHeaders, ConsolidationRows(a.consolidation), s4);
    SectionLinesThen("Gestión de Desconexiones", DisconnectionHeaders, DisconnectionRows(a.disconnections), s3 + s4);
    SectionLinesThen("Análisis de Eventos", EventHeaders, EventRows(a.events), s2 + (s3 + s4));
    HeadingLinesThen(cycleId, s1 + (s2 + (s3 + s4)));
    DashboardAssoc(h, s1, s2, s3, s4);
    LinesAssoc(l0, l1, l2, l3, l4, [""]);
  }

  lemma DashboardAssoc(h: string, s1: string, s2: string, s3: string, s4: string)
    ensures h + s1 + s2 + s3 + s4 == h + (s1 + (s2 + (s3 + s4)))
  {
  }

  lemma LinesAssoc(l0: seq<string>, l1: seq<string>, l2: seq<string>, l3: seq<string>, l4: seq<string>, l5: seq<string>)
    ensures l0 + (l1 + (l2 + (l3 + (l4 + l5)))) == l0 + l1 + l2 + l3 + l4 + l5
  {
  }
}
