/** The analysis of one cycle (`ReportGenerator.analyze_and_manage`): the count
    table and the three analyses derived from it. */
module Analysis {
  import opened Dicts
  import opened Telemetry
  import opened Events
  import opened Disconnections
  import opened Consolidation
  import opened Percentages

  /** The four entries of `analysis_data`. */
  datatype Analysis = Analysis(
    events: EventTable,
    disconnections: DisconnectionTable,
    consolidation: ConsolidationTable,
    percentages: PercentTable)

  /** c is the consolidation of t: every device type of t once, in order of
      first appearance, with its fleet-wide inoperable total. */
  ghost predicate IsConsolidation(t: EventTable, c: ConsolidationTable) {
    && UniqueKeys(c)
    && Keys(c) == Dedup(FlatTypes(t))
    && forall i :: 0 <= i < |c| ==> c[i].1 == InoperableTotal(t, c[i].0)
  }

  /** a is the analysis of the records: their count table and its three derived
      analyses. */
  ghost predicate Describes(records: seq<Record>, a: Analysis) {
    && Tally(records) == Success(a.events)
    && WellFormed(a.events)
    && a.disconnections == Flag(a.events)
    && IsConsolidation(a.events, a.consolidation)
    && PositiveTotals(a.events)
    && a.percentages == PercentagesOf(a.events)
  }

  lemma FailureIsBadStatus(records: seq<Record>)
    ensures Tally(records).Failure? ==> Tally(records).error !in StatusNames
  {
    TallyFails(records);
  }

  /** `analyze_and_manage` over the records of one enumeration of the devices
      directory: the count table first (raising KeyError on a bad status), then
      the disconnections, the consolidation and the percentages of that table. */
  method AnalyzeAndManage(records: seq<Record>) returns (r: Result<Analysis>)
    ensures r.Success? <==> AllValid(records)
    ensures r.Failure? ==> Tally(records).Failure? && r.error == Tally(records).error && r.error !in StatusNames
    ensures r.Success? ==> Describes(records, r.value)
  {
    var events := AnalyzeEvents(records);
    if events.Failure? {
      FailureIsBadStatus(records);
      return Failure(events.error);
    }
    assert AllValid(records);
    var t := events.value;
    TallyPositive(records);
    var disconnections := ManageDisconnections(t);
    var consolidation := ConsolidateMissions(t);
    var percentages := CalculatePercentages(t);
    r := Success(Analysis(t, disconnections, consolidation, percentages));
    assert Describes(records, r.value);
  }
}
