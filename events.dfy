/** Event counting (`ReportGenerator.analyze_events`): the records read from the
    devices directory are folded into a nested count table
    mission -> device type -> status -> count. */
module Events {
  import opened Dicts
  import opened Telemetry

  /** status name -> count; keys exactly StatusNames, in that order. */
  type Counters = Dict<string, nat>
  /** mission -> device type -> counters. */
  type EventTable = Dict<string, Dict<string, Counters>>

  /** The counter dictionary a new (mission, device type) pair starts with. */
  function ZeroCounters(): (c: Counters)
    ensures Keys(c) == StatusNames && UniqueKeys(c)
    ensures forall i :: 0 <= i < |c| ==> c[i].1 == 0
  {
    [("excellent", 0), ("good", 0), ("warning", 0), ("faulty", 0), ("killed", 0), ("unknown", 0)]
  }

  /** A counter dictionary has exactly the six status keys, in order. */
  ghost predicate CountersOk(c: Counters) {
    Keys(c) == StatusNames && UniqueKeys(c)
  }

  /** A mission's device dictionary: distinct keys, not empty, valid counters. */
  ghost predicate DevicesOk(devices: Dict<string, Counters>) {
    && UniqueKeys(devices)
    && devices != []
    && forall j :: 0 <= j < |devices| ==> CountersOk(devices[j].1)
  }

  /** Shape of every table analyze_events can return. */
  ghost predicate WellFormed(t: EventTable) {
    UniqueKeys(t) && forall i :: 0 <= i < |t| ==> DevicesOk(t[i].1)
  }

  lemma WellFormedGet(t: EventTable, m: string)
    requires WellFormed(t)
    ensures m in Keys(t) ==> DevicesOk(Get(t, m))
    ensures m in Keys(t) ==> forall d :: d in Keys(Get(t, m)) ==> CountersOk(Get(Get(t, m), d))
  {
  }

  lemma DevicesPut(devices: Dict<string, Counters>, d: string, c: Counters)
    requires UniqueKeys(devices) && CountersOk(c)
    requires forall j :: 0 <= j < |devices| ==> CountersOk(devices[j].1)
    ensures DevicesOk(Put(devices, d, c))
  {
  }

  lemma TablePut(t: EventTable, m: string, devices: Dict<string, Counters>)
    requires WellFormed(t) && DevicesOk(devices)
    ensures WellFormed(Put(t, m, devices))
  {
  }

  /** `events[m][d][s]`, 0 where any level is missing. */
  function Lookup(t: EventTable, m: string, d: string, s: string): nat {
    GetOr(GetOr(GetOr(t, m, []), d, []), s, 0)
  }

  predicate PairPresent(t: EventTable, m: string, d: string) {
    m in Keys(t) && d in Keys(Get(t, m))
  }

  lemma WellFormedGetOr(t: EventTable, m: string, d: string)
    requires WellFormed(t)
    ensures UniqueKeys(GetOr(t, m, []))
    ensures forall j :: 0 <= j < |GetOr(t, m, [])| ==> CountersOk(GetOr(t, m, [])[j].1)
    ensures CountersOk(GetOr(GetOr(t, m, []), d, ZeroCounters()))
  {
  }

  /** `events[m][d][s] += 1` after initialising the missing levels; the table
      keeps its shape. */
  function Bump(t: EventTable, m: string, d: string, s: string): (r: EventTable)
    requires WellFormed(t) && s in StatusNames
    ensures WellFormed(r)
  {
    WellFormedGetOr(t, m, d);
    var devices := GetOr(t, m, []);
    var counters := GetOr(devices, d, ZeroCounters());
    var c' := Put(counters, s, Get(counters, s) + 1);
    DevicesPut(devices, d, c');
    TablePut(t, m, Put(devices, d, c'));
    Put(t, m, Put(devices, d, c'))
  }

  /** A bump adds one to exactly the bumped counter. */
  lemma BumpLookup(t: EventTable, m: string, d: string, s: string, m': string, d': string, s': string)
    requires WellFormed(t) && s in StatusNames
    ensures Lookup(Bump(t, m, d, s), m', d', s') ==
              Lookup(t, m', d', s') + if m' == m && d' == d && s' == s then 1 else 0
  {
    if m' != m {
      BumpOtherMission(t, m, d, s, m', d', s');
    } else if d' != d {
      BumpOtherDevice(t, m, d, s, d', s');
    } else {
      BumpSameDevice(t, m, d, s, s');
    }
  }

  lemma BumpOtherMission(t: EventTable, m: string, d: string, s: string, m': string, d': string, s': string)
    requires WellFormed(t) && s in StatusNames && m' != m
    ensures Lookup(Bump(t, m, d, s), m', d', s') == Lookup(t, m', d', s')
  {
  }

  lemma BumpOtherDevice(t: EventTable, m: string, d: string, s: string, d': string, s': string)
    requires WellFormed(t) && s in StatusNames && d' != d
    ensures Lookup(Bump(t, m, d, s), m, d', s') == Lookup(t, m, d', s')
  {
  }

  lemma BumpSameDevice(t: EventTable, m: string, d: string, s: string, s': string)
    requires WellFormed(t) && s in StatusNames
    ensures Lookup(Bump(t, m, d, s), m, d, s') == Lookup(t, m, d, s') + if s' == s then 1 else 0
  {
  }

  lemma CounterPut(c: Counters, s: string, s': string)
    requires CountersOk(c) && s in StatusNames
    ensures s in Keys(c)
    ensures GetOr(Put(c, s, Get(c, s) + 1), s', 0) == GetOr(c, s', 0) + if s' == s then 1 else 0
  {
  }

  lemma ZeroLookup(c: Counters, s: string)
    requires c == ZeroCounters()
    ensures GetOr(c, s, 0) == 0
  {
  }

  /** One record's effect on the table: initialise the mission and the device
      type if absent, then increment the status counter; a status that is not one
      of the six keys raises KeyError. */
  function Increment(t: EventTable, r: Record): (res: Result<EventTable>)
    requires WellFormed(t)
    ensures res.Success? <==> r.deviceStatus in StatusNames
    ensures res.Failure? ==> res.error == r.deviceStatus
    ensures res.Success? ==> WellFormed(res.value)
  {
    WellFormedGetOr(t, r.mission, r.deviceType);
    var counters := GetOr(GetOr(t, r.mission, []), r.deviceType, ZeroCounters());
    if r.deviceStatus in Keys(counters) then
      Success(Bump(t, r.mission, r.deviceType, r.deviceStatus))
    else
      Failure(r.deviceStatus)
  }

  /** The table analyze_events builds from the records in enumeration order. */
  function Tally(rs: seq<Record>): (res: Result<EventTable>)
    ensures res.Success? ==> WellFormed(res.value)
  {
    if rs == [] then Success([])
    else
      match Tally(rs[..|rs| - 1])
      case Failure(e) => Failure(e)
      case Success(t) => Increment(t, rs[|rs| - 1])
  }

  // ---------------------------------------------------------------------------
  // Reference definitions: what the table should contain, stated over the records.

  predicate AllValid(rs: seq<Record>) {
    forall k :: 0 <= k < |rs| ==> rs[k].deviceStatus in StatusNames
  }

  /** Number of records with mission m, device type d and status s. */
  function CountOf(rs: seq<Record>, m: string, d: string, s: string): nat {
    if rs == [] then 0
    else
      var r := rs[|rs| - 1];
      CountOf(rs[..|rs| - 1], m, d, s) + if r.mission == m && r.deviceType == d && r.deviceStatus == s then 1 else 0
  }

  /** Number of records with mission m and device type d. */
  function CountPair(rs: seq<Record>, m: string, d: string): nat {
    if rs == [] then 0
    else
      var r := rs[|rs| - 1];
      CountPair(rs[..|rs| - 1], m, d) + if r.mission == m && r.deviceType == d then 1 else 0
  }

  /** The missions of the records, in order (with repetitions). */
  function Missions(rs: seq<Record>): seq<string> {
    if rs == [] then [] else Missions(rs[..|rs| - 1]) + [rs[|rs| - 1].mission]
  }

  /** The device types of the records of mission m, in order (with repetitions). */
  function TypesOf(rs: seq<Record>, m: string): seq<string> {
    if rs == [] then []
    else
      var r := rs[|rs| - 1];
      TypesOf(rs[..|rs| - 1], m) + if r.mission == m then [r.deviceType] else []
  }

  /** The table t is the count table of rs: missions in order of first appearance,
      within a mission the device types in order of first appearance, and every
      counter equal to the number of matching records. */
  ghost predicate Agrees(rs: seq<Record>, t: EventTable) {
    && WellFormed(t)
    && Keys(t) == Dedup(Missions(rs))
    && (forall m :: m in Keys(t) ==> Keys(Get(t, m)) == Dedup(TypesOf(rs, m)))
    && (forall m, d, s :: Lookup(t, m, d, s) == CountOf(rs, m, d, s))
  }

  lemma IncrementMissions(rs: seq<Record>, t: EventTable, r: Record)
    requires WellFormed(t) && Keys(t) == Dedup(Missions(rs)) && r.deviceStatus in StatusNames
    ensures Increment(t, r).Success? && Keys(Increment(t, r).value) == Dedup(Missions(rs + [r]))
  {
    WellFormedGetOr(t, r.mission, r.deviceType);
    assert (rs + [r])[..|rs|] == rs;
    DedupAppend(Missions(rs), r.mission);
  }

  /** The keys a bump leaves: the bumped mission and device type are added when
      new, every other key list is unchanged. */
  lemma BumpKeys(t: EventTable, m: string, d: string, s: string, m': string)
    requires WellFormed(t) && s in StatusNames
    ensures m' in Keys(Bump(t, m, d, s)) <==> m' in Keys(t) || m' == m
    ensures m' in Keys(Bump(t, m, d, s)) ==>
              Keys(Get(Bump(t, m, d, s), m')) ==
                if m' != m then Keys(Get(t, m'))
                else if d in Keys(GetOr(t, m, [])) then Keys(GetOr(t, m, []))
                else Keys(GetOr(t, m, [])) + [d]
  {
  }

  lemma IncrementTypes(rs: seq<Record>, t: EventTable, r: Record)
    requires WellFormed(t) && Keys(t) == Dedup(Missions(rs)) && r.deviceStatus in StatusNames
    requires forall m :: m in Keys(t) ==> Keys(Get(t, m)) == Dedup(TypesOf(rs, m))
    ensures Increment(t, r).Success?
    ensures forall m :: m in Keys(Increment(t, r).value) ==>
              Keys(Get(Increment(t, r).value, m)) == Dedup(TypesOf(rs + [r], m))
  {
    var rs' := rs + [r];
    assert rs'[..|rs|] == rs;
    WellFormedGetOr(t, r.mission, r.deviceType);
    var t' := Increment(t, r).value;
    assert t' == Bump(t, r.mission, r.deviceType, r.deviceStatus);
    hide Bump, CountOf, Lookup;
    forall m | m in Keys(t') ensures Keys(Get(t', m)) == Dedup(TypesOf(rs', m)) {
      BumpKeys(t, r.mission, r.deviceType, r.deviceStatus, m);
      if m == r.mission {
        DedupAppend(TypesOf(rs, m), r.deviceType);
        assert TypesOf(rs', m) == TypesOf(rs, m) + [r.deviceType];
        if m !in Keys(t) {
          MissionOfType(rs, m);
        }
      } else {
        assert TypesOf(rs', m) == TypesOf(rs, m);
      }
    }
  }

  lemma IncrementLookup(rs: seq<Record>, t: EventTable, r: Record)
    requires WellFormed(t) && r.deviceStatus in StatusNames
    requires forall m, d, s :: Lookup(t, m, d, s) == CountOf(rs, m, d, s)
    ensures Increment(t, r).Success?
    ensures forall m, d, s :: Lookup(Increment(t, r).value, m, d, s) == CountOf(rs + [r], m, d, s)
  {
    var rs' := rs + [r];
    assert rs'[..|rs|] == rs;
    WellFormedGetOr(t, r.mission, r.deviceType);
    var t' := Increment(t, r).value;
    assert t' == Bump(t, r.mission, r.deviceType, r.deviceStatus);
    forall m, d, s ensures Lookup(t', m, d, s) == CountOf(rs', m, d, s) {
      BumpLookup(t, r.mission, r.deviceType, r.deviceStatus, m, d, s);
    }
  }

  lemma IncrementAgrees(rs: seq<Record>, t: EventTable, r: Record)
    requires Agrees(rs, t) && r.deviceStatus in StatusNames
    ensures Increment(t, r).Success? && Agrees(rs + [r], Increment(t, r).value)
  {
    IncrementMissions(rs, t, r);
    IncrementTypes(rs, t, r);
    IncrementLookup(rs, t, r);
  }

  lemma MissionOfType(rs: seq<Record>, m: string)
    requires m !in Missions(rs)
    ensures TypesOf(rs, m) == []
  {
    if rs != [] {
      assert Missions(rs) == Missions(rs[..|rs| - 1]) + [rs[|rs| - 1].mission];
      MissionOfType(rs[..|rs| - 1], m);
    }
  }

  /** analyze_events as a function: it succeeds exactly when every status is one
      of the six keys, and then the table is the count table of the records. */
  lemma {:induction false} TallySucceeds(rs: seq<Record>)
    ensures Tally(rs).Success? <==> AllValid(rs)
    ensures Tally(rs).Success? ==> Agrees(rs, Tally(rs).value)
  {
    if rs == [] {
      assert Agrees(rs, []);
    } else {
      var init := rs[..|rs| - 1];
      var r := rs[|rs| - 1];
      assert rs == init + [r];
      TallySucceeds(init);
      assert AllValid(rs) <==> AllValid(init) && r.deviceStatus in StatusNames by {
        if AllValid(init) && r.deviceStatus in StatusNames {
          forall k | 0 <= k < |rs| ensures rs[k].deviceStatus in StatusNames {
            if k < |init| { assert rs[k] == init[k]; }
          }
        }
      }
      if Tally(init).Success? && r.deviceStatus in StatusNames {
        IncrementAgrees(init, Tally(init).value, r);
      }
    }
  }

  /** On failure the error is the status of the first record whose status is not
      one of the six keys (the KeyError raised by the increment). */
  lemma {:induction false} TallyFails(rs: seq<Record>)
    ensures Tally(rs).Failure? ==>
      exists k :: 0 <= k < |rs| && AllValid(rs[..k]) && rs[k].deviceStatus == Tally(rs).error
                  && Tally(rs).error !in StatusNames
  {
    if rs != [] {
      var init := rs[..|rs| - 1];
      var r := rs[|rs| - 1];
      TallyFails(init);
      if Tally(init).Failure? {
        var k :| 0 <= k < |init| && AllValid(init[..k]) && init[k].deviceStatus == Tally(init).error
                 && Tally(init).error !in StatusNames;
        assert rs[..k] == init[..k];
      } else if Tally(rs).Failure? {
        TallySucceeds(init);
        assert rs[..|rs| - 1] == init;
      }
    }
  }

  /** Once a prefix of the records has raised, so has the whole enumeration. */
  lemma {:induction false} TallyFailureSticks(rs: seq<Record>, i: nat)
    requires i <= |rs| && Tally(rs[..i]).Failure?
    ensures Tally(rs) == Tally(rs[..i])
    decreases |rs| - i
  {
    if i < |rs| {
      assert rs[..i + 1][..i] == rs[..i];
      TallyFailureSticks(rs, i + 1);
    } else {
      assert rs[..i] == rs;
    }
  }

  lemma TypesOfCount(rs: seq<Record>, m: string, d: string)
    ensures d in TypesOf(rs, m) <==> CountPair(rs, m, d) > 0
    ensures CountPair(rs, m, d) > 0 ==> m in Missions(rs)
  {
    if rs != [] {
      TypesOfCount(rs[..|rs| - 1], m, d);
    }
  }

  /** With every status valid, the six status counts of a pair add up to the
      number of records of that pair. */
  lemma {:induction false} StatusCountsSum(rs: seq<Record>, m: string, d: string)
    requires AllValid(rs)
    ensures CountOf(rs, m, d, "excellent") + CountOf(rs, m, d, "good") + CountOf(rs, m, d, "warning")
            + CountOf(rs, m, d, "faulty") + CountOf(rs, m, d, "killed") + CountOf(rs, m, d, "unknown")
            == CountPair(rs, m, d)
  {
    if rs != [] {
      var init := rs[..|rs| - 1];
      assert AllValid(init) by {
        forall k | 0 <= k < |init| ensures init[k].deviceStatus in StatusNames {
          assert init[k] == rs[k];
        }
      }
      assert rs[|rs| - 1].deviceStatus in StatusNames;
      StatusCountsSum(init, m, d);
    }
  }

  lemma SumSix(c: Counters)
    requires |c| == 6
    ensures SumValues(c) == c[0].1 + c[1].1 + c[2].1 + c[3].1 + c[4].1 + c[5].1
  {
    assert c[..5][..4] == c[..4] && c[..4][..3] == c[..3] && c[..3][..2] == c[..2];
    assert c[..2][..1] == c[..1] && c[..1][..0] == [];
    assert SumValues(c[..1]) == c[0].1;
    assert SumValues(c[..2]) == c[0].1 + c[1].1;
    assert SumValues(c[..3]) == c[0].1 + c[1].1 + c[2].1;
    assert SumValues(c[..4]) == c[0].1 + c[1].1 + c[2].1 + c[3].1;
    assert SumValues(c[..5]) == c[0].1 + c[1].1 + c[2].1 + c[3].1 + c[4].1;
  }

  /** The promises of analyze_events about one (mission, device type) pair: the
      pair is in the table exactly when some record has it; its counter dictionary
      then has the six status keys in order, each counter is the number of records
      with that status, and the six counters add up to the number of records of
      the pair. */
  lemma PairCounts(rs: seq<Record>, m: string, d: string)
    requires AllValid(rs)
    ensures Tally(rs).Success?
    ensures PairPresent(Tally(rs).value, m, d) <==> CountPair(rs, m, d) > 0
    ensures PairPresent(Tally(rs).value, m, d) ==>
      var c: Counters := Get(Get(Tally(rs).value, m), d);
      && Keys(c) == StatusNames
      && (forall i :: 0 <= i < |c| ==> c[i].1 == CountOf(rs, m, d, StatusNames[i]))
      && SumValues(c) == CountPair(rs, m, d)
  {
    TallySucceeds(rs);
    var t := Tally(rs).value;
    TypesOfCount(rs, m, d);
    if PairPresent(t, m, d) {
      WellFormedGet(t, m);
      var c: Counters := Get(Get(t, m), d);
      forall i | 0 <= i < |c| ensures c[i].1 == CountOf(rs, m, d, StatusNames[i]) {
        GetAt(c, i);
        assert Lookup(t, m, d, StatusNames[i]) == c[i].1;
      }
      SumSix(c);
      StatusCountsSum(rs, m, d);
    }
  }

  /** `analyze_events`: the records of the enumerated files, in enumeration order,
      folded into the count table. The two initialisations (`if mission not in`,
      `if device_type not in`) are the two GetOr defaults; the increment raises
      KeyError when the status is not a counter key. */
  method AnalyzeEvents(records: seq<Record>) returns (r: Result<EventTable>)
    ensures r == Tally(records)
    ensures r.Success? <==> AllValid(records)
    ensures r.Success? ==> Agrees(records, r.value)
  {
    var table: EventTable := [];
    for i := 0 to |records|
      invariant Tally(records[..i]) == Success(table)
    {
      var rec := records[i];
      assert records[..i + 1][..i] == records[..i];
      WellFormedGetOr(table, rec.mission, rec.deviceType);
      var devices := GetOr(table, rec.mission, []);
      var counters := GetOr(devices, rec.deviceType, ZeroCounters());
      if rec.deviceStatus !in Keys(counters) {
        r := Failure(rec.deviceStatus);
        TallyFailureSticks(records, i + 1);
        TallySucceeds(records);
        return;
      }
      counters := Put(counters, rec.deviceStatus, Get(counters, rec.deviceStatus) + 1);
      devices := Put(devices, rec.deviceType, counters);
      table := Put(table, rec.mission, devices);
    }
    assert records[..|records|] == records;
    r := Success(table);
    TallySucceeds(records);
  }
}
