/** Mission consolidation (`ReportGenerator.consolidate_missions`): for every
    device type seen in any mission, the number of inoperable events (status
    "killed" or "unknown") summed over all missions. */
module Consolidation {
  import opened Dicts
  import opened Telemetry
  import opened Events

  /** device type -> inoperable total, in order of first appearance. */
  type ConsolidationTable = Dict<string, nat>

  /** `state_counts.get('killed', 0) + state_counts.get('unknown', 0)`. */
  function Inoperable(c: Counters): nat {
    GetOr(c, "killed", 0) + GetOr(c, "unknown", 0)
  }

  /** The device types of the table, mission after mission, with repetitions. */
  function FlatTypes(t: EventTable): seq<string> {
    if t == [] then [] else FlatTypes(t[..|t| - 1]) + Keys(t[|t| - 1].1)
  }

  /** Reference definition: the inoperable count of device type d summed over all
      missions (a mission without d contributes nothing). */
  function InoperableTotal(t: EventTable, d: string): nat {
    if t == [] then 0
    else InoperableTotal(t[..|t| - 1], d) + Inoperable(GetOr(t[|t| - 1].1, d, []))
  }

  /** The accumulator after the device types devices[..j] of one more mission
      have been added to the totals of the missions t. */
  ghost predicate Accumulated(r: ConsolidationTable, t: EventTable, devices: Dict<string, Counters>, j: nat)
    requires j <= |devices|
  {
    && UniqueKeys(r)
    && Keys(r) == Dedup(FlatTypes(t) + Keys(devices[..j]))
    && forall k :: GetOr(r, k, 0) == InoperableTotal(t, k) + Inoperable(GetOr(devices[..j], k, []))
  }

  /** The body of the inner loop: create the key at 0 when it is new, then add
      the pair's inoperable count to it. */
  function AddPair(r: ConsolidationTable, d: string, c: Counters): (r': ConsolidationTable)
    requires UniqueKeys(r)
    ensures UniqueKeys(r')
  {
    var r0 := if d !in Keys(r) then Put(r, d, 0) else r;
    Put(r0, d, GetOr(r0, d, 0) + Inoperable(c))
  }

  /** The value side of one inner iteration, for one key k. */
  lemma AccumulateValue(r: ConsolidationTable, t: EventTable, devices: Dict<string, Counters>, j: nat, k: string)
    requires UniqueKeys(r) && UniqueKeys(devices) && j < |devices|
    requires GetOr(r, k, 0) == InoperableTotal(t, k) + Inoperable(GetOr(devices[..j], k, []))
    ensures GetOr(AddPair(r, devices[j].0, devices[j].1), k, 0)
              == InoperableTotal(t, k) + Inoperable(GetOr(devices[..j + 1], k, []))
  {
    var d := devices[j].0;
    var r0 := if d !in Keys(r) then Put(r, d, 0) else r;
    GetOrSnoc(devices, j, k, []);
    GetOrPut(r, d, 0, k, 0);
    GetOrPut(r0, d, GetOr(r0, d, 0) + Inoperable(devices[j].1), k, 0);
  }

  /** The key side of one inner iteration. */
  lemma AccumulateKeys(r: ConsolidationTable, t: EventTable, devices: Dict<string, Counters>, j: nat)
    requires UniqueKeys(r) && j < |devices|
    requires Keys(r) == Dedup(FlatTypes(t) + Keys(devices[..j]))
    ensures Keys(AddPair(r, devices[j].0, devices[j].1)) == Dedup(FlatTypes(t) + Keys(devices[..j + 1]))
  {
    var d := devices[j].0;
    assert devices[..j + 1] == devices[..j] + [devices[j]];
    KeysAppend(devices[..j], d, devices[j].1);
    assert FlatTypes(t) + Keys(devices[..j + 1]) == (FlatTypes(t) + Keys(devices[..j])) + [d];
    DedupAppend(FlatTypes(t) + Keys(devices[..j]), d);
  }

  lemma AccumulateStep(r: ConsolidationTable, t: EventTable, devices: Dict<string, Counters>, j: nat)
    requires UniqueKeys(devices) && j < |devices| && Accumulated(r, t, devices, j)
    ensures Accumulated(AddPair(r, devices[j].0, devices[j].1), t, devices, j + 1)
  {
    AccumulateKeys(r, t, devices, j);
    forall k {
      AccumulateValue(r, t, devices, j, k);
    }
  }

  /** `consolidate_missions` over the count table: every device type seen in any
      mission is a key, in order of first appearance, including those with no
      inoperable event, and its value is its fleet-wide inoperable total. */
  method ConsolidateMissions(t: EventTable) returns (r: ConsolidationTable)
    requires WellFormed(t)
    ensures UniqueKeys(r)
    ensures Keys(r) == Dedup(FlatTypes(t))
    ensures forall i :: 0 <= i < |r| ==> r[i].1 == InoperableTotal(t, r[i].0)
  {
    r := [];
    for i := 0 to |t|
      invariant UniqueKeys(r)
      invariant Keys(r) == Dedup(FlatTypes(t[..i]))
      invariant forall k :: GetOr(r, k, 0) == InoperableTotal(t[..i], k)
    {
      var (m, devices) := t[i];
      assert t[..i + 1][..i] == t[..i];
      assert DevicesOk(devices);
      assert FlatTypes(t[..i]) + Keys(devices[..0]) == FlatTypes(t[..i]);
      for j := 0 to |devices|
        invariant Accumulated(r, t[..i], devices, j)
      {
        var (d, counts) := devices[j];
        AccumulateStep(r, t[..i], devices, j);
        ghost var next := AddPair(r, d, counts);
        var inoperableCount := GetOr(counts, "killed", 0) + GetOr(counts, "unknown", 0);
        if d !in Keys(r) {
          r := Put(r, d, 0);
        }
        r := Put(r, d, GetOr(r, d, 0) + inoperableCount);
        assert r == next;
      }
      assert devices[..|devices|] == devices;
      assert FlatTypes(t[..i + 1]) == FlatTypes(t[..i]) + Keys(devices);
    }
    assert t[..|t|] == t;
    forall i | 0 <= i < |r| ensures r[i].1 == InoperableTotal(t, r[i].0) {
      GetAt(r, i);
    }
  }
}
