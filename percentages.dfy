/** Percentage calculation (`ReportGenerator.calculate_percentages`): for every
    (mission, device type) pair, each status's share of the pair's events, as a
    percentage. Percentages are exact reals here. */
module Percentages {
  import opened Dicts
  import opened Telemetry
  import opened Events

  /** status -> percentage, for one pair. */
  type Breakdown = Dict<string, real>

  /** mission -> device type -> breakdown. */
  type PercentTable = Dict<string, Dict<string, Breakdown>>

  /** `count / total * 100`. */
  function Percent(count: nat, total: nat): real
    requires total > 0
  {
    count as real / total as real * 100.0
  }

  /** The dictionary comprehension of one pair: every status of the counter maps
      to its percentage of the counter's total. */
  function Shares(c: Counters): (p: Breakdown)
    requires SumValues(c) > 0
    ensures Keys(p) == Keys(c)
  {
    seq(|c|, i requires 0 <= i < |c| => (c[i].0, Percent(c[i].1, SumValues(c))))
  }

  /** `sum(p.values())` for a breakdown. */
  function SumReals(p: Breakdown): real {
    if p == [] then 0.0 else SumReals(p[..|p| - 1]) + p[|p| - 1].1
  }

  /** Every counter is at most the sum of all of them. */
  lemma {:induction false} CounterAtMostTotal(c: Counters, i: nat)
    requires i < |c|
    ensures c[i].1 <= SumValues(c)
  {
    if i < |c| - 1 {
      CounterAtMostTotal(c[..|c| - 1], i);
    }
  }

  /** A part of a positive total is between 0 and 100 percent of it. */
  lemma PercentBounds(count: nat, total: nat)
    requires 0 < total && count <= total
    ensures 0.0 <= Percent(count, total) <= 100.0
  {
    var x := count as real / total as real;
    assert x * total as real == count as real;
    assert x <= 1.0;
  }

  lemma PercentWhole(total: nat)
    requires total > 0
    ensures Percent(total, total) == 100.0
  {
    assert total as real / total as real == 1.0;
  }

  lemma ScaledAdd(a: real, b: real, total: real)
    requires total > 0.0
    ensures a / total * 100.0 + b / total * 100.0 == (a + b) / total * 100.0
  {
  }

  lemma {:induction false} SharesPrefixSum(c: Counters, k: nat)
    requires SumValues(c) > 0 && k <= |c|
    ensures SumReals(Shares(c)[..k]) == Percent(SumValues(c[..k]), SumValues(c))
  {
    if k > 0 {
      SharesPrefixSum(c, k - 1);
      assert Shares(c)[..k][..k - 1] == Shares(c)[..k - 1];
      assert c[..k][..k - 1] == c[..k - 1];
      ScaledAdd(SumValues(c[..k - 1]) as real, c[k - 1].1 as real, SumValues(c) as real);
    }
  }

  /** A pair's percentages are each between 0 and 100 and add up to 100. */
  lemma SharesSound(c: Counters)
    requires SumValues(c) > 0
    ensures forall i :: 0 <= i < |c| ==> 0.0 <= Shares(c)[i].1 <= 100.0
    ensures SumReals(Shares(c)) == 100.0
  {
    var p := Shares(c);
    forall i | 0 <= i < |c| ensures 0.0 <= p[i].1 <= 100.0 {
      CounterAtMostTotal(c, i);
      PercentBounds(c[i].1, SumValues(c));
    }
    SharesPrefixSum(c, |c|);
    assert p[..|c|] == p;
    assert c[..|c|] == c;
    PercentWhole(SumValues(c));
  }

  /** Every pair of the table has at least one event, so no division by zero. */
  ghost predicate PositiveTotals(t: EventTable) {
    forall i, j :: 0 <= i < |t| && 0 <= j < |t[i].1| ==> SumValues(t[i].1[j].1) > 0
  }

  /** Reference definition: the table with every counter replaced by its shares. */
  function PercentagesOf(t: EventTable): PercentTable
    requires PositiveTotals(t)
  {
    seq(|t|, i requires 0 <= i < |t| => (t[i].0, DeviceShares(t[i].1)))
  }

  /** A count table produced by analyze_events has no empty pair. */
  lemma TallyPositive(rs: seq<Record>)
    requires AllValid(rs)
    ensures Tally(rs).Success? && PositiveTotals(Tally(rs).value)
  {
    TallySucceeds(rs);
    var t := Tally(rs).value;
    forall i, j | 0 <= i < |t| && 0 <= j < |t[i].1| ensures SumValues(t[i].1[j].1) > 0 {
      GetAt(t, i);
      assert DevicesOk(t[i].1);
      GetAt(t[i].1, j);
      PairCounts(rs, t[i].0, t[i].1[j].0);
    }
  }

  /** The breakdowns of one mission's device types, in the same order. */
  function DeviceShares(devices: Dict<string, Counters>): (p: Dict<string, Breakdown>)
    requires forall j :: 0 <= j < |devices| ==> SumValues(devices[j].1) > 0
    ensures Keys(p) == Keys(devices)
  {
    seq(|devices|, j requires 0 <= j < |devices| => (devices[j].0, Shares(devices[j].1)))
  }

  /** What calculate_percentages promises: the same missions and device types, in
      the same order, and under each pair its counter's percentages (which lie in
      [0, 100] and add up to 100 by SharesSound). */
  lemma PercentagesLookup(t: EventTable, m: string, d: string)
    requires WellFormed(t) && PositiveTotals(t)
    ensures Keys(PercentagesOf(t)) == Keys(t)
    ensures PairPresent(t, m, d) ==>
      && Keys(Get(PercentagesOf(t), m)) == Keys(Get(t, m))
      && SumValues(Get(Get(t, m), d)) > 0
      && Get(Get(PercentagesOf(t), m), d) == Shares(Get(Get(t, m), d))
  {
    var p := PercentagesOf(t);
    assert Keys(p) == Keys(t);
    if PairPresent(t, m, d) {
      var i := IndexOf(t, m);
      GetAt(t, i);
      GetAt(p, i);
      assert DevicesOk(t[i].1);
      var j := IndexOf(t[i].1, d);
      GetAt(t[i].1, j);
      assert p[i].1 == DeviceShares(t[i].1);
      GetAt(p[i].1, j);
    }
  }

  /** A status's share of its pair, as the comprehension computes it. */
  lemma SharesGet(c: Counters, s: string)
    requires SumValues(c) > 0 && UniqueKeys(c) && s in Keys(c)
    ensures UniqueKeys(Shares(c)) && s in Keys(Shares(c))
    ensures Get(Shares(c), s) == Percent(Get(c, s), SumValues(c))
  {
    SameKeys(Shares(c), c, s);
  }

  /** `total_events`: the number of events of a pair of the table, never 0. */
  function PairTotal(t: EventTable, m: string, d: string): (n: nat)
    requires WellFormed(t) && PositiveTotals(t) && PairPresent(t, m, d)
    ensures n > 0
  {
    PercentagesLookup(t, m, d);
    SumValues(Get(Get(t, m), d))
  }

  /** The body of the inner loop: create the mission's dictionary on first use,
      then store the pair's breakdown under the device type. */
  function StoreShares(r: PercentTable, m: string, d: string, p: Breakdown): PercentTable
    requires UniqueKeys(r) && (m in Keys(r) ==> UniqueKeys(Get(r, m)))
  {
    var r0 := if m !in Keys(r) then Put(r, m, []) else r;
    Put(r0, m, Put(Get(r0, m), d, p))
  }

  /** The partial table of one mission grows by one device type per iteration. */
  lemma StoreStep(before: PercentTable, m: string, devices: Dict<string, Counters>, j: nat)
    requires UniqueKeys(before) && m !in Keys(before)
    requires UniqueKeys(devices) && j < |devices|
    requires forall k :: 0 <= k < |devices| ==> SumValues(devices[k].1) > 0
    ensures var r := before + if j == 0 then [] else [(m, DeviceShares(devices[..j]))];
            && UniqueKeys(r) && (m in Keys(r) ==> UniqueKeys(Get(r, m)))
            && StoreShares(r, m, devices[j].0, Shares(devices[j].1)) == before + [(m, DeviceShares(devices[..j + 1]))]
  {
    var shares := DeviceShares(devices[..j]);
    var (d, c) := devices[j];
    var r := before + if j == 0 then [] else [(m, shares)];
    PutNew(before, m, shares);
    PutLast(before, m, shares, Put(shares, d, Shares(c)));
    assert UniqueKeys(shares) && d !in Keys(shares) by {
      assert Keys(shares) == Keys(devices)[..j];
    }
    PutNew(shares, d, Shares(c));
    assert DeviceShares(devices[..j + 1]) == shares + [(d, Shares(c))];
    if j == 0 {
      assert shares == [];
      assert r == before;
      assert Put(before, m, []) == before + [(m, shares)];
    }
  }

  /** The partial table grows by one mission per iteration of the outer loop. */
  lemma MissionStep(t: EventTable, i: nat)
    requires WellFormed(t) && PositiveTotals(t) && i < |t|
    ensures PositiveTotals(t[..i]) && PositiveTotals(t[..i + 1])
    ensures UniqueKeys(t[i].1) && forall k :: 0 <= k < |t[i].1| ==> SumValues(t[i].1[k].1) > 0
    ensures var before := PercentagesOf(t[..i]);
      && UniqueKeys(before) && t[i].0 !in Keys(before)
      && PercentagesOf(t[..i + 1]) == before + [(t[i].0, DeviceShares(t[i].1))]
  {
    hide Shares, DeviceShares;
    var before := PercentagesOf(t[..i]);
    assert Keys(t)[i] == t[i].0;
    assert Keys(before) == Keys(t[..i]);
    assert DevicesOk(t[i].1);
    assert PercentagesOf(t[..i + 1]) == before + [(t[i].0, DeviceShares(t[i].1))];
  }

  /** `calculate_percentages` over the count table: for every pair, the total is
      the sum of its counters and the pair's entry is the comprehension over its
      counters; the mission's dictionary is created before its first pair. */
  method CalculatePercentages(t: EventTable) returns (r: PercentTable)
    requires WellFormed(t) && PositiveTotals(t)
    ensures r == PercentagesOf(t)
  {
    hide Shares, Percent, SumValues, DeviceShares;
    r := [];
    for i := 0 to |t|
      invariant r == PercentagesOf(t[..i])
    {
      var (m, devices) := t[i];
      ghost var before := r;
      MissionStep(t, i);
      for j := 0 to |devices|
        invariant r == before + if j == 0 then [] else [(m, DeviceShares(devices[..j]))]
      {
        var (d, counts) := devices[j];
        StoreStep(before, m, devices, j);
        ghost var next := StoreShares(r, m, d, Shares(counts));
        var percentageData := Shares(counts);
        if m !in Keys(r) {
          r := Put(r, m, []);
        }
        r := Put(r, m, Put(Get(r, m), d, percentageData));
        assert r == next;
      }
      assert devices[..|devices|] == devices;
    }
    assert t[..|t|] == t;
  }
}
