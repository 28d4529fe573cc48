/** Disconnection management (`ReportGenerator.manage_disconnections`): every
    (mission, device type) pair whose "unknown" counter is strictly greater than
    the threshold is listed under its mission with its exact unknown count. */
module Disconnections {
  import opened Dicts
  import opened Telemetry
  import opened Events

  /** One list entry, `{'device_type': ..., 'unknown_count': ...}`. */
  datatype Disconnection = Disconnection(deviceType: string, unknownCount: nat)

  /** mission -> list of entries; a mission appears only with a non-empty list. */
  type DisconnectionTable = Dict<string, seq<Disconnection>>

  /** The source's `disconnection_threshold`. */
  const DisconnectionThreshold: nat := 1

  /** `state_counts.get('unknown', 0)`. */
  function UnknownCount(c: Counters): nat {
    GetOr(c, "unknown", 0)
  }

  /** Reference definition: the entries of one mission, in device-type order,
      keeping the pairs above the threshold. */
  function Flagged(devices: Dict<string, Counters>): seq<Disconnection> {
    if devices == [] then []
    else
      var (d, c) := devices[|devices| - 1];
      Flagged(devices[..|devices| - 1])
        + if UnknownCount(c) > DisconnectionThreshold then [Disconnection(d, UnknownCount(c))] else []
  }

  /** Reference definition: the missions in table order, each with its flagged
      entries, missions without any entry omitted. */
  function Flag(t: EventTable): DisconnectionTable {
    if t == [] then []
    else
      var (m, devices) := t[|t| - 1];
      Flag(t[..|t| - 1]) + if Flagged(devices) == [] then [] else [(m, Flagged(devices))]
  }

  lemma {:induction false} FlagKeys(t: EventTable)
    requires UniqueKeys(t)
    ensures UniqueKeys(Flag(t))
    ensures forall m :: m in Keys(Flag(t)) ==> m in Keys(t)
  {
    if t != [] {
      var init := t[..|t| - 1];
      SplitLast(t);
      FlagKeys(init);
      var (m, devices) := t[|t| - 1];
      if Flagged(devices) != [] {
        KeysAppend(Flag(init), m, Flagged(devices));
        assert Put(Flag(init), m, Flagged(devices)) == Flag(init) + [(m, Flagged(devices))];
      }
    }
  }

  /** An entry (d, n) is in a mission's list exactly when d is one of its device
      types whose unknown count is n and n exceeds the threshold. */
  lemma {:induction false} FlaggedIff(devices: Dict<string, Counters>, d: string, n: nat)
    requires UniqueKeys(devices)
    ensures Disconnection(d, n) in Flagged(devices) <==>
              d in Keys(devices) && n == UnknownCount(Get(devices, d)) && n > DisconnectionThreshold
  {
    if devices != [] {
      var init := devices[..|devices| - 1];
      var (d', c) := devices[|devices| - 1];
      SplitLast(devices);
      FlaggedIff(init, d, n);
    }
  }

  lemma WellFormedSplit(t: EventTable)
    requires WellFormed(t) && t != []
    ensures WellFormed(t[..|t| - 1]) && DevicesOk(t[|t| - 1].1)
  {
  }

  /** The count table seen through its last mission and the missions before it. */
  lemma LookupSplit(t: EventTable, m: string, d: string)
    requires WellFormed(t) && t != []
    ensures PairPresent(t, m, d) <==>
              if m == t[|t| - 1].0 then d in Keys(t[|t| - 1].1) else PairPresent(t[..|t| - 1], m, d)
    ensures Lookup(t, m, d, "unknown") ==
              if m == t[|t| - 1].0 then UnknownCount(GetOr(t[|t| - 1].1, d, []))
              else Lookup(t[..|t| - 1], m, d, "unknown")
  {
  }

  /** The flagged table seen through the last mission and the missions before it. */
  lemma FlagSplit(t: EventTable, m: string)
    requires UniqueKeys(t) && t != []
    ensures m in Keys(Flag(t)) <==>
              if m == t[|t| - 1].0 then Flagged(t[|t| - 1].1) != [] else m in Keys(Flag(t[..|t| - 1]))
    ensures m in Keys(Flag(t)) ==>
              Get(Flag(t), m) == if m == t[|t| - 1].0 then Flagged(t[|t| - 1].1) else Get(Flag(t[..|t| - 1]), m)
  {
    var init := t[..|t| - 1];
    var last := t[|t| - 1];
    var listed := Flagged(last.1);
    SplitLast(t);
    FlagKeys(init);
    if listed == [] {
      assert Flag(t) == Flag(init);
    } else {
      assert Flag(t) == Flag(init) + [(last.0, listed)];
      assert Flag(t) == Put(Flag(init), last.0, listed);
    }
  }

  /** What manage_disconnections promises: a mission is listed only when it has an
      entry; an entry (d, n) is listed under mission m exactly when (m, d) is in
      the count table, its unknown counter is n, and n is strictly greater than
      the threshold (so a count equal to the threshold is not listed). */
  lemma {:induction false} FlagIff(t: EventTable, m: string, d: string, n: nat)
    requires WellFormed(t)
    ensures UniqueKeys(Flag(t))
    ensures m in Keys(Flag(t)) ==> Get(Flag(t), m) != []
    ensures (m in Keys(Flag(t)) && Disconnection(d, n) in Get(Flag(t), m)) <==>
              PairPresent(t, m, d) && n == Lookup(t, m, d, "unknown") && n > DisconnectionThreshold
  {
    FlagKeys(t);
    if t != [] {
      var init := t[..|t| - 1];
      var (m', devices) := t[|t| - 1];
      WellFormedSplit(t);
      LookupSplit(t, m, d);
      FlagSplit(t, m);
      if m == m' {
        FlaggedIff(devices, d, n);
      } else {
        FlagIff(init, m, d, n);
      }
    }
  }

  /** `manage_disconnections` over the count table: for every mission and device
      type, an entry is appended under the mission (created on first use) when the
      unknown count exceeds the threshold. */
  method ManageDisconnections(t: EventTable) returns (r: DisconnectionTable)
    requires WellFormed(t)
    ensures r == Flag(t)
  {
    r := [];
    for i := 0 to |t|
      invariant r == Flag(t[..i])
    {
      var (m, devices) := t[i];
      assert t[..i + 1][..i] == t[..i];
      assert m !in Keys(Flag(t[..i])) && UniqueKeys(Flag(t[..i])) by {
        FlagKeys(t[..i]);
        assert Keys(t)[i] == m;
      }
      for j := 0 to |devices|
        invariant r == Flag(t[..i]) + if Flagged(devices[..j]) == [] then [] else [(m, Flagged(devices[..j]))]
      {
        var (d, counts) := devices[j];
        assert devices[..j + 1][..j] == devices[..j];
        var unknownCount := GetOr(counts, "unknown", 0);
        ghost var before := Flag(t[..i]);
        ghost var listed := Flagged(devices[..j]);
        assert Flagged(devices[..j + 1]) == listed
          + if unknownCount > DisconnectionThreshold then [Disconnection(d, unknownCount)] else [];
        if unknownCount > DisconnectionThreshold {
          var entry := Disconnection(d, unknownCount);
          PutLast(before, m, listed, listed + [entry]);
          assert Put(before, m, listed) == before + [(m, listed)];
          if m !in Keys(r) {
            r := Put(r, m, []);
          }
          assert r == before + [(m, listed)];
          r := Put(r, m, Get(r, m) + [entry]);
          assert r == before + [(m, listed + [entry])];
        } else {
          assert Flagged(devices[..j + 1]) == listed;
        }
      }
      assert devices[..|devices|] == devices;
    }
    assert t[..|t|] == t;
  }
}
