/** The record producer (`DataGenerator`): one call writes a batch of log files
    for one mission and cycle. The random choices and the timestamp are inputs,
    and SHA-256 is the uninterpreted function `digest`. */
module Generator {
  import opened Telemetry
  import opened Text
  import opened Events
  import opened Platform

  /** `f'APL{mission_code}-{cycle_id:04d}{i:03d}.log'`. */
  function LogFileName(mission: string, cycleId: nat, i: nat): string {
    "APL" + mission + "-" + ZeroPad(cycleId, 4) + ZeroPad(i, 3) + ".log"
  }

  /** Reads mission code, cycle and index back from a log file name: the mission
      ends at the first '-', the index is the last three digits. */
  function ParseLogFileName(name: string): Option<(string, nat, nat)> {
    if |name| < 7 || name[..3] != "APL" || name[|name| - 4..] != ".log" then None
    else
      var body := name[3..|name| - 4];
      if '-' !in body then None
      else
        var k := FirstIndex(body, '-');
        var digits := body[k + 1..];
        if |digits| < 3 || !AllDigits(digits) then None
        else Some((body[..k], DigitsValue(digits[..|digits| - 3]), DigitsValue(digits[|digits| - 3..])))
  }

  /** A log file name is "APL", a body and ".log"; the body is the mission, a '-'
      and the cycle and index digits. */
  lemma LogFileNameFrame(mission: string, cycleId: nat, i: nat)
    ensures var name := LogFileName(mission, cycleId, i);
      && |name| >= 7 && name[..3] == "APL" && name[|name| - 4..] == ".log"
      && name[3..|name| - 4] == mission + ("-" + (ZeroPad(cycleId, 4) + ZeroPad(i, 3)))
  {
    hide ZeroPad, NatToString;
    var c := ZeroPad(cycleId, 4);
    var x := ZeroPad(i, 3);
    ZeroPadSound(cycleId, 4);
    ZeroPadSound(i, 3);
    var digits := c + x;
    var body := mission + ("-" + digits);
    Assoc("APL" + mission + "-", c, x);
    Assoc("APL" + mission, "-", digits);
    Assoc("APL", mission, "-" + digits);
    assert LogFileName(mission, cycleId, i) == "APL" + body + ".log";
    Slices("APL", body, ".log");
  }

  /** The body splits at its first '-', which ends a mission without one. */
  lemma BodySplit(mission: string, digits: string)
    requires '-' !in mission
    ensures var body := mission + ("-" + digits);
      && '-' in body && FirstIndex(body, '-') == |mission|
      && body[..|mission|] == mission && body[|mission| + 1..] == digits
  {
    hide FirstIndex;
    var body := mission + ("-" + digits);
    assert body[|mission|] == '-';
    FirstIndexAfter(mission, '-', "-" + digits);
    Slices(mission, "-", digits);
  }

  /** The last three digits are the index, the ones before them the cycle. */
  lemma DigitsSplit(cycleId: nat, i: nat)
    requires i < 1000
    ensures var digits := ZeroPad(cycleId, 4) + ZeroPad(i, 3);
      && |digits| >= 3 && AllDigits(digits)
      && DigitsValue(digits[..|digits| - 3]) == cycleId && DigitsValue(digits[|digits| - 3..]) == i
  {
    hide ZeroPad, NatToString, DigitsValue;
    var c := ZeroPad(cycleId, 4);
    var x := ZeroPad(i, 3);
    ZeroPadSound(cycleId, 4);
    ZeroPadSound(i, 3);
    assert Pow10(3) == 1000;
    var digits := c + x;
    Slices(c, x, []);
    assert digits[..|digits| - 3] == c;
    assert digits[|digits| - 3..] == x;
  }

  /** The name format is reversible when the mission has no '-' and the index
      fits its three digits. */
  lemma LogFileNameRoundTrip(mission: string, cycleId: nat, i: nat)
    requires '-' !in mission && i < 1000
    ensures ParseLogFileName(LogFileName(mission, cycleId, i)) == Some((mission, cycleId, i))
  {
    hide LogFileName, ZeroPad, NatToString, Zeros, DigitsValue, FirstIndex;
    LogFileNameFrame(mission, cycleId, i);
    BodySplit(mission, ZeroPad(cycleId, 4) + ZeroPad(i, 3));
    DigitsSplit(cycleId, i);
  }

  /** Different (mission, cycle, index) triples give different names, so no file
      of a batch overwrites another, nor a file of another cycle or mission. */
  lemma LogFileNamesDistinct(m: string, c: nat, i: nat, m': string, c': nat, i': nat)
    requires '-' !in m && '-' !in m' && i < 1000 && i' < 1000
    requires (m, c, i) != (m', c', i')
    ensures LogFileName(m, c, i) != LogFileName(m', c', i')
  {
    LogFileNameRoundTrip(m, c, i);
    LogFileNameRoundTrip(m', c', i');
  }

  /** The random choices for one file. */
  datatype Pick = Pick(deviceType: string, deviceStatus: string)

  /** The record of one file; all records of a call share the timestamp. */
  function MakeRecord(timestamp: string, mission: string, p: Pick, digest: string -> string): Record {
    Record(timestamp, mission, p.deviceType, p.deviceStatus,
           digest(timestamp + mission + p.deviceType + p.deviceStatus))
  }

  /** The files one call writes, in order. */
  function Batch(timestamp: string, mission: string, cycleId: nat, picks: seq<Pick>,
                 digest: string -> string): seq<(string, Record)>
  {
    seq(|picks|, i requires 0 <= i < |picks| =>
      (LogFileName(mission, cycleId, i), MakeRecord(timestamp, mission, picks[i], digest)))
  }

  /** Writing files one after another (a later file of the same name wins). */
  function StoreAll(m: map<string, Record>, files: seq<(string, Record)>): map<string, Record> {
    if files == [] then m else StoreAll(m, files[..|files| - 1])[files[|files| - 1].0 := files[|files| - 1].1]
  }

  /** The journal entries of writing the files. */
  function Writes(files: seq<(string, Record)>): (es: seq<Effect>)
    ensures |es| == |files| && forall i :: 0 <= i < |files| ==> es[i] == Wrote(files[i].0)
  {
    seq(|files|, i requires 0 <= i < |files| => Wrote(files[i].0))
  }

  /** Writing the files of a prefix one longer. */
  lemma StoreAllSnoc(m: map<string, Record>, files: seq<(string, Record)>, i: nat)
    requires i < |files|
    ensures StoreAll(m, files[..i + 1]) == StoreAll(m, files[..i])[files[i].0 := files[i].1]
    ensures Writes(files[..i + 1]) == Writes(files[..i]) + [Wrote(files[i].0)]
  {
    assert files[..i + 1][..i] == files[..i];
  }

  /** A valid pick: a device type and a status from the generator's lists. */
  predicate ValidPick(p: Pick) {
    p.deviceType in DeviceTypes && p.deviceStatus in StatusNames
  }

  /** What one call of generate_data_log produces: as many files as picks, under
      pairwise distinct names, file i named with the batch's mission, cycle and
      index i. */
  lemma BatchNames(timestamp: string, mission: string, cycleId: nat, picks: seq<Pick>,
                   digest: string -> string)
    requires '-' !in mission && |picks| <= 100
    ensures var files := Batch(timestamp, mission, cycleId, picks, digest);
      && |files| == |picks|
      && (forall i, j :: 0 <= i < j < |files| ==> files[i].0 != files[j].0)
      && (forall i :: 0 <= i < |files| ==> ParseLogFileName(files[i].0) == Some((mission, cycleId, i)))
  {
    var files := Batch(timestamp, mission, cycleId, picks, digest);
    forall i, j | 0 <= i < j < |files| ensures files[i].0 != files[j].0 {
      LogFileNamesDistinct(mission, cycleId, i, mission, cycleId, j);
    }
    forall i | 0 <= i < |files| ensures ParseLogFileName(files[i].0) == Some((mission, cycleId, i)) {
      LogFileNameRoundTrip(mission, cycleId, i);
    }
  }

  /** Every record of a batch carries the batch's mission and shared timestamp, a
      listed device type and status, and the digest of their concatenation; so the
      whole batch passes analyze_events. */
  lemma BatchRecords(timestamp: string, mission: string, cycleId: nat, picks: seq<Pick>,
                     digest: string -> string)
    requires forall i :: 0 <= i < |picks| ==> ValidPick(picks[i])
    ensures var files := Batch(timestamp, mission, cycleId, picks, digest);
      && (forall i :: 0 <= i < |files| ==>
            && files[i].1.mission == mission && files[i].1.date == timestamp
            && files[i].1.deviceType in DeviceTypes && files[i].1.deviceStatus in StatusNames
            && files[i].1.hash == digest(timestamp + mission + files[i].1.deviceType + files[i].1.deviceStatus))
      && AllValid(seq(|files|, i requires 0 <= i < |files| => files[i].1))
  {
  }

  /** After a batch is written, each of its names holds its own record and every
      other name is as before. */
  lemma {:induction false} StoreAllLookup(m: map<string, Record>, files: seq<(string, Record)>, n: string)
    requires forall i, j :: 0 <= i < j < |files| ==> files[i].0 != files[j].0
    ensures n in StoreAll(m, files) <==> n in m || exists i :: 0 <= i < |files| && files[i].0 == n
    ensures forall i :: 0 <= i < |files| && files[i].0 == n ==> StoreAll(m, files)[n] == files[i].1
    ensures (forall i :: 0 <= i < |files| ==> files[i].0 != n) && n in m ==> StoreAll(m, files)[n] == m[n]
  {
    if files != [] {
      var init := files[..|files| - 1];
      StoreAllLookup(m, init, n);
      if n != files[|files| - 1].0 {
        forall i | 0 <= i < |init| && init[i].0 == n ensures files[i].0 == n {
        }
      }
    }
  }

  class DataGenerator {
    const storagePath: string
    const deviceTypes: seq<string>
    const host: Host

    constructor(storagePath: string, host: Host)
      ensures this.storagePath == storagePath && this.host == host && deviceTypes == DeviceTypes
    {
      this.storagePath := storagePath;
      this.host := host;
      this.deviceTypes := DeviceTypes;
    }

    /** `generate_data_log(mission_code, cycle_id)`: writes one file per pick,
        file i named with index i. `picks` stands for `random.randint(1, 100)`
        and the two `random.choice` calls per file, `timestamp` for the clock. */
    method GenerateDataLog(missionCode: string, cycleId: nat, timestamp: string, picks: seq<Pick>,
                           digest: string -> string)
      requires 1 <= |picks| <= 100
      requires forall i :: 0 <= i < |picks| ==> ValidPick(picks[i])
      modifies host
      ensures host.devices == StoreAll(old(host.devices), Batch(timestamp, missionCode, cycleId, picks, digest))
      ensures host.journal == old(host.journal) + Writes(Batch(timestamp, missionCode, cycleId, picks, digest))
      ensures host.backups == old(host.backups) && host.reports == old(host.reports)
      ensures host.dashboard == old(host.dashboard)
    {
      hide LogFileName, ZeroPad, NatToString, ParseLogFileName;
      var numFiles := |picks|;
      ghost var files := Batch(timestamp, missionCode, cycleId, picks, digest);
      ghost var devices0, journal0 := host.devices, host.journal;
      for i := 0 to numFiles
        invariant host.devices == StoreAll(devices0, files[..i])
        invariant host.journal == journal0 + Writes(files[..i])
        invariant host.backups == old(host.backups) && host.reports == old(host.reports)
        invariant host.dashboard == old(host.dashboard)
      {
        var deviceType := picks[i].deviceType;
        var deviceStatus := picks[i].deviceStatus;
        var data := Record(timestamp, missionCode, deviceType, deviceStatus,
                           digest(timestamp + missionCode + deviceType + deviceStatus));
        var filename := LogFileName(missionCode, cycleId, i);
        assert files[i] == (filename, data);
        host.WriteLog(filename, data);
        StoreAllSnoc(devices0, files, i);
      }
      assert files[..numFiles] == files;
    }
  }
}
