/** Process snapshots extracted from the untyped `Resources.Processes.Snaps`
    list of a host metadata payload (intake/process.go). Every Go type
    assertion or index that would panic is a `None` here: one malformed entry
    fails the whole extraction, there is no partial result. */
module Processes {
  import opened Optional
  import opened Json
  import opened Records

  /** One process row. The numeric fields are float64 in Go. */
  datatype Process = Process(
    username: string,
    cpuPct: real,
    memPct: real,
    vms: real,
    rss: real,
    name: string,
    pids: real)

  datatype ProcessSnapshot = ProcessSnapshot(timestamp: real, processList: seq<Process>)

  /** The shape `newProcess` accepts: at least seven items, typed
      string, number, number, number, number, string, number. */
  predicate IsProcessRow(data: seq<JValue>) {
    && |data| >= 7
    && data[0].JStr? && data[1].JNum? && data[2].JNum? && data[3].JNum?
    && data[4].JNum? && data[5].JStr? && data[6].JNum?
  }

  /** newProcess: positions 0..6 become the seven fields; anything after
      position 6 is ignored. */
  function NewProcess(data: seq<JValue>): (r: Option<Process>)
    ensures r.Some? <==> IsProcessRow(data)
    ensures r.Some? ==> r.value.username == data[0].s && r.value.name == data[5].s
    ensures r.Some? ==> r.value.cpuPct == data[1].n && r.value.memPct == data[2].n
    ensures r.Some? ==> r.value.vms == data[3].n && r.value.rss == data[4].n && r.value.pids == data[6].n
  {
    if IsProcessRow(data) then
      Some(Process(data[0].s, data[1].n, data[2].n, data[3].n, data[4].n, data[5].s, data[6].n))
    else None
  }

  /** The loop over `process_list`: each entry must be an array holding a
      valid row. */
  function NewProcessList(plist: seq<JValue>): (r: Option<seq<Process>>)
    ensures r.Some? <==> forall i :: 0 <= i < |plist| ==> plist[i].JArr? && NewProcess(plist[i].items).Some?
    ensures r.Some? ==> |r.value| == |plist|
    ensures r.Some? ==> forall i :: 0 <= i < |plist| ==> NewProcess(plist[i].items) == Some(r.value[i])
  {
    if |plist| == 0 then Some([])
    else if !plist[0].JArr? then None
    else
      match NewProcess(plist[0].items)
      case None => None
      case Some(p) =>
        match NewProcessList(plist[1..])
        case None =>
          assert forall i :: 1 <= i < |plist| ==> plist[i] == plist[1..][i - 1];
          None
        case Some(ps) =>
          assert forall i :: 1 <= i < |plist| ==> plist[i] == plist[1..][i - 1];
          Some([p] + ps)
  }

  /** NewProcessSnapshot: `[timestamp, [row, ...], ...]`. Elements of the outer
      array after index 1 are ignored. */
  function NewProcessSnapshot(raw: JValue): (r: Option<ProcessSnapshot>)
    ensures r.Some? <==>
      && raw.JArr? && |raw.items| >= 2
      && raw.items[0].JNum? && raw.items[1].JArr?
      && NewProcessList(raw.items[1].items).Some?
    ensures r.Some? ==> r.value.timestamp == raw.items[0].n
    ensures r.Some? ==> Some(r.value.processList) == NewProcessList(raw.items[1].items)
  {
    if !raw.JArr? || |raw.items| < 2 || !raw.items[1].JArr? then None
    else
      match NewProcessList(raw.items[1].items)
      case None => None
      case Some(ps) =>
        if raw.items[0].JNum? then Some(ProcessSnapshot(raw.items[0].n, ps)) else None
  }

  /** GetProcessSnapshots: one snapshot per raw element, in order; one bad
      element fails the lot. */
  function GetProcessSnapshots(hm: HostMeta): (r: Option<seq<ProcessSnapshot>>)
    ensures r.Some? <==> forall i :: 0 <= i < |hm.snaps| ==> NewProcessSnapshot(hm.snaps[i]).Some?
    ensures r.Some? ==> |r.value| == |hm.snaps|
    ensures r.Some? ==> forall i :: 0 <= i < |hm.snaps| ==> NewProcessSnapshot(hm.snaps[i]) == Some(r.value[i])
  {
    SnapshotsOf(hm.snaps)
  }

  function SnapshotsOf(raws: seq<JValue>): (r: Option<seq<ProcessSnapshot>>)
    ensures r.Some? <==> forall i :: 0 <= i < |raws| ==> NewProcessSnapshot(raws[i]).Some?
    ensures r.Some? ==> |r.value| == |raws|
    ensures r.Some? ==> forall i :: 0 <= i < |raws| ==> NewProcessSnapshot(raws[i]) == Some(r.value[i])
  {
    if |raws| == 0 then Some([])
    else
      match NewProcessSnapshot(raws[0])
      case None => None
      case Some(s) =>
        assert forall i :: 1 <= i < |raws| ==> raws[i] == raws[1..][i - 1];
        match SnapshotsOf(raws[1..])
        case None => None
        case Some(ss) => Some([s] + ss)
  }

  /** The wire form of a process row and of a snapshot, as the agent sends
      them. */
  function EncodeProcess(p: Process): JValue {
    JArr([JStr(p.username), JNum(p.cpuPct), JNum(p.memPct), JNum(p.vms), JNum(p.rss),
          JStr(p.name), JNum(p.pids)])
  }

  function EncodeProcessList(ps: seq<Process>): (r: seq<JValue>)
    ensures |r| == |ps|
  {
    if |ps| == 0 then [] else [EncodeProcess(ps[0])] + EncodeProcessList(ps[1..])
  }

  function EncodeSnapshot(s: ProcessSnapshot): JValue {
    JArr([JNum(s.timestamp), JArr(EncodeProcessList(s.processList))])
  }

  lemma {:induction false} ProcessListRoundTrip(ps: seq<Process>)
    ensures NewProcessList(EncodeProcessList(ps)) == Some(ps)
    decreases |ps|
  {
    if |ps| > 0 {
      ProcessListRoundTrip(ps[1..]);
      assert EncodeProcessList(ps)[1..] == EncodeProcessList(ps[1..]);
      assert [ps[0]] + ps[1..] == ps;
    }
  }

  /** Decoding the wire form of a snapshot gives the snapshot back. */
  lemma SnapshotRoundTrip(s: ProcessSnapshot)
    ensures NewProcessSnapshot(EncodeSnapshot(s)) == Some(s)
  {
    ProcessListRoundTrip(s.processList);
  }

  /** Items of a row after position 6 do not matter. */
  lemma ExtraRowItemsIgnored(data: seq<JValue>, extra: seq<JValue>)
    requires |data| >= 7
    ensures NewProcess(data + extra) == NewProcess(data)
  {
    assert (data + extra)[..7] == data[..7];
  }

  /** Elements of the outer array after index 1 do not matter. */
  lemma ExtraSnapshotItemsIgnored(items: seq<JValue>, extra: seq<JValue>)
    requires |items| >= 2
    ensures NewProcessSnapshot(JArr(items + extra)) == NewProcessSnapshot(JArr(items))
  {
    assert (items + extra)[0] == items[0] && (items + extra)[1] == items[1];
  }

  /** A five-item row, the shape the doc comment of `NewProcessSnapshot`
      describes, is rejected: the code reads seven. */
  lemma FiveItemRowRejected(u: string, cpu: real, mem: real, vms: real, rss: real)
    ensures NewProcessSnapshot(JArr([JNum(0.0), JArr([JArr([JStr(u), JNum(cpu), JNum(mem), JNum(vms), JNum(rss)])])])) == None
  {
    var row := JArr([JStr(u), JNum(cpu), JNum(mem), JNum(vms), JNum(rss)]);
    assert !IsProcessRow(row.items);
    assert [row][0] == row;
  }

  /** The host metadata fixture: one snapshot of twenty well-formed rows, the
      first named "Google", yields one snapshot of twenty processes, in order. */
  lemma FixtureShape(hm: HostMeta, ts: real, rows: seq<JValue>)
    requires hm.snaps == [JArr([JNum(ts), JArr(rows)])]
    requires |rows| == 20
    requires forall i :: 0 <= i < |rows| ==> rows[i].JArr? && IsProcessRow(rows[i].items)
    requires rows[0].JArr? && |rows[0].items| >= 7 && rows[0].items[5] == JStr("Google")
    ensures GetProcessSnapshots(hm).Some?
    ensures var ss := GetProcessSnapshots(hm).value;
      |ss| == 1 && ss[0].timestamp == ts && |ss[0].processList| == 20
      && ss[0].processList[0].name == "Google"
  {
    var raw := hm.snaps[0];
    assert NewProcessList(rows).Some?;
    assert NewProcessSnapshot(raw).Some?;
  }
}
