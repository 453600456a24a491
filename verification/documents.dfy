/** The document builders of plugins/elasticsearch/utils.go: a metric, a host
    metadata payload or a process snapshot becomes a key/value document. A Go
    `map[string]interface{}` is a `map<string, Value>`; assignments are map
    updates in source order, so a later assignment to the same key wins. */
module Documents {
  import opened Optional
  import opened Records
  import opened Processes
  import opened Labels
  import opened Rfc3339

  /** The ECS host descriptor, with the six fields the builders set. */
  datatype HostDesc = HostDesc(
    name: string,
    hostname: string,
    id: string,
    architecture: string,
    mac: string,
    ip: string)

  /** The values the builders store. */
  datatype Value =
    | VStr(s: string)
    | VNum(x: real)
    | VInt(i: int)
    | VHost(host: HostDesc)
    | VLabels(labels: map<string, string>)
    | VProcess(process: Process)

  type Document = map<string, Value>

  /** `time.Unix(int64(x), 0).Format(time.RFC3339)` in UTC. */
  function Timestamp(x: real): string {
    FormatUnix(TruncToInt(x))
  }

  /** The host descriptor of a metric: only the host name, twice. */
  function MetricHost(host: string): HostDesc {
    HostDesc(host, host, "", "", "", "")
  }

  /** The reserved keys the builder assigns after the metric's own value, for
      this metric. */
  function AssignedAfterValue(m: V1Metric): set<string> {
    (if |m.tags| > 0 then {"labels"} else {}) + {"host"}
    + (if m.interval > 0 then {"interval"} else {})
    + (if m.device != "" then {"device"} else {})
    + {"type"}
    + (if m.sourceTypeName != "" then {"source_type_name"} else {})
  }

  /** `if c { d[k] = v }`. */
  function SetIf(d: Document, c: bool, k: string, v: Value): (r: Document)
    ensures r.Keys == if c then d.Keys + {k} else d.Keys
    ensures forall j :: j in d && (j != k || !c) ==> r[j] == d[j]
    ensures c ==> r[k] == v
  {
    if c then d[k := v] else d
  }

  /** The reserved fields assigned after the metric's own value, in source
      order. */
  function AddFields(m: V1Metric, d: Document): Document {
    var d2 := SetIf(d, |m.tags| > 0, "labels", VLabels(LabelsOf(m.tags)));
    var d3 := SetIf(d2, true, "host", VHost(MetricHost(m.host)));
    var d4 := SetIf(d3, m.interval > 0, "interval", VInt(m.interval));
    var d5 := SetIf(d4, m.device != "", "device", VStr(m.device));
    var d6 := SetIf(d5, true, "type", VStr(m.kind));
    SetIf(d6, m.sourceTypeName != "", "source_type_name", VStr(m.sourceTypeName))
  }

  /** AddFields adds exactly the assigned keys and keeps every other key. */
  lemma AddFieldsKeys(m: V1Metric, d: Document)
    ensures AddFields(m, d).Keys == d.Keys + AssignedAfterValue(m)
    ensures forall k :: k in d && k !in AssignedAfterValue(m) ==> AddFields(m, d)[k] == d[k]
  {
  }

  /** The values AddFields assigns. */
  lemma AddFieldsValues(m: V1Metric, d: Document)
    ensures AddFields(m, d)["host"] == VHost(MetricHost(m.host))
    ensures AddFields(m, d)["type"] == VStr(m.kind)
    ensures |m.tags| > 0 ==> AddFields(m, d)["labels"] == VLabels(LabelsOf(m.tags))
    ensures m.interval > 0 ==> AddFields(m, d)["interval"] == VInt(m.interval)
    ensures m.device != "" ==> AddFields(m, d)["device"] == VStr(m.device)
    ensures m.sourceTypeName != "" ==> AddFields(m, d)["source_type_name"] == VStr(m.sourceTypeName)
  {
  }

  /** The metric document for a metric whose first point is `[t, v]`, with
      `ts` the formatted `t`: the timestamp, then the metric's value under its
      own name, then the reserved fields. */
  function MetricDoc(m: V1Metric, ts: string, v: real): Document {
    AddFields(m, map["@timestamp" := VStr(ts)][m.metric := VNum(v)])
  }

  /** getV1MetricDocument. Only the first point is read; an empty point list
      or a first point with fewer than two numbers panics in Go (`None`). */
  function GetV1MetricDocument(m: V1Metric): (r: Option<Document>)
    ensures r.None? <==> |m.points| == 0 || |m.points[0]| < 2
  {
    if |m.points| == 0 || |m.points[0]| < 2 then None
    else Some(MetricDoc(m, Timestamp(m.points[0][0]), m.points[0][1]))
  }

  /** The keys of a metric document: the timestamp, the metric's name, and
      the reserved fields this metric sets. */
  lemma MetricDocKeys(m: V1Metric, ts: string, v: real)
    ensures MetricDoc(m, ts, v).Keys == {"@timestamp", m.metric} + AssignedAfterValue(m)
  {
    var d1 := map["@timestamp" := VStr(ts)][m.metric := VNum(v)];
    assert d1.Keys == {"@timestamp", m.metric};
    AddFieldsKeys(m, d1);
    assert MetricDoc(m, ts, v) == AddFields(m, d1);
  }

  /** The reserved fields assigned after the metric's value win over it. */
  lemma MetricDocFields(m: V1Metric, ts: string, v: real)
    ensures var d := MetricDoc(m, ts, v);
      && d["host"] == VHost(MetricHost(m.host))
      && d["type"] == VStr(m.kind)
      && (|m.tags| > 0 ==> d["labels"] == VLabels(LabelsOf(m.tags)))
      && (m.interval > 0 ==> d["interval"] == VInt(m.interval))
      && (m.device != "" ==> d["device"] == VStr(m.device))
      && (m.sourceTypeName != "" ==> d["source_type_name"] == VStr(m.sourceTypeName))
  {
    AddFieldsValues(m, map["@timestamp" := VStr(ts)][m.metric := VNum(v)]);
  }

  /** "@timestamp" is never one of the fields assigned after the value: every
      one of those starts with a letter. */
  lemma TimestampNotAssignedAfter(m: V1Metric)
    ensures "@timestamp" !in AssignedAfterValue(m)
  {
    forall k | k in AssignedAfterValue(m) ensures |k| > 0 && k[0] != '@' {
      assert k in {"labels", "host", "interval", "device", "type", "source_type_name"};
    }
  }

  /** The metric's value stays under its name unless a later field takes the
      key, and it replaces the timestamp when the metric is named
      "@timestamp". */
  lemma MetricDocOwnValues(m: V1Metric, ts: string, v: real)
    ensures var d := MetricDoc(m, ts, v);
      && (m.metric !in AssignedAfterValue(m) ==> d[m.metric] == VNum(v))
      && (m.metric != "@timestamp" ==> d["@timestamp"] == VStr(ts))
      && (m.metric == "@timestamp" ==> d["@timestamp"] == VNum(v))
  {
    var d1 := map["@timestamp" := VStr(ts)][m.metric := VNum(v)];
    var d := AddFields(m, d1);
    assert d == MetricDoc(m, ts, v);
    AddFieldsKeys(m, d1);
    TimestampNotAssignedAfter(m);
    assert d["@timestamp"] == d1["@timestamp"];
    if m.metric !in AssignedAfterValue(m) {
      assert d[m.metric] == d1[m.metric] == VNum(v);
    }
  }

  /** The same, for the document getV1MetricDocument returns. */
  lemma MetricDocumentContents(m: V1Metric)
    requires |m.points| > 0 && |m.points[0]| >= 2
    ensures var d := GetV1MetricDocument(m).value;
      && d.Keys == {"@timestamp", m.metric} + AssignedAfterValue(m)
      && d["host"] == VHost(MetricHost(m.host))
      && d["type"] == VStr(m.kind)
      && (|m.tags| > 0 ==> d["labels"] == VLabels(LabelsOf(m.tags)))
      && (m.interval > 0 ==> d["interval"] == VInt(m.interval))
      && (m.device != "" ==> d["device"] == VStr(m.device))
      && (m.sourceTypeName != "" ==> d["source_type_name"] == VStr(m.sourceTypeName))
      && (m.metric !in AssignedAfterValue(m) ==> d[m.metric] == VNum(m.points[0][1]))
      && (m.metric != "@timestamp" ==> d["@timestamp"] == VStr(Timestamp(m.points[0][0])))
  {
    var ts, v := Timestamp(m.points[0][0]), m.points[0][1];
    MetricDocKeys(m, ts, v);
    MetricDocFields(m, ts, v);
    MetricDocOwnValues(m, ts, v);
  }

  /** A metric named "@timestamp" replaces the timestamp with its value. */
  lemma MetricNamedTimestamp(m: V1Metric)
    requires |m.points| > 0 && |m.points[0]| >= 2 && m.metric == "@timestamp"
    ensures GetV1MetricDocument(m).value["@timestamp"] == VNum(m.points[0][1])
  {
    MetricDocOwnValues(m, Timestamp(m.points[0][0]), m.points[0][1]);
  }

  /** A metric named like a field assigned after its value loses its value
      to that field: a metric named "type" reads as the metric's type. */
  lemma MetricNamedTypeLosesValue(m: V1Metric)
    requires |m.points| > 0 && |m.points[0]| >= 2 && m.metric == "type"
    ensures GetV1MetricDocument(m).value["type"] == VStr(m.kind)
    ensures GetV1MetricDocument(m).value.Keys == {"@timestamp", "type"} + AssignedAfterValue(m)
  {
    MetricDocumentContents(m);
  }

  /** The metrics fixture: system.cpu.system = 3.0419201600117516 at
      1612906502, host MacLastic2.local, type gauge, source System, no tags,
      no interval, no device. */
  function FixtureMetric(): V1Metric {
    V1Metric("system.cpu.system", [[1612906502.0, 3.0419201600117516]], [],
             "MacLastic2.local", "", "gauge", 0, "System")
  }

  /** The fixture's document for any formatted timestamp. */
  lemma FixtureMetricDoc(ts: string)
    ensures MetricDoc(FixtureMetric(), ts, 3.0419201600117516) == map[
      "@timestamp" := VStr(ts),
      "host" := VHost(HostDesc("MacLastic2.local", "MacLastic2.local", "", "", "", "")),
      "source_type_name" := VStr("System"),
      "system.cpu.system" := VNum(3.0419201600117516),
      "type" := VStr("gauge")]
  {
    var m := FixtureMetric();
    var v := 3.0419201600117516;
    var d1 := map["@timestamp" := VStr(ts)][m.metric := VNum(v)];
    assert d1 == map["@timestamp" := VStr(ts), "system.cpu.system" := VNum(v)];
    var d3 := SetIf(d1, true, "host", VHost(MetricHost(m.host)));
    var d6 := SetIf(d3, true, "type", VStr(m.kind));
    assert AddFields(m, d1) == SetIf(d6, true, "source_type_name", VStr(m.sourceTypeName));
  }

  /** The document expected by plugins/elasticsearch/utils_test.go. */
  lemma FixtureMetricDocument()
    ensures GetV1MetricDocument(FixtureMetric()) == Some(map[
      "@timestamp" := VStr("2021-02-09T21:35:02Z"),
      "host" := VHost(HostDesc("MacLastic2.local", "MacLastic2.local", "", "", "", "")),
      "source_type_name" := VStr("System"),
      "system.cpu.system" := VNum(3.0419201600117516),
      "type" := VStr("gauge")])
  {
    assert TruncToInt(1612906502.0) == 1612906502;
    FixtureTimestamp();
    FixtureMetricDoc("2021-02-09T21:35:02Z");
  }

  /** getHostMetadataDocument, with the wall-clock timestamp as an input. */
  function GetHostMetadataDocument(hm: HostMeta, now: string): (d: Document)
    ensures d.Keys == {"@timestamp", "host"} + (if |hm.systemTags| > 0 then {"labels"} else {})
    ensures d["@timestamp"] == VStr(now)
    ensures d["host"] == VHost(HostDesc(hm.hostname, hm.hostname, hm.uuid, hm.machine, hm.mac, hm.ip))
    ensures |hm.systemTags| > 0 ==> d["labels"] == VLabels(LabelsOf(hm.systemTags))
  {
    var d0: Document := map["@timestamp" := VStr(now)];
    var d1 := d0["host" := VHost(HostDesc(hm.hostname, hm.hostname, hm.uuid, hm.machine, hm.mac, hm.ip))];
    if |hm.systemTags| > 0 then d1["labels" := VLabels(LabelsOf(hm.systemTags))] else d1
  }

  /** The document of one process. */
  function ProcDocument(ts: string, p: Process): Document {
    map["@timestamp" := VStr(ts), "process" := VProcess(p)]
  }

  function ProcDocs(ts: string, ps: seq<Process>): (r: seq<Option<Document>>)
    ensures |r| == |ps|
    ensures forall i :: 0 <= i < |ps| ==> r[i] == Some(ProcDocument(ts, ps[i]))
  {
    if |ps| == 0 then [] else [Some(ProcDocument(ts, ps[0]))] + ProcDocs(ts, ps[1..])
  }

  function Nils(n: nat): (r: seq<Option<Document>>)
    ensures |r| == n
    ensures forall i :: 0 <= i < n ==> r[i] == None
  {
    if n == 0 then [] else [None] + Nils(n - 1)
  }

  /** getProcDocuments as written: `make([]*document, n)` already holds n nil
      entries and the loop appends after them, so the result has 2n entries,
      the first n of them nil. */
  function GetProcDocuments(snap: ProcessSnapshot): (r: seq<Option<Document>>)
    ensures |r| == 2 * |snap.processList|
    ensures forall i :: 0 <= i < |snap.processList| ==> r[i] == None
    ensures forall i :: 0 <= i < |snap.processList| ==>
      r[|snap.processList| + i] == Some(ProcDocument(Timestamp(snap.timestamp), snap.processList[i]))
  {
    var n := |snap.processList|;
    var ts := Timestamp(snap.timestamp);
    Nils(n) + ProcDocs(ts, snap.processList)
  }

  /** getProcDocuments as intended: one document per process, in order, each
      with the snapshot's timestamp. */
  function GetProcDocumentsFixed(snap: ProcessSnapshot): (r: seq<Document>)
    ensures |r| == |snap.processList|
    ensures forall i :: 0 <= i < |r| ==>
      r[i] == ProcDocument(Timestamp(snap.timestamp), snap.processList[i])
  {
    var ts := Timestamp(snap.timestamp);
    seq(|snap.processList|, i requires 0 <= i < |snap.processList| => ProcDocument(ts, snap.processList[i]))
  }

  /** The as-written result is n nils followed by the intended documents. */
  lemma ProcDocumentsDiscrepancy(snap: ProcessSnapshot)
    ensures var n := |snap.processList|;
      GetProcDocuments(snap)[..n] == Nils(n)
      && forall i :: 0 <= i < n ==> GetProcDocuments(snap)[n + i] == Some(GetProcDocumentsFixed(snap)[i])
  {
  }

  /** A snapshot with one process: two entries come back, the first nil. */
  lemma ProcDocumentsOneProcess(ts: real, p: Process)
    ensures GetProcDocuments(ProcessSnapshot(ts, [p])) == [None, Some(ProcDocument(Timestamp(ts), p))]
    ensures GetProcDocumentsFixed(ProcessSnapshot(ts, [p])) == [ProcDocument(Timestamp(ts), p)]
  {
  }
}
