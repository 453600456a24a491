/** The Elasticsearch plugin of plugins/elasticsearch/elasticsearch.go: the
    exclusion set `Start` configures, the consumer loop over the series
    topic, and `process`, which builds one document per surviving metric and
    hands those that marshal to the bulk indexer. The client, the indexer's
    flushing and `json.Marshal` are not modelled; whether a document marshals
    is an input (`marshals`), and so is the decoding of a message
    (`decode`). */
module Elasticsearch {
  import opened Optional
  import opened Records
  import opened PubSub
  import opened Intake
  import opened Exclude
  import opened Patterns
  import opened Labels
  import opened Rfc3339
  import opened Documents

  /** The exclusion filters `Start` compiles: one pattern, `.+\.datadog\..+`. */
  const Exclusions: Filters := [DatadogPattern]

  /** The document loop of `process`, written out as the source inlines it:
      the label map is filled tag by tag in tag order. Reading `Points[0]`
      panics when there is no point or it holds fewer than two numbers. */
  method BuildDocument(m: V1Metric) returns (r: Option<Document>)
    ensures r == GetV1MetricDocument(m)
  {
    if |m.points| == 0 || |m.points[0]| < 2 {
      return None;
    }
    var d: Document := map[];
    d := d["@timestamp" := VStr(FormatUnix(TruncToInt(m.points[0][0])))];
    d := d[m.metric := VNum(m.points[0][1])];
    var d1 := d;
    if |m.tags| > 0 {
      var labels := BuildLabels(m.tags);
      d := d["labels" := VLabels(labels)];
    }
    ghost var d2 := d;
    assert d2 == SetIf(d1, |m.tags| > 0, "labels", VLabels(LabelsOf(m.tags)));
    d := d["host" := VHost(HostDesc(m.host, m.host, "", "", "", ""))];
    ghost var d3 := d;
    if m.interval > 0 {
      d := d["interval" := VInt(m.interval)];
    }
    ghost var d4 := d;
    assert d4 == SetIf(d3, m.interval > 0, "interval", VInt(m.interval));
    if m.device != "" {
      d := d["device" := VStr(m.device)];
    }
    ghost var d5 := d;
    assert d5 == SetIf(d4, m.device != "", "device", VStr(m.device));
    d := d["type" := VStr(m.kind)];
    ghost var d6 := d;
    if m.sourceTypeName != "" {
      d := d["source_type_name" := VStr(m.sourceTypeName)];
    }
    assert d == SetIf(d6, m.sourceTypeName != "", "source_type_name", VStr(m.sourceTypeName));
    assert d == AddFields(m, d1);
    r := Some(d);
  }

  /** The label loop: for each tag in order, split on ':' and pad a lone
      token with an empty value; a later tag with the same key overwrites. */
  method BuildLabels(tags: seq<string>) returns (labels: map<string, string>)
    ensures labels == LabelsOf(tags)
  {
    labels := map[];
    for i := 0 to |tags|
      invariant labels == LabelsOf(tags[..i])
    {
      var toks := Split(tags[i]);
      if |toks| < 2 {
        toks := toks + [""];
      }
      assert tags[..i + 1][..i] == tags[..i];
      labels := labels[toks[0] := toks[1]];
    }
    assert tags[..|tags|] == tags;
  }

  /** What `process` hands to the indexer: documents in order, and whether
      it panicked (`crashed`), which ends the goroutine and the program. */
  datatype Indexed = Indexed(docs: seq<Document>, crashed: bool)

  /** The reference definition of the document loop over the survivors, for
      a document builder `build` that fails (`None`) where the Go code
      panics: a document that does not marshal is skipped, and the first
      failure stops the loop. */
  function IndexAll(ms: seq<V1Metric>, build: V1Metric -> Option<Document>,
                    marshals: Document -> bool): (r: Indexed)
    ensures |r.docs| <= |ms|
    decreases |ms|
  {
    if |ms| == 0 then Indexed([], false)
    else match build(ms[0])
      case None => Indexed([], true)
      case Some(d) =>
        var rest := IndexAll(ms[1..], build, marshals);
        Indexed((if marshals(d) then [d] else []) + rest.docs, rest.crashed)
  }

  /** One step of the loop: what is left to index from position `i` is the
      outcome for `ms[i]` followed by what is left from `i + 1`. */
  lemma IndexAllFrom(ms: seq<V1Metric>, i: int, build: V1Metric -> Option<Document>,
                     marshals: Document -> bool)
    requires 0 <= i < |ms|
    ensures build(ms[i]).None? ==> IndexAll(ms[i..], build, marshals) == Indexed([], true)
    ensures build(ms[i]).Some? ==>
      var d := build(ms[i]).value;
      var rest := IndexAll(ms[i + 1..], build, marshals);
      IndexAll(ms[i..], build, marshals) == Indexed((if marshals(d) then [d] else []) + rest.docs, rest.crashed)
  {
    assert ms[i..][1..] == ms[i + 1..];
    assert ms[i..][0] == ms[i];
  }

  /** `process`: exclude, then build and add each survivor's document. The
      plugin's builder is `GetV1MetricDocument`, which `BuildDocument` shows
      the inlined code computes. */
  method Process(metrics: seq<V1Metric>, exclude: Filters, build: V1Metric -> Option<Document>,
                 marshals: Document -> bool)
    returns (added: seq<Document>, crashed: bool)
    ensures Indexed(added, crashed) == IndexAll(Keep(metrics, exclude), build, marshals)
  {
    var kept, _ := ExcludeV1Metrics(metrics, exclude);
    ghost var all := IndexAll(kept, build, marshals);
    added := [];
    crashed := false;
    for i := 0 to |kept|
      invariant all == Indexed(added + IndexAll(kept[i..], build, marshals).docs,
                               IndexAll(kept[i..], build, marshals).crashed)
    {
      var doc := build(kept[i]);
      IndexAllFrom(kept, i, build, marshals);
      ghost var rest := IndexAll(kept[i + 1..], build, marshals);
      if doc.None? {
        crashed := true;
        assert added + [] == added;
        return;
      }
      if marshals(doc.value) {
        assert added + ([doc.value] + rest.docs) == (added + [doc.value]) + rest.docs;
        added := added + [doc.value];
      } else {
        assert [] + rest.docs == rest.docs;
      }
    }
    assert kept[|kept|..] == [];
    assert added + [] == added;
  }

  /** The loop panics exactly when some survivor has no usable first point. */
  lemma {:induction false} IndexAllCrashIff(ms: seq<V1Metric>, build: V1Metric -> Option<Document>,
                                            marshals: Document -> bool)
    ensures IndexAll(ms, build, marshals).crashed <==> exists i :: 0 <= i < |ms| && build(ms[i]).None?
    decreases |ms|
  {
    if |ms| > 0 {
      IndexAllCrashIff(ms[1..], build, marshals);
      assert forall i :: 1 <= i < |ms| ==> ms[i] == ms[1..][i - 1];
    }
  }

  /** Without a panic and with every document marshalling, there is exactly
      one indexer call per survivor, in survivor order. */
  lemma {:induction false} IndexAllOnePerSurvivor(ms: seq<V1Metric>, build: V1Metric -> Option<Document>,
                                                  marshals: Document -> bool)
    requires forall i :: 0 <= i < |ms| ==> build(ms[i]).Some? && marshals(build(ms[i]).value)
    ensures !IndexAll(ms, build, marshals).crashed
    ensures |IndexAll(ms, build, marshals).docs| == |ms|
    ensures forall i :: 0 <= i < |ms| ==> Some(IndexAll(ms, build, marshals).docs[i]) == build(ms[i])
    decreases |ms|
  {
    if |ms| > 0 {
      assert forall i :: 1 <= i < |ms| ==> ms[i] == ms[1..][i - 1];
      IndexAllOnePerSurvivor(ms[1..], build, marshals);
    }
  }

  /** A document that does not marshal skips only its own metric. */
  lemma MarshalFailureSkipsOne(m: V1Metric, rest: seq<V1Metric>, build: V1Metric -> Option<Document>,
                               marshals: Document -> bool)
    requires build(m).Some? && !marshals(build(m).value)
    ensures IndexAll([m] + rest, build, marshals) == IndexAll(rest, build, marshals)
  {
    assert ([m] + rest)[1..] == rest;
  }

  /** Every indexed document is the document of one of the survivors. */
  lemma {:induction false} IndexAllSources(ms: seq<V1Metric>, build: V1Metric -> Option<Document>,
                                           marshals: Document -> bool)
    ensures forall j :: 0 <= j < |IndexAll(ms, build, marshals).docs| ==>
      exists i :: 0 <= i < |ms| && build(ms[i]) == Some(IndexAll(ms, build, marshals).docs[j])
    decreases |ms|
  {
    if |ms| > 0 && build(ms[0]).Some? {
      var d := build(ms[0]).value;
      var rest := IndexAll(ms[1..], build, marshals);
      var head: seq<Document> := if marshals(d) then [d] else [];
      var docs := IndexAll(ms, build, marshals).docs;
      assert docs == head + rest.docs;
      IndexAllSources(ms[1..], build, marshals);
      forall j | 0 <= j < |docs|
        ensures exists i :: 0 <= i < |ms| && build(ms[i]) == Some(docs[j])
      {
        if j < |head| {
          assert docs[j] == d && build(ms[0]) == Some(d);
        } else {
          assert docs[j] == rest.docs[j - |head|];
          var i' :| 0 <= i' < |ms[1..]| && build(ms[1..][i']) == Some(rest.docs[j - |head|]);
          assert ms[1..][i'] == ms[i' + 1];
        }
      }
    } else {
      assert IndexAll(ms, build, marshals).docs == [];
    }
  }

  /** A key without a dot never matches `.+\.datadog\..+`. */
  lemma NoDotNoDatadog(k: string)
    requires '.' !in k
    ensures !DatadogPattern(k)
  {
    forall p | 0 <= p < |k| ensures !DatadogAt(k, p) {
      if 1 <= p && p + 9 < |k| {
        assert k[p..p + 9][0] == k[p];
        assert k[p] in k;
      }
    }
  }

  /** No reserved key of a metric document holds a dot. */
  lemma ReservedKeysHaveNoDot(m: V1Metric, k: string)
    requires k in {"@timestamp"} + AssignedAfterValue(m)
    ensures '.' !in k
  {
  }

  /** Each key of a survivor's document fails the plugin's exclusion pattern:
      the metric's own name because it survived, the reserved keys because
      they hold no dot. */
  lemma SurvivorDocumentKeys(m: V1Metric, ts: string, v: real)
    requires !Excluded(m.metric, Exclusions)
    ensures forall k :: k in MetricDoc(m, ts, v) ==> !DatadogPattern(k)
  {
    MetricDocKeys(m, ts, v);
    forall k | k in MetricDoc(m, ts, v) ensures !DatadogPattern(k) {
      if k != m.metric {
        ReservedKeysHaveNoDot(m, k);
        NoDotNoDatadog(k);
      } else {
        assert Exclusions[0] == DatadogPattern;
      }
    }
  }

  /** No document carries a key matching `.+\.datadog\..+`. */
  predicate NoDatadogKeys(docs: seq<Document>) {
    forall j, k :: 0 <= j < |docs| && k in docs[j] ==> !DatadogPattern(k)
  }

  /** No document `process` hands to the indexer carries a key that matches
      `.+\.datadog\..+`: a metric such as "foo.datadog.bar" never reaches
      Elasticsearch. */
  lemma DatadogNeverIndexed(metrics: seq<V1Metric>, marshals: Document -> bool)
    ensures NoDatadogKeys(IndexAll(Keep(metrics, Exclusions), GetV1MetricDocument, marshals).docs)
  {
    var ms := Keep(metrics, Exclusions);
    var docs := IndexAll(ms, GetV1MetricDocument, marshals).docs;
    IndexAllSources(ms, GetV1MetricDocument, marshals);
    KeepMembership(metrics, Exclusions);
    forall j, k | 0 <= j < |docs| && k in docs[j] ensures !DatadogPattern(k) {
      var i :| 0 <= i < |ms| && GetV1MetricDocument(ms[i]) == Some(docs[j]);
      var m := ms[i];
      assert m in ms;
      SurvivorDocumentKeys(m, Timestamp(m.points[0][0]), m.points[0][1]);
    }
  }

  /** The batch step of the subscriber goroutine: `process` with the plugin's
      exclusion set. */
  function ProcessBatch(marshals: Document -> bool): seq<V1Metric> -> Indexed {
    metrics => IndexAll(Keep(metrics, Exclusions), GetV1MetricDocument, marshals)
  }

  /** The subscriber goroutine of `Start`: for each message of the series
      topic, in order, decode it; a decode error is logged and the message
      skipped; otherwise the batch goes through `batch`. A panic in a batch
      ends the loop. */
  function Consume(msgs: seq<Message>, decode: Message -> Option<seq<V1Metric>>,
                   batch: seq<V1Metric> -> Indexed): (r: Indexed)
    ensures r.crashed <==> exists i :: 0 <= i < |msgs| && Panics(msgs[i], decode, batch)
    decreases |msgs|
  {
    if |msgs| == 0 then Indexed([], false)
    else
      var rest := msgs[1..];
      assert forall i :: 0 <= i < |rest| ==> rest[i] == msgs[i + 1];
      match decode(msgs[0])
      case None => Consume(rest, decode, batch)
      case Some(metrics) =>
        var first := batch(metrics);
        if first.crashed then first
        else
          var r' := Consume(rest, decode, batch);
          Indexed(first.docs + r'.docs, r'.crashed)
  }

  /** A message that decodes into a batch that panics. */
  predicate Panics(msg: Message, decode: Message -> Option<seq<V1Metric>>,
                   batch: seq<V1Metric> -> Indexed)
  {
    match decode(msg)
    case None => false
    case Some(metrics) => batch(metrics).crashed
  }

  /** The messages that decode, in order. */
  function Decodable(msgs: seq<Message>, decode: Message -> Option<seq<V1Metric>>): (r: seq<Message>)
    ensures |r| <= |msgs|
    ensures forall i :: 0 <= i < |r| ==> decode(r[i]).Some?
    decreases |msgs|
  {
    if |msgs| == 0 then []
    else (if decode(msgs[0]).Some? then [msgs[0]] else []) + Decodable(msgs[1..], decode)
  }

  /** Messages that fail to decode contribute nothing and stop nothing: the
      result is that of the messages that decode, in order. */
  lemma {:induction false} DecodeErrorsSkipped(msgs: seq<Message>, decode: Message -> Option<seq<V1Metric>>,
                                               batch: seq<V1Metric> -> Indexed)
    ensures Consume(msgs, decode, batch) == Consume(Decodable(msgs, decode), decode, batch)
    decreases |msgs|
  {
    if |msgs| > 0 {
      DecodeErrorsSkipped(msgs[1..], decode, batch);
      var tail := Decodable(msgs[1..], decode);
      if decode(msgs[0]).Some? {
        assert Decodable(msgs, decode) == [msgs[0]] + tail;
        assert ([msgs[0]] + tail)[0] == msgs[0];
        assert ([msgs[0]] + tail)[1..] == tail;
      } else {
        assert Decodable(msgs, decode) == tail;
      }
    }
  }

  /** Consuming a sequence of messages in two parts: the second part runs
      after the first when the first does not panic. */
  lemma {:induction false} ConsumeConcat(a: seq<Message>, b: seq<Message>,
                                         decode: Message -> Option<seq<V1Metric>>,
                                         batch: seq<V1Metric> -> Indexed)
    requires !Consume(a, decode, batch).crashed
    ensures Consume(a + b, decode, batch)
      == Indexed(Consume(a, decode, batch).docs + Consume(b, decode, batch).docs,
                 Consume(b, decode, batch).crashed)
    decreases |a|
  {
    if |a| == 0 {
      assert a + b == b;
    } else {
      assert (a + b)[0] == a[0];
      assert (a + b)[1..] == a[1..] + b;
      ConsumeConcat(a[1..], b, decode, batch);
      if decode(a[0]).Some? {
        var first := batch(decode(a[0]).value);
        var ra := Consume(a[1..], decode, batch);
        var rb := Consume(b, decode, batch);
        assert first.docs + (ra.docs + rb.docs) == (first.docs + ra.docs) + rb.docs;
      }
    }
  }

  /** The consumer loop only concatenates what its batches index, so a
      property of every batch's documents holds of the whole output. */
  lemma {:induction false} ConsumeKeepsNoDatadogKeys(msgs: seq<Message>,
                                                     decode: Message -> Option<seq<V1Metric>>,
                                                     batch: seq<V1Metric> -> Indexed)
    requires forall ms :: NoDatadogKeys(batch(ms).docs)
    ensures NoDatadogKeys(Consume(msgs, decode, batch).docs)
    decreases |msgs|
  {
    if |msgs| > 0 {
      ConsumeKeepsNoDatadogKeys(msgs[1..], decode, batch);
      if decode(msgs[0]).Some? {
        var first := batch(decode(msgs[0]).value);
        var rest := Consume(msgs[1..], decode, batch);
        var docs := Consume(msgs, decode, batch).docs;
        assert NoDatadogKeys(first.docs);
        if !first.crashed {
          assert docs == first.docs + rest.docs;
          forall j, k | 0 <= j < |docs| && k in docs[j] ensures !DatadogPattern(k) {
            if j < |first.docs| {
              assert docs[j] == first.docs[j];
            } else {
              assert docs[j] == rest.docs[j - |first.docs|];
            }
          }
        }
      }
    }
  }

  /** Whatever arrives on the series topic and however it decodes, no
      document the plugin indexes carries a key matching `.+\.datadog\..+`. */
  lemma ConsumeNeverIndexesDatadog(msgs: seq<Message>, decode: Message -> Option<seq<V1Metric>>,
                                   marshals: Document -> bool)
    ensures NoDatadogKeys(Consume(msgs, decode, ProcessBatch(marshals)).docs)
  {
    forall ms ensures NoDatadogKeys(ProcessBatch(marshals)(ms).docs) {
      assert ProcessBatch(marshals)(ms) == IndexAll(Keep(ms, Exclusions), GetV1MetricDocument, marshals);
      DatadogNeverIndexed(ms, marshals);
    }
    ConsumeKeepsNoDatadogKeys(msgs, decode, ProcessBatch(marshals));
  }

  /** `Start` subscribes the plugin to the v1 series endpoint only. */
  function Start(b: Broker): (r: (Broker, Handle))
    ensures r.1.topic == SeriesEndpointV1
    ensures ValidHandle(r.0, r.1) && QueueOf(r.0, r.1) == Queue([], true)
    ensures forall u :: u != SeriesEndpointV1 ==> Subscribers(r.0, u) == Subscribers(b, u)
  {
    Subscribe(b, SeriesEndpointV1)
  }

  /** After `Start` on an open broker, the plugin's channel receives exactly
      the bodies published to "/api/v1/series" until the broker closes, in
      publish order, and nothing from any other topic. */
  lemma PluginReceivesSeries(b: Broker, ops: seq<Op>)
    requires !b.closed
    ensures var (b', h) := Start(b);
      ValidHandle(Run(b', ops), h)
      && QueueOf(Run(b', ops), h).msgs == Delivered(ops, SeriesEndpointV1)
  {
    var (b', h) := Start(b);
    FifoDelivery(b', h, ops);
  }

  /** A series request that reads its body publishes it to the plugin's
      channel, after what the channel already held. */
  lemma SeriesRequestReachesPlugin(b: Broker, h: Handle, body: Message)
    requires !b.closed && h.topic == SeriesEndpointV1 && ValidHandle(b, h)
    ensures var (b', status) := Serve(b, SeriesEndpointV1, BodyOk(body));
      status == StatusOK && ValidHandle(b', h)
      && QueueOf(b', h).msgs == QueueOf(b, h).msgs + [body]
  {
    V1PrefixPublishesFullPath(b, SeriesEndpointV1, body);
  }
}
