# threadle core, modelled in Dafny

threadle is a small gateway for Datadog agents. An agent sends its payloads
over HTTP. The intake decides which handler a path reaches and publishes the
body on an in-memory pub/sub broker. The topic is the URL path. Plugins
subscribe to topics. The Elasticsearch plugin reads `/api/v1/series`, drops
metrics whose name matches the exclusion regexps, turns each surviving
metric into an ECS-style document, and hands that document to a bulk
indexer.

The project models that path as pure Dafny functions and a few methods that
mirror the Go loops:

- `pubsub.dfy` (module `PubSub`): the broker as a state machine. It covers
  subscribe, publish, close, runs of operations, and the absence of the two
  Go panics, which are a send on a closed channel and a close of a closed
  channel.
- `intake.dfy` (module `Intake`): the endpoint constants, the router's
  first-match rule over the four routes, the v1 and intake handlers, and
  `GetV1Endpoints`.
- `process.dfy` (module `Processes`): extraction of process snapshots from
  the untyped host-metadata JSON. `json.dfy` holds the JSON value type and
  `records.dfy` the typed payload records.
- `exclude.dfy` (module `Exclude`) and `patterns.dfy` (module `Patterns`):
  `plugins.ExcludeV1Metrics` and the two regular expressions it is used
  with.
- `v1metrics.dfy` (module `V1Metrics`): `filterV1Metrics` as written, and the
  loop its comment intends.
- `labels.dfy` (module `Labels`): `strings.Split` on `:` and the tag-to-label
  map.
- `calendar.dfy` (module `Calendar`): the proleptic Gregorian calendar, as
  day counts since 1970-01-01 and back.
- `rfc3339.dfy` (module `Rfc3339`): `time.Unix(t, 0).Format(time.RFC3339)` in
  UTC, through that calendar. It includes a parser proving that the
  formatted string determines the instant.
- `documents.dfy` (module `Documents`): the metric, host-metadata and process
  document builders of `plugins/elasticsearch/utils.go`.
- `elasticsearch.dfy` (module `Elasticsearch`): the plugin's `Start` loop and
  `process`.

Things the Go code gets from outside are parameters of the model:

- The request body is a `BodyRead`, either the inflated bytes or an error.
- JSON decoding of a series payload is `decode: Message -> Option<seq<V1Metric>>`.
- Whether `json.Marshal` succeeds on a document is `marshals: Document -> bool`.
- `time.Now()` is the formatted string `now`.

A Go panic in the plugin goroutine is the `crashed` flag of `Indexed`. That
panic comes from `m.Points[0][0]` on a metric without a full first point. A
crash ends the consumer loop.

Notes on how the model reads the code:

- The doc comment of `NewProcessSnapshot` (intake/process.go:20-23) describes
  rows of five items. `newProcess` indexes seven. The model follows the code,
  and `Processes.FiveItemRowRejected` shows that a five-item row fails.
- The code logs and skips only JSON decode errors of a series message
  (plugins/elasticsearch/elasticsearch.go:61-65). Its type assertions and
  slice indexing panic instead: process snapshots
  (intake/process.go:28-50) and the first point of a metric
  (plugins/elasticsearch/elasticsearch.go:85-86). The model follows the
  code. A failed extraction is `None`, with no partial result. A metric
  without a full first point crashes the batch and ends the consumer loop.
- The `host` value in a document is a six-field record (`Documents.HostDesc`),
  the shape `getHostMetadataDocument` fills in. The metric builders fill in
  only name and hostname and leave the other four fields empty.
- `Elasticsearch.Process` is written over any document builder `build`.
  `Elasticsearch.BuildDocument` proves that the loop body inlined in
  `process` (plugins/elasticsearch/elasticsearch.go:84-111) computes exactly
  `Documents.GetV1MetricDocument`. The lemmas about the real plugin
  instantiate `build` with that function.

## Model

| member | source | states |
|---|---|---|
| PubSub.NewPubsub | intake/pubsub.go:14-18 | a new broker is open and has no subscriber on any topic |
| PubSub.Subscribe | intake/pubsub.go:21-28 | appends exactly one fresh, empty, open channel at the end of the topic's list; earlier channels, other topics and the closed flag are unchanged, even on a closed broker |
| PubSub.Publish | intake/pubsub.go:31-42 | on a closed broker or a topic without subscribers nothing changes; otherwise every channel of the topic receives the message once, at its end, and no other topic changes |
| PubSub.Close | intake/pubsub.go:45-59 | a second close is a no-op; the first sets the flag and closes every existing channel, keeping what it holds, and removes no topic or channel |
| PubSub.CloseIdempotent | intake/pubsub.go:49-51 | closing twice is closing once |
| PubSub.PublishAfterCloseDeliversNothing | intake/pubsub.go:35-37 | after Close, Publish leaves the broker exactly as it was |
| PubSub.RunKeepsInv | intake/pubsub.go:21-59 | every sequence of operations keeps "while the broker is open, every channel is open" |
| PubSub.ReachableNeverPanics | intake/pubsub.go:39-58 | from a new broker no sequence of operations reaches a publish that sends on a closed channel or a close that closes one twice |
| PubSub.FifoDelivery | intake/pubsub.go:39-41 | a channel taken on an open broker ends up holding exactly what it held plus, in order, every message published to its topic before the first Close |
| PubSub.ClosedFreezesMessages | intake/pubsub.go:35-37 | once the broker is closed no existing channel changes, whatever operations follow |
| PubSub.SubscribeAfterClose | intake/pubsub.go:21-28 | a channel taken after Close is open and empty and stays empty |
| Intake.FirstMatch | intake/intake.go:49-57 | no handler iff no route matches; otherwise the handler of the first matching route in registration order |
| Intake.DispatchCharacterization | intake/intake.go:51-57 | the exact validate path reaches the stub; any other path with the raw "/api/v1" prefix reaches v1Handler; "/intake/" reaches intakeHandler; any other path starting with "/" reaches the default handler; the rest match nothing |
| Intake.ReadAndPublish | intake/intake.go:65-86 | a body error answers 400 and publishes nothing; a body read answers 200 and publishes the body under the request path |
| Intake.Respond | intake/intake.go:60-86 | the stub and default handler answer 200 and publish nothing; v1Handler and intakeHandler answer 400 exactly on a body error and otherwise publish the body under the request path |
| Intake.Serve | intake/intake.go:51-86 | an unrouted path answers 404, and the stub and default handler answer 200, all without touching the broker; 400 exactly for a body error on a publishing route; a good body on a publishing route is published under its path |
| Intake.ValidateNeverPublishes | intake/intake.go:51-53 | the validate endpoint is shadowed from the v1 prefix: it answers 200 and never publishes |
| Intake.V1PrefixPublishesFullPath | intake/intake.go:78-86 | any path with the v1 prefix except validate, listed or not, is published under its full path |
| Intake.IntakePublishes | intake/intake.go:65-73 | a body posted to "/intake/" is published under "/intake/" |
| Intake.V2EndpointsNeverPublish | intake/intake.go:28-33 | the v2 and beta endpoints reach the default handler and leave the broker unchanged |
| Intake.GetV1Endpoints | intake/intake.go:89-99 | exactly the seven v1 endpoint constants (series, check runs, sketches, validate, processes, container, orchestrator), each once, series first; all under the v1 prefix and "/intake/" not among them |
| Intake.V1EndpointsRouting | intake/intake.go:89-99 | every listed v1 endpoint except validate reaches v1Handler, and validate reaches the stub |
| Processes.NewProcess | intake/process.go:42-52 | accepted iff the row has at least seven items typed string, four numbers, string, number; each field comes from its position |
| Processes.NewProcessList | intake/process.go:29-35 | accepted iff every entry is an array holding an accepted row; the result has one process per entry, in order |
| Processes.NewProcessSnapshot | intake/process.go:24-40 | accepted iff the value is an array of at least two items, a number and an accepted process list; the timestamp is item 0 |
| Processes.GetProcessSnapshots | intake/process.go:55-63 | succeeds iff every raw snapshot is accepted, giving one snapshot per element in order; one bad element fails the lot |
| Processes.ProcessListRoundTrip | intake/process.go:29-35 | decoding the wire form of any process list gives the list back |
| Processes.SnapshotRoundTrip | intake/process.go:24-40 | decoding the wire form of any snapshot gives the snapshot back |
| Processes.ExtraRowItemsIgnored | intake/process.go:42-52 | items of a row after position 6 do not change the decoded process |
| Processes.ExtraSnapshotItemsIgnored | intake/process.go:24-40 | elements of a snapshot array after index 1 do not change the result |
| Processes.FiveItemRowRejected | intake/process.go:20-52 | a snapshot whose row has the five items the doc comment describes is rejected |
| Processes.FixtureShape | intake/process_test.go:17-22 | a payload of one snapshot of twenty good rows, the first named "Google", yields one snapshot of twenty processes, the first named "Google" |
| Exclude.Keep | plugins/utils.go:13-30 | the survivors of a filter set are never more than the input |
| Exclude.KeepMembership | plugins/utils.go:17-27 | a metric survives iff it is in the input and no filter matches its name |
| Exclude.KeepConcat | plugins/utils.go:16-29 | filtering works element by element and keeps order: it distributes over concatenation |
| Exclude.KeepName | plugins/utils.go:18-23 | the inner loop keeps a name iff no filter matches it |
| Exclude.ExcludeV1Metrics | plugins/utils.go:13-30 | the in-place loop returns exactly the survivors in input order, and leaves the backing array as the survivors followed by the untouched tail of the input |
| Exclude.KeepNoFilters | plugins/utils.go:18-23 | with no filters every metric survives |
| Exclude.KeepIsIdentityIff | plugins/utils.go:13-30 | the result equals the input iff no filter matches any name |
| Exclude.KeepIdempotent | plugins/utils.go:13-30 | excluding twice with the same filters is excluding once |
| Exclude.KeepCompose | plugins/utils.go:18-23 | excluding by one filter set and then another is excluding by their union |
| Exclude.KeepFilterOrderIrrelevant | plugins/utils.go:18-23 | the order of the filters does not change the survivors |
| Exclude.KeepAllMatch | plugins/utils.go:18-23 | filters matching every name drop everything |
| Exclude.ExcludeDatadogCase | plugins/utils_test.go:17-31 | the datadog pattern drops "foo.datadog.bar" and keeps "system.cpu.system" |
| Exclude.ExcludeAnyCase | plugins/utils_test.go:33-44 | ".+" drops both fixture metrics |
| Exclude.ExcludeNoMatchCase | plugins/utils_test.go:45-63 | with no match both metrics survive in order |
| V1Metrics.FilterV1Metrics | plugins/elasticsearch/v1metrics.go:27-41 | as written, the loop returns its input unchanged whatever the filters |
| V1Metrics.FilterV1MetricsFixed | plugins/elasticsearch/v1metrics.go:27-41 | with the continue leaving the filter loop, the result is exactly the survivors of ExcludeV1Metrics |
| V1Metrics.AgreesWithExcludeIff | plugins/elasticsearch/v1metrics.go:27-41 | run on the same input, the as-written loop and ExcludeV1Metrics return the same list iff no filter matches any metric name |
| V1Metrics.FilterTestCase | plugins/elasticsearch/elasticsearch_test.go:18-32 | run on the first test case, the as-written loop returns both metrics and the corrected loop only "system.cpu.system" |
| V1Metrics.FilterTestCaseDiscrepancy | plugins/elasticsearch/elasticsearch_test.go:18-32 | on the first test case the as-written loop keeps "foo.datadog.bar", which the test expects dropped, and the corrected loop drops it |
| Labels.Split | plugins/elasticsearch/utils.go:40 | at least one token, none holding a colon, and joining them with ":" gives the tag back |
| Labels.SplitJoin | plugins/elasticsearch/utils.go:40 | splitting a join of colon-free pieces gives the pieces back |
| Labels.TagLabel | plugins/elasticsearch/utils.go:40-44 | key and value are colon-free; a tag without a colon is a key with value ""; otherwise "key:value" is a prefix of the tag that ends at the tag's end or at a colon |
| Labels.TagLabelUnique | plugins/elasticsearch/utils.go:40-44 | those conditions determine the pair: any colon-free key and value meeting them are the first and second colon-separated tokens |
| Labels.LabelsOf | plugins/elasticsearch/utils.go:37-47 | the label map's keys are exactly the first tokens of the tags |
| Labels.LabelsLastWins | plugins/elasticsearch/utils.go:38-45 | each key holds the value of the last tag with that key |
| Labels.ThreePartTag | plugins/elasticsearch/utils.go:40-44 | "a:b:c" gives key "a" with value "b" |
| Calendar.CivilFromDays | plugins/elasticsearch/utils.go:35 | the date of a day count has a month in 1..12 and a day in 1..31, and converts back to the same day count |
| Calendar.CivilFromDaysValid | plugins/elasticsearch/utils.go:35 | the date of any day count is a real Gregorian date: its day never passes its month's length, and 29 February falls only in leap years |
| Calendar.CivilRoundTrip | plugins/elasticsearch/utils.go:35 | every real Gregorian date is the date of its own day count, so dates and day counts correspond one to one |
| Rfc3339.TruncToInt | plugins/elasticsearch/utils.go:35 | int64(x) truncates toward zero |
| Rfc3339.CivilFields | plugins/elasticsearch/utils.go:35 | for years 0 to 9999 the parser reads back the date, hour, minute and second a timestamp was laid out from |
| Rfc3339.FormatUnix | plugins/elasticsearch/utils.go:35 | every timestamp has the layout's shape: at least 20 characters ending in "-MM-DDTHH:MM:SSZ" separators |
| Rfc3339.FormatCivil | plugins/elasticsearch/utils.go:35 | the same shape for any date and time of day; exactly 20 characters iff the year is 0 to 9999 |
| Rfc3339.FormatParseRoundTrip | plugins/elasticsearch/utils.go:35 | for years 0 to 9999 the formatted timestamp reads back as the same epoch second, so distinct instants format differently |
| Rfc3339.FixtureTimestamp | plugins/elasticsearch/utils_test.go:19 | second 1612906502 formats as "2021-02-09T21:35:02Z" |
| Documents.GetV1MetricDocument | plugins/elasticsearch/utils.go:33-64 | no document iff the metric has no first point with a value, the case where Go panics |
| Documents.MetricDocumentContents | plugins/elasticsearch/utils.go:34-61 | keys are "@timestamp", the metric name and the optional fields whose conditions hold; the name carries the value unless it is a later field's key; "@timestamp" is the formatted first point unless the name is "@timestamp"; with tags "labels" holds the tags' label map, a positive interval, a non-empty device and a non-empty source type name are stored under "interval", "device" and "source_type_name" |
| Documents.MetricNamedTimestamp | plugins/elasticsearch/utils.go:35-36 | a metric named "@timestamp" overwrites the timestamp with its value |
| Documents.MetricNamedTypeLosesValue | plugins/elasticsearch/utils.go:36-58 | a metric named "type" loses its value to the metric type |
| Documents.FixtureMetricDocument | plugins/elasticsearch/utils_test.go:18-27 | the fixture metric gives the five-key document the test expects |
| Documents.GetHostMetadataDocument | plugins/elasticsearch/utils.go:66-90 | keys "@timestamp", "host", and "labels" iff there are system tags; the host record's six fields come from the payload |
| Documents.GetProcDocuments | plugins/elasticsearch/utils.go:92-102 | as written, twice as many entries as processes: n empty ones, then one document per process in order |
| Documents.GetProcDocumentsFixed | plugins/elasticsearch/utils.go:92-102 | one document per process, in order, each with the snapshot's timestamp and the process |
| Documents.ProcDocumentsDiscrepancy | plugins/elasticsearch/utils.go:93-99 | the as-written result is n empty entries followed by exactly the corrected documents |
| Documents.ProcDocumentsOneProcess | plugins/elasticsearch/utils.go:93-99 | one process gives [nil, doc] as written and [doc] corrected |
| Elasticsearch.BuildDocument | plugins/elasticsearch/elasticsearch.go:84-111 | the builder inlined in process computes exactly getV1MetricDocument |
| Elasticsearch.BuildLabels | plugins/elasticsearch/elasticsearch.go:87-97 | the tag loop builds exactly the label map of the tags |
| Elasticsearch.IndexAll | plugins/elasticsearch/elasticsearch.go:83-130 | never more documents than surviving metrics |
| Elasticsearch.Process | plugins/elasticsearch/elasticsearch.go:74-137 | the loop indexes exactly what IndexAll gives for the metrics that survive exclusion |
| Elasticsearch.IndexAllCrashIff | plugins/elasticsearch/elasticsearch.go:85-86 | the batch crashes iff some surviving metric has no full first point |
| Elasticsearch.IndexAllOnePerSurvivor | plugins/elasticsearch/elasticsearch.go:83-129 | when every document builds and marshals, one document per survivor is indexed, in order |
| Elasticsearch.MarshalFailureSkipsOne | plugins/elasticsearch/elasticsearch.go:113-118 | a document json.Marshal rejects is skipped and the loop goes on |
| Elasticsearch.IndexAllSources | plugins/elasticsearch/elasticsearch.go:83-129 | every indexed document was built from some input metric |
| Elasticsearch.NoDotNoDatadog | plugins/elasticsearch/elasticsearch.go:52-54 | a name without "." never matches the datadog pattern |
| Elasticsearch.SurvivorDocumentKeys | plugins/elasticsearch/elasticsearch.go:52-111 | whatever its timestamp and value, no key of the document built for a metric that survived exclusion matches the datadog pattern |
| Elasticsearch.DatadogNeverIndexed | plugins/elasticsearch/elasticsearch.go:52-130 | no indexed document has a key matching the datadog pattern |
| Elasticsearch.DecodeErrorsSkipped | plugins/elasticsearch/elasticsearch.go:60-66 | the consumer loop behaves as if undecodable messages were never sent |
| Elasticsearch.Consume | plugins/elasticsearch/elasticsearch.go:57-68 | the consumer stops early iff some message decodes into a batch that panics |
| Elasticsearch.ConsumeConcat | plugins/elasticsearch/elasticsearch.go:60-68 | if a stream prefix does not crash, the result for the whole stream is the prefix's documents followed by the rest's |
| Elasticsearch.ConsumeNeverIndexesDatadog | plugins/elasticsearch/elasticsearch.go:52-68 | over any message stream, no indexed document has a key matching the datadog pattern |
| Elasticsearch.Start | plugins/elasticsearch/elasticsearch.go:60 | the plugin holds a fresh, empty, open channel on "/api/v1/series" and no other topic changes |
| Elasticsearch.PluginReceivesSeries | plugins/elasticsearch/elasticsearch.go:57-60 | once subscribed, the plugin's channel receives, in order, every message published to "/api/v1/series" before the broker closes |
| Elasticsearch.SeriesRequestReachesPlugin | plugins/elasticsearch/elasticsearch.go:60-61 | a series request with a readable body answers 200 and appends the body to the plugin's channel |

## Left out

- The HTTP server, its timeouts, signal handling and shutdown (intake/intake.go:102-138, main.go) are left out. They are I/O; the model starts at the router.
- `readRequestBody` (zlib inflation, intake/utils.go) is an input, `BodyRead`, because it is I/O and a foreign library.
- Path cleaning and redirects by gorilla/mux are left out. A request path is taken as given, and a route matches it exactly or by raw string prefix.
- Channel capacity, blocking sends, the broker's mutex and the goroutines are left out. The broker is modelled as a sequence of whole operations, and a channel as the list of everything sent into it.
- `json.Unmarshal` of payloads (`intake.GetV1Metrics`) is the `decode` parameter, and `json.Marshal` of a document is the `marshals` parameter, because both are library code.
- The Elasticsearch client, `esutil.BulkIndexer`, `addDocument`, `setupIndex` and the log lines are left out. They are network I/O. The model stops at the list of documents handed to `indexer.Add`, and `indexer.Add` errors only log.
- Metric values and timestamps are `real`. float64 rounding and the JSON text of a float are not modelled.
- Rfc3339.TruncToInt: does not model `int64(x)` for `x` outside the int64 range, which Go leaves implementation-defined.
- Rfc3339.FormatParseRoundTrip: holds for years 0 to 9999 only. Outside them Go's layout prints more than four year digits or a sign, which the reader does not accept.
- The local time zone is taken as UTC, so `Format` always ends in "Z".
- `time.Now()` in `getHostMetadataDocument` is the parameter `now`, already formatted.
- `readV1Metrics` (plugins/elasticsearch/v1metrics.go:9-25) is not modelled. When called, it is a second subscriber to the series topic: it decodes each message and logs the names `filterV1Metrics` keeps. `Start` does not call it, and its body is a goroutine and log lines. Its filter is `V1Metrics.FilterV1Metrics`.
- The plugin table of main.go and the logger plugin are not modelled. They wire plugins to the broker and print messages.
- Elasticsearch.PluginReceivesSeries: `Start` subscribes from inside a goroutine (plugins/elasticsearch/elasticsearch.go:57-60). A message published after `Start` returns but before that goroutine calls `Subscribe` reaches no plugin channel. The model subscribes at once, and the lemma covers only messages published after the subscription.
- Elasticsearch.ConsumeConcat: a failing `indexer.Close` in `process` (plugins/elasticsearch/elasticsearch.go:132-134) and a failing `elasticsearch.NewClient` in `Start` (plugins/elasticsearch/elasticsearch.go:42-49) call `log.Fatalf`, which exits the program. The model has no client or indexer and treats every batch as flushed.
- Elasticsearch.Process: `process` logs and goes on when creating the bulk indexer fails. The model has no indexer, so it does not represent that path.

## Findings

| source | as written | input that shows it | evidently intended | confidence | as-written member | corrected member |
|---|---|---|---|---|---|---|
| plugins/elasticsearch/v1metrics.go:32-38 | `continue` inside the loop over the filters only moves to the next filter, so every metric is appended | metrics ["system.cpu.system", "foo.datadog.bar"] with the filter `.+\.datadog\..+`: the result keeps "foo.datadog.bar" | drop a metric when any filter matches its name, as the comment "drop excluded metrics" and the first case of elasticsearch_test.go expect | not executed | V1Metrics.FilterV1Metrics | V1Metrics.FilterV1MetricsFixed |
| plugins/elasticsearch/utils.go:93-99 | the slice is made with length n and the documents are then appended, so it holds n nil entries before the n documents | a snapshot with one process gives [nil, doc] | exactly one document per process, in order | not executed | Documents.GetProcDocuments | Documents.GetProcDocumentsFixed |
