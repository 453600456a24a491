/** `filterV1Metrics` of plugins/elasticsearch/v1metrics.go. Its `continue`
    sits inside the loop over the filters, so it only skips to the next
    filter; the `append` after that loop runs for every metric. The function
    therefore returns a copy of its input whatever the filters are. */
module V1Metrics {
  import opened Records
  import opened Exclude

  /** The loop as written: the result is always the input, in order. */
  method FilterV1Metrics(metrics: seq<V1Metric>, exclude: Filters) returns (out: seq<V1Metric>)
    ensures out == metrics
  {
    out := [];
    for i := 0 to |metrics|
      invariant out == metrics[..i]
    {
      var m := metrics[i];
      for j := 0 to |exclude| {
        if exclude[j](m.metric) {
          continue;
        }
      }
      out := out + [m];
    }
  }

  /** The loop as its comment intends: `continue` leaves the filter loop and
      skips the `append`, so matched metrics are dropped. This agrees with
      `Exclude.Keep`. */
  method FilterV1MetricsFixed(metrics: seq<V1Metric>, exclude: Filters) returns (out: seq<V1Metric>)
    ensures out == Keep(metrics, exclude)
  {
    out := [];
    var i := 0;
    label metricsLoop: while i < |metrics|
      invariant 0 <= i <= |metrics|
      invariant out == Keep(metrics[..i], exclude)
    {
      var m := metrics[i];
      i := i + 1;
      KeepSnoc(metrics[..i - 1], m, exclude);
      assert metrics[..i] == metrics[..i - 1] + [m];
      var j := 0;
      while j < |exclude|
        invariant 0 <= j <= |exclude|
        invariant forall k :: 0 <= k < j ==> !exclude[k](m.metric)
      {
        if exclude[j](m.metric) {
          continue metricsLoop;
        }
        j := j + 1;
      }
      out := out + [m];
    }
    assert metrics[..i] == metrics;
  }

  /** Runs the as-written loop and `Exclude.ExcludeV1Metrics` on the same
      input and compares the results: they agree exactly when no filter
      matches any metric name. The step from the loop's contract (its result
      is its input) is `Exclude.KeepIsIdentityIff`. */
  method AgreesWithExcludeIff(metrics: seq<V1Metric>, exclude: Filters) returns (agrees: bool)
    ensures agrees <==> forall i :: 0 <= i < |metrics| ==> !Excluded(metrics[i].metric, exclude)
  {
    var out := FilterV1Metrics(metrics, exclude);
    var kept, _ := ExcludeV1Metrics(metrics, exclude);
    agrees := out == kept;
    KeepIsIdentityIff(metrics, exclude);
  }

  /** The first case of plugins/elasticsearch/elasticsearch_test.go expects
      "foo.datadog.bar" to be dropped; the as-written loop returns both
      metrics, while the fixed loop returns the expected list. */
  lemma FilterTestCaseDiscrepancy()
    ensures var input := [NamedMetric("system.cpu.system"), NamedMetric("foo.datadog.bar")];
      var expected := [NamedMetric("system.cpu.system")];
      input != expected && Keep(input, [Patterns.DatadogPattern]) == expected
  {
    ExcludeDatadogCase();
  }

  /** Both loops run on that test case: the as-written one keeps
      "foo.datadog.bar", the fixed one returns the expected list. */
  method FilterTestCase() returns (asWritten: seq<V1Metric>, fixed: seq<V1Metric>)
    ensures asWritten == [NamedMetric("system.cpu.system"), NamedMetric("foo.datadog.bar")]
    ensures fixed == [NamedMetric("system.cpu.system")]
    ensures asWritten != fixed
  {
    var input := [NamedMetric("system.cpu.system"), NamedMetric("foo.datadog.bar")];
    asWritten := FilterV1Metrics(input, [Patterns.DatadogPattern]);
    fixed := FilterV1MetricsFixed(input, [Patterns.DatadogPattern]);
    FilterTestCaseDiscrepancy();
  }
}
