/** The metric exclusion filter of plugins/utils.go. A compiled regexp is
    abstracted as the predicate its `MatchString` computes. */
module Exclude {
  import opened Records
  import opened Patterns

  type Filter = string -> bool

  type Filters = seq<Filter>

  /** A name is excluded when at least one filter matches it. */
  predicate Excluded(name: string, fs: Filters) {
    exists i | 0 <= i < |fs| :: fs[i](name)
  }

  /** The survivors, in their original order: the reference definition the
      in-place loop is checked against. */
  function Keep(ms: seq<V1Metric>, fs: Filters): (r: seq<V1Metric>)
    ensures |r| <= |ms|
  {
    if |ms| == 0 then []
    else (if Excluded(ms[0].metric, fs) then [] else [ms[0]]) + Keep(ms[1..], fs)
  }

  /** A metric survives iff it is in the input and no filter matches its
      name. */
  lemma {:induction false} KeepMembership(ms: seq<V1Metric>, fs: Filters)
    ensures forall m :: m in Keep(ms, fs) <==> m in ms && !Excluded(m.metric, fs)
    decreases |ms|
  {
    if |ms| > 0 {
      KeepMembership(ms[1..], fs);
      assert ms == [ms[0]] + ms[1..];
    }
  }

  /** Keep works element by element and keeps order: it distributes over
      concatenation. */
  lemma {:induction false} KeepConcat(a: seq<V1Metric>, b: seq<V1Metric>, fs: Filters)
    ensures Keep(a + b, fs) == Keep(a, fs) + Keep(b, fs)
    decreases |a|
  {
    if |a| == 0 {
      assert a + b == b;
    } else {
      assert (a + b)[0] == a[0];
      assert (a + b)[1..] == a[1..] + b;
      KeepConcat(a[1..], b, fs);
    }
  }

  /** The inner loop of ExcludeV1Metrics: try the filters in order and stop
      at the first match. */
  method KeepName(name: string, exclude: Filters) returns (keep: bool)
    ensures keep <==> !Excluded(name, exclude)
  {
    keep := true;
    var j := 0;
    while j < |exclude|
      invariant 0 <= j <= |exclude|
      invariant forall k :: 0 <= k < j ==> !exclude[k](name)
    {
      if exclude[j](name) {
        keep := false;
        break;
      }
      j := j + 1;
    }
  }

  /** One more element of the input extends the survivors by that element
      exactly when it is not excluded. */
  lemma KeepSnoc(ms: seq<V1Metric>, m: V1Metric, fs: Filters)
    ensures Keep(ms + [m], fs) == Keep(ms, fs) + (if Excluded(m.metric, fs) then [] else [m])
  {
    KeepConcat(ms, [m], fs);
    assert [m][1..] == [];
  }

  /** ExcludeV1Metrics, step by step as the Go loop runs it. Go filters the
      caller's backing array in place: survivor number n is written to
      position n, so afterwards the array holds the survivors followed by the
      untouched tail; `backing` is that array and `kept` the returned
      slice. */
  method ExcludeV1Metrics(metrics: seq<V1Metric>, exclude: Filters)
    returns (kept: seq<V1Metric>, backing: seq<V1Metric>)
    ensures kept == Keep(metrics, exclude)
    ensures |backing| == |metrics|
    ensures backing == kept + metrics[|kept|..]
  {
    var buf := metrics;
    var n := 0;
    var i := 0;
    while i < |metrics|
      invariant n <= i <= |metrics|
      invariant |buf| == |metrics|
      invariant buf[..n] == Keep(metrics[..i], exclude)
      invariant forall k :: n <= k < |buf| ==> buf[k] == metrics[k]
    {
      var m := buf[i];
      var keep := KeepName(m.metric, exclude);
      KeepSnoc(metrics[..i], m, exclude);
      assert metrics[..i + 1] == metrics[..i] + [m];
      if keep {
        buf := Write(buf, n, m);
        n := n + 1;
      }
      i := i + 1;
    }
    assert metrics[..i] == metrics;
    kept := buf[..n];
    backing := buf;
    assert backing == kept + metrics[n..];
  }

  /** `buf[n] = m` on a slice whose first `n` elements are a known prefix. */
  function Write(buf: seq<V1Metric>, n: nat, m: V1Metric): (r: seq<V1Metric>)
    requires n < |buf|
    ensures |r| == |buf|
    ensures r[..n + 1] == buf[..n] + [m]
    ensures forall k :: n < k < |buf| ==> r[k] == buf[k]
  {
    buf[n := m]
  }

  /** With no filters every metric survives. */
  lemma {:induction false} KeepNoFilters(ms: seq<V1Metric>)
    ensures Keep(ms, []) == ms
    decreases |ms|
  {
    if |ms| > 0 {
      KeepNoFilters(ms[1..]);
      assert [ms[0]] + ms[1..] == ms;
    }
  }

  /** The result equals the input exactly when no filter matches any name. */
  lemma {:induction false} KeepIsIdentityIff(ms: seq<V1Metric>, fs: Filters)
    ensures Keep(ms, fs) == ms <==> forall i :: 0 <= i < |ms| ==> !Excluded(ms[i].metric, fs)
    decreases |ms|
  {
    if |ms| > 0 {
      KeepIsIdentityIff(ms[1..], fs);
      if Excluded(ms[0].metric, fs) {
        assert |Keep(ms, fs)| <= |ms[1..]| < |ms|;
      } else {
        assert [ms[0]] + ms[1..] == ms;
        assert forall i :: 1 <= i < |ms| ==> ms[i] == ms[1..][i - 1];
        if Keep(ms, fs) == ms {
          assert Keep(ms[1..], fs) == ms[1..] by {
            assert Keep(ms, fs)[1..] == Keep(ms[1..], fs);
          }
        }
      }
    }
  }

  /** Applying the filter twice is the same as applying it once. */
  lemma KeepIdempotent(ms: seq<V1Metric>, fs: Filters)
    ensures Keep(Keep(ms, fs), fs) == Keep(ms, fs)
  {
    var r := Keep(ms, fs);
    KeepMembership(ms, fs);
    forall i | 0 <= i < |r|
      ensures !Excluded(r[i].metric, fs)
    {
      assert r[i] in r;
    }
    KeepIsIdentityIff(r, fs);
  }

  /** Filtering by one set and then by another is filtering by both. */
  lemma {:induction false} KeepCompose(ms: seq<V1Metric>, fs: Filters, gs: Filters)
    ensures Keep(Keep(ms, fs), gs) == Keep(ms, fs + gs)
    decreases |ms|
  {
    if |ms| > 0 {
      KeepCompose(ms[1..], fs, gs);
      var head := if Excluded(ms[0].metric, fs) then [] else [ms[0]];
      KeepConcat(head, Keep(ms[1..], fs), gs);
      var name := ms[0].metric;
      if Excluded(name, fs + gs) {
        var k :| 0 <= k < |fs + gs| && (fs + gs)[k](name);
        if k < |fs| {
          assert fs[k](name);
        } else {
          assert gs[k - |fs|](name);
        }
      }
      if Excluded(name, fs) {
        var k :| 0 <= k < |fs| && fs[k](name);
        assert (fs + gs)[k](name);
      }
      if Excluded(name, gs) {
        var k :| 0 <= k < |gs| && gs[k](name);
        assert (fs + gs)[|fs| + k](name);
      }
    }
  }

  /** The order of the filters does not matter. */
  lemma {:induction false} KeepFilterOrderIrrelevant(ms: seq<V1Metric>, fs: Filters, gs: Filters)
    ensures Keep(ms, fs + gs) == Keep(ms, gs + fs)
    decreases |ms|
  {
    if |ms| > 0 {
      KeepFilterOrderIrrelevant(ms[1..], fs, gs);
      var name := ms[0].metric;
      if Excluded(name, fs + gs) {
        var k :| 0 <= k < |fs + gs| && (fs + gs)[k](name);
        if k < |fs| {
          assert (gs + fs)[|gs| + k](name);
        } else {
          assert (gs + fs)[k - |fs|](name);
        }
      }
      if Excluded(name, gs + fs) {
        var k :| 0 <= k < |gs + fs| && (gs + fs)[k](name);
        if k < |gs| {
          assert (fs + gs)[|fs| + k](name);
        } else {
          assert (fs + gs)[k - |gs|](name);
        }
      }
    }
  }

  /** A filter set that matches every name drops everything. */
  lemma {:induction false} KeepAllMatch(ms: seq<V1Metric>, fs: Filters)
    requires forall i :: 0 <= i < |ms| ==> Excluded(ms[i].metric, fs)
    ensures Keep(ms, fs) == []
    decreases |ms|
  {
    if |ms| > 0 {
      assert Excluded(ms[0].metric, fs);
      assert forall i :: 1 <= i < |ms| ==> ms[1..][i - 1] == ms[i];
      KeepAllMatch(ms[1..], fs);
    }
  }

  /** plugins/utils_test.go, first case: the datadog pattern drops
      "foo.datadog.bar" and keeps "system.cpu.system". */
  lemma ExcludeDatadogCase()
    ensures Keep([NamedMetric("system.cpu.system"), NamedMetric("foo.datadog.bar")], [DatadogPattern])
         == [NamedMetric("system.cpu.system")]
  {
    DatadogPatternExamples();
    var ms := [NamedMetric("system.cpu.system"), NamedMetric("foo.datadog.bar")];
    assert Excluded("foo.datadog.bar", [DatadogPattern]) by {
      assert [DatadogPattern][0]("foo.datadog.bar");
    }
    KeepSnoc([ms[0]], ms[1], [DatadogPattern]);
    assert [ms[0]] + [ms[1]] == ms;
    KeepSnoc([], ms[0], [DatadogPattern]);
    assert [] + [ms[0]] == [ms[0]];
  }

  /** Second case: `.+` drops every non-empty name. */
  lemma ExcludeAnyCase()
    ensures Keep([NamedMetric("system.cpu.system"), NamedMetric("foo.datadog.bar")], [AnyPattern]) == []
  {
    var ms := [NamedMetric("system.cpu.system"), NamedMetric("foo.datadog.bar")];
    assert AnyPattern(ms[0].metric) by {
      assert ms[0].metric[0] != '\n';
    }
    assert AnyPattern(ms[1].metric) by {
      assert ms[1].metric[0] != '\n';
    }
    assert [AnyPattern][0] == AnyPattern;
    KeepAllMatch(ms, [AnyPattern]);
  }

  /** Third case: nothing matches, so everything is kept in order. */
  lemma ExcludeNoMatchCase()
    ensures Keep([NamedMetric("system.cpu.system"), NamedMetric("system.cpu.user")], [DatadogPattern])
         == [NamedMetric("system.cpu.system"), NamedMetric("system.cpu.user")]
  {
    DatadogPatternExamples();
    var ms := [NamedMetric("system.cpu.system"), NamedMetric("system.cpu.user")];
    assert [DatadogPattern][0] == DatadogPattern;
    KeepIsIdentityIff(ms, [DatadogPattern]);
  }

  lemma DatadogPatternExamples()
    ensures DatadogPattern("foo.datadog.bar")
    ensures !DatadogPattern("system.cpu.system")
    ensures !DatadogPattern("system.cpu.user")
  {
    assert "foo.datadog.bar"[3..12] == ".datadog.";
    assert DatadogAt("foo.datadog.bar", 3);
    var s := "system.cpu.system";
    forall p | 0 <= p < |s|
      ensures !DatadogAt(s, p)
    {
      if 1 <= p && p + 9 < |s| {
        assert s[p..p + 9][0] == s[p] && s[p..p + 9][1] == s[p + 1];
      }
    }
    var u := "system.cpu.user";
    forall p | 0 <= p < |u|
      ensures !DatadogAt(u, p)
    {
      if 1 <= p && p + 9 < |u| {
        assert u[p..p + 9][0] == u[p] && u[p..p + 9][1] == u[p + 1];
      }
    }
  }
}
