/**
 * Building a log group's metric descriptors (collector/collector.go:61-244).
 * The metrics are counted per kind, four slices of those sizes are made,
 * and each metric in configuration order is written at its kind's
 * decremented counter, so each slice holds its kind's metrics in reverse
 * order.  Defaults are written back into the metric configuration; a
 * missing value key, a value template that does not parse, or an unknown
 * type is fatal.
 */
module Collector {
  import opened Wrappers
  import opened Foreign
  import opened Config
  import opened Resolution

  datatype Kind = Counter | Gauge | Histogram | Summary

  /** The type string that names kind `k` in the configuration. */
  function TypeName(k: Kind): string
  {
    match k
    case Counter => "counter"
    case Gauge => "gauge"
    case Histogram => "histogram"
    case Summary => "summary"
  }

  /**
   * The kind a configured type string names, if any: the inverse of
   * TypeName, and None for every other string.
   */
  function KindOf(t: string): (r: Option<Kind>)
    ensures r.Some? ==> TypeName(r.value) == t
    ensures r.None? ==> forall k :: TypeName(k) != t
  {
    if t == "counter" then Some(Counter)
    else if t == "gauge" then Some(Gauge)
    else if t == "histogram" then Some(Histogram)
    else if t == "summary" then Some(Summary)
    else None
  }

  /** The namespace of every metric the exporter creates. */
  const Namespace: string := "jsonlog"

  /** prometheus.DefBuckets. */
  const DefBuckets: seq<real> := [0.005, 0.01, 0.025, 0.05, 0.1, 0.25, 0.5, 1.0, 2.5, 5.0, 10.0]

  /** prometheus.DefMaxAge: ten minutes, in nanoseconds. */
  const DefMaxAge: int := 600_000_000_000

  /** prometheus.DefAgeBuckets. */
  const DefAgeBuckets: nat := 5

  /** The bucket list after construction: a histogram with none gets the defaults. */
  function BucketsAfter(t: string, b: seq<real>): (r: seq<real>)
    ensures t == "histogram" && |b| == 0 ==> r == DefBuckets
    ensures t != "histogram" || |b| > 0 ==> r == b
    ensures |r| > 0 || t != "histogram"
  {
    if t == "histogram" && |b| == 0 then DefBuckets else b
  }

  /** The max age after construction: a summary with zero gets the default. */
  function MaxAgeAfter(t: string, a: int): (r: int)
    ensures t == "summary" && a == 0 ==> r == DefMaxAge
    ensures t != "summary" || a != 0 ==> r == a
    ensures r != 0 || t != "summary"
  {
    if t == "summary" && a == 0 then DefMaxAge else a
  }

  /** The age-bucket count after construction: a summary with zero gets the default. */
  function AgeBucketsAfter(t: string, n: nat): (r: nat)
    ensures t == "summary" && n == 0 ==> r == DefAgeBuckets
    ensures t != "summary" || n != 0 ==> r == n
    ensures r != 0 || t != "summary"
  {
    if t == "summary" && n == 0 then DefAgeBuckets else n
  }

  /** The kind-specific options of a metric vector. */
  datatype Params =
    | CounterParams
    | GaugeParams
    | HistogramParams(buckets: seq<real>)
    | SummaryParams(objectives: map<real, real>, maxAge: int, ageBuckets: nat)

  /** The options a metric vector is created with. */
  datatype Opts = Opts(namespace: string, subsystem: string, name: string, help: string,
                       params: Params)

  /** One built metric: the struct counter, gauge, histogram or summary. */
  datatype Descriptor = Descriptor(
    key: string,
    valueTpl: Template,
    opts: Opts,
    labelNames: seq<string>,
    labelValues: seq<Template>)

  /** A built log group. */
  datatype Collector = Collector(
    Name: string,
    counters: seq<Descriptor>,
    gauges: seq<Descriptor>,
    histograms: seq<Descriptor>,
    summaries: seq<Descriptor>,
    cfg: LogGroupConfig)
  {
    /** The slice holding the descriptors of kind `k`. */
    function Slice(k: Kind): seq<Descriptor>
    {
      match k
      case Counter => counters
      case Gauge => gauges
      case Histogram => histograms
      case Summary => summaries
    }
  }

  /** Why construction stops the process. */
  datatype Fault =
    | MissingValueKey(kind: Kind, group: string, metric: string)
    | BadValueTemplate(template: Template)
    | InvalidMetricType(metricType: string)

  /** The template collector.go builds for a metric's value. */
  function ValueTemplate(group: string, metric: string, key: string): Template
  {
    Template(group + ":" + metric + ":+value", key)
  }

  /**
   * Whether, and why, building metric `m` of group `group` is fatal: an
   * unknown type; a gauge, histogram or summary without a value key; or a
   * value template that does not parse (checked for counters too, also
   * when their key is empty).
   */
  function MetricFault(ext: Externals, group: string, m: MetricConfig): (r: Option<Fault>)
    ensures KindOf(m.Type).None? ==> r == Some(InvalidMetricType(m.Type))
    ensures KindOf(m.Type).Some? && KindOf(m.Type) != Some(Counter) && m.ValueKey == "" ==>
              r == Some(MissingValueKey(KindOf(m.Type).value, group, m.Name))
    ensures r.Some? && r.value.BadValueTemplate? ==>
              r.value.template == ValueTemplate(group, m.Name, m.ValueKey)
              && !ext.Parses(r.value.template)
    ensures r.None? <==>
              && KindOf(m.Type).Some?
              && (KindOf(m.Type) == Some(Counter) || m.ValueKey != "")
              && ext.Parses(ValueTemplate(group, m.Name, m.ValueKey))
  {
    match KindOf(m.Type)
    case None => Some(InvalidMetricType(m.Type))
    case Some(k) =>
      if k != Counter && m.ValueKey == "" then Some(MissingValueKey(k, group, m.Name))
      else if !ext.Parses(ValueTemplate(group, m.Name, m.ValueKey))
      then Some(BadValueTemplate(ValueTemplate(group, m.Name, m.ValueKey)))
      else None
  }

  /** A counter with an empty value key is accepted, since the empty source parses. */
  lemma KeylessCounterAccepted(ext: Externals, group: string, m: MetricConfig)
    requires ext.EmptyParses()
    requires m.Type == "counter" && m.ValueKey == ""
    ensures MetricFault(ext, group, m).None?
  {
    assert ext.Parses(ValueTemplate(group, m.Name, m.ValueKey));
  }

  /** The fault of the first faulty metric, in configuration order. */
  function FirstFault(ext: Externals, group: string, ms: seq<MetricConfig>): (r: Option<Fault>)
    ensures r.Some? ==> exists j :: 0 <= j < |ms| && MetricFault(ext, group, ms[j]) == r
                                    && forall i :: 0 <= i < j ==> MetricFault(ext, group, ms[i]).None?
  {
    if ms == [] then None
    else if MetricFault(ext, group, ms[0]).Some? then MetricFault(ext, group, ms[0])
    else FirstFault(ext, group, ms[1..])
  }

  /** Past a prefix of sound metrics, the first fault is that of the rest. */
  lemma {:induction false} FirstFaultAfter(ext: Externals, group: string,
                                           ms: seq<MetricConfig>, i: nat)
    requires i <= |ms|
    requires forall j :: 0 <= j < i ==> MetricFault(ext, group, ms[j]).None?
    ensures FirstFault(ext, group, ms) == FirstFault(ext, group, ms[i..])
  {
    if i > 0 {
      FirstFaultAfter(ext, group, ms[1..], i - 1);
      assert ms[1..][i - 1..] == ms[i..];
    }
  }

  /** Construction is fatal exactly when some metric is faulty. */
  lemma {:induction false} FirstFaultNone(ext: Externals, group: string, ms: seq<MetricConfig>)
    ensures FirstFault(ext, group, ms).None? <==>
            forall j :: 0 <= j < |ms| ==> MetricFault(ext, group, ms[j]).None?
  {
    if ms != [] {
      FirstFaultNone(ext, group, ms[1..]);
      assert forall j :: 1 <= j < |ms| ==> ms[j] == ms[1..][j - 1];
    }
  }

  /** The number of metrics of kind `k`. */
  function CountOf(ms: seq<MetricConfig>, k: Kind): (n: nat)
    ensures n <= |ms|
  {
    if ms == [] then 0
    else CountOf(ms[..|ms| - 1], k) + (if KindOf(ms[|ms| - 1].Type) == Some(k) then 1 else 0)
  }

  /** Counting a longer prefix never counts fewer. */
  lemma {:induction false} CountOfMonotone(ms: seq<MetricConfig>, i: nat, j: nat, k: Kind)
    requires i <= j <= |ms|
    ensures CountOf(ms[..i], k) <= CountOf(ms[..j], k)
    decreases j - i
  {
    if i < j {
      CountOfMonotone(ms, i, j - 1, k);
      assert ms[..j][..j - 1] == ms[..j - 1];
    }
  }

  /** One more metric in the prefix counts one more of its own kind. */
  lemma CountOfStep(ms: seq<MetricConfig>, i: nat, k: Kind)
    requires i < |ms|
    ensures CountOf(ms[..i + 1], k)
            == CountOf(ms[..i], k) + (if KindOf(ms[i].Type) == Some(k) then 1 else 0)
  {
    assert ms[..i + 1][..i] == ms[..i];
  }

  /**
   * The slot of metric `j` in its kind's slice: the k-th metric of a kind
   * (counting from 0) sits at index count - 1 - k.
   */
  function Slot(ms: seq<MetricConfig>, j: nat): (s: nat)
    requires j < |ms| && KindOf(ms[j].Type).Some?
    ensures s < CountOf(ms, KindOf(ms[j].Type).value)
  {
    var k := KindOf(ms[j].Type).value;
    CountOfStep(ms, j, k);
    CountOfMonotone(ms, j + 1, |ms|, k);
    assert ms[..|ms|] == ms;
    CountOf(ms, k) - 1 - CountOf(ms[..j], k)
  }

  /** Later metrics of a kind sit at lower slots: the slice is in reverse order. */
  lemma SlotReversed(ms: seq<MetricConfig>, j1: nat, j2: nat)
    requires j1 < j2 < |ms|
    requires KindOf(ms[j1].Type).Some? && KindOf(ms[j1].Type) == KindOf(ms[j2].Type)
    ensures Slot(ms, j2) < Slot(ms, j1)
  {
    var k := KindOf(ms[j1].Type).value;
    CountOfStep(ms, j1, k);
    CountOfMonotone(ms, j1 + 1, j2, k);
  }

  /** The first counting loop of collector.go:68-80. */
  method CountKinds(ms: seq<MetricConfig>)
    returns (numCounter: nat, numGauge: nat, numHistogram: nat, numSummary: nat)
    ensures numCounter == CountOf(ms, Counter) && numGauge == CountOf(ms, Gauge)
    ensures numHistogram == CountOf(ms, Histogram) && numSummary == CountOf(ms, Summary)
  {
    numCounter, numGauge, numHistogram, numSummary := 0, 0, 0, 0;
    for i := 0 to |ms|
      invariant numCounter == CountOf(ms[..i], Counter) && numGauge == CountOf(ms[..i], Gauge)
      invariant numHistogram == CountOf(ms[..i], Histogram)
      invariant numSummary == CountOf(ms[..i], Summary)
    {
      CountOfStep(ms, i, Counter);
      CountOfStep(ms, i, Gauge);
      CountOfStep(ms, i, Histogram);
      CountOfStep(ms, i, Summary);
      var t := ms[i].Type;
      if t == "counter" {
        numCounter := numCounter + 1;
      } else if t == "gauge" {
        numGauge := numGauge + 1;
      } else if t == "histogram" {
        numHistogram := numHistogram + 1;
      } else if t == "summary" {
        numSummary := numSummary + 1;
      }
    }
    assert ms[..|ms|] == ms;
  }

  /** The three parameters construction may default: buckets, max age, age buckets. */
  datatype Tuning = Tuning(buckets: seq<real>, maxAge: int, ageBuckets: nat)

  /** The current parameters of metric `m`. */
  function TuningOf(m: MetricConfig): Tuning
    reads m
  {
    Tuning(m.Buckets, m.SummaryMaxAge, m.SummaryAgeBuckets)
  }

  /** The parameters after construction, for a metric of type `t`. */
  function TuningAfter(t: string, p: Tuning): (r: Tuning)
    ensures r.buckets == BucketsAfter(t, p.buckets)
    ensures r.maxAge == MaxAgeAfter(t, p.maxAge)
    ensures r.ageBuckets == AgeBucketsAfter(t, p.ageBuckets)
  {
    Tuning(BucketsAfter(t, p.buckets), MaxAgeAfter(t, p.maxAge), AgeBucketsAfter(t, p.ageBuckets))
  }

  /** Defaulting twice changes nothing the second time. */
  lemma TuningAfterIdempotent(t: string, p: Tuning)
    ensures TuningAfter(t, TuningAfter(t, p)) == TuningAfter(t, p)
  {
  }

  /** The options metric `m` is created with, given its (defaulted) parameters. */
  function OptsOf(group: string, m: MetricConfig, p: Tuning): (o: Opts)
    ensures o.namespace == Namespace && o.subsystem == group
    ensures o.name == m.Name && o.help == m.Desc
    ensures KindOf(m.Type) == Some(Histogram) <==> o.params == HistogramParams(p.buckets)
    ensures KindOf(m.Type) == Some(Summary) <==>
              o.params == SummaryParams(m.Objectives, p.maxAge, p.ageBuckets)
    ensures KindOf(m.Type) == Some(Gauge) <==> o.params == GaugeParams
    ensures KindOf(m.Type) == Some(Counter) ==> o.params == CounterParams
  {
    var params := match KindOf(m.Type)
                  case Some(Histogram) => HistogramParams(p.buckets)
                  case Some(Summary) => SummaryParams(m.Objectives, p.maxAge, p.ageBuckets)
                  case Some(Gauge) => GaugeParams
                  case _ => CounterParams;
    Opts(Namespace, group, m.Name, m.Desc, params)
  }

  /**
   * `d` is the descriptor of metric `m` with the given labels and
   * parameters: its value key and template and its options.
   */
  ghost predicate Described(group: string, m: MetricConfig, p: Tuning,
                            labels: seq<string>, values: seq<Template>, d: Descriptor)
  {
    && KindOf(m.Type).Some?
    && d == Descriptor(m.ValueKey, ValueTemplate(group, m.Name, m.ValueKey),
                       OptsOf(group, m, p), labels, values)
  }

  /**
   * `d` is what the construction gives metric `m` of group `group`, whose
   * labels are listed as `gl`/`gv`: for some listing of the metric's own
   * labels, its labels are resolved from the two listings.
   */
  ghost predicate Built(ext: Externals, group: string, gl: seq<string>, gv: seq<string>,
                        m: MetricConfig, p: Tuning, d: Descriptor)
    requires |gl| == |gv|
  {
    exists l, v :: IsListing(m.MetricLabels, l, v)
                   && Described(group, m, p, Resolve(ext, group, m.Name, gl, gv, l, v).0,
                                Resolve(ext, group, m.Name, gl, gv, l, v).1, d)
  }

  /**
   * A built descriptor's label names are distinct and co-indexed with its
   * label templates when the group's labels were listed from a map, and
   * every local label whose template parses is among them.
   */
  lemma BuiltLabels(ext: Externals, group: string, gl: seq<string>, gv: seq<string>,
                    m: MetricConfig, p: Tuning, d: Descriptor, globals: map<string, string>)
    requires IsListing(globals, gl, gv)
    requires Built(ext, group, gl, gv, m, p, d)
    ensures Distinct(d.labelNames) && |d.labelNames| == |d.labelValues|
    ensures forall ln :: ln in m.MetricLabels
                         && ext.Parses(LabelTemplate(group, m.Name, ln, m.MetricLabels[ln]))
                         ==> ln in d.labelNames
  {
    var l, v :| IsListing(m.MetricLabels, l, v)
                && Described(group, m, p, Resolve(ext, group, m.Name, gl, gv, l, v).0,
                             Resolve(ext, group, m.Name, gl, gv, l, v).1, d);
    ResolveDistinct(ext, group, m.Name, gl, gv, l, v);
    ResolveSpec(ext, group, m.Name, gl, gv, l, v);
    ResolveIncludesLocal(ext, group, m.Name, gl, gv, l, v);
    forall ln | ln in m.MetricLabels
                && ext.Parses(LabelTemplate(group, m.Name, ln, m.MetricLabels[ln]))
      ensures ln in d.labelNames
    {
      var j :| 0 <= j < |l| && l[j] == ln;
      assert v[j] == m.MetricLabels[ln];
    }
  }

  method BuildDescriptor(ext: Externals, group: string, m: MetricConfig,
                         labels: seq<string>, values: seq<Template>)
    returns (r: Result<Descriptor, Fault>)
    modifies m
    ensures m.Buckets == BucketsAfter(m.Type, old(m.Buckets))
    ensures m.SummaryMaxAge == MaxAgeAfter(m.Type, old(m.SummaryMaxAge))
    ensures m.SummaryAgeBuckets == AgeBucketsAfter(m.Type, old(m.SummaryAgeBuckets))
    ensures r.Failure? <==> MetricFault(ext, group, m).Some?
    ensures r.Failure? ==> r.error == MetricFault(ext, group, m).value
    ensures r.Success? ==> Described(group, m, TuningOf(m), labels, values, r.value)
  {
    var tpl := ValueTemplate(group, m.Name, m.ValueKey);
    if m.Type == "counter" {
      if !ext.Parses(tpl) {
        return Failure(BadValueTemplate(tpl));
      }
      var opts := Opts(Namespace, group, m.Name, m.Desc, CounterParams);
      r := Success(Descriptor(m.ValueKey, tpl, opts, labels, values));
    } else if m.Type == "gauge" {
      if m.ValueKey == "" {
        return Failure(MissingValueKey(Gauge, group, m.Name));
      }
      if !ext.Parses(tpl) {
        return Failure(BadValueTemplate(tpl));
      }
      var opts := Opts(Namespace, group, m.Name, m.Desc, GaugeParams);
      r := Success(Descriptor(m.ValueKey, tpl, opts, labels, values));
    } else if m.Type == "histogram" {
      if |m.Buckets| == 0 {
        m.Buckets := DefBuckets;
      }
      var opts := Opts(Namespace, group, m.Name, m.Desc, HistogramParams(m.Buckets));
      if m.ValueKey == "" {
        return Failure(MissingValueKey(Histogram, group, m.Name));
      }
      if !ext.Parses(tpl) {
        return Failure(BadValueTemplate(tpl));
      }
      r := Success(Descriptor(m.ValueKey, tpl, opts, labels, values));
    } else if m.Type == "summary" {
      if m.SummaryMaxAge == 0 {
        m.SummaryMaxAge := DefMaxAge;
      }
      if m.SummaryAgeBuckets == 0 {
        m.SummaryAgeBuckets := DefAgeBuckets;
      }
      var opts := Opts(Namespace, group, m.Name, m.Desc,
                       SummaryParams(m.Objectives, m.SummaryMaxAge, m.SummaryAgeBuckets));
      if m.ValueKey == "" {
        return Failure(MissingValueKey(Summary, group, m.Name));
      }
      if !ext.Parses(tpl) {
        return Failure(BadValueTemplate(tpl));
      }
      r := Success(Descriptor(m.ValueKey, tpl, opts, labels, values));
    } else {
      r := Failure(InvalidMetricType(m.Type));
    }
  }

  /**
   * Building one metric of group `group` (collector.go:90-240): its labels
   * are listed and resolved against the group's listing `gl`/`gv`, then
   * the descriptor is made.
   */
  method BuildMetric(ext: Externals, group: string, gl: seq<string>, gv: seq<string>,
                     m: MetricConfig)
    returns (r: Result<Descriptor, Fault>)
    requires |gl| == |gv|
    modifies m
    ensures m.Buckets == BucketsAfter(m.Type, old(m.Buckets))
    ensures m.SummaryMaxAge == MaxAgeAfter(m.Type, old(m.SummaryMaxAge))
    ensures m.SummaryAgeBuckets == AgeBucketsAfter(m.Type, old(m.SummaryAgeBuckets))
    ensures r.Failure? <==> MetricFault(ext, group, m).Some?
    ensures r.Failure? ==> r.error == MetricFault(ext, group, m).value
    ensures r.Success? ==> Built(ext, group, gl, gv, m, TuningOf(m), r.value)
  {
    var l, v := m.Labels();
    var labels, values := ResolveLabels(ext, group, m.Name, gl, gv, l, v);
    r := BuildDescriptor(ext, group, m, labels, values);
  }

  /** The sequence backwards. */
  function Reversed<T>(s: seq<T>): (r: seq<T>)
    ensures |r| == |s| && forall i :: 0 <= i < |s| ==> r[i] == s[|s| - 1 - i]
  {
    seq(|s|, i requires 0 <= i < |s| => s[|s| - 1 - i])
  }

  /** Appending at the back of a sequence puts the element at the front of its reverse. */
  lemma ReversedSnoc<T>(s: seq<T>, x: T)
    ensures Reversed(s + [x]) == [x] + Reversed(s)
  {
    assert forall i :: 0 <= i < |s| + 1 ==> Reversed(s + [x])[i] == ([x] + Reversed(s))[i];
  }

  /**
   * The descriptors of the metrics of kind `k`, in configuration order,
   * where `ds[j]` is the descriptor of metric `ms[j]`.
   */
  function OfKind(ms: seq<MetricConfig>, ds: seq<Descriptor>, k: Kind): (r: seq<Descriptor>)
    requires |ms| == |ds|
    ensures |r| == CountOf(ms, k)
  {
    if ms == [] then []
    else OfKind(ms[..|ms| - 1], ds[..|ds| - 1], k)
         + (if KindOf(ms[|ms| - 1].Type) == Some(k) then [ds[|ds| - 1]] else [])
  }

  /** The descriptor of a metric of kind `k` comes after those of the earlier ones. */
  lemma {:induction false} OfKindAt(ms: seq<MetricConfig>, ds: seq<Descriptor>, j: nat, k: Kind)
    requires |ms| == |ds| && j < |ms| && KindOf(ms[j].Type) == Some(k)
    ensures CountOf(ms[..j], k) < CountOf(ms, k)
    ensures OfKind(ms, ds, k)[CountOf(ms[..j], k)] == ds[j]
  {
    var n := |ms| - 1;
    if j < n {
      OfKindAt(ms[..n], ds[..n], j, k);
      assert ms[..n][..j] == ms[..j];
    } else {
      assert ms[..n] == ms[..j];
    }
  }

  /** Every descriptor of kind `k` is the descriptor of some metric of that kind. */
  lemma {:induction false} OfKindFrom(ms: seq<MetricConfig>, ds: seq<Descriptor>, k: Kind, p: nat)
    requires |ms| == |ds| && p < CountOf(ms, k)
    ensures exists j :: 0 <= j < |ms| && KindOf(ms[j].Type) == Some(k)
                        && OfKind(ms, ds, k)[p] == ds[j]
  {
    var n := |ms| - 1;
    var pre := OfKind(ms[..n], ds[..n], k);
    if p < |pre| {
      OfKindFrom(ms[..n], ds[..n], k, p);
      var j :| 0 <= j < n && KindOf(ms[..n][j].Type) == Some(k) && pre[p] == ds[..n][j];
      assert ms[..n][j] == ms[j] && ds[..n][j] == ds[j];
    } else {
      assert KindOf(ms[n].Type) == Some(k) && OfKind(ms, ds, k)[p] == ds[n];
    }
  }

  /**
   * Each slice holds its kind's descriptors in reverse configuration
   * order, so metric `j` sits at Slot(ms, j) of its kind's slice.
   */
  lemma SliceAtSlot(ms: seq<MetricConfig>, ds: seq<Descriptor>, j: nat)
    requires |ms| == |ds| && j < |ms| && KindOf(ms[j].Type).Some?
    ensures Slot(ms, j) < CountOf(ms, KindOf(ms[j].Type).value)
    ensures Reversed(OfKind(ms, ds, KindOf(ms[j].Type).value))[Slot(ms, j)] == ds[j]
  {
    OfKindAt(ms, ds, j, KindOf(ms[j].Type).value);
  }

  /** A descriptor's label names are distinct, one per label template. */
  ghost predicate WellLabelled(d: Descriptor)
  {
    Distinct(d.labelNames) && |d.labelNames| == |d.labelValues|
  }

  /**
   * Every descriptor in the slices of `c` is WellLabelled, so
   * `WithLabelValues` gets one value per label name.
   */
  ghost predicate Labelled(c: Collector)
  {
    forall k: Kind, s :: 0 <= s < |c.Slice(k)| ==> WellLabelled(c.Slice(k)[s])
  }

  /** Descriptors built from the group's listed labels are WellLabelled. */
  lemma BuiltWellLabelled(ext: Externals, group: string, globals: map<string, string>,
                          gl: seq<string>, gv: seq<string>, ms: seq<MetricConfig>,
                          p0: seq<Tuning>, ds: seq<Descriptor>)
    requires IsListing(globals, gl, gv) && |ms| == |p0| == |ds|
    requires forall j :: 0 <= j < |ds| ==>
               Built(ext, group, gl, gv, ms[j], TuningAfter(ms[j].Type, p0[j]), ds[j])
    ensures forall j :: 0 <= j < |ds| ==> WellLabelled(ds[j])
  {
    forall j | 0 <= j < |ds| ensures WellLabelled(ds[j]) {
      BuiltLabels(ext, group, gl, gv, ms[j], TuningAfter(ms[j].Type, p0[j]), ds[j], globals);
    }
  }

  /** Every entry of a kind's reversed slice is one of the descriptors. */
  lemma EntryLabelled(ms: seq<MetricConfig>, ds: seq<Descriptor>, k: Kind, s: nat)
    requires |ms| == |ds| && forall j :: 0 <= j < |ds| ==> WellLabelled(ds[j])
    requires s < CountOf(ms, k)
    ensures WellLabelled(Reversed(OfKind(ms, ds, k))[s])
  {
    var n := CountOf(ms, k);
    OfKindFrom(ms, ds, k, n - 1 - s);
  }

  /**
   * A collector whose slices hold, in reverse order, WellLabelled
   * descriptors is Labelled.
   */
  lemma SlicesLabelled(ms: seq<MetricConfig>, ds: seq<Descriptor>, c: Collector)
    requires |ms| == |ds| && forall j :: 0 <= j < |ds| ==> WellLabelled(ds[j])
    requires forall k :: c.Slice(k) == Reversed(OfKind(ms, ds, k))
    ensures Labelled(c)
  {
    forall k: Kind, s | 0 <= s < |c.Slice(k)| ensures WellLabelled(c.Slice(k)[s]) {
      assert c.Slice(k) == Reversed(OfKind(ms, ds, k));
      EntryLabelled(ms, ds, k, s);
    }
  }

  /** Extending the metrics by one and its descriptor. */
  lemma OfKindSnoc(ms: seq<MetricConfig>, ds: seq<Descriptor>, i: nat, d: Descriptor, k: Kind)
    requires i < |ms| && |ds| == i
    ensures OfKind(ms[..i + 1], ds + [d], k)
            == OfKind(ms[..i], ds, k) + (if KindOf(ms[i].Type) == Some(k) then [d] else [])
  {
    assert ms[..i + 1][..i] == ms[..i];
    assert (ds + [d])[..i] == ds;
  }

  /**
   * `a` holds the descriptors `s` in its slots from `n` on; the slots
   * before `n` are still unset.
   */
  ghost predicate Stores(a: seq<Option<Descriptor>>, n: int, s: seq<Descriptor>)
  {
    && 0 <= n && n + |s| == |a|
    && forall t :: n <= t < |a| ==> a[t] == Some(s[t - n])
  }

  /** Setting the slot before `n` stores one more descriptor at the front. */
  lemma StoresPlace(a: seq<Option<Descriptor>>, n: int, s: seq<Descriptor>, d: Descriptor)
    requires Stores(a, n, s) && 0 < n
    ensures Stores(a[n - 1 := Some(d)], n - 1, [d] + s)
  {
  }

  /** A metric of another kind leaves the slice of kind `k` as it was. */
  lemma StoresAfter(ms: seq<MetricConfig>, ds: seq<Descriptor>, i: nat, d: Descriptor, k: Kind,
                    a: seq<Option<Descriptor>>, n: int)
    requires i < |ms| && |ds| == i && KindOf(ms[i].Type) != Some(k)
    requires Stores(a, n, Reversed(OfKind(ms[..i], ds, k)))
    ensures Stores(a, n, Reversed(OfKind(ms[..i + 1], ds + [d], k)))
  {
    OfKindSnoc(ms, ds, i, d, k);
    assert OfKind(ms[..i + 1], ds + [d], k) == OfKind(ms[..i], ds, k);
  }

  /** Metric `i` of kind `k` goes into the slot before the decremented counter. */
  lemma StoresNext(ms: seq<MetricConfig>, ds: seq<Descriptor>, i: nat, d: Descriptor, k: Kind,
                   a: seq<Option<Descriptor>>, n: int)
    requires i < |ms| && |ds| == i && KindOf(ms[i].Type) == Some(k)
    requires |a| == CountOf(ms, k)
    requires Stores(a, n, Reversed(OfKind(ms[..i], ds, k)))
    ensures 0 < n
    ensures Stores(a[n - 1 := Some(d)], n - 1, Reversed(OfKind(ms[..i + 1], ds + [d], k)))
  {
    OfKindSnoc(ms, ds, i, d, k);
    CountOfStep(ms, i, k);
    CountOfMonotone(ms, i + 1, |ms|, k);
    assert ms[..|ms|] == ms;
    ReversedSnoc(OfKind(ms[..i], ds, k), d);
    StoresPlace(a, n, Reversed(OfKind(ms[..i], ds, k)), d);
  }

  /** A slice with every slot set, without the Option wrapping. */
  function Unwrapped(a: seq<Option<Descriptor>>): (r: seq<Descriptor>)
    requires forall s :: 0 <= s < |a| ==> a[s].Some?
    ensures |r| == |a| && forall s :: 0 <= s < |a| ==> a[s] == Some(r[s])
  {
    seq(|a|, s requires 0 <= s < |a| => a[s].value)
  }

  /** A slice storing its descriptors from slot 0 on is exactly those descriptors. */
  lemma StoresAll(a: seq<Option<Descriptor>>, s: seq<Descriptor>)
    requires Stores(a, 0, s)
    ensures forall t :: 0 <= t < |a| ==> a[t].Some?
    ensures Unwrapped(a) == s
  {
  }

  /**
   * The four slices once the first `i` metrics are placed: slice `cs`
   * stores the counters among them from slot `nc` on, and so on; the
   * slices have the counted sizes.
   */
  ghost predicate Slots(ms: seq<MetricConfig>, i: nat, ds: seq<Descriptor>,
                        cs: seq<Option<Descriptor>>, gs: seq<Option<Descriptor>>,
                        hs: seq<Option<Descriptor>>, ss: seq<Option<Descriptor>>,
                        nc: int, ng: int, nh: int, ns: int)
  {
    && i <= |ms| && |ds| == i
    && |cs| == CountOf(ms, Counter) && |gs| == CountOf(ms, Gauge)
    && |hs| == CountOf(ms, Histogram) && |ss| == CountOf(ms, Summary)
    && Stores(cs, nc, Reversed(OfKind(ms[..i], ds, Counter)))
    && Stores(gs, ng, Reversed(OfKind(ms[..i], ds, Gauge)))
    && Stores(hs, nh, Reversed(OfKind(ms[..i], ds, Histogram)))
    && Stores(ss, ns, Reversed(OfKind(ms[..i], ds, Summary)))
  }

  /** Empty slices of the counted sizes. */
  lemma SlotsStart(ms: seq<MetricConfig>, cs: seq<Option<Descriptor>>, gs: seq<Option<Descriptor>>,
                   hs: seq<Option<Descriptor>>, ss: seq<Option<Descriptor>>)
    requires |cs| == CountOf(ms, Counter) && |gs| == CountOf(ms, Gauge)
    requires |hs| == CountOf(ms, Histogram) && |ss| == CountOf(ms, Summary)
    ensures Slots(ms, 0, [], cs, gs, hs, ss, |cs|, |gs|, |hs|, |ss|)
  {
    assert ms[..0] == [];
  }

  /** With every metric placed, every slot of every slice is set. */
  lemma SlotsFull(ms: seq<MetricConfig>, ds: seq<Descriptor>,
                  cs: seq<Option<Descriptor>>, gs: seq<Option<Descriptor>>,
                  hs: seq<Option<Descriptor>>, ss: seq<Option<Descriptor>>,
                  nc: int, ng: int, nh: int, ns: int)
    requires Slots(ms, |ms|, ds, cs, gs, hs, ss, nc, ng, nh, ns)
    ensures nc == 0 && ng == 0 && nh == 0 && ns == 0
    ensures Slots(ms, |ms|, ds, cs, gs, hs, ss, 0, 0, 0, 0)
  {
    assert ms[..|ms|] == ms;
  }

  /**
   * Every metric of `ms` has its descriptor in `ds`, built with the
   * defaulted parameters of its entry values `p0`.
   */
  ghost predicate AllBuilt(ext: Externals, group: string, gl: seq<string>, gv: seq<string>,
                           ms: seq<MetricConfig>, p0: seq<Tuning>, ds: seq<Descriptor>)
    requires |gl| == |gv| && |ms| == |p0| == |ds|
  {
    if ms == [] then true
    else
      var n := |ms| - 1;
      && AllBuilt(ext, group, gl, gv, ms[..n], p0[..n], ds[..n])
      && Built(ext, group, gl, gv, ms[n], TuningAfter(ms[n].Type, p0[n]), ds[n])
  }

  /** One more built metric. */
  lemma AllBuiltSnoc(ext: Externals, group: string, gl: seq<string>, gv: seq<string>,
                     ms: seq<MetricConfig>, p0: seq<Tuning>, ds: seq<Descriptor>, i: nat,
                     d: Descriptor)
    requires |gl| == |gv| && i < |ms| == |p0| && |ds| == i
    requires AllBuilt(ext, group, gl, gv, ms[..i], p0[..i], ds)
    requires Built(ext, group, gl, gv, ms[i], TuningAfter(ms[i].Type, p0[i]), d)
    ensures AllBuilt(ext, group, gl, gv, ms[..i + 1], p0[..i + 1], ds + [d])
  {
    assert ms[..i + 1][..i] == ms[..i] && p0[..i + 1][..i] == p0[..i];
    assert (ds + [d])[..i] == ds;
  }

  /** Each metric's descriptor, from all of them. */
  lemma {:induction false} AllBuiltAt(ext: Externals, group: string, gl: seq<string>,
                                      gv: seq<string>, ms: seq<MetricConfig>, p0: seq<Tuning>,
                                      ds: seq<Descriptor>, j: nat)
    requires |gl| == |gv| && |ms| == |p0| == |ds| && j < |ms|
    requires AllBuilt(ext, group, gl, gv, ms, p0, ds)
    ensures Built(ext, group, gl, gv, ms[j], TuningAfter(ms[j].Type, p0[j]), ds[j])
  {
    var n := |ms| - 1;
    if j < n {
      AllBuiltAt(ext, group, gl, gv, ms[..n], p0[..n], ds[..n], j);
    }
  }

  /** Every metric's descriptor, from all of them. */
  lemma AllBuiltEach(ext: Externals, group: string, gl: seq<string>, gv: seq<string>,
                     ms: seq<MetricConfig>, p0: seq<Tuning>, ds: seq<Descriptor>)
    requires |gl| == |gv| && |ms| == |p0| == |ds|
    requires AllBuilt(ext, group, gl, gv, ms, p0, ds)
    ensures forall j :: 0 <= j < |ms| ==>
              Built(ext, group, gl, gv, ms[j], TuningAfter(ms[j].Type, p0[j]), ds[j])
  {
    forall j | 0 <= j < |ms|
      ensures Built(ext, group, gl, gv, ms[j], TuningAfter(ms[j].Type, p0[j]), ds[j])
    {
      AllBuiltAt(ext, group, gl, gv, ms, p0, ds, j);
    }
  }

  /** Past a sound metric, the first fault is that of the rest. */
  lemma FirstFaultStep(ext: Externals, group: string, ms: seq<MetricConfig>, i: nat)
    requires i < |ms|
    ensures FirstFault(ext, group, ms[i..])
            == if MetricFault(ext, group, ms[i]).Some? then MetricFault(ext, group, ms[i])
               else FirstFault(ext, group, ms[i + 1..])
  {
    assert ms[i..][0] == ms[i] && ms[i..][1..] == ms[i + 1..];
  }

  /** The parameters of every metric, as they stand now. */
  ghost function Tunings(ms: seq<MetricConfig>): (p: seq<Tuning>)
    reads ms
    ensures |p| == |ms| && forall j :: 0 <= j < |ms| ==> p[j] == TuningOf(ms[j])
  {
    if ms == [] then [] else Tunings(ms[..|ms| - 1]) + [TuningOf(ms[|ms| - 1])]
  }

  /**
   * Every metric holds its entry parameters `p0` or their defaulted
   * values, and the first `i` hold the defaulted ones.
   */
  ghost predicate Defaulted(ms: seq<MetricConfig>, p0: seq<Tuning>, i: nat)
    requires |p0| == |ms| && i <= |ms|
    reads ms
  {
    && (forall j :: 0 <= j < |ms| ==>
          TuningOf(ms[j]) == TuningAfter(ms[j].Type, p0[j]) || TuningOf(ms[j]) == p0[j])
    && (forall j :: 0 <= j < i ==> TuningOf(ms[j]) == TuningAfter(ms[j].Type, p0[j]))
  }

  /**
   * The collector of group `group` once its four slices are filled
   * (collector.go:82-89 with every slot set): each slice holds its
   * kind's descriptors in reverse configuration order.
   */
  function Assemble(group: string, cfg: LogGroupConfig, ghost ms: seq<MetricConfig>,
                    ghost ds: seq<Descriptor>,
                    cs: seq<Option<Descriptor>>, gs: seq<Option<Descriptor>>,
                    hs: seq<Option<Descriptor>>, ss: seq<Option<Descriptor>>)
    : (c: Collector)
    requires Slots(ms, |ms|, ds, cs, gs, hs, ss, 0, 0, 0, 0)
    ensures c.Name == group && c.cfg == cfg
    ensures forall k :: c.Slice(k) == Reversed(OfKind(ms, ds, k))
  {
    assert ms[..|ms|] == ms;
    StoresAll(cs, Reversed(OfKind(ms, ds, Counter)));
    StoresAll(gs, Reversed(OfKind(ms, ds, Gauge)));
    StoresAll(hs, Reversed(OfKind(ms, ds, Histogram)));
    StoresAll(ss, Reversed(OfKind(ms, ds, Summary)));
    var c := Collector(group, Unwrapped(cs), Unwrapped(gs), Unwrapped(hs), Unwrapped(ss), cfg);
    SlicesOf(c, ms, ds);
    c
  }

  /** A collector's slices, one of each kind. */
  lemma SlicesOf(c: Collector, ms: seq<MetricConfig>, ds: seq<Descriptor>)
    requires |ms| == |ds|
    requires c.counters == Reversed(OfKind(ms, ds, Counter))
    requires c.gauges == Reversed(OfKind(ms, ds, Gauge))
    requires c.histograms == Reversed(OfKind(ms, ds, Histogram))
    requires c.summaries == Reversed(OfKind(ms, ds, Summary))
    ensures forall k :: c.Slice(k) == Reversed(OfKind(ms, ds, k))
  {
    forall k ensures c.Slice(k) == Reversed(OfKind(ms, ds, k)) {
      match k
      case Counter =>
      case Gauge =>
      case Histogram =>
      case Summary =>
    }
  }

  /**
   * The per-metric step of NewCollector's second loop, up to the slot
   * write: the metric ms[i] is built and its defaults are written back.
   */
  method BuildStep(ext: Externals, group: string, gl: seq<string>, gv: seq<string>,
                   ms: seq<MetricConfig>, i: nat, ghost p0: seq<Tuning>)
    returns (r: Result<Descriptor, Fault>)
    requires |gl| == |gv| && i < |ms| == |p0|
    requires Defaulted(ms, p0, i)
    modifies ms[i]
    ensures Defaulted(ms, p0, i + 1)
    ensures r.Failure? <==> MetricFault(ext, group, ms[i]).Some?
    ensures r.Failure? ==> r.error == MetricFault(ext, group, ms[i]).value
    ensures r.Success? ==> Built(ext, group, gl, gv, ms[i], TuningAfter(ms[i].Type, p0[i]), r.value)
  {
    var m := ms[i];
    ghost var before := TuningOf(m);
    r := BuildMetric(ext, group, gl, gv, m);
    assert TuningOf(m) == TuningAfter(m.Type, before);
    forall j | 0 <= j < |ms| && ms[j] == m
      ensures TuningOf(ms[j]) == TuningAfter(ms[j].Type, p0[j])
    {
      TuningAfterIdempotent(m.Type, p0[j]);
    }
  }

  /** The slice of metric ms[i]'s kind has a free slot before its counter. */
  lemma SlotsRoom(ms: seq<MetricConfig>, i: nat, ds: seq<Descriptor>, k: Kind,
                  cs: seq<Option<Descriptor>>, gs: seq<Option<Descriptor>>,
                  hs: seq<Option<Descriptor>>, ss: seq<Option<Descriptor>>,
                  nc: int, ng: int, nh: int, ns: int)
    requires i < |ms| && KindOf(ms[i].Type) == Some(k)
    requires Slots(ms, i, ds, cs, gs, hs, ss, nc, ng, nh, ns)
    ensures k == Counter ==> 0 < nc <= |cs|
    ensures k == Gauge ==> 0 < ng <= |gs|
    ensures k == Histogram ==> 0 < nh <= |hs|
    ensures k == Summary ==> 0 < ns <= |ss|
  {
    var d :| true;
    match k
    case Counter => StoresNext(ms, ds, i, d, Counter, cs, nc);
    case Gauge => StoresNext(ms, ds, i, d, Gauge, gs, ng);
    case Histogram => StoresNext(ms, ds, i, d, Histogram, hs, nh);
    case Summary => StoresNext(ms, ds, i, d, Summary, ss, ns);
  }

  /**
   * Placing metric ms[i], of kind `k`, into the slot before its kind's
   * counter keeps the slots in order; the other slices are unchanged.
   */
  lemma SlotsPut(ms: seq<MetricConfig>, i: nat, ds: seq<Descriptor>, d: Descriptor, k: Kind,
                 cs: seq<Option<Descriptor>>, gs: seq<Option<Descriptor>>,
                 hs: seq<Option<Descriptor>>, ss: seq<Option<Descriptor>>,
                 nc: int, ng: int, nh: int, ns: int,
                 cs': seq<Option<Descriptor>>, gs': seq<Option<Descriptor>>,
                 hs': seq<Option<Descriptor>>, ss': seq<Option<Descriptor>>,
                 nc': int, ng': int, nh': int, ns': int)
    requires i < |ms| && KindOf(ms[i].Type) == Some(k)
    requires Slots(ms, i, ds, cs, gs, hs, ss, nc, ng, nh, ns)
    requires if k == Counter then 0 < nc <= |cs| && nc' == nc - 1 && cs' == cs[nc' := Some(d)]
             else nc' == nc && cs' == cs
    requires if k == Gauge then 0 < ng <= |gs| && ng' == ng - 1 && gs' == gs[ng' := Some(d)]
             else ng' == ng && gs' == gs
    requires if k == Histogram then 0 < nh <= |hs| && nh' == nh - 1 && hs' == hs[nh' := Some(d)]
             else nh' == nh && hs' == hs
    requires if k == Summary then 0 < ns <= |ss| && ns' == ns - 1 && ss' == ss[ns' := Some(d)]
             else ns' == ns && ss' == ss
    ensures Slots(ms, i + 1, ds + [d], cs', gs', hs', ss', nc', ng', nh', ns')
  {
    if k == Counter { StoresNext(ms, ds, i, d, Counter, cs, nc); }
    else { StoresAfter(ms, ds, i, d, Counter, cs, nc); }
    if k == Gauge { StoresNext(ms, ds, i, d, Gauge, gs, ng); }
    else { StoresAfter(ms, ds, i, d, Gauge, gs, ng); }
    if k == Histogram { StoresNext(ms, ds, i, d, Histogram, hs, nh); }
    else { StoresAfter(ms, ds, i, d, Histogram, hs, nh); }
    if k == Summary { StoresNext(ms, ds, i, d, Summary, ss, ns); }
    else { StoresAfter(ms, ds, i, d, Summary, ss, ns); }
  }

  /**
   * The slot write of NewCollector's second loop: the descriptor `d` of
   * metric ms[i] goes into its kind's slice at the decremented counter.
   */
  method PutStep(ms: seq<MetricConfig>, i: nat, ghost ds: seq<Descriptor>, d: Descriptor,
                 counters: seq<Option<Descriptor>>, gauges: seq<Option<Descriptor>>,
                 histograms: seq<Option<Descriptor>>, summaries: seq<Option<Descriptor>>,
                 numCounter: int, numGauge: int, numHistogram: int, numSummary: int)
    returns (cs: seq<Option<Descriptor>>, gs: seq<Option<Descriptor>>,
             hs: seq<Option<Descriptor>>, ss: seq<Option<Descriptor>>,
             nc: int, ng: int, nh: int, ns: int)
    requires i < |ms| && KindOf(ms[i].Type).Some?
    requires Slots(ms, i, ds, counters, gauges, histograms, summaries,
                   numCounter, numGauge, numHistogram, numSummary)
    ensures Slots(ms, i + 1, ds + [d], cs, gs, hs, ss, nc, ng, nh, ns)
  {
    cs, gs, hs, ss := counters, gauges, histograms, summaries;
    nc, ng, nh, ns := numCounter, numGauge, numHistogram, numSummary;
    var t := ms[i].Type;
    ghost var k := KindOf(t).value;
    SlotsRoom(ms, i, ds, k, cs, gs, hs, ss, nc, ng, nh, ns);
    if t == "counter" {
      nc := nc - 1;
      cs := cs[nc := Some(d)];
    } else if t == "gauge" {
      ng := ng - 1;
      gs := gs[ng := Some(d)];
    } else if t == "histogram" {
      nh := nh - 1;
      hs := hs[nh := Some(d)];
    } else {
      ns := ns - 1;
      ss := ss[ns := Some(d)];
    }
    SlotsPut(ms, i, ds, d, k, counters, gauges, histograms, summaries,
             numCounter, numGauge, numHistogram, numSummary, cs, gs, hs, ss, nc, ng, nh, ns);
  }

  /**
   * The second loop of NewCollector (collector.go:91-241) over the metrics
   * `ms`, writing into slices made with the counted sizes.  It stops at
   * the first faulty metric; otherwise every metric is built and each
   * slice holds its kind's descriptors in reverse order.
   */
  method BuildAll(ext: Externals, group: string, gl: seq<string>, gv: seq<string>,
                  ms: seq<MetricConfig>, ghost p0: seq<Tuning>,
                  counters: seq<Option<Descriptor>>, gauges: seq<Option<Descriptor>>,
                  histograms: seq<Option<Descriptor>>, summaries: seq<Option<Descriptor>>)
    returns (fault: Option<Fault>, ghost ds: seq<Descriptor>,
             cs: seq<Option<Descriptor>>, gs: seq<Option<Descriptor>>,
             hs: seq<Option<Descriptor>>, ss: seq<Option<Descriptor>>)
    requires |gl| == |gv| && |p0| == |ms|
    requires Defaulted(ms, p0, 0)
    requires |counters| == CountOf(ms, Counter) && |gauges| == CountOf(ms, Gauge)
    requires |histograms| == CountOf(ms, Histogram) && |summaries| == CountOf(ms, Summary)
    modifies ms
    ensures fault == FirstFault(ext, group, ms)
    ensures Defaulted(ms, p0, if fault.None? then |ms| else 0)
    ensures fault.None? ==>
              && |ds| == |ms|
              && AllBuilt(ext, group, gl, gv, ms, p0, ds)
              && Slots(ms, |ms|, ds, cs, gs, hs, ss, 0, 0, 0, 0)
  {
    cs, gs, hs, ss := counters, gauges, histograms, summaries;
    var nc, ng, nh, ns := |cs|, |gs|, |hs|, |ss|;
    SlotsStart(ms, cs, gs, hs, ss);
    ds := [];
    assert ms[..0] == [] && p0[..0] == [];
    for i := 0 to |ms|
      invariant |ds| == i
      invariant FirstFault(ext, group, ms) == FirstFault(ext, group, ms[i..])
      invariant Defaulted(ms, p0, i)
      invariant AllBuilt(ext, group, gl, gv, ms[..i], p0[..i], ds)
      invariant Slots(ms, i, ds, cs, gs, hs, ss, nc, ng, nh, ns)
    {
      var res := BuildStep(ext, group, gl, gv, ms, i, p0);
      FirstFaultStep(ext, group, ms, i);
      if res.Failure? {
        return Some(res.error), ds, cs, gs, hs, ss;
      }
      AllBuiltSnoc(ext, group, gl, gv, ms, p0, ds, i, res.value);
      cs, gs, hs, ss, nc, ng, nh, ns := PutStep(ms, i, ds, res.value, cs, gs, hs, ss,
                                                nc, ng, nh, ns);
      ds := ds + [res.value];
    }
    assert ms[|ms|..] == [];
    assert ms[..|ms|] == ms && p0[..|ms|] == p0;
    SlotsFull(ms, ds, cs, gs, hs, ss, nc, ng, nh, ns);
    fault := None;
  }

  /**
   * NewCollector (collector.go:61-244).  On success, `ds[j]` is the
   * descriptor of metric j, built from its labels and its defaulted
   * parameters, and each slice holds its kind's descriptors in reverse
   * configuration order (see SliceAtSlot); the defaults are written back
   * into every metric.  On a fatal error, it is the first faulty metric's,
   * and each metric is either defaulted or untouched.
   */
  method NewCollector(ext: Externals, cfg: LogGroupConfig)
    returns (r: Result<Collector, Fault>, ghost gl: seq<string>, ghost gv: seq<string>,
             ghost ds: seq<Descriptor>)
    modifies cfg.Metrics
    ensures IsListing(old(cfg.GlobalLabels), gl, gv)
    ensures r.Failure? <==> FirstFault(ext, cfg.Name, cfg.Metrics).Some?
    ensures r.Failure? ==> r.error == FirstFault(ext, cfg.Name, cfg.Metrics).value
    ensures forall j :: 0 <= j < |cfg.Metrics| ==>
              TuningOf(cfg.Metrics[j])
              == TuningAfter(cfg.Metrics[j].Type, old(TuningOf(cfg.Metrics[j])))
              || (r.Failure? && TuningOf(cfg.Metrics[j]) == old(TuningOf(cfg.Metrics[j])))
    ensures r.Success? ==>
              && r.value.Name == cfg.Name && r.value.cfg == cfg
              && |ds| == |cfg.Metrics|
              && (forall k :: r.value.Slice(k) == Reversed(OfKind(cfg.Metrics, ds, k)))
              && Labelled(r.value)
              && forall j :: 0 <= j < |ds| ==>
                   Built(ext, cfg.Name, gl, gv, cfg.Metrics[j],
                         TuningAfter(cfg.Metrics[j].Type, old(TuningOf(cfg.Metrics[j]))), ds[j])
  {
    var ms := cfg.Metrics;
    var group := cfg.Name;
    ghost var p0 := Tunings(ms);
    var globalLabels, globalValues := cfg.Labels();
    gl, gv := globalLabels, globalValues;
    var numCounter, numGauge, numHistogram, numSummary := CountKinds(ms);
    var counters: seq<Option<Descriptor>> := seq(numCounter, _ => None);
    var gauges: seq<Option<Descriptor>> := seq(numGauge, _ => None);
    var histograms: seq<Option<Descriptor>> := seq(numHistogram, _ => None);
    var summaries: seq<Option<Descriptor>> := seq(numSummary, _ => None);
    var fault;
    fault, ds, counters, gauges, histograms, summaries :=
      BuildAll(ext, group, globalLabels, globalValues, ms, p0,
               counters, gauges, histograms, summaries);
    if fault.Some? {
      return Failure(fault.value), gl, gv, ds;
    }
    AllBuiltEach(ext, group, gl, gv, ms, p0, ds);
    var c := Assemble(group, cfg, ms, ds, counters, gauges, histograms, summaries);
    BuiltWellLabelled(ext, group, old(cfg.GlobalLabels), gl, gv, ms, p0, ds);
    SlicesLabelled(ms, ds, c);
    r := Success(c);
  }
}
