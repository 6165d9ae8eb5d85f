/**
 * What the tailing goroutine of a log group does with each line
 * (collector/collector.go:263-319): a line that is not JSON is skipped;
 * otherwise every counter, then every gauge, histogram and summary, in
 * slice order, renders its label values and its value from the decoded
 * record and updates its metric vector when the value is a number.
 *
 * The metric vectors belong to the Prometheus client library, so an
 * update is recorded as the call the goroutine makes: which metric, with
 * which label values, adding or observing which number.
 */
module Ingest {
  import opened Wrappers
  import opened Foreign
  import opened Collector
  import opened Resolution

  /** What a metric vector is asked to do. */
  datatype Op = Add(delta: real) | Observe(sample: real)

  /**
   * One call into a metric vector: `WithLabelValues(labels...)` on the
   * descriptor at position `slot` of the slice of kind `kind`, then `op`.
   */
  datatype Update = Update(kind: Kind, slot: nat, labels: seq<string>, op: Op)

  /**
   * executeTpl: the text template `tpl` writes for `data`, or the empty
   * text when execution fails.
   */
  function ExecuteTpl(ext: Externals, tpl: Template, data: Json): (r: string)
    ensures ext.Execute(tpl, data).Some? ==> r == ext.Execute(tpl, data).value
    ensures r != "" ==> ext.Execute(tpl, data) == Some(r)
  {
    match ext.Execute(tpl, data)
    case Some(out) => out
    case None => ""
  }

  /** The label values of a record: each label template rendered in turn. */
  function Rendered(ext: Externals, data: Json, templates: seq<Template>): (r: seq<string>)
    ensures |r| == |templates|
    ensures forall i :: 0 <= i < |templates| ==> r[i] == ExecuteTpl(ext, templates[i], data)
  {
    seq(|templates|, i requires 0 <= i < |templates| => ExecuteTpl(ext, templates[i], data))
  }

  /** labelValues: a slice of the templates' length, filled in order. */
  method LabelValues(ext: Externals, data: Json, templates: seq<Template>)
    returns (values: seq<string>)
    ensures values == Rendered(ext, data, templates)
  {
    var a := new string[|templates|];
    for i := 0 to |templates|
      invariant forall j :: 0 <= j < i ==> a[j] == ExecuteTpl(ext, templates[j], data)
    {
      a[i] := ExecuteTpl(ext, templates[i], data);
    }
    values := a[..];
  }

  /**
   * The update a record makes to the descriptor `d` at position `j` of the
   * slice of kind `k`.  A counter without a value key counts the record; any
   * other metric is updated only when its rendered value parses as a number,
   * and is then added to (counters, gauges) or observed (histograms,
   * summaries).
   */
  function MetricUpdates(ext: Externals, k: Kind, j: nat, d: Descriptor, data: Json)
    : (r: seq<Update>)
    ensures |r| <= 1
    ensures r != [] ==> r[0].kind == k && r[0].slot == j
                        && r[0].labels == Rendered(ext, data, d.labelValues)
    ensures k == Counter && d.key == "" ==> r != [] && r[0].op == Add(1.0)
    ensures !(k == Counter && d.key == "") ==>
              (r != [] <==> ext.ParseFloat(ExecuteTpl(ext, d.valueTpl, data)).Some?)
    ensures r != [] && !(k == Counter && d.key == "") ==>
              var x := ext.ParseFloat(ExecuteTpl(ext, d.valueTpl, data)).value;
              r[0].op == (if k == Counter || k == Gauge then Add(x) else Observe(x))
  {
    var values := Rendered(ext, data, d.labelValues);
    if k == Counter && d.key == "" then [Update(k, j, values, Add(1.0))]
    else
      match ext.ParseFloat(ExecuteTpl(ext, d.valueTpl, data))
      case None => []
      case Some(x) =>
        [Update(k, j, values, if k == Counter || k == Gauge then Add(x) else Observe(x))]
  }

  /** The updates of one loop of the goroutine, over the slice `ds` of kind `k`. */
  function KindUpdates(ext: Externals, k: Kind, ds: seq<Descriptor>, data: Json)
    : (r: seq<Update>)
    ensures |r| <= |ds|
    decreases |ds|
  {
    if ds == [] then []
    else KindUpdates(ext, k, ds[..|ds| - 1], data) + MetricUpdates(ext, k, |ds| - 1, ds[|ds| - 1], data)
  }

  /** The updates one line makes: none when it is not JSON. */
  function LineUpdates(ext: Externals, c: Collector, line: string): (r: seq<Update>)
    ensures ext.Unmarshal(line).None? ==> r == []
  {
    match ext.Unmarshal(line)
    case None => []
    case Some(data) =>
      KindUpdates(ext, Counter, c.counters, data) + KindUpdates(ext, Gauge, c.gauges, data)
      + KindUpdates(ext, Histogram, c.histograms, data) + KindUpdates(ext, Summary, c.summaries, data)
  }

  /** The updates a sequence of lines makes, line after line. */
  function SourceUpdates(ext: Externals, c: Collector, lines: seq<string>): (r: seq<Update>)
    ensures JsonLines(ext, lines) == 0 ==> r == []
    decreases |lines|
  {
    if lines == [] then []
    else SourceUpdates(ext, c, lines[..|lines| - 1]) + LineUpdates(ext, c, lines[|lines| - 1])
  }

  /** One more descriptor of a slice adds the updates MetricUpdates gives it. */
  lemma KindStep(ext: Externals, k: Kind, ds: seq<Descriptor>, i: nat, data: Json)
    requires i < |ds|
    ensures KindUpdates(ext, k, ds[..i + 1], data)
            == KindUpdates(ext, k, ds[..i], data) + MetricUpdates(ext, k, i, ds[i], data)
  {
    var e := ds[..i + 1];
    var p, x := e[..|e| - 1], e[|e| - 1];
    assert e != [] && KindUpdates(ext, k, e, data) == KindUpdates(ext, k, p, data) + MetricUpdates(ext, k, i, x, data);
    assert p == ds[..i] && x == ds[i];
  }

  /** The loop over the counters (collector.go:273-288). */
  method UpdateCounters(ext: Externals, counters: seq<Descriptor>, data: Json)
    returns (us: seq<Update>)
    ensures us == KindUpdates(ext, Counter, counters, data)
  {
    us := [];
    for i := 0 to |counters|
      invariant us == KindUpdates(ext, Counter, counters[..i], data)
    {
      KindStep(ext, Counter, counters, i, data);
      var m := counters[i];
      var values := LabelValues(ext, data, m.labelValues);
      var inc := 1.0;
      if m.key != "" {
        var vstr := ExecuteTpl(ext, m.valueTpl, data);
        var parsed := ext.ParseFloat(vstr);
        if parsed.Some? {
          inc := parsed.value;
          us := us + [Update(Counter, i, values, Add(inc))];
        }
      } else {
        us := us + [Update(Counter, i, values, Add(inc))];
      }
    }
    assert counters[..|counters|] == counters;
  }

  /** The loop over the gauges (collector.go:290-298): a gauge is added to. */
  method UpdateGauges(ext: Externals, gauges: seq<Descriptor>, data: Json)
    returns (us: seq<Update>)
    ensures us == KindUpdates(ext, Gauge, gauges, data)
  {
    us := [];
    for i := 0 to |gauges|
      invariant us == KindUpdates(ext, Gauge, gauges[..i], data)
    {
      KindStep(ext, Gauge, gauges, i, data);
      var m := gauges[i];
      var values := LabelValues(ext, data, m.labelValues);
      var vstr := ExecuteTpl(ext, m.valueTpl, data);
      var parsed := ext.ParseFloat(vstr);
      if parsed.Some? {
        us := us + [Update(Gauge, i, values, Add(parsed.value))];
      }
    }
    assert gauges[..|gauges|] == gauges;
  }

  /** The loop over the histograms (collector.go:300-308). */
  method UpdateHistograms(ext: Externals, histograms: seq<Descriptor>, data: Json)
    returns (us: seq<Update>)
    ensures us == KindUpdates(ext, Histogram, histograms, data)
  {
    us := [];
    for i := 0 to |histograms|
      invariant us == KindUpdates(ext, Histogram, histograms[..i], data)
    {
      KindStep(ext, Histogram, histograms, i, data);
      var m := histograms[i];
      var values := LabelValues(ext, data, m.labelValues);
      var vstr := ExecuteTpl(ext, m.valueTpl, data);
      var parsed := ext.ParseFloat(vstr);
      if parsed.Some? {
        us := us + [Update(Histogram, i, values, Observe(parsed.value))];
      }
    }
    assert histograms[..|histograms|] == histograms;
  }

  /** The loop over the summaries (collector.go:310-318). */
  method UpdateSummaries(ext: Externals, summaries: seq<Descriptor>, data: Json)
    returns (us: seq<Update>)
    ensures us == KindUpdates(ext, Summary, summaries, data)
  {
    us := [];
    for i := 0 to |summaries|
      invariant us == KindUpdates(ext, Summary, summaries[..i], data)
    {
      KindStep(ext, Summary, summaries, i, data);
      var m := summaries[i];
      var values := LabelValues(ext, data, m.labelValues);
      var vstr := ExecuteTpl(ext, m.valueTpl, data);
      var parsed := ext.ParseFloat(vstr);
      if parsed.Some? {
        us := us + [Update(Summary, i, values, Observe(parsed.value))];
      }
    }
    assert summaries[..|summaries|] == summaries;
  }

  /**
   * The body of `for line := range t.Lines` (collector.go:263-319): decode
   * the line, skip it when it is not JSON, then the four loops.
   */
  method ProcessLine(ext: Externals, c: Collector, line: string) returns (us: seq<Update>)
    ensures us == LineUpdates(ext, c, line)
  {
    var decoded := ext.Unmarshal(line);
    if decoded.None? {
      return [];
    }
    var data := decoded.value;
    var uc := UpdateCounters(ext, c.counters, data);
    var ug := UpdateGauges(ext, c.gauges, data);
    var uh := UpdateHistograms(ext, c.histograms, data);
    var usum := UpdateSummaries(ext, c.summaries, data);
    us := uc + ug + uh + usum;
  }

  /** One more line adds the updates LineUpdates gives it. */
  lemma SourceStep(ext: Externals, c: Collector, lines: seq<string>, i: nat)
    requires i < |lines|
    ensures SourceUpdates(ext, c, lines[..i + 1])
            == SourceUpdates(ext, c, lines[..i]) + LineUpdates(ext, c, lines[i])
  {
    var e := lines[..i + 1];
    var p, x := e[..|e| - 1], e[|e| - 1];
    assert e != [] && SourceUpdates(ext, c, e) == SourceUpdates(ext, c, p) + LineUpdates(ext, c, x);
    assert p == lines[..i] && x == lines[i];
  }

  /** One source file's goroutine, over the lines it has read so far. */
  method ProcessSource(ext: Externals, c: Collector, lines: seq<string>) returns (us: seq<Update>)
    ensures us == SourceUpdates(ext, c, lines)
  {
    us := [];
    for i := 0 to |lines|
      invariant us == SourceUpdates(ext, c, lines[..i])
    {
      SourceStep(ext, c, lines, i);
      var lineUpdates := ProcessLine(ext, c, lines[i]);
      us := us + lineUpdates;
    }
    assert lines[..|lines|] == lines;
  }

  /**
   * Each of `us` is the update MetricUpdates gives a metric of collector
   * `c` for `data`.
   */
  ghost predicate FromCollector(ext: Externals, c: Collector, data: Json, us: seq<Update>)
  {
    forall p :: 0 <= p < |us| ==>
      us[p].slot < |c.Slice(us[p].kind)|
      && MetricUpdates(ext, us[p].kind, us[p].slot, c.Slice(us[p].kind)[us[p].slot], data) == [us[p]]
  }

  /**
   * Each of `us` is of kind `k` and is the update MetricUpdates gives the
   * descriptor of `ds` at its slot.
   */
  ghost predicate OfSlice(ext: Externals, k: Kind, ds: seq<Descriptor>, data: Json, us: seq<Update>)
  {
    forall p :: 0 <= p < |us| ==>
      us[p].kind == k && us[p].slot < |ds|
      && MetricUpdates(ext, k, us[p].slot, ds[us[p].slot], data) == [us[p]]
  }

  /** One loop's updates go to its own slice, each as MetricUpdates gives it. */
  lemma {:induction false} KindMembers(ext: Externals, k: Kind, ds: seq<Descriptor>, data: Json)
    ensures OfSlice(ext, k, ds, data, KindUpdates(ext, k, ds, data))
    decreases |ds|
  {
    if ds != [] {
      var n := |ds| - 1;
      KindMembers(ext, k, ds[..n], data);
      var before := KindUpdates(ext, k, ds[..n], data);
      var last := MetricUpdates(ext, k, n, ds[n], data);
      var us := KindUpdates(ext, k, ds, data);
      assert us == before + last;
      forall p | 0 <= p < |us|
        ensures us[p].kind == k && us[p].slot < |ds|
                && MetricUpdates(ext, k, us[p].slot, ds[us[p].slot], data) == [us[p]]
      {
        if p < |before| {
          assert us[p] == before[p];
          assert ds[..n][before[p].slot] == ds[before[p].slot];
        } else {
          assert us[p] == last[0];
        }
      }
    }
  }

  /** Updates from the collector, concatenated. */
  lemma FromCollectorConcat(ext: Externals, c: Collector, data: Json, a: seq<Update>, b: seq<Update>)
    requires FromCollector(ext, c, data, a) && FromCollector(ext, c, data, b)
    ensures FromCollector(ext, c, data, a + b)
  {
    forall p | 0 <= p < |a + b|
      ensures (a + b)[p].slot < |c.Slice((a + b)[p].kind)|
              && MetricUpdates(ext, (a + b)[p].kind, (a + b)[p].slot,
                               c.Slice((a + b)[p].kind)[(a + b)[p].slot], data) == [(a + b)[p]]
    {
      if p < |a| {
        assert (a + b)[p] == a[p];
      } else {
        assert (a + b)[p] == b[p - |a|];
      }
    }
  }

  /** The loop over the slice of kind `k` updates metrics of the collector. */
  lemma KindFromCollector(ext: Externals, c: Collector, data: Json, k: Kind)
    ensures FromCollector(ext, c, data, KindUpdates(ext, k, c.Slice(k), data))
  {
    KindMembers(ext, k, c.Slice(k), data);
    var us := KindUpdates(ext, k, c.Slice(k), data);
    assert OfSlice(ext, k, c.Slice(k), data, us);
  }

  /** The four loops over a record update metrics of the collector. */
  lemma LoopsFromCollector(ext: Externals, c: Collector, data: Json)
    ensures FromCollector(ext, c, data,
                          KindUpdates(ext, Counter, c.counters, data) + KindUpdates(ext, Gauge, c.gauges, data)
                          + KindUpdates(ext, Histogram, c.histograms, data)
                          + KindUpdates(ext, Summary, c.summaries, data))
  {
    var uc := KindUpdates(ext, Counter, c.counters, data);
    var ug := KindUpdates(ext, Gauge, c.gauges, data);
    var uh := KindUpdates(ext, Histogram, c.histograms, data);
    var us := KindUpdates(ext, Summary, c.summaries, data);
    KindFromCollector(ext, c, data, Counter);
    KindFromCollector(ext, c, data, Gauge);
    KindFromCollector(ext, c, data, Histogram);
    KindFromCollector(ext, c, data, Summary);
    FromCollectorConcat(ext, c, data, uc, ug);
    FromCollectorConcat(ext, c, data, uc + ug, uh);
    FromCollectorConcat(ext, c, data, uc + ug + uh, us);
  }

  /** An update from the collector carries one label value per label template. */
  lemma FromCollectorLabels(ext: Externals, c: Collector, data: Json, us: seq<Update>)
    requires FromCollector(ext, c, data, us)
    ensures forall p :: 0 <= p < |us| ==>
              |us[p].labels| == |c.Slice(us[p].kind)[us[p].slot].labelValues|
  {
    forall p | 0 <= p < |us|
      ensures |us[p].labels| == |c.Slice(us[p].kind)[us[p].slot].labelValues|
    {
      var d := c.Slice(us[p].kind)[us[p].slot];
      assert MetricUpdates(ext, us[p].kind, us[p].slot, d, data)[0] == us[p];
    }
  }

  /**
   * Each update of a JSON line is the update MetricUpdates gives one metric
   * of the collector, with one label value per label template of that
   * metric.
   */
  lemma LineMembers(ext: Externals, c: Collector, line: string)
    ensures var us := LineUpdates(ext, c, line);
            us != [] ==>
              && ext.Unmarshal(line).Some?
              && FromCollector(ext, c, ext.Unmarshal(line).value, us)
              && forall p :: 0 <= p < |us| ==>
                   |us[p].labels| == |c.Slice(us[p].kind)[us[p].slot].labelValues|
  {
    match ext.Unmarshal(line)
    case None =>
    case Some(data) =>
      LoopsFromCollector(ext, c, data);
      FromCollectorLabels(ext, c, data, LineUpdates(ext, c, line));
  }

  /**
   * For a collector built by NewCollector (which is Labelled), every
   * `WithLabelValues` call of a line gets one value per label name of its
   * metric, and those names are distinct.
   */
  lemma LineLabelNames(ext: Externals, c: Collector, line: string)
    requires Labelled(c)
    ensures var us := LineUpdates(ext, c, line);
            forall p :: 0 <= p < |us| ==>
              us[p].slot < |c.Slice(us[p].kind)|
              && |us[p].labels| == |c.Slice(us[p].kind)[us[p].slot].labelNames|
              && Distinct(c.Slice(us[p].kind)[us[p].slot].labelNames)
  {
    LineMembers(ext, c, line);
    var us := LineUpdates(ext, c, line);
    forall p | 0 <= p < |us|
      ensures us[p].slot < |c.Slice(us[p].kind)|
              && |us[p].labels| == |c.Slice(us[p].kind)[us[p].slot].labelNames|
              && Distinct(c.Slice(us[p].kind)[us[p].slot].labelNames)
    {
      assert WellLabelled(c.Slice(us[p].kind)[us[p].slot]);
    }
  }

  /** How many of the updates `us` go to the metric at `slot` of kind `k`. */
  function CountFor(us: seq<Update>, k: Kind, slot: nat): (n: nat)
    ensures n <= |us|
    decreases |us|
  {
    if us == [] then 0
    else
      CountFor(us[..|us| - 1], k, slot)
      + (if us[|us| - 1].kind == k && us[|us| - 1].slot == slot then 1 else 0)
  }

  /** Counting distributes over concatenation. */
  lemma {:induction false} CountForAppend(a: seq<Update>, b: seq<Update>, k: Kind, slot: nat)
    ensures CountFor(a + b, k, slot) == CountFor(a, k, slot) + CountFor(b, k, slot)
    decreases |b|
  {
    if b == [] {
      assert a + b == a;
    } else {
      var n := |b| - 1;
      assert (a + b)[..|a + b| - 1] == a + b[..n];
      CountForAppend(a, b[..n], k, slot);
    }
  }

  /** The update MetricUpdates gives one metric counts for that metric only. */
  lemma CountOwn(ext: Externals, k: Kind, j: nat, d: Descriptor, data: Json, k': Kind, slot: nat)
    ensures CountFor(MetricUpdates(ext, k, j, d, data), k', slot)
            == if k' == k && slot == j then |MetricUpdates(ext, k, j, d, data)| else 0
  {
    var r := MetricUpdates(ext, k, j, d, data);
    if r != [] {
      assert r[..0] == [];
    }
  }

  /**
   * One loop of the goroutine updates each metric of its slice at most once
   * (exactly when MetricUpdates does) and no metric of another slice.
   */
  lemma {:induction false} KindCount(ext: Externals, k: Kind, ds: seq<Descriptor>, data: Json,
                                     k': Kind, slot: nat)
    ensures CountFor(KindUpdates(ext, k, ds, data), k', slot)
            == if k' == k && slot < |ds| then |MetricUpdates(ext, k, slot, ds[slot], data)| else 0
    decreases |ds|
  {
    if ds != [] {
      var n := |ds| - 1;
      KindCount(ext, k, ds[..n], data, k', slot);
      var last := MetricUpdates(ext, k, n, ds[n], data);
      CountForAppend(KindUpdates(ext, k, ds[..n], data), last, k', slot);
      CountOwn(ext, k, n, ds[n], data, k', slot);
      if slot < n {
        assert ds[..n][slot] == ds[slot];
      }
    }
  }

  /**
   * A JSON line updates each metric of the collector at most once, exactly
   * when MetricUpdates does; a line that is not JSON updates nothing.
   */
  lemma LineCount(ext: Externals, c: Collector, line: string, k: Kind, slot: nat)
    ensures CountFor(LineUpdates(ext, c, line), k, slot)
            == if ext.Unmarshal(line).Some? && slot < |c.Slice(k)|
               then |MetricUpdates(ext, k, slot, c.Slice(k)[slot], ext.Unmarshal(line).value)|
               else 0
  {
    match ext.Unmarshal(line)
    case None =>
    case Some(data) =>
      var uc := KindUpdates(ext, Counter, c.counters, data);
      var ug := KindUpdates(ext, Gauge, c.gauges, data);
      var uh := KindUpdates(ext, Histogram, c.histograms, data);
      var us := KindUpdates(ext, Summary, c.summaries, data);
      KindCount(ext, Counter, c.counters, data, k, slot);
      KindCount(ext, Gauge, c.gauges, data, k, slot);
      KindCount(ext, Histogram, c.histograms, data, k, slot);
      KindCount(ext, Summary, c.summaries, data, k, slot);
      CountForAppend(uc, ug, k, slot);
      CountForAppend(uc + ug, uh, k, slot);
      CountForAppend(uc + ug + uh, us, k, slot);
  }

  /** The rank of a kind in the goroutine's loop order. */
  function Rank(k: Kind): nat
  {
    match k
    case Counter => 0
    case Gauge => 1
    case Histogram => 2
    case Summary => 3
  }

  /** `a` comes before `b`: an earlier loop, or an earlier slot of the same loop. */
  predicate Before(a: Update, b: Update)
  {
    Rank(a.kind) < Rank(b.kind) || (a.kind == b.kind && a.slot < b.slot)
  }

  /** The slots of `us` increase. */
  ghost predicate Increasing(us: seq<Update>)
  {
    forall p, q :: 0 <= p < q < |us| ==> us[p].slot < us[q].slot
  }

  /** One loop's updates go to increasing slots. */
  lemma {:induction false} KindOrdered(ext: Externals, k: Kind, ds: seq<Descriptor>, data: Json)
    ensures Increasing(KindUpdates(ext, k, ds, data))
    decreases |ds|
  {
    if ds != [] {
      var n := |ds| - 1;
      KindOrdered(ext, k, ds[..n], data);
      KindMembers(ext, k, ds[..n], data);
      var before := KindUpdates(ext, k, ds[..n], data);
      var last := MetricUpdates(ext, k, n, ds[n], data);
      var us := KindUpdates(ext, k, ds, data);
      assert us == before + last;
      assert Increasing(before) && OfSlice(ext, k, ds[..n], data, before);
      forall p, q | 0 <= p < q < |us| ensures us[p].slot < us[q].slot {
        assert us[p] == before[p];
        if q < |before| {
          assert us[q] == before[q];
        } else {
          assert us[q] == last[0];
        }
      }
    }
  }

  /** Updates in the goroutine's order. */
  ghost predicate Ordered(us: seq<Update>)
  {
    forall p, q :: 0 <= p < q < |us| ==> Before(us[p], us[q])
  }

  /**
   * A list in order followed by the updates of a later loop, in increasing
   * slots, is in order.
   */
  lemma OrderedConcat(a: seq<Update>, b: seq<Update>, k: Kind)
    requires Ordered(a) && forall p :: 0 <= p < |a| ==> Rank(a[p].kind) < Rank(k)
    requires forall p :: 0 <= p < |b| ==> b[p].kind == k
    requires Increasing(b)
    ensures Ordered(a + b) && forall p :: 0 <= p < |a + b| ==> Rank((a + b)[p].kind) <= Rank(k)
  {
    forall p, q | 0 <= p < q < |a + b| ensures Before((a + b)[p], (a + b)[q]) {
      if q < |a| {
        assert (a + b)[p] == a[p] && (a + b)[q] == a[q];
      } else if p < |a| {
        assert (a + b)[p] == a[p] && (a + b)[q] == b[q - |a|];
      } else {
        assert (a + b)[p] == b[p - |a|] && (a + b)[q] == b[q - |a|];
      }
    }
    forall p | 0 <= p < |a + b| ensures Rank((a + b)[p].kind) <= Rank(k) {
      if p < |a| {
        assert (a + b)[p] == a[p];
      } else {
        assert (a + b)[p] == b[p - |a|];
      }
    }
  }

  /**
   * A line's updates come in the goroutine's order: counters, gauges,
   * histograms, summaries, each slice from its first slot to its last.
   */
  lemma LineOrdered(ext: Externals, c: Collector, line: string)
    ensures Ordered(LineUpdates(ext, c, line))
  {
    match ext.Unmarshal(line)
    case None =>
    case Some(data) =>
      var uc := KindUpdates(ext, Counter, c.counters, data);
      var ug := KindUpdates(ext, Gauge, c.gauges, data);
      var uh := KindUpdates(ext, Histogram, c.histograms, data);
      var us := KindUpdates(ext, Summary, c.summaries, data);
      KindOrdered(ext, Counter, c.counters, data);
      KindOrdered(ext, Gauge, c.gauges, data);
      KindOrdered(ext, Histogram, c.histograms, data);
      KindOrdered(ext, Summary, c.summaries, data);
      KindMembers(ext, Counter, c.counters, data);
      KindMembers(ext, Gauge, c.gauges, data);
      KindMembers(ext, Histogram, c.histograms, data);
      KindMembers(ext, Summary, c.summaries, data);
      assert Increasing(uc) && OfSlice(ext, Counter, c.counters, data, uc);
      assert OfSlice(ext, Gauge, c.gauges, data, ug);
      assert OfSlice(ext, Histogram, c.histograms, data, uh);
      assert OfSlice(ext, Summary, c.summaries, data, us);
      assert Ordered(uc);
      OrderedConcat(uc, ug, Gauge);
      OrderedConcat(uc + ug, uh, Histogram);
      OrderedConcat(uc + ug + uh, us, Summary);
  }

  /**
   * Concatenation of updates is associative.  Kept as a lemma of its own so
   * that SourceAppend does not prove it in the context of SourceUpdates.
   */
  lemma AppendAssoc(x: seq<Update>, y: seq<Update>, z: seq<Update>)
    ensures (x + y) + z == x + (y + z)
  {
  }

  /** The last line of `a + b` is the last line of `b`. */
  lemma SourceLast(ext: Externals, c: Collector, a: seq<string>, b: seq<string>)
    requires b != []
    ensures SourceUpdates(ext, c, a + b)
            == SourceUpdates(ext, c, a + b[..|b| - 1]) + LineUpdates(ext, c, b[|b| - 1])
  {
    var ab := a + b;
    var p, q := ab[..|ab| - 1], a + b[..|b| - 1];
    var x, y := ab[|ab| - 1], b[|b| - 1];
    assert ab != [] && SourceUpdates(ext, c, ab) == SourceUpdates(ext, c, p) + LineUpdates(ext, c, x);
    assert p == q && x == y;
  }

  /** Lines are independent: the updates of two stretches of lines concatenate. */
  lemma {:induction false} SourceAppend(ext: Externals, c: Collector, a: seq<string>, b: seq<string>)
    ensures SourceUpdates(ext, c, a + b) == SourceUpdates(ext, c, a) + SourceUpdates(ext, c, b)
    decreases |b|
  {
    if b == [] {
      assert a + b == a;
    } else {
      var n := |b| - 1;
      SourceLast(ext, c, a, b);
      SourceAppend(ext, c, a, b[..n]);
      AppendAssoc(SourceUpdates(ext, c, a), SourceUpdates(ext, c, b[..n]), LineUpdates(ext, c, b[n]));
    }
  }

  /** How many of `lines` are JSON. */
  function JsonLines(ext: Externals, lines: seq<string>): (n: nat)
    ensures n <= |lines|
    decreases |lines|
  {
    if lines == [] then 0
    else JsonLines(ext, lines[..|lines| - 1]) + (if ext.Unmarshal(lines[|lines| - 1]).Some? then 1 else 0)
  }

  /** No metric is updated more often than there are JSON lines. */
  lemma {:induction false} SourceCountBound(ext: Externals, c: Collector, lines: seq<string>,
                                            k: Kind, slot: nat)
    ensures CountFor(SourceUpdates(ext, c, lines), k, slot) <= JsonLines(ext, lines)
    decreases |lines|
  {
    if lines != [] {
      var n := |lines| - 1;
      SourceCountBound(ext, c, lines[..n], k, slot);
      CountForAppend(SourceUpdates(ext, c, lines[..n]), LineUpdates(ext, c, lines[n]), k, slot);
      LineCount(ext, c, lines[n], k, slot);
    }
  }

  /** A counter without a value key is updated once for each JSON line. */
  lemma {:induction false} CounterCountsLines(ext: Externals, c: Collector, lines: seq<string>,
                                              slot: nat)
    requires slot < |c.counters| && c.counters[slot].key == ""
    ensures CountFor(SourceUpdates(ext, c, lines), Counter, slot) == JsonLines(ext, lines)
    decreases |lines|
  {
    if lines != [] {
      var n := |lines| - 1;
      CounterCountsLines(ext, c, lines[..n], slot);
      CountForAppend(SourceUpdates(ext, c, lines[..n]), LineUpdates(ext, c, lines[n]), Counter, slot);
      LineCount(ext, c, lines[n], Counter, slot);
    }
  }
}
