/**
 * What the updates of a log group's goroutine add up to: for each counter
 * or gauge, the exact sum of the deltas its `Add` calls carry (a float64
 * vector may round that sum).
 */
module Totals {
  import opened Foreign
  import opened Collector
  import opened Ingest

  /** The exact sum of the deltas the updates `us` add to the metric at `slot` of kind `k`. */
  function AddedTo(us: seq<Update>, k: Kind, slot: nat): (r: real)
    decreases |us|
  {
    if us == [] then 0.0
    else
      var u := us[|us| - 1];
      AddedTo(us[..|us| - 1], k, slot)
      + (if u.kind == k && u.slot == slot && u.op.Add? then u.op.delta else 0.0)
  }

  /** Adding up distributes over concatenation. */
  lemma {:induction false} AddedToAppend(a: seq<Update>, b: seq<Update>, k: Kind, slot: nat)
    ensures AddedTo(a + b, k, slot) == AddedTo(a, k, slot) + AddedTo(b, k, slot)
    decreases |b|
  {
    if b == [] {
      assert a + b == a;
    } else {
      var n := |b| - 1;
      assert (a + b)[..|a + b| - 1] == a + b[..n];
      assert (a + b)[|a + b| - 1] == b[n];
      AddedToAppend(a, b[..n], k, slot);
    }
  }

  /** The update MetricUpdates gives one metric adds to that metric only. */
  lemma AddedOwn(ext: Externals, k: Kind, j: nat, d: Descriptor, data: Json, k': Kind, slot: nat)
    ensures AddedTo(MetricUpdates(ext, k, j, d, data), k', slot)
            == if k' == k && slot == j then AddedTo(MetricUpdates(ext, k, j, d, data), k, j) else 0.0
  {
    var r := MetricUpdates(ext, k, j, d, data);
    if r != [] {
      assert r[..0] == [];
    }
  }

  /** What one loop of the goroutine adds to a metric is what its own update adds. */
  lemma {:induction false} KindAdded(ext: Externals, k: Kind, ds: seq<Descriptor>, data: Json,
                                     k': Kind, slot: nat)
    ensures AddedTo(KindUpdates(ext, k, ds, data), k', slot)
            == if k' == k && slot < |ds| then AddedTo(MetricUpdates(ext, k, slot, ds[slot], data), k, slot)
               else 0.0
    decreases |ds|
  {
    if ds != [] {
      var n := |ds| - 1;
      KindAdded(ext, k, ds[..n], data, k', slot);
      var last := MetricUpdates(ext, k, n, ds[n], data);
      AddedToAppend(KindUpdates(ext, k, ds[..n], data), last, k', slot);
      AddedOwn(ext, k, n, ds[n], data, k', slot);
      if slot < n {
        assert ds[..n][slot] == ds[slot];
      }
    }
  }

  /** A JSON line adds one to a counter without a value key; any other line adds nothing. */
  lemma LineAddsOne(ext: Externals, c: Collector, line: string, slot: nat)
    requires slot < |c.counters| && c.counters[slot].key == ""
    ensures AddedTo(LineUpdates(ext, c, line), Counter, slot)
            == if ext.Unmarshal(line).Some? then 1.0 else 0.0
  {
    match ext.Unmarshal(line)
    case None =>
    case Some(data) =>
      var uc := KindUpdates(ext, Counter, c.counters, data);
      var ug := KindUpdates(ext, Gauge, c.gauges, data);
      var uh := KindUpdates(ext, Histogram, c.histograms, data);
      var us := KindUpdates(ext, Summary, c.summaries, data);
      KindAdded(ext, Counter, c.counters, data, Counter, slot);
      KindAdded(ext, Gauge, c.gauges, data, Counter, slot);
      KindAdded(ext, Histogram, c.histograms, data, Counter, slot);
      KindAdded(ext, Summary, c.summaries, data, Counter, slot);
      AddedToAppend(uc, ug, Counter, slot);
      AddedToAppend(uc + ug, uh, Counter, slot);
      AddedToAppend(uc + ug + uh, us, Counter, slot);
      var own := MetricUpdates(ext, Counter, slot, c.counters[slot], data);
      assert own == [own[0]] && own[0].op == Add(1.0);
      assert own[..0] == [];
  }

  /** A counter without a value key ends at the number of JSON lines: N such lines add N. */
  lemma {:induction false} CounterAddsLines(ext: Externals, c: Collector, lines: seq<string>,
                                            slot: nat)
    requires slot < |c.counters| && c.counters[slot].key == ""
    ensures AddedTo(SourceUpdates(ext, c, lines), Counter, slot) == JsonLines(ext, lines) as real
    decreases |lines|
  {
    if lines != [] {
      var n := |lines| - 1;
      CounterAddsLines(ext, c, lines[..n], slot);
      AddedToAppend(SourceUpdates(ext, c, lines[..n]), LineUpdates(ext, c, lines[n]), Counter, slot);
      LineAddsOne(ext, c, lines[n], slot);
    }
  }
}
