/**
 * The configuration the exporter is started with (config/config.go), as it
 * stands after YAML decoding: a top-level label map, the log groups and the
 * export groups.  Fields the core never writes are `const`; the label map of
 * a log group and the three defaulted parameters of a metric are `var`.
 */
module Config {
  import opened Wrappers

  /** An export group: a name and the HTTP path its registry is served on. */
  datatype ExportConfig = ExportConfig(Name: string, MetricPath: string)

  /**
   * The entries of a label map laid out as two co-indexed sequences: every
   * key exactly once, each next to its value.  The order is whatever the
   * map iteration chose.
   */
  ghost predicate IsListing(m: map<string, string>, keys: seq<string>, vals: seq<string>)
  {
    && |keys| == |vals| == |m|
    && (forall i :: 0 <= i < |keys| ==> keys[i] in m && m[keys[i]] == vals[i])
    && (forall i, j :: 0 <= i < j < |keys| ==> keys[i] != keys[j])
    && (forall k :: k in m ==> k in keys)
  }

  /**
   * Fills two arrays of the map's size with a running index while ranging
   * over the map.  Go's map order is unspecified, so the next key is chosen
   * nondeterministically.
   */
  method Listing(m: map<string, string>) returns (keys: seq<string>, vals: seq<string>)
    ensures IsListing(m, keys, vals)
  {
    var ks := new string[|m|];
    var vs := new string[|m|];
    var rest := m.Keys;
    var i := 0;
    ghost var listed: seq<string> := [];
    while rest != {}
      invariant rest <= m.Keys
      invariant i + |rest| == |m|
      invariant forall j :: 0 <= j < i ==> ks[j] in m && ks[j] !in rest && m[ks[j]] == vs[j]
      invariant forall j, j' :: 0 <= j < j' < i ==> ks[j] != ks[j']
      invariant ks[..i] == listed
      invariant forall k :: k in m && k !in rest ==> k in listed
      decreases |rest|
    {
      var k :| k in rest;
      ks[i], vs[i] := k, m[k];
      assert ks[..i + 1] == listed + [k];
      listed := listed + [k];
      rest := rest - {k};
      i := i + 1;
    }
    assert ks[..] == ks[..i];
    keys, vals := ks[..], vs[..];
  }

  /** One metric of a log group. */
  class MetricConfig {
    const Name: string
    const Desc: string
    const Type: string
    const Export: string
    var Buckets: seq<real>
    const Objectives: map<real, real>
    /** A time.Duration, in nanoseconds. */
    var SummaryMaxAge: int
    /** A uint32. */
    var SummaryAgeBuckets: nat
    const MetricLabels: map<string, string>
    const ValueKey: string

    constructor (name: string, desc: string, kind: string, exportTo: string,
                 buckets: seq<real>, objectives: map<real, real>,
                 maxAge: int, ageBuckets: nat,
                 labels: map<string, string>, valueKey: string)
      ensures Name == name && Desc == desc && Type == kind && Export == exportTo
      ensures Buckets == buckets && Objectives == objectives
      ensures SummaryMaxAge == maxAge && SummaryAgeBuckets == ageBuckets
      ensures MetricLabels == labels && ValueKey == valueKey
    {
      Name, Desc, Type, Export := name, desc, kind, exportTo;
      Buckets, Objectives := buckets, objectives;
      SummaryMaxAge, SummaryAgeBuckets := maxAge, ageBuckets;
      MetricLabels, ValueKey := labels, valueKey;
    }

    /** The metric-local labels as co-indexed name and value sequences. */
    method Labels() returns (labels: seq<string>, values: seq<string>)
      ensures IsListing(MetricLabels, labels, values)
    {
      labels, values := Listing(MetricLabels);
    }
  }

  /** A log group: its source files, its own labels and its metrics. */
  class LogGroupConfig {
    const Name: string
    const SourceFiles: seq<string>
    var GlobalLabels: map<string, string>
    const Metrics: seq<MetricConfig>

    constructor (name: string, files: seq<string>, labels: map<string, string>,
                 metrics: seq<MetricConfig>)
      ensures Name == name && SourceFiles == files
      ensures GlobalLabels == labels && Metrics == metrics
    {
      Name, SourceFiles, GlobalLabels, Metrics := name, files, labels, metrics;
    }

    /** The group's labels as co-indexed name and value sequences. */
    method Labels() returns (labels: seq<string>, values: seq<string>)
      ensures IsListing(GlobalLabels, labels, values)
    {
      labels, values := Listing(GlobalLabels);
    }
  }

  /**
   * A log group's labels after the top-level labels are merged in: every
   * top-level key is present, and a key the group already had keeps its
   * own value.
   */
  function WithTopLabels(own: map<string, string>, top: map<string, string>): (r: map<string, string>)
    ensures r.Keys == own.Keys + top.Keys
    ensures forall k :: k in own ==> r[k] == own[k]
    ensures forall k :: k in top && k !in own ==> r[k] == top[k]
  {
    map k | k in own.Keys + top.Keys :: if k in own then own[k] else top[k]
  }

  /** Merging the same top-level labels a second time changes nothing. */
  lemma WithTopLabelsIdempotent(own: map<string, string>, top: map<string, string>)
    ensures WithTopLabels(WithTopLabels(own, top), top) == WithTopLabels(own, top)
  {
    var once := WithTopLabels(own, top);
    var twice := WithTopLabels(once, top);
    assert twice.Keys == once.Keys;
    forall k | k in twice ensures twice[k] == once[k] { }
  }

  /** `cur` is `own` with the keys of `top` outside `rest` merged in. */
  ghost predicate MergedExcept(cur: map<string, string>, own: map<string, string>,
                               top: map<string, string>, rest: set<string>)
  {
    && cur.Keys == own.Keys + (top.Keys - rest)
    && (forall k :: k in own ==> cur[k] == own[k])
    && (forall k :: k in top && k !in rest && k !in own ==> cur[k] == top[k])
  }

  /** With no key left, `cur` is the full merge. */
  lemma MergedAll(cur: map<string, string>, own: map<string, string>, top: map<string, string>)
    requires MergedExcept(cur, own, top, {})
    ensures cur == WithTopLabels(own, top)
  {
  }

  /** Merging one more key `ln`: it is added unless the group already has it. */
  lemma MergeStep(cur: map<string, string>, own: map<string, string>,
                  top: map<string, string>, rest: set<string>, ln: string)
    requires ln in rest && rest <= top.Keys && MergedExcept(cur, own, top, rest)
    ensures MergedExcept(if ln in cur then cur else cur[ln := top[ln]], own, top, rest - {ln})
  {
  }

  /** The whole configuration. */
  class Config {
    const Labels: map<string, string>
    const LogGroups: seq<LogGroupConfig>
    const Exports: seq<ExportConfig>

    constructor (labels: map<string, string>, groups: seq<LogGroupConfig>,
                 exports: seq<ExportConfig>)
      ensures Labels == labels && LogGroups == groups && Exports == exports
    {
      Labels, LogGroups, Exports := labels, groups, exports;
    }

    /**
     * Adds every top-level label to every log group that does not already
     * have that key.  A log group listed twice is merged twice, which
     * changes nothing the second time.
     */
    method PrepareLabels()
      modifies set g | g in LogGroups
      ensures forall g :: g in LogGroups ==>
                g.GlobalLabels == WithTopLabels(old(g.GlobalLabels), Labels)
    {
      var i := 0;
      while i < |LogGroups|
        invariant 0 <= i <= |LogGroups|
        invariant forall g :: g in LogGroups ==>
                    g.GlobalLabels == if g in LogGroups[..i]
                                      then WithTopLabels(old(g.GlobalLabels), Labels)
                                      else old(g.GlobalLabels)
      {
        var g := LogGroups[i];
        if g in LogGroups[..i] {
          WithTopLabelsIdempotent(old(g.GlobalLabels), Labels);
        }
        MergeInto(g, Labels);
        assert LogGroups[..i + 1] == LogGroups[..i] + [g];
        i := i + 1;
      }
      assert LogGroups[..i] == LogGroups;
    }
  }

  /** The inner loop of prepareLabels, for one log group. */
  method MergeInto(g: LogGroupConfig, top: map<string, string>)
    modifies g
    ensures g.GlobalLabels == WithTopLabels(old(g.GlobalLabels), top)
  {
    ghost var own := g.GlobalLabels;
    var rest := top.Keys;
    while rest != {}
      invariant rest <= top.Keys
      invariant MergedExcept(g.GlobalLabels, own, top, rest)
      decreases |rest|
    {
      var ln :| ln in rest;
      MergeStep(g.GlobalLabels, own, top, rest, ln);
      if ln !in g.GlobalLabels {
        g.GlobalLabels := g.GlobalLabels[ln := top[ln]];
      }
      rest := rest - {ln};
    }
    MergedAll(g.GlobalLabels, own, top);
  }

  /**
   * prepareLabels as written, for a log group whose YAML had no `labels:`
   * entry: Go then holds a nil map (None here), and the first assignment
   * into it panics (None result).
   */
  function PrepareGroupAsWritten(own: Option<map<string, string>>, top: map<string, string>)
    : (r: Option<map<string, string>>)
    ensures r.None? <==> own.None? && top != map[]
    ensures own.Some? ==> r == Some(WithTopLabels(own.value, top))
  {
    match own
    case Some(m) => Some(WithTopLabels(m, top))
    case None => if top == map[] then Some(map[]) else None
  }

  /** A log group without labels under a top-level label: the load panics. */
  lemma NilGroupLabelsPanic()
    ensures PrepareGroupAsWritten(None, map["env" := "prod"]) == None
    ensures WithTopLabels(map[], map["env" := "prod"]) == map["env" := "prod"]
  {
    var top := map["env" := "prod"];
    assert "env" in top;
    var r := WithTopLabels(map[], top);
    assert r.Keys == top.Keys;
  }
}
