/**
 * Label resolution (collector/collector.go:91-110, 357-364): for one metric,
 * the co-indexed label names and compiled label templates it is registered
 * with.  The log group's labels come first, in their listed order, minus
 * those a metric-local label of the same name overrides; then the
 * metric-local labels in their listed order.  A label whose template does
 * not parse is dropped, name and template together.
 */
module Resolution {
  import opened Foreign

  ghost predicate Distinct(s: seq<string>)
  {
    forall i, j :: 0 <= i < j < |s| ==> s[i] != s[j]
  }

  lemma DistinctAt(s: seq<string>, i: nat, j: nat)
    requires Distinct(s) && i < |s| && j < |s| && s[i] == s[j]
    ensures i == j
  {
  }

  /** The template collector.go builds for label `ln` of metric `metric` in group `group`. */
  function LabelTemplate(group: string, metric: string, ln: string, source: string): Template
  {
    Template(group + ":" + metric + ":+label_" + ln, source)
  }

  /** Whether the candidate label `ln` with template text `source` is kept. */
  predicate Keeps(ext: Externals, group: string, metric: string, ln: string, source: string,
                  exclude: seq<string>)
  {
    ln !in exclude && ext.Parses(LabelTemplate(group, metric, ln, source))
  }

  /** Linear search of `s` for `e`. */
  method Contains(s: seq<string>, e: string) returns (found: bool)
    ensures found <==> e in s
  {
    var i := 0;
    while i < |s|
      invariant 0 <= i <= |s|
      invariant e !in s[..i]
    {
      if s[i] == e {
        return true;
      }
      assert s[..i + 1] == s[..i] + [s[i]];
      i := i + 1;
    }
    assert s[..i] == s;
    return false;
  }

  /**
   * The candidates of `names` (with template texts `sources`) that are kept:
   * their names and their templates, co-indexed.
   */
  function Kept(ext: Externals, group: string, metric: string,
                names: seq<string>, sources: seq<string>, exclude: seq<string>)
    : (r: (seq<string>, seq<Template>))
    requires |names| == |sources|
    ensures |r.0| == |r.1| <= |names|
    decreases |names|
  {
    if |names| == 0 then ([], [])
    else
      var n := |names| - 1;
      var r := Kept(ext, group, metric, names[..n], sources[..n], exclude);
      var t := LabelTemplate(group, metric, names[n], sources[n]);
      if names[n] !in exclude && ext.Parses(t) then (r.0 + [names[n]], r.1 + [t]) else r
  }

  /** The positions of `names` whose candidate is kept, in increasing order. */
  ghost function Selected(ext: Externals, group: string, metric: string,
                          names: seq<string>, sources: seq<string>, exclude: seq<string>)
    : (idx: seq<nat>)
    requires |names| == |sources|
    ensures |idx| <= |names| && forall k :: 0 <= k < |idx| ==> idx[k] < |names|
    decreases |names|
  {
    if |names| == 0 then []
    else
      var n := |names| - 1;
      var idx := Selected(ext, group, metric, names[..n], sources[..n], exclude);
      if Keeps(ext, group, metric, names[n], sources[n], exclude) then idx + [n] else idx
  }

  /** The Selected positions are increasing. */
  lemma {:induction false} SelectedIncreasing(ext: Externals, group: string, metric: string,
                                              names: seq<string>, sources: seq<string>,
                                              exclude: seq<string>)
    requires |names| == |sources|
    ensures var idx := Selected(ext, group, metric, names, sources, exclude);
            forall k1, k2 :: 0 <= k1 < k2 < |idx| ==> idx[k1] < idx[k2]
    decreases |names|
  {
    if |names| > 0 {
      var n := |names| - 1;
      SelectedIncreasing(ext, group, metric, names[..n], sources[..n], exclude);
      var idx := Selected(ext, group, metric, names[..n], sources[..n], exclude);
      var all := Selected(ext, group, metric, names, sources, exclude);
      assert all == idx + [n] || all == idx;
      forall k1, k2 | 0 <= k1 < k2 < |all| ensures all[k1] < all[k2] {
        if k2 < |idx| {
          assert all[k1] == idx[k1] && all[k2] == idx[k2];
          assert Selected(ext, group, metric, names[..n], sources[..n], exclude)[k1]
                 < Selected(ext, group, metric, names[..n], sources[..n], exclude)[k2];
        } else {
          assert all[k1] == idx[k1] && all[k2] == n;
        }
      }
    }
  }

  /** Every Selected position holds a kept candidate. */
  lemma {:induction false} SelectedKeeps(ext: Externals, group: string, metric: string,
                                         names: seq<string>, sources: seq<string>,
                                         exclude: seq<string>)
    requires |names| == |sources|
    ensures var idx := Selected(ext, group, metric, names, sources, exclude);
            forall k :: 0 <= k < |idx| ==>
              Keeps(ext, group, metric, names[idx[k]], sources[idx[k]], exclude)
    decreases |names|
  {
    if |names| > 0 {
      var n := |names| - 1;
      SelectedKeeps(ext, group, metric, names[..n], sources[..n], exclude);
      var idx := Selected(ext, group, metric, names[..n], sources[..n], exclude);
      var all := Selected(ext, group, metric, names, sources, exclude);
      forall k | 0 <= k < |all|
        ensures Keeps(ext, group, metric, names[all[k]], sources[all[k]], exclude)
      {
        if k < |idx| {
          assert Keeps(ext, group, metric,
                       names[..n][Selected(ext, group, metric, names[..n], sources[..n], exclude)[k]],
                       sources[..n][Selected(ext, group, metric, names[..n], sources[..n], exclude)[k]],
                       exclude);
          var j := idx[k];
          assert all[k] == j && names[..n][j] == names[j] && sources[..n][j] == sources[j];
        }
      }
    }
  }

  /** Every position holding a kept candidate is Selected. */
  lemma {:induction false} SelectedComplete(ext: Externals, group: string, metric: string,
                                            names: seq<string>, sources: seq<string>,
                                            exclude: seq<string>)
    requires |names| == |sources|
    ensures var idx := Selected(ext, group, metric, names, sources, exclude);
            forall i :: 0 <= i < |names| && Keeps(ext, group, metric, names[i], sources[i], exclude)
              ==> i in idx
    decreases |names|
  {
    if |names| > 0 {
      var n := |names| - 1;
      SelectedComplete(ext, group, metric, names[..n], sources[..n], exclude);
      var idx := Selected(ext, group, metric, names[..n], sources[..n], exclude);
      forall i | 0 <= i < n && Keeps(ext, group, metric, names[i], sources[i], exclude)
        ensures i in idx
      {
        assert names[..n][i] == names[i] && sources[..n][i] == sources[i];
      }
    }
  }

  /**
   * The Selected positions are increasing, each is kept, and every kept
   * position is among them.
   */
  lemma SelectedSpec(ext: Externals, group: string, metric: string,
                     names: seq<string>, sources: seq<string>, exclude: seq<string>)
    requires |names| == |sources|
    ensures var idx := Selected(ext, group, metric, names, sources, exclude);
            && (forall k1, k2 :: 0 <= k1 < k2 < |idx| ==> idx[k1] < idx[k2])
            && (forall k :: 0 <= k < |idx| ==>
                  Keeps(ext, group, metric, names[idx[k]], sources[idx[k]], exclude))
            && (forall i :: 0 <= i < |names| && Keeps(ext, group, metric, names[i], sources[i], exclude)
                  ==> i in idx)
  {
    SelectedIncreasing(ext, group, metric, names, sources, exclude);
    SelectedKeeps(ext, group, metric, names, sources, exclude);
    SelectedComplete(ext, group, metric, names, sources, exclude);
  }

  /**
   * What Kept keeps is exactly the candidates at the Selected positions,
   * in that order, each name next to its own template.
   */
  lemma {:induction false} KeptAtSelected(ext: Externals, group: string, metric: string,
                                          names: seq<string>, sources: seq<string>,
                                          exclude: seq<string>)
    requires |names| == |sources|
    ensures var r := Kept(ext, group, metric, names, sources, exclude);
            var idx := Selected(ext, group, metric, names, sources, exclude);
            && |r.0| == |idx|
            && forall k :: 0 <= k < |idx| ==>
                 r.0[k] == names[idx[k]]
                 && r.1[k] == LabelTemplate(group, metric, names[idx[k]], sources[idx[k]])
    decreases |names|
  {
    if |names| > 0 {
      var n := |names| - 1;
      KeptAtSelected(ext, group, metric, names[..n], sources[..n], exclude);
      var r := Kept(ext, group, metric, names[..n], sources[..n], exclude);
      var idx := Selected(ext, group, metric, names[..n], sources[..n], exclude);
      forall k | 0 <= k < |idx|
        ensures r.0[k] == names[idx[k]]
        ensures r.1[k] == LabelTemplate(group, metric, names[idx[k]], sources[idx[k]])
      {
        assert names[..n][idx[k]] == names[idx[k]] && sources[..n][idx[k]] == sources[idx[k]];
      }
      var all := Kept(ext, group, metric, names, sources, exclude);
      var allIdx := Selected(ext, group, metric, names, sources, exclude);
      if Keeps(ext, group, metric, names[n], sources[n], exclude) {
        var t := LabelTemplate(group, metric, names[n], sources[n]);
        assert all == (r.0 + [names[n]], r.1 + [t]);
        assert allIdx == idx + [n];
        forall k | 0 <= k < |allIdx|
          ensures all.0[k] == names[allIdx[k]]
          ensures all.1[k] == LabelTemplate(group, metric, names[allIdx[k]], sources[allIdx[k]])
        {
          if k < |idx| {
            assert all.0[k] == r.0[k] && all.1[k] == r.1[k] && allIdx[k] == idx[k];
          }
        }
      } else {
        assert all == r && allIdx == idx;
      }
    }
  }

  /**
   * The resolved labels of a metric, from the group's labels `gl` (with
   * template texts `gv`) and the metric's own labels `l` (texts `v`).
   */
  function Resolve(ext: Externals, group: string, metric: string,
                   gl: seq<string>, gv: seq<string>, l: seq<string>, v: seq<string>)
    : (r: (seq<string>, seq<Template>))
    requires |gl| == |gv| && |l| == |v|
    ensures |r.0| == |r.1| <= |gl| + |l|
  {
    var g := Kept(ext, group, metric, gl, gv, l);
    var m := Kept(ext, group, metric, l, v, []);
    (g.0 + m.0, g.1 + m.1)
  }

  /**
   * The resolved names are the group labels not overridden by a local name
   * and whose templates parse, in group order, followed by the local labels
   * whose templates parse, in local order; each next to its own template.
   */
  lemma ResolveSpec(ext: Externals, group: string, metric: string,
                    gl: seq<string>, gv: seq<string>, l: seq<string>, v: seq<string>)
    requires |gl| == |gv| && |l| == |v|
    ensures var r := Resolve(ext, group, metric, gl, gv, l, v);
            var gi := Selected(ext, group, metric, gl, gv, l);
            var li := Selected(ext, group, metric, l, v, []);
            && |r.0| == |r.1| == |gi| + |li|
            && (forall k :: 0 <= k < |gi| ==>
                  r.0[k] == gl[gi[k]] && r.0[k] !in l
                  && r.1[k] == LabelTemplate(group, metric, gl[gi[k]], gv[gi[k]]))
            && (forall k :: |gi| <= k < |r.0| ==>
                  r.0[k] == l[li[k - |gi|]]
                  && r.1[k] == LabelTemplate(group, metric, l[li[k - |gi|]], v[li[k - |gi|]]))
  {
    ResolveGroupPart(ext, group, metric, gl, gv, l, v);
    ResolveLocalPart(ext, group, metric, gl, gv, l, v);
  }

  /** The group half of ResolveSpec. */
  lemma ResolveGroupPart(ext: Externals, group: string, metric: string,
                         gl: seq<string>, gv: seq<string>, l: seq<string>, v: seq<string>)
    requires |gl| == |gv| && |l| == |v|
    ensures var r := Resolve(ext, group, metric, gl, gv, l, v);
            var gi := Selected(ext, group, metric, gl, gv, l);
            var li := Selected(ext, group, metric, l, v, []);
            && |r.0| == |r.1| == |gi| + |li|
            && forall k :: 0 <= k < |gi| ==>
                 r.0[k] == gl[gi[k]] && r.0[k] !in l
                 && r.1[k] == LabelTemplate(group, metric, gl[gi[k]], gv[gi[k]])
  {
    var r := Resolve(ext, group, metric, gl, gv, l, v);
    var g := Kept(ext, group, metric, gl, gv, l);
    var gi := Selected(ext, group, metric, gl, gv, l);
    KeptAtSelected(ext, group, metric, gl, gv, l);
    KeptAtSelected(ext, group, metric, l, v, []);
    SelectedSpec(ext, group, metric, gl, gv, l);
    forall k | 0 <= k < |gi|
      ensures r.0[k] == gl[gi[k]] && r.0[k] !in l
      ensures r.1[k] == LabelTemplate(group, metric, gl[gi[k]], gv[gi[k]])
    {
      assert r.0[k] == g.0[k] && r.1[k] == g.1[k];
      assert Keeps(ext, group, metric, gl[gi[k]], gv[gi[k]], l);
    }
  }

  /** The local half of ResolveSpec. */
  lemma ResolveLocalPart(ext: Externals, group: string, metric: string,
                         gl: seq<string>, gv: seq<string>, l: seq<string>, v: seq<string>)
    requires |gl| == |gv| && |l| == |v|
    ensures var r := Resolve(ext, group, metric, gl, gv, l, v);
            var gi := Selected(ext, group, metric, gl, gv, l);
            var li := Selected(ext, group, metric, l, v, []);
            && |r.0| == |r.1| == |gi| + |li|
            && forall k :: |gi| <= k < |r.0| ==>
              r.0[k] == l[li[k - |gi|]]
              && r.1[k] == LabelTemplate(group, metric, l[li[k - |gi|]], v[li[k - |gi|]])
  {
    var r := Resolve(ext, group, metric, gl, gv, l, v);
    var m := Kept(ext, group, metric, l, v, []);
    var gi := Selected(ext, group, metric, gl, gv, l);
    var li := Selected(ext, group, metric, l, v, []);
    KeptAtSelected(ext, group, metric, gl, gv, l);
    KeptAtSelected(ext, group, metric, l, v, []);
    forall k | |gi| <= k < |r.0|
      ensures r.0[k] == l[li[k - |gi|]]
      ensures r.1[k] == LabelTemplate(group, metric, l[li[k - |gi|]], v[li[k - |gi|]])
    {
      assert r.0[k] == m.0[k - |gi|] && r.1[k] == m.1[k - |gi|];
    }
  }

  /**
   * When both inputs list distinct names (as map keys are), the resolved
   * names are distinct: a group label shadowed by a local name is gone.
   */
  lemma ResolveDistinct(ext: Externals, group: string, metric: string,
                        gl: seq<string>, gv: seq<string>, l: seq<string>, v: seq<string>)
    requires |gl| == |gv| && |l| == |v|
    requires Distinct(gl) && Distinct(l)
    ensures Distinct(Resolve(ext, group, metric, gl, gv, l, v).0)
  {
    var r := Resolve(ext, group, metric, gl, gv, l, v);
    var gi := Selected(ext, group, metric, gl, gv, l);
    var li := Selected(ext, group, metric, l, v, []);
    ResolveSpec(ext, group, metric, gl, gv, l, v);
    SelectedSpec(ext, group, metric, gl, gv, l);
    SelectedSpec(ext, group, metric, l, v, []);
    forall k1, k2 | 0 <= k1 < k2 < |r.0| ensures r.0[k1] != r.0[k2] {
      if k2 < |gi| {
        assert gi[k1] < gi[k2];
      } else if k1 >= |gi| {
        assert li[k1 - |gi|] < li[k2 - |gi|];
      } else {
        assert r.0[k1] !in l && r.0[k2] == l[li[k2 - |gi|]];
      }
    }
  }

  /** Every local label whose template parses is among the resolved names. */
  lemma ResolveIncludesLocal(ext: Externals, group: string, metric: string,
                             gl: seq<string>, gv: seq<string>, l: seq<string>, v: seq<string>)
    requires |gl| == |gv| && |l| == |v|
    ensures forall j :: 0 <= j < |l| && ext.Parses(LabelTemplate(group, metric, l[j], v[j])) ==>
              l[j] in Resolve(ext, group, metric, gl, gv, l, v).0
  {
    var r := Resolve(ext, group, metric, gl, gv, l, v);
    var gi := Selected(ext, group, metric, gl, gv, l);
    var li := Selected(ext, group, metric, l, v, []);
    ResolveLocalPart(ext, group, metric, gl, gv, l, v);
    SelectedComplete(ext, group, metric, l, v, []);
    forall j | 0 <= j < |l| && ext.Parses(LabelTemplate(group, metric, l[j], v[j]))
      ensures l[j] in r.0
    {
      assert Keeps(ext, group, metric, l[j], v[j], []);
      assert j in li;
      var q :| 0 <= q < |li| && li[q] == j;
      assert r.0[|gi| + q] == l[li[|gi| + q - |gi|]];
    }
  }

  /**
   * Local labels take precedence: a resolved name that is also a local
   * name carries that local label's template.
   */
  lemma ResolvePrecedence(ext: Externals, group: string, metric: string,
                          gl: seq<string>, gv: seq<string>, l: seq<string>, v: seq<string>)
    requires |gl| == |gv| && |l| == |v| && Distinct(l)
    ensures var r := Resolve(ext, group, metric, gl, gv, l, v);
            forall k, j :: 0 <= k < |r.0| && 0 <= j < |l| && r.0[k] == l[j] ==>
              r.1[k] == LabelTemplate(group, metric, l[j], v[j])
  {
    var r := Resolve(ext, group, metric, gl, gv, l, v);
    var gi := Selected(ext, group, metric, gl, gv, l);
    var li := Selected(ext, group, metric, l, v, []);
    ResolveSpec(ext, group, metric, gl, gv, l, v);
    forall k, j | 0 <= k < |r.0| && 0 <= j < |l| && r.0[k] == l[j]
      ensures r.1[k] == LabelTemplate(group, metric, l[j], v[j])
    {
      assert k >= |gi|;
      var q := k - |gi|;
      assert r.0[k] == l[li[q]];
      DistinctAt(l, li[q], j);
    }
  }

  /**
   * The two loops of collector.go:95-110: group labels not shadowed by a
   * local name, then local labels, each appended with its template when
   * the template parses.
   */
  method ResolveLabels(ext: Externals, group: string, metric: string,
                       gl: seq<string>, gv: seq<string>, l: seq<string>, v: seq<string>)
    returns (labels: seq<string>, values: seq<Template>)
    requires |gl| == |gv| && |l| == |v|
    ensures (labels, values) == Resolve(ext, group, metric, gl, gv, l, v)
  {
    labels, values := [], [];
    for i := 0 to |gl|
      invariant (labels, values) == Kept(ext, group, metric, gl[..i], gv[..i], l)
    {
      var shadowed := Contains(l, gl[i]);
      if !shadowed {
        var t := LabelTemplate(group, metric, gl[i], gv[i]);
        if ext.Parses(t) {
          values := values + [t];
          labels := labels + [gl[i]];
        }
      }
      assert gl[..i + 1][..i] == gl[..i] && gv[..i + 1][..i] == gv[..i];
    }
    assert gl[..|gl|] == gl && gv[..|gv|] == gv;
    ghost var g := (labels, values);
    for i := 0 to |l|
      invariant var m := Kept(ext, group, metric, l[..i], v[..i], []);
                labels == g.0 + m.0 && values == g.1 + m.1
    {
      var t := LabelTemplate(group, metric, l[i], v[i]);
      if ext.Parses(t) {
        labels := labels + [l[i]];
        values := values + [t];
      }
      assert l[..i + 1][..i] == l[..i] && v[..i + 1][..i] == v[..i];
    }
    assert l[..|l|] == l && v[..|v|] == v;
  }
}
