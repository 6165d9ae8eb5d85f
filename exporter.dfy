/**
 * The table of export groups (collector/exporter.go): a package-level map
 * from an export's name to its exporter, each with a registry of its own
 * and an HTTP handler serving that registry.
 */
module Exporter {
  import opened Wrappers
  import opened Config

  /** A registry made by prometheus.NewRegistry. */
  class Registry {
    constructor ()
    {
    }
  }

  /** A handler made by promhttp.HandlerFor: it serves one registry. */
  class Handler {
    const registry: Registry

    constructor (registry: Registry)
      ensures this.registry == registry
    {
      this.registry := registry;
    }
  }

  /** An export group with its registry and handler. */
  class Exporter {
    const Name: string
    const Registry: Registry
    const Handler: Handler
    const config: ExportConfig

    constructor (name: string, registry: Registry, handler: Handler, config: ExportConfig)
      ensures Name == name && Registry == registry && Handler == handler && this.config == config
    {
      Name, Registry, Handler, this.config := name, registry, handler, config;
    }
  }

  /** The names of the export configurations `exports`. */
  function NamesOf(exports: seq<ExportConfig>): (r: set<string>)
  {
    set j | 0 <= j < |exports| :: exports[j].Name
  }

  /** The configuration named `n` that comes last in `exports`, if any. */
  function Winner(exports: seq<ExportConfig>, n: string): (r: Option<ExportConfig>)
    ensures r.Some? <==> n in NamesOf(exports)
    ensures r.Some? ==> r.value.Name == n && r.value in exports
    decreases |exports|
  {
    if exports == [] then None
    else
      var last := exports[|exports| - 1];
      var before := exports[..|exports| - 1];
      assert forall j :: 0 <= j < |before| ==> before[j] == exports[j];
      assert NamesOf(exports) == NamesOf(before) + {last.Name};
      if last.Name == n then Some(last) else Winner(before, n)
  }

  /** Among configurations sharing a name, the last one in the list wins. */
  lemma {:induction false} WinnerIsLast(exports: seq<ExportConfig>, j: nat)
    requires j < |exports|
    requires forall k :: j < k < |exports| ==> exports[k].Name != exports[j].Name
    ensures Winner(exports, exports[j].Name) == Some(exports[j])
    decreases |exports|
  {
    var n := |exports| - 1;
    if j < n {
      var before := exports[..n];
      assert forall k :: j < k < |before| ==> before[k] == exports[k];
      WinnerIsLast(before, j);
    }
  }

  /** One more configuration: it wins for its own name, and only for that. */
  lemma WinnerSnoc(exports: seq<ExportConfig>, i: nat)
    requires i < |exports|
    ensures NamesOf(exports[..i + 1]) == NamesOf(exports[..i]) + {exports[i].Name}
    ensures forall n :: Winner(exports[..i + 1], n)
                        == if n == exports[i].Name then Some(exports[i]) else Winner(exports[..i], n)
  {
    var e := exports[..i + 1];
    assert e[|e| - 1] == exports[i] && e[..|e| - 1] == exports[..i];
    forall n ensures Winner(e, n) == if n == exports[i].Name then Some(exports[i])
                                     else Winner(exports[..i], n)
    {
    }
  }

  /** `e` is an exporter made for `cfg`, with a handler serving its own registry. */
  predicate MadeFor(e: Exporter, cfg: ExportConfig)
  {
    e.Name == cfg.Name && e.config == cfg && e.Handler.registry == e.Registry
  }

  /** Each name of `exports` maps to an exporter made for its winning configuration. */
  ghost predicate Serves(exports: seq<ExportConfig>, m: map<string, Exporter>)
  {
    forall n :: n in NamesOf(exports) ==> n in m && Winner(exports, n) == Some(m[n].config)
                                          && m[n].Name == n && m[n].Handler.registry == m[n].Registry
  }

  /** Installing an exporter for the next configuration keeps the table serving the prefix. */
  lemma ServesSnoc(exports: seq<ExportConfig>, i: nat, m: map<string, Exporter>, e: Exporter)
    requires i < |exports| && Serves(exports[..i], m) && MadeFor(e, exports[i])
    ensures Serves(exports[..i + 1], m[exports[i].Name := e])
    ensures NamesOf(exports[..i + 1]) == NamesOf(exports[..i]) + {exports[i].Name}
  {
    WinnerSnoc(exports, i);
  }

  /** The package-level `exporters` map. */
  class ExporterTable {
    var exporters: map<string, Exporter>

    /** `make(map[string]*Exporter)`. */
    constructor ()
      ensures exporters == map[]
    {
      exporters := map[];
    }

    /**
     * Makes an exporter for each configuration in `exports`.  Each named
     * entry afterwards holds a new exporter for the last configuration with
     * that name, with a registry of its own served by its handler; entries
     * for other names are kept.
     */
    method InitializeExports(exports: seq<ExportConfig>)
      modifies this
      ensures exporters.Keys == old(exporters).Keys + NamesOf(exports)
      ensures forall n :: n in old(exporters) && n !in NamesOf(exports) ==>
                exporters[n] == old(exporters)[n]
      ensures Serves(exports, exporters)
      ensures forall n :: n in NamesOf(exports) ==> fresh(exporters[n]) && fresh(exporters[n].Registry)
      ensures forall n1, n2 :: n1 in NamesOf(exports) && n2 in NamesOf(exports) && n1 != n2 ==>
                exporters[n1].Registry != exporters[n2].Registry
    {
      ghost var owner: map<Registry, string> := map[];
      ghost var names: set<string> := {};
      for i := 0 to |exports|
        invariant names == NamesOf(exports[..i])
        invariant exporters.Keys == old(exporters).Keys + names
        invariant forall n :: n in old(exporters) && n !in names ==> exporters[n] == old(exporters)[n]
        invariant Serves(exports[..i], exporters)
        invariant forall n :: n in names ==>
                    && fresh(exporters[n]) && fresh(exporters[n].Registry)
                    && exporters[n].Registry in owner && owner[exporters[n].Registry] == n
      {
        ghost var m := exporters;
        Install(exports[i]);
        var e := exporters[exports[i].Name];
        ServesSnoc(exports, i, m, e);
        owner := owner[e.Registry := exports[i].Name];
        names := names + {exports[i].Name};
      }
      assert exports[..|exports|] == exports;
      forall n1, n2 | n1 in names && n2 in names && n1 != n2
        ensures exporters[n1].Registry != exporters[n2].Registry
      {
        assert owner[exporters[n1].Registry] == n1 && owner[exporters[n2].Registry] == n2;
      }
    }

    /** The body of InitializeExports' loop, for one configuration. */
    method Install(cfg: ExportConfig)
      modifies this
      ensures cfg.Name in exporters
      ensures exporters == old(exporters)[cfg.Name := exporters[cfg.Name]]
      ensures fresh(exporters[cfg.Name]) && fresh(exporters[cfg.Name].Registry)
      ensures MadeFor(exporters[cfg.Name], cfg)
    {
      var registry := new Registry();
      var handler := new Handler(registry);
      var exporter := new Exporter(cfg.Name, registry, handler, cfg);
      exporters := exporters[cfg.Name := exporter];
    }

    /** `exporters[name]`: the exporter of that name, or nil. */
    method GetExport(name: string) returns (e: Exporter?)
      ensures name in exporters ==> e == exporters[name]
      ensures name !in exporters ==> e == null
    {
      if name in exporters {
        e := exporters[name];
      } else {
        e := null;
      }
    }
  }

  /**
   * After initialization, every configured name is found, with the last
   * configuration of that name; a name never initialized is not.
   */
  method InitializeThenGet(t: ExporterTable, exports: seq<ExportConfig>, name: string)
    returns (e: Exporter?)
    modifies t
    ensures name in NamesOf(exports) ==>
              e != null && e.Name == name && Winner(exports, name) == Some(e.config)
              && e.Handler.registry == e.Registry && fresh(e.Registry)
    ensures name !in NamesOf(exports) && name !in old(t.exporters) ==> e == null
  {
    t.InitializeExports(exports);
    e := t.GetExport(name);
  }
}
