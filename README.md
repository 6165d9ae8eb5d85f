# json-log-exporter: a Dafny model of its core

json-log-exporter follows JSON log files and turns each record into
Prometheus metrics. The configuration names log groups, and each group has
source files, labels and metrics (counters, gauges, histograms, summaries).
Each metric takes its labels and its value from templates rendered against
the decoded record. This project models the core of that program and proves
properties of the model:

- **Configuration** (`config.dfy`, module `Config`):
  - the label maps of a log group and of a metric, listed as two co-indexed
    sequences (`Labels`);
  - the merge of the top-level labels into every log group (`prepareLabels`);
  - an export group's configuration.
- **Label resolution** (`resolution.dfy`, module `Resolution`):
  - a metric's resolved labels are first the group's labels that no local
    label overrides, then the metric's own labels;
  - a label whose template does not parse is dropped together with its name;
  - includes the `contains` search.
- **Construction** (`collector.dfy`, module `Collector`), `NewCollector`:
  - counts the metrics per kind;
  - makes four slices of those sizes;
  - builds each metric's descriptor and writes it at its kind's decremented
    counter, so each slice holds its kind's metrics in reverse order;
  - writes the histogram and summary defaults back into the metric
    configuration;
  - stops at the first fatal error: an unknown type, a gauge, histogram or
    summary without a value key, or a value template that does not parse.
- **Ingestion** (`ingest.dfy`, module `Ingest`; `totals.dfy`, module `Totals`):
  - what the tailing goroutine does with each line: a line that is not JSON
    is skipped, then the four loops over counters, gauges, histograms and
    summaries render label values and values;
  - each metric whose value parses as a number is asked to add or observe it.
  - The Prometheus vectors are outside the model. Each call into one is
    recorded as an `Update`: which slot of which slice, which label values,
    adding or observing which number.
  - `Totals` takes the exact sum of the deltas those updates add to each
    metric; a `float64` vector may round that sum.
- **Export table** (`exporter.dfy`, module `Exporter`):
  - the package-level map from export names to exporters;
  - each exporter has a fresh registry and a handler serving that registry;
  - the last configuration of a name wins.

How the model treats the external pieces:

- **Library calls** (`foreign.dfy`): `text/template`, `encoding/json` and
  `strconv` are one `Externals` value, passed to every operation. Every
  property proved holds whatever those calls return, except where a lemma
  requires `EmptyParses`: text/template parses the empty source without
  an error.
- **Map iteration**: Go's unspecified order is a nondeterministic choice in
  `Config.Listing`. Its contract, `IsListing`, is all the model relies on.
- **Gauges**: the code adds each parsed value to its gauge
  (`collector/collector.go:294`); it does not set it. The model follows the
  code.
- **`LogConfig`**: `collector/collector.go` takes a `config.LogConfig`, a
  type `config/config.go` does not declare. The fields the code uses are
  those of `LogGroupConfig`, so the model uses that class.

## Model

| member | source | states |
|---|---|---|
| Config.Listing | config/config.go:41-53 | the two sequences list the map: same length as the map, every key exactly once, each key next to its own value |
| Config.LogGroupConfig.Labels | config/config.go:41-53 | returns a listing of the group's labels (length equals map size, co-indexed values, distinct keys, every key present) |
| Config.MetricConfig.Labels | config/config.go:55-67 | returns a listing of the metric's labels, with the same four properties |
| Config.WithTopLabels | config/config.go:95-101 | the merged keys are the group's keys plus the top-level keys; a key the group had keeps its value; a new key gets the top-level value |
| Config.WithTopLabelsIdempotent | config/config.go:95-101 | merging the same top-level labels a second time changes nothing |
| Config.MergeStep | config/config.go:97-100 | one key of the inner loop keeps the merge invariant: the key is added only when the group lacks it |
| Config.MergedAll | config/config.go:97-101 | with every key visited, the group's map is the full merge |
| Config.MergeInto | config/config.go:97-101 | the inner loop leaves the group's labels equal to the merge of its old labels with the top-level labels |
| Config.Config.PrepareLabels | config/config.go:95-103 | every log group's labels become the merge of its old labels with the top-level labels (also for a group listed twice); the top-level labels are constant |
| Config.PrepareGroupAsWritten | config/config.go:95-101 | as written: the merge yields nothing (a panic) exactly when the group's map is nil and there is a top-level label; otherwise it is the merge |
| Config.NilGroupLabelsPanic | config/config.go:98-99 | a group without labels under the top-level label `env: prod` panics as written, while the corrected merge gives it `env: prod` |
| Resolution.Contains | collector/collector.go:357-364 | true exactly when the name occurs in the sequence |
| Resolution.Kept | collector/collector.go:95-110 | the kept names and templates have equal length, at most the number of candidates |
| Resolution.Selected | collector/collector.go:95-110 | the kept positions are valid positions of the candidates |
| Resolution.SelectedIncreasing | collector/collector.go:95-110 | the kept positions strictly increase: the input order is kept |
| Resolution.SelectedKeeps | collector/collector.go:96-100 | every kept candidate is not overridden and its template parses |
| Resolution.SelectedComplete | collector/collector.go:96-100 | every candidate that is not overridden and whose template parses is kept |
| Resolution.SelectedSpec | collector/collector.go:95-110 | the kept positions are increasing, each kept one qualifies, and every qualifying one is kept |
| Resolution.KeptAtSelected | collector/collector.go:97-100 | the k-th kept name and template are the candidate at the k-th kept position and that candidate's own template: names and templates stay co-indexed |
| Resolution.Resolve | collector/collector.go:91-110 | the resolved names and templates are co-indexed and no more than the group's and the metric's labels together |
| Resolution.ResolveSpec | collector/collector.go:91-110 | resolved names: the group labels not overridden and parsing, in group order, then the local labels that parse, in local order, each with its own template and of equal lengths |
| Resolution.ResolveGroupPart | collector/collector.go:95-103 | the first part of the result is the kept group labels, none of them a local name |
| Resolution.ResolveLocalPart | collector/collector.go:104-110 | the rest of the result is the local labels that parse, in order, each with its template |
| Resolution.ResolveDistinct | collector/collector.go:95-110 | with distinct group names and distinct local names (listings of maps), the resolved names are distinct |
| Resolution.ResolveIncludesLocal | collector/collector.go:104-110 | every local label whose template parses is among the resolved names |
| Resolution.ResolvePrecedence | collector/collector.go:96-108 | a resolved name that is a local name carries that local label's template, never the group's |
| Resolution.ResolveLabels | collector/collector.go:93-110 | the two append loops compute exactly the resolved names and templates |
| Collector.KindOf | collector/collector.go:69-79 | the type strings `counter`, `gauge`, `histogram` and `summary` name the four kinds (KindOf inverts TypeName); every other string names none |
| Collector.CountOf | collector/collector.go:68-80 | the count of a kind is at most the number of metrics |
| Collector.CountOfStep | collector/collector.go:68-80 | one more metric raises its own kind's count by one and no other |
| Collector.CountOfMonotone | collector/collector.go:68-80 | counts over longer prefixes are never smaller |
| Collector.CountKinds | collector/collector.go:63-80 | the counting loop yields the number of metrics of each of the four type strings |
| Collector.Slot | collector/collector.go:112-113 | the slot a metric is written to lies inside its kind's slice |
| Collector.SlotReversed | collector/collector.go:112-113 | of two metrics of the same kind, the later one gets the lower slot |
| Collector.BucketsAfter | collector/collector.go:166-168 | a histogram without buckets gets prometheus.DefBuckets; any other bucket list is kept; a histogram never ends with none |
| Collector.MaxAgeAfter | collector/collector.go:200-202 | a summary with zero max age gets ten minutes; otherwise it is kept |
| Collector.AgeBucketsAfter | collector/collector.go:204-206 | a summary with zero age buckets gets 5; otherwise it is kept |
| Collector.TuningAfter | collector/collector.go:166-206 | the three defaulted parameters, each as its own rule states |
| Collector.TuningAfterIdempotent | collector/collector.go:166-206 | defaulting an already defaulted metric changes nothing |
| Collector.MetricFault | collector/collector.go:112-240 | an unknown type is fatal; a gauge, histogram or summary without a value key is fatal; a value template that does not parse is fatal, for counters too; a metric is sound exactly when its type is known, it has a value key unless it is a counter, and its value template parses |
| Collector.KeylessCounterAccepted | collector/collector.go:112-125 | a counter with an empty value key is never fatal, because text/template parses the empty source (`Externals.EmptyParses`) |
| Collector.FirstFault | collector/collector.go:91-241 | a fatal error is the fault of some metric all of whose predecessors are sound: the first faulty metric in configuration order |
| Collector.FirstFaultAfter | collector/collector.go:91-241 | when the first i metrics are sound, the first fault is that of the remaining ones |
| Collector.FirstFaultNone | collector/collector.go:91-241 | no fatal error exactly when no metric is faulty |
| Collector.FirstFaultStep | collector/collector.go:91-241 | the first fault from metric i on is metric i's fault, or else the first fault after it |
| Collector.OptsOf | collector/collector.go:114-216 | every vector has namespace `jsonlog`, the group as subsystem, the metric's name and description; a histogram gets its buckets, a summary its objectives, max age and age buckets, a gauge and a counter no extra options |
| Collector.BuiltLabels | collector/collector.go:91-134 | a built descriptor's label names are distinct and co-indexed with its templates, and every local label whose template parses is among them |
| Collector.BuildDescriptor | collector/collector.go:112-240 | writes the defaults back; fails exactly when the metric is faulty (unknown type, missing value key for a non-counter, unparsable value template) with that fault; otherwise the descriptor with the metric's key, value template, options (namespace `jsonlog`, subsystem the group) and the given labels |
| Collector.BuildMetric | collector/collector.go:91-240 | as BuildDescriptor, with the labels resolved from the group's listing and some listing of the metric's labels |
| Collector.BuildStep | collector/collector.go:91-240 | one iteration: metric i is defaulted and built, or fails with its fault |
| Collector.OfKind | collector/collector.go:112-236 | the descriptors of one kind, one per metric of that kind |
| Collector.OfKindAt | collector/collector.go:112-236 | metric j is at the position of OfKind given by the number of earlier metrics of its kind |
| Collector.OfKindSnoc | collector/collector.go:112-236 | one more metric appends its descriptor to its own kind only |
| Collector.SliceAtSlot | collector/collector.go:112-236 | the k-th metric of a kind sits at index count-1-k of its slice |
| Collector.StoresAfter | collector/collector.go:112-236 | a metric of another kind leaves a slice's filled part as it was |
| Collector.StoresNext | collector/collector.go:112-236 | a metric of the slice's kind finds the counter above zero and the write at the decremented counter extends the filled part |
| Collector.StoresAll | collector/collector.go:82-89 | once the counter is zero, no slot is nil and the slice is exactly the stored descriptors |
| Collector.SlotsStart | collector/collector.go:82-89 | the freshly made slices hold nothing and their counters equal their lengths |
| Collector.SlotsRoom | collector/collector.go:112-236 | a metric of kind k finds its kind's counter above zero and within the slice, so the write does not go out of range |
| Collector.SlotsPut | collector/collector.go:112-236 | decrementing the metric's kind counter and writing there keeps all four slices' invariant |
| Collector.PutStep | collector/collector.go:112-236 | the type if-chain keeps all four slices' invariant |
| Collector.SlotsFull | collector/collector.go:241 | after the last metric all four counters are zero |
| Collector.AllBuiltSnoc | collector/collector.go:91-241 | a built metric extends the built prefix |
| Collector.AllBuiltAt | collector/collector.go:91-241 | each metric of a built prefix is built |
| Collector.AllBuiltEach | collector/collector.go:91-241 | every metric of a fully built list is built, from its defaulted parameters |
| Collector.OfKindFrom | collector/collector.go:112-236 | every entry of a kind's descriptors is the descriptor of some metric of that kind (the converse of OfKindAt) |
| Collector.BuiltWellLabelled | collector/collector.go:91-134 | every descriptor built from the group's listed labels has distinct label names, one per label template |
| Collector.EntryLabelled | collector/collector.go:112-236 | every entry of a kind's reversed slice is one of those well-labelled descriptors |
| Collector.SlicesLabelled | collector/collector.go:82-236 | a collector whose slices hold the built descriptors in reverse order has, in every slot, distinct label names, one per label template |
| Collector.Assemble | collector/collector.go:82-89 | the collector has the group's name and configuration, and each slice is its kind's descriptors in reverse order |
| Collector.BuildAll | collector/collector.go:91-241 | the second loop stops with the first fault of the metrics; otherwise every metric is defaulted and built and every slot filled in reverse order |
| Collector.NewCollector | collector/collector.go:61-244 | fails exactly when a metric is faulty, with the first fault; on success, each slice holds its kind's descriptors in reverse configuration order, each built from the group's listing and the metric's defaulted parameters, which are written back, and every descriptor has distinct label names, one per label template |
| Ingest.ExecuteTpl | collector/collector.go:347-355 | the template's output when execution succeeds, the empty string on an error; a non-empty result means execution succeeded |
| Ingest.Rendered | collector/collector.go:339-345 | one value per template, the i-th being the i-th template executed on the record |
| Ingest.LabelValues | collector/collector.go:339-345 | the fill loop yields the rendered values |
| Ingest.MetricUpdates | collector/collector.go:273-318 | at most one update, to this metric and with its rendered labels; a counter without a key adds 1; otherwise an update happens exactly when the rendered value parses, adding it (counter, gauge) or observing it (histogram, summary) |
| Ingest.KindUpdates | collector/collector.go:273-318 | one loop makes at most one update per metric of its slice |
| Ingest.LineUpdates | collector/collector.go:264-271 | a line that is not JSON makes no update |
| Ingest.KindStep | collector/collector.go:273-318 | one more metric of a loop adds just the updates it makes itself |
| Ingest.UpdateCounters | collector/collector.go:273-288 | the counter loop makes exactly the updates of the counters' specification |
| Ingest.UpdateGauges | collector/collector.go:290-298 | the gauge loop makes exactly the updates of the gauges' specification |
| Ingest.UpdateHistograms | collector/collector.go:300-308 | the histogram loop makes exactly the updates of the histograms' specification |
| Ingest.UpdateSummaries | collector/collector.go:310-318 | the summary loop makes exactly the updates of the summaries' specification |
| Ingest.ProcessLine | collector/collector.go:263-319 | one iteration over a line makes exactly that line's updates |
| Ingest.SourceUpdates | collector/collector.go:263-319 | lines none of which is JSON make no update |
| Ingest.SourceStep | collector/collector.go:263-319 | one more line adds just its own updates |
| Ingest.ProcessSource | collector/collector.go:262-320 | the goroutine's updates over a file's lines are those of each line in turn |
| Ingest.KindMembers | collector/collector.go:273-318 | every update of one loop goes to a metric of that loop's slice and is the update that metric makes |
| Ingest.KindFromCollector | collector/collector.go:273-318 | each loop's updates are updates of the collector's own metrics |
| Ingest.LoopsFromCollector | collector/collector.go:273-318 | each of the four loops' updates is a collector metric's own update |
| Ingest.FromCollectorLabels | collector/collector.go:274-311 | such an update has one label value per label template of its metric |
| Ingest.LineMembers | collector/collector.go:263-318 | a line with updates is JSON; each update is a collector metric's own and has one label value per label template of that metric |
| Ingest.LineLabelNames | collector/collector.go:274-311 | for a collector built by NewCollector, every `WithLabelValues` call gets one value per label name of its metric, and those names are distinct |
| Ingest.CountFor | collector/collector.go:273-318 | a metric is updated no more often than there are updates |
| Ingest.CountOwn | collector/collector.go:273-318 | a metric's update counts for that metric only |
| Ingest.KindCount | collector/collector.go:273-318 | one loop updates each of its metrics at most once, exactly when that metric's value parses (or it is a keyless counter), and no metric of another kind |
| Ingest.LineCount | collector/collector.go:263-318 | a JSON line updates each metric exactly as that metric's own update says; a value that fails to parse skips only that metric; a line that is not JSON updates nothing |
| Ingest.KindOrdered | collector/collector.go:273-318 | one loop's updates go to strictly increasing slots |
| Ingest.OrderedConcat | collector/collector.go:273-318 | ordered updates followed by a later loop's increasing updates are ordered |
| Ingest.LineOrdered | collector/collector.go:273-318 | a line's updates come in loop order (counters, gauges, histograms, summaries) and in slot order within a loop |
| Ingest.SourceLast | collector/collector.go:263-319 | the last line of two stretches is the last line of the second |
| Ingest.SourceAppend | collector/collector.go:263-319 | lines are independent: the updates of two stretches of lines are the first's followed by the second's, so a bad line does not stop later lines |
| Ingest.JsonLines | collector/collector.go:266-271 | the JSON lines are at most all lines |
| Ingest.SourceCountBound | collector/collector.go:263-319 | no metric is updated more often than there are JSON lines |
| Ingest.CounterCountsLines | collector/collector.go:273-288 | a counter without a value key is updated once per JSON line |
| Totals.AddedToAppend | collector/collector.go:281-294 | the exact sum of the deltas added to a metric by two stretches of updates is the sum of the two |
| Totals.AddedOwn | collector/collector.go:281-294 | a metric's update adds to that metric only |
| Totals.KindAdded | collector/collector.go:273-298 | one loop adds to a metric of its kind what that metric's own update adds, and nothing to others |
| Totals.LineAddsOne | collector/collector.go:263-288 | a JSON line adds exactly 1 to a counter without a value key; a line that is not JSON adds nothing |
| Totals.CounterAddsLines | collector/collector.go:263-288 | over N JSON lines, the deltas added to a counter without a value key sum to exactly N |
| Exporter.ExporterTable.constructor | collector/exporter.go:10 | the package-level table starts empty |
| Exporter.Winner | collector/exporter.go:19-30 | a name has a winning configuration exactly when some configuration has it; the winner has that name and is one of the configurations |
| Exporter.WinnerIsLast | collector/exporter.go:19-30 | among configurations sharing a name, the last one wins |
| Exporter.WinnerSnoc | collector/exporter.go:19-30 | one more configuration wins for its own name and changes no other |
| Exporter.ServesSnoc | collector/exporter.go:20-29 | installing an exporter for the next configuration keeps every name served by its winner |
| Exporter.ExporterTable.Install | collector/exporter.go:21-29 | the name maps to a new exporter for the configuration, with a new registry its handler serves; no other entry changes |
| Exporter.ExporterTable.InitializeExports | collector/exporter.go:19-31 | the table gains exactly the configured names; every other entry is kept; each configured name maps to a new exporter of that name for its winning configuration, with a new registry served by its handler, distinct names having distinct registries |
| Exporter.ExporterTable.GetExport | collector/exporter.go:33-35 | the entry of that name, or nil when there is none |
| Exporter.InitializeThenGet | collector/exporter.go:19-35 | after initialization every configured name is found, with its name, its winning configuration and a new registry served by its handler; a name never present yields nil |

## Left out

- `main.go` (flag parsing, loading, wiring, HTTP serving) is not part of this model.
- `LoadFile` and `load` read the file and decode YAML. The model starts from the decoded configuration.
- `Run`: starting `tail.TailFile`, `log.Fatal` on a tailing error, and one goroutine per source file are left out, because they are I/O and concurrency. One file's goroutine is modelled over the finite sequence of lines read so far. Interleaving between files is not modelled.
- `registerMetrics` and `prometheus.MustRegister` belong to the Prometheus client library and are not modelled.
- The Prometheus vectors are left out: their values, exposition and the library's own checks. For example, `Add` panics on a negative counter delta, and that is not modelled. The model records each call as an `Update`.
- Each descriptor's vector handle (struct field `metric`) and its link back to the metric configuration (`cfg`) are not modelled. The descriptor holds the options the vector is created with.
- Templates, JSON decoding and float parsing are external (`Externals`). The model relies only on each call being a function of its arguments. Collector.KeylessCounterAccepted also relies on one library fact, `EmptyParses`: the empty template source parses.
- `float64` values are reals. `time.Duration` is an integer count of nanoseconds. `uint32` is a natural number; no wrap-around can arise, because the core only writes the constant 5.
- The logging calls (`log.Infof` for an unknown type in the counting pass, the `log.Warnf` calls for bad lines and bad values) are left out. They have no effect on the state.
- A fatal error (`log.Fatal`, `os.Exit`) is modelled as a `Failure` result carrying the fault, not as the process ending.
- Collector.NewCollector: on a fatal error it states only that each metric is either defaulted or untouched. It does not say which metrics were defaulted before the process exits.
- The Go slices `[]*counter`, `[]*gauge`, `[]*histogram` and `[]*summary` are sequence values here: they start with every entry nil and are then filled. Aliasing between them and the collector cannot be observed in the model.
- The `Export` field of a metric and the routing of metrics to export groups are not in the core. The exporter's registry and handler are opaque objects.

## Findings

| source | as written | input that shows it | evidently intended | confidence | as-written member | corrected member |
|---|---|---|---|---|---|---|
| config/config.go:98-99 | the top-level label is assigned into the log group's `GlobalLabels` map, which is nil when that group's YAML has no `labels:` entry, so the assignment panics | top-level labels `env: prod`, and a log group without `labels:` | the group receives the top-level labels, as a group with an empty map does | not executed | Config.PrepareGroupAsWritten, Config.NilGroupLabelsPanic | Config.WithTopLabels |
