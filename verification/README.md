# A verified model of the EPSS/KEV exporter

The exporter keeps four Prometheus gauges in agreement with two moving inputs: a cache of
vulnerability reports and two feed snapshots, EPSS scores and the CISA KEV catalog. This Dafny
project models that derived index and proves what it promises. `dafny verify dfyconfig.toml`
checks everything.

The model has three layers.

* **The series store** (`Counts`, `Sums`, `Ledger`, `Metrics`, `StoreLaws`, `RollupLaws`).
  `Metrics.Metrics` updates ownership, reference counts, gauges and counters in place, as the
  Go code does. `Ledger` says, once about a whole history of operations, what they must then be:
  each report contributes the tuples of its latest operation, a tuple is counted once per report
  contributing it, and a live tuple shows whatever was written to it last. `Metrics.RunExact`
  proves that the two agree after every history, and the laws of the store are proved about that
  reference.
* **The two-trigger protocol** (`Queue`, `App`, `Controller`, `Feeds`, `Protocol`, `Freshness`,
  `Cluster`, `Values`, `Safety`, `Convergence`, `Termination`, `Drain`, `Witness`, `Versions`, `Sharing`,
  `Markers`). The classes are the sequential
  code. `Protocol` is the concurrent system: the informer, the work queue, any number of workers
  and both refreshers, in atomic steps that interleave freely. A worker takes a key, reads the
  cache, loads one snapshot pointer, loads the other, and commits, as five steps; a refresher
  writes its pointer, sets its flag, decides on a sweep, lists the cache, and adds one key at a
  time. A step of the store is one locked call. `Protocol.UninterruptedTurn` and
  `Feeds.StepsMakeCycle` say that, left alone, these steps do what the sequential code does.
* **Enrichment and the feed parsers** (`Text`, `Report`, `Resolver`, `Epss`, `EpssProofs`,
  `EpssFormat`, `Kev`, `Enrich`). They supply the value function the other two layers rely on.

The main results:

* Reference counting is exact after every history (`StoreLaws.RefcountRefinement`), only the last
  operation of each report matters (`StoreLaws.ReplayLatest`), and references are conserved
  (`StoreLaws.Conservation`).
* At quiescence the key sets are right for any number of workers (`Convergence.KeySetsConverge`).
  All gauge values are right too, for one worker, and for any number and any sharing of tuples
  unless some report gave up a tuple that another ends up with (`Convergence.ValuesConverge`). That
  condition, on the changes to the cluster alone, is exact (`Sharing.ValuesRightExactly`). Equal
  markers have to mean equal data only since the last snapshot, of either feed, that came with a
  new marker: installing it mends whatever a lying marker broke (`Freshness.MendRestores`). From
  any reachable state whose cache is synced and whose queue is open, the exporter's own steps run
  out, within a stated bound, in such a state (`Termination.EventualConvergence`).
* After shut-down the workers run out of steps, whatever the cluster, the feeds and the indexer go
  on doing, and leave nothing behind (`Drain.Drains`).
* Allowlist, coherence and readiness safety in every reachable state (`Safety`).
* EPSS printing and parsing undo each other in every number format that reads back the numbers of
  the snapshot at hand (`EpssProofs.PrintParse`), and so, with nothing left to assume, do they in
  one for numbers of five decimal places (`EpssFormat.FivePlacesRoundTrip`). The tolerant parser
  is a fold with the expected algebra.

## Where the code and its documentation differ

The model follows the code.

* `internal/metrics/metrics.go:14-15` says values stay consistent across reports. Whatever changes
  come to the cluster, that holds only with one worker (`Witness.OneWorkerExactly`), and the
  default is two (`internal/controller/controller.go:78-81`). For given changes and several workers
  it holds on every run exactly when no in-scope report that once had a tuple ends up without it
  while another ends up with it, and no object that stopped decoding leaves a tuple behind
  (`Sharing.ValuesRightExactly`). When a report does give up a shared tuple there is a run that
  ends quiescent with the old value showing (`Sharing.SharerGoesStale`, `Witness.TwoWorkersGoStale`).
* `internal/epss/epss.go:71-72` and `internal/kev/kev.go:74-75` take equal markers to mean equal
  data. Value convergence needs that since the last new marker (`Freshness.HonestLately`). A
  skipped EPSS sweep is right exactly when the new data scores every shown tuple as the old did
  (`Markers.SkippedSweepExact`), a skipped KEV sweep exactly when the new catalog lists the same
  shown CVEs, and flags the same ones if that gauge is enabled (`Markers.SkippedCatalogExact`);
  there are loads of either kind that leave a gauge wrong (`Markers.LyingMarkerGoesStale`,
  `Markers.LyingCatalogGoesStale`).
* `docs/metrics.md:219-221` says that at start-up the enriched-series counter equals the number of
  series. It is at least that number, and equal exactly when no two reports share a tuple
  (`StoreLaws.StartUpCounter`).
* `internal/metrics/metrics.go:133` calls an empty set equivalent to a delete. It is, except that
  it counts one processed report (`StoreLaws.EmptySetIsDelete`).
* `docs/metrics.md:108` says the severity label is verbatim. It is exactly when the severity is not
  empty, has no blank end and no lower-case letter (`Enrich.SeverityVerbatim`); "high" becomes
  "HIGH" (`Enrich.SeverityChanged`).
* A report whose cached object stops decoding keeps the series it had
  (`internal/controller/controller.go:244-249`). That is the only way the owners can be wrong at
  quiescence, and the changes to the cluster tell when it can happen: the owners are right on
  every run exactly when no in-scope key that ends up not decoding had an earlier version with
  tuples (`Versions.OwnersRightExactly`).

## Assumptions

* The work queue, the informer and the indexer are library components. `Queue` states what the
  queue does: a set of dirty keys, a set of keys being processed, a list of ready keys, and keys
  waiting for a backoff; adds after shut-down are ignored. The informer updates the cache and
  delivers its notification later, in order.
* Number parsing and the CSV reader are parameters. The round trip asks of a number format only
  that each number of the snapshot prints as plain, non-empty text that parses back to it, and of
  the reader only what it yields on text that holds no quote: `CsvRecords`.
* Two gauge values are equal when they are the same value, NaN included.
* The indexer's failures, load outcomes, and the order in which maps are iterated are arbitrary.

## Model

| member | source | states |
|---|---|---|
| Metrics.Metrics.SetReport | internal/metrics/metrics.go:134-174 | keeps the fields equal to what the history, extended by this set, makes of an empty store |
| Metrics.Metrics.ReplaceSeries | internal/metrics/metrics.go:138-173 | the set's whole new state: owners, counts, gauges and counters after gaining the new tuples and losing the dropped ones |
| Metrics.Metrics.DeleteReport | internal/metrics/metrics.go:177-184 | the same for a delete |
| Metrics.Metrics.RemoveSeries | internal/metrics/metrics.go:180-183 | the delete's whole new state: owners, counts and gauges after dropping every tuple of the report |
| Metrics.Metrics.SetCacheSynced | internal/metrics/metrics.go:215-222 | the gauge is 1.0 when synced and 0.0 otherwise, and nothing else changes |
| Metrics.Metrics.Release | internal/metrics/metrics.go:188-201 | drops one reference, and the tuple's count and all its gauges with the last one |
| Metrics.Metrics.SetGauges | internal/metrics/metrics.go:138-150 | every enabled gauge has the last series written per tuple, the rest unchanged; returns the set of tuples |
| Metrics.Metrics.AddReferences | internal/metrics/metrics.go:153-158 | exactly the newly owned tuples gain one reference, in whatever order they are visited |
| Metrics.Metrics.DropReferences | internal/metrics/metrics.go:160-164 | exactly the dropped tuples lose one, and those at their last leave every gauge, in whatever order |
| Metrics.RunExact | internal/metrics/metrics.go:134-201 | the incremental store equals the reference: owners, counts, gauges and counters are those the whole history determines |
| Metrics.Metrics.Exact | internal/metrics/metrics.go:35-58 | the same, read off the fields of the object |
| StoreLaws.RefcountRefinement | internal/metrics/metrics.go:134-201 | refs[l] is the number of reports owning l and never below one; refs and every enabled gauge have exactly the owned tuples as keys |
| StoreLaws.ShownIffContributed | internal/metrics/metrics.go:10-13 | a tuple is shown if and only if the latest operation of some report contributes it |
| StoreLaws.ValuesOfOneSeries | docs/metrics.md:110-115 | all values of a shown tuple come from one series of one operation |
| StoreLaws.ShownIsLastWritten | internal/metrics/metrics.go:138-150 | every enabled gauge shows, for a live tuple, the values of the series at the last position of the history that has the tuple |
| Ledger.LastOpIs | internal/metrics/metrics.go:130-133 | a report's last operation is the one at the last position on it, and there is none if no position is |
| StoreLaws.CountersExact | internal/metrics/metrics.go:172-173 | the counters are the number of sets, and the sum over the sets of their distinct tuples |
| StoreLaws.LatestKeepsLast | internal/metrics/metrics.go:130-133 | dropping replaced operations keeps every report's last one |
| StoreLaws.LatestDistinct | internal/metrics/metrics.go:130-133 | and leaves one operation for each report of the history |
| StoreLaws.HistoryIndependence | internal/metrics/metrics.go:130-184 | histories that agree on each report's last operation end in the same owners, counts and keys, and in the same values when every tuple always has one series |
| StoreLaws.ReplayLatest | internal/metrics/metrics.go:130-184 | replaying only the last operation of each report gives the same store |
| StoreLaws.Commute | internal/metrics/metrics.go:130-184 | operations on distinct reports commute |
| StoreLaws.Idempotent | internal/metrics/metrics.go:130-184 | repeating an operation changes no owner, count or gauge |
| StoreLaws.EmptySetIsDelete | internal/metrics/metrics.go:133-184 | setting no series is a delete that counts one pass |
| StoreLaws.DoubleCounting | internal/metrics/metrics.go:56-57 | for any ownership, references summed by tuple equal tuples summed by report |
| StoreLaws.Conservation | internal/metrics/metrics.go:152-170 | after any history the sum of refs equals the sum of the owners' set sizes |
| StoreLaws.StartUpCounter | docs/metrics.md:219-221 | after one set per report the counter equals the sum of refs and is at least the gauge's size, equal iff no tuple is shared |
| RollupLaws.OwnedByLatest | internal/enrich/enrich.go:86-103 | a report owns a tuple iff its latest version has an entry that contributes it after roll-up |
| RollupLaws.SharedLifetime | internal/metrics/metrics.go:9-13 | over every history a tuple's gauge is present iff the latest version of some report contributes it |
| RollupLaws.RolledUpReportsShare | internal/controller/resolver.go:36-52 | reports of a Deployment's ReplicaSets, the kind in any letter case, contribute the Deployment's tuple of a finding iff they list the finding, whichever ReplicaSet was scanned |
| Resolver.Resolve | internal/controller/resolver.go:36-52 | the owner loop finds what the specification function names |
| Resolver.ResolvedProperties | internal/controller/resolver.go:28-52 | a known ReplicaSet becomes its first controlling Deployment, namespace and container kept; all else passes through; idempotent |
| Queue.TakeConsistent | internal/controller/controller.go:211-216 | handing out a key keeps ready keys distinct and equal to the dirty keys no worker holds |
| Queue.DoneConsistent | internal/controller/controller.go:216-216 | so does giving one back, re-queuing it when it was added meanwhile |
| Queue.TurnWorks | internal/controller/controller.go:211-226 | one full turn on a ready key uses up two units of work and leaves every other key alone |
| Controller.Controller.Enqueue | internal/controller/controller.go:170-185 | an event adds its key iff the key is in scope, and changes nothing else |
| Controller.Controller.EnqueueAll | internal/controller/controller.go:191-201 | adds every in-scope cached key, in whatever order the cache is listed |
| Controller.NamespaceFirst | internal/controller/controller.go:176-184 | the namespace of "ns/name" is ns |
| Controller.ScopeIs | internal/controller/controller.go:176-209 | "ns/name" is in scope iff the allowlist is empty or holds ns, "name" iff it is empty or holds the empty namespace, and a key of more parts never |
| Controller.SweepMakesDirty | internal/controller/controller.go:187-201 | a sweep of an open queue makes dirty exactly the in-scope listed keys, keeps the queue's order and queues no key twice |
| Controller.Controller.Process | internal/controller/controller.go:230-252 | deletes a missing key, skips a malformed object, sets the rolled-up enrichment of a decoded one; fails only with the indexer |
| Controller.Controller.ProcessNext | internal/controller/controller.go:211-226 | one turn: the first ready key, its store operation, its return, and a delayed retry on failure; ends at shut-down |
| Controller.Controller.Drain | internal/controller/controller.go:148-165 | shuts the queue down; the worker loop then ends having processed every ready key once and in order, and taken nothing else |
| App.Slot.Apply | internal/app/app.go:152-155 | installs the snapshot and sets the loaded flag |
| App.App.Reconcile | internal/app/app.go:127-135 | adds to the store's history exactly the delete, or the set of the enrichment under the snapshots now installed |
| App.App.OnSynced | internal/app/app.go:139-142 | the sync state decides, with the two loaded flags, whether the exporter is ready, and is shown by its own gauge |
| Feeds.Refresher.RefreshOnce | internal/feeds/feeds.go:63-98 | one cycle: a failure only counts; a success installs, remembers the marker, and sweeps the whole cache iff the content counts as new |
| Feeds.Refresher.Run | internal/feeds/feeds.go:103-119 | any sequence of outcomes leaves the refresher in the state the trace law is about, or in that state without its sweeps when there is no change callback |
| Feeds.TraceLaw | internal/feeds/feeds.go:58-98 | installed is the last success; sweeps are exactly the successes that are first, unmarked or differ from the one before; the installed marker is the last swept; the two outcome counters are the numbers of successes and of failures |
| Feeds.StepsMakeCycle | internal/feeds/feeds.go:63-98 | the atomic steps of a refresh, uninterrupted, fail or install, remember, decide and add the listed keys as the whole cycle does |
| Protocol.WorkersStep | internal/controller/controller.go:155-161 | every step keeps the queue consistent and each key being processed held by exactly one worker |
| Protocol.UninterruptedTurn | internal/controller/controller.go:211-252 | a worker's steps with no other goroutine between them do to queue and store what ProcessNext promises, whether or not the indexer fails |
| Freshness.StepKeeps | internal/controller/controller.go:170-252 | every step keeps: each in-scope key is up to date, or dirty, notified, delayed or due in a sweep, or in the hands of a worker whose reads still stand |
| Freshness.RunKeeps | internal/controller/controller.go:170-252 | and so does every run, from any state that has it |
| Freshness.SwapSweeps | internal/feeds/feeds.go:69-96 | a refresher's step keeps what is installed or makes every cached key due in its sweep, if an unchanged marker at that step means unchanged data |
| Freshness.SweepStays | internal/controller/controller.go:191-201 | a cached key due in a sweep stays due until the sweep adds it, whatever the markers |
| Freshness.MendRestores | internal/feeds/feeds.go:72-96 | installing a snapshot under an empty or changed marker makes every cached key due, so the strong invariant holds again however earlier markers lied |
| Freshness.LatelyKeeps | internal/feeds/feeds.go:72-96 | the strong invariant holds after every run with no lie since its last new marker |
| Values.SwapMakesDue | internal/app/app.go:152-155 | in any state, a snapshot is replaced only when every cached key is due, unless its own marker lies |
| Values.DueStays | internal/controller/controller.go:187-201 | in any state, a due key stays due through every step until a worker takes it, lying markers or not |
| Values.ValueKeeps | internal/app/app.go:127-135 | with one worker every step keeps: each cached tuple shows its value under the installed snapshots unless its key is still to be written |
| Convergence.NotFreshIsDue | internal/app/app.go:144-172 | any workers, no lie since the last new marker: an in-scope key not up to date with the cache and the installed snapshots is due or in a worker's hands, and a worker whose reads of report or snapshots no longer stand holds a key that is due again |
| Convergence.KeySetsConverge | internal/controller/controller.go:170-252 | any workers: with nothing queued each in-scope decoded report owns exactly its enrichment's tuples, and all other absent or excluded keys own nothing |
| Convergence.OwnersExactly | internal/controller/controller.go:244-249 | with nothing queued the owners are those the cache calls for iff no object that stopped decoding still owns tuples |
| Versions.OwnersRightExactly | internal/controller/controller.go:244-249 | for any sequence of changes to the cluster and at least one worker: every run with those changes that ends open with nothing queued has the right owners iff no in-scope key that ends up not decoding had a version with a tuple |
| Cluster.WrittenWasGiven | internal/controller/controller.go:230-252 | every tuple a key has ever set was in some version of its report that the cluster gave it |
| Versions.FrozenRun | internal/controller/controller.go:244-249 | while its object does not decode and no worker holds an earlier version, a key owns just what it owned |
| Convergence.OwnersConverge | internal/metrics/metrics.go:134-201 | when all objects decode, owners, counts and gauge keys are those the cache calls for |
| Ledger.LastWriterShown | internal/metrics/metrics.go:138-150 | a tuple shows its last writer's series, and that is the writer's latest one if the writer still contributes it |
| Convergence.TupleConverges | internal/app/app.go:127-135 | no lie since the last new marker, and one worker or no other report that gave the tuple up: at quiescence each tuple of a cached report is shown with its value under the installed snapshots, however many reports share it |
| Convergence.ValuesConverge | internal/app/app.go:125-135 | then every gauge is exactly the enrichment of all in-scope cached reports, if no object that stopped decoding leaves behind a tuple that no report has |
| Sharing.ValuesRightExactly | internal/metrics/metrics.go:9-15 | for any sequence of changes to the cluster and at least one worker: every run with those changes, no lie since its last new marker, that ends open and quiescent has every gauge right iff no undecodable object orphans a tuple and, with more than one worker, no report gives up a tuple that another ends up with |
| Sharing.SharersRightExactly | internal/controller/controller.go:78-81 | with two or more workers and objects that end up decoding, the values are right on every such run iff no shared tuple is given up |
| Sharing.SharerGoesStale | internal/metrics/metrics.go:152-173 | whenever one is, an honest run ends quiescent with the tuple shown and its old score |
| Termination.InternalDecreases | internal/controller/controller.go:155-161 | every step of the exporter's own strictly decreases a measure of the work left |
| Termination.InternalRunBounded | internal/controller/controller.go:155-161 | so a run of them is no longer than the measure at its start |
| Termination.RunBounded | internal/controller/controller.go:155-161 | over any run, new events included, the exporter's own steps and the final measure are at most the starting measure plus what the events cost |
| Termination.QueueWork | internal/controller/controller.go:211-226 | twice the dirty plus the processing keys: taking and finishing each use one, other worker steps none, and after shut-down nothing adds to it |
| Termination.StuckMeansDone | internal/controller/controller.go:148-165 | no deadlock: when no own step is possible the system is quiescent, and after shut-down every worker has left |
| Termination.CanSettle | internal/controller/controller.go:155-161 | from any state with the worker invariant the exporter's own steps reach one where none is possible |
| Termination.EventualConvergence | internal/app/app.go:125-135 | from any reachable state that is synced and open, however the exporter's own steps are taken until none is left, there are no more than the bound; the gauges, and the owners when all objects decode, are then those of that state's cache, for one worker or when no shared tuple was given up |
| Drain.DrainRun | internal/controller/controller.go:148-165 | after shut-down, in any run, the steps of the workers and the final measure are at most the measure at its start |
| Drain.Drains | internal/controller/controller.go:148-165 | so after cancellation or a failed sync, with changes, loads and failed reads anywhere, the workers take a bounded number of steps, and when they can take no more, the cache synced, all have left and no key is dirty or processing |
| Safety.AllowlistSafety | internal/controller/controller.go:170-209 | in every reachable state each queued, processing, delayed or owning key has an allowed namespace |
| Safety.NamespaceSafety | internal/controller/controller.go:170-209 | in the key's own words: "ns/name" is ever present only if the allowlist is empty or holds ns |
| Safety.FlagsFromStart | internal/controller/controller.go:129-152 | in every run the queue is closed iff it was cancelled or its sync failed, and the cache is synced iff its sync is done |
| Safety.NothingBeforeSync | internal/controller/controller.go:141-161 | until the sync is done no worker starts and the store stays empty |
| Safety.GaugeCoherence | docs/metrics.md:86-115 | in every reachable state a tuple shown by any gauge is shown by all with the values of one series of one call, and ransomware = 1 implies kev = 1 |
| Safety.ReadinessSafety | internal/app/app.go:123-123 | ready iff the run has synced its cache and marked both feeds loaded; then both snapshots are installed and non-empty, and it stays ready |
| Witness.TwoWorkersGoStale | internal/controller/controller.go:78-81 | with two or more workers any two reports sharing a tuple admit an honest run to a quiescent state with right keys and a stale value |
| Witness.SomeConflict | internal/metrics/metrics.go:9-15 | any two in-scope keys can hold such reports |
| Witness.OneWorkerExactly | internal/metrics/metrics.go:14-15 | given two in-scope keys: whatever the changes to the cluster, every run with no lie since the last new marker that ends quiescent, open and decodable ends with right values if and only if there is at most one worker |
| Witness.DefaultGoesStale | internal/controller/controller.go:78-81 | the default number of workers is two, and has a run that ends wrong |
| Witness.OptionExactly | internal/controller/controller.go:78-81 | of all worker options exactly the option of one worker keeps every value right |
| Markers.SkippedSweepExact | internal/epss/epss.go:71-72 | from any reachable quiescent state with right gauges, for any workers and however it was reached: after an EPSS sweep is skipped the gauges are right iff the new data scores every shown tuple as the old did |
| Markers.SkippedCatalogExact | internal/kev/kev.go:74-75 | the same for KEV: right iff the new catalog lists the same shown CVEs and, with the ransomware gauge enabled, flags the same ones |
| Markers.LyingMarkerGoesStale | internal/feeds/feeds.go:73-79 | EPSS data changed under an unchanged non-empty marker leaves a stale score even with one worker |
| Markers.SomeLyingMarker | internal/epss/epss.go:71-72 | two such EPSS loads |
| Markers.LyingCatalogGoesStale | internal/feeds/feeds.go:73-79 | a catalog changed under an unchanged non-empty marker leaves a stale KEV flag even with one worker |
| Markers.SomeLyingCatalog | internal/kev/kev.go:74-75 | two such catalogs |
| Witness.MalformedKeepsSeries | internal/controller/controller.go:244-249 | a report that stops decoding keeps its tuples at quiescence |
| Enrich.EnrichReport | internal/enrich/enrich.go:78-117 | the loop computes the enrichment that EnrichmentExact characterizes entry by entry |
| Enrich.EnrichmentExact | internal/enrich/enrich.go:71-117 | a list of series is the enrichment iff it has exactly the contributed tuples, their CVE and severity trimmed and upper-cased, in order of first appearance, with the values of their CVEs, 0.0 where a feed has none; of no report, none |
| Enrich.TuplesOrdered | internal/enrich/enrich.go:86-103 | the tuples are those some entry contributes, strictly ordered by the entry that first does |
| Enrich.EnrichmentShape | internal/enrich/enrich.go:105-114 | tuples depend on the report alone, values on the tuple and the snapshots alone |
| Enrich.ValuesInjective | internal/enrich/enrich.go:48-58 | distinct tuples have distinct label values |
| Enrich.ValuesNamed | internal/enrich/enrich.go:20-58 | each label value stands at the place of its name |
| Enrich.SeverityVerbatim | docs/metrics.md:108-108 | the severity label is the report's own text iff that is not empty and has no blank end and no lower-case letter |
| Enrich.SeverityChanged | internal/enrich/enrich.go:125-131 | three severities that are not kept: empty, lower-case, and with a blank |
| Text.NormalizeIdempotent | internal/enrich/enrich.go:119-121 | normalizing an identifier again at a lookup changes nothing |
| Text.NormalExactly | internal/enrich/enrich.go:119-121 | an identifier is in normal form iff it has no blank end and no lower-case letter |
| Text.NormalizePadded | internal/enrich/enrich.go:119-121 | an identifier between blanks is stored as itself with each lower-case letter replaced by its upper-case one |
| Text.NormalizeForgets | internal/epss/epss.go:234-236 | lookup ignores letter case and surrounding white space |
| Epss.ParsePreamble | internal/epss/epss.go:197-212 | the last field with each of the two names gives its value, split at the first colon |
| Epss.ColumnIndices | internal/epss/epss.go:216-232 | the last column with each name, and failure iff one is missing |
| Epss.ParseRecords | internal/epss/epss.go:98-146 | the row loop computes the fold, with each structural failure, over any records and parse errors the CSV reader yields |
| Epss.Parse | internal/epss/epss.go:84-147 | every stream, one that fails included, parses to the specification's snapshot or failure over what the CSV reader yields; the rows below say which |
| EpssProofs.NoPreamble | internal/epss/epss.go:88-98 | a stream that does not start with '#' goes to the reader whole and has an empty marker |
| EpssProofs.WithPreamble | internal/epss/epss.go:90-98 | a first line that starts with '#' gives the marker, and the reader gets the rest |
| EpssProofs.OnlyPreamble | internal/epss/epss.go:90-105 | a preamble that never ends leaves no header, and is its own failure when the stream fails inside it |
| EpssProofs.FieldGives | internal/epss/epss.go:200-209 | a preamble field is split at its first colon and both parts trimmed; one with no colon says nothing |
| EpssProofs.LastFieldWins | internal/epss/epss.go:199-211 | a preamble value is that of the last field of its name, and empty without one |
| EpssProofs.FailsExactly | internal/epss/epss.go:102-145 | each failure happens iff its own cause does: no header record, a needed name in no cell in any letter case, a read failure after a good header |
| EpssProofs.RowGives | internal/epss/epss.go:128-140 | a record gives an entry iff it is wide enough, both trimmed numbers parse and its identifier is not blank: that identifier upper-cased, with those numbers |
| EpssProofs.LinesGive | internal/epss/epss.go:98-103 | of a quote-free stream a blank line is no record, any other is cut at its commas, a carriage return at its end dropped |
| EpssProofs.LookupNormalizes | internal/epss/epss.go:55-61 | any spelling of an identifier finds the score under its normal form; before any load nothing is found |
| EpssProofs.LastRowWins | internal/epss/epss.go:112-141 | a CVE has a score iff some valid row is about it, and it is that of the last such row |
| EpssProofs.AppendOverrides | internal/epss/epss.go:112-141 | appending rows overrides the map |
| EpssProofs.MalformedRowIgnored | internal/epss/epss.go:118-139 | a malformed record inserted anywhere changes neither the snapshot nor success |
| EpssProofs.MalformedLineIgnored | internal/epss/epss.go:112-139 | on quote-free text, malformed lines inserted at any line boundary after the header change nothing |
| EpssProofs.AppendedLinesOverride | internal/epss/epss.go:112-146 | on quote-free text, lines appended after the header override the scores before them and keep the marker |
| EpssProofs.FailsIffNoValidRow | internal/epss/epss.go:143-145 | with a usable header, parsing fails iff no row is valid |
| EpssProofs.ParseYieldsParsed | internal/epss/epss.go:143-146 | a parsed snapshot is non-empty, normalized and carries the preamble's marker |
| EpssProofs.ColumnOrderIrrelevant | internal/epss/epss.go:214-232 | permuting the columns of a rectangular feed changes nothing when each needed name occurs once |
| EpssProofs.PreambleRoundTrip | internal/epss/epss.go:191-212 | a preamble of two fields gives both values back in either order, colons in the values included |
| EpssProofs.ListingExists | internal/epss/epss.go:43-50 | every score map can be listed for printing |
| EpssProofs.PrintParse | internal/epss/epss.go:84-147 | parsing a printed snapshot gives back the same scores and marker, in either preamble order, any row order and with rows repeated or not, in any format that reads back each of its numbers |
| EpssProofs.PrintParseBare | internal/epss/epss.go:80-146 | header and rows printed without a preamble give back the scores with an empty marker |
| EpssFormat.FormatInverts | internal/epss/epss.go:131-132 | six digits and an exponent read back every number of at most five places below ten |
| EpssFormat.FivePlacesRoundTrip | internal/epss/epss.go:84-147 | so the round trip holds of every parsed snapshot of such numbers, with no hypothesis on the format, the parser or the reader |
| Kev.Parse | internal/kev/kev.go:96-124 | the loop builds the catalog of the set of entries, or the failure, that the rows below characterize |
| Kev.ParseOutcome | internal/kev/kev.go:96-123 | no catalog iff the document does not decode or all its identifiers are blank; otherwise one with the document's version and date as its marker |
| Kev.KnownWords | internal/kev/kev.go:114-117 | "Known" in any letter case between blanks is flagged, "Unknown" and the empty text are not |
| Kev.CatalogMembership | internal/kev/kev.go:45-64 | a CVE is listed iff some entry has its identifier, ransomware-linked iff some such entry spells Known in any letter case; the latter are a subset; before any load nothing is listed |
| Kev.EntryOrderIrrelevant | internal/kev/kev.go:108-118 | permuting or duplicating entries changes nothing |

## Left out

- CSV quoting: the reader is a library and a parameter of the parser, on any stream, failing ones included; what it yields is modelled for quote-free text, because an unclosed quote can swallow later rows. `Epss.ParseRecords` covers every sequence of rows and parse errors it can yield.
- Metrics.Metrics.SetReport: the body under the lock and its three loops are methods of their own here, and a set-valued local replaces each of the two maps the Go code ranges over.
- Kev.Parse: starts from the decoded document or the decoder's failure, because JSON decoding is a library.
- Termination.EventualConvergence: assumes no indexer failure and no new event from the state it starts in, because the caches it converges to would move; both are allowed before it, and Termination.RunBounded bounds runs that have them.
- HTTP: loading the feeds, decompression and the server. A load is an arbitrary success or failure.
- Feed timestamps, the go, process and build collectors, and logging.
- Backoff durations and the retry counter the queue forgets on success: a delayed key is added at an arbitrary later step.
- Prometheus internals: a gauge vector is a map and a counter a natural number. A scrape takes no lock, so coherence is claimed between store operations only.
- Key derivation from objects and tombstones: an event carries its key, or none when derivation fails.
- The workload labels a report falls back on, and decoding reports: a cached object is a decoded report or one that does not decode.
- ReplicaSet events, which enqueue nothing (`internal/controller/controller.go:109-122`): the lister is fixed for a run of the protocol.
- Unicode: text is ASCII, so white space, letter case and folding are those of ASCII.
- The range of scores, which the parser does not check either.
