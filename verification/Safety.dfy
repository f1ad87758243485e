/** Safety over whole runs: the allowlist, gauge coherence and readiness. */
module Safety {
  import opened Base
  import opened App
  import opened Controller
  import opened Enrich
  import opened Feeds
  import opened Freshness
  import opened Ledger
  import opened Protocol
  import opened Queue
  import Epss
  import Kev
  import Metrics
  import StoreLaws

  // ----- The allowlist -----

  /** Only in-scope keys are ever queued, held by a worker, retried, or seen by the store, though
      nothing re-checks a key once it is queued. */
  ghost predicate ScopeInv(c: Config, s: State) {
    QueueInScope(c, s.q) && WorkersInScope(c, s.workers) && OpsInScope(c, s.ops)
  }

  ghost predicate QueueInScope(c: Config, q: QueueState) {
    forall k | k in q.dirty || k in q.queue || k in q.processing || k in q.delayed :: InScope(c.allow, k)
  }

  predicate WorkersInScope(c: Config, ws: seq<Worker>) {
    forall i | 0 <= i < |ws| && Busy(ws[i]) :: InScope(c.allow, ws[i].key)
  }

  predicate OpsInScope(c: Config, ops: History) {
    forall op | op in ops :: InScope(c.allow, op.uid)
  }

  /** Every step leaves the queue in scope. */
  lemma QueueScopeKeeps(c: Config, s: State, step: Step)
    requires QueueInScope(c, s.q) && WorkersInScope(c, s.workers) && Enabled(c, s, step)
    ensures QueueInScope(c, Next(c, s, step).q)
  {
    match step
    case Get(_) => assert s.q.queue[0] in s.q.queue;
    case Retry(w) => assert Busy(s.workers[w]);
    case Done(w) => assert Busy(s.workers[w]);
    case Deliver => EnqueuedInScope(c, s.q, s.pending[0]);
    case EpssStep(e) =>
      if e.AddKey? {
        EnqueuedInScope(c, s.q, e.key);
      }
    case KevStep(k) =>
      if k.AddKey? {
        EnqueuedInScope(c, s.q, k.key);
      }
    case _ =>
  }

  lemma EnqueuedInScope(c: Config, q: QueueState, key: Key)
    requires QueueInScope(c, q)
    ensures QueueInScope(c, Enqueued(c.allow, q, key))
  {
  }

  lemma WorkersScopeKeeps(c: Config, s: State, step: Step)
    requires QueueInScope(c, s.q) && WorkersInScope(c, s.workers) && Enabled(c, s, step)
    ensures WorkersInScope(c, Next(c, s, step).workers)
  {
    if step.Get? {
      assert s.q.queue[0] in s.q.queue;
    }
  }

  lemma ScopeKeeps(c: Config, s: State, step: Step)
    requires ScopeInv(c, s) && Enabled(c, s, step)
    ensures ScopeInv(c, Next(c, s, step))
  {
    QueueScopeKeeps(c, s, step);
    WorkersScopeKeeps(c, s, step);
    if step.Commit? {
      assert Busy(s.workers[step.w]);
      forall op | op in Next(c, s, step).ops
        ensures InScope(c.allow, op.uid)
      {
        assert op in s.ops || op in CommitOps(c, s.workers[step.w]);
      }
    }
  }

  // ----- Coherence -----

  /** No series claims ransomware use without exploitation. */
  predicate Coherent(s: Series) {
    s.kevRansomware == ONE ==> s.kev == ONE
  }

  predicate KevOk(k: KevNow) {
    k.Some? ==> Kev.Parsed(k.value)
  }

  /** Every snapshot in play came from a parse, and every series ever set is coherent. */
  ghost predicate SnapshotInv(s: State) {
    && (s.epss.installed.Some? ==> EpssLoadOk(s.epss.installed.value))
    && (s.epss.phase.Fetched? ==> EpssLoadOk(s.epss.phase.r))
    && (s.kev.installed.Some? ==> KevLoadOk(s.kev.installed.value))
    && (s.kev.phase.Fetched? ==> KevLoadOk(s.kev.phase.r))
    && (forall i | 0 <= i < |s.workers| && s.workers[i].HasBoth? :: KevOk(s.workers[i].kev))
    && (forall op, sr | op in s.ops && op.Set? && sr in op.series :: Coherent(sr))
  }

  lemma SeriesCoherent(l: Labels, e: EpssNow, k: KevNow)
    requires KevOk(k)
    ensures Coherent(SeriesFor(l, e, k))
  {
  }

  lemma CommitCoherent(c: Config, s: State, w: nat)
    requires SnapshotInv(s) && Enabled(c, s, Commit(w))
    ensures SnapshotInv(Next(c, s, Commit(w)))
  {
    var s', worker := Next(c, s, Commit(w)), s.workers[w];
    forall op, sr | op in s'.ops && op.Set? && sr in op.series
      ensures Coherent(sr)
    {
      if op !in s.ops {
        assert op in CommitOps(c, worker);
        ContributionTuples(c, worker.rep, worker.epss, worker.kev);
        SeriesCoherent(sr.labels, worker.epss, worker.kev);
      }
    }
  }

  lemma EpssStaysParsed(c: Config, s: State, e: FeedStep<Epss.Snapshot>)
    requires SnapshotInv(s) && Enabled(c, s, EpssStep(e))
    ensures SnapshotInv(Next(c, s, EpssStep(e)))
  {
  }

  lemma KevStaysParsed(c: Config, s: State, k: FeedStep<Kev.Snapshot>)
    requires SnapshotInv(s) && Enabled(c, s, KevStep(k))
    ensures SnapshotInv(Next(c, s, KevStep(k)))
  {
  }

  lemma SnapshotKeeps(c: Config, s: State, step: Step)
    requires SnapshotInv(s) && Enabled(c, s, step)
    ensures SnapshotInv(Next(c, s, step))
  {
    match step
    case Commit(w) => CommitCoherent(c, s, w);
    case EpssStep(e) => EpssStaysParsed(c, s, e);
    case KevStep(k) => KevStaysParsed(c, s, k);
    case _ =>
  }

  // ----- Runs -----

  lemma {:induction false} RunSafe(c: Config, s: State, steps: seq<Step>)
    requires ScopeInv(c, s) && SnapshotInv(s) && FeedInv(s.epss) && FeedInv(s.kev) && Possible(c, s, steps)
    ensures var s' := After(c, s, steps);
            ScopeInv(c, s') && SnapshotInv(s') && FeedInv(s'.epss) && FeedInv(s'.kev)
    decreases |steps|
  {
    if steps != [] {
      ScopeKeeps(c, s, steps[0]);
      SnapshotKeeps(c, s, steps[0]);
      FeedsKeep(c, s, steps[0]);
      RunSafe(c, Next(c, s, steps[0]), steps[1..]);
    }
  }

  lemma FeedsKeep(c: Config, s: State, step: Step)
    requires FeedInv(s.epss) && FeedInv(s.kev) && Enabled(c, s, step)
    ensures FeedInv(Next(c, s, step).epss) && FeedInv(Next(c, s, step).kev)
  {
    if step.EpssStep? {
      FeedKeeps(s.epss, step.e, s.cache.Keys);
    }
    if step.KevStep? {
      FeedKeeps(s.kev, step.k, s.cache.Keys);
    }
  }

  /** The key is in one of the queue's sets or contributes series. */
  predicate Present(s: State, key: Key) {
    || key in s.q.dirty || key in s.q.queue || key in s.q.processing || key in s.q.delayed
    || Owned(s.ops, key) != {}
  }

  /** In every reachable state, every key in the queue's sets and every key that contributes
      series has an allowed namespace. */
  lemma AllowlistSafety(c: Config, steps: seq<Step>, key: Key)
    requires Possible(c, Initial(c), steps)
    ensures Present(After(c, Initial(c), steps), key) ==> InScope(c.allow, key)
  {
    RunSafe(c, Initial(c), steps);
    LastOpMember(After(c, Initial(c), steps).ops, key);
  }

  /** In the key's own words: an event for "ns/name" leaves a trace in the queue or the store only
      if the allowlist is empty or holds ns, and a key of more than two parts never does. */
  lemma NamespaceSafety(c: Config, steps: seq<Step>, ns: string, name: string, rest: string)
    requires Possible(c, Initial(c), steps) && '/' !in ns && '/' !in name
    ensures Present(After(c, Initial(c), steps), ns + "/" + name) ==> c.allow == {} || ns in c.allow
    ensures Present(After(c, Initial(c), steps), name) ==> c.allow == {} || "" in c.allow
    ensures !Present(After(c, Initial(c), steps), ns + "/" + name + "/" + rest)
  {
    ScopeIs(c.allow, ns, name, rest);
    AllowlistSafety(c, steps, ns + "/" + name);
    AllowlistSafety(c, steps, name);
    AllowlistSafety(c, steps, ns + "/" + name + "/" + rest);
  }

  ghost predicate ShowsOneOf(ops: History, g: Metrics.Gauges, l: Labels) {
    exists op, sr :: op in ops && op.Set? && sr in op.series && sr.labels == l && Metrics.ShowsSeries(g, sr)
  }

  predicate ShownByAny(g: Metrics.Gauges, l: Labels) {
    l in g.epssScore || l in g.epssPercentile || l in g.kev || (g.kevRansomware.Some? && l in g.kevRansomware.value)
  }

  predicate RansomwareImpliesKev(g: Metrics.Gauges, l: Labels) {
    g.kevRansomware.Some? && Lookup(g.kevRansomware.value, l) == Some(Finite(1.0)) ==>
      Lookup(g.kev, l) == Some(Finite(1.0))
  }

  lemma CoherentGauges(ops: History, ransomware: bool, l: Labels)
    requires forall op, sr | op in ops && op.Set? && sr in op.series :: Coherent(sr)
    ensures var g := Metrics.GaugesOf(ops, ransomware);
            (ShownByAny(g, l) ==> ShowsOneOf(ops, g, l)) && RansomwareImpliesKev(g, l)
  {
    if l in Live(OwnersOf(ops)) {
      StoreLaws.ValuesOfOneSeries(ops, l);
      var op, sr :| op in ops && op.Set? && sr in op.series && sr.labels == l
                    && forall f :: Gauge(ops, f)[l] == FieldOf(sr, f);
      assert Gauge(ops, EpssScore)[l] == sr.epssScore && Gauge(ops, EpssPercentile)[l] == sr.epssPercentile;
      assert Gauge(ops, KevFlag)[l] == sr.kev && Gauge(ops, Ransomware)[l] == sr.kevRansomware;
      assert Coherent(sr) && Metrics.ShowsSeries(Metrics.GaugesOf(ops, ransomware), sr);
    }
  }

  /** In every reachable state, for any number of workers: a tuple shown by any gauge is shown
      by every enabled gauge, all with the values of one series of one store operation, and a
      ransomware flag of one comes with an exploitation flag of one. */
  lemma GaugeCoherence(c: Config, steps: seq<Step>, ransomware: bool, l: Labels)
    requires Possible(c, Initial(c), steps)
    ensures var ops := After(c, Initial(c), steps).ops;
            var g := Metrics.Run(ops, ransomware).gauges;
            (ShownByAny(g, l) ==> ShowsOneOf(ops, g, l)) && RansomwareImpliesKev(g, l)
  {
    var ops := After(c, Initial(c), steps).ops;
    RunSafe(c, Initial(c), steps);
    Metrics.RunExact(ops, ransomware);
    CoherentGauges(ops, ransomware, l);
  }

  // ----- Readiness -----

  predicate Ready(s: State) {
    AllReady(s.sync.Synced?, s.epss.loaded, s.kev.loaded)
  }

  lemma {:induction false} ReadyStays(c: Config, s: State, steps: seq<Step>)
    requires Ready(s) && Possible(c, s, steps)
    ensures Ready(After(c, s, steps))
    decreases |steps|
  {
    if steps != [] {
      ReadyStays(c, Next(c, s, steps[0]), steps[1..]);
    }
  }

  /** Each flag is set by its own steps and by no others: the queue is closed by cancellation and
      by a failed sync, the cache is synced by the sync, a feed is loaded by its refresher. */
  lemma {:induction false} FlagsAre(c: Config, s: State, steps: seq<Step>)
    requires Possible(c, s, steps)
    ensures var s' := After(c, s, steps);
            && (s'.q.shuttingDown <==> s.q.shuttingDown || Stop in steps || SyncFails in steps)
            && (s'.sync.Synced? <==> s.sync.Synced? || SyncDone in steps)
            && (s'.sync.SyncFailed? <==> s.sync.SyncFailed? || SyncFails in steps)
            && (s'.epss.loaded <==> s.epss.loaded || EpssStep(SetLoaded) in steps)
            && (s'.kev.loaded <==> s.kev.loaded || KevStep(SetLoaded) in steps)
    decreases |steps|
  {
    if steps != [] {
      FlagsAre(c, Next(c, s, steps[0]), steps[1..]);
      FlagStep(c, s, steps[0]);
      assert steps == [steps[0]] + steps[1..];
    }
  }

  lemma FlagStep(c: Config, s: State, step: Step)
    requires Enabled(c, s, step)
    ensures var s' := Next(c, s, step);
            && (s'.q.shuttingDown <==> s.q.shuttingDown || step == Stop || step == SyncFails)
            && (s'.sync.Synced? <==> s.sync.Synced? || step == SyncDone)
            && (s'.sync.SyncFailed? <==> s.sync.SyncFailed? || step == SyncFails)
            && (s'.epss.loaded <==> s.epss.loaded || step == EpssStep(SetLoaded))
            && (s'.kev.loaded <==> s.kev.loaded || step == KevStep(SetLoaded))
  {
  }

  /** From the start: the queue is closed exactly when the run has been cancelled or its sync has
      failed, and the cache synced exactly when its sync is done. */
  lemma FlagsFromStart(c: Config, steps: seq<Step>)
    requires Possible(c, Initial(c), steps)
    ensures var s := After(c, Initial(c), steps);
            && (s.q.shuttingDown <==> Stop in steps || SyncFails in steps)
            && (s.sync == Synced <==> SyncDone in steps) && (s.sync == SyncFailed <==> SyncFails in steps)
  {
    FlagsAre(c, Initial(c), steps);
  }

  ghost predicate Unstarted(s: State) {
    s.ops == [] && forall i | 0 <= i < |s.workers| :: s.workers[i].Idle?
  }

  /** Until the sync is done no worker starts and the store stays empty. */
  lemma {:induction false} NothingBeforeSync(c: Config, s: State, steps: seq<Step>)
    requires Unstarted(s) && !s.sync.Synced? && Possible(c, s, steps) && SyncDone !in steps
    ensures Unstarted(After(c, s, steps))
    decreases |steps|
  {
    if steps != [] {
      assert steps == [steps[0]] + steps[1..];
      NothingBeforeSync(c, Next(c, s, steps[0]), steps[1..]);
    }
  }

  /** The run has synced its cache and marked both feeds loaded. */
  predicate BecameReady(steps: seq<Step>) {
    SyncDone in steps && EpssStep(SetLoaded) in steps && KevStep(SetLoaded) in steps
  }

  /** The exporter is ready exactly when its cache has synced and both feeds have been marked
      loaded, at any time before. Then both snapshots are installed and non-empty, though the
      pointer and the flag are written separately and loads may fail at any time; and it stays
      ready. */
  lemma ReadinessSafety(c: Config, steps: seq<Step>, more: seq<Step>)
    requires Possible(c, Initial(c), steps) && Possible(c, After(c, Initial(c), steps), more)
    ensures Ready(After(c, Initial(c), steps)) <==> BecameReady(steps)
    ensures BecameReady(steps) ==>
              var s := After(c, After(c, Initial(c), steps), more);
              && Ready(s) && s.sync == Synced
              && s.epss.installed.Some? && s.epss.installed.value.snap.scores != map[]
              && s.kev.installed.Some? && s.kev.installed.value.snap.present != {}
  {
    var s1 := After(c, Initial(c), steps);
    FlagsAre(c, Initial(c), steps);
    if BecameReady(steps) {
      RunSafe(c, Initial(c), steps);
      RunSafe(c, s1, more);
      ReadyStays(c, s1, more);
    }
  }
}
