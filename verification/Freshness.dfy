/** The step invariant behind convergence: every in-scope key is up to date, or something is
    already on its way to bring it up to date. It is stated at two strengths. The weak one is
    about which tuples a key contributes, and holds for any loads. The strong one is about the
    exact series, feed values included, and needs an unchanged marker to mean unchanged data. */
module Freshness {
  import opened Base
  import opened Controller
  import opened Enrich
  import opened Feeds
  import opened Ledger
  import opened Protocol
  import opened Queue
  import opened Report
  import opened Resolver

  function TuplesOf(c: Config, rep: VulnerabilityReport): set<Labels> {
    set l | l in Tuples(rep.vulnerabilities, Resolved(c.rollup, rep.workload))
  }

  function OwnedBy(last: Option<Op>): set<Labels> {
    if last.Some? then Contributed(last.value) else {}
  }

  /** What a key contributes is right for what the cache holds. Strictly: exactly the series
      enriched under the given snapshots; otherwise only the tuples. An object that does not
      decode leaves its key alone, so nothing is asked of it. */
  predicate Right(c: Config, key: Key, last: Option<Op>, item: Option<Object>, e: EpssNow, k: KevNow, strict: bool) {
    match item
    case None => OwnedBy(last) == {}
    case Some(Malformed) => true
    case Some(Decoded(rep)) =>
      if strict then last == Some(Set(key, Contribution(c.rollup, rep, e, k)))
      else OwnedBy(last) == TuplesOf(c, rep)
  }

  predicate UpToDate(c: Config, s: State, key: Key, strict: bool) {
    Right(c, key, LastOp(s.ops, key), Lookup(s.cache, key), CurrentEpss(s), CurrentKev(s), strict)
  }

  /** A sweep that will add the key is decided or certain to be. */
  predicate SweepDue<S>(f: Feed<S>, key: Key) {
    match f.phase
    case Stored(marker) => Changed(f.have, f.last, marker)
    case Flagged(marker) => Changed(f.have, f.last, marker)
    case Listing => true
    case Sweeping(keys) => key in keys
    case _ => false
  }

  /** The key is queued, has a notification pending, waits for a retry, or is due in a sweep. */
  predicate Due(s: State, key: Key, strict: bool) {
    || key in s.q.dirty
    || key in s.pending
    || key in s.q.delayed
    || (strict && key in s.cache && (SweepDue(s.epss, key) || SweepDue(s.kev, key)))
  }

  /** What the worker has read so far is still what it would read now. */
  predicate ReadsStand(c: Config, s: State, w: Worker, strict: bool)
    requires Busy(w)
  {
    var item := Lookup(s.cache, w.key);
    match w
    case Got(_) => true
    case Failed(_) => true
    case Read(_, read) => read == item
    case HasEpss(_, rep, e) => item == Some(Decoded(rep)) && (strict ==> e == CurrentEpss(s))
    case HasBoth(_, rep, e, k) => item == Some(Decoded(rep)) && (strict ==> e == CurrentEpss(s) && k == CurrentKev(s))
    case Finished(key) => UpToDate(c, s, key, strict)
  }

  ghost predicate Settled(c: Config, s: State, key: Key, strict: bool) {
    && (key !in s.q.processing ==> UpToDate(c, s, key, strict))
    && (forall i: nat | Holds(s, i, key) :: ReadsStand(c, s, s.workers[i], strict))
  }

  ghost predicate Fine(c: Config, s: State, key: Key, strict: bool) {
    Due(s, key, strict) || Settled(c, s, key, strict)
  }

  ghost predicate FreshInv(c: Config, s: State, strict: bool) {
    !s.q.shuttingDown ==> forall key | InScope(c.allow, key) :: Fine(c, s, key, strict)
  }

  /** The refresher's own records agree with what it installed. */
  predicate FeedInv<S>(f: Feed<S>) {
    match f.phase
    case Stored(marker) => f.installed.Some? && f.installed.value.marker == marker && (f.have ==> f.loaded)
    case Flagged(marker) => f.installed.Some? && f.installed.value.marker == marker && f.loaded
    case _ => f.have == f.loaded == f.installed.Some? && (f.have ==> f.last == f.installed.value.marker)
  }

  lemma FeedKeeps<S>(f: Feed<S>, step: FeedStep<S>, cached: set<Key>)
    requires FeedInv(f) && FeedEnabled(f, step)
    ensures FeedInv(FeedNext(f, step, cached))
  {
  }

  /** When the marker of what is being installed counts as unchanged, so is the data. */
  ghost predicate HonestMarker<S>(f: Feed<S>, step: FeedStep<S>) {
    step.Store? && f.phase.Fetched? && !Changed(f.have, f.last, f.phase.r.marker) ==> f.installed == Some(f.phase.r)
  }

  ghost predicate Honest(s: State, step: Step) {
    match step
    case EpssStep(e) => HonestMarker(s.epss, e)
    case KevStep(k) => HonestMarker(s.kev, k)
    case _ => true
  }

  ghost predicate Inv(c: Config, s: State, strict: bool) {
    WorkersInv(s) && FeedInv(s.epss) && FeedInv(s.kev) && FreshInv(c, s, strict)
  }

  // ----- Every step keeps the invariant -----

  lemma ContributionTuples(c: Config, rep: VulnerabilityReport, e: EpssNow, k: KevNow)
    ensures LabelSet(Contribution(c.rollup, rep, e, k)) == TuplesOf(c, rep)
    ensures forall sr | sr in Contribution(c.rollup, rep, e, k) :: sr == SeriesFor(sr.labels, e, k)
  {
    EnrichmentShape(rep, Resolved(c.rollup, rep.workload), e, k);
  }

  /** Steps of the informer and the queue leave the key due if it was, and otherwise alone. */
  lemma QueueStepFine(c: Config, s: State, step: Step, strict: bool, key: Key)
    requires Inv(c, s, strict) && Enabled(c, s, step) && InScope(c.allow, key)
    requires step.CacheSet? || step.CacheRemove? || step.Deliver? || step.Expire?
    requires !s.q.shuttingDown
    ensures Fine(c, Next(c, s, step), key, strict)
  {
    var s' := Next(c, s, step);
    assert Fine(c, s, key, strict);
    QueueKeepsHolders(c, s, step);
    match step
    case CacheSet(k, _) =>
      assert k in s'.pending;
      assert Lookup(s'.cache, key) == Lookup(s.cache, key) || key == k;
    case CacheRemove(k) =>
      assert k in s'.pending;
      assert Lookup(s'.cache, key) == Lookup(s.cache, key) || key == k;
    case Deliver =>
      AddConsistent(s.q, s.pending[0]);
      assert key in s.pending <==> key == s.pending[0] || key in s.pending[1..];
    case Expire(k) =>
      AddConsistent(s.q.(delayed := s.q.delayed - {k}), k);
  }

  lemma QueueKeepsHolders(c: Config, s: State, step: Step)
    requires Inv(c, s, true) || Inv(c, s, false)
    requires Enabled(c, s, step)
    requires step.CacheSet? || step.CacheRemove? || step.Deliver? || step.Expire?
    ensures forall i: nat, k :: Holds(Next(c, s, step), i, k) <==> Holds(s, i, k)
  {
  }

  /** A worker's step on its key w.key matters to no other key. */
  lemma WorkerStepFine(c: Config, s: State, step: Step, w: nat, strict: bool, key: Key)
    requires Inv(c, s, strict) && Enabled(c, s, step) && InScope(c.allow, key)
    requires step in {IndexerError(w), ReadCache(w), LoadEpss(w), LoadKev(w)}
    requires !s.q.shuttingDown
    ensures Fine(c, Next(c, s, step), key, strict)
  {
    var s' := Next(c, s, step);
    assert Fine(c, s, key, strict);
    SameKeyKeeps(s, s', w, s'.workers[w]);
    assert Holds(s, w, s.workers[w].key);
  }

  lemma GetFine(c: Config, s: State, w: nat, strict: bool, key: Key)
    requires Inv(c, s, strict) && Enabled(c, s, Get(w)) && InScope(c.allow, key) && !s.q.shuttingDown
    ensures Fine(c, Next(c, s, Get(w)), key, strict)
  {
    assert Fine(c, s, key, strict);
    GetKeeps(c, s, w);
  }

  lemma DoneFine(c: Config, s: State, w: nat, strict: bool, key: Key)
    requires Inv(c, s, strict) && Enabled(c, s, Done(w)) && InScope(c.allow, key) && !s.q.shuttingDown
    ensures Fine(c, Next(c, s, Done(w)), key, strict)
  {
    assert Fine(c, s, key, strict);
    DoneKeeps(c, s, w);
    assert Holds(s, w, s.workers[w].key);
  }

  lemma RetryFine(c: Config, s: State, w: nat, strict: bool, key: Key)
    requires Inv(c, s, strict) && Enabled(c, s, Retry(w)) && InScope(c.allow, key) && !s.q.shuttingDown
    ensures Fine(c, Next(c, s, Retry(w)), key, strict)
  {
    var s' := Next(c, s, Retry(w));
    assert Fine(c, s, key, strict);
    SameKeyKeeps(s, s', w, s'.workers[w]);
  }

  /** What a commit does: it records the worker's decision for its own key and nothing else. */
  lemma CommitOwn(c: Config, s: State, w: nat, key: Key)
    requires Enabled(c, s, Commit(w))
    ensures var s' := Next(c, s, Commit(w));
            var ops := CommitOps(c, s.workers[w]);
            LastOp(s'.ops, key) == if ops != [] && key == s.workers[w].key then Some(ops[0]) else LastOp(s.ops, key)
  {
    var ops := CommitOps(c, s.workers[w]);
    if ops != [] {
      assert ops == [ops[0]];
      AppendOwned(s.ops, ops[0]);
    } else {
      assert s.ops + ops == s.ops;
    }
  }

  lemma CommitFine(c: Config, s: State, w: nat, strict: bool, key: Key)
    requires Inv(c, s, strict) && Enabled(c, s, Commit(w)) && InScope(c.allow, key) && !s.q.shuttingDown
    ensures Fine(c, Next(c, s, Commit(w)), key, strict)
  {
    var s' := Next(c, s, Commit(w));
    var worker := s.workers[w];
    assert Fine(c, s, key, strict);
    SameKeyKeeps(s, s', w, s'.workers[w]);
    CommitOwn(c, s, w, key);
    if !Due(s, key, strict) {
      if key == worker.key {
        assert Holds(s, w, key);
        assert ReadsStand(c, s, worker, strict);
        if worker.HasBoth? {
          ContributionTuples(c, worker.rep, worker.epss, worker.kev);
        }
        assert UpToDate(c, s', key, strict);
      } else {
        assert UpToDate(c, s, key, strict) ==> UpToDate(c, s', key, strict);
      }
    }
  }

  /** A key due in a sweep stays due until the sweep adds it. */
  lemma SweepStays<S>(f: Feed<S>, step: FeedStep<S>, cached: set<Key>, key: Key)
    requires FeedEnabled(f, step) && key in cached && SweepDue(f, key)
    ensures SweepDue(FeedNext(f, step, cached), key) || step == AddKey(key)
  {
  }

  /** A refresher's step keeps what is installed, or makes every cached key due in a sweep. */
  lemma SwapSweeps<S>(f: Feed<S>, step: FeedStep<S>, cached: set<Key>, key: Key)
    requires FeedEnabled(f, step) && HonestMarker(f, step) && key in cached
    ensures var f' := FeedNext(f, step, cached);
            f'.installed == f.installed || SweepDue(f', key)
  {
  }

  lemma FeedStepFine(c: Config, s: State, step: Step, strict: bool, key: Key)
    requires Inv(c, s, strict) && Enabled(c, s, step) && InScope(c.allow, key) && !s.q.shuttingDown
    requires step.EpssStep? || step.KevStep?
    requires strict ==> Honest(s, step)
    ensures Fine(c, Next(c, s, step), key, strict)
  {
    var s' := Next(c, s, step);
    assert Fine(c, s, key, strict);
    FeedKeepsHolders(c, s, step);
    match step
    case EpssStep(e) =>
      if e.AddKey? {
        AddConsistent(s.q, e.key);
      }
      if strict && key in s.cache {
        SwapSweeps(s.epss, e, s.cache.Keys, key);
        if SweepDue(s.epss, key) {
          SweepStays(s.epss, e, s.cache.Keys, key);
        }
      }
    case KevStep(k) =>
      if k.AddKey? {
        AddConsistent(s.q, k.key);
      }
      if strict && key in s.cache {
        SwapSweeps(s.kev, k, s.cache.Keys, key);
        if SweepDue(s.kev, key) {
          SweepStays(s.kev, k, s.cache.Keys, key);
        }
      }
  }

  lemma FeedKeepsHolders(c: Config, s: State, step: Step)
    requires Enabled(c, s, step) && (step.EpssStep? || step.KevStep?)
    ensures forall i: nat, k :: Holds(Next(c, s, step), i, k) <==> Holds(s, i, k)
  {
  }

  lemma OtherStepFine(c: Config, s: State, step: Step, strict: bool, key: Key)
    requires Inv(c, s, strict) && Enabled(c, s, step) && InScope(c.allow, key) && !s.q.shuttingDown
    requires step.SyncDone? || step.Exit?
    ensures Fine(c, Next(c, s, step), key, strict)
  {
    var s' := Next(c, s, step);
    assert Fine(c, s, key, strict);
    forall i: nat, k
      ensures Holds(s', i, k) <==> Holds(s, i, k)
    {
    }
  }

  lemma StepFine(c: Config, s: State, step: Step, strict: bool, key: Key)
    requires Inv(c, s, strict) && Enabled(c, s, step) && InScope(c.allow, key)
    requires strict ==> Honest(s, step)
    requires !Next(c, s, step).q.shuttingDown
    ensures Fine(c, Next(c, s, step), key, strict)
  {
    match step
    case IndexerError(w) => WorkerStepFine(c, s, step, w, strict, key);
    case ReadCache(w) => WorkerStepFine(c, s, step, w, strict, key);
    case LoadEpss(w) => WorkerStepFine(c, s, step, w, strict, key);
    case LoadKev(w) => WorkerStepFine(c, s, step, w, strict, key);
    case Get(w) => GetFine(c, s, w, strict, key);
    case Done(w) => DoneFine(c, s, w, strict, key);
    case Retry(w) => RetryFine(c, s, w, strict, key);
    case Commit(w) => CommitFine(c, s, w, strict, key);
    case EpssStep(_) => FeedStepFine(c, s, step, strict, key);
    case KevStep(_) => FeedStepFine(c, s, step, strict, key);
    case SyncDone => OtherStepFine(c, s, step, strict, key);
    case Exit(_) => OtherStepFine(c, s, step, strict, key);
    case CacheSet(_, _) => QueueStepFine(c, s, step, strict, key);
    case CacheRemove(_) => QueueStepFine(c, s, step, strict, key);
    case Deliver => QueueStepFine(c, s, step, strict, key);
    case Expire(_) => QueueStepFine(c, s, step, strict, key);
    case _ =>
  }

  lemma StepKeeps(c: Config, s: State, step: Step, strict: bool)
    requires Inv(c, s, strict) && Enabled(c, s, step)
    requires strict ==> Honest(s, step)
    ensures Inv(c, Next(c, s, step), strict)
  {
    var s' := Next(c, s, step);
    WorkersStep(c, s, step);
    if step.EpssStep? {
      FeedKeeps(s.epss, step.e, s.cache.Keys);
    }
    if step.KevStep? {
      FeedKeeps(s.kev, step.k, s.cache.Keys);
    }
    if !s'.q.shuttingDown {
      forall key | InScope(c.allow, key)
        ensures Fine(c, s', key, strict)
      {
        StepFine(c, s, step, strict, key);
      }
    }
  }

  lemma InitialInv(c: Config, strict: bool)
    ensures Inv(c, Initial(c), strict)
  {
    var s := Initial(c);
    forall key
      ensures Settled(c, s, key, strict)
    {
      assert LastOp(s.ops, key) == None && Lookup(s.cache, key) == None;
    }
  }

  // ----- Every run keeps it -----

  /** No step of the run installs changed data under an unchanged marker. */
  ghost predicate HonestRun(c: Config, s: State, steps: seq<Step>)
    requires Possible(c, s, steps)
    decreases |steps|
  {
    steps == [] || (Honest(s, steps[0]) && HonestRun(c, Next(c, s, steps[0]), steps[1..]))
  }

  lemma {:induction false} RunKeeps(c: Config, s: State, steps: seq<Step>, strict: bool)
    requires Inv(c, s, strict) && Possible(c, s, steps)
    requires strict ==> HonestRun(c, s, steps)
    ensures Inv(c, After(c, s, steps), strict)
    decreases |steps|
  {
    if steps != [] {
      StepKeeps(c, s, steps[0], strict);
      RunKeeps(c, Next(c, s, steps[0]), steps[1..], strict);
    }
  }

  // ----- A new marker mends what a lying one broke -----

  /** The step installs a snapshot whose marker counts as new content. */
  predicate Mends(s: State, step: Step) {
    match step
    case EpssStep(e) => e.Store? && s.epss.phase.Fetched? && Changed(s.epss.have, s.epss.last, s.epss.phase.r.marker)
    case KevStep(k) => k.Store? && s.kev.phase.Fetched? && Changed(s.kev.have, s.kev.last, s.kev.phase.r.marker)
    case _ => false
  }

  /** Whatever earlier markers did, installing a snapshot under a new one makes every cached key
      due, so that the strong invariant follows from the weak one. */
  lemma MendRestores(c: Config, s: State, step: Step)
    requires Inv(c, s, false) && Enabled(c, s, step) && Mends(s, step)
    ensures Inv(c, Next(c, s, step), true)
    ensures forall key | key in s.cache :: Due(Next(c, s, step), key, true)
  {
    var s' := Next(c, s, step);
    StepKeeps(c, s, step, false);
    if !s'.q.shuttingDown {
      forall key | InScope(c.allow, key)
        ensures Fine(c, s', key, true)
      {
        assert Fine(c, s', key, false);
      }
    }
  }

  /** The run mends at some step and is honest from then on. */
  ghost predicate MendedRun(c: Config, s: State, steps: seq<Step>)
    requires Possible(c, s, steps)
    decreases |steps|
  {
    && steps != []
    && var s' := Next(c, s, steps[0]);
    (Mends(s, steps[0]) && HonestRun(c, s', steps[1..])) || MendedRun(c, s', steps[1..])
  }

  /** No lie since the last new marker: the run is honest from the start, or since a step that
      installed a snapshot, of either feed, under a new marker. */
  ghost predicate HonestLately(c: Config, s: State, steps: seq<Step>)
    requires Possible(c, s, steps)
  {
    HonestRun(c, s, steps) || MendedRun(c, s, steps)
  }

  lemma {:induction false} MendedKeeps(c: Config, s: State, steps: seq<Step>)
    requires Inv(c, s, false) && Possible(c, s, steps) && MendedRun(c, s, steps)
    ensures Inv(c, After(c, s, steps), true)
    decreases |steps|
  {
    var s' := Next(c, s, steps[0]);
    if Mends(s, steps[0]) && HonestRun(c, s', steps[1..]) {
      MendRestores(c, s, steps[0]);
      RunKeeps(c, s', steps[1..], true);
    } else {
      StepKeeps(c, s, steps[0], false);
      MendedKeeps(c, s', steps[1..]);
    }
  }

  /** Honesty since the last new marker is enough for the strong invariant. */
  lemma LatelyKeeps(c: Config, steps: seq<Step>)
    requires Possible(c, Initial(c), steps) && HonestLately(c, Initial(c), steps)
    ensures Inv(c, After(c, Initial(c), steps), true)
  {
    InitialInv(c, true);
    InitialInv(c, false);
    if HonestRun(c, Initial(c), steps) {
      RunKeeps(c, Initial(c), steps, true);
    } else {
      MendedKeeps(c, Initial(c), steps);
    }
  }
}
