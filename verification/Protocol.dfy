/** The exporter as a transition system: the informer, the work queue, any number of workers
    and the two feed refreshers, interleaved at every point where another goroutine can act. */
module Protocol {
  import opened Base
  import opened App
  import opened Controller
  import opened Feeds
  import opened Ledger
  import opened Queue
  import opened Report
  import opened Resolver
  import Epss
  import Kev

  /** The allowlist, the roll-up lister (fixed for the whole run) and the number of workers. */
  datatype Config = Config(allow: set<string>, rollup: Rollup, workers: nat)

  /** Non-positive worker counts mean the default of two. */
  function WorkerCount(option: int): nat {
    if option <= 0 then 2 else option
  }

  type EpssNow = Option<Epss.Snapshot>
  type KevNow = Option<Kev.Snapshot>

  /** Where a worker stands: between keys, about to read the cache, having failed to, having
      read it, having loaded the first and then the second snapshot pointer, done with the key,
      or gone for good. */
  datatype Worker =
    | Idle
    | Got(key: Key)
    | Failed(key: Key)
    | Read(key: Key, item: Option<Object>)
    | HasEpss(key: Key, rep: VulnerabilityReport, epss: EpssNow)
    | HasBoth(key: Key, rep: VulnerabilityReport, epss: EpssNow, kev: KevNow)
    | Finished(key: Key)
    | Exited

  predicate Busy(w: Worker) {
    !w.Idle? && !w.Exited?
  }

  datatype Sync = NotSynced | Synced | SyncFailed

  /** pending holds the notifications the informer has yet to deliver; ops every operation on
      the series store so far. */
  datatype State = State(cache: map<Key, Object>, pending: seq<Key>, q: QueueState, workers: seq<Worker>,
                         epss: Feed<Epss.Snapshot>, kev: Feed<Kev.Snapshot>, ops: History, sync: Sync)

  function CurrentEpss(s: State): EpssNow {
    Snap(s.epss.installed)
  }

  function CurrentKev(s: State): KevNow {
    Snap(s.kev.installed)
  }

  function Initial(c: Config): State {
    State(map[], [], EMPTY_QUEUE, seq(c.workers, i => Idle), Unloaded(), Unloaded(), [], NotSynced)
  }

  datatype Step =
    // The world outside: the cluster, the feeds' loads, indexer failures, sync and shutdown.
    | CacheSet(key: Key, obj: Object)
    | CacheRemove(key: Key)
    | IndexerError(w: nat)
    | SyncDone
    | SyncFails
    | Stop
    // The exporter's own steps.
    | Deliver
    | Expire(key: Key)
    | Get(w: nat)
    | ReadCache(w: nat)
    | LoadEpss(w: nat)
    | LoadKev(w: nat)
    | Commit(w: nat)
    | Retry(w: nat)
    | Done(w: nat)
    | Exit(w: nat)
    | EpssStep(e: FeedStep<Epss.Snapshot>)
    | KevStep(k: FeedStep<Kev.Snapshot>)

  /** Loads yield parsed snapshots, with the marker read off them. */
  predicate EpssLoadOk(r: Loaded<Epss.Snapshot>) {
    Epss.Parsed(r.snap) && r.marker == Epss.Marker(r.snap)
  }

  predicate KevLoadOk(r: Loaded<Kev.Snapshot>) {
    Kev.Parsed(r.snap) && r.marker == Kev.Marker(r.snap)
  }

  predicate At(s: State, w: nat) {
    w < |s.workers|
  }

  /** What is left to do with the store before the key is finished: delete or skip what the
      cache read decided, or set the enriched series. */
  predicate ReadyToCommit(w: Worker) {
    w.HasBoth? || (w.Read? && !(w.item.Some? && w.item.value.Decoded?))
  }

  predicate Enabled(c: Config, s: State, step: Step) {
    match step
    case CacheSet(_, _) => true
    case CacheRemove(_) => true
    case IndexerError(w) => At(s, w) && s.workers[w].Got?
    case SyncDone => s.sync.NotSynced?
    case SyncFails => s.sync.NotSynced?
    case Stop => true
    case Deliver => s.pending != []
    case Expire(key) => key in s.q.delayed
    case Get(w) => At(s, w) && s.workers[w].Idle? && s.sync.Synced? && s.q.queue != []
    case ReadCache(w) => At(s, w) && s.workers[w].Got?
    case LoadEpss(w) => At(s, w) && s.workers[w].Read? && s.workers[w].item.Some? && s.workers[w].item.value.Decoded?
    case LoadKev(w) => At(s, w) && s.workers[w].HasEpss?
    case Commit(w) => At(s, w) && ReadyToCommit(s.workers[w])
    case Retry(w) => At(s, w) && s.workers[w].Failed?
    case Done(w) => At(s, w) && s.workers[w].Finished?
    case Exit(w) => At(s, w) && s.workers[w].Idle? && s.sync.Synced? && s.q.shuttingDown && s.q.queue == []
    case EpssStep(e) => FeedEnabled(s.epss, e) && (e.Loads? ==> EpssLoadOk(e.r))
    case KevStep(k) => FeedEnabled(s.kev, k) && (k.Loads? ==> KevLoadOk(k.r))
  }

  function Put(s: State, w: nat, worker: Worker): State
    requires At(s, w)
  {
    s.(workers := s.workers[w := worker])
  }

  /** The store operations a worker that is ready to commit performs, in one locked call. */
  function CommitOps(c: Config, w: Worker): History
    requires ReadyToCommit(w)
  {
    if w.HasBoth? then ProcessOps(c.rollup, w.key, Some(Decoded(w.rep)), w.epss, w.kev)
    else ProcessOps(c.rollup, w.key, w.item, None, None)
  }

  function Next(c: Config, s: State, step: Step): State
    requires Enabled(c, s, step)
  {
    match step
    case CacheSet(key, obj) => s.(cache := s.cache[key := obj], pending := s.pending + [key])
    case CacheRemove(key) => s.(cache := s.cache - {key}, pending := s.pending + [key])
    case IndexerError(w) => Put(s, w, Failed(s.workers[w].key))
    case SyncDone => s.(sync := Synced)
    case SyncFails => s.(sync := SyncFailed, q := Closed(s.q))
    case Stop => s.(q := Closed(s.q))
    case Deliver => s.(pending := s.pending[1..], q := Enqueued(c.allow, s.q, s.pending[0]))
    case Expire(key) => s.(q := Expired(s.q, key))
    case Get(w) => Put(s.(q := Taken(s.q)), w, Got(s.q.queue[0]))
    case ReadCache(w) => Put(s, w, Read(s.workers[w].key, Lookup(s.cache, s.workers[w].key)))
    case LoadEpss(w) => Put(s, w, HasEpss(s.workers[w].key, s.workers[w].item.value.rep, CurrentEpss(s)))
    case LoadKev(w) => Put(s, w, HasBoth(s.workers[w].key, s.workers[w].rep, s.workers[w].epss, CurrentKev(s)))
    case Commit(w) => Put(s.(ops := s.ops + CommitOps(c, s.workers[w])), w, Finished(s.workers[w].key))
    case Retry(w) => Put(s.(q := RetriedLater(s.q, s.workers[w].key)), w, Finished(s.workers[w].key))
    case Done(w) => Put(s.(q := Returned(s.q, s.workers[w].key)), w, Idle)
    case Exit(w) => Put(s, w, Exited)
    case EpssStep(e) => s.(epss := FeedNext(s.epss, e, s.cache.Keys), q := AfterFeed(c.allow, s.q, e))
    case KevStep(k) => s.(kev := FeedNext(s.kev, k, s.cache.Keys), q := AfterFeed(c.allow, s.q, k))
  }

  // ----- Runs -----

  predicate Possible(c: Config, s: State, steps: seq<Step>)
    decreases |steps|
  {
    steps == [] || (Enabled(c, s, steps[0]) && Possible(c, Next(c, s, steps[0]), steps[1..]))
  }

  function After(c: Config, s: State, steps: seq<Step>): State
    requires Possible(c, s, steps)
    decreases |steps|
  {
    if steps == [] then s else After(c, Next(c, s, steps[0]), steps[1..])
  }

  // ----- What holds whatever happens -----

  predicate Holds(s: State, i: nat, k: Key) {
    i < |s.workers| && Busy(s.workers[i]) && s.workers[i].key == k
  }

  /** The queue is consistent, and the keys being processed are those the workers hold, no two
      workers the same one. */
  ghost predicate WorkersInv(s: State) {
    && Consistent(s.q)
    && (forall i: nat, k | Holds(s, i, k) :: k in s.q.processing)
    && (forall k | k in s.q.processing :: exists i: nat :: Holds(s, i, k))
    && (forall i: nat, j: nat, k | Holds(s, i, k) && Holds(s, j, k) :: i == j)
  }

  /** Changing what one worker does with its key keeps the queue and the workers in step. */
  lemma SameKeyKeeps(s: State, s': State, w: nat, worker: Worker)
    requires WorkersInv(s) && At(s, w) && Busy(s.workers[w]) && Busy(worker) && worker.key == s.workers[w].key
    requires s'.workers == s.workers[w := worker] && Consistent(s'.q) && s'.q.processing == s.q.processing
    ensures WorkersInv(s')
    ensures forall i: nat, k :: Holds(s', i, k) <==> Holds(s, i, k)
  {
    forall i: nat, k
      ensures Holds(s', i, k) <==> Holds(s, i, k)
    {
    }
  }

  lemma QueueKeeps(s: State, s': State)
    requires WorkersInv(s) && s'.workers == s.workers && Consistent(s'.q) && s'.q.processing == s.q.processing
    ensures WorkersInv(s')
    ensures forall i: nat, k :: Holds(s', i, k) <==> Holds(s, i, k)
  {
    forall i: nat, k
      ensures Holds(s', i, k) <==> Holds(s, i, k)
    {
    }
  }

  lemma GetKeeps(c: Config, s: State, w: nat)
    requires WorkersInv(s) && Enabled(c, s, Get(w))
    ensures var s' := Next(c, s, Get(w));
            && WorkersInv(s') && s.q.queue[0] in s.q.dirty && s.q.queue[0] !in s.q.processing
            && forall i: nat, k :: Holds(s', i, k) <==> if i == w then k == s.q.queue[0] else Holds(s, i, k)
  {
    var s' := Next(c, s, Get(w));
    var key := s.q.queue[0];
    TakeConsistent(s.q);
    forall i: nat, k
      ensures Holds(s', i, k) <==> if i == w then k == key else Holds(s, i, k)
    {
    }
    forall k | k in s'.q.processing
      ensures exists i: nat :: Holds(s', i, k)
    {
      if k == key {
        assert Holds(s', w, k);
      } else {
        var i: nat :| Holds(s, i, k);
        assert Holds(s', i, k);
      }
    }
  }

  lemma DoneKeeps(c: Config, s: State, w: nat)
    requires WorkersInv(s) && Enabled(c, s, Done(w))
    ensures var s' := Next(c, s, Done(w));
            && WorkersInv(s') && s.workers[w].key in s.q.processing
            && forall i: nat, k :: Holds(s', i, k) <==> i != w && Holds(s, i, k)
  {
    var s' := Next(c, s, Done(w));
    var key := s.workers[w].key;
    assert Holds(s, w, key);
    DoneConsistent(s.q, key);
    forall i: nat, k
      ensures Holds(s', i, k) <==> i != w && Holds(s, i, k)
    {
    }
    forall k | k in s'.q.processing
      ensures exists i: nat :: Holds(s', i, k)
    {
      var i: nat :| Holds(s, i, k);
      assert Holds(s', i, k);
    }
  }

  lemma WorkersStep(c: Config, s: State, step: Step)
    requires WorkersInv(s) && Enabled(c, s, step)
    ensures WorkersInv(Next(c, s, step))
  {
    var s' := Next(c, s, step);
    match step
    case Get(w) => GetKeeps(c, s, w);
    case Done(w) => DoneKeeps(c, s, w);
    case Exit(w) =>
      forall i: nat, k
        ensures Holds(s', i, k) <==> Holds(s, i, k)
      {
      }
    case IndexerError(w) => SameKeyKeeps(s, s', w, s'.workers[w]);
    case ReadCache(w) => SameKeyKeeps(s, s', w, s'.workers[w]);
    case LoadEpss(w) => SameKeyKeeps(s, s', w, s'.workers[w]);
    case LoadKev(w) => SameKeyKeeps(s, s', w, s'.workers[w]);
    case Commit(w) => SameKeyKeeps(s, s', w, s'.workers[w]);
    case Retry(w) => SameKeyKeeps(s, s', w, s'.workers[w]);
    case Deliver =>
      AddConsistent(s.q, s.pending[0]);
      QueueKeeps(s, s');
    case Expire(key) =>
      AddConsistent(s.q.(delayed := s.q.delayed - {key}), key);
      QueueKeeps(s, s');
    case EpssStep(e) =>
      if e.AddKey? {
        AddConsistent(s.q, e.key);
      }
      QueueKeeps(s, s');
    case KevStep(k) =>
      if k.AddKey? {
        AddConsistent(s.q, k.key);
      }
      QueueKeeps(s, s');
    case _ => QueueKeeps(s, s');
  }

  /** A worker's turn in which no other goroutine acts does to the queue and the store exactly
      what the sequential controller promises of ProcessNext, whether or not the indexer fails. */
  lemma UninterruptedTurn(c: Config, s: State, w: nat, indexerFails: bool) returns (steps: seq<Step>)
    requires Enabled(c, s, Get(w))
    ensures Possible(c, s, steps)
    ensures var key, taken := s.q.queue[0], Taken(s.q);
            After(c, s, steps)
              == s.(q := Returned(if indexerFails then RetriedLater(taken, key) else taken, key),
                    ops := s.ops + if indexerFails then []
                                   else ProcessOps(c.rollup, key, Lookup(s.cache, key), CurrentEpss(s), CurrentKev(s)))
  {
    if indexerFails {
      steps := FailedTurn(c, s, w);
    } else {
      steps := SuccessfulTurn(c, s, w);
    }
  }

  lemma FailedTurn(c: Config, s: State, w: nat) returns (steps: seq<Step>)
    requires Enabled(c, s, Get(w))
    ensures Possible(c, s, steps)
    ensures var key := s.q.queue[0];
            After(c, s, steps) == s.(q := Returned(RetriedLater(Taken(s.q), key), key), ops := s.ops + [])
  {
    Extend(c, s, [], Get(w));
    steps := [] + [Get(w)];
    Extend(c, s, steps, IndexerError(w));
    steps := steps + [IndexerError(w)];
    var s1 := After(c, s, steps);
    Extend(c, s, steps, Retry(w));
    steps := steps + [Retry(w)];
    Extend(c, s, steps, Done(w));
    steps := steps + [Done(w)];
    assert s1.workers[w := Idle] == s.workers;
    assert s.ops + [] == s.ops;
  }

  lemma SuccessfulTurn(c: Config, s: State, w: nat) returns (steps: seq<Step>)
    requires Enabled(c, s, Get(w))
    ensures Possible(c, s, steps)
    ensures var key := s.q.queue[0];
            After(c, s, steps)
              == s.(q := Returned(Taken(s.q), key),
                    ops := s.ops + ProcessOps(c.rollup, key, Lookup(s.cache, key), CurrentEpss(s), CurrentKev(s)))
  {
    var item := Lookup(s.cache, s.q.queue[0]);
    Extend(c, s, [], Get(w));
    steps := [] + [Get(w)];
    Extend(c, s, steps, ReadCache(w));
    steps := steps + [ReadCache(w)];
    if item.Some? && item.value.Decoded? {
      steps := LoadBoth(c, s, steps, w);
    }
    var s1 := After(c, s, steps);
    steps := CommitAndReturn(c, s, steps, w);
    assert s1.workers[w := Idle] == s.workers;
  }

  lemma CommitAndReturn(c: Config, s: State, steps: seq<Step>, w: nat) returns (steps': seq<Step>)
    requires Possible(c, s, steps) && Enabled(c, After(c, s, steps), Commit(w))
    ensures Possible(c, s, steps')
    ensures var s1 := After(c, s, steps);
            After(c, s, steps')
              == Put(s1.(q := Returned(s1.q, s1.workers[w].key), ops := s1.ops + CommitOps(c, s1.workers[w])), w, Idle)
  {
    Extend(c, s, steps, Commit(w));
    steps' := steps + [Commit(w)];
    Extend(c, s, steps', Done(w));
    steps' := steps' + [Done(w)];
  }

  lemma LoadBoth(c: Config, s: State, steps: seq<Step>, w: nat) returns (steps': seq<Step>)
    requires Possible(c, s, steps) && Enabled(c, After(c, s, steps), LoadEpss(w))
    ensures Possible(c, s, steps')
    ensures var s1 := After(c, s, steps);
            After(c, s, steps')
              == Put(s1, w, HasBoth(s1.workers[w].key, s1.workers[w].item.value.rep, CurrentEpss(s1), CurrentKev(s1)))
  {
    Extend(c, s, steps, LoadEpss(w));
    steps' := steps + [LoadEpss(w)];
    Extend(c, s, steps', LoadKev(w));
    steps' := steps' + [LoadKev(w)];
  }

  lemma {:induction false} Extend(c: Config, s: State, steps: seq<Step>, step: Step)
    requires Possible(c, s, steps) && Enabled(c, After(c, s, steps), step)
    ensures Possible(c, s, steps + [step]) && After(c, s, steps + [step]) == Next(c, After(c, s, steps), step)
    decreases |steps|
  {
    if steps == [] {
      assert [] + [step] == [step] && [step][1..] == [];
    } else {
      assert (steps + [step])[1..] == steps[1..] + [step];
      Extend(c, Next(c, s, steps[0]), steps[1..], step);
    }
  }
}
