/** The queue-driven controller: what is enqueued, and what a worker does with a key. */
module Controller {
  import opened Base
  import opened Text
  import opened Ledger
  import opened Report
  import opened Resolver
  import opened Queue
  import opened App
  import opened Enrich
  import Epss
  import Kev

  /** A cached object: a report, or something that does not decode to one. */
  datatype Object = Decoded(rep: VulnerabilityReport) | Malformed

  /** The namespace part of a key, or None for a key with more than one separator. */
  function Namespace(key: Key): Option<string> {
    var parts := Split(key, '/');
    if |parts| == 1 then Some("") else if |parts| == 2 then Some(parts[0]) else None
  }

  /** An empty allowlist allows every namespace. */
  predicate Allowed(allow: set<string>, namespace: string) {
    allow == {} || namespace in allow
  }

  predicate InScope(allow: set<string>, key: Key) {
    Namespace(key).Some? && Allowed(allow, Namespace(key).value)
  }

  /** A key of one part has the empty namespace. */
  lemma NoNamespace(name: string)
    requires '/' !in name
    ensures Namespace(name) == Some("")
  {
    SplitNone(name, '/');
  }

  /** A key of two parts has the first for its namespace. */
  lemma NamespaceFirst(ns: string, name: string)
    requires '/' !in ns && '/' !in name
    ensures Namespace(ns + "/" + name) == Some(ns)
  {
    assert ns + ['/'] + name == ns + "/" + name;
    SplitFirst(ns, '/', name);
    SplitNone(name, '/');
  }

  /** A key of more than two parts has none. */
  lemma TooManyParts(ns: string, name: string, rest: string)
    requires '/' !in ns && '/' !in name
    ensures Namespace(ns + "/" + name + "/" + rest) == None
  {
    var tail := name + ['/'] + rest;
    assert ns + ['/'] + tail == ns + "/" + name + "/" + rest;
    SplitFirst(ns, '/', tail);
    SplitFirst(name, '/', rest);
  }

  /** Which keys are in scope, by their text alone: those of a namespace on the allowlist, and
      with an empty allowlist all keys of one or two parts. */
  lemma ScopeIs(allow: set<string>, ns: string, name: string, rest: string)
    requires '/' !in ns && '/' !in name
    ensures InScope(allow, ns + "/" + name) <==> allow == {} || ns in allow
    ensures InScope(allow, name) <==> allow == {} || "" in allow
    ensures !InScope(allow, ns + "/" + name + "/" + rest)
  {
    NamespaceFirst(ns, name);
    NoNamespace(name);
    TooManyParts(ns, name, rest);
  }

  /** Enqueuing keys in order, out-of-scope keys skipped. */
  function EnqueuedAll(allow: set<string>, q: QueueState, keys: seq<Key>): QueueState {
    if keys == [] then q
    else
      var before := EnqueuedAll(allow, q, keys[..|keys| - 1]);
      Enqueued(allow, before, keys[|keys| - 1])
  }

  function Enqueued(allow: set<string>, q: QueueState, key: Key): QueueState {
    if InScope(allow, key) then Added(q, key) else q
  }

  /** The listing names every cached key once. */
  ghost predicate ListsKeys(listed: seq<Key>, cached: set<Key>) {
    (forall k :: k in listed <==> k in cached) && forall i, j | 0 <= i < j < |listed| :: listed[i] != listed[j]
  }

  /** A sweep of an open queue makes every listed in-scope key dirty and touches nothing else, in
      whatever order the keys are listed; keys already queued are not queued twice. */
  lemma {:induction false} SweepMakesDirty(allow: set<string>, q: QueueState, keys: seq<Key>)
    requires Consistent(q) && !q.shuttingDown
    ensures var q' := EnqueuedAll(allow, q, keys);
            && Consistent(q')
            && q'.dirty == q.dirty + (set k | k in keys && InScope(allow, k))
            && q'.processing == q.processing && q'.delayed == q.delayed && !q'.shuttingDown
            && q.queue <= q'.queue
  {
    if keys != [] {
      var n := |keys| - 1;
      SweepMakesDirty(allow, q, keys[..n]);
      AddConsistent(EnqueuedAll(allow, q, keys[..n]), keys[n]);
      assert keys == keys[..n] + [keys[n]];
      assert (set k | k in keys && InScope(allow, k))
          == (set k | k in keys[..n] && InScope(allow, k)) + if InScope(allow, keys[n]) then {keys[n]} else {};
    }
  }

  /** The series a decoded report contributes under the given snapshots. */
  function Contribution(rollup: Rollup, rep: VulnerabilityReport, e: Option<Epss.Snapshot>, k: Option<Kev.Snapshot>)
    : seq<Series>
  {
    Enrichment(Some(rep), Resolved(rollup, rep.workload), e, k)
  }

  /** What processing a key does to the store, given what the cache holds for it. An object
      that does not decode is skipped: its key keeps whatever it contributed before. */
  function ProcessOps(rollup: Rollup, key: Key, item: Option<Object>, e: Option<Epss.Snapshot>, k: Option<Kev.Snapshot>)
    : History
  {
    match item
    case None => [Delete(key)]
    case Some(Malformed) => []
    case Some(Decoded(rep)) => [Set(key, Contribution(rollup, rep, e, k))]
  }

  /** What processing several keys in order does. */
  function ProcessAll(rollup: Rollup, keys: seq<Key>, cache: map<Key, Object>, e: Option<Epss.Snapshot>,
                      k: Option<Kev.Snapshot>)
    : History
  {
    if keys == [] then []
    else ProcessOps(rollup, keys[0], Lookup(cache, keys[0]), e, k) + ProcessAll(rollup, keys[1..], cache, e, k)
  }

  class Controller {
    const app: App
    const queue: WorkQueue
    const allow: set<string>
    const rollup: Rollup
    var indexer: map<Key, Object>

    constructor (app: App, allow: set<string>, rollup: Rollup)
      ensures this.app == app && this.allow == allow && this.rollup == rollup
      ensures fresh(queue) && queue.State() == EMPTY_QUEUE && indexer == map[]
    {
      this.app, this.allow, this.rollup := app, allow, rollup;
      queue := new WorkQueue();
      indexer := map[];
    }

    /** The informer's event handler; None when no key can be derived from the object. */
    method Enqueue(key: Option<Key>)
      modifies queue
      ensures queue.State() == if key.None? then old(queue.State()) else Enqueued(allow, old(queue.State()), key.value)
    {
      if key.None? {
        return;
      }
      var namespace := Namespace(key.value);
      if namespace.None? {
        return;
      }
      if !Allowed(allow, namespace.value) {
        return;
      }
      queue.Add(key.value);
    }

    /** Sweeps the cache: every in-scope cached key is added, in whatever order it is listed. */
    method EnqueueAll() returns (ghost listed: seq<Key>)
      modifies queue
      ensures ListsKeys(listed, indexer.Keys)
      ensures queue.State() == EnqueuedAll(allow, old(queue.State()), listed)
    {
      var todo := indexer.Keys;
      listed := [];
      while todo != {}
        invariant todo <= indexer.Keys
        invariant ListsKeys(listed, indexer.Keys - todo)
        invariant queue.State() == EnqueuedAll(allow, old(queue.State()), listed)
      {
        var key :| key in todo;
        todo := todo - {key};
        assert (listed + [key])[..|listed|] == listed;
        listed := listed + [key];
        var namespace := Namespace(key);
        if namespace.None? {
          continue;
        }
        if Allowed(allow, namespace.value) {
          queue.Add(key);
        }
      }
    }

    /** Processes a key; fails only when the indexer itself does. */
    method Process(key: Key, indexerFails: bool) returns (failed: bool)
      requires app.metrics.Valid()
      modifies app.metrics
      ensures app.metrics.Valid() && failed == indexerFails
      ensures app.metrics.history == old(app.metrics.history)
                + if indexerFails then []
                  else ProcessOps(rollup, key, Lookup(indexer, key), Snap(app.epss.pointer), Snap(app.kev.pointer))
    {
      if indexerFails {
        return true;
      }
      if key !in indexer {
        app.Reconcile(key, None, Workload("", "", "", ""), false);
        return false;
      }
      if indexer[key].Malformed? {
        return false;
      }
      var rep := indexer[key].rep;
      var w := Resolve(rollup, rep.workload);
      app.Reconcile(key, Some(rep), w, true);
      return false;
    }

    /** One turn of a worker: takes a key, processes it, and gives it back, retrying later on
        failure. Returns false once the queue is shut down and empty. */
    method ProcessNext(indexerFails: bool) returns (more: bool)
      requires app.metrics.Valid()
      requires queue.queue != [] || queue.shuttingDown
      modifies queue, app.metrics
      ensures app.metrics.Valid() && more == (old(queue.queue) != [])
      ensures !more ==> queue.State() == old(queue.State()) && app.metrics.history == old(app.metrics.history)
      ensures more ==>
                var key, taken := old(queue.queue)[0], Taken(old(queue.State()));
                && queue.State() == Returned(if indexerFails then RetriedLater(taken, key) else taken, key)
                && app.metrics.history == old(app.metrics.history)
                     + if indexerFails then []
                       else ProcessOps(rollup, key, Lookup(indexer, key), Snap(app.epss.pointer), Snap(app.kev.pointer))
    {
      var key, shutdown := queue.Get();
      if shutdown {
        return false;
      }
      var failed := Process(key, indexerFails);
      if failed {
        queue.AddRateLimited(key);
      }
      queue.Done(key);
      return true;
    }

    /** Shuts the queue down and runs the worker loop to its end, with no indexer failure: every
        key that was ready is processed, once each and in order, and nothing else is taken. */
    method Drain()
      requires app.metrics.Valid() && Consistent(queue.State())
      modifies queue, app.metrics
      ensures app.metrics.Valid() && Consistent(queue.State()) && queue.shuttingDown
      ensures queue.queue == [] && queue.processing == old(queue.processing)
      ensures queue.dirty == old(queue.dirty) * old(queue.processing)
      ensures app.metrics.history == old(app.metrics.history)
                + ProcessAll(rollup, old(queue.queue), indexer, Snap(app.epss.pointer), Snap(app.kev.pointer))
    {
      queue.ShutDown();
      var more := true;
      ghost var q0, done := queue.State(), 0;
      ghost var epss, kev := Snap(app.epss.pointer), Snap(app.kev.pointer);
      ghost var total := app.metrics.history + ProcessAll(rollup, q0.queue, indexer, epss, kev);
      while more
        invariant app.metrics.Valid() && Consistent(queue.State())
        invariant 0 <= done <= |q0.queue| && queue.State() == AfterTurns(q0, done)
        invariant app.metrics.history + ProcessAll(rollup, queue.queue, indexer, epss, kev) == total
        invariant !more ==> queue.queue == []
        decreases Work(queue.State()), more
      {
        if queue.queue != [] {
          TurnWorks(queue.State());
          TurnCounted(q0, done);
          ProcessAllFirst(app.metrics.history, rollup, queue.queue, indexer, epss, kev);
          done := done + 1;
        }
        more := ProcessNext(false);
      }
      AllTurned(q0);
    }
  }

  lemma ProcessAllFirst(h: History, rollup: Rollup, keys: seq<Key>, cache: map<Key, Object>, e: Option<Epss.Snapshot>,
                        k: Option<Kev.Snapshot>)
    requires keys != []
    ensures h + ProcessOps(rollup, keys[0], Lookup(cache, keys[0]), e, k) + ProcessAll(rollup, keys[1..], cache, e, k)
         == h + ProcessAll(rollup, keys, cache, e, k)
  {
    var first := ProcessOps(rollup, keys[0], Lookup(cache, keys[0]), e, k);
    var rest := ProcessAll(rollup, keys[1..], cache, e, k);
    assert h + first + rest == h + (first + rest);
  }

  /** The queue after its first n ready keys have each had their turn. */
  function AfterTurns(q: QueueState, n: nat): QueueState
    requires n <= |q.queue|
  {
    q.(queue := q.queue[n..], dirty := q.dirty - set k | k in q.queue[..n])
  }

  lemma TurnCounted(q: QueueState, n: nat)
    requires n < |q.queue|
    ensures var t := AfterTurns(q, n);
            AfterTurns(q, n + 1) == t.(queue := t.queue[1..], dirty := t.dirty - {q.queue[n]})
  {
    assert q.queue[..n + 1] == q.queue[..n] + [q.queue[n]];
  }

  lemma AllTurned(q: QueueState)
    requires Consistent(q)
    ensures AfterTurns(q, |q.queue|).dirty == q.dirty * q.processing
  {
    assert q.queue[..|q.queue|] == q.queue;
    assert AfterTurns(q, 0) == q by {
      assert q.queue[0..] == q.queue;
    }
  }
}
