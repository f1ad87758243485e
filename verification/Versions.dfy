/** Objects that stop decoding, told from the cluster's events alone: which sequences of changes
    to the cache leave the owners right on every run, and which admit a run that does not. */
module Versions {
  import opened Base
  import opened Cluster
  import opened Controller
  import opened Convergence
  import opened Freshness
  import opened Ledger
  import opened Protocol
  import opened Queue
  import opened Termination
  import opened Witness
  import opened Enrich

  // ----- A key whose object has stopped decoding keeps what it owns -----

  /** The key's object does not decode and no worker holds an earlier version of it. */
  ghost predicate Frozen(s: State, key: Key) {
    && Lookup(s.cache, key) == Some(Malformed)
    && forall i: nat | Holds(s, i, key) ::
         !s.workers[i].HasEpss? && !s.workers[i].HasBoth?
         && (s.workers[i].Read? ==> s.workers[i].item == Some(Malformed))
  }

  lemma FrozenKeeps(c: Config, s: State, step: Step, key: Key)
    requires Frozen(s, key) && Enabled(c, s, step) && Internal(step)
    ensures Frozen(Next(c, s, step), key) && Owned(Next(c, s, step).ops, key) == Owned(s.ops, key)
  {
    var s' := Next(c, s, step);
    forall i: nat
      ensures Holds(s', i, key) ==> Holds(s, i, key) || (step.Get? && step.w == i)
    {
    }
    if step.Commit? {
      CommitOwn(c, s, step.w, key);
      assert s.workers[step.w].key == key ==> Holds(s, step.w, key);
    }
  }

  lemma {:induction false} FrozenRun(c: Config, s: State, steps: seq<Step>, key: Key)
    requires Frozen(s, key) && Possible(c, s, steps) && AllInternal(steps)
    ensures Owned(After(c, s, steps).ops, key) == Owned(s.ops, key)
    decreases |steps|
  {
    if steps != [] {
      FrozenKeeps(c, s, steps[0], key);
      FrozenRun(c, Next(c, s, steps[0]), steps[1..], key);
    }
  }

  // ----- A run that lets the exporter settle between two groups of changes -----

  /** Changes are always possible, and touch only the cache and the notifications. */
  lemma {:induction false} ChangesPossible(c: Config, s: State, steps: seq<Step>)
    requires AllChanges(steps)
    ensures Possible(c, s, steps)
    ensures var s' := After(c, s, steps); s' == s.(cache := s'.cache, pending := s'.pending)
    decreases |steps|
  {
    if steps != [] {
      assert steps[0] in steps;
      ChangesPossible(c, Next(c, s, steps[0]), steps[1..]);
    }
  }

  /** No load is waiting to be installed. */
  predicate Unfetched(s: State) {
    !s.epss.phase.Fetched? && !s.kev.phase.Fetched?
  }

  predicate Calm(steps: seq<Step>) {
    forall i | 0 <= i < |steps| :: Internal(steps[i]) || IsChange(steps[i])
  }

  /** Without loads nothing new is installed, and so no marker lies. */
  lemma {:induction false} CalmHonest(c: Config, s: State, steps: seq<Step>)
    requires Unfetched(s) && Possible(c, s, steps) && Calm(steps)
    ensures HonestRun(c, s, steps) && Unfetched(After(c, s, steps))
    ensures After(c, s, steps).epss.installed == s.epss.installed && After(c, s, steps).kev.installed == s.kev.installed
    decreases |steps|
  {
    if steps != [] {
      CalmHonest(c, Next(c, s, steps[0]), steps[1..]);
    }
  }

  /** Calm steps added to an honest run. */
  lemma GoOn(c: Config, run: seq<Step>, s: State, steps: seq<Step>) returns (run': seq<Step>, s': State)
    requires Reached(c, run, s, true) && Unfetched(s) && Possible(c, s, steps) && Calm(steps)
    ensures Reached(c, run', s', true) && s' == After(c, s, steps) && Changes(run') == Changes(run) + Changes(steps)
    ensures Unfetched(s') && s'.epss.installed == s.epss.installed && s'.kev.installed == s.kev.installed
  {
    run', s' := run + steps, After(c, s, steps);
    CalmHonest(c, s, steps);
    RunsCompose(c, Initial(c), run, steps);
    ChangesCompose(run, steps);
  }

  /** An honest run up to a synced, open state in which nothing is left to do. */
  ghost predicate Rested(c: Config, run: seq<Step>, s: State) {
    && Reached(c, run, s, true) && s.sync.Synced? && !s.q.shuttingDown
    && Quiescent(s) && s.epss.phase.Waiting? && s.kev.phase.Waiting?
  }

  lemma Settle(c: Config, run: seq<Step>, s: State) returns (settling: seq<Step>, run': seq<Step>, s': State)
    requires c.workers >= 1 && Reached(c, run, s, true) && Unfetched(s) && s.sync.Synced? && !s.q.shuttingDown
    ensures Possible(c, s, settling) && AllInternal(settling) && s' == After(c, s, settling)
    ensures Rested(c, run', s') && Changes(run') == Changes(run) && s'.cache == s.cache
    ensures s'.epss.installed == s.epss.installed && s'.kev.installed == s.kev.installed
  {
    InitialOrderly(c);
    RunOrderly(c, Initial(c), run);
    settling := CanSettle(c, s);
    RunOrderly(c, s, settling);
    InternalLeaves(c, s, settling);
    StuckMeansDone(c, After(c, s, settling));
    InternalUnchanging(settling);
    run', s' := GoOn(c, run, s, settling);
  }

  /** Changes, all at once. */
  lemma Change(c: Config, run: seq<Step>, s: State, changes: seq<Step>) returns (run': seq<Step>, s': State)
    requires Reached(c, run, s, true) && Unfetched(s) && AllChanges(changes)
    ensures Reached(c, run', s', true) && Changes(run') == Changes(run) + changes
    ensures s' == s.(cache := s'.cache, pending := s'.pending)
  {
    ChangesPossible(c, s, changes);
    ChangesOfChanges(changes);
    forall i | 0 <= i < |changes|
      ensures IsChange(changes[i])
    {
      assert changes[i] in changes;
    }
    run', s' := GoOn(c, run, s, changes);
  }

  /** The exporter enriches the version with the tuple, and only then do the other changes come,
      after which the key's object does not decode: it goes on owning the tuple. */
  lemma KeepsOldTuples(c: Config, changes: seq<Step>, n: nat, l: Labels) returns (run: seq<Step>, s: State)
    requires c.workers >= 1 && AllChanges(changes) && LosesVersion(c, changes, n, l)
    ensures Rested(c, run, s) && Changes(run) == changes && l in Owned(s.ops, changes[n].key)
  {
    var key := changes[n].key;
    var first, rest := changes[..n + 1], changes[n + 1..];
    assert changes == first + rest;
    run, s := Take(c, [], Initial(c), SyncDone, true);
    run, s := Change(c, run, s, first);
    var settling;
    settling, run, s := Settle(c, run, s);
    CacheFollows(c, Initial(c), run);
    LastChange(map[], changes, n);
    KeySetsConverge(c, run, key);
    var rested := s;
    NoneHeld(c, run, s);
    run, s := Change(c, run, s, rest);
    var mid := s;
    CacheFollows(c, Initial(c), run);
    assert Changes(run) == changes;
    assert Frozen(mid, key) by {
      assert forall i: nat :: Holds(mid, i, key) ==> Holds(rested, i, key);
    }
    settling, run, s := Settle(c, run, s);
    FrozenRun(c, mid, settling, key);
  }

  /** When nothing is being processed no worker holds a key, and all wait for one. */
  lemma NoneHeld(c: Config, run: seq<Step>, s: State)
    requires c.workers >= 1 && Rested(c, run, s)
    ensures forall i: nat, k :: !Holds(s, i, k)
    ensures |s.workers| == c.workers && forall i | 0 <= i < |s.workers| :: s.workers[i].Idle?
    ensures s.q == EMPTY_QUEUE
  {
    InitialOrderly(c);
    RunOrderly(c, Initial(c), run);
    forall i | 0 <= i < |s.workers|
      ensures s.workers[i].Idle?
    {
      assert Busy(s.workers[i]) ==> Holds(s, i, s.workers[i].key);
    }
    ReadyIsDirty(s.q);
  }

  lemma {:induction false} LastChange(cache: map<Key, Object>, changes: seq<Step>, n: nat)
    requires n < |changes| && changes[n].CacheSet?
    ensures Lookup(CacheAfter(cache, changes[..n + 1]), changes[n].key) == Some(changes[n].obj)
    decreases n
  {
    var first := changes[..n + 1];
    if n == 0 {
      assert first[1..] == [];
    } else {
      assert first[1..] == changes[1..][..n];
      var cache' := match changes[0]
        case CacheSet(key, obj) => cache[key := obj]
        case CacheRemove(key) => cache - {key}
        case _ => cache;
      LastChange(cache', changes[1..], n - 1);
    }
  }

  // ----- The exact condition -----

  /** At the end of the run, if it is open with nothing queued, the owners are those the cache
      calls for. */
  ghost predicate EndsOwned(c: Config, run: seq<Step>)
    requires Possible(c, Initial(c), run)
  {
    var s := After(c, Initial(c), run);
    !s.q.shuttingDown && QueueQuiet(s) ==> OwnersOf(s.ops) == WantedOwners(c, s)
  }

  ghost predicate HasChanges(c: Config, run: seq<Step>, changes: seq<Step>) {
    Possible(c, Initial(c), run) && Changes(run) == changes
  }

  /** An in-scope key whose object ends up not decoding, and which had a version with the tuple. */
  predicate LosesVersion(c: Config, changes: seq<Step>, n: nat, l: Labels) {
    GivesTuple(c, changes, n, l) && FinalObject(changes, changes[n].key) == Some(Malformed)
  }

  /** Exactly which changes to the cluster leave the owners right on every run: those after which
      no in-scope object that does not decode had an earlier version with tuples. */
  lemma OwnersRightExactly(c: Config, changes: seq<Step>)
    requires c.workers >= 1 && AllChanges(changes)
    ensures (forall run | HasChanges(c, run, changes) :: EndsOwned(c, run))
       <==> forall n: nat, l :: !LosesVersion(c, changes, n, l)
  {
    if forall n: nat, l :: !LosesVersion(c, changes, n, l) {
      forall run | HasChanges(c, run, changes)
        ensures EndsOwned(c, run)
      {
        NoVersionLost(c, run, changes);
      }
    }
    if n: nat, l :| LosesVersion(c, changes, n, l) {
      var run, s := KeepsOldTuples(c, changes, n, l);
      OwnersExactly(c, run);
      CacheFollows(c, Initial(c), run);
      assert HasChanges(c, run, changes) && !EndsOwned(c, run);
    }
  }

  lemma WasLost(c: Config, run: seq<Step>, key: Key, l: Labels) returns (n: nat)
    requires Possible(c, Initial(c), run) && InScope(c.allow, key)
    requires Lookup(After(c, Initial(c), run).cache, key) == Some(Malformed)
    requires l in Owned(After(c, Initial(c), run).ops, key)
    ensures LosesVersion(c, Changes(run), n, l)
  {
    var ops := After(c, Initial(c), run).ops;
    CacheFollows(c, Initial(c), run);
    LastOpMember(ops, key);
    n := WrittenWasGiven(c, run, LastOp(ops, key).value, l);
  }

  lemma NoVersionLost(c: Config, run: seq<Step>, changes: seq<Step>)
    requires HasChanges(c, run, changes) && forall n: nat, l :: !LosesVersion(c, changes, n, l)
    ensures EndsOwned(c, run)
  {
    var s := After(c, Initial(c), run);
    if !s.q.shuttingDown && QueueQuiet(s) {
      CacheFollows(c, Initial(c), run);
      OwnersExactly(c, run);
      forall key | key in s.cache && s.cache[key].Malformed?
        ensures Owned(s.ops, key) == {}
      {
        KeySetsConverge(c, run, key);
        if l :| l in Owned(s.ops, key) {
          var n := WasLost(c, run, key, l);
          assert false;
        }
      }
    }
  }
}
