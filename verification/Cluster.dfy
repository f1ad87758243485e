/** The cluster's side of a run: the changes to the cache, apart from everything else that
    happens, and what they say about who contributes a tuple in the end and who once did. */
module Cluster {
  import opened Base
  import opened Controller
  import opened Enrich
  import opened Freshness
  import opened Ledger
  import opened Protocol
  import opened Queue

  // ----- The changes to the cache -----

  predicate IsChange(step: Step) {
    step.CacheSet? || step.CacheRemove?
  }

  /** The changes to the cache among the steps, in order. */
  function Changes(steps: seq<Step>): seq<Step> {
    if steps == [] then []
    else if IsChange(steps[0]) then [steps[0]] + Changes(steps[1..])
    else Changes(steps[1..])
  }

  predicate AllChanges(steps: seq<Step>) {
    forall step | step in steps :: IsChange(step)
  }

  predicate NoChanges(steps: seq<Step>) {
    forall i | 0 <= i < |steps| :: !IsChange(steps[i])
  }

  /** The cache after the steps. */
  function CacheAfter(cache: map<Key, Object>, steps: seq<Step>): map<Key, Object>
    decreases |steps|
  {
    if steps == [] then cache
    else match steps[0]
      case CacheSet(key, obj) => CacheAfter(cache[key := obj], steps[1..])
      case CacheRemove(key) => CacheAfter(cache - {key}, steps[1..])
      case _ => CacheAfter(cache, steps[1..])
  }

  lemma {:induction false} ChangesCompose(a: seq<Step>, b: seq<Step>)
    ensures Changes(a + b) == Changes(a) + Changes(b)
  {
    if a == [] {
      assert a + b == b;
      assert Changes(a) == [];
    } else {
      assert (a + b)[0] == a[0] && (a + b)[1..] == a[1..] + b;
      ChangesCompose(a[1..], b);
      if IsChange(a[0]) {
        assert Changes(a + b) == [a[0]] + (Changes(a[1..]) + Changes(b));
      }
    }
  }

  lemma {:induction false} ChangesOfChanges(steps: seq<Step>)
    ensures AllChanges(steps) ==> Changes(steps) == steps
    ensures forall step :: step in Changes(steps) <==> step in steps && IsChange(step)
  {
    if steps != [] {
      ChangesOfChanges(steps[1..]);
      assert steps == [steps[0]] + steps[1..];
    }
  }

  lemma {:induction false} NoneAmong(steps: seq<Step>)
    requires NoChanges(steps)
    ensures Changes(steps) == []
  {
    if steps != [] {
      NoneAmong(steps[1..]);
    }
  }

  /** The cache is what the changes made of it, whatever else happened in between. */
  lemma {:induction false} CacheFollows(c: Config, s: State, steps: seq<Step>)
    requires Possible(c, s, steps)
    ensures After(c, s, steps).cache == CacheAfter(s.cache, Changes(steps))
    decreases |steps|
  {
    if steps != [] {
      CacheFollows(c, Next(c, s, steps[0]), steps[1..]);
      if IsChange(steps[0]) {
        assert Changes(steps)[1..] == Changes(steps[1..]);
      }
    }
  }

  // ----- Who contributes a tuple -----

  predicate Carries(c: Config, item: Option<Object>, l: Labels) {
    item.Some? && item.value.Decoded? && l in TuplesOf(c, item.value.rep)
  }

  function FinalObject(changes: seq<Step>, key: Key): Option<Object> {
    Lookup(CacheAfter(map[], changes), key)
  }

  /** The n-th change gives an in-scope key a version with the tuple. */
  predicate GivesTuple(c: Config, changes: seq<Step>, n: nat, l: Labels) {
    && n < |changes| && changes[n].CacheSet? && InScope(c.allow, changes[n].key)
    && Carries(c, Some(changes[n].obj), l)
  }

  /** An in-scope key ends up with the tuple. */
  predicate EndsWith(c: Config, changes: seq<Step>, key: Key, l: Labels) {
    InScope(c.allow, key) && Carries(c, FinalObject(changes, key), l)
  }

  /** A key that once had the tuple ends up without it, while another key ends up with it. */
  predicate DropsShared(c: Config, changes: seq<Step>, n: nat, b: Key, l: Labels) {
    && GivesTuple(c, changes, n, l) && !EndsWith(c, changes, changes[n].key, l)
    && b != changes[n].key && EndsWith(c, changes, b, l)
  }

  /** No key gives up a tuple that another ends up with. */
  ghost predicate NoneDropped(c: Config, changes: seq<Step>) {
    forall n: nat, b, l :: !DropsShared(c, changes, n, b, l)
  }

  /** A key that once had the tuple ends up with an object that does not decode, and no key ends
      up with the tuple. */
  ghost predicate Orphans(c: Config, changes: seq<Step>, n: nat, l: Labels) {
    && GivesTuple(c, changes, n, l) && FinalObject(changes, changes[n].key) == Some(Malformed)
    && forall b :: !EndsWith(c, changes, b, l)
  }

  ghost predicate NoneOrphaned(c: Config, changes: seq<Step>) {
    forall n: nat, l :: !Orphans(c, changes, n, l)
  }

  // ----- A key only ever writes tuples of versions it has had -----

  /** No version of the key set by the steps has the tuple. */
  predicate NeverGiven(c: Config, steps: seq<Step>, key: Key, l: Labels) {
    forall step | step in steps && step.CacheSet? && step.key == key :: !Carries(c, Some(step.obj), l)
  }

  /** Neither the cache nor a worker has the tuple for the key, and the key never wrote it. */
  ghost predicate TuplelessInv(c: Config, s: State, key: Key, l: Labels) {
    && !Carries(c, Lookup(s.cache, key), l)
    && (forall i: nat | Holds(s, i, key) && s.workers[i].Read? :: !Carries(c, s.workers[i].item, l))
    && (forall i: nat | Holds(s, i, key) && (s.workers[i].HasEpss? || s.workers[i].HasBoth?) ::
          l !in TuplesOf(c, s.workers[i].rep))
    && (forall op | op in s.ops && op.uid == key :: l !in Contributed(op))
  }

  lemma CommitTupleless(c: Config, s: State, w: nat, key: Key, l: Labels)
    requires TuplelessInv(c, s, key, l) && Enabled(c, s, Commit(w))
    ensures forall op | op in Next(c, s, Commit(w)).ops && op.uid == key :: l !in Contributed(op)
  {
    var worker := s.workers[w];
    if worker.HasBoth? {
      ContributionTuples(c, worker.rep, worker.epss, worker.kev);
    }
    forall op | op in Next(c, s, Commit(w)).ops && op.uid == key
      ensures l !in Contributed(op)
    {
      if op !in s.ops {
        assert op in CommitOps(c, worker);
        assert Holds(s, w, key);
      }
    }
  }

  lemma TuplelessKeeps(c: Config, s: State, step: Step, key: Key, l: Labels)
    requires TuplelessInv(c, s, key, l) && Enabled(c, s, step) && NeverGiven(c, [step], key, l)
    ensures TuplelessInv(c, Next(c, s, step), key, l)
  {
    var s' := Next(c, s, step);
    assert step in [step];
    forall i: nat
      ensures Holds(s', i, key) ==> Holds(s, i, key) || (step.Get? && step.w == i)
    {
    }
    if step.Commit? {
      CommitTupleless(c, s, step.w, key, l);
    }
  }

  lemma {:induction false} TuplelessRun(c: Config, s: State, steps: seq<Step>, key: Key, l: Labels)
    requires TuplelessInv(c, s, key, l) && Possible(c, s, steps) && NeverGiven(c, steps, key, l)
    ensures TuplelessInv(c, After(c, s, steps), key, l)
    decreases |steps|
  {
    if steps != [] {
      assert steps == [steps[0]] + steps[1..];
      TuplelessKeeps(c, s, steps[0], key, l);
      TuplelessRun(c, Next(c, s, steps[0]), steps[1..], key, l);
    }
  }

  /** A tuple a key has ever written was in some version the cluster gave it. */
  lemma WrittenWasGiven(c: Config, run: seq<Step>, op: Op, l: Labels) returns (n: nat)
    requires Possible(c, Initial(c), run) && op in After(c, Initial(c), run).ops && l in Contributed(op)
    ensures var changes := Changes(run);
            n < |changes| && changes[n].CacheSet? && changes[n].key == op.uid && Carries(c, Some(changes[n].obj), l)
  {
    if NeverGiven(c, run, op.uid, l) {
      TuplelessRun(c, Initial(c), run, op.uid, l);
      assert false;
    }
    var step :| step in run && step.CacheSet? && step.key == op.uid && Carries(c, Some(step.obj), l);
    ChangesOfChanges(run);
    assert step in Changes(run);
    n :| n < |Changes(run)| && Changes(run)[n] == step;
  }
}
