/** Gauge values with one worker. A gauge shows whatever was written to its tuple last, by
    whichever key, so keys being fresh one by one is not enough: a worker still holding an old
    snapshot must not write after a fresh one. One worker rules that out, whatever is shared. */
module Values {
  import opened Base
  import opened Controller
  import opened Enrich
  import opened Freshness
  import opened Ledger
  import opened Protocol
  import opened Queue

  /** A cached report of the key contributes the tuple. */
  predicate CachedWith(c: Config, s: State, key: Key, l: Labels) {
    key in s.cache && s.cache[key].Decoded? && l in TuplesOf(c, s.cache[key].rep)
  }

  /** What the tuple should show under the installed snapshots. */
  function Wanted(s: State, l: Labels): Series {
    SeriesFor(l, CurrentEpss(s), CurrentKev(s))
  }

  /** The worker will write to the tuple. */
  predicate WillWrite(c: Config, w: Worker, l: Labels) {
    (w.HasEpss? || w.HasBoth?) && l in TuplesOf(c, w.rep)
  }

  /** The worker holds a snapshot that has since been replaced. */
  predicate Outdated(s: State, w: Worker) {
    || (w.HasEpss? && w.epss != CurrentEpss(s))
    || (w.HasBoth? && (w.epss != CurrentEpss(s) || w.kev != CurrentKev(s)))
  }

  // ----- The invariants -----

  /** An outdated worker is about to write only to tuples whose other keys are all due. */
  ghost predicate OutdatedInv(c: Config, s: State) {
    forall i: nat, key, l | i < |s.workers| && Outdated(s, s.workers[i]) && WillWrite(c, s.workers[i], l)
                            && InScope(c.allow, key) && CachedWith(c, s, key, l) :: Due(s, key, true)
  }

  /** Some worker holds the key and has not yet written for it. */
  ghost predicate InHand(s: State, key: Key) {
    exists i: nat :: Holds(s, i, key) && !s.workers[i].Finished?
  }

  ghost predicate Shown(c: Config, s: State, key: Key, l: Labels) {
    Due(s, key, true) || InHand(s, key) || LastWrite(s.ops, l) == Some(Wanted(s, l))
  }

  /** A tuple of a cached report shows what it should, unless its key is still to be written. */
  ghost predicate ShownInv(c: Config, s: State) {
    forall key, l | InScope(c.allow, key) && CachedWith(c, s, key, l) :: Shown(c, s, key, l)
  }

  ghost predicate ValueInv(c: Config, s: State) {
    && Inv(c, s, true)
    && |s.workers| == c.workers <= 1
    && (!s.q.shuttingDown ==> OutdatedInv(c, s) && ShownInv(c, s))
  }

  /** A key that is due stays due until a worker takes it, lying markers or not. */
  lemma DueStays(c: Config, s: State, step: Step, key: Key)
    requires Enabled(c, s, step) && !Next(c, s, step).q.shuttingDown
    requires InScope(c.allow, key) && key in Next(c, s, step).cache
    requires Due(s, key, true)
    ensures Due(Next(c, s, step), key, true) || (step.Get? && s.q.queue[0] == key)
  {
    match step
    case Deliver => assert key in s.pending <==> key == s.pending[0] || key in s.pending[1..];
    case EpssStep(e) =>
      if key in s.cache && SweepDue(s.epss, key) {
        SweepStays(s.epss, e, s.cache.Keys, key);
      }
    case KevStep(k) =>
      if key in s.cache && SweepDue(s.kev, key) {
        SweepStays(s.kev, k, s.cache.Keys, key);
      }
    case _ =>
  }

  /** A snapshot is replaced only when every cached key is due. Of the marker it asks only that,
      if it counts as unchanged at this very step, so does the data. */
  lemma SwapMakesDue(c: Config, s: State, step: Step, key: Key)
    requires Enabled(c, s, step) && Honest(s, step)
    requires key in Next(c, s, step).cache
    requires CurrentEpss(Next(c, s, step)) != CurrentEpss(s) || CurrentKev(Next(c, s, step)) != CurrentKev(s)
    ensures Due(Next(c, s, step), key, true)
  {
    match step
    case EpssStep(e) => SwapSweeps(s.epss, e, s.cache.Keys, key);
    case KevStep(k) => SwapSweeps(s.kev, k, s.cache.Keys, key);
    case _ =>
  }

  /** A new object for the key makes the key due. */
  lemma CacheMakesDue(c: Config, s: State, step: Step, key: Key, l: Labels)
    requires Enabled(c, s, step) && CachedWith(c, Next(c, s, step), key, l)
    ensures CachedWith(c, s, key, l) || Due(Next(c, s, step), key, true)
  {
  }

  /** A worker is outdated only by a snapshot swap, or because it was before. */
  lemma WasOutdated(c: Config, s: State, step: Step, i: nat, l: Labels)
    requires |s.workers| <= 1 && Enabled(c, s, step) && i < |s.workers|
    requires var s' := Next(c, s, step);
             && Outdated(s', s'.workers[i]) && WillWrite(c, s'.workers[i], l)
             && CurrentEpss(s') == CurrentEpss(s) && CurrentKev(s') == CurrentKev(s)
    ensures Outdated(s, s.workers[i]) && WillWrite(c, s.workers[i], l) && !step.Get?
  {
    assert i == 0 && |s.workers| == 1;
  }

  lemma OutdatedKeeps(c: Config, s: State, step: Step, i: nat, key: Key, l: Labels)
    requires ValueInv(c, s) && Enabled(c, s, step) && Honest(s, step) && !Next(c, s, step).q.shuttingDown
    requires i < |s.workers|
    requires var s' := Next(c, s, step);
             && Outdated(s', s'.workers[i]) && WillWrite(c, s'.workers[i], l)
             && InScope(c.allow, key) && CachedWith(c, s', key, l)
    ensures Due(Next(c, s, step), key, true)
  {
    var s' := Next(c, s, step);
    CacheMakesDue(c, s, step, key, l);
    if CachedWith(c, s, key, l) {
      if CurrentEpss(s') != CurrentEpss(s) || CurrentKev(s') != CurrentKev(s) {
        SwapMakesDue(c, s, step, key);
      } else {
        WasOutdated(c, s, step, i, l);
        DueStays(c, s, step, key);
      }
    }
  }

  /** What a commit leaves in a tuple: the worker's own series when it writes to it. */
  lemma CommitWrite(c: Config, s: State, w: nat, l: Labels)
    requires Enabled(c, s, Commit(w))
    ensures var worker := s.workers[w];
            LastWrite(Next(c, s, Commit(w)).ops, l)
              == if worker.HasBoth? && l in TuplesOf(c, worker.rep) then Some(SeriesFor(l, worker.epss, worker.kev))
                 else LastWrite(s.ops, l)
  {
    var worker := s.workers[w];
    var ops := CommitOps(c, worker);
    if ops == [] {
      assert s.ops + ops == s.ops;
    } else {
      assert ops == [ops[0]];
      AppendWrite(s.ops, ops[0], l);
      if worker.HasBoth? {
        ContributionTuples(c, worker.rep, worker.epss, worker.kev);
        LastInFound(ops[0].series, l);
      }
    }
  }

  lemma ShownAfterCommit(c: Config, s: State, w: nat, key: Key, l: Labels)
    requires ValueInv(c, s) && Enabled(c, s, Commit(w)) && !s.q.shuttingDown
    requires InScope(c.allow, key) && CachedWith(c, s, key, l)
    ensures Shown(c, Next(c, s, Commit(w)), key, l)
  {
    var s' := Next(c, s, Commit(w));
    var worker := s.workers[w];
    assert Shown(c, s, key, l) && Fine(c, s, key, true);
    SameKeyKeeps(s, s', w, s'.workers[w]);
    CommitWrite(c, s, w, l);
    if !Due(s, key, true) {
      if key == worker.key {
        assert Holds(s, w, key);
        assert ReadsStand(c, s, worker, true);
      } else {
        assert !InHand(s, key);
        if worker.HasBoth? && l in TuplesOf(c, worker.rep) {
          assert WillWrite(c, worker, l);
          assert !Outdated(s, worker);
        }
      }
    }
  }

  lemma ShownKeeps(c: Config, s: State, step: Step, key: Key, l: Labels)
    requires ValueInv(c, s) && Enabled(c, s, step) && Honest(s, step) && !Next(c, s, step).q.shuttingDown
    requires InScope(c.allow, key) && CachedWith(c, Next(c, s, step), key, l)
    ensures Shown(c, Next(c, s, step), key, l)
  {
    var s' := Next(c, s, step);
    CacheMakesDue(c, s, step, key, l);
    if step.Commit? {
      ShownAfterCommit(c, s, step.w, key, l);
    } else if CachedWith(c, s, key, l) {
      assert Shown(c, s, key, l);
      if Due(s, key, true) {
        DueStays(c, s, step, key);
        if step.Get? {
          GetKeeps(c, s, step.w);
          assert s.q.queue[0] == key ==> Holds(s', step.w, key);
        }
      } else if InHand(s, key) {
        InHandStays(c, s, step, key);
      } else if CurrentEpss(s') != CurrentEpss(s) || CurrentKev(s') != CurrentKev(s) {
        SwapMakesDue(c, s, step, key);
      }
    }
  }

  lemma InHandStays(c: Config, s: State, step: Step, key: Key)
    requires Inv(c, s, true) && Enabled(c, s, step) && !step.Commit? && !Next(c, s, step).q.shuttingDown
    requires InHand(s, key)
    ensures InHand(Next(c, s, step), key) || Due(Next(c, s, step), key, true)
  {
    var s' := Next(c, s, step);
    var i: nat :| Holds(s, i, key) && !s.workers[i].Finished?;
    if !(step.Retry? && step.w == i) {
      assert Holds(s', i, key) && !s'.workers[i].Finished?;
    }
  }

  lemma ValueKeeps(c: Config, s: State, step: Step)
    requires ValueInv(c, s) && Enabled(c, s, step) && Honest(s, step)
    ensures ValueInv(c, Next(c, s, step))
  {
    var s' := Next(c, s, step);
    StepKeeps(c, s, step, true);
    if !s'.q.shuttingDown {
      forall i: nat, key, l | i < |s'.workers| && Outdated(s', s'.workers[i]) && WillWrite(c, s'.workers[i], l)
                              && InScope(c.allow, key) && CachedWith(c, s', key, l)
        ensures Due(s', key, true)
      {
        OutdatedKeeps(c, s, step, i, key, l);
      }
      forall key, l | InScope(c.allow, key) && CachedWith(c, s', key, l)
        ensures Shown(c, s', key, l)
      {
        ShownKeeps(c, s, step, key, l);
      }
    }
  }

  lemma InitialValue(c: Config)
    requires c.workers <= 1
    ensures ValueInv(c, Initial(c))
  {
    InitialInv(c, true);
  }

  lemma {:induction false} RunKeepsValues(c: Config, s: State, steps: seq<Step>)
    requires ValueInv(c, s) && Possible(c, s, steps) && HonestRun(c, s, steps)
    ensures ValueInv(c, After(c, s, steps))
    decreases |steps|
  {
    if steps != [] {
      ValueKeeps(c, s, steps[0]);
      RunKeepsValues(c, Next(c, s, steps[0]), steps[1..]);
    }
  }

  // ----- Since the last new marker -----

  /** What the value invariant needs of a state before a new marker mends the rest. */
  ghost predicate WeakInv(c: Config, s: State) {
    Inv(c, s, false) && |s.workers| == c.workers <= 1
  }

  lemma MendRestoresValues(c: Config, s: State, step: Step)
    requires WeakInv(c, s) && Enabled(c, s, step) && Mends(s, step)
    ensures ValueInv(c, Next(c, s, step))
  {
    MendRestores(c, s, step);
  }

  lemma {:induction false} MendedKeepsValues(c: Config, s: State, steps: seq<Step>)
    requires WeakInv(c, s) && Possible(c, s, steps) && MendedRun(c, s, steps)
    ensures ValueInv(c, After(c, s, steps))
    decreases |steps|
  {
    var s' := Next(c, s, steps[0]);
    if Mends(s, steps[0]) && HonestRun(c, s', steps[1..]) {
      MendRestoresValues(c, s, steps[0]);
      RunKeepsValues(c, s', steps[1..]);
    } else {
      StepKeeps(c, s, steps[0], false);
      MendedKeepsValues(c, s', steps[1..]);
    }
  }

  lemma LatelyKeepsValues(c: Config, steps: seq<Step>)
    requires c.workers <= 1 && Possible(c, Initial(c), steps) && HonestLately(c, Initial(c), steps)
    ensures ValueInv(c, After(c, Initial(c), steps))
  {
    InitialValue(c);
    InitialInv(c, false);
    if HonestRun(c, Initial(c), steps) {
      RunKeepsValues(c, Initial(c), steps);
    } else {
      MendedKeepsValues(c, Initial(c), steps);
    }
  }
}
