/** Termination: without new events the exporter's own steps run out, and when they have run
    out nothing is left to do. */
module Termination {
  import opened Cluster
  import opened Controller
  import opened Convergence
  import opened Feeds
  import opened Freshness
  import opened Protocol
  import opened Queue
  import Metrics

  /** The exporter's own steps, as opposed to new events and failures from outside. */
  predicate Internal(step: Step) {
    match step
    case CacheSet(_, _) => false
    case CacheRemove(_) => false
    case IndexerError(_) => false
    case SyncDone => false
    case SyncFails => false
    case Stop => false
    case EpssStep(e) => !e.Loads? && !e.LoadFails?
    case KevStep(k) => !k.Loads? && !k.LoadFails?
    case _ => true
  }

  // ----- The measure -----

  /** Steps a worker can still take with its key, a retry weighing in the key it re-adds. */
  function Rank(w: Worker): nat {
    match w
    case Exited => 0
    case Idle => 1
    case Finished(_) => 2
    case HasBoth(_, _, _, _) => 3
    case HasEpss(_, _, _) => 4
    case Read(_, _) => 5
    case Got(_) => 6
    case Failed(_) => 10
  }

  function Ranks(ws: seq<Worker>): nat {
    if ws == [] then 0 else Rank(ws[0]) + Ranks(ws[1..])
  }

  /** Steps a refresh can still cause, with n keys cached. */
  function FeedWork<S>(f: Feed<S>, n: nat): nat {
    match f.phase
    case Waiting => 0
    case Fetched(_) => 7 * n + 5
    case Stored(_) => 7 * n + 4
    case Flagged(_) => 7 * n + 3
    case Listing => 7 * n + 2
    case Sweeping(keys) => 7 * |keys| + 1
  }

  function Measure(s: State): nat {
    6 * |s.q.dirty| + 7 * |s.q.delayed| + 7 * |s.pending| + Ranks(s.workers)
    + FeedWork(s.epss, |s.cache|) + FeedWork(s.kev, |s.cache|)
  }

  lemma {:induction false} RanksUpdate(ws: seq<Worker>, i: nat, w: Worker)
    requires i < |ws|
    ensures Ranks(ws[i := w]) == Ranks(ws) - Rank(ws[i]) + Rank(w)
  {
    if i == 0 {
      assert ws[i := w][1..] == ws[1..];
    } else {
      assert ws[i := w][1..] == ws[1..][i - 1 := w];
      RanksUpdate(ws[1..], i - 1, w);
    }
  }

  lemma FeedWorkDrops<S>(f: Feed<S>, step: FeedStep<S>, cache: map<Key, Object>)
    requires FeedEnabled(f, step) && !step.Loads? && !step.LoadFails?
    ensures FeedWork(FeedNext(f, step, cache.Keys), |cache|) + (if step.AddKey? then 7 else 1) <= FeedWork(f, |cache|)
  {
    if step.List? {
      assert |cache.Keys| == |cache|;
    }
  }

  lemma EnqueuedGrows(c: Config, q: QueueState, key: Key)
    ensures |Enqueued(c.allow, q, key).dirty| <= |q.dirty| + 1
    ensures Enqueued(c.allow, q, key).delayed == q.delayed
  {
  }

  /** A worker's step is accounted for by its own rank and the keys it takes or re-adds. */
  lemma WorkerDrops(s: State, s': State, w: nat, worker: Worker)
    requires At(s, w) && s'.workers == s.workers[w := worker]
    requires s'.pending == s.pending && s'.cache == s.cache && s'.epss == s.epss && s'.kev == s.kev
    requires 6 * |s'.q.dirty| + 7 * |s'.q.delayed| + Rank(worker)
           < 6 * |s.q.dirty| + 7 * |s.q.delayed| + Rank(s.workers[w])
    ensures Measure(s') < Measure(s)
  {
    RanksUpdate(s.workers, w, worker);
  }

  lemma GetDrops(c: Config, s: State, w: nat)
    requires WorkersInv(s) && Enabled(c, s, Get(w))
    ensures Measure(Next(c, s, Get(w))) < Measure(s)
  {
    var s' := Next(c, s, Get(w));
    GetKeeps(c, s, w);
    assert |s'.q.dirty| == |s.q.dirty| - 1;
    WorkerDrops(s, s', w, s'.workers[w]);
  }

  lemma RetryDrops(c: Config, s: State, w: nat)
    requires Enabled(c, s, Retry(w))
    ensures Measure(Next(c, s, Retry(w))) < Measure(s)
  {
    var s' := Next(c, s, Retry(w));
    assert |s'.q.delayed| <= |s.q.delayed| + 1;
    WorkerDrops(s, s', w, s'.workers[w]);
  }

  lemma LoadsDrop(c: Config, s: State, step: Step)
    requires Enabled(c, s, step) && (step.ReadCache? || step.LoadEpss? || step.LoadKev?)
    ensures Measure(Next(c, s, step)) < Measure(s)
  {
    var s' := Next(c, s, step);
    WorkerDrops(s, s', step.w, s'.workers[step.w]);
  }

  lemma EndsDrop(c: Config, s: State, step: Step)
    requires Enabled(c, s, step) && (step.Commit? || step.Done? || step.Exit?)
    ensures Measure(Next(c, s, step)) < Measure(s)
  {
    var s' := Next(c, s, step);
    WorkerDrops(s, s', step.w, s'.workers[step.w]);
  }

  lemma WorkerStepDrops(c: Config, s: State, step: Step)
    requires WorkersInv(s) && Enabled(c, s, step) && Internal(step)
    requires !step.Deliver? && !step.Expire? && !step.EpssStep? && !step.KevStep?
    ensures Measure(Next(c, s, step)) < Measure(s)
  {
    match step
    case Get(w) => GetDrops(c, s, w);
    case Retry(w) => RetryDrops(c, s, w);
    case ReadCache(_) => LoadsDrop(c, s, step);
    case LoadEpss(_) => LoadsDrop(c, s, step);
    case LoadKev(_) => LoadsDrop(c, s, step);
    case Commit(_) => EndsDrop(c, s, step);
    case Done(_) => EndsDrop(c, s, step);
    case Exit(_) => EndsDrop(c, s, step);
  }

  lemma QueueStepDrops(c: Config, s: State, step: Step)
    requires WorkersInv(s) && Enabled(c, s, step) && (step.Deliver? || step.Expire?)
    ensures Measure(Next(c, s, step)) < Measure(s)
  {
    if step.Deliver? {
      EnqueuedGrows(c, s.q, s.pending[0]);
    } else {
      assert |s.q.delayed - {step.key}| == |s.q.delayed| - 1;
    }
  }

  lemma FeedStepDrops(c: Config, s: State, step: Step)
    requires Enabled(c, s, step) && Internal(step) && (step.EpssStep? || step.KevStep?)
    ensures Measure(Next(c, s, step)) < Measure(s)
  {
    match step
    case EpssStep(e) =>
      FeedWorkDrops(s.epss, e, s.cache);
      if e.AddKey? {
        EnqueuedGrows(c, s.q, e.key);
      }
    case KevStep(k) =>
      FeedWorkDrops(s.kev, k, s.cache);
      if k.AddKey? {
        EnqueuedGrows(c, s.q, k.key);
      }
  }

  /** Every one of the exporter's own steps leaves strictly less to do. */
  lemma InternalDecreases(c: Config, s: State, step: Step)
    requires WorkersInv(s) && Enabled(c, s, step) && Internal(step)
    ensures Measure(Next(c, s, step)) < Measure(s)
  {
    if step.Deliver? || step.Expire? {
      QueueStepDrops(c, s, step);
    } else if step.EpssStep? || step.KevStep? {
      FeedStepDrops(c, s, step);
    } else {
      WorkerStepDrops(c, s, step);
    }
  }

  predicate AllInternal(steps: seq<Step>) {
    forall i | 0 <= i < |steps| :: Internal(steps[i])
  }

  lemma {:induction false} InternalRunBounded(c: Config, s: State, steps: seq<Step>)
    requires WorkersInv(s) && Possible(c, s, steps) && AllInternal(steps)
    ensures |steps| + Measure(After(c, s, steps)) <= Measure(s)
    decreases |steps|
  {
    if steps != [] {
      InternalDecreases(c, s, steps[0]);
      WorkersStep(c, s, steps[0]);
      InternalRunBounded(c, Next(c, s, steps[0]), steps[1..]);
    }
  }

  // ----- Runs with new events -----

  /** What a step from outside can add to the work: a changed object its notification and a place
      in each sweep, a load a whole refresh, a failed read a retry. */
  function Cost(s: State, step: Step): nat {
    match step
    case CacheSet(_, _) => 21
    case CacheRemove(_) => 7
    case IndexerError(_) => 4
    case EpssStep(e) => if e.Loads? then 7 * |s.cache| + 5 else 0
    case KevStep(k) => if k.Loads? then 7 * |s.cache| + 5 else 0
    case _ => 0
  }

  lemma FeedWorkGrows<S>(f: Feed<S>, n: nat, m: nat)
    ensures n <= m ==> FeedWork(f, n) <= FeedWork(f, m) <= FeedWork(f, n) + 7 * (m - n)
  {
  }

  lemma ChangeCosts(c: Config, s: State, step: Step)
    requires Enabled(c, s, step) && (step.CacheSet? || step.CacheRemove?)
    ensures Measure(Next(c, s, step)) <= Measure(s) + Cost(s, step)
  {
    var before, after := s.cache, Next(c, s, step).cache;
    if step.CacheSet? {
      assert after.Keys == before.Keys + {step.key};
      assert |before.Keys| <= |after.Keys| <= |before.Keys| + 1;
      FeedWorkGrows(s.epss, |before|, |after|);
      FeedWorkGrows(s.kev, |before|, |after|);
    } else {
      assert after.Keys == before.Keys - {step.key};
      assert |after.Keys| <= |before.Keys|;
      FeedWorkGrows(s.epss, |after|, |before|);
      FeedWorkGrows(s.kev, |after|, |before|);
    }
  }

  lemma OutsideCosts(c: Config, s: State, step: Step)
    requires Enabled(c, s, step) && !Internal(step)
    ensures Measure(Next(c, s, step)) <= Measure(s) + Cost(s, step)
  {
    match step
    case CacheSet(_, _) => ChangeCosts(c, s, step);
    case CacheRemove(_) => ChangeCosts(c, s, step);
    case IndexerError(w) => RanksUpdate(s.workers, w, Failed(s.workers[w].key));
    case _ =>
  }

  function OwnSteps(steps: seq<Step>): nat {
    if steps == [] then 0 else (if Internal(steps[0]) then 1 else 0) + OwnSteps(steps[1..])
  }

  function Costs(c: Config, s: State, steps: seq<Step>): nat
    requires Possible(c, s, steps)
    decreases |steps|
  {
    if steps == [] then 0 else Cost(s, steps[0]) + Costs(c, Next(c, s, steps[0]), steps[1..])
  }

  /** Over any run at all, new events included, the exporter takes no more steps of its own than
      it had work for at the start and was given since. */
  lemma {:induction false} RunBounded(c: Config, s: State, steps: seq<Step>)
    requires WorkersInv(s) && Possible(c, s, steps)
    ensures OwnSteps(steps) + Measure(After(c, s, steps)) <= Measure(s) + Costs(c, s, steps)
    decreases |steps|
  {
    if steps != [] {
      if Internal(steps[0]) {
        InternalDecreases(c, s, steps[0]);
      } else {
        OutsideCosts(c, s, steps[0]);
      }
      WorkersStep(c, s, steps[0]);
      RunBounded(c, Next(c, s, steps[0]), steps[1..]);
    }
  }

  // ----- Work in the queue's own terms -----

  /** Taking a key and giving one back each use up one unit of the queue's work; no other step
      of a worker changes it, and after shut-down no step of any kind adds to it. */
  lemma QueueWork(c: Config, s: State, step: Step)
    requires WorkersInv(s) && Enabled(c, s, step)
    ensures var before, after := Work(s.q), Work(Next(c, s, step).q);
            && (step.Get? || step.Done? ==> after == before - 1)
            && (step.ReadCache? || step.LoadEpss? || step.LoadKev? || step.Commit? || step.Retry? || step.Exit? ==>
                 after == before)
            && (s.q.shuttingDown ==> after <= before && Next(c, s, step).q.shuttingDown)
  {
    match step
    case Get(w) => TakeWorks(s.q);
    case Done(w) =>
      DoneKeeps(c, s, w);
      DoneWorks(s.q, s.workers[w].key);
    case _ =>
  }

  // ----- No deadlock -----

  /** No step of the exporter's own is possible. */
  ghost predicate Stuck(c: Config, s: State) {
    forall step | Internal(step) :: !Enabled(c, s, step)
  }

  /** Workers leave only after shut-down, and the last one leaves nothing behind. */
  ghost predicate ExitInv(s: State) {
    && (forall i | 0 <= i < |s.workers| && s.workers[i].Exited? :: s.q.shuttingDown)
    && ((forall i | 0 <= i < |s.workers| :: s.workers[i].Exited?) && s.workers != [] ==>
         s.q.dirty == {} && s.q.processing == {})
  }

  lemma ExitKeeps(c: Config, s: State, step: Step)
    requires WorkersInv(s) && ExitInv(s) && Enabled(c, s, step)
    ensures ExitInv(Next(c, s, step))
  {
    var s' := Next(c, s, step);
    WorkersStep(c, s, step);
    if (forall i | 0 <= i < |s'.workers| :: s'.workers[i].Exited?) && s'.workers != [] {
      forall i: nat, k
        ensures !Holds(s', i, k)
      {
        if i < |s'.workers| {
          assert s'.workers[i].Exited?;
        }
      }
      assert forall k :: k !in s'.q.processing;
      if step.Exit? {
        forall k
          ensures k !in s'.q.dirty
        {
          assert k in s'.q.queue <==> k in s'.q.dirty && k !in s'.q.processing;
        }
      } else {
        forall i | 0 <= i < |s.workers|
          ensures s.workers[i].Exited?
        {
          assert s'.workers[i].Exited?;
        }
        assert s.workers[0].Exited?;
      }
    }
  }

  lemma WorkerNotStuck(c: Config, s: State, w: nat)
    requires At(s, w) && Busy(s.workers[w])
    ensures !Stuck(c, s)
  {
    match s.workers[w]
    case Got(_) => assert Enabled(c, s, ReadCache(w));
    case Failed(_) => assert Enabled(c, s, Retry(w));
    case Read(_, item) => assert Enabled(c, s, if item.Some? && item.value.Decoded? then LoadEpss(w) else Commit(w));
    case HasEpss(_, _, _) => assert Enabled(c, s, LoadKev(w));
    case HasBoth(_, _, _, _) => assert Enabled(c, s, Commit(w));
    case Finished(_) => assert Enabled(c, s, Done(w));
  }

  /** A refresher in the middle of a cycle has a next step. */
  lemma FeedTurn<S>(f: Feed<S>) returns (step: FeedStep<S>)
    requires !f.phase.Waiting?
    ensures FeedEnabled(f, step) && !step.Loads? && !step.LoadFails?
  {
    match f.phase
    case Fetched(_) => step := Store;
    case Stored(_) => step := SetLoaded;
    case Flagged(_) => step := Decide;
    case Listing => step := List;
    case Sweeping(keys) =>
      if keys == {} {
        step := EndSweep;
      } else {
        var key :| key in keys;
        step := AddKey(key);
      }
  }

  /** With its cache synced and at least one worker, the exporter is stuck only when nothing is
      left to do: quiescent, the refreshers waiting, and after shut-down every worker gone. */
  lemma StuckMeansDone(c: Config, s: State)
    requires WorkersInv(s) && ExitInv(s) && s.sync.Synced? && s.workers != [] && Stuck(c, s)
    ensures Quiescent(s) && s.epss.phase.Waiting? && s.kev.phase.Waiting?
    ensures s.q.shuttingDown ==> forall i | 0 <= i < |s.workers| :: s.workers[i].Exited?
  {
    assert s.pending == [] by {
      assert !Enabled(c, s, Deliver);
    }
    assert s.q.delayed == {} by {
      forall k
        ensures k !in s.q.delayed
      {
        assert !Enabled(c, s, Expire(k));
      }
    }
    StuckWorkers(c, s);
    if !s.epss.phase.Waiting? {
      var step := FeedTurn(s.epss);
      assert Enabled(c, s, EpssStep(step));
    }
    if !s.kev.phase.Waiting? {
      var step := FeedTurn(s.kev);
      assert Enabled(c, s, KevStep(step));
    }
  }

  lemma StuckWorkers(c: Config, s: State)
    requires WorkersInv(s) && ExitInv(s) && s.sync.Synced? && s.workers != [] && Stuck(c, s)
    ensures s.q.processing == {} && s.q.dirty == {}
    ensures s.q.shuttingDown ==> forall i | 0 <= i < |s.workers| :: s.workers[i].Exited?
  {
    forall i: nat | At(s, i)
      ensures !Busy(s.workers[i])
    {
      if Busy(s.workers[i]) {
        WorkerNotStuck(c, s, i);
      }
    }
    assert forall i: nat, k :: !Holds(s, i, k);
    assert forall k :: k !in s.q.processing;
    if i: nat :| At(s, i) && s.workers[i].Idle? {
      assert !Enabled(c, s, Get(i)) && !Enabled(c, s, Exit(i));
      assert forall k :: k in s.q.dirty <==> k in s.q.queue;
    } else {
      assert forall i | 0 <= i < |s.workers| :: s.workers[i].Exited?;
    }
  }

  // ----- Whole runs -----

  lemma {:induction false} RunOrderly(c: Config, s: State, steps: seq<Step>)
    requires WorkersInv(s) && ExitInv(s) && |s.workers| == c.workers && Possible(c, s, steps)
    ensures var s' := After(c, s, steps); WorkersInv(s') && ExitInv(s') && |s'.workers| == c.workers
    decreases |steps|
  {
    if steps != [] {
      WorkersStep(c, s, steps[0]);
      ExitKeeps(c, s, steps[0]);
      RunOrderly(c, Next(c, s, steps[0]), steps[1..]);
    }
  }

  /** Runs compose. */
  lemma {:induction false} RunsCompose(c: Config, s: State, a: seq<Step>, b: seq<Step>)
    requires Possible(c, s, a) && Possible(c, After(c, s, a), b)
    ensures Possible(c, s, a + b) && After(c, s, a + b) == After(c, After(c, s, a), b)
    ensures HonestRun(c, s, a) && HonestRun(c, After(c, s, a), b) ==> HonestRun(c, s, a + b)
    ensures MendedRun(c, s, a) && HonestRun(c, After(c, s, a), b) ==> MendedRun(c, s, a + b)
    ensures MendedRun(c, After(c, s, a), b) ==> MendedRun(c, s, a + b)
    decreases |a|
  {
    if a == [] {
      assert a + b == b;
    } else {
      assert (a + b)[1..] == a[1..] + b;
      RunsCompose(c, Next(c, s, a[0]), a[1..], b);
    }
  }

  /** From any state with the worker invariant, the exporter's own steps can be taken until none
      is possible; with the cache synced, that is when nothing is left to do. */
  lemma {:induction false} CanSettle(c: Config, s: State) returns (more: seq<Step>)
    requires WorkersInv(s)
    ensures Possible(c, s, more) && AllInternal(more) && Stuck(c, After(c, s, more))
    decreases Measure(s)
  {
    if Stuck(c, s) {
      more := [];
    } else {
      var step :| Internal(step) && Enabled(c, s, step);
      InternalDecreases(c, s, step);
      WorkersStep(c, s, step);
      var rest := CanSettle(c, Next(c, s, step));
      more := [step] + rest;
      assert more[1..] == rest;
    }
  }

  /** Internal steps neither change the cluster, nor synchronize, nor shut down. */
  lemma {:induction false} InternalLeaves(c: Config, s: State, steps: seq<Step>)
    requires Possible(c, s, steps) && AllInternal(steps)
    ensures var s' := After(c, s, steps);
            s'.cache == s.cache && s'.sync == s.sync && s'.q.shuttingDown == s.q.shuttingDown
    decreases |steps|
  {
    if steps != [] {
      InternalLeaves(c, Next(c, s, steps[0]), steps[1..]);
    }
  }

  lemma InternalUnchanging(steps: seq<Step>)
    requires AllInternal(steps)
    ensures Changes(steps) == []
  {
    NoneAmong(steps);
  }

  /** Eventual convergence. Let the exporter run from any reachable state that is synced and open
      on its own steps until it can take no more, which takes at most Measure steps whatever
      their order. Then, if no marker has lied since the last new one, and if there is one worker
      or no report gave up a tuple that another ends up with, every gauge is the enrichment of
      all in-scope reports of that state's cache under the snapshots then installed. */
  lemma EventualConvergence(c: Config, steps: seq<Step>, more: seq<Step>, ransomware: bool)
    requires c.workers >= 1 && Possible(c, Initial(c), steps)
    requires c.workers == 1 || NoneDropped(c, Changes(steps))
    requires NoneOrphaned(c, Changes(steps))
    requires var s := After(c, Initial(c), steps);
             && s.sync.Synced? && !s.q.shuttingDown
             && Possible(c, s, more) && AllInternal(more) && Stuck(c, After(c, s, more))
             && (MendedRun(c, s, more) || (HonestLately(c, Initial(c), steps) && HonestRun(c, s, more)))
    ensures var s := After(c, Initial(c), steps);
            var s' := After(c, s, more);
            && |more| <= Measure(s) && s'.cache == s.cache
            && (AllDecode(c, s) ==> Metrics.Run(s'.ops, ransomware).owners == WantedOwners(c, s'))
            && Metrics.Run(s'.ops, ransomware).gauges == WantedGauges(c, s', ransomware)
  {
    var s := After(c, Initial(c), steps);
    var s' := After(c, s, more);
    InitialOrderly(c);
    RunOrderly(c, Initial(c), steps);
    RunOrderly(c, s, more);
    InternalRunBounded(c, s, more);
    InternalLeaves(c, s, more);
    StuckMeansDone(c, s');
    RunsCompose(c, Initial(c), steps, more);
    ChangesCompose(steps, more);
    InternalUnchanging(more);
    assert Changes(steps) + [] == Changes(steps);
    ValuesConverge(c, steps + more, ransomware);
    if AllDecode(c, s) {
      OwnersConverge(c, steps + more, ransomware);
    }
  }

  lemma InitialOrderly(c: Config)
    ensures WorkersInv(Initial(c)) && (c.workers >= 1 ==> ExitInv(Initial(c))) && |Initial(c).workers| == c.workers
  {
    if c.workers >= 1 {
      assert Initial(c).workers[0] == Idle;
    }
  }
}
