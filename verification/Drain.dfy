/** Shutting down: once the queue is closed the workers run out of steps, whatever the cluster,
    the feeds and the indexer go on doing, and leave nothing behind. */
module Drain {
  import opened Protocol
  import opened Safety
  import opened Termination

  /** A step of a worker, failed reads included. */
  predicate WorkerStep(step: Step) {
    step.IndexerError? || step.Get? || step.ReadCache? || step.LoadEpss? || step.LoadKev? || step.Commit?
    || step.Retry? || step.Done? || step.Exit?
  }

  /** The steps a worker can still take with its key; a retry re-adds nothing any more. */
  function DrainRank(w: Worker): nat {
    if w.Failed? then 3 else Rank(w)
  }

  function DrainRanks(ws: seq<Worker>): nat {
    if ws == [] then 0 else DrainRank(ws[0]) + DrainRanks(ws[1..])
  }

  function DrainMeasure(s: State): nat {
    6 * |s.q.dirty| + DrainRanks(s.workers)
  }

  lemma {:induction false} DrainRanksUpdate(ws: seq<Worker>, i: nat, w: Worker)
    requires i < |ws|
    ensures DrainRanks(ws[i := w]) == DrainRanks(ws) - DrainRank(ws[i]) + DrainRank(w)
  {
    if i == 0 {
      assert ws[i := w][1..] == ws[1..];
    } else {
      assert ws[i := w][1..] == ws[1..][i - 1 := w];
      DrainRanksUpdate(ws[1..], i - 1, w);
    }
  }

  lemma GetDrains(c: Config, s: State, w: nat)
    requires WorkersInv(s) && Enabled(c, s, Get(w))
    ensures DrainMeasure(Next(c, s, Get(w))) < DrainMeasure(s)
  {
    GetKeeps(c, s, w);
    DrainRanksUpdate(s.workers, w, Got(s.q.queue[0]));
    assert |s.q.dirty - {s.q.queue[0]}| == |s.q.dirty| - 1;
  }

  lemma OtherDrains(c: Config, s: State, step: Step)
    requires s.q.shuttingDown && Enabled(c, s, step) && WorkerStep(step) && !step.Get?
    ensures Next(c, s, step).q.shuttingDown && DrainMeasure(Next(c, s, step)) < DrainMeasure(s)
  {
    DrainRanksUpdate(s.workers, step.w, Next(c, s, step).workers[step.w]);
  }

  lemma ClosedStays(c: Config, s: State, step: Step)
    requires s.q.shuttingDown && Enabled(c, s, step) && !WorkerStep(step)
    ensures Next(c, s, step).q.shuttingDown && DrainMeasure(Next(c, s, step)) <= DrainMeasure(s)
  {
  }

  /** After shut-down every step of a worker leaves less to do, and no other step adds to it. */
  lemma DrainStep(c: Config, s: State, step: Step)
    requires WorkersInv(s) && s.q.shuttingDown && Enabled(c, s, step)
    ensures Next(c, s, step).q.shuttingDown
    ensures DrainMeasure(Next(c, s, step)) + (if WorkerStep(step) then 1 else 0) <= DrainMeasure(s)
  {
    if step.Get? {
      GetDrains(c, s, step.w);
    } else if WorkerStep(step) {
      OtherDrains(c, s, step);
    } else {
      ClosedStays(c, s, step);
    }
  }

  function WorkerSteps(steps: seq<Step>): nat {
    if steps == [] then 0 else (if WorkerStep(steps[0]) then 1 else 0) + WorkerSteps(steps[1..])
  }

  lemma {:induction false} DrainRun(c: Config, s: State, steps: seq<Step>)
    requires WorkersInv(s) && s.q.shuttingDown && Possible(c, s, steps)
    ensures WorkerSteps(steps) + DrainMeasure(After(c, s, steps)) <= DrainMeasure(s)
    ensures After(c, s, steps).q.shuttingDown
    decreases |steps|
  {
    if steps != [] {
      DrainStep(c, s, steps[0]);
      WorkersStep(c, s, steps[0]);
      DrainRun(c, Next(c, s, steps[0]), steps[1..]);
    }
  }

  /** No worker can take a step. */
  ghost predicate WorkersStuck(c: Config, s: State) {
    forall step | WorkerStep(step) :: !Enabled(c, s, step)
  }

  lemma StuckWorkersLeft(c: Config, s: State)
    requires WorkersInv(s) && ExitInv(s) && s.workers != [] && s.sync.Synced? && s.q.shuttingDown && WorkersStuck(c, s)
    ensures s.q.dirty == {} && s.q.processing == {}
    ensures forall i | 0 <= i < |s.workers| :: s.workers[i].Exited?
  {
    forall i: nat | At(s, i)
      ensures !Busy(s.workers[i])
    {
      if Busy(s.workers[i]) {
        BusyCanStep(c, s, i);
      }
    }
    forall i: nat | At(s, i)
      ensures s.workers[i].Exited?
    {
      assert !Enabled(c, s, Get(i)) && !Enabled(c, s, Exit(i));
    }
  }

  lemma BusyCanStep(c: Config, s: State, w: nat)
    requires At(s, w) && Busy(s.workers[w])
    ensures !WorkersStuck(c, s)
  {
    match s.workers[w]
    case Got(_) => assert Enabled(c, s, ReadCache(w));
    case Failed(_) => assert Enabled(c, s, Retry(w));
    case Read(_, item) => assert Enabled(c, s, if item.Some? && item.value.Decoded? then LoadEpss(w) else Commit(w));
    case HasEpss(_, _, _) => assert Enabled(c, s, LoadKev(w));
    case HasBoth(_, _, _, _) => assert Enabled(c, s, Commit(w));
    case Finished(_) => assert Enabled(c, s, Done(w));
  }

  /** Draining. However the exporter goes on after it is cancelled or its sync fails, with changes
      to the cluster, loads and failed reads anywhere, its workers take a bounded number of steps
      in all; and once they can take no more, with the cache synced, all of them have left and no
      key is queued or held. */
  lemma Drains(c: Config, steps: seq<Step>, more: seq<Step>)
    requires c.workers >= 1 && Possible(c, Initial(c), steps) && Possible(c, After(c, Initial(c), steps), more)
    requires Stop in steps || SyncFails in steps
    ensures var s := After(c, Initial(c), steps);
            var s' := After(c, s, more);
            && WorkerSteps(more) + DrainMeasure(s') <= DrainMeasure(s)
            && ((SyncDone in steps || SyncDone in more) && WorkersStuck(c, s') ==>
                  && s'.q.dirty == {} && s'.q.processing == {}
                  && forall i | 0 <= i < |s'.workers| :: s'.workers[i].Exited?)
  {
    var s := After(c, Initial(c), steps);
    FlagsAre(c, Initial(c), steps);
    FlagsAre(c, s, more);
    InitialOrderly(c);
    RunOrderly(c, Initial(c), steps);
    RunOrderly(c, s, more);
    DrainRun(c, s, more);
    if (SyncDone in steps || SyncDone in more) && WorkersStuck(c, After(c, s, more)) {
      StuckWorkersLeft(c, After(c, s, more));
    }
  }
}
