/** Several workers and shared tuples: exactly which changes to the cluster leave every gauge
    value right on every run. With one worker, those that orphan no tuple. With more, those in
    which besides no report gives up a tuple that another ends up with. */
module Sharing {
  import opened Base
  import opened App
  import opened Cluster
  import opened Controller
  import opened Convergence
  import opened Enrich
  import opened Freshness
  import opened Ledger
  import opened Protocol
  import opened Queue
  import opened Report
  import opened Resolver
  import opened Termination
  import opened Text
  import opened Values
  import opened Versions
  import opened Witness
  import Epss
  import Kev
  import Metrics
  import Safety

  // ----- The exporter goes on around one paused worker -----

  /** The worker whose step it is. */
  function Mover(step: Step): Option<nat> {
    match step
    case IndexerError(w) => Some(w)
    case Get(w) => Some(w)
    case ReadCache(w) => Some(w)
    case LoadEpss(w) => Some(w)
    case LoadKev(w) => Some(w)
    case Commit(w) => Some(w)
    case Retry(w) => Some(w)
    case Done(w) => Some(w)
    case Exit(w) => Some(w)
    case _ => None
  }

  /** A step of the exporter's own, not of worker 0. */
  predicate Around(step: Step) {
    Internal(step) && Mover(step) != Some(0)
  }

  predicate AllAround(steps: seq<Step>) {
    forall i | 0 <= i < |steps| :: Around(steps[i])
  }

  ghost predicate StuckAround(c: Config, s: State) {
    forall step | Around(step) :: !Enabled(c, s, step)
  }

  lemma {:induction false} CanSettleAround(c: Config, s: State) returns (more: seq<Step>)
    requires WorkersInv(s)
    ensures Possible(c, s, more) && AllAround(more) && StuckAround(c, After(c, s, more))
    decreases Measure(s)
  {
    if StuckAround(c, s) {
      more := [];
    } else {
      var step :| Around(step) && Enabled(c, s, step);
      InternalDecreases(c, s, step);
      WorkersStep(c, s, step);
      var rest := CanSettleAround(c, Next(c, s, step));
      more := [step] + rest;
      assert more[1..] == rest;
    }
  }

  lemma {:induction false} AroundLeaves(c: Config, s: State, steps: seq<Step>)
    requires s.workers != [] && Possible(c, s, steps) && AllAround(steps)
    ensures var s' := After(c, s, steps); s'.workers != [] && s'.workers[0] == s.workers[0]
    decreases |steps|
  {
    if steps != [] {
      AroundLeaves(c, Next(c, s, steps[0]), steps[1..]);
    }
  }

  /** All that is left to do belongs to worker 0 and the key it holds. */
  predicate OnlyLeft(s: State, a: Key) {
    && s.pending == [] && s.q.delayed == {} && s.q.queue == [] && s.q.processing == {a} && s.q.dirty <= {a}
    && s.epss.phase.Waiting? && s.kev.phase.Waiting?
    && (forall i | 1 <= i < |s.workers| :: s.workers[i].Idle?)
  }

  lemma StuckAroundMeans(c: Config, s: State)
    requires WorkersInv(s) && ExitInv(s) && s.sync.Synced? && !s.q.shuttingDown
    requires |s.workers| >= 2 && Busy(s.workers[0]) && StuckAround(c, s)
    ensures OnlyLeft(s, s.workers[0].key)
  {
    var a := s.workers[0].key;
    forall i | 1 <= i < |s.workers|
      ensures s.workers[i].Idle?
    {
      OtherIdle(c, s, i);
    }
    assert s.q.queue == [] by {
      assert !Enabled(c, s, Get(1));
    }
    assert s.pending == [] by {
      assert !Enabled(c, s, Deliver);
    }
    forall k
      ensures k !in s.q.delayed
    {
      assert !Enabled(c, s, Expire(k));
    }
    HeldAlone(s);
    FeedsStuck(c, s);
  }

  lemma OtherIdle(c: Config, s: State, w: nat)
    requires ExitInv(s) && !s.q.shuttingDown && 1 <= w < |s.workers| && StuckAround(c, s)
    ensures s.workers[w].Idle?
  {
    if Busy(s.workers[w]) {
      OtherCanStep(c, s, w);
    }
  }

  lemma OtherCanStep(c: Config, s: State, w: nat)
    requires 1 <= w < |s.workers| && Busy(s.workers[w])
    ensures !StuckAround(c, s)
  {
    match s.workers[w]
    case Got(_) => assert Enabled(c, s, ReadCache(w));
    case Failed(_) => assert Enabled(c, s, Retry(w));
    case Read(_, item) => assert Enabled(c, s, if item.Some? && item.value.Decoded? then LoadEpss(w) else Commit(w));
    case HasEpss(_, _, _) => assert Enabled(c, s, LoadKev(w));
    case HasBoth(_, _, _, _) => assert Enabled(c, s, Commit(w));
    case Finished(_) => assert Enabled(c, s, Done(w));
  }

  lemma HeldAlone(s: State)
    requires WorkersInv(s) && s.workers != [] && Busy(s.workers[0]) && s.q.queue == []
    requires forall i | 1 <= i < |s.workers| :: s.workers[i].Idle?
    ensures s.q.processing == {s.workers[0].key} && s.q.dirty <= {s.workers[0].key}
  {
    var a := s.workers[0].key;
    assert Holds(s, 0, a);
    forall k | k in s.q.processing
      ensures k == a
    {
      var i: nat :| Holds(s, i, k);
    }
    forall k | k in s.q.dirty
      ensures k in s.q.processing
    {
      assert k in s.q.queue <==> k in s.q.dirty && k !in s.q.processing;
    }
  }

  lemma FeedsStuck(c: Config, s: State)
    requires StuckAround(c, s)
    ensures s.epss.phase.Waiting? && s.kev.phase.Waiting?
  {
    if !s.epss.phase.Waiting? {
      var step := FeedTurn(s.epss);
      assert Enabled(c, s, EpssStep(step));
    }
    if !s.kev.phase.Waiting? {
      var step := FeedTurn(s.kev);
      assert Enabled(c, s, KevStep(step));
    }
  }

  lemma SettleAround(c: Config, run: seq<Step>, s: State) returns (run': seq<Step>, s': State)
    requires c.workers >= 2 && Reached(c, run, s, true) && Unfetched(s) && s.sync.Synced? && !s.q.shuttingDown
    requires s.workers != [] && Busy(s.workers[0])
    ensures Reached(c, run', s', true) && Changes(run') == Changes(run) && Unfetched(s')
    ensures |s'.workers| == c.workers && s'.workers[0] == s.workers[0] && OnlyLeft(s', s.workers[0].key)
    ensures s'.cache == s.cache && s'.sync.Synced? && !s'.q.shuttingDown
    ensures s'.epss.installed == s.epss.installed && s'.kev.installed == s.kev.installed
  {
    InitialOrderly(c);
    RunOrderly(c, Initial(c), run);
    var more := CanSettleAround(c, s);
    RunOrderly(c, s, more);
    assert AllInternal(more);
    InternalLeaves(c, s, more);
    AroundLeaves(c, s, more);
    StuckAroundMeans(c, After(c, s, more));
    InternalUnchanging(more);
    run', s' := GoOn(c, run, s, more);
  }

  // ----- Once only the key a is left, nobody writes the tuple any more -----

  /** Only the key a is still to be processed, and nothing of it carries the tuple. */
  ghost predicate LateInv(c: Config, s: State, a: Key, l: Labels) {
    && s.pending == [] && s.q.dirty <= {a} && s.q.delayed <= {a} && (forall k | k in s.q.queue :: k == a)
    && s.epss.phase.Waiting? && s.kev.phase.Waiting?
    && !Carries(c, Lookup(s.cache, a), l)
    && (forall i | 0 <= i < |s.workers| && Busy(s.workers[i]) :: LateWorker(c, s.workers[i], a, l))
  }

  predicate LateWorker(c: Config, w: Worker, a: Key, l: Labels)
    requires Busy(w)
  {
    && w.key == a && (w.Read? ==> !Carries(c, w.item, l))
    && (w.HasEpss? || w.HasBoth? ==> l !in TuplesOf(c, w.rep))
  }

  lemma LateQueue(c: Config, s: State, step: Step, a: Key, l: Labels)
    requires LateInv(c, s, a, l) && Enabled(c, s, step) && (step.Get? || step.Retry? || step.Done? || step.Expire?)
    ensures LateInv(c, Next(c, s, step), a, l)
  {
    if step.Get? {
      assert s.q.queue[0] in s.q.queue;
      assert forall k | k in s.q.queue[1..] :: k in s.q.queue;
    }
  }

  lemma LateCommit(c: Config, s: State, w: nat, a: Key, l: Labels)
    requires LateInv(c, s, a, l) && Enabled(c, s, Commit(w))
    ensures LateInv(c, Next(c, s, Commit(w)), a, l)
    ensures LastWrite(Next(c, s, Commit(w)).ops, l) == LastWrite(s.ops, l)
  {
    CommitWrite(c, s, w, l);
  }

  lemma LateKeeps(c: Config, s: State, step: Step, a: Key, l: Labels)
    requires LateInv(c, s, a, l) && Enabled(c, s, step) && Internal(step)
    ensures LateInv(c, Next(c, s, step), a, l) && LastWrite(Next(c, s, step).ops, l) == LastWrite(s.ops, l)
  {
    match step
    case Get(_) => LateQueue(c, s, step, a, l);
    case Retry(_) => LateQueue(c, s, step, a, l);
    case Done(_) => LateQueue(c, s, step, a, l);
    case Expire(_) => LateQueue(c, s, step, a, l);
    case Commit(w) => LateCommit(c, s, w, a, l);
    case _ =>
  }

  lemma {:induction false} LateRun(c: Config, s: State, steps: seq<Step>, a: Key, l: Labels)
    requires LateInv(c, s, a, l) && Possible(c, s, steps) && AllInternal(steps)
    ensures LastWrite(After(c, s, steps).ops, l) == LastWrite(s.ops, l)
    decreases |steps|
  {
    if steps != [] {
      LateKeeps(c, s, steps[0], a, l);
      LateRun(c, Next(c, s, steps[0]), steps[1..], a, l);
    }
  }

  // ----- The run that ends wrong -----

  /** A tuple's CVE is not empty and in normal form. */
  lemma TupleNormal(c: Config, rep: VulnerabilityReport, l: Labels)
    requires l in TuplesOf(c, rep)
    ensures NormalizeId(l.cve) == l.cve != ""
  {
    var w := Resolved(c.rollup, rep.workload);
    TuplesOrdered(rep.vulnerabilities, w);
    var i := FirstIndex(rep.vulnerabilities, w, l);
    NormalFormIs(rep.vulnerabilities[i].vulnerabilityID, l.cve);
    NormalizeIdempotent(rep.vulnerabilities[i].vulnerabilityID);
  }

  /** The first load is installed, the first changes come, and the exporter settles. */
  lemma SettledWith(c: Config, changes: seq<Step>, r1: Loaded<Epss.Snapshot>) returns (run: seq<Step>, s: State)
    requires c.workers >= 2 && AllChanges(changes) && EpssLoadOk(r1)
    ensures Rested(c, run, s) && Changes(run) == changes && s.q == EMPTY_QUEUE
    ensures s.epss.installed == Some(r1) && s.epss.have && s.epss.last == r1.marker && s.kev.installed == None
    ensures |s.workers| == c.workers && s.workers[0].Idle?
  {
    run, s := Boot(c, r1);
    run, s := Change(c, run, s, changes);
    var settling;
    settling, run, s := Settle(c, run, s);
    NoneHeld(c, run, s);
    Safety.RunSafe(c, Initial(c), run);
  }

  /** Worker 0 has read the n-th version and the first load, and pauses before writing. */
  lemma PausedWith(c: Config, changes: seq<Step>, n: nat, rep: VulnerabilityReport, r1: Loaded<Epss.Snapshot>)
    returns (run: seq<Step>, s: State)
    requires c.workers >= 2 && AllChanges(changes) && n < |changes| && EpssLoadOk(r1)
    requires changes[n].CacheSet? && changes[n].obj == Decoded(rep) && InScope(c.allow, changes[n].key)
    ensures Reached(c, run, s, true) && Changes(run) == changes[..n + 1]
    ensures s.sync.Synced? && !s.q.shuttingDown && s.epss.phase.Waiting? && s.kev.phase.Waiting?
    ensures s.epss.installed == Some(r1) && s.epss.have && s.epss.last == r1.marker && s.kev.installed == None
    ensures |s.workers| == c.workers && s.workers[0] == HasBoth(changes[n].key, rep, Some(r1.snap), None)
  {
    var key := changes[n].key;
    assert forall step | step in changes[..n] :: step in changes;
    run, s := SettledWith(c, changes[..n], r1);
    run, s := Appear(c, run, s, key, Decoded(rep), true);
    assert s.q.queue == [key];
    run, s := Begin(c, run, s, 0, rep, true);
    assert changes[..n + 1] == changes[..n] + [changes[n]];
  }

  /** While it is paused a second load is installed, the remaining changes come, and the exporter
      does all that is left to do around it. */
  lemma LeftWith(c: Config, changes: seq<Step>, n: nat, rep: VulnerabilityReport, r1: Loaded<Epss.Snapshot>,
                 r2: Loaded<Epss.Snapshot>)
    returns (run: seq<Step>, s: State)
    requires c.workers >= 2 && AllChanges(changes) && n < |changes|
    requires EpssLoadOk(r1) && EpssLoadOk(r2) && r1.marker != r2.marker
    requires changes[n].CacheSet? && changes[n].obj == Decoded(rep) && InScope(c.allow, changes[n].key)
    ensures Reached(c, run, s, true) && Changes(run) == changes
    ensures s.sync.Synced? && !s.q.shuttingDown && OnlyLeft(s, changes[n].key)
    ensures s.epss.installed == Some(r2) && s.kev.installed == None
    ensures |s.workers| == c.workers && s.workers[0] == HasBoth(changes[n].key, rep, Some(r1.snap), None)
  {
    var rest := changes[n + 1..];
    run, s := PausedWith(c, changes, n, rep, r1);
    run, s := Install(c, run, s, r2, true);
    assert forall step | step in rest :: step in changes;
    run, s := Change(c, run, s, rest);
    run, s := SettleAround(c, run, s);
    assert changes == changes[..n + 1] + rest;
  }

  /** Worker 0 writes what it has, last of all, and its key is processed once more if due. */
  lemma WritesLast(c: Config, run: seq<Step>, s: State, a: Key, rep: VulnerabilityReport, e: EpssNow, l: Labels)
    returns (run': seq<Step>, s': State)
    requires c.workers >= 2 && Reached(c, run, s, true) && s.sync.Synced? && !s.q.shuttingDown && OnlyLeft(s, a)
    requires |s.workers| == c.workers && s.workers[0] == HasBoth(a, rep, e, None)
    requires l in TuplesOf(c, rep) && !Carries(c, Lookup(s.cache, a), l)
    ensures Rested(c, run', s') && Changes(run') == Changes(run)
    ensures s'.epss.installed == s.epss.installed && s'.kev.installed == s.kev.installed
    ensures LastWrite(s'.ops, l) == Some(SeriesFor(l, e, None))
  {
    CommitWrite(c, s, 0, l);
    run', s' := End(c, run, s, 0, true);
    var s1 := s';
    assert LastWrite(s1.ops, l) == Some(SeriesFor(l, e, None));
    assert LateInv(c, s1, a, l);
    var settling;
    settling, run', s' := Settle(c, run', s1);
    LateRun(c, s1, settling, a, l);
  }

  /** Two loads that score the CVE differently. */
  lemma TwoLoads(cve: string) returns (r1: Loaded<Epss.Snapshot>, r2: Loaded<Epss.Snapshot>)
    requires NormalizeId(cve) == cve != ""
    ensures EpssLoadOk(r1) && EpssLoadOk(r2) && r1.marker != r2.marker
    ensures Epss.LookupScore(Some(r1.snap), cve) == Some(Epss.Score(ZERO, ZERO))
    ensures Epss.LookupScore(Some(r2.snap), cve) == Some(Epss.Score(ONE, ONE))
  {
    r1 := Loaded(("1", ""), Epss.Snapshot(map[cve := Epss.Score(ZERO, ZERO)], "1", ""));
    r2 := Loaded(("2", ""), Epss.Snapshot(map[cve := Epss.Score(ONE, ONE)], "2", ""));
    assert cve in r1.snap.scores && cve in r2.snap.scores;
    assert "1" != "2" by {
      assert "1"[0] != "2"[0];
    }
  }

  /** Whenever the changes make a report give up a tuple that another ends up with, two or more
      workers can end with a wrong value: a quiescent state, reached honestly, in which the tuple
      is shown as it should be but with its old score. */
  lemma SharerGoesStale(c: Config, changes: seq<Step>, n: nat, b: Key, l: Labels) returns (run: seq<Step>, s: State)
    requires c.workers >= 2 && AllChanges(changes) && DropsShared(c, changes, n, b, l)
    ensures Rested(c, run, s) && Changes(run) == changes
    ensures l in Gauge(s.ops, EpssScore) && l in WantedGauge(c, s, EpssScore)
    ensures Gauge(s.ops, EpssScore)[l] != WantedGauge(c, s, EpssScore)[l]
  {
    var rep := changes[n].obj.rep;
    TupleNormal(c, rep, l);
    var r1, r2 := TwoLoads(l.cve);
    run, s := LeftWith(c, changes, n, rep, r1, r2);
    CacheFollows(c, Initial(c), run);
    run, s := WritesLast(c, run, s, changes[n].key, rep, Some(r1.snap), l);
    CacheFollows(c, Initial(c), run);
    ShownByOther(c, run, s, b, l);
  }

  /** A tuple of an in-scope cached report is live and wanted at quiescence. */
  lemma ShownByOther(c: Config, run: seq<Step>, s: State, b: Key, l: Labels)
    requires Rested(c, run, s) && InScope(c.allow, b) && CachedWith(c, s, b, l)
    ensures l in Live(OwnersOf(s.ops)) && l in Live(WantedOwners(c, s))
  {
    KeySetsConverge(c, run, b);
    LiveIffOwned(s.ops, l);
    assert b in WantedOwners(c, s) && l in WantedOwners(c, s)[b];
  }

  /** An orphaned tuple is shown though no report contributes it. */
  lemma OrphanStays(c: Config, changes: seq<Step>, n: nat, l: Labels) returns (run: seq<Step>, s: State)
    requires c.workers >= 1 && AllChanges(changes) && Orphans(c, changes, n, l)
    ensures Rested(c, run, s) && Changes(run) == changes
    ensures l in Gauge(s.ops, EpssScore) && l !in WantedGauge(c, s, EpssScore)
  {
    run, s := KeepsOldTuples(c, changes, n, l);
    CacheFollows(c, Initial(c), run);
    LiveIffOwned(s.ops, l);
    forall b | b in WantedOwners(c, s)
      ensures l !in WantedOwners(c, s)[b]
    {
      assert !EndsWith(c, changes, b, l);
    }
  }

  // ----- The exact condition -----

  ghost predicate HonestWith(c: Config, run: seq<Step>, changes: seq<Step>) {
    LatelyHonest(c, run) && Changes(run) == changes
  }

  /** Exactly which changes to the cluster leave every gauge right at the end of every run that
      has those changes, ends open and quiescent, and has no marker that lied since the last new
      one: those that orphan no tuple and, with more than one worker, drop no shared one. */
  lemma ValuesRightExactly(c: Config, changes: seq<Step>, ransomware: bool)
    requires c.workers >= 1 && AllChanges(changes)
    ensures (forall run | HonestWith(c, run, changes) :: EndsRight(c, run, ransomware))
       <==> NoneOrphaned(c, changes) && (c.workers <= 1 || NoneDropped(c, changes))
  {
    if NoneOrphaned(c, changes) && (c.workers <= 1 || NoneDropped(c, changes)) {
      forall run | HonestWith(c, run, changes)
        ensures EndsRight(c, run, ransomware)
      {
        var s := After(c, Initial(c), run);
        if Quiescent(s) && !s.q.shuttingDown {
          ValuesConverge(c, run, ransomware);
        }
      }
    } else if n: nat, l :| Orphans(c, changes, n, l) {
      var run, s := OrphanStays(c, changes, n, l);
      EndsWrong(c, run, s, changes, ransomware);
    } else {
      var n: nat, b, l :| DropsShared(c, changes, n, b, l);
      var run, s := SharerGoesStale(c, changes, n, b, l);
      EndsWrong(c, run, s, changes, ransomware);
    }
  }

  lemma EndsWrong(c: Config, run: seq<Step>, s: State, changes: seq<Step>, ransomware: bool)
    requires Rested(c, run, s) && Changes(run) == changes
    requires Gauge(s.ops, EpssScore) != WantedGauge(c, s, EpssScore)
    ensures HonestWith(c, run, changes) && !EndsRight(c, run, ransomware)
  {
    Metrics.RunExact(s.ops, ransomware);
  }

  /** When every in-scope object ends up decoding, and for the default of two workers in
      particular, the values are right exactly when no report gives up a shared tuple. */
  lemma SharersRightExactly(c: Config, changes: seq<Step>, ransomware: bool)
    requires c.workers >= 2 && AllChanges(changes)
    requires forall key | InScope(c.allow, key) :: FinalObject(changes, key) != Some(Malformed)
    ensures (forall run | HonestWith(c, run, changes) :: EndsRight(c, run, ransomware)) <==> NoneDropped(c, changes)
  {
    ValuesRightExactly(c, changes, ransomware);
  }
}
