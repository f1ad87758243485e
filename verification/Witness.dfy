/** Why the hypotheses of value convergence are there: runs that end quiescent with a wrong
    gauge value when one of them is dropped. */
module Witness {
  import opened Base
  import opened Cluster
  import opened App
  import opened Controller
  import opened Convergence
  import opened Enrich
  import opened Feeds
  import opened Freshness
  import opened Ledger
  import opened Protocol
  import opened Queue
  import opened Report
  import opened Resolver
  import opened Text
  import opened Termination
  import Epss
  import Metrics

  /** The run leads from the start to s; when honest, without ever installing changed data
      under an unchanged marker. */
  ghost predicate Reached(c: Config, run: seq<Step>, s: State, honest: bool) {
    Possible(c, Initial(c), run) && After(c, Initial(c), run) == s && (honest ==> HonestRun(c, Initial(c), run))
  }

  lemma Take(c: Config, run: seq<Step>, s: State, step: Step, honest: bool) returns (run': seq<Step>, s': State)
    requires Reached(c, run, s, honest) && Enabled(c, s, step) && (honest ==> Honest(s, step))
    ensures s' == Next(c, s, step) && Reached(c, run', s', honest)
    ensures Changes(run') == Changes(run) + if IsChange(step) then [step] else []
  {
    run', s' := run + [step], Next(c, s, step);
    assert [step][1..] == [];
    assert Possible(c, s, [step]);
    assert After(c, s, [step]) == s';
    assert honest ==> HonestRun(c, s, [step]);
    RunsCompose(c, Initial(c), run, [step]);
    ChangesCompose(run, [step]);
  }

  /** A worker takes a queued key and reads everything it needs for a decoded report. */
  lemma Begin(c: Config, run: seq<Step>, s: State, w: nat, rep: VulnerabilityReport, honest: bool)
    returns (run': seq<Step>, s': State)
    requires Reached(c, run, s, honest) && Enabled(c, s, Get(w))
    requires Lookup(s.cache, s.q.queue[0]) == Some(Decoded(rep))
    ensures Reached(c, run', s', honest) && Changes(run') == Changes(run)
    ensures s' == Put(s.(q := Taken(s.q)), w, HasBoth(s.q.queue[0], rep, CurrentEpss(s), CurrentKev(s)))
  {
    run', s' := TakeKey(c, run, s, w, honest);
    run', s' := Take(c, run', s', LoadEpss(w), honest);
    run', s' := Take(c, run', s', LoadKev(w), honest);
  }

  /** A worker takes a queued key and reads what the cache holds for it. */
  lemma TakeKey(c: Config, run: seq<Step>, s: State, w: nat, honest: bool) returns (run': seq<Step>, s': State)
    requires Reached(c, run, s, honest) && Enabled(c, s, Get(w))
    ensures Reached(c, run', s', honest) && Changes(run') == Changes(run)
    ensures s' == Put(s.(q := Taken(s.q)), w, Read(s.q.queue[0], Lookup(s.cache, s.q.queue[0])))
  {
    run', s' := Take(c, run, s, Get(w), honest);
    run', s' := Take(c, run', s', ReadCache(w), honest);
  }

  /** The worker writes what it has and gives the key back. */
  lemma End(c: Config, run: seq<Step>, s: State, w: nat, honest: bool) returns (run': seq<Step>, s': State)
    requires Reached(c, run, s, honest) && Enabled(c, s, Commit(w))
    ensures Reached(c, run', s', honest) && Changes(run') == Changes(run)
    ensures s' == Put(s.(q := Returned(s.q, s.workers[w].key), ops := s.ops + CommitOps(c, s.workers[w])), w, Idle)
  {
    run', s' := Take(c, run, s, Commit(w), honest);
    run', s' := Take(c, run', s', Done(w), honest);
  }

  /** A whole turn on a key whose object is missing or does not decode. */
  lemma SkipTurn(c: Config, run: seq<Step>, s: State, w: nat, honest: bool) returns (run': seq<Step>, s': State)
    requires Reached(c, run, s, honest) && Enabled(c, s, Get(w))
    requires var item := Lookup(s.cache, s.q.queue[0]); item.None? || item.value.Malformed?
    ensures Reached(c, run', s', honest)
    ensures s' == s.(q := Returned(Taken(s.q), s.q.queue[0]),
                     ops := s.ops + ProcessOps(c.rollup, s.q.queue[0], Lookup(s.cache, s.q.queue[0]), None, None))
  {
    run', s' := TakeKey(c, run, s, w, honest);
    run', s' := End(c, run', s', w, honest);
    assert s'.workers == s.workers;
  }

  /** The EPSS refresher installs a loaded snapshot and sets its flag. */
  lemma Install(c: Config, run: seq<Step>, s: State, r: Loaded<Epss.Snapshot>, honest: bool)
    returns (run': seq<Step>, s': State)
    requires Reached(c, run, s, honest) && s.epss.phase.Waiting? && EpssLoadOk(r)
    requires honest ==> Changed(s.epss.have, s.epss.last, r.marker)
    ensures Reached(c, run', s', honest) && Changes(run') == Changes(run)
    ensures s' == s.(epss := s.epss.(installed := Some(r), loaded := true, phase := Flagged(r.marker)))
  {
    run', s' := Take(c, run, s, EpssStep(Loads(r)), honest);
    run', s' := Take(c, run', s', EpssStep(Store), honest);
    run', s' := Take(c, run', s', EpssStep(SetLoaded), honest);
  }

  /** Start-up: the cache syncs empty and the first EPSS snapshot is loaded and swept. */
  lemma Boot(c: Config, r: Loaded<Epss.Snapshot>) returns (run: seq<Step>, s: State)
    requires EpssLoadOk(r)
    ensures Reached(c, run, s, true) && Changes(run) == []
    ensures s == Initial(c).(sync := Synced, epss := Feed(Some(r), true, true, r.marker, Waiting))
  {
    run, s := [], Initial(c);
    run, s := Take(c, run, s, SyncDone, true);
    run, s := Install(c, run, s, r, true);
    run, s := Take(c, run, s, EpssStep(Decide), true);
    run, s := Take(c, run, s, EpssStep(List), true);
    assert s.epss.phase.keys == {};
    run, s := Take(c, run, s, EpssStep(EndSweep), true);
  }

  /** The report appears, is notified and is ready to be taken. */
  lemma Appear(c: Config, run: seq<Step>, s: State, key: Key, obj: Object, honest: bool)
    returns (run': seq<Step>, s': State)
    requires Reached(c, run, s, honest) && s.pending == [] && InScope(c.allow, key)
    ensures Reached(c, run', s', honest) && Changes(run') == Changes(run) + [CacheSet(key, obj)]
    ensures s' == s.(cache := s.cache[key := obj], q := Added(s.q, key))
  {
    run', s' := Take(c, run, s, CacheSet(key, obj), honest);
    assert s.pending + [key] == [key] && [key][1..] == [];
    assert s' == s.(cache := s.cache[key := obj], pending := [key]);
    run', s' := Take(c, run', s', Deliver, honest);
  }

  // ----- Two workers and a shared tuple -----

  /** Two reports of different keys that share the tuple l, and two EPSS loads, told apart by
      their markers, that score it differently. */
  ghost predicate Conflict(c: Config, a: Key, repA: VulnerabilityReport, b: Key, repB: VulnerabilityReport,
                           r1: Loaded<Epss.Snapshot>, r2: Loaded<Epss.Snapshot>, l: Labels)
  {
    && a != b && InScope(c.allow, a) && InScope(c.allow, b)
    && l in TuplesOf(c, repA) && l in TuplesOf(c, repB)
    && EpssLoadOk(r1) && EpssLoadOk(r2) && r1.marker != r2.marker
    && SeriesFor(l, Some(r1.snap), None).epssScore != SeriesFor(l, Some(r2.snap), None).epssScore
  }

  /** Worker 0 has read report a and the first snapshot, and pauses before writing. */
  lemma Paused(c: Config, a: Key, repA: VulnerabilityReport, r1: Loaded<Epss.Snapshot>)
    returns (run: seq<Step>, s: State)
    requires c.workers >= 2 && InScope(c.allow, a) && EpssLoadOk(r1)
    ensures Reached(c, run, s, true)
    ensures s == Initial(c).(sync := Synced, epss := Feed(Some(r1), true, true, r1.marker, Waiting),
                             cache := map[a := Decoded(repA)], q := QueueState([], {}, {a}, {}, false),
                             workers := Initial(c).workers[0 := HasBoth(a, repA, Some(r1.snap), None)])
  {
    run, s := Boot(c, r1);
    run, s := Appear(c, run, s, a, Decoded(repA), true);
    assert s.q.queue == [a];
    run, s := Begin(c, run, s, 0, repA, true);
    assert s.q == QueueState([], {}, {a}, {}, false);
  }

  /** First half: while worker 0 is paused the second snapshot is installed, a is deleted and b
      appears, and the sweep for the new snapshot lists only b. */
  lemma StaleInHand(c: Config, a: Key, repA: VulnerabilityReport, b: Key, repB: VulnerabilityReport,
                    r1: Loaded<Epss.Snapshot>, r2: Loaded<Epss.Snapshot>)
    returns (run: seq<Step>, s: State)
    requires c.workers >= 2 && a != b && InScope(c.allow, a) && InScope(c.allow, b)
    requires EpssLoadOk(r1) && EpssLoadOk(r2) && r1.marker != r2.marker
    ensures Reached(c, run, s, true)
    ensures s == Initial(c).(sync := Synced, epss := Feed(Some(r2), true, true, r2.marker, Waiting),
                             cache := map[b := Decoded(repB)], q := QueueState([b], {a, b}, {a}, {}, false),
                             workers := Initial(c).workers[0 := HasBoth(a, repA, Some(r1.snap), None)])
  {
    run, s := Paused(c, a, repA, r1);
    run, s := Install(c, run, s, r2, true);
    run, s := Take(c, run, s, CacheRemove(a), true);
    run, s := Take(c, run, s, CacheSet(b, Decoded(repB)), true);
    assert s.cache == map[b := Decoded(repB)];
    assert s.pending == [a, b];
    run, s := SweepOver(c, run, s, a, b, repB);
  }

  lemma SweepOver(c: Config, run: seq<Step>, s: State, a: Key, b: Key, repB: VulnerabilityReport)
    returns (run': seq<Step>, s': State)
    requires Reached(c, run, s, true) && a != b && InScope(c.allow, a) && InScope(c.allow, b)
    requires s.cache == map[b := Decoded(repB)] && s.pending == [a, b] && s.q == QueueState([], {}, {a}, {}, false)
    requires s.epss.phase.Flagged? && Changed(s.epss.have, s.epss.last, s.epss.phase.marker)
    ensures Reached(c, run', s', true)
    ensures s' == s.(pending := [], q := QueueState([b], {a, b}, {a}, {}, false),
                     epss := s.epss.(have := true, last := s.epss.phase.marker, phase := Waiting))
  {
    run', s' := Take(c, run, s, EpssStep(Decide), true);
    run', s' := Take(c, run', s', EpssStep(List), true);
    assert s'.epss.phase.keys == {b};
    run', s' := DeliverTwo(c, run', s', a, b);
    run', s' := Take(c, run', s', EpssStep(AddKey(b)), true);
    assert s'.epss.phase.keys == {};
    run', s' := Take(c, run', s', EpssStep(EndSweep), true);
  }

  lemma DeliverTwo(c: Config, run: seq<Step>, s: State, a: Key, b: Key) returns (run': seq<Step>, s': State)
    requires Reached(c, run, s, true) && a != b && InScope(c.allow, a) && InScope(c.allow, b)
    requires s.pending == [a, b] && s.q == QueueState([], {}, {a}, {}, false)
    ensures Reached(c, run', s', true)
    ensures s' == s.(pending := [], q := QueueState([b], {a, b}, {a}, {}, false))
  {
    run', s' := Take(c, run, s, Deliver, true);
    assert s'.pending == [b] && s'.q == QueueState([], {a}, {a}, {}, false);
    run', s' := Take(c, run', s', Deliver, true);
    assert s'.pending == [] && s'.q == QueueState([b], {a, b}, {a}, {}, false);
  }

  /** Second half: worker 1 sets b with the new value, worker 0 then sets a with the old one, and
      a is reprocessed and deleted. Reference counting keeps the shared gauge, old value and all. */
  lemma StaleWriteLast(c: Config, run: seq<Step>, s: State, a: Key, repA: VulnerabilityReport, b: Key,
                       repB: VulnerabilityReport,
                       e1: EpssNow, r2: Loaded<Epss.Snapshot>)
    returns (run': seq<Step>, s': State)
    requires Reached(c, run, s, true) && a != b && |s.workers| >= 2
    requires s.workers[0] == HasBoth(a, repA, e1, None) && s.workers[1] == Idle
    requires s.cache == map[b := Decoded(repB)] && s.pending == [] && s.ops == [] && s.sync == Synced
    requires s.q == QueueState([b], {a, b}, {a}, {}, false)
    requires s.epss == Feed(Some(r2), true, true, r2.marker, Waiting) && s.kev == Unloaded()
    ensures Reached(c, run', s', true)
    ensures s' == s.(q := EMPTY_QUEUE, workers := s.workers[0 := Idle],
                     ops := [Set(b, Contribution(c.rollup, repB, Some(r2.snap), None)),
                             Set(a, Contribution(c.rollup, repA, e1, None)), Delete(a)])
  {
    run', s' := Begin(c, run, s, 1, repB, true);
    run', s' := End(c, run', s', 1, true);
    assert s'.workers == s.workers;
    assert s' == s.(q := QueueState([], {a}, {a}, {}, false),
                    ops := [Set(b, Contribution(c.rollup, repB, Some(r2.snap), None))]);
    run', s' := StaleTurn(c, run', s', a, repA, e1);
  }

  /** The paused worker writes, and its key, absent from the cache, is then deleted. */
  lemma StaleTurn(c: Config, run: seq<Step>, s: State, a: Key, repA: VulnerabilityReport, e1: EpssNow)
    returns (run': seq<Step>, s': State)
    requires Reached(c, run, s, true) && s.workers != [] && s.workers[0] == HasBoth(a, repA, e1, None)
    requires a !in s.cache && s.sync == Synced && s.q == QueueState([], {a}, {a}, {}, false)
    ensures Reached(c, run', s', true)
    ensures s' == s.(q := EMPTY_QUEUE, workers := s.workers[0 := Idle],
                     ops := s.ops + [Set(a, Contribution(c.rollup, repA, e1, None))] + [Delete(a)])
  {
    run', s' := End(c, run, s, 0, true);
    assert s'.q == QueueState([a], {a}, {}, {}, false);
    run', s' := SkipTurn(c, run', s', 0, true);
    assert s'.q == EMPTY_QUEUE;
  }

  /** With two or more workers, one worker's hypothesis cannot be dropped: any two reports that
      share a tuple, and any two EPSS loads that score it differently, admit an honest run to a
      quiescent state in which every key set is right, every cached object decodes, and yet the
      shared tuple shows the old score. */
  lemma TwoWorkersGoStale(c: Config, a: Key, repA: VulnerabilityReport, b: Key, repB: VulnerabilityReport,
                          r1: Loaded<Epss.Snapshot>, r2: Loaded<Epss.Snapshot>, l: Labels)
    returns (run: seq<Step>, s: State)
    requires c.workers >= 2 && Conflict(c, a, repA, b, repB, r1, r2, l)
    ensures Reached(c, run, s, true) && Quiescent(s) && !s.q.shuttingDown && AllDecode(c, s)
    ensures OwnersOf(s.ops) == WantedOwners(c, s)
    ensures l in Gauge(s.ops, EpssScore) && l in WantedGauge(c, s, EpssScore)
    ensures Gauge(s.ops, EpssScore)[l] != WantedGauge(c, s, EpssScore)[l]
  {
    run, s := StaleInHand(c, a, repA, b, repB, r1, r2);
    run, s := StaleWriteLast(c, run, s, a, repA, b, repB, Some(r1.snap), r2);
    OwnersConverge(c, run, true);
    Metrics.RunExact(s.ops, true);
    assert s.cache[b] == Decoded(repB);
    assert b in WantedOwners(c, s) && l in WantedOwners(c, s)[b];
    OldValueLast(c, a, repA, Some(r1.snap), s.ops[0], l);
  }

  lemma OldValueLast(c: Config, a: Key, repA: VulnerabilityReport, e1: EpssNow, first: Op, l: Labels)
    requires l in TuplesOf(c, repA)
    ensures LastWrite([first, Set(a, Contribution(c.rollup, repA, e1, None)), Delete(a)], l)
         == Some(SeriesFor(l, e1, None))
  {
    var y := Set(a, Contribution(c.rollup, repA, e1, None));
    ContributionTuples(c, repA, e1, None);
    LastInFound(y.series, l);
    LastOfThree(first, y, Delete(a), l);
  }

  lemma LastOfThree(x: Op, y: Op, z: Op, l: Labels)
    requires y.Set? && z.Delete? && LastIn(y.series, l).Some?
    ensures LastWrite([x, y, z], l) == LastIn(y.series, l)
  {
    assert [x, y, z][..2] == [x, y];
  }

  /** A report with one vulnerability and the tuple it contributes. */
  lemma SomeTuple(c: Config) returns (rep: VulnerabilityReport, l: Labels)
    ensures l in TuplesOf(c, rep) && NormalizeId(l.cve) == l.cve != ""
  {
    var v := Vulnerability("CVE-1", "pkg", "HIGH");
    rep := VulnerabilityReport(Workload("", "", "", ""), [v]);
    var w := Resolved(c.rollup, rep.workload);
    l := LabelsFor(v, w);
    assert TrimSpace("CVE-1") == "CVE-1";
    NormalizeIdempotent(v.vulnerabilityID);
    assert [v][..0] == [];
    assert Tuples([], w) == [];
    assert Tuples([v], w) == [l];
  }

  /** Any two in-scope keys can be in conflict: it takes one vulnerability they both report. */
  lemma SomeConflict(c: Config, a: Key, b: Key)
    returns (rep: VulnerabilityReport, r1: Loaded<Epss.Snapshot>, r2: Loaded<Epss.Snapshot>, l: Labels)
    requires a != b && InScope(c.allow, a) && InScope(c.allow, b)
    ensures Conflict(c, a, rep, b, rep, r1, r2, l)
  {
    rep, l := SomeTuple(c);
    r1 := Loaded(("1", ""), Epss.Snapshot(map[l.cve := Epss.Score(ZERO, ZERO)], "1", ""));
    r2 := Loaded(("2", ""), Epss.Snapshot(map[l.cve := Epss.Score(ONE, ONE)], "2", ""));
    assert l.cve in r1.snap.scores && l.cve in r2.snap.scores;
    assert "1" != "2" by {
      assert "1"[0] != "2"[0];
    }
  }

  /** At the end of the run, if it is quiescent and open, every gauge is the enrichment of the
      cached reports under the installed snapshots. */
  ghost predicate EndsRight(c: Config, run: seq<Step>, ransomware: bool)
    requires Possible(c, Initial(c), run)
  {
    var s := After(c, Initial(c), run);
    Quiescent(s) && !s.q.shuttingDown ==> Metrics.Run(s.ops, ransomware).gauges == WantedGauges(c, s, ransomware)
  }

  ghost predicate EndsDecoded(c: Config, run: seq<Step>)
    requires Possible(c, Initial(c), run)
  {
    AllDecode(c, After(c, Initial(c), run))
  }

  ghost predicate LatelyHonest(c: Config, run: seq<Step>) {
    Possible(c, Initial(c), run) && HonestLately(c, Initial(c), run)
  }

  /** Exactly when gauge values converge whatever changes come to the cluster, on every run with
      no lie since the last new marker and no object that fails to decode at its end: when there
      is at most one worker. The default is two; which changes keep the values right then is
      said in Sharing. */
  lemma OneWorkerExactly(c: Config, a: Key, b: Key, ransomware: bool)
    requires a != b && InScope(c.allow, a) && InScope(c.allow, b)
    ensures (forall run | LatelyHonest(c, run) && EndsDecoded(c, run) :: EndsRight(c, run, ransomware))
       <==> c.workers <= 1
  {
    if c.workers <= 1 {
      forall run | LatelyHonest(c, run) && EndsDecoded(c, run)
        ensures EndsRight(c, run, ransomware)
      {
        var s := After(c, Initial(c), run);
        if Quiescent(s) && !s.q.shuttingDown {
          DecodedNotOrphaned(c, run);
          ValuesConverge(c, run, ransomware);
        }
      }
    } else {
      var rep, r1, r2, l := SomeConflict(c, a, b);
      var run, s := TwoWorkersGoStale(c, a, rep, b, rep, r1, r2, l);
      Metrics.RunExact(s.ops, ransomware);
      assert LatelyHonest(c, run) && EndsDecoded(c, run) && !EndsRight(c, run, ransomware);
    }
  }

  /** In particular with the default number of workers, which is two. */
  lemma DefaultGoesStale(c: Config, option: int, a: Key, b: Key, ransomware: bool)
    requires option <= 0 && c.workers == WorkerCount(option)
    requires a != b && InScope(c.allow, a) && InScope(c.allow, b)
    ensures c.workers == 2
    ensures exists run :: LatelyHonest(c, run) && EndsDecoded(c, run) && !EndsRight(c, run, ransomware)
  {
    OneWorkerExactly(c, a, b, ransomware);
  }

  /** Of all worker options exactly the option of one worker keeps the values right. */
  lemma OptionExactly(c: Config, option: int, a: Key, b: Key, ransomware: bool)
    requires c.workers == WorkerCount(option)
    requires a != b && InScope(c.allow, a) && InScope(c.allow, b)
    ensures option > 0 ==> c.workers == option
    ensures (forall run | LatelyHonest(c, run) && EndsDecoded(c, run) :: EndsRight(c, run, ransomware)) <==> option == 1
  {
    OneWorkerExactly(c, a, b, ransomware);
  }

  /** One worker enriches a new report under the installed snapshots, and nothing is left to do. */
  lemma EnrichedOnce(c: Config, run: seq<Step>, s: State, key: Key, rep: VulnerabilityReport)
    returns (run': seq<Step>, s': State)
    requires Reached(c, run, s, true) && c.workers >= 1 && InScope(c.allow, key)
    requires s == Initial(c).(sync := Synced, epss := s.epss, kev := s.kev)
    ensures Reached(c, run', s', true)
    ensures s' == s.(cache := map[key := Decoded(rep)],
                     ops := [Set(key, Contribution(c.rollup, rep, CurrentEpss(s), CurrentKev(s)))])
  {
    run', s' := Appear(c, run, s, key, Decoded(rep), true);
    assert s'.q.queue == [key];
    run', s' := Begin(c, run', s', 0, rep, true);
    run', s' := End(c, run', s', 0, true);
    assert s'.q == EMPTY_QUEUE;
    assert s'.workers == Initial(c).workers;
  }

  // ----- An object that stops decoding -----

  /** A report that is replaced by one that does not decode keeps its old tuples, so convergence
      has to ask that cached objects decode. */
  lemma MalformedKeepsSeries(c: Config, key: Key, rep: VulnerabilityReport, r: Loaded<Epss.Snapshot>)
    returns (run: seq<Step>, s: State)
    requires c.workers >= 1 && InScope(c.allow, key) && EpssLoadOk(r)
    ensures Reached(c, run, s, true) && Quiescent(s) && !s.q.shuttingDown
    ensures s.cache == map[key := Malformed] && WantedOwners(c, s) == map[]
    ensures Owned(s.ops, key) == TuplesOf(c, rep)
  {
    run, s := Boot(c, r);
    run, s := EnrichedOnce(c, run, s, key, rep);
    run, s := Appear(c, run, s, key, Malformed, true);
    assert s.q.queue == [key];
    run, s := SkipTurn(c, run, s, 0, true);
    assert s.q == EMPTY_QUEUE;
    assert s.cache == map[key := Malformed];
    ContributionTuples(c, rep, Some(r.snap), None);
  }
}
