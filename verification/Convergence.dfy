/** Convergence: what the store shows once nothing is left to do. */
module Convergence {
  import opened Base
  import opened Cluster
  import opened Controller
  import opened Enrich
  import opened Feeds
  import opened Freshness
  import opened Ledger
  import opened Protocol
  import opened Queue
  import opened Safety
  import opened Values
  import Metrics

  /** No notification undelivered, and nothing queued, held or waiting for a retry. */
  predicate QueueQuiet(s: State) {
    s.pending == [] && s.q.dirty == {} && s.q.processing == {} && s.q.delayed == {}
  }

  /** No refresher between writing its pointer and the end of its sweep. */
  predicate FeedQuiet<S>(f: Feed<S>) {
    f.phase.Waiting? || f.phase.Fetched?
  }

  predicate Quiescent(s: State) {
    QueueQuiet(s) && FeedQuiet(s.epss) && FeedQuiet(s.kev)
  }

  predicate AllDecode(c: Config, s: State) {
    forall key | key in s.cache && InScope(c.allow, key) :: s.cache[key].Decoded?
  }

  /** The owners the cache calls for: each in-scope cached report's tuples under its key. */
  function WantedOwners(c: Config, s: State): Owners {
    map key | key in s.cache && InScope(c.allow, key) && s.cache[key].Decoded? && TuplesOf(c, s.cache[key].rep) != {}
      :: TuplesOf(c, s.cache[key].rep)
  }

  /** The gauge the cache and the installed snapshots call for. */
  function WantedGauge(c: Config, s: State, f: Field): map<Labels, Float> {
    map l | l in Live(WantedOwners(c, s)) :: FieldOf(Wanted(s, l), f)
  }

  function WantedGauges(c: Config, s: State, ransomware: bool): Metrics.Gauges {
    Metrics.Gauges(WantedGauge(c, s, EpssScore), WantedGauge(c, s, EpssPercentile), WantedGauge(c, s, KevFlag),
                   if ransomware then Some(WantedGauge(c, s, Ransomware)) else None)
  }

  /** Key sets converge, for any number of workers, any loads and any indexer failures that
      have been retried: with nothing queued, every in-scope key contributes exactly the tuples
      of its cached report, and keys that are not cached or not in scope contribute nothing. */
  lemma KeySetsConverge(c: Config, steps: seq<Step>, key: Key)
    requires Possible(c, Initial(c), steps)
    requires var s := After(c, Initial(c), steps); !s.q.shuttingDown && QueueQuiet(s)
    ensures var s := After(c, Initial(c), steps);
            && (InScope(c.allow, key) && key in s.cache && s.cache[key].Decoded? ==>
                 Owned(s.ops, key) == TuplesOf(c, s.cache[key].rep))
            && (key !in s.cache || !InScope(c.allow, key) ==> Owned(s.ops, key) == {})
  {
    var s := After(c, Initial(c), steps);
    InitialInv(c, false);
    RunKeeps(c, Initial(c), steps, false);
    AllowlistSafety(c, steps, key);
    if InScope(c.allow, key) {
      assert Fine(c, s, key, false);
      assert UpToDate(c, s, key, false);
    }
  }

  /** Nothing but an object that stopped decoding can make the owners wrong: with nothing queued
      they are those the cache calls for exactly when no key whose cached object does not
      decode still holds tuples from an earlier version. */
  lemma OwnersExactly(c: Config, steps: seq<Step>)
    requires Possible(c, Initial(c), steps)
    requires var s := After(c, Initial(c), steps); !s.q.shuttingDown && QueueQuiet(s)
    ensures var s := After(c, Initial(c), steps);
            OwnersOf(s.ops) == WantedOwners(c, s) <==>
              forall key | key in s.cache && s.cache[key].Malformed? :: Owned(s.ops, key) == {}
  {
    var s := After(c, Initial(c), steps);
    OwnersAre(s.ops);
    forall key
      ensures Lookup(OwnersOf(s.ops), key) == Lookup(WantedOwners(c, s), key)
         <==> (key in s.cache && s.cache[key].Malformed? ==> Owned(s.ops, key) == {})
    {
      KeySetsConverge(c, steps, key);
    }
    if forall key | key in s.cache && s.cache[key].Malformed? :: Owned(s.ops, key) == {} {
      SameLookups(OwnersOf(s.ops), WantedOwners(c, s));
    }
  }

  /** When every in-scope cached object decodes, the store's owners, counts and gauge keys are
      those the cache calls for. */
  lemma OwnersConverge(c: Config, steps: seq<Step>, ransomware: bool)
    requires Possible(c, Initial(c), steps)
    requires var s := After(c, Initial(c), steps); !s.q.shuttingDown && QueueQuiet(s) && AllDecode(c, s)
    ensures var s := After(c, Initial(c), steps);
            var st := Metrics.Run(s.ops, ransomware);
            && st.owners == WantedOwners(c, s) && st.refs == RefCounts(WantedOwners(c, s))
            && Metrics.HasKeys(st.gauges, Live(WantedOwners(c, s)))
  {
    var s := After(c, Initial(c), steps);
    Metrics.RunExact(s.ops, ransomware);
    OwnersExactly(c, steps);
    forall key | key in s.cache && s.cache[key].Malformed?
      ensures Owned(s.ops, key) == {}
    {
      KeySetsConverge(c, steps, key);
    }
  }

  lemma SameLookups(a: Owners, b: Owners)
    requires forall key :: Lookup(a, key) == Lookup(b, key)
    ensures a == b
  {
    assert forall key :: key in a <==> Lookup(a, key).Some?;
    assert forall key :: key in b <==> Lookup(b, key).Some?;
    assert a.Keys == b.Keys;
    forall key | key in a
      ensures a[key] == b[key]
    {
      assert Lookup(a, key) == Lookup(b, key);
    }
  }

  /** Freshness across a snapshot swap, for any number of workers: an in-scope key that is not up
      to date with the cache and the installed snapshots is queued, notified, waiting for a
      retry, due in a sweep, or in a worker's hands; and a worker whose reads no longer stand, of
      the report or of a snapshot, or that finished without bringing its key up to date, holds a
      key that is due again. */
  lemma NotFreshIsDue(c: Config, steps: seq<Step>, key: Key, i: nat)
    requires Possible(c, Initial(c), steps) && HonestLately(c, Initial(c), steps)
    requires !After(c, Initial(c), steps).q.shuttingDown && InScope(c.allow, key)
    ensures var s := After(c, Initial(c), steps);
            && (!UpToDate(c, s, key, true) ==> Due(s, key, true) || key in s.q.processing)
            && (Holds(s, i, key) && !ReadsStand(c, s, s.workers[i], true) ==> Due(s, key, true))
  {
    LatelyKeeps(c, steps);
    assert Fine(c, After(c, Initial(c), steps), key, true);
  }

  // ----- Values -----

  /** One worker: every tuple of a cached in-scope report shows its enrichment. */
  lemma OneWorkerConverges(c: Config, steps: seq<Step>, key: Key, l: Labels)
    requires c.workers <= 1 && Possible(c, Initial(c), steps) && HonestLately(c, Initial(c), steps)
    requires var s := After(c, Initial(c), steps);
             !s.q.shuttingDown && Quiescent(s) && InScope(c.allow, key) && CachedWith(c, s, key, l)
    ensures var s := After(c, Initial(c), steps); LastWrite(s.ops, l) == Some(Wanted(s, l))
  {
    var s := After(c, Initial(c), steps);
    LatelyKeepsValues(c, steps);
    assert Shown(c, s, key, l);
    assert forall i: nat :: !Holds(s, i, key);
  }

  /** A fresh key's own latest series of a tuple is the one wanted. */
  lemma FreshSeries(c: Config, s: State, key: Key, l: Labels)
    requires UpToDate(c, s, key, true) && CachedWith(c, s, key, l)
    ensures LastOp(s.ops, key).Some? && LastOp(s.ops, key).value.Set?
    ensures LastIn(LastOp(s.ops, key).value.series, l) == Some(Wanted(s, l))
  {
    var rep := s.cache[key].rep;
    ContributionTuples(c, rep, CurrentEpss(s), CurrentKev(s));
    LastInFound(Contribution(c.rollup, rep, CurrentEpss(s), CurrentKev(s)), l);
  }

  /** Any number of workers: the report that wrote the tuple last still contributes it, because
      it was once given the tuple and no such report gives it up; so what it wrote is fresh. */
  lemma SharersConverge(c: Config, steps: seq<Step>, key: Key, l: Labels)
    requires Possible(c, Initial(c), steps) && HonestLately(c, Initial(c), steps)
    requires forall n: nat :: !DropsShared(c, Changes(steps), n, key, l)
    requires var s := After(c, Initial(c), steps);
             !s.q.shuttingDown && Quiescent(s) && InScope(c.allow, key) && CachedWith(c, s, key, l)
    ensures var s := After(c, Initial(c), steps); LastWrite(s.ops, l) == Some(Wanted(s, l))
  {
    var s := After(c, Initial(c), steps);
    KeySetsConverge(c, steps, key);
    LastWriterShown(s.ops, l);
    LastWriteFound(s.ops, l);
    var u := LastWriter(s.ops, l).value;
    LastWriterCached(c, steps, key, l, u);
    KeySetsConverge(c, steps, u);
    NotFreshIsDue(c, steps, u, 0);
    FreshSeries(c, s, u, l);
  }

  lemma LastWriterCached(c: Config, steps: seq<Step>, key: Key, l: Labels, u: Key)
    requires Possible(c, Initial(c), steps) && InScope(c.allow, key)
    requires CachedWith(c, After(c, Initial(c), steps), key, l)
    requires forall n: nat :: !DropsShared(c, Changes(steps), n, key, l)
    requires LastWriter(After(c, Initial(c), steps).ops, l) == Some(u)
    ensures InScope(c.allow, u) && CachedWith(c, After(c, Initial(c), steps), u, l)
  {
    var s := After(c, Initial(c), steps);
    LastWriterShown(s.ops, l);
    var op :| op in s.ops && op.uid == u && l in Contributed(op);
    RunSafe(c, Initial(c), steps);
    var n := WrittenWasGiven(c, steps, op, l);
    CacheFollows(c, Initial(c), steps);
    assert !DropsShared(c, Changes(steps), n, key, l);
  }

  /** Values converge, tuple by tuple, if no marker has lied since the last new one. With one
      worker, or unless another report gave up the tuple that this one ends up with, the tuple
      shows its enrichment under the installed snapshots, whatever reports share it and whatever
      objects under other keys fail to decode. */
  lemma TupleConverges(c: Config, steps: seq<Step>, key: Key, l: Labels)
    requires Possible(c, Initial(c), steps) && HonestLately(c, Initial(c), steps)
    requires c.workers <= 1 || forall n: nat :: !DropsShared(c, Changes(steps), n, key, l)
    requires var s := After(c, Initial(c), steps);
             !s.q.shuttingDown && Quiescent(s) && InScope(c.allow, key) && CachedWith(c, s, key, l)
    ensures var s := After(c, Initial(c), steps);
            LastWrite(s.ops, l) == Some(Wanted(s, l)) && l in Live(OwnersOf(s.ops))
  {
    if c.workers <= 1 {
      OneWorkerConverges(c, steps, key, l);
    } else {
      SharersConverge(c, steps, key, l);
    }
    KeySetsConverge(c, steps, key);
    LiveIffOwned(After(c, Initial(c), steps).ops, l);
  }

  /** A tuple is live at quiescence exactly when some in-scope cached report contributes it,
      unless an object that stopped decoding still holds a tuple no other report has. */
  lemma LiveConverges(c: Config, steps: seq<Step>, l: Labels)
    requires Possible(c, Initial(c), steps) && NoneOrphaned(c, Changes(steps))
    requires var s := After(c, Initial(c), steps); !s.q.shuttingDown && QueueQuiet(s)
    ensures var s := After(c, Initial(c), steps); l in Live(OwnersOf(s.ops)) <==> l in Live(WantedOwners(c, s))
  {
    var s := After(c, Initial(c), steps);
    CacheFollows(c, Initial(c), steps);
    LiveIffOwned(s.ops, l);
    if u :| l in Owned(s.ops, u) {
      KeySetsConverge(c, steps, u);
      if CachedWith(c, s, u, l) {
        assert u in WantedOwners(c, s) && l in WantedOwners(c, s)[u];
      } else {
        LastOpMember(s.ops, u);
        var n := WrittenWasGiven(c, steps, LastOp(s.ops, u).value, l);
        assert !Orphans(c, Changes(steps), n, l);
        var b :| EndsWith(c, Changes(steps), b, l);
        assert b in WantedOwners(c, s) && l in WantedOwners(c, s)[b];
      }
    }
    if l in Live(WantedOwners(c, s)) {
      var key :| key in WantedOwners(c, s) && l in WantedOwners(c, s)[key];
      KeySetsConverge(c, steps, key);
    }
  }

  /** Value convergence: at quiescence every gauge is the enrichment of all in-scope cached
      reports under the installed snapshots, and nothing else, for one worker, and for any number
      unless some report gave up a tuple that another ends up with. */
  lemma ValuesConverge(c: Config, steps: seq<Step>, ransomware: bool)
    requires Possible(c, Initial(c), steps) && HonestLately(c, Initial(c), steps)
    requires c.workers <= 1 || NoneDropped(c, Changes(steps))
    requires NoneOrphaned(c, Changes(steps))
    requires var s := After(c, Initial(c), steps); !s.q.shuttingDown && Quiescent(s)
    ensures var s := After(c, Initial(c), steps);
            Metrics.Run(s.ops, ransomware).gauges == WantedGauges(c, s, ransomware)
  {
    var s := After(c, Initial(c), steps);
    Metrics.RunExact(s.ops, ransomware);
    forall l
      ensures l in Live(OwnersOf(s.ops)) <==> l in Live(WantedOwners(c, s))
      ensures l in Live(WantedOwners(c, s)) ==> LastWrite(s.ops, l) == Some(Wanted(s, l))
    {
      LiveConverges(c, steps, l);
      if l in Live(WantedOwners(c, s)) {
        var key :| key in WantedOwners(c, s) && l in WantedOwners(c, s)[key];
        TupleConverges(c, steps, key, l);
      }
    }
    forall f
      ensures Gauge(s.ops, f) == WantedGauge(c, s, f)
    {
      GaugeIsWanted(c, s, f);
    }
  }

  lemma GaugeIsWanted(c: Config, s: State, f: Field)
    requires forall l :: l in Live(OwnersOf(s.ops)) <==> l in Live(WantedOwners(c, s))
    requires forall l | l in Live(WantedOwners(c, s)) :: LastWrite(s.ops, l) == Some(Wanted(s, l))
    ensures Gauge(s.ops, f) == WantedGauge(c, s, f)
  {
    assert Live(OwnersOf(s.ops)) == Live(WantedOwners(c, s));
  }

  /** When every in-scope object decodes, nothing is orphaned. */
  lemma DecodedNotOrphaned(c: Config, steps: seq<Step>)
    requires Possible(c, Initial(c), steps) && AllDecode(c, After(c, Initial(c), steps))
    ensures NoneOrphaned(c, Changes(steps))
  {
    CacheFollows(c, Initial(c), steps);
  }
}
