/** What skipping a sweep costs. A load under the marker of the last one is installed and not
    swept, on the word that equal markers mean equal data. Here is, for each feed, exactly when
    the gauges are right afterwards, and a run on which they are not. */
module Markers {
  import opened Base
  import opened App
  import opened Controller
  import opened Convergence
  import opened Enrich
  import opened Feeds
  import opened Freshness
  import opened Ledger
  import opened Protocol
  import opened Queue
  import opened Report
  import opened Values
  import opened Witness
  import Epss
  import Kev
  import Metrics

  // ----- When two states want the same gauges -----

  /** The two series agree in every enabled gauge. */
  predicate SameShown(a: Series, b: Series, ransomware: bool) {
    && a.epssScore == b.epssScore && a.epssPercentile == b.epssPercentile && a.kev == b.kev
    && (ransomware ==> a.kevRansomware == b.kevRansomware)
  }

  lemma WantedAlike(c: Config, s: State, s': State, ransomware: bool)
    requires s'.cache == s.cache
    ensures WantedGauges(c, s, ransomware) == WantedGauges(c, s', ransomware)
       <==> forall l | l in Live(WantedOwners(c, s)) :: SameShown(Wanted(s, l), Wanted(s', l), ransomware)
  {
    forall f
      ensures WantedGauge(c, s, f) == WantedGauge(c, s', f) <==> FieldAlike(c, s, s', f)
    {
      WantedFieldAlike(c, s, s', f);
    }
    AlikeByField(c, s, s', ransomware);
  }

  predicate FieldAlike(c: Config, s: State, s': State, f: Field) {
    forall l | l in Live(WantedOwners(c, s)) :: FieldOf(Wanted(s, l), f) == FieldOf(Wanted(s', l), f)
  }

  lemma AlikeByField(c: Config, s: State, s': State, ransomware: bool)
    ensures (forall l | l in Live(WantedOwners(c, s)) :: SameShown(Wanted(s, l), Wanted(s', l), ransomware))
       <==> && FieldAlike(c, s, s', EpssScore) && FieldAlike(c, s, s', EpssPercentile) && FieldAlike(c, s, s', KevFlag)
            && (ransomware ==> FieldAlike(c, s, s', Ransomware))
  {
    forall l
      ensures SameShown(Wanted(s, l), Wanted(s', l), ransomware)
         <==> forall f | f == Ransomware ==> ransomware :: FieldOf(Wanted(s, l), f) == FieldOf(Wanted(s', l), f)
    {
      SameShownByField(Wanted(s, l), Wanted(s', l), ransomware);
    }
  }

  lemma SameShownByField(a: Series, b: Series, ransomware: bool)
    ensures SameShown(a, b, ransomware) <==> forall f | f == Ransomware ==> ransomware :: FieldOf(a, f) == FieldOf(b, f)
  {
    assert FieldOf(a, EpssScore) == a.epssScore && FieldOf(a, EpssPercentile) == a.epssPercentile;
    assert FieldOf(a, KevFlag) == a.kev && FieldOf(a, Ransomware) == a.kevRansomware;
  }

  lemma WantedFieldAlike(c: Config, s: State, s': State, f: Field)
    requires s'.cache == s.cache
    ensures WantedGauge(c, s, f) == WantedGauge(c, s', f)
       <==> FieldAlike(c, s, s', f)
  {
    var a, b := WantedGauge(c, s, f), WantedGauge(c, s', f);
    assert a.Keys == b.Keys == Live(WantedOwners(c, s));
    if a == b {
      forall l | l in Live(WantedOwners(c, s))
        ensures FieldOf(Wanted(s, l), f) == FieldOf(Wanted(s', l), f)
      {
        assert a[l] == b[l];
      }
    }
  }

  // ----- EPSS -----

  /** The new data scores the tuple as the old does. */
  predicate SameScores(s: State, r: Loaded<Epss.Snapshot>, l: Labels) {
    var before, after := SeriesFor(l, CurrentEpss(s), None), SeriesFor(l, Some(r.snap), None);
    before.epssScore == after.epssScore && before.epssPercentile == after.epssPercentile
  }

  lemma ScoresAlike(s: State, s': State, r: Loaded<Epss.Snapshot>, l: Labels, ransomware: bool)
    requires s' == s.(epss := Feed(Some(r), true, true, r.marker, Waiting))
    ensures SameShown(Wanted(s, l), Wanted(s', l), ransomware) <==> SameScores(s, r, l)
  {
  }

  /** Exactly when skipping an EPSS sweep is right. From any quiescent state with right gauges,
      however it was reached, loading EPSS data under the unchanged marker installs it without a
      sweep; the gauges are then right if and only if the new data scores every shown tuple as
      the old did. */
  lemma SkippedSweepExact(c: Config, run: seq<Step>, s: State, r: Loaded<Epss.Snapshot>, ransomware: bool)
    returns (run': seq<Step>, s': State)
    requires Reached(c, run, s, false) && Quiescent(s) && s.epss.phase.Waiting?
    requires Metrics.Run(s.ops, ransomware).gauges == WantedGauges(c, s, ransomware)
    requires EpssLoadOk(r) && !Changed(s.epss.have, s.epss.last, r.marker)
    ensures Reached(c, run', s', false) && Quiescent(s')
    ensures s' == s.(epss := Feed(Some(r), true, true, r.marker, Waiting))
    ensures Metrics.Run(s'.ops, ransomware).gauges == WantedGauges(c, s', ransomware)
       <==> forall l | l in Live(WantedOwners(c, s)) :: SameScores(s, r, l)
  {
    run', s' := Install(c, run, s, r, false);
    run', s' := Take(c, run', s', EpssStep(Decide), false);
    WantedAlike(c, s, s', ransomware);
    forall l
      ensures SameShown(Wanted(s, l), Wanted(s', l), ransomware) <==> SameScores(s, r, l)
    {
      ScoresAlike(s, s', r, l, ransomware);
    }
  }

  /** A report enriched under the first load, and then the second installed without a sweep. */
  lemma Swapped(c: Config, key: Key, rep: VulnerabilityReport, r1: Loaded<Epss.Snapshot>, r2: Loaded<Epss.Snapshot>)
    returns (run: seq<Step>, s: State)
    requires c.workers >= 1 && InScope(c.allow, key)
    requires EpssLoadOk(r1) && EpssLoadOk(r2) && r1.marker == r2.marker && r1.marker != NO_MARKER
    ensures Reached(c, run, s, false)
    ensures s == Initial(c).(sync := Synced, epss := Feed(Some(r2), true, true, r2.marker, Waiting),
                             cache := map[key := Decoded(rep)],
                             ops := [Set(key, Contribution(c.rollup, rep, Some(r1.snap), None))])
  {
    run, s := Boot(c, r1);
    run, s := EnrichedOnce(c, run, s, key, rep);
    run, s := Install(c, run, s, r2, false);
    run, s := Take(c, run, s, EpssStep(Decide), false);
  }

  /** Even with one worker, EPSS data that changes under an unchanged marker leaves a gauge stale:
      the new snapshot is installed, no sweep follows, and the old score stays. */
  lemma LyingMarkerGoesStale(c: Config, key: Key, rep: VulnerabilityReport, r1: Loaded<Epss.Snapshot>,
                             r2: Loaded<Epss.Snapshot>, l: Labels)
    returns (run: seq<Step>, s: State)
    requires c.workers >= 1 && InScope(c.allow, key) && l in TuplesOf(c, rep)
    requires EpssLoadOk(r1) && EpssLoadOk(r2) && r1.marker == r2.marker && r1.marker != NO_MARKER
    requires SeriesFor(l, Some(r1.snap), None).epssScore != SeriesFor(l, Some(r2.snap), None).epssScore
    ensures Reached(c, run, s, false) && Quiescent(s) && !s.q.shuttingDown && AllDecode(c, s)
    ensures OwnersOf(s.ops) == WantedOwners(c, s)
    ensures l in Gauge(s.ops, EpssScore) && l in WantedGauge(c, s, EpssScore)
    ensures Gauge(s.ops, EpssScore)[l] != WantedGauge(c, s, EpssScore)[l]
  {
    run, s := Swapped(c, key, rep, r1, r2);
    OneReportShown(c, run, s, key, rep, Some(r1.snap), None, l, EpssScore);
  }

  /** A single cached report's tuple shows what its one enrichment wrote. */
  lemma OneReportShown(c: Config, run: seq<Step>, s: State, key: Key, rep: VulnerabilityReport, e: EpssNow, k: KevNow,
                       l: Labels, f: Field)
    requires Reached(c, run, s, false) && Quiescent(s) && !s.q.shuttingDown
    requires InScope(c.allow, key) && s.cache == map[key := Decoded(rep)] && l in TuplesOf(c, rep)
    requires s.ops == [Set(key, Contribution(c.rollup, rep, e, k))]
    ensures AllDecode(c, s) && OwnersOf(s.ops) == WantedOwners(c, s)
    ensures l in Gauge(s.ops, f) && Gauge(s.ops, f)[l] == FieldOf(SeriesFor(l, e, k), f)
    ensures l in WantedGauge(c, s, f) && WantedGauge(c, s, f)[l] == FieldOf(Wanted(s, l), f)
  {
    OneReportOwned(c, run, s, key, rep, l);
    WrittenOnce(c, key, rep, e, k, l);
    assert LastWrite(s.ops, l) == Some(SeriesFor(l, e, k));
  }

  lemma OneReportOwned(c: Config, run: seq<Step>, s: State, key: Key, rep: VulnerabilityReport, l: Labels)
    requires Reached(c, run, s, false) && QueueQuiet(s) && !s.q.shuttingDown
    requires InScope(c.allow, key) && s.cache == map[key := Decoded(rep)] && l in TuplesOf(c, rep)
    ensures AllDecode(c, s) && OwnersOf(s.ops) == WantedOwners(c, s) && l in Live(OwnersOf(s.ops))
  {
    OwnersConverge(c, run, true);
    Metrics.RunExact(s.ops, true);
    assert key in WantedOwners(c, s) && l in WantedOwners(c, s)[key];
  }

  lemma WrittenOnce(c: Config, key: Key, rep: VulnerabilityReport, e: EpssNow, k: KevNow, l: Labels)
    requires l in TuplesOf(c, rep)
    ensures LastWrite([Set(key, Contribution(c.rollup, rep, e, k))], l) == Some(SeriesFor(l, e, k))
  {
    var op := Set(key, Contribution(c.rollup, rep, e, k));
    ContributionTuples(c, rep, e, k);
    LastInFound(op.series, l);
    assert LastWrite([op], l) == LastIn(op.series, l);
  }

  /** Such loads exist. */
  lemma SomeLyingMarker(c: Config)
    returns (rep: VulnerabilityReport, r1: Loaded<Epss.Snapshot>, r2: Loaded<Epss.Snapshot>, l: Labels)
    ensures l in TuplesOf(c, rep)
    ensures EpssLoadOk(r1) && EpssLoadOk(r2) && r1.marker == r2.marker && r1.marker != NO_MARKER
    ensures SeriesFor(l, Some(r1.snap), None).epssScore != SeriesFor(l, Some(r2.snap), None).epssScore
  {
    rep, l := SomeTuple(c);
    var marker := ("v1", "2026-06-16");
    r1 := Loaded(marker, Epss.Snapshot(map[l.cve := Epss.Score(ZERO, ZERO)], marker.0, marker.1));
    r2 := Loaded(marker, Epss.Snapshot(map[l.cve := Epss.Score(ONE, ONE)], marker.0, marker.1));
    assert l.cve in r1.snap.scores && l.cve in r2.snap.scores;
    assert |marker.0| != |NO_MARKER.0|;
  }

  // ----- KEV -----

  lemma InstallCatalog(c: Config, run: seq<Step>, s: State, r: Loaded<Kev.Snapshot>, honest: bool)
    returns (run': seq<Step>, s': State)
    requires Reached(c, run, s, honest) && s.kev.phase.Waiting? && KevLoadOk(r)
    requires honest ==> Changed(s.kev.have, s.kev.last, r.marker)
    ensures Reached(c, run', s', honest)
    ensures s' == s.(kev := s.kev.(installed := Some(r), loaded := true, phase := Flagged(r.marker)))
  {
    run', s' := Take(c, run, s, KevStep(Loads(r)), honest);
    run', s' := Take(c, run', s', KevStep(Store), honest);
    run', s' := Take(c, run', s', KevStep(SetLoaded), honest);
  }

  /** Start-up: the cache syncs empty and the first catalog is loaded and swept. */
  lemma BootCatalog(c: Config, r: Loaded<Kev.Snapshot>) returns (run: seq<Step>, s: State)
    requires KevLoadOk(r)
    ensures Reached(c, run, s, true)
    ensures s == Initial(c).(sync := Synced, kev := Feed(Some(r), true, true, r.marker, Waiting))
  {
    run, s := [], Initial(c);
    run, s := Take(c, run, s, SyncDone, true);
    run, s := InstallCatalog(c, run, s, r, true);
    run, s := Take(c, run, s, KevStep(Decide), true);
    run, s := Take(c, run, s, KevStep(List), true);
    assert s.kev.phase.keys == {};
    run, s := Take(c, run, s, KevStep(EndSweep), true);
  }

  /** The new catalog lists and flags the tuple's CVE as the old does; the flag matters only when
      its gauge is enabled. */
  predicate SameFlags(s: State, r: Loaded<Kev.Snapshot>, l: Labels, ransomware: bool) {
    && (Kev.Has(CurrentKev(s), l.cve) <==> Kev.Has(Some(r.snap), l.cve))
    && (ransomware ==> (Kev.IsRansomware(CurrentKev(s), l.cve) <==> Kev.IsRansomware(Some(r.snap), l.cve)))
  }

  lemma FlagsAlike(s: State, s': State, r: Loaded<Kev.Snapshot>, l: Labels, ransomware: bool)
    requires s' == s.(kev := Feed(Some(r), true, true, r.marker, Waiting))
    ensures SameShown(Wanted(s, l), Wanted(s', l), ransomware) <==> SameFlags(s, r, l, ransomware)
  {
  }

  /** Exactly when skipping a KEV sweep is right: when the new catalog lists every shown CVE that
      the old one does and no other, and flags the same ones if that is shown. */
  lemma SkippedCatalogExact(c: Config, run: seq<Step>, s: State, r: Loaded<Kev.Snapshot>, ransomware: bool)
    returns (run': seq<Step>, s': State)
    requires Reached(c, run, s, false) && Quiescent(s) && s.kev.phase.Waiting?
    requires Metrics.Run(s.ops, ransomware).gauges == WantedGauges(c, s, ransomware)
    requires KevLoadOk(r) && !Changed(s.kev.have, s.kev.last, r.marker)
    ensures Reached(c, run', s', false) && Quiescent(s')
    ensures s' == s.(kev := Feed(Some(r), true, true, r.marker, Waiting))
    ensures Metrics.Run(s'.ops, ransomware).gauges == WantedGauges(c, s', ransomware)
       <==> forall l | l in Live(WantedOwners(c, s)) :: SameFlags(s, r, l, ransomware)
  {
    run', s' := InstallCatalog(c, run, s, r, false);
    run', s' := Take(c, run', s', KevStep(Decide), false);
    WantedAlike(c, s, s', ransomware);
    forall l
      ensures SameShown(Wanted(s, l), Wanted(s', l), ransomware) <==> SameFlags(s, r, l, ransomware)
    {
      FlagsAlike(s, s', r, l, ransomware);
    }
  }

  /** A report enriched under the first load, and then the second installed without a sweep. */
  lemma SwappedCatalog(c: Config, key: Key, rep: VulnerabilityReport, r1: Loaded<Kev.Snapshot>,
                       r2: Loaded<Kev.Snapshot>)
    returns (run: seq<Step>, s: State)
    requires c.workers >= 1 && InScope(c.allow, key)
    requires KevLoadOk(r1) && KevLoadOk(r2) && r1.marker == r2.marker && r1.marker != NO_MARKER
    ensures Reached(c, run, s, false)
    ensures s == Initial(c).(sync := Synced, kev := Feed(Some(r2), true, true, r2.marker, Waiting),
                             cache := map[key := Decoded(rep)],
                             ops := [Set(key, Contribution(c.rollup, rep, None, Some(r1.snap)))])
  {
    run, s := BootCatalog(c, r1);
    run, s := EnrichedOnce(c, run, s, key, rep);
    run, s := InstallCatalog(c, run, s, r2, false);
    run, s := Take(c, run, s, KevStep(Decide), false);
  }

  /** A catalog that changes under an unchanged marker leaves the KEV gauge stale. */
  lemma LyingCatalogGoesStale(c: Config, key: Key, rep: VulnerabilityReport, r1: Loaded<Kev.Snapshot>,
                              r2: Loaded<Kev.Snapshot>, l: Labels)
    returns (run: seq<Step>, s: State)
    requires c.workers >= 1 && InScope(c.allow, key) && l in TuplesOf(c, rep)
    requires KevLoadOk(r1) && KevLoadOk(r2) && r1.marker == r2.marker && r1.marker != NO_MARKER
    requires Kev.Has(Some(r1.snap), l.cve) != Kev.Has(Some(r2.snap), l.cve)
    ensures Reached(c, run, s, false) && Quiescent(s) && !s.q.shuttingDown && AllDecode(c, s)
    ensures OwnersOf(s.ops) == WantedOwners(c, s)
    ensures l in Gauge(s.ops, KevFlag) && l in WantedGauge(c, s, KevFlag)
    ensures Gauge(s.ops, KevFlag)[l] != WantedGauge(c, s, KevFlag)[l]
  {
    run, s := SwappedCatalog(c, key, rep, r1, r2);
    OneReportShown(c, run, s, key, rep, None, Some(r1.snap), l, KevFlag);
  }

  /** Such catalogs exist: one lists the CVE, the other does not yet. */
  lemma SomeLyingCatalog(c: Config)
    returns (rep: VulnerabilityReport, r1: Loaded<Kev.Snapshot>, r2: Loaded<Kev.Snapshot>, l: Labels)
    ensures l in TuplesOf(c, rep)
    ensures KevLoadOk(r1) && KevLoadOk(r2) && r1.marker == r2.marker && r1.marker != NO_MARKER
    ensures !Kev.Has(Some(r1.snap), l.cve) && Kev.Has(Some(r2.snap), l.cve)
  {
    rep, l := SomeTuple(c);
    var marker := ("2026.06.16", "");
    var other := l.cve + "0";
    assert |other| != |l.cve|;
    r1 := Loaded(marker, Kev.Snapshot({other}, {}, marker.0, marker.1));
    r2 := Loaded(marker, Kev.Snapshot({l.cve, other}, {}, marker.0, marker.1));
    assert other in r1.snap.present && other in r2.snap.present;
    assert |marker.0| != |NO_MARKER.0|;
  }
}
