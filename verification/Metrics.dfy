/** The series store: report ownership, reference counts and the gauges, updated in place. */
module Metrics {
  import opened Base
  import opened Counts
  import opened Enrich
  import opened Ledger

  /** A gauge vector: its value for each tuple it has a series for. */
  type GaugeVec = map<Labels, Float>

  /** The four gauges; the ransomware gauge is absent when disabled. */
  datatype Gauges =
    Gauges(epssScore: GaugeVec, epssPercentile: GaugeVec, kev: GaugeVec, kevRansomware: Option<GaugeVec>)

  /** Every enabled gauge has a series for exactly these tuples. */
  predicate HasKeys(g: Gauges, ls: set<Labels>) {
    && g.epssScore.Keys == g.epssPercentile.Keys == g.kev.Keys == ls
    && (g.kevRansomware.Some? ==> g.kevRansomware.value.Keys == ls)
  }

  /** Every enabled gauge shows the value of sr for its tuple. */
  predicate ShowsSeries(g: Gauges, sr: Series) {
    && Lookup(g.epssScore, sr.labels) == Some(sr.epssScore)
    && Lookup(g.epssPercentile, sr.labels) == Some(sr.epssPercentile)
    && Lookup(g.kev, sr.labels) == Some(sr.kev)
    && (g.kevRansomware.Some? ==> Lookup(g.kevRansomware.value, sr.labels) == Some(sr.kevRansomware))
  }

  /** What the gauges must show after h. */
  function GaugesOf(h: History, ransomware: bool): Gauges {
    Gauges(Gauge(h, EpssScore), Gauge(h, EpssPercentile), Gauge(h, KevFlag),
           if ransomware then Some(Gauge(h, Ransomware)) else None)
  }

  /** A gauge after setting every series in turn. */
  function Written(g: GaugeVec, series: seq<Series>, f: Field): GaugeVec {
    if series == [] then g
    else
      var s := series[|series| - 1];
      Written(g, series[..|series| - 1], f)[s.labels := FieldOf(s, f)]
  }

  function WrittenAll(g: Gauges, series: seq<Series>): Gauges {
    Gauges(Written(g.epssScore, series, EpssScore), Written(g.epssPercentile, series, EpssPercentile),
           Written(g.kev, series, KevFlag),
           if g.kevRansomware.None? then None else Some(Written(g.kevRansomware.value, series, Ransomware)))
  }

  function Without(g: Gauges, gone: set<Labels>): Gauges {
    Gauges(g.epssScore - gone, g.epssPercentile - gone, g.kev - gone,
           if g.kevRansomware.None? then None else Some(g.kevRansomware.value - gone))
  }

  lemma {:induction false} WrittenLookup(g: GaugeVec, series: seq<Series>, f: Field)
    ensures Written(g, series, f).Keys == g.Keys + LabelSet(series)
    ensures forall l :: Lookup(Written(g, series, f), l)
              == if LastIn(series, l).Some? then Some(FieldOf(LastIn(series, l).value, f)) else Lookup(g, l)
  {
    forall l
      ensures LastIn(series, l).Some? <==> l in LabelSet(series)
    {
      LastInFound(series, l);
    }
    if series != [] {
      var init := series[..|series| - 1];
      WrittenLookup(g, init, f);
      assert series == init + [series[|series| - 1]];
      forall l
        ensures LastIn(init, l).Some? <==> l in LabelSet(init)
      {
        LastInFound(init, l);
      }
    }
  }

  /** The counts after adding the references an operation gains and dropping those it loses. */
  lemma CountsMove(h: History, op: Op)
    ensures var before, after := Owned(h, op.uid), Contributed(op);
            RefCounts(OwnersOf(h + [op]))
              == DecAll(IncAll(RefCounts(OwnersOf(h)), after - before), before - after)
  {
    var own, own', before, after := OwnersOf(h), OwnersOf(h + [op]), Owned(h, op.uid), Contributed(op);
    forall l
      ensures RefCount(own', l) == RefCount(own, l) + (if l in after then 1 else 0) - (if l in before then 1 else 0)
    {
      RefCountStep(h, op, l);
    }
    AllCountsMove(own, own', before, after);
  }

  lemma AllCountsMove(own: Owners, own': Owners, before: set<Labels>, after: set<Labels>)
    requires forall l ::
               RefCount(own', l) == RefCount(own, l) + (if l in after then 1 else 0) - (if l in before then 1 else 0)
    ensures RefCounts(own') == DecAll(IncAll(RefCounts(own), after - before), before - after)
  {
    var moved := DecAll(IncAll(RefCounts(own), after - before), before - after);
    forall l
      ensures Lookup(moved, l) == Lookup(RefCounts(own'), l)
    {
      RefCountAt(own, l);
      RefCountAt(own', l);
      CountAfter(RefCounts(own), before, after, l);
    }
    SameLookup(moved, RefCounts(own'));
  }

  lemma RefCountAt(own: Owners, l: Labels)
    ensures Lookup(RefCounts(own), l) == if RefCount(own, l) > 0 then Some(RefCount(own, l)) else None
    ensures Count(RefCounts(own), l) == RefCount(own, l)
  {
    LiveIffCounted(own, l);
  }

  lemma CountAfter(refs: map<Labels, int>, before: set<Labels>, after: set<Labels>, l: Labels)
    requires Lookup(refs, l) == if Count(refs, l) > 0 then Some(Count(refs, l)) else None
    ensures var n := Count(refs, l) + (if l in after then 1 else 0) - (if l in before then 1 else 0);
            Lookup(DecAll(IncAll(refs, after - before), before - after), l) == if n > 0 then Some(n) else None
  {
    var added := IncAll(refs, after - before);
    assert Lookup(added, l)
        == if l in refs.Keys + (after - before) then Some(Count(refs, l) + if l in after - before then 1 else 0)
           else None;
  }

  lemma SameLookup<V>(a: map<Labels, V>, b: map<Labels, V>)
    requires forall l :: Lookup(a, l) == Lookup(b, l)
    ensures a == b
  {
    forall l
      ensures (l in a <==> l in b) && (l in a ==> a[l] == b[l])
    {
      assert Lookup(a, l) == Lookup(b, l);
    }
  }

  /** An operation moves each tuple's count by what its report gains or loses. */
  lemma RefCountStep(h: History, op: Op, l: Labels)
    ensures RefCount(OwnersOf(h + [op]), l)
         == RefCount(OwnersOf(h), l) + (if l in Contributed(op) then 1 else 0)
            - (if l in Owned(h, op.uid) then 1 else 0)
  {
    var own, own' := OwnersOf(h), OwnersOf(h + [op]);
    AppendOwners(h, op);
    OwnersAre(h);
    RefCountMoves(own, own', op.uid, l);
  }

  /** The tuples whose last reference an operation drops. */
  function Dropped(h: History, op: Op): set<Labels> {
    var before, after := Owned(h, op.uid), Contributed(op);
    Exhausted(IncAll(RefCounts(OwnersOf(h)), after - before), before - after)
  }

  function SeriesOf(op: Op): seq<Series> {
    if op.Set? then op.series else []
  }

  lemma LiveMoves(h: History, op: Op)
    ensures Live(OwnersOf(h + [op])) == Live(OwnersOf(h)) + LabelSet(SeriesOf(op)) - Dropped(h, op)
  {
    var before, after := Owned(h, op.uid), Contributed(op);
    CountsMove(h, op);
    DecKeys(IncAll(RefCounts(OwnersOf(h)), after - before), before - after);
    OwnersAre(h);
    assert before <= Live(OwnersOf(h)) by {
      forall l | l in before
        ensures l in Live(OwnersOf(h))
      {
        LiveIffOwned(h, l);
      }
    }
    assert LabelSet(SeriesOf(op)) == after;
    assert RefCounts(OwnersOf(h + [op])).Keys == Live(OwnersOf(h + [op]));
  }

  /** Setting an operation's series and then removing the tuples it drops makes a gauge right
      for the longer history. */
  lemma GaugeMoves(h: History, op: Op, f: Field)
    ensures Written(Gauge(h, f), SeriesOf(op), f) - Dropped(h, op) == Gauge(h + [op], f)
  {
    var w := Written(Gauge(h, f), SeriesOf(op), f);
    WrittenLookup(Gauge(h, f), SeriesOf(op), f);
    LiveMoves(h, op);
    forall l
      ensures Lookup(w - Dropped(h, op), l) == Lookup(Gauge(h + [op], f), l)
    {
      ValueMoves(h, op, l, f);
    }
    SameLookup(w - Dropped(h, op), Gauge(h + [op], f));
  }

  lemma ValueMoves(h: History, op: Op, l: Labels, f: Field)
    ensures Value(h + [op], l, f)
         == if LastIn(SeriesOf(op), l).Some? then FieldOf(LastIn(SeriesOf(op), l).value, f) else Value(h, l, f)
  {
    AppendWrite(h, op, l);
  }

  lemma GaugesMove(h: History, op: Op, ransomware: bool)
    ensures Without(WrittenAll(GaugesOf(h, ransomware), SeriesOf(op)), Dropped(h, op)) == GaugesOf(h + [op], ransomware)
  {
    GaugeMoves(h, op, EpssScore);
    GaugeMoves(h, op, EpssPercentile);
    GaugeMoves(h, op, KevFlag);
    GaugeMoves(h, op, Ransomware);
  }

  lemma CountersMove(h: History, op: Op)
    ensures Passes(h + [op]) == Passes(h) + if op.Set? then 1 else 0
    ensures SeriesSet(h + [op]) == SeriesSet(h) + |Contributed(op)|
  {
    assert (h + [op])[..|h|] == h;
  }

  /** The store as a value: everything the class below updates in place. */
  datatype Store = Store(owners: Owners, refs: map<Labels, int>, gauges: Gauges, processed: nat, enriched: nat)

  /** Set the series, add the references gained, drop those lost. */
  function AfterSet(st: Store, uid: string, series: seq<Series>): Store {
    var before, after := Contributions(st.owners, uid), LabelSet(series);
    var added := IncAll(st.refs, after - before);
    Store(if after == {} then st.owners - {uid} else st.owners[uid := after],
          DecAll(added, before - after),
          Without(WrittenAll(st.gauges, series), Exhausted(added, before - after)),
          st.processed + 1, st.enriched + |after|)
  }

  function AfterDelete(st: Store, uid: string): Store {
    var before := Contributions(st.owners, uid);
    Store(st.owners - {uid}, DecAll(st.refs, before), Without(st.gauges, Exhausted(st.refs, before)),
          st.processed, st.enriched)
  }

  function Apply(st: Store, op: Op): Store {
    match op
    case Set(uid, series) => AfterSet(st, uid, series)
    case Delete(uid) => AfterDelete(st, uid)
  }

  function Contributions(own: Owners, uid: string): set<Labels> {
    if uid in own then own[uid] else {}
  }

  function Run(h: History, ransomware: bool): Store {
    if h == [] then Store(map[], map[], Gauges(map[], map[], map[], if ransomware then Some(map[]) else None), 0, 0)
    else Apply(Run(h[..|h| - 1], ransomware), h[|h| - 1])
  }

  /** The incremental store agrees with the reference: after any history the owners, counts,
      gauges and counters are those the history as a whole determines. */
  lemma {:induction false} RunExact(h: History, ransomware: bool)
    ensures Run(h, ransomware)
         == Store(OwnersOf(h), RefCounts(OwnersOf(h)), GaugesOf(h, ransomware), Passes(h), SeriesSet(h))
  {
    if h == [] {
      assert OwnersOf(h) == map[] && Live(OwnersOf(h)) == {};
    } else {
      var init, op := h[..|h| - 1], h[|h| - 1];
      assert h == init + [op];
      RunExact(init, ransomware);
      StoreMoves(init, op, ransomware);
    }
  }

  lemma StoreMoves(h: History, op: Op, ransomware: bool)
    requires Run(h, ransomware)
          == Store(OwnersOf(h), RefCounts(OwnersOf(h)), GaugesOf(h, ransomware), Passes(h), SeriesSet(h))
    ensures var h' := h + [op];
            Apply(Run(h, ransomware), op)
              == Store(OwnersOf(h'), RefCounts(OwnersOf(h')), GaugesOf(h', ransomware), Passes(h'), SeriesSet(h'))
  {
    AppendOwners(h, op);
    OwnersAre(h);
    assert Contributions(OwnersOf(h), op.uid) == Owned(h, op.uid);
    CountsMove(h, op);
    GaugesMove(h, op, ransomware);
    CountersMove(h, op);
    if op.Delete? {
      DeleteAddsNothing(h, op, ransomware);
    }
  }

  lemma DeleteAddsNothing(h: History, op: Op, ransomware: bool)
    requires op.Delete?
    ensures Contributed(op) == {}
    ensures WrittenAll(GaugesOf(h, ransomware), SeriesOf(op)) == GaugesOf(h, ransomware)
    ensures IncAll(RefCounts(OwnersOf(h)), Contributed(op) - Owned(h, op.uid)) == RefCounts(OwnersOf(h))
    ensures Owned(h, op.uid) - Contributed(op) == Owned(h, op.uid)
  {
    NothingAdded(RefCounts(OwnersOf(h)), Owned(h, op.uid));
  }

  lemma NothingAdded(refs: map<Labels, int>, before: set<Labels>)
    ensures IncAll(refs, {} - before) == refs && before - {} == before
  {
    assert {} - before == {};
  }

  lemma RunAppend(h: History, op: Op, ransomware: bool)
    ensures Run(h + [op], ransomware) == Apply(Run(h, ransomware), op)
  {
    assert (h + [op])[..|h|] == h;
  }

  lemma WithoutWithout(g: Gauges, a: set<Labels>, b: set<Labels>)
    ensures Without(g, {}) == g
    ensures Without(Without(g, a), b) == Without(g, a + b)
  {
    assert g.epssScore - {} == g.epssScore && g.epssPercentile - {} == g.epssPercentile && g.kev - {} == g.kev;
    if g.kevRansomware.Some? {
      assert g.kevRansomware.value - {} == g.kevRansomware.value;
      assert g.kevRansomware.value - a - b == g.kevRansomware.value - (a + b);
    }
  }

  class Metrics {
    var epssScore: GaugeVec
    var epssPercentile: GaugeVec
    var kev: GaugeVec
    var kevRansomware: Option<GaugeVec>  // None when the ransomware gauge is disabled

    var cacheSynced: Float
    var reportsProcessed: nat
    var cvesEnriched: nat

    var owners: Owners
    var refs: map<Labels, int>

    /** Every operation since construction, in lock order. */
    ghost var history: History

    function View(): Gauges
      reads this
    {
      Gauges(epssScore, epssPercentile, kev, kevRansomware)
    }

    function State(): Store
      reads this
    {
      Store(owners, refs, View(), reportsProcessed, cvesEnriched)
    }

    /** The fields are what the history makes of an empty store. */
    ghost predicate Valid()
      reads this
    {
      State() == Run(history, kevRansomware.Some?)
    }

    /** What Valid means in the reference's own terms. */
    lemma Exact()
      requires Valid()
      ensures owners == OwnersOf(history) && refs == RefCounts(OwnersOf(history))
      ensures View() == GaugesOf(history, kevRansomware.Some?)
      ensures reportsProcessed == Passes(history) && cvesEnriched == SeriesSet(history)
    {
      RunExact(history, kevRansomware.Some?);
    }

    constructor (enableRansomware: bool)
      ensures Valid() && history == [] && kevRansomware.Some? == enableRansomware && cacheSynced == Finite(0.0)
    {
      epssScore, epssPercentile, kev := map[], map[], map[];
      kevRansomware := if enableRansomware then Some(map[]) else None;
      cacheSynced := ZERO;
      reportsProcessed, cvesEnriched := 0, 0;
      owners, refs := map[], map[];
      history := [];
    }

    /** Makes the report contribute exactly the given series. */
    method SetReport(uid: string, series: seq<Series>)
      requires Valid()
      modifies this
      ensures cacheSynced == old(cacheSynced)
      ensures Valid() && history == old(history) + [Set(uid, series)]
      ensures kevRansomware.Some? == old(kevRansomware.Some?)
    {
      RunAppend(history, Set(uid, series), kevRansomware.Some?);
      ReplaceSeries(uid, series);
      history := history + [Set(uid, series)];
    }

    /** The body of SetReport, as one change to the fields. */
    method ReplaceSeries(uid: string, series: seq<Series>)
      modifies this
      ensures State() == AfterSet(old(State()), uid, series)
      ensures history == old(history) && cacheSynced == old(cacheSynced)
      ensures kevRansomware.Some? == old(kevRansomware.Some?)
    {
      var newSet := SetGauges(series);
      var oldSet := if uid in owners then owners[uid] else {};
      AddReferences(newSet, oldSet);
      DropReferences(oldSet, newSet);
      assert View() == AfterSet(old(State()), uid, series).gauges;

      if newSet == {} {
        owners := owners - {uid};
      } else {
        owners := owners[uid := newSet];
      }
      reportsProcessed := reportsProcessed + 1;
      cvesEnriched := cvesEnriched + |newSet|;
    }

    /** Sets every gauge for every series; returns the tuples set. */
    method SetGauges(series: seq<Series>) returns (newSet: set<Labels>)
      modifies `epssScore, `epssPercentile, `kev, `kevRansomware
      ensures newSet == LabelSet(series)
      ensures View() == WrittenAll(old(View()), series)
      ensures kevRansomware.Some? == old(kevRansomware.Some?)
    {
      newSet := {};
      for i := 0 to |series|
        invariant newSet == LabelSet(series[..i])
        invariant View() == WrittenAll(old(View()), series[..i])
      {
        var s := series[i];
        assert series[..i + 1] == series[..i] + [s] && series[..i + 1][..i] == series[..i];
        epssScore := epssScore[s.labels := s.epssScore];
        epssPercentile := epssPercentile[s.labels := s.epssPercentile];
        kev := kev[s.labels := s.kev];
        if kevRansomware.Some? {
          kevRansomware := Some(kevRansomware.value[s.labels := s.kevRansomware]);
        }
        newSet := newSet + {s.labels};
      }
      assert series[..|series|] == series;
    }

    /** References the tuples the report did not contribute before. */
    method AddReferences(newSet: set<Labels>, oldSet: set<Labels>)
      modifies `refs
      ensures refs == IncAll(old(refs), newSet - oldSet)
    {
      var todo := newSet;
      while todo != {}
        invariant todo <= newSet
        invariant refs == IncAll(old(refs), newSet - todo - oldSet)
      {
        ghost var seen := newSet - todo - oldSet;
        var lbl :| lbl in todo;
        todo := todo - {lbl};
        if lbl !in oldSet {
          IncStep(old(refs), seen, lbl);
          refs := refs[lbl := Count(refs, lbl) + 1];
          assert newSet - todo - oldSet == seen + {lbl};
        } else {
          assert newSet - todo - oldSet == seen;
        }
      }
      assert newSet - {} - oldSet == newSet - oldSet;
    }

    /** Releases the tuples the report no longer contributes. */
    method DropReferences(oldSet: set<Labels>, newSet: set<Labels>)
      modifies `refs, `epssScore, `epssPercentile, `kev, `kevRansomware
      ensures refs == DecAll(old(refs), oldSet - newSet)
      ensures View() == Without(old(View()), Exhausted(old(refs), oldSet - newSet))
      ensures kevRansomware.Some? == old(kevRansomware.Some?)
    {
      var todo := oldSet;
      assert oldSet - todo - newSet == {} && Exhausted(refs, {}) == {};
      WithoutWithout(View(), {}, {});
      while todo != {}
        invariant todo <= oldSet
        invariant refs == DecAll(old(refs), oldSet - todo - newSet)
        invariant View() == Without(old(View()), Exhausted(old(refs), oldSet - todo - newSet))
      {
        ghost var seen := oldSet - todo - newSet;
        var lbl :| lbl in todo;
        todo := todo - {lbl};
        if lbl !in newSet {
          DecStep(old(refs), seen, lbl);
          ExhaustedStep(old(refs), seen, lbl);
          WithoutWithout(old(View()), Exhausted(old(refs), seen), if Count(refs, lbl) > 1 then {} else {lbl});
          Release(lbl);
          assert oldSet - todo - newSet == seen + {lbl};
        } else {
          assert oldSet - todo - newSet == seen;
        }
      }
      assert oldSet - {} - newSet == oldSet - newSet;
    }

    /** Drops one reference to a tuple, and its gauges with the last one. */
    method Release(lbl: Labels)
      modifies `refs, `epssScore, `epssPercentile, `kev, `kevRansomware
      ensures refs == if old(Count(refs, lbl)) > 1 then old(refs)[lbl := old(Count(refs, lbl)) - 1]
                      else old(refs) - {lbl}
      ensures View() == Without(old(View()), if old(Count(refs, lbl)) > 1 then {} else {lbl})
    {
      WithoutWithout(View(), {}, {});
      refs := refs[lbl := Count(refs, lbl) - 1];
      if refs[lbl] > 0 {
        return;
      }
      refs := refs - {lbl};
      epssScore := epssScore - {lbl};
      epssPercentile := epssPercentile - {lbl};
      kev := kev - {lbl};
      if kevRansomware.Some? {
        kevRansomware := Some(kevRansomware.value - {lbl});
      }
    }

    /** Drops everything the report contributes. */
    method DeleteReport(uid: string)
      requires Valid()
      modifies this
      ensures cacheSynced == old(cacheSynced)
      ensures Valid() && history == old(history) + [Delete(uid)]
      ensures kevRansomware.Some? == old(kevRansomware.Some?)
    {
      RunAppend(history, Delete(uid), kevRansomware.Some?);
      RemoveSeries(uid);
      history := history + [Delete(uid)];
    }

    /** The body of DeleteReport, as one change to the fields. */
    method RemoveSeries(uid: string)
      modifies `refs, `epssScore, `epssPercentile, `kev, `kevRansomware, `owners
      ensures State() == AfterDelete(old(State()), uid)
      ensures kevRansomware.Some? == old(kevRansomware.Some?)
    {
      var oldSet := if uid in owners then owners[uid] else {};
      DropReferences(oldSet, {});
      assert oldSet - {} == oldSet;
      owners := owners - {uid};
    }

    method SetCacheSynced(synced: bool)
      modifies `cacheSynced
      ensures cacheSynced == if synced then Finite(1.0) else Finite(0.0)
    {
      if synced {
        cacheSynced := ONE;
        return;
      }
      cacheSynced := ZERO;
    }
  }
}
