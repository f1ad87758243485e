/** Laws of the series store over whole histories. */
module StoreLaws {
  import opened Base
  import opened Counts
  import opened Enrich
  import opened Ledger
  import opened Metrics
  import opened Sums

  // ----- Reference counts are right -----

  /** After any history the incremental counts are exact: refs[l] is the number of reports that
      own l and never less than one, and refs and every enabled gauge have a key for exactly
      the tuples some report owns. */
  lemma RefcountRefinement(h: History, ransomware: bool, l: Labels)
    ensures var st := Run(h, ransomware);
            && Count(st.refs, l) == |set u | u in st.owners && l in st.owners[u]|
            && (l in st.refs ==> st.refs[l] >= 1)
            && (l in st.refs <==> exists u :: u in st.owners && l in st.owners[u])
            && HasKeys(st.gauges, st.refs.Keys) && st.gauges.kevRansomware.Some? == ransomware
  {
    RunExact(h, ransomware);
    CountIsRefCount(OwnersOf(h), l);
  }

  lemma CountIsRefCount(own: Owners, l: Labels)
    ensures Count(RefCounts(own), l) == |set u | u in own && l in own[u]|
    ensures l in RefCounts(own) ==> RefCounts(own)[l] >= 1
  {
    LiveIffCounted(own, l);
    assert Holders(own, l) == set u | u in own && l in own[u];
  }

  /** A tuple is shown exactly while the latest operation of some report contributes it. */
  lemma ShownIffContributed(h: History, l: Labels, f: Field)
    ensures l in Gauge(h, f) <==> exists u :: LastOp(h, u).Some? && l in Contributed(LastOp(h, u).value)
  {
    LiveIffOwned(h, l);
    if u :| l in Owned(h, u) {
      assert LastOp(h, u).Some?;
    }
    if u :| LastOp(h, u).Some? && l in Contributed(LastOp(h, u).value) {
      assert l in Owned(h, u);
    }
  }

  /** All the values of a shown tuple come from one series of one operation. */
  lemma ValuesOfOneSeries(h: History, l: Labels)
    requires l in Live(OwnersOf(h))
    ensures exists op, s :: op in h && op.Set? && s in op.series && s.labels == l
              && forall f :: Gauge(h, f)[l] == FieldOf(s, f)
  {
    LiveIffOwned(h, l);
    LastWriteFound(h, l);
    var s := LastWrite(h, l).value;
    var op :| op in h && op.Set? && s in op.series;
  }

  /** A shown tuple shows, in every enabled gauge, the series that was written to it last. */
  lemma ShownIsLastWritten(h: History, ransomware: bool, l: Labels, i: nat, n: nat)
    requires LastWrittenAt(h, l, i, n) && l in Run(h, ransomware).refs
    ensures ShowsSeries(Run(h, ransomware).gauges, h[i].series[n])
  {
    RunExact(h, ransomware);
    GaugesShown(h, ransomware, l, i, n);
  }

  lemma GaugesShown(h: History, ransomware: bool, l: Labels, i: nat, n: nat)
    requires LastWrittenAt(h, l, i, n) && l in RefCounts(OwnersOf(h))
    ensures ShowsSeries(GaugesOf(h, ransomware), h[i].series[n])
  {
    FieldShown(h, l, i, n, EpssScore);
    FieldShown(h, l, i, n, EpssPercentile);
    FieldShown(h, l, i, n, KevFlag);
    FieldShown(h, l, i, n, Ransomware);
  }

  lemma FieldShown(h: History, l: Labels, i: nat, n: nat, f: Field)
    requires LastWrittenAt(h, l, i, n) && l in RefCounts(OwnersOf(h))
    ensures Lookup(Gauge(h, f), l) == Some(FieldOf(h[i].series[n], f))
  {
    LastWriteIs(h, l, i, n);
  }

  function Sets(h: History): set<nat> {
    set i: nat | i < |h| && h[i].Set?
  }

  /** The counters: one pass for each set, and for each set the number of its distinct tuples. */
  lemma CountersExact(h: History, ransomware: bool)
    ensures Run(h, ransomware).processed == |Sets(h)|
    ensures Run(h, ransomware).enriched == Sum(SetSizes(h))
  {
    RunExact(h, ransomware);
    CountersByPosition(h);
  }

  function SetSizes(h: History): map<nat, int> {
    map i: nat | i < |h| && h[i].Set? :: |LabelSet(h[i].series)|
  }

  lemma {:induction false} CountersByPosition(h: History)
    ensures Passes(h) == |Sets(h)| && SeriesSet(h) == Sum(SetSizes(h))
  {
    if h == [] {
      assert Sets(h) == {} && SetSizes(h) == map[];
    } else {
      var n := |h| - 1;
      CountersByPosition(h[..n]);
      SetsGrow(h, n);
      SizesGrow(h, n);
    }
  }

  lemma SetsGrow(h: History, n: nat)
    requires |h| == n + 1
    ensures |Sets(h)| == |Sets(h[..n])| + if h[n].Set? then 1 else 0
  {
    assert Sets(h) == Sets(h[..n]) + if h[n].Set? then {n} else {};
  }

  lemma SizesGrow(h: History, n: nat)
    requires |h| == n + 1
    ensures Sum(SetSizes(h)) == Sum(SetSizes(h[..n])) + |Contributed(h[n])|
  {
    var init := SetSizes(h[..n]);
    if h[n].Set? {
      assert SetSizes(h) == init[n := |Contributed(h[n])|];
      SumPut(init, n, |Contributed(h[n])|);
    } else {
      assert SetSizes(h) == init;
    }
  }

  // ----- Only the last operation of each report matters -----

  /** h without the operations that a later one on the same report replaces. */
  function Latest(h: History): History {
    if h == [] then []
    else if h[0].uid in Uids(h[1..]) then Latest(h[1..])
    else [h[0]] + Latest(h[1..])
  }

  predicate SameLatest(h1: History, h2: History, u: string) {
    LastOp(h1, u) == LastOp(h2, u)
  }

  lemma {:induction false} LastOpFront(op: Op, t: History, u: string)
    ensures LastOp([op] + t, u) == if LastOp(t, u).Some? then LastOp(t, u) else if op.uid == u then Some(op) else None
  {
    var h := [op] + t;
    if t == [] {
      assert h[..0] == [];
    } else {
      assert h[..|h| - 1] == [op] + t[..|t| - 1];
      LastOpFront(op, t[..|t| - 1], u);
    }
  }

  lemma {:induction false} LatestKeepsLast(h: History, u: string)
    ensures SameLatest(h, Latest(h), u)
  {
    if h != [] {
      var t := h[1..];
      assert h == [h[0]] + t;
      LastOpFront(h[0], t, u);
      LatestKeepsLast(t, u);
      LastOpFront(h[0], Latest(t), u);
      LastOpMember(t, u);
    }
  }

  /** Latest really is one operation per report. */
  lemma {:induction false} LatestDistinct(h: History)
    ensures Uids(Latest(h)) == Uids(h)
    ensures forall i, j | 0 <= i < j < |Latest(h)| :: Latest(h)[i].uid != Latest(h)[j].uid
  {
    if h != [] {
      var t := h[1..];
      LatestDistinct(t);
      assert Uids(h) == {h[0].uid} + Uids(t) by {
        assert h == [h[0]] + t;
      }
      if h[0].uid !in Uids(t) {
        var k := Latest(h);
        assert Uids(k) == {h[0].uid} + Uids(Latest(t));
        forall i, j | 0 <= i < j < |k|
          ensures k[i].uid != k[j].uid
        {
          assert k[j] == Latest(t)[j - 1];
          if i > 0 {
            assert k[i] == Latest(t)[i - 1];
          } else {
            assert Latest(t)[j - 1].uid in Uids(Latest(t));
          }
        }
      }
    }
  }

  /** Every series ever set is one fixed function of its tuple. */
  ghost predicate Fixed(h: History, val: Labels -> Series) {
    forall op, s :: op in h && op.Set? && s in op.series ==> s == val(s.labels)
  }

  /** Histories in which every report has the same last operation end in the same owners,
      counts and gauge keys, and in the same gauge values too when every tuple's series is
      always the same. */
  lemma HistoryIndependence(h1: History, h2: History, ransomware: bool, val: Labels -> Series)
    requires forall u :: SameLatest(h1, h2, u)
    ensures var s1, s2 := Run(h1, ransomware), Run(h2, ransomware);
            && s1.owners == s2.owners && s1.refs == s2.refs
            && HasKeys(s1.gauges, s1.refs.Keys) && HasKeys(s2.gauges, s1.refs.Keys)
            && (Fixed(h1, val) && Fixed(h2, val) ==> s1.gauges == s2.gauges)
  {
    RunExact(h1, ransomware);
    RunExact(h2, ransomware);
    SameOwners(h1, h2);
    if Fixed(h1, val) && Fixed(h2, val) {
      SameGauge(h1, h2, val, EpssScore);
      SameGauge(h1, h2, val, EpssPercentile);
      SameGauge(h1, h2, val, KevFlag);
      SameGauge(h1, h2, val, Ransomware);
    }
  }

  lemma SameGauge(h1: History, h2: History, val: Labels -> Series, f: Field)
    requires OwnersOf(h1) == OwnersOf(h2) && Fixed(h1, val) && Fixed(h2, val)
    ensures Gauge(h1, f) == Gauge(h2, f)
  {
    forall l | l in Live(OwnersOf(h1))
      ensures Value(h1, l, f) == Value(h2, l, f)
    {
      FixedValue(h1, val, l, f);
      FixedValue(h2, val, l, f);
    }
  }

  lemma SameOwners(h1: History, h2: History)
    requires forall u :: SameLatest(h1, h2, u)
    ensures OwnersOf(h1) == OwnersOf(h2)
  {
    OwnersAre(h1);
    OwnersAre(h2);
    forall u
      ensures Owned(h1, u) == Owned(h2, u)
    {
      assert SameLatest(h1, h2, u);
    }
  }

  lemma FixedValue(h: History, val: Labels -> Series, l: Labels, f: Field)
    requires Fixed(h, val) && l in Live(OwnersOf(h))
    ensures Value(h, l, f) == FieldOf(val(l), f)
  {
    LiveIffOwned(h, l);
    LastWriteFound(h, l);
  }

  /** Replaying only the last operation of each report. */
  lemma ReplayLatest(h: History, ransomware: bool, val: Labels -> Series)
    ensures var s1, s2 := Run(h, ransomware), Run(Latest(h), ransomware);
            && s1.owners == s2.owners && s1.refs == s2.refs
            && HasKeys(s1.gauges, s1.refs.Keys) && HasKeys(s2.gauges, s1.refs.Keys)
            && (Fixed(h, val) ==> s1.gauges == s2.gauges)
  {
    forall u
      ensures SameLatest(h, Latest(h), u)
    {
      LatestKeepsLast(h, u);
    }
    LatestSubset(h);
    HistoryIndependence(h, Latest(h), ransomware, val);
  }

  lemma {:induction false} LatestSubset(h: History)
    ensures forall op | op in Latest(h) :: op in h
  {
    if h != [] {
      LatestSubset(h[1..]);
      assert h == [h[0]] + h[1..];
    }
  }

  /** Operations on different reports commute. */
  lemma Commute(h: History, a: Op, b: Op, ransomware: bool, val: Labels -> Series)
    requires a.uid != b.uid
    ensures var ab, ba := Run(h + [a] + [b], ransomware), Run(h + [b] + [a], ransomware);
            && ab.owners == ba.owners && ab.refs == ba.refs
            && HasKeys(ab.gauges, ab.refs.Keys) && HasKeys(ba.gauges, ab.refs.Keys)
            && (Fixed(h + [a] + [b], val) && Fixed(h + [b] + [a], val) ==> ab.gauges == ba.gauges)
  {
    AppendOwned(h, a);
    AppendOwned(h, b);
    AppendOwned(h + [a], b);
    AppendOwned(h + [b], a);
    HistoryIndependence(h + [a] + [b], h + [b] + [a], ransomware, val);
  }

  /** Repeating an operation changes nothing but the counters. */
  lemma Idempotent(h: History, a: Op, ransomware: bool)
    ensures var once, twice := Run(h + [a], ransomware), Run(h + [a] + [a], ransomware);
            once.owners == twice.owners && once.refs == twice.refs && once.gauges == twice.gauges
  {
    var h1, h2 := h + [a], h + [a] + [a];
    AppendOwned(h, a);
    AppendOwned(h1, a);
    SameOwners(h1, h2);
    RunExact(h1, ransomware);
    RunExact(h2, ransomware);
    RepeatGauge(h, a, EpssScore);
    RepeatGauge(h, a, EpssPercentile);
    RepeatGauge(h, a, KevFlag);
    RepeatGauge(h, a, Ransomware);
  }

  lemma RepeatGauge(h: History, a: Op, f: Field)
    requires OwnersOf(h + [a] + [a]) == OwnersOf(h + [a])
    ensures Gauge(h + [a] + [a], f) == Gauge(h + [a], f)
  {
    forall l
      ensures LastWrite(h + [a] + [a], l) == LastWrite(h + [a], l)
    {
      AppendWrite(h, a, l);
      AppendWrite(h + [a], a, l);
    }
  }

  lemma EmptySetAfter(st: Store, uid: string)
    ensures var emptied, deleted := AfterSet(st, uid, []), AfterDelete(st, uid);
            && emptied.owners == deleted.owners && emptied.refs == deleted.refs && emptied.gauges == deleted.gauges
            && emptied.processed == deleted.processed + 1 && emptied.enriched == deleted.enriched
  {
    assert LabelSet([]) == {};
    NothingAdded(st.refs, Contributions(st.owners, uid));
    assert WrittenAll(st.gauges, []) == st.gauges;
  }

  /** Setting a report to no series is deleting it, but for the pass it counts. */
  lemma EmptySetIsDelete(h: History, uid: string, ransomware: bool)
    ensures var emptied, deleted := Run(h + [Set(uid, [])], ransomware), Run(h + [Delete(uid)], ransomware);
            emptied == deleted.(processed := deleted.processed + 1)
  {
    RunAppend(h, Set(uid, []), ransomware);
    RunAppend(h, Delete(uid), ransomware);
    EmptySetAfter(Run(h, ransomware), uid);
  }

  // ----- Conservation -----

  function Sizes(own: Owners): map<string, int> {
    map u | u in own :: |own[u]|
  }

  /** Counting references by tuple and by report gives the same total. */
  lemma {:induction false} DoubleCounting(own: Owners)
    ensures Sum(RefCounts(own)) == Sum(Sizes(own))
    decreases |own|
  {
    if own == map[] {
      assert RefCounts(own) == map[] && Sizes(own) == map[];
    } else {
      var u :| u in own;
      var rest := own - {u};
      DoubleCounting(rest);
      AddOwner(rest, u, own[u]);
      assert own == rest[u := own[u]];
    }
  }

  lemma AddOwner(own: Owners, u: string, ls: set<Labels>)
    requires u !in own
    ensures Sum(RefCounts(own[u := ls])) == Sum(RefCounts(own)) + |ls|
    ensures Sum(Sizes(own[u := ls])) == Sum(Sizes(own)) + |ls|
  {
    CountsWithOwner(own, u, ls);
    SumIncAll(RefCounts(own), ls);
    SizesWithOwner(own, u, ls);
  }

  lemma SizesWithOwner(own: Owners, u: string, ls: set<Labels>)
    requires u !in own
    ensures Sum(Sizes(own[u := ls])) == Sum(Sizes(own)) + |ls|
  {
    assert Sizes(own[u := ls]) == Sizes(own)[u := |ls|];
    SumPut(Sizes(own), u, |ls|);
  }

  lemma CountsWithOwner(own: Owners, u: string, ls: set<Labels>)
    requires u !in own
    ensures RefCounts(own[u := ls]) == IncAll(RefCounts(own), ls)
  {
    var own' := own[u := ls];
    forall l
      ensures l in Live(own') <==> l in Live(own) || l in ls
      ensures RefCount(own', l) == Count(RefCounts(own), l) + if l in ls then 1 else 0
    {
      RefCountMoves(own, own', u, l);
      LiveIffCounted(own, l);
      LiveIffCounted(own', l);
    }
    assert Live(own') == Live(own) + ls;
  }

  /** After any history the references held over all tuples are the tuples owned over all
      reports. */
  lemma Conservation(h: History, ransomware: bool)
    ensures var st := Run(h, ransomware); Sum(st.refs) == Sum(Sizes(st.owners))
  {
    RunExact(h, ransomware);
    DoubleCounting(OwnersOf(h));
  }

  /** A start-up history: every operation sets a report, and no report twice. */
  predicate StartUp(h: History) {
    && (forall op | op in h :: op.Set?)
    && forall i, j | 0 <= i < j < |h| :: h[i].uid != h[j].uid
  }

  lemma {:induction false} StartUpTotal(h: History)
    requires StartUp(h)
    ensures SeriesSet(h) == Sum(Sizes(OwnersOf(h)))
  {
    if h == [] {
      assert Sizes(OwnersOf(h)) == map[];
    } else {
      var init, op := h[..|h| - 1], h[|h| - 1];
      assert h == init + [op];
      StartUpInit(init, op);
      StartUpTotal(init);
      StartUpNext(init, op);
    }
  }

  lemma StartUpNext(init: History, op: Op)
    requires op.uid !in OwnersOf(init)
    ensures Sum(Sizes(OwnersOf(init + [op]))) == Sum(Sizes(OwnersOf(init))) + |Contributed(op)|
  {
    AppendOwners(init, op);
    if Contributed(op) == {} {
      assert OwnersOf(init) - {op.uid} == OwnersOf(init);
    } else {
      SizesWithOwner(OwnersOf(init), op.uid, Contributed(op));
    }
  }

  lemma StartUpInit(init: History, op: Op)
    requires StartUp(init + [op])
    ensures StartUp(init) && op.uid !in OwnersOf(init)
  {
    var h := init + [op];
    forall i | 0 <= i < |init|
      ensures init[i].Set? && init[i].uid != op.uid
    {
      assert h[i] in h && h[i].uid != h[|init|].uid;
    }
    forall i, j | 0 <= i < j < |init|
      ensures init[i].uid != init[j].uid
    {
      assert h[i].uid != h[j].uid;
    }
  }

  predicate Disjoint(own: Owners) {
    forall u, v, l | u in own && v in own && l in own[u] && l in own[v] :: u == v
  }

  /** At start-up the counter of enriched series is the total number of references. It is at
      least the number of series shown, and equal to it exactly when no two reports share a
      tuple. */
  lemma StartUpCounter(h: History, ransomware: bool)
    requires StartUp(h)
    ensures var st := Run(h, ransomware);
            && st.enriched == Sum(st.refs)
            && st.enriched >= |st.gauges.epssScore|
            && (st.enriched == |st.gauges.epssScore| <==> Disjoint(st.owners))
  {
    var own := OwnersOf(h);
    RunExact(h, ransomware);
    StartUpTotal(h);
    DoubleCounting(own);
    SharedIffCounted(own);
    SumOfPositive(RefCounts(own));
    assert Gauge(h, EpssScore).Keys == RefCounts(own).Keys;
    assert |Gauge(h, EpssScore).Keys| == |RefCounts(own).Keys|;
  }

  lemma SharedIffCounted(own: Owners)
    ensures forall l | l in RefCounts(own) :: RefCounts(own)[l] >= 1
    ensures Disjoint(own) <==> forall l | l in RefCounts(own) :: RefCounts(own)[l] == 1
  {
    forall l | l in RefCounts(own)
      ensures RefCounts(own)[l] >= 1
      ensures RefCounts(own)[l] == 1 <==> forall u, v | u in Holders(own, l) && v in Holders(own, l) :: u == v
    {
      LiveIffCounted(own, l);
      OneElement(Holders(own, l));
    }
    if forall l | l in RefCounts(own) :: RefCounts(own)[l] == 1 {
      forall u, v, l | u in own && v in own && l in own[u] && l in own[v]
        ensures u == v
      {
        assert l in RefCounts(own) && u in Holders(own, l) && v in Holders(own, l);
      }
    }
  }

  lemma OneElement<T>(s: set<T>)
    requires s != {}
    ensures |s| == 1 <==> forall x, y | x in s && y in s :: x == y
  {
    var x :| x in s;
    assert |s - {x}| == |s| - 1;
    if forall x, y | x in s && y in s :: x == y {
      assert s == {x};
    }
    if |s| == 1 {
      assert s - {x} == {};
      assert s == {x};
    }
  }
}
