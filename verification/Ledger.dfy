/** What the series store must show after any history of report operations, said once about
    the whole history: every report contributes the tuples of its latest operation, a tuple
    is referenced once per report contributing it, and a live tuple shows the series that was
    written to it last. `Metrics` computes the same incrementally. */
module Ledger {
  import opened Base
  import opened Enrich

  datatype Op = Set(uid: string, series: seq<Series>) | Delete(uid: string)

  type History = seq<Op>

  type Owners = map<string, set<Labels>>

  /** The four gauges of a series. */
  datatype Field = EpssScore | EpssPercentile | KevFlag | Ransomware

  function FieldOf(s: Series, f: Field): Float {
    match f
    case EpssScore => s.epssScore
    case EpssPercentile => s.epssPercentile
    case KevFlag => s.kev
    case Ransomware => s.kevRansomware
  }

  function Contributed(op: Op): set<Labels> {
    if op.Set? then LabelSet(op.series) else {}
  }

  function LastOp(h: History, uid: string): Option<Op> {
    if h == [] then None
    else if h[|h| - 1].uid == uid then Some(h[|h| - 1])
    else LastOp(h[..|h| - 1], uid)
  }

  /** The tuples a report contributes after h. */
  function Owned(h: History, uid: string): set<Labels> {
    match LastOp(h, uid)
    case None => {}
    case Some(op) => Contributed(op)
  }

  function Uids(h: History): set<string> {
    set op | op in h :: op.uid
  }

  function OwnersOf(h: History): Owners {
    map u | u in Uids(h) && Owned(h, u) != {} :: Owned(h, u)
  }

  function Holders(own: Owners, l: Labels): set<string> {
    set u | u in own && l in own[u]
  }

  function RefCount(own: Owners, l: Labels): nat {
    |Holders(own, l)|
  }

  /** The union of what the reports contribute. */
  function Live(own: Owners): set<Labels> {
    set u, l | u in own && l in own[u] :: l
  }

  function RefCounts(own: Owners): map<Labels, int> {
    map l | l in Live(own) :: RefCount(own, l)
  }

  /** The last of the series with tuple l. */
  function LastIn(series: seq<Series>, l: Labels): Option<Series> {
    if series == [] then None
    else if series[|series| - 1].labels == l then Some(series[|series| - 1])
    else LastIn(series[..|series| - 1], l)
  }

  /** The series most recently written to tuple l. */
  function LastWrite(h: History, l: Labels): Option<Series> {
    if h == [] then None
    else
      var op := h[|h| - 1];
      var s := if op.Set? then LastIn(op.series, l) else None;
      if s.Some? then s else LastWrite(h[..|h| - 1], l)
  }

  function Value(h: History, l: Labels, f: Field): Float {
    match LastWrite(h, l)
    case None => ZERO
    case Some(s) => FieldOf(s, f)
  }

  /** The contents of a gauge after h. */
  function Gauge(h: History, f: Field): map<Labels, Float> {
    map l | l in Live(OwnersOf(h)) :: Value(h, l, f)
  }

  /** Enrichment passes, and series set over all of them, in h. */
  function Passes(h: History): nat {
    if h == [] then 0 else Passes(h[..|h| - 1]) + if h[|h| - 1].Set? then 1 else 0
  }

  function SeriesSet(h: History): nat {
    if h == [] then 0 else SeriesSet(h[..|h| - 1]) + |Contributed(h[|h| - 1])|
  }

  // ----- Basic facts -----

  lemma {:induction false} LastOpMember(h: History, uid: string)
    ensures LastOp(h, uid).Some? ==> LastOp(h, uid).value in h && LastOp(h, uid).value.uid == uid
    ensures LastOp(h, uid).Some? <==> uid in Uids(h)
  {
    if h != [] {
      LastOpMember(h[..|h| - 1], uid);
      assert h == h[..|h| - 1] + [h[|h| - 1]];
    }
  }

  lemma OwnersAre(h: History)
    ensures forall u :: u in OwnersOf(h) <==> Owned(h, u) != {}
    ensures forall u | u in OwnersOf(h) :: OwnersOf(h)[u] == Owned(h, u)
  {
    forall u
      ensures LastOp(h, u).Some? <==> u in Uids(h)
    {
      LastOpMember(h, u);
    }
  }

  lemma LiveIffOwned(h: History, l: Labels)
    ensures l in Live(OwnersOf(h)) <==> exists u :: l in Owned(h, u)
  {
    OwnersAre(h);
  }

  lemma {:induction false} LastInFound(series: seq<Series>, l: Labels)
    ensures LastIn(series, l).Some? <==> l in LabelSet(series)
    ensures LastIn(series, l).Some? ==> LastIn(series, l).value in series && LastIn(series, l).value.labels == l
  {
    if series != [] {
      LastInFound(series[..|series| - 1], l);
      assert series == series[..|series| - 1] + [series[|series| - 1]];
    }
  }

  /** A written tuple shows a series of that tuple from some operation of the history; an
      owned tuple has been written. */
  lemma {:induction false} LastWriteFound(h: History, l: Labels)
    ensures LastWrite(h, l).Some? ==> LastWrite(h, l).value.labels == l
    ensures LastWrite(h, l).Some? ==> exists op :: op in h && op.Set? && LastWrite(h, l).value in op.series
    ensures forall u | l in Owned(h, u) :: LastWrite(h, l).Some?
  {
    if h != [] {
      var op := h[|h| - 1];
      var init := h[..|h| - 1];
      LastWriteFound(init, l);
      assert h == init + [op];
      if op.Set? {
        LastInFound(op.series, l);
      }
      forall u | l in Owned(h, u)
        ensures LastWrite(h, l).Some?
      {
        if op.uid != u {
          assert l in Owned(init, u);
        }
      }
    }
  }

  /** The report whose operation wrote tuple l last. */
  function LastWriter(h: History, l: Labels): Option<string> {
    if h == [] then None
    else
      var op := h[|h| - 1];
      if op.Set? && LastIn(op.series, l).Some? then Some(op.uid) else LastWriter(h[..|h| - 1], l)
  }

  /** The last writer has set the tuple at some time; if it still contributes it, what the tuple
      shows is the writer's latest series of it. */
  lemma {:induction false} LastWriterShown(h: History, l: Labels)
    ensures LastWriter(h, l).Some? <==> LastWrite(h, l).Some?
    ensures LastWriter(h, l).Some? ==>
              var u := LastWriter(h, l).value;
              && (exists op :: op in h && op.uid == u && l in Contributed(op))
              && (l in Owned(h, u) ==> LastWrite(h, l) == LastIn(LastOp(h, u).value.series, l))
  {
    if h != [] {
      var init, op := h[..|h| - 1], h[|h| - 1];
      assert h == init + [op];
      LastWriterShown(init, l);
      AppendOwned(init, op);
      if op.Set? {
        LastInFound(op.series, l);
      }
    }
  }

  /** Appending an operation changes what its own report contributes and nothing else. */
  lemma AppendOwned(h: History, op: Op)
    ensures forall u :: Owned(h + [op], u) == if u == op.uid then Contributed(op) else Owned(h, u)
    ensures forall u :: LastOp(h + [op], u) == if u == op.uid then Some(op) else LastOp(h, u)
  {
    assert (h + [op])[..|h|] == h;
  }

  lemma AppendWrite(h: History, op: Op, l: Labels)
    ensures LastWrite(h + [op], l)
         == if op.Set? && LastIn(op.series, l).Some? then LastIn(op.series, l) else LastWrite(h, l)
  {
    assert (h + [op])[..|h|] == h;
  }

  lemma AppendOwners(h: History, op: Op)
    ensures OwnersOf(h + [op])
         == if Contributed(op) == {} then OwnersOf(h) - {op.uid} else OwnersOf(h)[op.uid := Contributed(op)]
  {
    AppendOwned(h, op);
    OwnersAre(h);
    OwnersAre(h + [op]);
  }

  /** Replacing what one report contributes moves each tuple's count by at most one. */
  lemma RefCountMoves(own: Owners, own': Owners, uid: string, l: Labels)
    requires forall u | u != uid :: Lookup(own, u) == Lookup(own', u)
    ensures var before, after := uid in own && l in own[uid], uid in own' && l in own'[uid];
            RefCount(own', l) == RefCount(own, l) + (if after then 1 else 0) - (if before then 1 else 0)
  {
    SameOthers(own, own', uid, l);
    HoldersSplit(own, uid, l);
    HoldersSplit(own', uid, l);
  }

  lemma SameOthers(own: Owners, own': Owners, uid: string, l: Labels)
    requires forall u | u != uid :: Lookup(own, u) == Lookup(own', u)
    ensures Holders(own, l) - {uid} == Holders(own', l) - {uid}
  {
    forall u | u != uid
      ensures u in Holders(own, l) <==> u in Holders(own', l)
    {
      assert Lookup(own, u) == Lookup(own', u);
    }
  }

  lemma HoldersSplit(own: Owners, uid: string, l: Labels)
    ensures RefCount(own, l) == |Holders(own, l) - {uid}| + if uid in own && l in own[uid] then 1 else 0
  {
    var others := Holders(own, l) - {uid};
    assert Holders(own, l) == if uid in own && l in own[uid] then others + {uid} else others;
  }

  lemma LiveIffCounted(own: Owners, l: Labels)
    ensures l in Live(own) <==> RefCount(own, l) > 0
  {
    if l in Live(own) {
      var u :| u in own && l in own[u];
      assert u in Holders(own, l);
    } else {
      assert Holders(own, l) == {};
    }
  }

  // ----- Last, by position -----

  /** Operation i is on the report, and no later one is. */
  predicate LastAt(h: History, uid: string, i: nat) {
    i < |h| && h[i].uid == uid && forall j | i < j < |h| :: h[j].uid != uid
  }

  lemma {:induction false} LastOpIs(h: History, uid: string)
    ensures forall i: nat | LastAt(h, uid, i) :: LastOp(h, uid) == Some(h[i])
    ensures (forall i | 0 <= i < |h| :: h[i].uid != uid) ==> LastOp(h, uid) == None
  {
    if h != [] {
      var n := |h| - 1;
      LastOpIs(h[..n], uid);
      if h[n].uid != uid {
        forall i: nat
          ensures LastAt(h, uid, i) ==> i < n && LastAt(h[..n], uid, i)
        {
        }
      }
    }
  }

  predicate LastSeriesAt(series: seq<Series>, l: Labels, n: nat) {
    n < |series| && series[n].labels == l && forall m | n < m < |series| :: series[m].labels != l
  }

  lemma {:induction false} LastInIs(series: seq<Series>, l: Labels)
    ensures forall n: nat | LastSeriesAt(series, l, n) :: LastIn(series, l) == Some(series[n])
    ensures (forall n | 0 <= n < |series| :: series[n].labels != l) ==> LastIn(series, l) == None
  {
    if series != [] {
      var last := |series| - 1;
      LastInIs(series[..last], l);
      if series[last].labels != l {
        forall n: nat
          ensures LastSeriesAt(series, l, n) ==> n < last && LastSeriesAt(series[..last], l, n)
        {
        }
      }
    }
  }

  predicate Writes(op: Op, l: Labels) {
    op.Set? && exists n :: 0 <= n < |op.series| && op.series[n].labels == l
  }

  /** Series n of operation i is the last one written to the tuple. */
  predicate LastWrittenAt(h: History, l: Labels, i: nat, n: nat) {
    && i < |h| && h[i].Set? && LastSeriesAt(h[i].series, l, n)
    && forall j | i < j < |h| :: !Writes(h[j], l)
  }

  lemma {:induction false} LastWriteIs(h: History, l: Labels, i: nat, n: nat)
    requires LastWrittenAt(h, l, i, n)
    ensures LastWrite(h, l) == Some(h[i].series[n])
  {
    var last := |h| - 1;
    if h[last].Set? {
      LastInIs(h[last].series, l);
    }
    if i < last {
      assert !Writes(h[last], l);
      assert forall j | i < j < last :: h[..last][j] == h[j];
      LastWriteIs(h[..last], l, i, n);
    }
  }
}
