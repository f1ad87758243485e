/** The pure core: the series a report contributes under the current feed snapshots. */
module Enrich {
  import opened Base
  import opened Text
  import opened Report
  import Epss
  import Kev

  datatype Labels = Labels(cve: string, namespace: string, workload: string, workloadKind: string,
                           container: string, resource: string, severity: string)
  {
    /** The label values in the registered order. */
    function Values(): seq<string> {
      [cve, namespace, workload, workloadKind, container, resource, severity]
    }
  }

  /** The label names in the order the gauges are registered with. */
  const LABEL_NAMES := ["cve", "namespace", "workload", "workload_kind", "container", "resource", "severity"]

  /** The label with this name. */
  function Label(l: Labels, name: string): Option<string> {
    match name
    case "cve" => Some(l.cve)
    case "namespace" => Some(l.namespace)
    case "workload" => Some(l.workload)
    case "workload_kind" => Some(l.workloadKind)
    case "container" => Some(l.container)
    case "resource" => Some(l.resource)
    case "severity" => Some(l.severity)
    case _ => None
  }

  /** Each value stands at the place of its name. */
  lemma ValuesNamed(l: Labels, i: nat)
    requires i < |LABEL_NAMES|
    ensures |l.Values()| == |LABEL_NAMES| && Label(l, LABEL_NAMES[i]) == Some(l.Values()[i])
  {
  }

  datatype Series = Series(labels: Labels, epssScore: Float, epssPercentile: Float, kev: Float, kevRansomware: Float)

  /** Gauges are addressed by label values; distinct tuples are distinct series. */
  lemma ValuesInjective(a: Labels, b: Labels)
    requires a.Values() == b.Values()
    ensures a == b
  {
    assert forall i | 0 <= i < 7 :: a.Values()[i] == b.Values()[i];
    assert a.Values()[0] == a.cve && a.Values()[1] == a.namespace && a.Values()[2] == a.workload;
  }

  function NormalizeSeverity(s: string): string {
    var t := ToUpper(TrimSpace(s));
    if t == "" then "UNKNOWN" else t
  }

  /** The label is never empty, and has no blank end and no lower-case letter. */
  lemma SeverityNormal(s: string)
    ensures var r := NormalizeSeverity(s); r != "" && Trimmed(r) && !HasLowerCase(r)
  {
    var left, right := TrimSplits(s);
    var t := TrimSpace(s);
    if t != "" {
      var r := ToUpper(t);
      assert r[0] == Upper(t[0]) && r[|r| - 1] == Upper(t[|t| - 1]);
    }
  }

  /** Exactly when the severity label is the report's severity verbatim: when it is not empty,
      has no white space at either end and no lower-case letter. */
  lemma SeverityVerbatim(s: string)
    ensures NormalizeSeverity(s) == s <==> s != "" && Trimmed(s) && !HasLowerCase(s)
  {
    SeverityNormal(s);
    if s != "" && Trimmed(s) && !HasLowerCase(s) {
      TrimPadded("", s, "");
      assert "" + s + "" == s;
      assert ToUpper(s) == s;
    }
  }

  /** The empty severity, one in lower case and one with a blank are not kept. */
  lemma SeverityChanged()
    ensures NormalizeSeverity("") == "UNKNOWN"
    ensures NormalizeSeverity("high") == "HIGH" && NormalizeSeverity(" HIGH") == "HIGH"
  {
    TrimPadded(" ", "HIGH", "");
    TrimPadded("", "high", "");
    assert " " + "HIGH" + "" == " HIGH" && "" + "high" + "" == "high";
    assert ToUpper("HIGH") == "HIGH" && ToUpper("high") == "HIGH";
  }

  function BoolToFloat(b: bool): Float {
    if b then ONE else ZERO
  }

  function LabelsFor(v: Vulnerability, w: Workload): Labels {
    Labels(NormalizeId(v.vulnerabilityID), w.namespace, w.name, w.kind, w.container, v.resource,
           NormalizeSeverity(v.severity))
  }

  /** The series of a tuple: its values are read off the snapshots through its CVE alone. */
  function SeriesFor(l: Labels, e: Option<Epss.Snapshot>, k: Option<Kev.Snapshot>): Series {
    var sc := Epss.LookupScore(e, l.cve);
    Series(l,
           if sc.Some? then sc.value.score else ZERO,
           if sc.Some? then sc.value.percentile else ZERO,
           BoolToFloat(Kev.Has(k, l.cve)),
           BoolToFloat(Kev.IsRansomware(k, l.cve)))
  }

  /** The tuples of the entries that name a CVE, each where it first appears. */
  function Tuples(vs: seq<Vulnerability>, w: Workload): seq<Labels> {
    if vs == [] then []
    else
      var before := Tuples(vs[..|vs| - 1], w);
      var v := vs[|vs| - 1];
      if NormalizeId(v.vulnerabilityID) == "" || LabelsFor(v, w) in before then before
      else before + [LabelsFor(v, w)]
  }

  function SeriesForAll(ls: seq<Labels>, e: Option<Epss.Snapshot>, k: Option<Kev.Snapshot>): (r: seq<Series>)
    ensures |r| == |ls| && forall i | 0 <= i < |ls| :: r[i] == SeriesFor(ls[i], e, k)
  {
    seq(|ls|, i requires 0 <= i < |ls| => SeriesFor(ls[i], e, k))
  }

  function Enrichment(rep: Option<VulnerabilityReport>, w: Workload, e: Option<Epss.Snapshot>, k: Option<Kev.Snapshot>)
    : seq<Series>
  {
    if rep.None? then [] else SeriesForAll(Tuples(rep.value.vulnerabilities, w), e, k)
  }

  /** One more entry adds its tuple unless it names no CVE or the tuple is already there. */
  lemma TuplesNext(vs: seq<Vulnerability>, i: nat, w: Workload)
    requires i < |vs|
    ensures var before := Tuples(vs[..i], w);
            Tuples(vs[..i + 1], w)
              == if NormalizeId(vs[i].vulnerabilityID) == "" || LabelsFor(vs[i], w) in before then before
                 else before + [LabelsFor(vs[i], w)]
  {
    assert vs[..i + 1][..i] == vs[..i];
  }

  lemma SeriesForNext(ls: seq<Labels>, l: Labels, e: Option<Epss.Snapshot>, k: Option<Kev.Snapshot>)
    ensures SeriesForAll(ls + [l], e, k) == SeriesForAll(ls, e, k) + [SeriesFor(l, e, k)]
  {
  }

  method EnrichReport(rep: Option<VulnerabilityReport>, w: Workload, e: Option<Epss.Snapshot>, k: Option<Kev.Snapshot>)
    returns (out: seq<Series>)
    ensures out == Enrichment(rep, w, e, k)
  {
    if rep.None? {
      return [];
    }
    var vs := rep.value.vulnerabilities;
    var seen: set<Labels> := {};
    out := [];
    ghost var ls: seq<Labels> := [];
    for i := 0 to |vs|
      invariant ls == Tuples(vs[..i], w) && out == SeriesForAll(ls, e, k)
      invariant forall l :: l in seen <==> l in ls
    {
      TuplesNext(vs, i, w);
      var v := vs[i];
      var cve := NormalizeId(v.vulnerabilityID);
      if cve == "" {
        continue;
      }
      var lbl := Labels(cve, w.namespace, w.name, w.kind, w.container, v.resource, NormalizeSeverity(v.severity));
      if lbl in seen {
        continue;
      }
      seen := seen + {lbl};
      var sc := Epss.LookupScore(e, cve);
      out := out + [Series(lbl,
                           if sc.Some? then sc.value.score else ZERO,
                           if sc.Some? then sc.value.percentile else ZERO,
                           BoolToFloat(Kev.Has(k, cve)),
                           BoolToFloat(Kev.IsRansomware(k, cve)))];
      SeriesForNext(ls, lbl, e, k);
      ls := ls + [lbl];
    }
    assert vs[..|vs|] == vs;
  }

  // ----- What enrichment promises -----

  /** An entry that contributes the tuple l. */
  predicate Contributes(v: Vulnerability, w: Workload, l: Labels) {
    && Uppercased(l.cve, TrimSpace(v.vulnerabilityID)) && l.cve != ""
    && l.namespace == w.namespace && l.workload == w.name && l.workloadKind == w.kind && l.container == w.container
    && l.resource == v.resource
    && (if Blank(v.severity) then l.severity == "UNKNOWN" else Uppercased(l.severity, TrimSpace(v.severity)))
  }

  lemma ContributesLabels(v: Vulnerability, w: Workload, l: Labels)
    ensures Contributes(v, w, l) <==> NormalizeId(v.vulnerabilityID) != "" && LabelsFor(v, w) == l
  {
    BlankTrims(v.severity);
    NormalFormIs(v.vulnerabilityID, l.cve);
    UppercasedIs(l.severity, TrimSpace(v.severity));
  }

  /** The first entry that contributes the tuple l, or |vs| when none does. */
  function FirstIndex(vs: seq<Vulnerability>, w: Workload, l: Labels): (i: nat)
    ensures i <= |vs|
    ensures i < |vs| ==> Contributes(vs[i], w, l)
    ensures forall j | 0 <= j < i :: !Contributes(vs[j], w, l)
  {
    if vs == [] then 0
    else
      var n := |vs| - 1;
      var i := FirstIndex(vs[..n], w, l);
      if i < n || Contributes(vs[n], w, l) then i else |vs|
  }

  /** The values of a tuple read directly under its CVE, with no second normalization. */
  predicate HasValues(s: Series, e: Option<Epss.Snapshot>, k: Option<Kev.Snapshot>) {
    var sc := if e.Some? then Lookup(e.value.scores, s.labels.cve) else None;
    && s.epssScore == (if sc.Some? then sc.value.score else Finite(0.0))
    && s.epssPercentile == (if sc.Some? then sc.value.percentile else Finite(0.0))
    && s.kev == (if k.Some? && s.labels.cve in k.value.present then Finite(1.0) else Finite(0.0))
    && s.kevRansomware == (if k.Some? && s.labels.cve in k.value.ransomware then Finite(1.0) else Finite(0.0))
  }

  function LabelSet(series: seq<Series>): set<Labels> {
    set s | s in series :: s.labels
  }

  /** The reference: what it means for a list of series to enrich the entries, without saying
      how. The tuples are exactly those some entry contributes, strictly ordered by the entry
      that first contributes them (so each appears once), with the values of their CVEs. */
  ghost predicate Enriches(out: seq<Series>, vs: seq<Vulnerability>, w: Workload,
                           e: Option<Epss.Snapshot>, k: Option<Kev.Snapshot>)
  {
    && (forall l :: l in LabelSet(out) <==> FirstIndex(vs, w, l) < |vs|)
    && (forall m, n | 0 <= m < n < |out| :: FirstIndex(vs, w, out[m].labels) < FirstIndex(vs, w, out[n].labels))
    && (forall n | 0 <= n < |out| :: HasValues(out[n], e, k))
  }

  lemma {:induction false} TuplesOrdered(vs: seq<Vulnerability>, w: Workload)
    ensures forall l :: l in Tuples(vs, w) <==> FirstIndex(vs, w, l) < |vs|
    ensures forall m, n | 0 <= m < n < |Tuples(vs, w)| ::
              FirstIndex(vs, w, Tuples(vs, w)[m]) < FirstIndex(vs, w, Tuples(vs, w)[n])
  {
    if vs != [] {
      var n := |vs| - 1;
      TuplesOrdered(vs[..n], w);
      var before, all := Tuples(vs[..n], w), Tuples(vs, w);
      forall l
        ensures Contributes(vs[n], w, l) <==> NormalizeId(vs[n].vulnerabilityID) != "" && LabelsFor(vs[n], w) == l
      {
        ContributesLabels(vs[n], w, l);
      }
      forall l
        ensures l in before ==> FirstIndex(vs, w, l) == FirstIndex(vs[..n], w, l) < n
        ensures l !in before ==> FirstIndex(vs, w, l) == if Contributes(vs[n], w, l) then n else |vs|
      {
      }
      forall i, j | 0 <= i < j < |all|
        ensures FirstIndex(vs, w, all[i]) < FirstIndex(vs, w, all[j])
      {
        assert all[i] == before[i];
        if j < |before| {
          assert all[j] == before[j];
        }
      }
    }
  }

  /** A tuple's CVE is in normal form, so looking it up normalizes nothing further. */
  lemma SeriesForHasValues(vs: seq<Vulnerability>, w: Workload, l: Labels, e: Option<Epss.Snapshot>,
                           k: Option<Kev.Snapshot>)
    requires FirstIndex(vs, w, l) < |vs|
    ensures forall s: Series :: s == SeriesFor(l, e, k) <==> s.labels == l && HasValues(s, e, k)
  {
    var raw := vs[FirstIndex(vs, w, l)].vulnerabilityID;
    NormalFormIs(raw, l.cve);
    NormalizeIdempotent(raw);
  }

  lemma {:induction false} OrderedUnique(a: seq<Labels>, b: seq<Labels>, f: Labels -> int)
    requires forall m, n | 0 <= m < n < |a| :: f(a[m]) < f(a[n])
    requires forall m, n | 0 <= m < n < |b| :: f(b[m]) < f(b[n])
    requires forall l :: l in a <==> l in b
    ensures a == b
  {
    if a != [] || b != [] {
      var first := if a != [] then a[0] else b[0];
      assert first in a && first in b;
      var m, n := |a| - 1, |b| - 1;
      assert a[m] in b && b[n] in a;
      assert a[m] == b[n];
      forall l
        ensures l in a[..m] <==> l in a && l != a[m]
        ensures l in b[..n] <==> l in b && l != b[n]
      {
      }
      OrderedUnique(a[..m], b[..n], f);
    }
  }

  /** Enrichment is the one list of series the reference allows; of no report, none. */
  lemma EnrichmentExact(rep: Option<VulnerabilityReport>, w: Workload, e: Option<Epss.Snapshot>,
                        k: Option<Kev.Snapshot>, out: seq<Series>)
    ensures out == Enrichment(rep, w, e, k)
       <==> Enriches(out, if rep.Some? then rep.value.vulnerabilities else [], w, e, k)
  {
    var vs := if rep.Some? then rep.value.vulnerabilities else [];
    var ls, series := Tuples(vs, w), Enrichment(rep, w, e, k);
    TuplesOrdered(vs, w);
    forall l | FirstIndex(vs, w, l) < |vs|
      ensures forall s: Series :: s == SeriesFor(l, e, k) <==> s.labels == l && HasValues(s, e, k)
    {
      SeriesForHasValues(vs, w, l, e, k);
    }
    LabelsInOrder(series, ls);
    if Enriches(out, vs, w, e, k) {
      var labels := seq(|out|, i requires 0 <= i < |out| => out[i].labels);
      LabelsInOrder(out, labels);
      OrderedUnique(labels, ls, l => FirstIndex(vs, w, l));
      forall n | 0 <= n < |out|
        ensures out[n] == series[n]
      {
        assert out[n].labels == ls[n] && ls[n] in ls;
      }
    }
  }

  lemma LabelsInOrder(series: seq<Series>, labels: seq<Labels>)
    requires |series| == |labels| && forall i | 0 <= i < |series| :: series[i].labels == labels[i]
    ensures forall l :: l in LabelSet(series) <==> l in labels
  {
    forall i | 0 <= i < |series|
      ensures series[i] in series && labels[i] in labels
    {
    }
  }

  /** The tuples depend on the report alone; the values of equal tuples, whichever reports
      they come from, are equal under equal snapshots. */
  lemma EnrichmentShape(rep: VulnerabilityReport, w: Workload, e: Option<Epss.Snapshot>, k: Option<Kev.Snapshot>)
    ensures LabelSet(Enrichment(Some(rep), w, e, k)) == set l | l in Tuples(rep.vulnerabilities, w)
    ensures forall s | s in Enrichment(Some(rep), w, e, k) :: s == SeriesFor(s.labels, e, k)
  {
    LabelsInOrder(Enrichment(Some(rep), w, e, k), Tuples(rep.vulnerabilities, w));
  }
}
