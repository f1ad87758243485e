/** Roll-up and series lifetime: many reports, one Deployment, shared series. */
module RollupLaws {
  import opened Base
  import opened Controller
  import opened Enrich
  import opened Ledger
  import opened Report
  import opened Resolver
  import Epss
  import Kev
  import opened Text

  /** What happens to a report, as the store sees it: enriched under some snapshots, or gone. */
  datatype Event =
    | Seen(uid: string, rep: VulnerabilityReport, epss: Option<Epss.Snapshot>, kev: Option<Kev.Snapshot>)
    | Gone(uid: string)

  function OpOf(rollup: Rollup, ev: Event): Op {
    match ev
    case Seen(uid, rep, e, k) => Set(uid, Contribution(rollup, rep, e, k))
    case Gone(uid) => Delete(uid)
  }

  function OpsOf(rollup: Rollup, events: seq<Event>): (h: History)
    ensures |h| == |events|
  {
    seq(|events|, i requires 0 <= i < |events| => OpOf(rollup, events[i]))
  }

  /** The latest version of a report, if it has one. */
  function LatestReport(events: seq<Event>, uid: string): Option<VulnerabilityReport> {
    if events == [] then None
    else
      var ev := events[|events| - 1];
      if ev.uid == uid then (if ev.Seen? then Some(ev.rep) else None)
      else LatestReport(events[..|events| - 1], uid)
  }

  /** An entry of the report contributes the tuple, its workload rolled up. */
  ghost predicate ReportContributes(rollup: Rollup, rep: VulnerabilityReport, l: Labels) {
    exists i :: 0 <= i < |rep.vulnerabilities| && Contributes(rep.vulnerabilities[i], Resolved(rollup, rep.workload), l)
  }

  /** The latest version of the report contributes the tuple. */
  ghost predicate ContributesNow(rollup: Rollup, events: seq<Event>, uid: string, l: Labels) {
    LatestReport(events, uid).Some? && ReportContributes(rollup, LatestReport(events, uid).value, l)
  }

  lemma {:induction false} OwnedByLatest(rollup: Rollup, events: seq<Event>, uid: string, l: Labels)
    ensures l in Owned(OpsOf(rollup, events), uid) <==> ContributesNow(rollup, events, uid, l)
  {
    if events != [] {
      var n := |events| - 1;
      var ev := events[n];
      assert OpsOf(rollup, events)[..n] == OpsOf(rollup, events[..n]);
      OwnedByLatest(rollup, events[..n], uid, l);
      if ev.uid == uid && ev.Seen? {
        var vs, w := ev.rep.vulnerabilities, Resolved(rollup, ev.rep.workload);
        EnrichmentShape(ev.rep, w, ev.epss, ev.kev);
        TuplesOrdered(vs, w);
        assert l in Tuples(vs, w) <==> FirstIndex(vs, w, l) < |vs|;
      }
    }
  }

  /** Over every history of any number of reports, a tuple's gauge is present exactly while the
      latest version of at least one report has an entry that contributes it. */
  lemma SharedLifetime(rollup: Rollup, events: seq<Event>, l: Labels, f: Field)
    ensures l in Gauge(OpsOf(rollup, events), f) <==> exists uid :: ContributesNow(rollup, events, uid, l)
  {
    var h := OpsOf(rollup, events);
    LiveIffOwned(h, l);
    forall uid
      ensures l in Owned(h, uid) <==> ContributesNow(rollup, events, uid, l)
    {
      OwnedByLatest(rollup, events, uid, l);
    }
    assert l in Gauge(h, f) <==> l in Live(OwnersOf(h));
  }

  /** The workload is a ReplicaSet the lister knows to be controlled by the Deployment. */
  ghost predicate RollsUpTo(rollup: Rollup, w: Workload, deployment: string) {
    exists owners: seq<OwnerReference>, i: nat ::
      OwnersKnown(rollup, w, owners) && FirstOwner(owners, i) && owners[i].name == deployment
  }

  /** Reports of ReplicaSets of one Deployment, in one namespace and for one container, share
      series: such a report keeps the Deployment's tuple of a vulnerability shown exactly when
      its own latest version lists it, whichever ReplicaSet it scanned. */
  lemma RolledUpReportsShare(rollup: Rollup, rep: VulnerabilityReport, deployment: string, v: Vulnerability)
    requires RollsUpTo(rollup, rep.workload, deployment)
    ensures var l := LabelsFor(v, Workload(rep.workload.namespace, deployment, "Deployment", rep.workload.container));
            ReportContributes(rollup, rep, l) <==>
              exists i :: 0 <= i < |rep.vulnerabilities| && SameFinding(rep.vulnerabilities[i], v)
  {
    var w := Workload(rep.workload.namespace, deployment, "Deployment", rep.workload.container);
    var l := LabelsFor(v, w);
    ResolvedProperties(rollup, rep.workload);
    assert Resolved(rollup, rep.workload) == w;
    forall i | 0 <= i < |rep.vulnerabilities|
      ensures Contributes(rep.vulnerabilities[i], w, l) <==> SameFinding(rep.vulnerabilities[i], v)
    {
      ContributesLabels(rep.vulnerabilities[i], w, l);
    }
  }

  /** The same CVE in the same resource at the same severity, up to letter case and blanks. */
  predicate SameFinding(a: Vulnerability, b: Vulnerability) {
    && NormalizeId(a.vulnerabilityID) == NormalizeId(b.vulnerabilityID) && NormalizeId(a.vulnerabilityID) != ""
    && a.resource == b.resource && NormalizeSeverity(a.severity) == NormalizeSeverity(b.severity)
  }
}
