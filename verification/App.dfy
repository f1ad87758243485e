/** The glue: the live feed snapshots, the reconcile operation and the readiness signal. */
module App {
  import opened Base
  import opened Enrich
  import opened Ledger
  import opened Report
  import Epss
  import Kev
  import Metrics

  type Marker = (string, string)

  /** A successfully loaded feed: the snapshot and the content marker read off it. */
  datatype Loaded<S> = Loaded(marker: Marker, snap: S)

  function Snap<S>(r: Option<Loaded<S>>): Option<S> {
    match r
    case None => None
    case Some(l) => Some(l.snap)
  }

  /** A feed's snapshot pointer and its loaded flag; two separate atomic variables. */
  class Slot<S> {
    var pointer: Option<Loaded<S>>
    var loaded: bool

    constructor ()
      ensures pointer == None && !loaded
    {
      pointer, loaded := None, false;
    }

    /** Installs a loaded snapshot. */
    method Apply(r: Loaded<S>)
      modifies this
      ensures pointer == Some(r) && loaded
    {
      pointer := Some(r);
      loaded := true;
    }
  }

  /** Ready means the cache has synced and each feed has loaded at least once. */
  predicate AllReady(cacheSynced: bool, epssLoaded: bool, kevLoaded: bool) {
    cacheSynced && epssLoaded && kevLoaded
  }

  /** What reconciling a key does to the store. */
  function ReconcileOp(key: string, rep: Option<VulnerabilityReport>, w: Workload, found: bool,
                       e: Option<Epss.Snapshot>, k: Option<Kev.Snapshot>): Op
  {
    if !found then Delete(key) else Set(key, Enrichment(rep, w, e, k))
  }

  class App {
    const metrics: Metrics.Metrics
    const epss: Slot<Epss.Snapshot>
    const kev: Slot<Kev.Snapshot>
    var cacheSynced: bool

    constructor (enableRansomware: bool)
      ensures fresh(metrics) && fresh(epss) && fresh(kev)
      ensures metrics.Valid() && metrics.history == []
      ensures epss.pointer == None && kev.pointer == None && !epss.loaded && !kev.loaded && !cacheSynced
    {
      metrics := new Metrics.Metrics(enableRansomware);
      epss := new Slot();
      kev := new Slot();
      cacheSynced := false;
    }

    /** Enriches an existing report into its series, or drops the series of a missing one. */
    method Reconcile(key: string, rep: Option<VulnerabilityReport>, w: Workload, found: bool)
      requires metrics.Valid()
      modifies metrics
      ensures metrics.Valid()
      ensures metrics.history
           == old(metrics.history) + [ReconcileOp(key, rep, w, found, Snap(epss.pointer), Snap(kev.pointer))]
    {
      if !found {
        metrics.DeleteReport(key);
        return;
      }
      var series := EnrichReport(rep, w, Snap(epss.pointer), Snap(kev.pointer));
      metrics.SetReport(key, series);
    }

    /** Reflects the sync state into readiness and into its own gauge, and nothing else. */
    method OnSynced(synced: bool)
      modifies this, metrics`cacheSynced
      ensures Ready() == AllReady(synced, epss.loaded, kev.loaded)
      ensures metrics.cacheSynced == if synced then Finite(1.0) else Finite(0.0)
    {
      cacheSynced := synced;
      metrics.SetCacheSynced(synced);
    }

    predicate Ready()
      reads this, epss, kev
    {
      AllReady(cacheSynced, epss.loaded, kev.loaded)
    }
  }
}
