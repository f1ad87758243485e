/** ReplicaSet to Deployment roll-up of workloads. */
module Resolver {
  import opened Base
  import opened Text
  import opened Report

  datatype OwnerReference = OwnerReference(kind: string, name: string, controller: Option<bool>)

  /** The ReplicaSet lister by namespace and name: a missing key is a lister miss. */
  type Lister = map<(string, string), seq<OwnerReference>>

  /** No lister at all means roll-up is disabled and the identity resolver is used. */
  type Rollup = Option<Lister>

  predicate IsDeploymentOwner(o: OwnerReference) {
    o.controller == Some(true) && o.kind == "Deployment"
  }

  /** The first controlling Deployment among the owners. */
  function DeploymentOwner(owners: seq<OwnerReference>): Option<OwnerReference> {
    if owners == [] then None
    else if IsDeploymentOwner(owners[0]) then Some(owners[0])
    else DeploymentOwner(owners[1..])
  }

  function Resolved(rollup: Rollup, w: Workload): Workload {
    if rollup.None? || w.name == "" || !EqualFold(w.kind, "ReplicaSet") then w
    else match Lookup(rollup.value, (w.namespace, w.name))
      case None => w
      case Some(owners) =>
        match DeploymentOwner(owners)
        case None => w
        case Some(o) => w.(name := o.name, kind := "Deployment")
  }

  method Resolve(rollup: Rollup, w: Workload) returns (r: Workload)
    ensures r == Resolved(rollup, w)
  {
    r := w;
    if rollup.None? || w.name == "" || !EqualFold(w.kind, "ReplicaSet") {
      return;
    }
    var found := Lookup(rollup.value, (w.namespace, w.name));
    if found.None? {
      return;
    }
    var owners := found.value;
    for i := 0 to |owners|
      invariant DeploymentOwner(owners) == DeploymentOwner(owners[i..])
    {
      if IsDeploymentOwner(owners[i]) {
        r := r.(name := owners[i].name, kind := "Deployment");
        return;
      }
    }
  }

  /** Owner i is the first controlling Deployment. */
  predicate FirstOwner(owners: seq<OwnerReference>, i: nat) {
    && i < |owners| && owners[i].controller == Some(true) && owners[i].kind == "Deployment"
    && forall j | 0 <= j < i :: !(owners[j].controller == Some(true) && owners[j].kind == "Deployment")
  }

  /** The lister knows the workload as a named ReplicaSet with these owners. */
  predicate OwnersKnown(rollup: Rollup, w: Workload, owners: seq<OwnerReference>) {
    && rollup.Some? && w.name != "" && InAnyCase(w.kind, "replicaset", "REPLICASET")
    && Lookup(rollup.value, (w.namespace, w.name)) == Some(owners)
  }

  /** Roll-up names the first controlling Deployment of a ReplicaSet the lister knows, keeping
      namespace and container; every other workload passes through unchanged; and for a fixed
      lister roll-up is idempotent. */
  lemma ResolvedProperties(rollup: Rollup, w: Workload)
    ensures var r := Resolved(rollup, w);
            && (forall owners: seq<OwnerReference>, i: nat | OwnersKnown(rollup, w, owners) && FirstOwner(owners, i) ::
                 r == Workload(w.namespace, owners[i].name, "Deployment", w.container))
            && ((forall owners: seq<OwnerReference>, i: nat ::
                   OwnersKnown(rollup, w, owners) ==> !FirstOwner(owners, i)) ==> r == w)
            && Resolved(rollup, r) == r
  {
    FoldsTo(w.kind, "ReplicaSet", "replicaset", "REPLICASET");
    FoldsTo("Deployment", "ReplicaSet", "replicaset", "REPLICASET");
    assert !InAnyCase("Deployment", "replicaset", "REPLICASET") by {
      assert "Deployment"[0] == 'D';
    }
    if rollup.Some? && (w.namespace, w.name) in rollup.value {
      var owners := rollup.value[(w.namespace, w.name)];
      DeploymentOwnerFound(owners);
      assert EqualFold(w.kind, "ReplicaSet") && w.name != "" ==> OwnersKnown(rollup, w, owners);
    }
  }

  lemma {:induction false} DeploymentOwnerFound(owners: seq<OwnerReference>)
    ensures DeploymentOwner(owners).Some? <==> exists i: nat :: FirstOwner(owners, i)
    ensures forall i: nat | FirstOwner(owners, i) :: DeploymentOwner(owners) == Some(owners[i])
  {
    if owners != [] {
      DeploymentOwnerFound(owners[1..]);
      if IsDeploymentOwner(owners[0]) {
        assert FirstOwner(owners, 0);
      } else {
        forall i: nat
          ensures FirstOwner(owners, i + 1) <==> FirstOwner(owners[1..], i)
        {
          if FirstOwner(owners, i + 1) {
            assert forall j | 0 <= j < i :: owners[1..][j] == owners[j + 1];
          }
        }
        assert forall i: nat | FirstOwner(owners, i) :: i > 0 && FirstOwner(owners[1..], i - 1);
      }
    }
  }
}
