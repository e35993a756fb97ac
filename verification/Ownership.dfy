/** Which namespaces a lease may claim, stamp and delete
    (internal/resources/namespace.go, labels.go, internal/identity/identity.go,
    and mapsEqual of the lease controller). */
module Ownership {
  import opened Api
  import opened Finite

  const PROTECTED_NAMESPACES: set<string> := {"default", "kube-system", "kube-public", "kube-node-lease"}

  predicate IsProtectedNamespace(name: string) {
    name in PROTECTED_NAMESPACES
  }

  predicate ValidNamespaceSpec(s: NamespaceSpec) {
    if s.name != "" then !IsProtectedNamespace(s.name) else s.generateName != ""
  }

  function ManagedLabels(leaseName: string): Labels {
    map[LABEL_MANAGED_BY := MANAGED_BY_VALUE, LABEL_LEASE := leaseName]
  }

  predicate IsManagedByKubeLease(labels: Labels, leaseName: string) {
    Lookup(labels, LABEL_MANAGED_BY) == MANAGED_BY_VALUE && Lookup(labels, LABEL_LEASE) == leaseName
  }

  /** extra, overlaid by base. */
  function Merged(base: Labels, extra: Labels): Labels {
    extra + base
  }

  method MergeLabels(base: Labels, extra: Labels) returns (out: Labels)
    ensures out == Merged(base, extra)
    ensures forall k :: k in base ==> k in out && out[k] == base[k]
    ensures forall k :: k in extra && k !in base ==> k in out && out[k] == extra[k]
    ensures out.Keys == base.Keys + extra.Keys
  {
    out := map[];
    var todo := extra.Keys;
    while todo != {}
      invariant todo <= extra.Keys && out.Keys == extra.Keys - todo
      invariant forall k :: k in out ==> out[k] == extra[k]
      decreases todo
    {
      var k :| k in todo;
      out := out[k := extra[k]];
      todo := todo - {k};
    }
    assert out == extra;
    todo := base.Keys;
    while todo != {}
      invariant todo <= base.Keys && out.Keys == extra.Keys + (base.Keys - todo)
      invariant forall k :: k in out ==> out[k] == if k in base.Keys - todo then base[k] else extra[k]
      decreases todo
    {
      var k :| k in todo;
      out := out[k := base[k]];
      todo := todo - {k};
    }
  }

  /** mapsEqual: same size, and every entry of a is read back from b, where an
      absent key reads as "". */
  predicate MapsEqual(a: Labels, b: Labels) {
    |a| == |b| && forall k :: k in a ==> Lookup(b, k) == a[k]
  }

  method CompareMaps(a: Labels, b: Labels) returns (equal: bool)
    ensures equal <==> MapsEqual(a, b)
  {
    if |a| != |b| {
      return false;
    }
    var todo := a.Keys;
    while todo != {}
      invariant todo <= a.Keys
      invariant forall k :: k in a.Keys - todo ==> Lookup(b, k) == a[k]
      decreases todo
    {
      var k :| k in todo;
      if Lookup(b, k) != a[k] {
        return false;
      }
      todo := todo - {k};
    }
    return true;
  }

  /** An empty value in a stands for a key that b lacks. */
  predicate HidesKey(a: Labels, b: Labels) {
    exists k :: k in a && a[k] == "" && k !in b
  }

  /** The comparison is exact unless an empty value hides a key missing in b. */
  lemma MapsEqualExactly(a: Labels, b: Labels)
    ensures MapsEqual(a, b) && !HidesKey(a, b) <==> a == b
  {
    if MapsEqual(a, b) && !HidesKey(a, b) {
      assert a.Keys <= b.Keys;
      SubsetSize(a.Keys, b.Keys);
    }
  }

  predicate OwnedByLease(ns: Namespace, leaseName: string, leaseUID: string) {
    IsManagedByKubeLease(ns.labels, leaseName)
    && (leaseUID == "" || Lookup(ns.annotations, ANNOTATION_LEASE_UID) == leaseUID)
  }

  predicate CanAdoptNamespace(name: string, ns: Namespace, leaseName: string, leaseUID: string) {
    if IsProtectedNamespace(name) then false
    else if OwnedByLease(ns, leaseName, leaseUID) then true
    else
      var managed := Lookup(ns.labels, LABEL_MANAGED_BY) == MANAGED_BY_VALUE;
      var other := Lookup(ns.labels, LABEL_LEASE);
      var otherUID := Lookup(ns.annotations, ANNOTATION_LEASE_UID);
      if managed && other != "" && other != leaseName then false
      else if managed && otherUID != "" && otherUID != leaseUID then false
      else !managed || other == leaseName
  }

  /** The annotations a lease puts over `base`: its own, then the identities. */
  function StampOver(base: Labels, l: Lease, controlClusterID: string, remoteIdentity: string): Labels {
    var own := (base + l.spec.namespace.annotations)[ANNOTATION_LEASE_UID := l.meta.uid];
    var control := if controlClusterID != "" then own[ANNOTATION_CONTROL_CLUSTER_ID := controlClusterID] else own;
    if remoteIdentity != "" then control[ANNOTATION_TARGET_IDENTITY := remoteIdentity] else control
  }

  function RemoteIdentity(l: Lease): string {
    if l.status.cluster.Some? then l.status.cluster.value.remoteIdentity else ""
  }

  function StampedLabels(l: Lease): Labels {
    Merged(ManagedLabels(l.meta.name), l.spec.namespace.labels)
  }

  /** A namespace created for a lease, by generateName or by name. */
  function FreshNamespace(l: Lease, controlClusterID: string): Namespace {
    Namespace(StampedLabels(l), StampOver(map[], l, controlClusterID, RemoteIdentity(l)), false, None, None, None)
  }

  /** DesiredNamespace: refused for an empty or a protected name. */
  function DesiredNamespace(l: Lease, name: string, controlClusterID: string): Option<Namespace> {
    if name == "" || IsProtectedNamespace(name) then None else Some(FreshNamespace(l, controlClusterID))
  }

  /** An adopted namespace after the patch. */
  function AdoptedNamespace(ns: Namespace, l: Lease, controlClusterID: string): Namespace {
    ns.(labels := StampedLabels(l), annotations := StampOver(ns.annotations, l, controlClusterID, RemoteIdentity(l)))
  }

  /** VerifyNamespaceOwnership finds no mismatch. */
  predicate VerifyNamespaceOwnership(ns: Namespace, l: Lease, controlClusterID: string) {
    var control := Lookup(ns.annotations, ANNOTATION_CONTROL_CLUSTER_ID);
    var target := Lookup(ns.annotations, ANNOTATION_TARGET_IDENTITY);
    && IsManagedByKubeLease(ns.labels, l.meta.name)
    && Lookup(ns.annotations, ANNOTATION_LEASE_UID) == l.meta.uid
    && (controlClusterID != "" ==> control == "" || control == controlClusterID)
    && (RemoteIdentity(l) != "" ==> target == "" || target == RemoteIdentity(l))
  }

  /** VerifyLiveTargetIdentity finds no mismatch. */
  predicate VerifyLiveTargetIdentity(expected: string, live: string) {
    expected == "" || live == "" || expected == live
  }

  // --------------------------------------------------------------- properties

  /** The namespace carries the labels and the UID of a lease. */
  predicate StampedFor(ns: Namespace, name: string, uid: string) {
    IsManagedByKubeLease(ns.labels, name) && Lookup(ns.annotations, ANNOTATION_LEASE_UID) == uid
  }

  /** Everything that is stamped - created under a generated or a given name, or
      adopted - passes the ownership check of its own lease, whatever labels and
      annotations the user or the namespace brought. */
  lemma StampsVerify(l: Lease, controlClusterID: string, ns: Namespace)
    ensures VerifyNamespaceOwnership(FreshNamespace(l, controlClusterID), l, controlClusterID)
    ensures VerifyNamespaceOwnership(AdoptedNamespace(ns, l, controlClusterID), l, controlClusterID)
    ensures StampedFor(FreshNamespace(l, controlClusterID), l.meta.name, l.meta.uid)
    ensures StampedFor(AdoptedNamespace(ns, l, controlClusterID), l.meta.name, l.meta.uid)
  {
    LabelKeysDiffer();
  }

  lemma LabelKeysDiffer()
    ensures LABEL_MANAGED_BY != LABEL_LEASE
    ensures ANNOTATION_LEASE_UID != ANNOTATION_CONTROL_CLUSTER_ID
    ensures ANNOTATION_LEASE_UID != ANNOTATION_TARGET_IDENTITY
    ensures ANNOTATION_CONTROL_CLUSTER_ID != ANNOTATION_TARGET_IDENTITY
  {
    assert LABEL_MANAGED_BY[0] != LABEL_LEASE[0];
    assert |ANNOTATION_LEASE_UID| != |ANNOTATION_CONTROL_CLUSTER_ID|;
    assert |ANNOTATION_LEASE_UID| != |ANNOTATION_TARGET_IDENTITY|;
    assert |ANNOTATION_CONTROL_CLUSTER_ID| != |ANNOTATION_TARGET_IDENTITY|;
  }

  /** A lease may claim a namespace iff it is not protected and either nobody
      manages it or it names this lease and no other UID. */
  lemma AdoptableIff(name: string, ns: Namespace, leaseName: string, leaseUID: string)
    requires leaseName != "" && leaseUID != ""
    ensures CanAdoptNamespace(name, ns, leaseName, leaseUID) <==>
              && !IsProtectedNamespace(name)
              && (Lookup(ns.labels, LABEL_MANAGED_BY) != MANAGED_BY_VALUE
                  || (Lookup(ns.labels, LABEL_LEASE) == leaseName
                      && Lookup(ns.annotations, ANNOTATION_LEASE_UID) in {"", leaseUID}))
  {
  }

  /** A namespace stamped for one lease can neither be claimed nor deleted by a
      lease with another UID, even one of the same name. */
  lemma StampExcludesOthers(name: string, ns: Namespace, ownerName: string, ownerUID: string, other: Lease,
                            controlClusterID: string)
    requires StampedFor(ns, ownerName, ownerUID) && ownerUID != "" && other.meta.uid != "" && other.meta.uid != ownerUID
    ensures !CanAdoptNamespace(name, ns, other.meta.name, other.meta.uid)
    ensures !VerifyNamespaceOwnership(ns, other, controlClusterID)
  {
  }
}
