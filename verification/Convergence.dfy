/** What a pass that makes a lease Ready leaves behind, and that repeating it
    changes nothing. */
module Convergence {
  import opened Api
  import opened LeaseTiming
  import opened LeaseStatusChanges
  import opened LeaseObjects
  import opened Warnings
  import opened WarningRuns
  import opened Sorting
  import opened Policy
  import opened PlacementDecision
  import opened Ownership
  import opened Reconciliation
  import opened PassEffects

  // --------------------------------------------------------------- namespaces

  /** The requested quota is there, its labels up to the comparison of maps that
      the source makes. */
  predicate LooksLikeQuota(ns: Namespace, leaseName: string, desired: Option<map<HardKey, int>>) {
    desired.Some? ==>
      ns.quota.Some? && ns.quota.value.spec == desired.value && MapsEqual(ns.quota.value.labels, ManagedLabels(leaseName))
  }

  predicate HasLimits(ns: Namespace, l: Lease) {
    DesiredLimits(l.spec).Some? ==> ns.limits == Some(Child(ManagedLabels(l.meta.name), DesiredLimits(l.spec).value))
  }

  predicate HasNetworkPolicy(ns: Namespace, l: Lease, np: Option<NetworkPolicySpec>) {
    DesiresNetworkPolicy(np) ==> ns.networkPolicy == Some(Child(ManagedLabels(l.meta.name), true))
  }

  /** The quota with exactly the desired limits and labels. */
  predicate HasQuota(ns: Namespace, leaseName: string, desired: Option<map<HardKey, int>>) {
    desired.Some? ==> ns.quota == Some(Child(ManagedLabels(leaseName), desired.value))
  }

  /** The comparison skips a patch of the quota that is needed: an empty label
      hides a label it lacks. */
  predicate QuotaDisguised(ns: Namespace, l: Lease) {
    DesiredQuota(l.spec).Some? && LooksLikeQuota(ns, l.meta.name, DesiredQuota(l.spec))
    && HidesKey(ns.quota.value.labels, ManagedLabels(l.meta.name))
  }

  /** Every requested object equals the desired one. */
  predicate Furnished(ns: Namespace, l: Lease, np: Option<NetworkPolicySpec>) {
    HasQuota(ns, l.meta.name, DesiredQuota(l.spec)) && HasLimits(ns, l) && HasNetworkPolicy(ns, l, np)
  }

  /** Every requested object compares equal to the desired one. */
  predicate LooksFurnished(ns: Namespace, l: Lease, np: Option<NetworkPolicySpec>) {
    LooksLikeQuota(ns, l.meta.name, DesiredQuota(l.spec)) && HasLimits(ns, l) && HasNetworkPolicy(ns, l, np)
  }

  lemma MapsEqualReflexive(a: Labels)
    ensures MapsEqual(a, a)
  {
  }

  lemma QuotaSupplied(ns: Namespace, name: string, desired: Option<map<HardKey, int>>, ok: bool)
    ensures var q := WithQuota(ns, name, desired, ok);
            && (q.ok ==> LooksLikeQuota(q.ns, name, desired)) && (q.ok <==> ok || desired.None?)
            && q.ns.limits == ns.limits && q.ns.networkPolicy == ns.networkPolicy
    ensures LooksLikeQuota(ns, name, desired) && ok ==> WithQuota(ns, name, desired, ok) == Supplied(ns, true)
  {
    MapsEqualReflexive(ManagedLabels(name));
  }

  lemma LimitsSupplied(ns: Namespace, l: Lease, ok: bool)
    ensures var r := WithLimits(ns, l, ok);
            (r.ok ==> HasLimits(r.ns, l)) && r.ns.quota == ns.quota && r.ns.networkPolicy == ns.networkPolicy
    ensures HasLimits(ns, l) && ok ==> WithLimits(ns, l, ok) == Supplied(ns, true)
  {
  }

  lemma NetworkPolicySupplied(ns: Namespace, l: Lease, np: Option<NetworkPolicySpec>, ok: bool)
    ensures var n := WithNetworkPolicy(ns, l, np, ok);
            (n.ok ==> HasNetworkPolicy(n.ns, l, np)) && n.ns.quota == ns.quota && n.ns.limits == ns.limits
    ensures HasNetworkPolicy(ns, l, np) && ok ==> WithNetworkPolicy(ns, l, np, ok) == Supplied(ns, true)
  {
  }

  /** The quota is exact afterwards iff the old one was not disguised. */
  lemma QuotaExactly(ns: Namespace, l: Lease, ok: bool)
    requires WithQuota(ns, l.meta.name, DesiredQuota(l.spec), ok).ok
    ensures HasQuota(WithQuota(ns, l.meta.name, DesiredQuota(l.spec), ok).ns, l.meta.name, DesiredQuota(l.spec))
            <==> !QuotaDisguised(ns, l)
  {
    if ns.quota.Some? { MapsEqualExactly(ns.quota.value.labels, ManagedLabels(l.meta.name)); }
  }

  lemma QuotaFieldDecides(a: Namespace, b: Namespace, name: string, desired: Option<map<HardKey, int>>)
    requires a.quota == b.quota
    ensures HasQuota(a, name, desired) == HasQuota(b, name, desired)
    ensures LooksLikeQuota(a, name, desired) == LooksLikeQuota(b, name, desired)
  {
  }

  const EMPTY_LABELS: Labels := map["p" := "", "q" := ""]

  /** Two empty labels stand for the two managed ones. */
  lemma EmptyLabelsHide(leaseName: string)
    ensures MapsEqual(EMPTY_LABELS, ManagedLabels(leaseName)) && HidesKey(EMPTY_LABELS, ManagedLabels(leaseName))
    ensures EMPTY_LABELS != ManagedLabels(leaseName) && !IsManagedByKubeLease(EMPTY_LABELS, leaseName)
  {
    LabelKeysDiffer();
    var managed := ManagedLabels(leaseName);
    assert |EMPTY_LABELS| == 2 && |managed| == 2;
    assert |LABEL_MANAGED_BY| > 1 && |LABEL_LEASE| > 1;
    assert "p" in EMPTY_LABELS && EMPTY_LABELS["p"] == "" && "p" !in managed && "q" !in managed;
  }

  /** A disguised quota exists, and is not the desired one. */
  lemma QuotaDisguiseExists(ns: Namespace, l: Lease, hard: map<HardKey, int>)
    requires DesiredQuota(l.spec) == Some(hard)
    ensures var was := ns.(quota := Some(Child(EMPTY_LABELS, hard)));
            QuotaDisguised(was, l) && !HasQuota(was, l.meta.name, DesiredQuota(l.spec))
  {
    EmptyLabelsHide(l.meta.name);
  }

  /** Whatever was in the namespace, once all calls succeed every requested object
      equals the desired one - iff the old quota was not disguised; in any case
      all compare equal. */
  lemma ProvideFurnishes(env: Env, ns: Namespace, l: Lease, np: Option<NetworkPolicySpec>)
    requires Provide(env, ns, l, np).failure.None?
    ensures var after := Provide(env, ns, l, np).ns;
            LooksFurnished(after, l, np) && (Furnished(after, l, np) <==> !QuotaDisguised(ns, l))
    ensures CallsSucceed(env, l, np)
  {
    var q := WithQuota(ns, l.meta.name, DesiredQuota(l.spec), env.quotaOk);
    QuotaExactly(ns, l, env.quotaOk);
    QuotaFieldDecides(q.ns, Provide(env, ns, l, np).ns, l.meta.name, DesiredQuota(l.spec));
    QuotaSupplied(ns, l.meta.name, DesiredQuota(l.spec), env.quotaOk);
    LimitsSupplied(q.ns, l, env.limitsOk);
    NetworkPolicySupplied(WithLimits(q.ns, l, env.limitsOk).ns, l, np, env.networkPolicyOk);
  }

  /** Calls that only fail for what is not requested. */
  predicate CallsSucceed(env: Env, l: Lease, np: Option<NetworkPolicySpec>) {
    (env.quotaOk || DesiredQuota(l.spec).None?) && (env.limitsOk || DesiredLimits(l.spec).None?)
    && (env.networkPolicyOk || !DesiresNetworkPolicy(np))
  }

  /** Furnishing again changes nothing. */
  lemma FurnishedStays(env: Env, ns: Namespace, l: Lease, np: Option<NetworkPolicySpec>)
    requires LooksFurnished(ns, l, np) && CallsSucceed(env, l, np)
    ensures Provide(env, ns, l, np) == Provided(ns, None)
  {
    QuotaSupplied(ns, l.meta.name, DesiredQuota(l.spec), env.quotaOk);
    LimitsSupplied(ns, l, env.limitsOk);
    NetworkPolicySupplied(ns, l, np, env.networkPolicyOk);
  }

  // -------------------------------------------------------------------- marks

  function OwnAnnotations(c: Config, l: Lease, base: Labels): Labels {
    StampOver(base, l, c.controlClusterID, RemoteIdentity(l))
  }

  /** Exactly the labels the lease asks for, and its annotations over the old ones. */
  predicate Marked(c: Config, l: Lease, base: Labels, ns: Namespace) {
    ns.labels == StampedLabels(l) && ns.annotations == OwnAnnotations(c, l, base)
  }

  /** The namespace compares equal to its patched form. */
  predicate LooksMarked(c: Config, l: Lease, ns: Namespace) {
    MapsEqual(ns.labels, StampedLabels(l)) && MapsEqual(ns.annotations, OwnAnnotations(c, l, ns.annotations))
  }

  /** The comparison skips a patch that is needed: an empty label of the namespace
      hides a label it lacks. */
  predicate Disguised(c: Config, l: Lease, ns: Namespace) {
    LooksMarked(c, l, ns) && HidesKey(ns.labels, StampedLabels(l))
  }

  /** A further EnsureExistingNamespace accepts k as it is. */
  predicate MarksAtRest(c: Config, l: Lease, k: NsKey, ns: Namespace) {
    && k.name != "" && !ns.terminating && CanAdoptNamespace(k.name, ns, l.meta.name, l.meta.uid)
    && LooksMarked(c, l, ns)
  }

  lemma StampingTwice(c: Config, l: Lease, base: Labels)
    ensures OwnAnnotations(c, l, OwnAnnotations(c, l, base)) == OwnAnnotations(c, l, base)
    ensures base.Keys <= OwnAnnotations(c, l, base).Keys
  {
    LabelKeysDiffer();
    var once := OwnAnnotations(c, l, base);
    forall k | k in once ensures k in OwnAnnotations(c, l, once) && OwnAnnotations(c, l, once)[k] == once[k] {
    }
    assert OwnAnnotations(c, l, once).Keys == once.Keys;
  }

  /** A patched or a new namespace is marked and at rest. */
  lemma StampRests(c: Config, l: Lease, k: NsKey, ns: Namespace)
    requires k.name != "" && !IsProtectedNamespace(k.name)
    ensures MarksAtRest(c, l, k, FreshNamespace(l, c.controlClusterID))
    ensures Marked(c, l, map[], FreshNamespace(l, c.controlClusterID))
    ensures !ns.terminating ==> MarksAtRest(c, l, k, AdoptedNamespace(ns, l, c.controlClusterID))
    ensures Marked(c, l, ns.annotations, AdoptedNamespace(ns, l, c.controlClusterID))
  {
    StampsVerify(l, c.controlClusterID, ns);
    StampingTwice(c, l, map[]);
    StampingTwice(c, l, ns.annotations);
    MapsEqualReflexive(StampedLabels(l));
    MapsEqualReflexive(OwnAnnotations(c, l, map[]));
    MapsEqualReflexive(OwnAnnotations(c, l, ns.annotations));
  }

  /** A namespace the comparison lets through is marked unless it is disguised. */
  lemma MarkedUnlessDisguised(c: Config, l: Lease, ns: Namespace)
    requires LooksMarked(c, l, ns)
    ensures Marked(c, l, ns.annotations, ns) <==> !Disguised(c, l, ns)
  {
    MapsEqualExactly(ns.labels, StampedLabels(l));
    MapsEqualExactly(ns.annotations, OwnAnnotations(c, l, ns.annotations));
    StampingTwice(c, l, ns.annotations);
  }

  /** Such a namespace exists: two empty labels stand for the two managed ones. It
      is not stamped, so cleanup will refuse it. */
  lemma DisguiseExists(c: Config, l: Lease)
    requires c.controlClusterID == "" && RemoteIdentity(l) == "" && l.meta.uid != "" && l.meta.name != ""
    requires l.spec.namespace.labels == map[] && l.spec.namespace.annotations == map[]
    ensures var ns := Namespace(EMPTY_LABELS, map[ANNOTATION_LEASE_UID := l.meta.uid], false, None, None, None);
            && CanAdoptNamespace("team-a", ns, l.meta.name, l.meta.uid) && Disguised(c, l, ns)
            && !VerifyNamespaceOwnership(ns, l, c.controlClusterID)
  {
    EmptyLabelsHide(l.meta.name);
    assert StampedLabels(l) == ManagedLabels(l.meta.name);
    assert Lookup(EMPTY_LABELS, LABEL_MANAGED_BY) == "" by { assert |LABEL_MANAGED_BY| > 1; }
  }

  /** What EnsureNamespace leaves at its key, given what was there before. */
  predicate Ensures(c: Config, l: Lease, k: NsKey, before: map<NsKey, Namespace>, ns: Namespace) {
    && MarksAtRest(c, l, k, ns)
    && (if k in before then Marked(c, l, before[k].annotations, ns) <==> !Disguised(c, l, before[k])
        else Marked(c, l, map[], ns))
  }

  /** The quota is the one that was there before, if any. */
  predicate QuotaKept(k: NsKey, before: map<NsKey, Namespace>, ns: Namespace) {
    ns.quota == if k in before then before[k].quota else None
  }

  lemma EnsureMarks(c: Config, env: Env, w: World, l: Lease, sess: Session)
    requires !IsProtectedNamespace(env.generatedName)
    ensures var e := EnsureNamespace(c, env, w, l, sess);
            e.name.Some? ==>
              var k := NsKey(sess.site, e.name.value);
              k in e.w.namespaces && Ensures(c, l, k, w.namespaces, e.w.namespaces[k])
              && QuotaKept(k, w.namespaces, e.w.namespaces[k])
  {
    if l.status.namespace == "" && l.spec.namespace.name == "" {
      if env.generatedName != "" {
        StampRests(c, l, NsKey(sess.site, env.generatedName), FreshNamespace(l, c.controlClusterID));
      }
    } else {
      ExistingMarks(c, env, w, l, sess, if l.status.namespace != "" then l.status.namespace else l.spec.namespace.name);
    }
  }

  lemma ExistingMarks(c: Config, env: Env, w: World, l: Lease, sess: Session, name: string)
    ensures var e := EnsureExistingNamespace(c, env, w, l, sess, name);
            e.name.Some? ==>
              var k := NsKey(sess.site, name);
              k in e.w.namespaces && Ensures(c, l, k, w.namespaces, e.w.namespaces[k])
              && QuotaKept(k, w.namespaces, e.w.namespaces[k])
  {
    var k := NsKey(sess.site, name);
    if name != "" && !IsProtectedNamespace(name) {
      if k in w.namespaces {
        StampRests(c, l, k, w.namespaces[k]);
        if LooksMarked(c, l, w.namespaces[k]) { MarkedUnlessDisguised(c, l, w.namespaces[k]); }
      } else {
        StampRests(c, l, k, FreshNamespace(l, c.controlClusterID));
      }
    }
  }

  /** A namespace at rest is left alone. */
  lemma RestingIsEnsured(c: Config, env: Env, w: World, l: Lease, sess: Session)
    requires l.status.namespace != "" && env.nsReadOk
    requires var k := NsKey(sess.site, l.status.namespace);
             k in w.namespaces && MarksAtRest(c, l, k, w.namespaces[k])
    ensures EnsureNamespace(c, env, w, l, sess) == Ensured(w, Some(l.status.namespace))
  {
  }

  // ------------------------------------------------------------ ready leases

  /** All five conditions of a ready lease. */
  function ReadyConditions(expiring: bool, g: int): map<ConditionType, Condition> {
    map[Ready := Condition(true, EnvironmentReady, g),
        ExpiringSoon := Condition(expiring, if expiring then LeaseExpiring else EnvironmentReady, g),
        Cleanup := Condition(false, EnvironmentReady, g),
        Degraded := Condition(false, EnvironmentReady, g),
        TargetClusterReady := Condition(true, EnvironmentReady, g)]
  }

  /** The status a pass at env.now leaves on a lease it makes Ready. */
  function ReadyForm(env: Env, l: Lease): LeaseStatus {
    var expiring := InWarningWindow(l.status.timing, l.spec.warnings, env.now);
    LeaseStatus(if expiring then Expiring else Active, l.status.namespace, l.status.cluster, l.status.timing,
                DeliveredAfter(l.status, l.spec.warnings, env.now), l.status.effective, l.meta.generation,
                ReadyConditions(expiring, l.meta.generation))
  }

  lemma AllConditions(m: map<ConditionType, Condition>, expiring: bool, g: int)
    requires Ready in m && ExpiringSoon in m && Cleanup in m && Degraded in m && TargetClusterReady in m
    requires var r := ReadyConditions(expiring, g);
             && m[Ready] == r[Ready] && m[ExpiringSoon] == r[ExpiringSoon] && m[Cleanup] == r[Cleanup]
             && m[Degraded] == r[Degraded] && m[TargetClusterReady] == r[TargetClusterReady]
    ensures m == ReadyConditions(expiring, g)
  {
    forall t: ConditionType ensures t in m && t in ReadyConditions(expiring, g) && m[t] == ReadyConditions(expiring, g)[t] {
      match t
      case Ready =>
      case ExpiringSoon =>
      case Cleanup =>
      case Degraded =>
      case TargetClusterReady =>
    }
  }

  lemma FinishedForm(env: Env, l: Lease)
    ensures Observed(Finished(env, l)) == l.(status := ReadyForm(env, l))
  {
    AllConditions(Finished(env, l).status.conditions, InWarningWindow(l.status.timing, l.spec.warnings, env.now),
                  l.meta.generation);
  }

  /** A lease without its phase and conditions, which a ready pass rewrites. */
  function Core(l: Lease): Lease {
    l.(status := l.status.(phase := NoPhase, observedGeneration := 0, conditions := map[]))
  }

  /** When a ready pass wakes up again. */
  function WaitFor(env: Env, l: Lease, sess: Session): int {
    RequeueAfter(env, l.(status := ReadyForm(env, l)), sess)
  }

  lemma FinishedWaits(env: Env, l: Lease, sess: Session)
    ensures RequeueAfter(env, Finished(env, l), sess) == WaitFor(env, l, sess)
  {
    FinishedForm(env, l);
    assert RequeueAfter(env, Observed(Finished(env, l)), sess) == RequeueAfter(env, Finished(env, l), sess);
  }

  /** The pass made the lease `core` Ready on the cluster of the session. */
  predicate Landed(c: Config, env: Env, before: map<NsKey, Namespace>, p: ActivePass, core: Lease, sess: Session, r: Resolved) {
    var k := NsKey(sess.site, core.status.namespace);
    var np := WorkingNetworkPolicy(core.spec, r);
    && Observed(p.l) == core.(status := ReadyForm(env, core)) && p.result == Requeue(WaitFor(env, core, sess))
    && k in p.w.namespaces && LooksFurnished(p.w.namespaces[k], core, np) && CallsSucceed(env, core, np)
    && (Furnished(p.w.namespaces[k], core, np) <==> !(k in before && QuotaDisguised(before[k], core)))
    && Ensures(c, core, k, before, p.w.namespaces[k])
  }

  lemma EnsuresKept(c: Config, l: Lease, k: NsKey, before: map<NsKey, Namespace>, a: Namespace, b: Namespace)
    requires Ensures(c, l, k, before, a) && SameMarks(a, b)
    ensures Ensures(c, l, k, before, b)
  {
  }

  lemma StampDepends(c: Config, l: Lease, l': Lease, base: Labels)
    requires SameIdentity(l, l') && RemoteIdentity(l) == RemoteIdentity(l')
    ensures StampedLabels(l') == StampedLabels(l) && OwnAnnotations(c, l', base) == OwnAnnotations(c, l, base)
  {
  }

  lemma MarkedDepends(c: Config, l: Lease, l': Lease, base: Labels, ns: Namespace)
    requires SameIdentity(l, l') && RemoteIdentity(l) == RemoteIdentity(l')
    ensures Marked(c, l', base, ns) == Marked(c, l, base, ns)
  {
    StampDepends(c, l, l', base);
  }

  lemma LooksDepend(c: Config, l: Lease, l': Lease, ns: Namespace)
    requires SameIdentity(l, l') && RemoteIdentity(l) == RemoteIdentity(l')
    ensures LooksMarked(c, l', ns) == LooksMarked(c, l, ns) && Disguised(c, l', ns) == Disguised(c, l, ns)
  {
    StampDepends(c, l, l', ns.annotations);
  }

  /** Of the status, the marks depend on the identity of the cluster only. */
  lemma EnsuresDepends(c: Config, l: Lease, l': Lease, k: NsKey, before: map<NsKey, Namespace>, ns: Namespace)
    requires SameIdentity(l, l') && RemoteIdentity(l) == RemoteIdentity(l') && Ensures(c, l, k, before, ns)
    ensures Ensures(c, l', k, before, ns)
  {
    LooksDepend(c, l, l', ns);
    if k in before {
      MarkedDepends(c, l, l', before[k].annotations, ns);
      LooksDepend(c, l, l', before[k]);
    } else {
      MarkedDepends(c, l, l', map[], ns);
    }
  }

  lemma FurnishedDepends(l: Lease, l': Lease, ns: Namespace, np: Option<NetworkPolicySpec>)
    requires SameIdentity(l, l')
    ensures LooksFurnished(ns, l', np) == LooksFurnished(ns, l, np) && Furnished(ns, l', np) == Furnished(ns, l, np)
    ensures QuotaDisguised(ns, l') == QuotaDisguised(ns, l)
  {
  }

  /** Only the core of a lease matters. */
  lemma CoreLands(c: Config, env: Env, before: map<NsKey, Namespace>, p: ActivePass, l: Lease, sess: Session, r: Resolved)
    requires Landed(c, env, before, p, l, sess, r)
    ensures Landed(c, env, before, p, Core(l), sess, r)
  {
    var k := NsKey(sess.site, l.status.namespace);
    assert ReadyForm(env, l) == ReadyForm(env, Core(l));
    EnsuresDepends(c, l, Core(l), k, before, p.w.namespaces[k]);
    FurnishedDepends(l, Core(l), p.w.namespaces[k], WorkingNetworkPolicy(l.spec, r));
    if k in before { FurnishedDepends(l, Core(l), before[k], None); }
  }

  lemma FurnishLands(c: Config, env: Env, before: map<NsKey, Namespace>, w: World, l: Lease, sess: Session, r: Resolved)
    requires var k := NsKey(sess.site, l.status.namespace);
             k in w.namespaces ==> Ensures(c, l, k, before, w.namespaces[k]) && QuotaKept(k, before, w.namespaces[k])
    requires Furnish(env, w, l, sess, l.status.namespace, r).result.Requeue?
    ensures Landed(c, env, before, Furnish(env, w, l, sess, l.status.namespace, r), l, sess, r)
    ensures Furnish(env, w, l, sess, l.status.namespace, r).w.leases == w.leases
  {
    var k := NsKey(sess.site, l.status.namespace);
    var np := WorkingNetworkPolicy(l.spec, r);
    var ns := Provide(env, w.namespaces[k], l, np).ns;
    ProvideFurnishes(env, w.namespaces[k], l, np);
    ProvideKeepsMarks(env, w.namespaces[k], l, np);
    EnsuresKept(c, l, k, before, w.namespaces[k], ns);
    FinishedForm(env, l);
    FinishedWaits(env, l, sess);
  }

  lemma ProvisionLands(c: Config, env: Env, w: World, l: Lease, sess: Session, wasReady: bool, r: Resolved)
    requires l.status.namespace != "" && Provision(c, env, w, l, sess, wasReady, r).result.Requeue?
    requires !IsProtectedNamespace(env.generatedName)
    ensures Landed(c, env, w.namespaces, Provision(c, env, w, l, sess, wasReady, r), Core(l), sess, r)
    ensures Provision(c, env, w, l, sess, wasReady, r).w.leases == w.leases
  {
    var l1 := if !wasReady && l.status.phase != Failed then Mark(l, ProvisioningStatus(l.status, l.meta.generation)) else l;
    assert Core(l1) == Core(l);
    EnsureClaims(c, env, l, w, l1, sess);
    EnsureMarks(c, env, w, l1, sess);
    var e := EnsureNamespace(c, env, w, l1, sess);
    FurnishLands(c, env, w.namespaces, e.w, l1, sess, r);
    CoreLands(c, env, w.namespaces, Furnish(env, e.w, l1, sess, l1.status.namespace, r), l1, sess, r);
  }

  /** l with its namespace on record. */
  function Named(l: Lease, name: string): Lease {
    l.(status := l.status.(namespace := name))
  }

  lemma RecordLands(c: Config, env: Env, before: map<NsKey, Namespace>, w: World, l: Lease, sess: Session, r: Resolved)
    requires RecordNamespace(env, w, l, sess, r).result.Requeue?
    requires l.status.cluster == Some(ClusterStatus(sess.name, "", "")) && l.status.effective == Some(ToEffective(r))
    requires l.meta.name in w.leases && SameIdentity(w.leases[l.meta.name], l)
    requires var k := NsKey(sess.site, l.status.namespace);
             k in w.namespaces && Ensures(c, l, k, before, w.namespaces[k]) && QuotaKept(k, before, w.namespaces[k])
    ensures var p := RecordNamespace(env, w, l, sess, r);
            && Landed(c, env, before, p, l, sess, r)
            && l.meta.name in p.w.leases && SameIdentity(p.w.leases[l.meta.name], l)
  {
    var w1 := WriteStatus(w, l);
    assert Reread(w1, l, Some(ToEffective(r)), sess.name) == l;
    FurnishLands(c, env, before, w1, l, sess, r);
  }

  lemma FirstProvisionLands(c: Config, env: Env, w: World, l: Lease, sess: Session, wasReady: bool, r: Resolved)
    requires l.status.namespace == "" && Provision(c, env, w, l, sess, wasReady, r).result.Requeue?
    requires !IsProtectedNamespace(env.generatedName)
    requires l.status.cluster == Some(ClusterStatus(sess.name, "", "")) && l.status.effective == Some(ToEffective(r))
    requires l.meta.name in w.leases && SameIdentity(w.leases[l.meta.name], l)
    ensures var p := Provision(c, env, w, l, sess, wasReady, r);
            && p.l.status.namespace != ""
            && Landed(c, env, w.namespaces, p, Core(Named(l, p.l.status.namespace)), sess, r)
            && l.meta.name in p.w.leases && SameIdentity(p.w.leases[l.meta.name], l)
  {
    var l1 := if !wasReady && l.status.phase != Failed then Mark(l, ProvisioningStatus(l.status, l.meta.generation)) else l;
    EnsureClaims(c, env, l, w, l1, sess);
    EnsureMarks(c, env, w, l1, sess);
    var e := EnsureNamespace(c, env, w, l1, sess);
    var l2 := Named(l1, e.name.value);
    EnsuresDepends(c, l1, l2, NsKey(sess.site, e.name.value), w.namespaces,
                 e.w.namespaces[NsKey(sess.site, e.name.value)]);
    RecordLands(c, env, w.namespaces, e.w, l2, sess, r);
    CoreLands(c, env, w.namespaces, RecordNamespace(env, e.w, l2, sess, r), l2, sess, r);
    assert Core(l2) == Core(Named(l, e.name.value));
  }

  /** The core of l with its namespace and cluster on record. */
  function Placed(l: Lease, name: string, cl: ClusterStatus): Lease {
    Core(l.(status := l.status.(namespace := name, cluster := Some(cl))))
  }

  /** The cluster status a ready pass leaves: the first one knows only the name. */
  function SettledCluster(l: Lease, found: Lease, sess: Session): ClusterStatus {
    if l.status.namespace == "" || found.status.cluster.None? then ClusterStatus(sess.name, "", "")
    else found.status.cluster.value.(name := sess.name)
  }

  lemma FoundKeepsRest(c: Config, env: Env, l: Lease, pol: Option<LeasePolicy>)
    requires Locate(c, env, l, pol).Found?
    ensures var f := Locate(c, env, l, pol).l;
            f.status.cluster.Some? && f == l.(status := l.status.(cluster := f.status.cluster))
  {
    var name := Decide(c.hash, env.view, l, pol, env.counts).value.clusterName;
    var chosen := l.(status := l.status.(cluster := Some(KeepIdentity(l.status.cluster, name))));
    var sess := ResolveNamedTarget(c, env, name);
    if !sess.value.isLocal { IdentifiedKeeps(env, chosen, sess.value); }
  }

  /** A lease with a namespace goes straight on. */
  lemma EstablishedLands(c: Config, env: Env, w: World, l: Lease, found: Lease, sess: Session, previous: Phase,
                         wasReady: bool, r: Resolved)
    requires l.status.namespace != "" && !IsProtectedNamespace(env.generatedName)
    requires found.status.cluster.Some? && found == l.(status := l.status.(cluster := found.status.cluster))
    requires Settle(c, env, w, found, sess, previous, wasReady, r).result.Requeue?
    ensures var p := Settle(c, env, w, found, sess, previous, wasReady, r);
            && p.l.status.namespace == l.status.namespace
            && Landed(c, env, w.namespaces, p, Placed(l, p.l.status.namespace, SettledCluster(l, found, sess)), sess, r)
            && p.w.leases == w.leases
  {
    var l1 := OnCluster(found, sess.name);
    assert !WritesClusterFirst(previous, l1);
    ProvisionLands(c, env, w, l1, sess, wasReady, r);
    assert Core(l1) == Placed(l, l.status.namespace, SettledCluster(l, found, sess));
  }

  /** A lease without one records its cluster first. */
  lemma FirstLands(c: Config, env: Env, w: World, l: Lease, found: Lease, sess: Session, previous: Phase,
                   wasReady: bool, r: Resolved)
    requires l.status.namespace == "" && !IsProtectedNamespace(env.generatedName)
    requires previous != Active && previous != Expiring && l.status.effective == Some(ToEffective(r))
    requires found.status.cluster.Some? && found == l.(status := l.status.(cluster := found.status.cluster))
    requires l.meta.name in w.leases && SameIdentity(w.leases[l.meta.name], l)
    requires Settle(c, env, w, found, sess, previous, wasReady, r).result.Requeue?
    ensures var p := Settle(c, env, w, found, sess, previous, wasReady, r);
            && p.l.status.namespace != ""
            && Landed(c, env, w.namespaces, p, Placed(l, p.l.status.namespace, SettledCluster(l, found, sess)), sess, r)
            && l.meta.name in p.w.leases && SameIdentity(p.w.leases[l.meta.name], l)
  {
    var l1 := OnCluster(found, sess.name);
    var w1 := WriteStatus(w, l1);
    var again := Reread(w1, l1, Some(ToEffective(r)), sess.name);
    assert SameIdentity(again, l) && again.status == l1.status.(cluster := Some(ClusterStatus(sess.name, "", "")));
    FirstProvisionLands(c, env, w1, again, sess, wasReady, r);
    var p := Provision(c, env, w1, again, sess, wasReady, r);
    assert Core(Named(again, p.l.status.namespace)) == Placed(l, p.l.status.namespace, SettledCluster(l, found, sess));
  }

  /** An active pass that got as far as MarkReady. */
  predicate Finishes(env: Env, p: ActivePass) {
    p.result.Requeue? && ReadyTrue(p.l.status) && env.outageWait <= 0
  }

  lemma FinishingIsFound(c: Config, env: Env, w: World, l: Lease, previous: Phase, r: Resolved, pol: Option<LeasePolicy>)
    requires Finishes(env, ReconcileActive(c, env, w, l, previous, r, pol))
    ensures Locate(c, env, l, pol).Found?
  {
    var loc := Locate(c, env, l, pol);
    if loc.Unavailable? {
      assert !ReadyTrue(TargetError(env, loc.l, loc.reason).0.status);
    }
  }

  /** The session and the core lease of a finishing pass. */
  function SessionOf(c: Config, env: Env, l: Lease, pol: Option<LeasePolicy>): Session
    requires Locate(c, env, l, pol).Found?
  {
    Locate(c, env, l, pol).session
  }

  function CoreAfter(c: Config, env: Env, l: Lease, pol: Option<LeasePolicy>, name: string): Lease
    requires Locate(c, env, l, pol).Found?
  {
    Placed(l, name, SettledCluster(l, Locate(c, env, l, pol).l, Locate(c, env, l, pol).session))
  }

  lemma ActiveLands(c: Config, env: Env, w: World, l: Lease, previous: Phase, r: Resolved, pol: Option<LeasePolicy>)
    requires Finishes(env, ReconcileActive(c, env, w, l, previous, r, pol)) && !IsProtectedNamespace(env.generatedName)
    requires l.status.effective == Some(ToEffective(r))
    requires previous == Active || previous == Expiring ==> l.status.namespace != ""
    requires l.meta.name in w.leases && SameIdentity(w.leases[l.meta.name], l)
    ensures Locate(c, env, l, pol).Found?
    ensures var p := ReconcileActive(c, env, w, l, previous, r, pol);
            && p.l.status.namespace != ""
            && (l.status.namespace != "" ==> p.l.status.namespace == l.status.namespace && p.w.leases == w.leases)
            && Landed(c, env, w.namespaces, p, CoreAfter(c, env, l, pol, p.l.status.namespace), SessionOf(c, env, l, pol), r)
            && l.meta.name in p.w.leases && SameIdentity(p.w.leases[l.meta.name], l)
  {
    FinishingIsFound(c, env, w, l, previous, r, pol);
    FoundKeepsRest(c, env, l, pol);
    var loc := Locate(c, env, l, pol);
    if l.status.namespace != "" {
      EstablishedLands(c, env, w, l, loc.l, loc.session, previous, ReadyTrue(l.status), r);
    } else {
      FirstLands(c, env, w, l, loc.l, loc.session, previous, ReadyTrue(l.status), r);
    }
  }

  // -------------------------------------------------------------- convergence

  /** A live pass over l that got as far as MarkReady and saved its status. */
  predicate ReadyPass(c: Config, env: Env, w: World, l: Lease) {
    ReachesReady(c, env, w, l) && env.finalWriteOk
  }

  predicate ReachesReady(c: Config, env: Env, w: World, l: Lease) {
    && l.meta.finalizer && !l.meta.deleting && ValidSpec(l)
    && var pol := FetchPolicy(env, l);
    && pol.Ok?
    && var r := Resolve(l.spec, pol.value);
    && r.Ok? && !IsExpired(Timed(env, l, r.value).status.timing, env.now)
    && Finishes(env, ReconcileActive(c, env, w, Timed(env, l, r.value), l.status.phase, r.value, pol.value))
  }

  function TermsOf(env: Env, l: Lease): Resolved
    requires FetchPolicy(env, l).Ok? && Resolve(l.spec, FetchPolicy(env, l).value).Ok?
  {
    Resolve(l.spec, FetchPolicy(env, l).value).value
  }

  /** The active part of a ready pass. */
  function ActivePart(c: Config, env: Env, w: World, l: Lease): ActivePass
    requires ReachesReady(c, env, w, l)
  {
    ReconcileActive(c, env, w, Timed(env, l, TermsOf(env, l)), l.status.phase, TermsOf(env, l), FetchPolicy(env, l).value)
  }

  lemma ReadyPassIsActive(c: Config, env: Env, w: World, name: string)
    requires name in w.leases && w.leases[name].meta.name == name && ReachesReady(c, env, w, w.leases[name])
    ensures var l := w.leases[name];
            var p := ActivePart(c, env, w, l);
            && Reconcile(c, env, w, name).0 == PatchStatus(p.w, Observed(p.l), l.status, env.finalWriteOk)
            && (env.finalWriteOk ==> Reconcile(c, env, w, name).1 == p.result)
  {
  }

  lemma MarkedVerifies(c: Config, l: Lease, base: Labels, ns: Namespace)
    ensures Marked(c, l, base, ns) ==> VerifyNamespaceOwnership(ns, l, c.controlClusterID)
  {
    StampsVerify(l, c.controlClusterID, ns.(annotations := base));
  }

  /** The namespaces `after` hold what l asks for at k, given those before: all
      compares equal; the objects are exactly the desired ones iff the old quota
      was not disguised; labels and annotations are iff the old namespace was not,
      and then it passes the ownership check. */
  predicate Converged(c: Config, l: Lease, k: NsKey, before: map<NsKey, Namespace>, after: map<NsKey, Namespace>,
                      np: Option<NetworkPolicySpec>)
  {
    && k in after && LooksFurnished(after[k], l, np)
    && (Furnished(after[k], l, np) <==> !(k in before && QuotaDisguised(before[k], l)))
    && (if k in before then Marked(c, l, before[k].annotations, after[k]) <==> !Disguised(c, l, before[k])
        else Marked(c, l, map[], after[k]))
    && (!(k in before && Disguised(c, l, before[k])) ==> VerifyNamespaceOwnership(after[k], l, c.controlClusterID))
  }

  lemma LandedConverges(c: Config, env: Env, before: map<NsKey, Namespace>, p: ActivePass, core: Lease, sess: Session, r: Resolved)
    requires Landed(c, env, before, p, core, sess, r)
    ensures SameIdentity(core, p.l) && p.l.status.namespace == core.status.namespace
    ensures Converged(c, p.l, NsKey(sess.site, p.l.status.namespace), before, p.w.namespaces, WorkingNetworkPolicy(p.l.spec, r))
  {
    assert Observed(p.l).spec == p.l.spec && Observed(p.l).status.cluster == p.l.status.cluster;
    var k := NsKey(sess.site, p.l.status.namespace);
    EnsuresDepends(c, core, p.l, k, before, p.w.namespaces[k]);
    FurnishedDepends(core, p.l, p.w.namespaces[k], WorkingNetworkPolicy(core.spec, r));
    if k in before { FurnishedDepends(core, p.l, before[k], None); }
    MarkedVerifies(c, p.l, if k in before then before[k].annotations else map[], p.w.namespaces[k]);
  }

  /** Convergence: from any state of the cluster, a pass that reaches MarkReady
      leaves the namespace of its lease as the lease asks for it. */
  lemma ReadyMeansConverged(c: Config, env: Env, w: World, name: string)
    requires name in w.leases && w.leases[name].meta.name == name && Healthy(w.leases[name])
    requires ReadyPass(c, env, w, w.leases[name]) && !IsProtectedNamespace(env.generatedName)
    ensures var l := w.leases[name];
            var p := ActivePart(c, env, w, l);
            var loc := Locate(c, env, Timed(env, l, TermsOf(env, l)), FetchPolicy(env, l).value);
            && loc.Found? && SameIdentity(l, p.l)
            && Converged(c, p.l, NsKey(loc.session.site, p.l.status.namespace), w.namespaces,
                         Reconcile(c, env, w, name).0.namespaces, WorkingNetworkPolicy(l.spec, TermsOf(env, l)))
  {
    var l := w.leases[name];
    var r, pol := TermsOf(env, l), FetchPolicy(env, l).value;
    var l1 := Timed(env, l, r);
    ActiveLands(c, env, w, l1, l.status.phase, r, pol);
    ReadyPassIsActive(c, env, w, name);
    var p := ActivePart(c, env, w, l);
    LandedConverges(c, env, w.namespaces, p, CoreAfter(c, env, l1, pol, p.l.status.namespace), SessionOf(c, env, l1, pol), r);
  }

  /** A ready pass wakes up in time: strictly ahead, not past the deadline nor any
      warning still to come; on the control cluster exactly at the next of these,
      elsewhere at the latest after the drift interval. */
  lemma ReadyPassWakesInTime(env: Env, l: Lease, sess: Session)
    requires EffectiveDeadline(l.status.timing).Some? && env.now < EffectiveDeadline(l.status.timing).value
    ensures var f := Finished(env, l);
            var deadline := EffectiveDeadline(l.status.timing).value;
            var ds := WarningDurationsOf(l.spec.warnings);
            var wait := RequeueAfter(env, f, sess);
            && 0 < wait && env.now + wait <= deadline
            && (forall w :: w in ds && Undelivered(w, f.status.warningsDelivered) ==> env.now + wait <= deadline - w)
            && (forall w :: w in ds && env.now >= deadline - w ==> !Undelivered(w, f.status.warningsDelivered))
            && (sess.isLocal ==> env.now + wait == NextEvent(deadline, ds, f.status.warningsDelivered))
            && (!sess.isLocal ==> wait <= REMOTE_DRIFT_REQUEUE)
  {
    var deadline := EffectiveDeadline(l.status.timing).value;
    var ds := WarningDurationsOf(l.spec.warnings);
    var d := After(env.now, deadline, ds, l.status.warningsDelivered);
    assert Finished(env, l).status.warningsDelivered == d && Finished(env, l).status.timing == l.status.timing;
    PassDelivers(env.now, deadline, ds, l.status.warningsDelivered);
    NextWakeUp(env.now, deadline, ds, l.status.warningsDelivered);
    WaitIsPositive(env.now, deadline, ds, d);
  }

  // --------------------------------------------------------------- quiescence

  /** A later instant with the same warnings behind it, before the deadline. */
  predicate SameWindow(deadline: int, warnings: seq<int>, now: int, later: int) {
    && now <= later < deadline
    && forall w :: w in warnings && w > 0 && later >= deadline - w ==> now >= deadline - w
  }

  lemma TimingRests(t: Timing, creation: Option<int>, ttl: int, maxTTL: int, renewable: bool, idleTTL: int, now: int, later: int)
    requires ValidTTLs(ttl, maxTTL)
    requires var t1 := Synced(Stamped(t, creation, ttl, maxTTL, renewable, now), idleTTL, now);
             now <= later && !IsExpired(t1, later)
    ensures var t1 := Synced(Stamped(t, creation, ttl, maxTTL, renewable, now), idleTTL, now);
            Synced(Stamped(t1, creation, ttl, maxTTL, renewable, later), idleTTL, later) == t1
  {
  }

  lemma DurationsMembers(warnings: seq<int>)
    ensures forall w :: w in WarningDurationsOf(warnings) <==> w in warnings && w > 0
  {
    var chosen := Select(warnings, Positive);
    SelectMembers(warnings, Positive);
    DescendingIsTotal();
    SortSorts(chosen, Descending);
    forall w ensures w in WarningDurationsOf(warnings) <==> w in chosen {
      assert w in WarningDurationsOf(warnings) <==> w in multiset(WarningDurationsOf(warnings));
      assert w in chosen <==> w in multiset(chosen);
    }
  }

  /** Nothing is due twice in one window. */
  lemma LedgerRests(deadline: int, warnings: seq<int>, delivered: seq<WarningKey>, now: int, later: int)
    requires SameWindow(deadline, warnings, now, later)
    ensures var ds := WarningDurationsOf(warnings);
            After(later, deadline, ds, After(now, deadline, ds, delivered)) == After(now, deadline, ds, delivered)
  {
    var ds := WarningDurationsOf(warnings);
    DurationsMembers(warnings);
    var d1 := After(now, deadline, ds, delivered);
    PassDelivers(now, deadline, ds, delivered);
    PendingMembers(now, deadline, ds, d1);
    PendingMembers(later, deadline, ds, d1);
    var p := PendingNow(later, deadline, ds, d1);
    assert forall w :: w !in p;
    FirstIsIn(p);
  }

  lemma FirstIsIn(p: seq<int>)
    ensures p != [] ==> p[0] in p
  {
  }

  lemma WindowRests(t: Timing, warnings: seq<int>, now: int, later: int)
    requires EffectiveDeadline(t).Some? && SameWindow(EffectiveDeadline(t).value, warnings, now, later)
    ensures InWarningWindow(t, warnings, later) == InWarningWindow(t, warnings, now)
  {
  }

  /** A ready lease keeps its form through its window. */
  lemma FormRests(env: Env, later: int, core: Lease, b: Lease)
    requires b == core.(status := ReadyForm(env, core))
    requires EffectiveDeadline(core.status.timing).Some?
    requires SameWindow(EffectiveDeadline(core.status.timing).value, core.spec.warnings, env.now, later)
    ensures ReadyForm(env.(now := later), b) == b.status
  {
    WindowRests(core.status.timing, core.spec.warnings, env.now, later);
    LedgerRests(EffectiveDeadline(core.status.timing).value, core.spec.warnings, core.status.warningsDelivered, env.now, later);
  }

  /** Placement finds the same cluster again: at once on the control cluster, and
      once its identity is on record elsewhere. */
  lemma Relocates(c: Config, env: Env, later: int, l: Lease, b: Lease, pol: Option<LeasePolicy>)
    requires NamesGiven(env) && Anchored(l) && Locate(c, env, l, pol).Found? && SameIdentity(l, b)
    requires b.status.namespace != "" && (l.status.namespace != "" || SessionOf(c, env, l, pol).isLocal)
    requires b.status.cluster == Some(SettledCluster(l, Locate(c, env, l, pol).l, SessionOf(c, env, l, pol)))
    ensures Locate(c, env.(now := later), b, pol) == Found(b, SessionOf(c, env, l, pol))
  {
    DecisionNamed(c, env, l, pol);
    var d := Decide(c.hash, env.view, l, pol, env.counts).value;
    var sess := SessionOf(c, env, l, pol);
    assert d.clusterName == sess.name by {
      var chosen := l.(status := l.status.(cluster := Some(KeepIdentity(l.status.cluster, d.clusterName))));
      if !sess.isLocal { IdentifiedKeeps(env, chosen, sess); }
    }
    assert StickyCluster(b) == sess.name;
    assert Decide(c.hash, env.view, b, pol, env.counts) == Ok(Decision(sess.name, false, false));
    RelocatesTo(c, env, later, l, b, pol);
  }

  lemma RelocatesTo(c: Config, env: Env, later: int, l: Lease, b: Lease, pol: Option<LeasePolicy>)
    requires Locate(c, env, l, pol).Found?
    requires var sess := SessionOf(c, env, l, pol);
             && Decide(c.hash, env.view, l, pol, env.counts).value.clusterName == sess.name
             && Decide(c.hash, env.view, b, pol, env.counts) == Ok(Decision(sess.name, false, false))
             && (l.status.namespace != "" || sess.isLocal)
             && b.status.cluster == Some(SettledCluster(l, Locate(c, env, l, pol).l, sess))
    ensures Locate(c, env.(now := later), b, pol) == Found(b, SessionOf(c, env, l, pol))
  {
  }

  /** A pass over a ready lease whose objects are in place makes it ready again. */
  lemma RestingActive(c: Config, env: Env, w: World, l: Lease, sess: Session, r: Resolved)
    requires l.status.namespace != "" && env.nsReadOk && ReadyTrue(l.status)
    requires var k := NsKey(sess.site, l.status.namespace);
             var np := WorkingNetworkPolicy(l.spec, r);
             && k in w.namespaces && MarksAtRest(c, l, k, w.namespaces[k])
             && LooksFurnished(w.namespaces[k], l, np) && CallsSucceed(env, l, np)
    ensures Provision(c, env, w, l, sess, true, r).w == w
    ensures Observed(Provision(c, env, w, l, sess, true, r).l) == l.(status := ReadyForm(env, l))
    ensures Provision(c, env, w, l, sess, true, r).result == Requeue(WaitFor(env, l, sess))
  {
    RestingIsEnsured(c, env, w, l, sess);
    RestingFurnish(env, w, l, sess, r);
  }

  lemma RestingFurnish(env: Env, w: World, l: Lease, sess: Session, r: Resolved)
    requires var k := NsKey(sess.site, l.status.namespace);
             var np := WorkingNetworkPolicy(l.spec, r);
             k in w.namespaces && LooksFurnished(w.namespaces[k], l, np) && CallsSucceed(env, l, np)
    ensures var p := Furnish(env, w, l, sess, l.status.namespace, r);
            && p.w == w && Observed(p.l) == l.(status := ReadyForm(env, l)) && p.result == Requeue(WaitFor(env, l, sess))
  {
    FinishedWaits(env, l, sess);
    FinishedForm(env, l);
    var k := NsKey(sess.site, l.status.namespace);
    FurnishedStays(env, w.namespaces[k], l, WorkingNetworkPolicy(l.spec, r));
    assert w.namespaces[k := w.namespaces[k]] == w.namespaces;
  }

  /** Everything a further pass at env needs to make b ready again. */
  predicate Poised(c: Config, env: Env, w: World, b: Lease, pol: Option<LeasePolicy>, r: Resolved, sess: Session) {
    var k := NsKey(sess.site, b.status.namespace);
    var np := WorkingNetworkPolicy(b.spec, r);
    && b.meta.name in w.leases && w.leases[b.meta.name] == b
    && b.meta.finalizer && !b.meta.deleting && ValidSpec(b)
    && FetchPolicy(env, b) == Ok(pol) && Resolve(b.spec, pol) == Ok(r)
    && b.status.effective == Some(ToEffective(r)) && Timed(env, b, r).status.timing == b.status.timing
    && !IsExpired(b.status.timing, env.now)
    && ReadyTrue(b.status) && b.status.cluster.Some? && b.status.namespace != ""
    && Locate(c, env, Timed(env, b, r), pol) == Found(Timed(env, b, r), sess) && StickyCluster(b) == sess.name
    && env.nsReadOk && k in w.namespaces && MarksAtRest(c, b, k, w.namespaces[k])
    && LooksFurnished(w.namespaces[k], b, np) && CallsSucceed(env, b, np)
  }

  /** And to change nothing. */
  predicate AtRest(c: Config, env: Env, w: World, b: Lease, pol: Option<LeasePolicy>, r: Resolved, sess: Session) {
    Poised(c, env, w, b, pol, r, sess) && ReadyForm(env, b) == b.status
  }

  lemma CopyAtRest(env: Env, b: Lease, r: Resolved, name: string)
    requires b.status.effective == Some(ToEffective(r)) && Timed(env, b, r).status.timing == b.status.timing
    requires StickyCluster(b) == name && b.status.cluster.Some? && ReadyTrue(b.status)
    ensures var l := OnCluster(Timed(env, b, r), name);
            Core(l) == Core(b) && ReadyTrue(l.status) && ReadyTrue(Timed(env, b, r).status)
            && RemoteIdentity(l) == RemoteIdentity(b) && ReadyForm(env, l) == ReadyForm(env, b)
  {
    var l := OnCluster(Timed(env, b, r), name);
    assert ReadyForm(env, l) == ReadyForm(env, Core(l)) && ReadyForm(env, b) == ReadyForm(env, Core(b));
  }

  lemma PoisedActive(c: Config, env: Env, w: World, b: Lease, pol: Option<LeasePolicy>, r: Resolved, sess: Session)
    requires Poised(c, env, w, b, pol, r, sess)
    ensures var p := ReconcileActive(c, env, w, Timed(env, b, r), b.status.phase, r, pol);
            p.w == w && Observed(p.l) == b.(status := ReadyForm(env, b)) && p.result == Requeue(WaitFor(env, b, sess))
  {
    CopyAtRest(env, b, r, sess.name);
    var l1 := Timed(env, b, r);
    var l2 := OnCluster(l1, sess.name);
    LooksDepend(c, b, l2, w.namespaces[NsKey(sess.site, b.status.namespace)]);
    RestingActive(c, env, w, l2, sess, r);
    assert Settle(c, env, w, l1, sess, b.status.phase, true, r) == Provision(c, env, w, l2, sess, true, r);
    assert Core(l2).meta == b.meta && Core(l2).spec == b.spec;
  }

  /** Such a pass rewrites the status of its lease and nothing else. */
  lemma PoisedPass(c: Config, env: Env, w: World, b: Lease, pol: Option<LeasePolicy>, r: Resolved, sess: Session)
    requires Poised(c, env, w, b, pol, r, sess) && (env.finalWriteOk || ReadyForm(env, b) == b.status)
    ensures Reconcile(c, env, w, b.meta.name)
            == (w.(leases := w.leases[b.meta.name := b.(status := ReadyForm(env, b))]), Requeue(WaitFor(env, b, sess)))
  {
    PoisedActive(c, env, w, b, pol, r, sess);
    var status := ReadyForm(env, b);
    PoisedPatch(w, b, status, env.finalWriteOk);
    assert Reconcile(c, env, w, b.meta.name)
           == (PatchStatus(w, b.(status := status), b.status, env.finalWriteOk), Requeue(WaitFor(env, b, sess)));
  }

  /** The patch of a stored lease. */
  lemma PoisedPatch(w: World, b: Lease, status: LeaseStatus, ok: bool)
    requires b.meta.name in w.leases && w.leases[b.meta.name] == b && (ok || status == b.status)
    ensures PatchStatus(w, b.(status := status), b.status, ok) == w.(leases := w.leases[b.meta.name := b.(status := status)])
    ensures !PatchFails(b.(status := status), b.status, ok)
  {
    SameEntry(w, b);
  }

  lemma RestIsRest(c: Config, env: Env, w: World, b: Lease, pol: Option<LeasePolicy>, r: Resolved, sess: Session)
    requires AtRest(c, env, w, b, pol, r, sess)
    ensures Reconcile(c, env, w, b.meta.name).0 == w
  {
    PoisedPass(c, env, w, b, pol, r, sess);
    SameEntry(w, b);
  }

  lemma SameEntry(w: World, b: Lease)
    requires b.meta.name in w.leases && w.leases[b.meta.name] == b
    ensures w.(leases := w.leases[b.meta.name := b]) == w && b.(status := b.status) == b
  {
    assert w.leases[b.meta.name := b] == w.leases;
  }

  lemma FormIsReady(env: Env, l: Lease)
    ensures ReadyTrue(ReadyForm(env, l)) && ReadyForm(env, l).cluster == l.status.cluster
    ensures ReadyForm(env, l).namespace == l.status.namespace && ReadyForm(env, l).effective == l.status.effective
  {
  }

  /** The final patch of a ready pass puts its status in the store. */
  lemma PatchStores(w0: World, w: World, l: Lease, name: string, after: Lease)
    requires name in w0.leases && w0.leases[name] == l && l.meta.name == name && after == l.(status := after.status)
    requires name in w.leases && SameIdentity(w.leases[name], l)
    requires l.status == after.status ==> w.leases == w0.leases
    ensures var w1 := PatchStatus(w, after, l.status, true);
            name in w1.leases && w1.leases[name] == after && w1.namespaces == w.namespaces
  {
  }

  /** What a ready pass stores. */
  lemma ReadyPassStores(c: Config, env: Env, w: World, name: string)
    requires name in w.leases && w.leases[name].meta.name == name && Healthy(w.leases[name])
    requires ReadyPass(c, env, w, w.leases[name]) && !IsProtectedNamespace(env.generatedName)
    ensures var l := w.leases[name];
            var l1 := Timed(env, l, TermsOf(env, l));
            var pol := FetchPolicy(env, l).value;
            var p := ActivePart(c, env, w, l);
            var w1 := Reconcile(c, env, w, name).0;
            && Locate(c, env, l1, pol).Found? && p.l.status.namespace != "" && w1.namespaces == p.w.namespaces
            && (l.status.namespace != "" ==> p.l.status.namespace == l.status.namespace)
            && var core := CoreAfter(c, env, l1, pol, p.l.status.namespace);
            && Landed(c, env, w.namespaces, p, core, SessionOf(c, env, l1, pol), TermsOf(env, l))
            && name in w1.leases && w1.leases[name] == l.(status := ReadyForm(env, core))
            && Reconcile(c, env, w, name).1 == p.result
  {
    var l := w.leases[name];
    var l1 := Timed(env, l, TermsOf(env, l));
    ActiveLands(c, env, w, l1, l.status.phase, TermsOf(env, l), FetchPolicy(env, l).value);
    ReadyPassIsActive(c, env, w, name);
    var p := ActivePart(c, env, w, l);
    PatchStores(w, p.w, l, name, Observed(p.l));
  }

  /** The times of the stored lease stand until the deadline. */
  lemma TimesStand(env: Env, later: int, l: Lease, core: Lease, b: Lease, r: Resolved)
    requires ValidTTLs(r.ttl, r.maxTTL) && core.status.timing == Timed(env, l, r).status.timing
    requires b == l.(status := ReadyForm(env, core))
    requires EffectiveDeadline(core.status.timing).Some? && env.now <= later < EffectiveDeadline(core.status.timing).value
    ensures Timed(env.(now := later), b, r).status.timing == b.status.timing
    ensures !IsExpired(b.status.timing, later)
    ensures Timed(env.(now := later), b, r).status.cluster == b.status.cluster
    ensures Timed(env.(now := later), b, r).status.namespace == b.status.namespace
  {
    TimingRests(l.status.timing, l.meta.creationTimestamp, r.ttl, r.maxTTL, r.renewable, r.idleTTL, env.now, later);
  }

  /** The namespace of a landed lease is in order for the stored lease too. */
  lemma LandedIsInOrder(c: Config, env: Env, env2: Env, before: map<NsKey, Namespace>, p: ActivePass, core: Lease, b: Lease,
                        sess: Session, r: Resolved)
    requires env2 == env.(now := env2.now) && Landed(c, env, before, p, core, sess, r)
    requires b == core.(status := ReadyForm(env, core))
    ensures var k := NsKey(sess.site, b.status.namespace);
            var np := WorkingNetworkPolicy(b.spec, r);
            && k in p.w.namespaces && MarksAtRest(c, b, k, p.w.namespaces[k])
            && LooksFurnished(p.w.namespaces[k], b, np) && CallsSucceed(env2, b, np)
            && !IsProtectedNamespace(b.status.namespace)
  {
    var k := NsKey(sess.site, b.status.namespace);
    LooksDepend(c, core, b, p.w.namespaces[k]);
  }

  /** The stored lease resolves like the lease before the pass, and is ready. */
  lemma FormStands(env: Env, env2: Env, l: Lease, core: Lease, b: Lease, pol: Option<LeasePolicy>, r: Resolved, name: string)
    requires env2 == env.(now := env2.now) && core.meta == l.meta && core.spec == l.spec
    requires FetchPolicy(env, l) == Ok(pol) && Resolve(l.spec, pol) == Ok(r) && ValidSpec(l)
    requires core.status.effective == Some(ToEffective(r))
    requires core.status.namespace != "" && !IsProtectedNamespace(core.status.namespace)
    requires core.status.cluster.Some? && core.status.cluster.value.name == name
    requires b == l.(status := ReadyForm(env, core))
    ensures b == core.(status := ReadyForm(env, core))
    ensures FetchPolicy(env2, b) == Ok(pol) && Resolve(b.spec, pol) == Ok(r) && ValidSpec(b)
    ensures b.meta == l.meta && b.spec == l.spec && b.status.effective == Some(ToEffective(r))
    ensures ReadyTrue(b.status) && b.status.cluster.Some? && b.status.namespace == core.status.namespace
    ensures StickyCluster(b) == name
  {
    FormIsReady(env, core);
  }

  /** What a ready pass stored, seen by a pass at a later instant. */
  lemma StoredIsPoised(c: Config, env: Env, env2: Env, w1: World, l: Lease, core: Lease, b: Lease,
                       pol: Option<LeasePolicy>, r: Resolved, sess: Session, p: ActivePass, before: map<NsKey, Namespace>)
    requires env2 == env.(now := env2.now) && env.nsReadOk
    requires FetchPolicy(env, l) == Ok(pol) && Resolve(l.spec, pol) == Ok(r) && ValidSpec(l)
    requires l.meta.finalizer && !l.meta.deleting
    requires core.meta == l.meta && core.spec == l.spec && core.status.effective == Some(ToEffective(r))
    requires core.status.namespace != "" && core.status.cluster.Some? && core.status.cluster.value.name == sess.name
    requires Landed(c, env, before, p, core, sess, r) && w1.namespaces == p.w.namespaces
    requires b == l.(status := ReadyForm(env, core)) && l.meta.name in w1.leases && w1.leases[l.meta.name] == b
    requires Timed(env2, b, r).status.timing == b.status.timing && !IsExpired(b.status.timing, env2.now)
    requires Locate(c, env2, Timed(env2, b, r), pol) == Found(Timed(env2, b, r), sess)
    ensures Poised(c, env2, w1, b, pol, r, sess)
  {
    FormStands(env, env2, l, core, b, pol, r, sess.name);
    LandedIsInOrder(c, env, env2, before, p, core, b, sess, r);
  }

  /** A ready pass whose next pass finds the same cluster status: on the control
      cluster, or with the namespace on record already. */
  predicate SettledPass(c: Config, env: Env, w: World, name: string) {
    && name in w.leases && w.leases[name].meta.name == name && Healthy(w.leases[name])
    && ReadyPass(c, env, w, w.leases[name]) && NamesGiven(env)
    && !IsProtectedNamespace(env.generatedName) && env.nsReadOk
    && var l := w.leases[name];
    && var l1 := Timed(env, l, TermsOf(env, l));
    && var loc := Locate(c, env, l1, FetchPolicy(env, l).value);
    && (l.status.namespace != "" || (loc.Found? && loc.session.isLocal))
    && EffectiveDeadline(l1.status.timing).Some?
  }

  /** The deadline and the core lease of such a pass. */
  function DeadlineOf(env: Env, l: Lease): int
    requires FetchPolicy(env, l).Ok? && Resolve(l.spec, FetchPolicy(env, l).value).Ok?
  {
    EffectiveDeadline(Timed(env, l, TermsOf(env, l)).status.timing).GetOr(0)
  }

  /** The times stand and the same session is found. */
  lemma FindsItAgain(c: Config, env: Env, env2: Env, l: Lease, core: Lease, b: Lease, r: Resolved, pol: Option<LeasePolicy>)
    requires env2 == env.(now := env2.now) && NamesGiven(env) && Healthy(l) && Resolve(l.spec, pol) == Ok(r)
    requires var l1 := Timed(env, l, r);
             && Locate(c, env, l1, pol).Found? && core == CoreAfter(c, env, l1, pol, core.status.namespace)
             && core.status.namespace != "" && (l.status.namespace != "" || SessionOf(c, env, l1, pol).isLocal)
             && EffectiveDeadline(l1.status.timing).Some? && env.now <= env2.now < EffectiveDeadline(l1.status.timing).value
    requires b == l.(status := ReadyForm(env, core))
    ensures Timed(env2, b, r).status.timing == b.status.timing && !IsExpired(b.status.timing, env2.now)
    ensures Locate(c, env2, Timed(env2, b, r), pol) == Found(Timed(env2, b, r), SessionOf(c, env, Timed(env, l, r), pol))
  {
    ResolvedObeysPolicy(l.spec, pol);
    TimesStand(env, env2.now, l, core, b, r);
    Relocates(c, env, env2.now, Timed(env, l, r), Timed(env2, b, r), pol);
  }

  /** After a settled pass every instant up to the deadline finds the lease poised. */
  lemma ReadyPassIsPoised(c: Config, env: Env, w: World, name: string, env2: Env) returns (core: Lease, sess: Session)
    requires SettledPass(c, env, w, name) && env2 == env.(now := env2.now)
    requires env.now <= env2.now < DeadlineOf(env, w.leases[name])
    ensures var l := w.leases[name];
            var w1 := Reconcile(c, env, w, name).0;
            && name in w1.leases && w1.leases[name] == l.(status := ReadyForm(env, core))
            && Poised(c, env2, w1, w1.leases[name], FetchPolicy(env, l).value, TermsOf(env, l), sess)
            && Reconcile(c, env, w, name).1 == Requeue(WaitFor(env, core, sess))
            && SameIdentity(core, l) && core.status.warningsDelivered == l.status.warningsDelivered
            && core.status.timing == Timed(env, l, TermsOf(env, l)).status.timing
  {
    var l := w.leases[name];
    var r, pol := TermsOf(env, l), FetchPolicy(env, l).value;
    var l1 := Timed(env, l, r);
    var p := ActivePart(c, env, w, l);
    var w1 := Reconcile(c, env, w, name).0;
    ReadyPassStores(c, env, w, name);
    sess := SessionOf(c, env, l1, pol);
    core := CoreAfter(c, env, l1, pol, p.l.status.namespace);
    var b := w1.leases[name];
    FindsItAgain(c, env, env2, l, core, b, r, pol);
    StoredIsPoised(c, env, env2, w1, l, core, b, pol, r, sess, p, w.namespaces);
  }

  /** Quiescence: after a ready pass, a further pass with the same inputs later in
      the same warning window changes neither a lease nor a namespace - at once on
      the control cluster, and from the second ready pass on elsewhere. */
  lemma ReadyPassIsQuiescent(c: Config, env: Env, w: World, name: string, later: int)
    requires SettledPass(c, env, w, name)
    requires SameWindow(DeadlineOf(env, w.leases[name]), w.leases[name].spec.warnings, env.now, later)
    ensures var w1 := Reconcile(c, env, w, name).0; Reconcile(c, env.(now := later), w1, name).0 == w1
  {
    var l := w.leases[name];
    var core, sess := ReadyPassIsPoised(c, env, w, name, env.(now := later));
    var w1 := Reconcile(c, env, w, name).0;
    FormRests(env, later, core, core.(status := ReadyForm(env, core)));
    assert w1.leases[name] == core.(status := ReadyForm(env, core));
    RestIsRest(c, env.(now := later), w1, w1.leases[name], FetchPolicy(env, l).value, TermsOf(env, l), sess);
  }

  /** The ledger of an established lease is written with the status alone: when
      that write fails, a ready pass leaves every lease as it was, and the next one
      emits the same warnings again. */
  lemma LostLedger(c: Config, env: Env, w: World, name: string)
    requires name in w.leases && w.leases[name].meta.name == name && Healthy(w.leases[name])
    requires w.leases[name].status.namespace != "" && !IsProtectedNamespace(env.generatedName)
    requires ReachesReady(c, env, w, w.leases[name]) && !env.finalWriteOk
    ensures Reconcile(c, env, w, name).0.leases == w.leases
  {
    var l := w.leases[name];
    ActiveLands(c, env, w, Timed(env, l, TermsOf(env, l)), l.status.phase, TermsOf(env, l), FetchPolicy(env, l).value);
    ReadyPassIsActive(c, env, w, name);
  }
}
