/** What one reconcile pass can do to the stores: the facts every run-level
    argument of `Lifecycle` rests on. */
module PassEffects {
  import opened Api
  import opened LeaseTiming
  import opened LeaseStatusChanges
  import opened Policy
  import opened PlacementDecision
  import opened Ownership
  import opened Reconciliation

  /** The cluster a target name leads to. */
  function SiteOf(c: Config, routes: map<string, string>, name: string): string {
    if name == "" || name == LOCAL_CLUSTER_NAME then c.local else if name in routes then routes[name] else ""
  }

  /** Where the namespace of a lease belongs. */
  function Home(c: Config, routes: map<string, string>, l: Lease): NsKey {
    NsKey(SiteOf(c, routes, CleanupTarget(l)), l.status.namespace)
  }

  predicate SameIdentity(a: Lease, b: Lease) {
    a.meta == b.meta && a.spec == b.spec
  }

  /** A recorded namespace has a recorded cluster. */
  predicate Anchored(l: Lease) {
    l.status.namespace != "" ==> StickyCluster(l) != ""
  }

  /** A recorded namespace, and without a clusterRef its cluster, never change. */
  predicate StaysPut(a: Lease, b: Lease) {
    a.status.namespace != "" ==>
      b.status.namespace == a.status.namespace && (a.spec.clusterRef == "" ==> StickyCluster(b) == StickyCluster(a))
  }

  predicate Healthy(l: Lease) {
    Anchored(l) && PhaseAgrees(l.status) && Ordered(l.status.timing)
  }

  predicate SameBirth(a: Lease, b: Lease) {
    a.status.timing.createdAt.Some? ==> b.status.timing.createdAt == a.status.timing.createdAt
  }

  /** b is a later state of the lease a. */
  predicate Follows(a: Lease, b: Lease) {
    SameIdentity(a, b) && Healthy(b) && StaysPut(a, b) && SameBirth(a, b)
  }

  /** The listing is proper: no target is named "". */
  predicate NamesGiven(env: Env) {
    env.view.list.Some? ==> forall t :: t in env.view.list.value ==> t.name != ""
  }

  // ------------------------------------------------------ the working copy

  lemma TimedFollows(env: Env, l: Lease, r: Resolved)
    requires Healthy(l) && ValidTTLs(r.ttl, r.maxTTL)
    ensures Follows(l, Timed(env, l, r)) && Timed(env, l, r).status.phase == l.status.phase
    ensures ReadyTrue(Timed(env, l, r).status) == ReadyTrue(l.status)
  {
  }

  lemma DecisionNamed(c: Config, env: Env, l: Lease, pol: Option<LeasePolicy>)
    requires NamesGiven(env) && Decide(c.hash, env.view, l, pol, env.counts).Ok?
    ensures var d := Decide(c.hash, env.view, l, pol, env.counts).value;
            && (!d.pending ==> d.clusterName != "")
            && (l.spec.clusterRef != "" ==> !d.pending && d.clusterName == l.spec.clusterRef)
            && (l.spec.clusterRef == "" && Provisioned(l) && StickyCluster(l) != "" ==>
                  !d.pending && d.clusterName == StickyCluster(l))
  {
    if l.spec.clusterRef == "" && env.view.list.Some? {
      SelectionIsEligible(c.hash, l.meta.uid, l.meta.name, env.view.list.value,
                          SelectorFromPlacement(l.spec.placement), SelectorFromPlacement(PolicyPlacement(pol)),
                          env.counts.GetOr(CapacityCounts(env.view.list.value)));
    }
  }

  /** A session found for a lease leads to the lease's own cluster. */
  predicate RightSession(c: Config, env: Env, l: Lease, sess: Session) {
    sess.name != "" && sess.site == SiteOf(c, env.routes, CleanupTarget(l)) && StickyCluster(l) == sess.name
    && (sess.isLocal <==> sess.name == LOCAL_CLUSTER_NAME)
  }

  lemma ConditionFollows(a: Lease, l: Lease, t: ConditionType, isTrue: bool, r: Reason)
    requires Follows(a, l) && t != Ready
    ensures Follows(a, SetCond(l, t, isTrue, r)) && ReadyTrue(SetCond(l, t, isTrue, r).status) == ReadyTrue(l.status)
  {
  }

  lemma FailureFollows(a: Lease, l: Lease, r: Reason)
    requires Follows(a, l)
    ensures Follows(a, Mark(l, FailedStatus(l.status, r, l.meta.generation)))
    ensures Follows(a, Mark(l, PendingStatus(l.status, r, l.meta.generation)))
  {
  }

  lemma TargetErrorFollows(env: Env, a: Lease, l: Lease, r: Reason)
    requires Follows(a, l)
    ensures Follows(a, TargetError(env, l, r).0)
  {
    FailureFollows(a, l, r);
    ConditionFollows(a, Mark(l, FailedStatus(l.status, r, l.meta.generation)), TargetClusterReady, false, r);
  }

  /** l with another cluster status that a may move to. */
  predicate MayMove(a: Lease, l: Lease, cl: ClusterStatus) {
    cl.name != "" && (a.status.namespace != "" && a.spec.clusterRef == "" ==> StickyCluster(a) == cl.name)
  }

  lemma ClusterFollows(a: Lease, l: Lease, cl: ClusterStatus)
    requires Follows(a, l) && MayMove(a, l, cl)
    ensures Follows(a, l.(status := l.status.(cluster := Some(cl))))
  {
  }

  lemma OnClusterFollows(a: Lease, l: Lease, name: string)
    requires Follows(a, l) && l.status.cluster.Some? && MayMove(a, l, l.status.cluster.value.(name := name))
    ensures Follows(a, OnCluster(l, name)) && StickyCluster(OnCluster(l, name)) == name
    ensures ReadyTrue(OnCluster(l, name).status) == ReadyTrue(l.status)
    ensures OnCluster(l, name).status.namespace == l.status.namespace
  {
    ClusterFollows(a, l, l.status.cluster.value.(name := name));
    var moved := l.(status := l.status.(cluster := Some(l.status.cluster.value.(name := name))));
    ConditionFollows(a, moved, TargetClusterReady, true, EnvironmentReady);
  }

  /** What Identified leaves alone. */
  lemma IdentifiedKeeps(env: Env, l: Lease, sess: Session)
    requires l.status.cluster.Some?
    ensures var loc := Identified(env, l, sess);
            && !loc.Halted? && (loc.Found? ==> loc.session == sess)
            && loc.l.status.cluster.Some? && loc.l.status.cluster.value.name == l.status.cluster.value.name
            && loc.l == l.(status := l.status.(cluster := loc.l.status.cluster))
  {
  }

  /** Where Locate leaves the working copy l of the lease a. */
  predicate LocatedFollows(c: Config, env: Env, a: Lease, l: Lease, loc: Located) {
    if loc.Found? then FoundFollows(c, env, a, l, loc.l, loc.session) else Follows(a, loc.l)
  }

  predicate FoundFollows(c: Config, env: Env, a: Lease, l: Lease, l1: Lease, sess: Session) {
    && Follows(a, OnCluster(l1, sess.name)) && RightSession(c, env, OnCluster(l1, sess.name), sess)
    && ReadyTrue(OnCluster(l1, sess.name).status) == ReadyTrue(l.status)
    && OnCluster(l1, sess.name).status.namespace == l.status.namespace
  }

  lemma LocateFollows(c: Config, env: Env, a: Lease, l: Lease, pol: Option<LeasePolicy>)
    requires NamesGiven(env) && Healthy(a) && Follows(a, l)
    requires l.status.namespace == a.status.namespace && l.status.cluster == a.status.cluster
    ensures LocatedFollows(c, env, a, l, Locate(c, env, l, pol))
  {
    var d := Decide(c.hash, env.view, l, pol, env.counts);
    if env.counts.None? {
    } else if d.Err? {
      FailureFollows(a, l, PolicyViolation);
    } else if d.value.pending {
      PendingFollows(a, l);
    } else if env.outageWait > 0 {
      ConditionFollows(a, l, TargetClusterReady, false, TargetClusterUnavailable);
    } else {
      DecisionNamed(c, env, l, pol);
      ReachFollows(c, env, a, l, d.value.clusterName);
    }
  }

  lemma PendingFollows(a: Lease, l: Lease)
    requires Follows(a, l)
    ensures Follows(a, SetCond(Mark(l, PendingStatus(l.status, NoMatchingCluster, l.meta.generation)),
                               TargetClusterReady, false, NoMatchingCluster))
  {
    FailureFollows(a, l, NoMatchingCluster);
    ConditionFollows(a, Mark(l, PendingStatus(l.status, NoMatchingCluster, l.meta.generation)),
                     TargetClusterReady, false, NoMatchingCluster);
  }

  lemma ReachFollows(c: Config, env: Env, a: Lease, l: Lease, name: string)
    requires Follows(a, l) && name != "" && (a.spec.clusterRef != "" ==> name == a.spec.clusterRef)
    requires a.spec.clusterRef == "" && a.status.namespace != "" ==> name == StickyCluster(a)
    ensures LocatedFollows(c, env, a, l,
                           Reach(c, env, l.(status := l.status.(cluster := Some(KeepIdentity(l.status.cluster, name)))), name))
  {
    var kept := KeepIdentity(l.status.cluster, name);
    var chosen := l.(status := l.status.(cluster := Some(kept)));
    ClusterFollows(a, l, kept);
    var sess := ResolveNamedTarget(c, env, name);
    if sess.Ok? && sess.value.isLocal {
      OnClusterFollows(a, chosen, LOCAL_CLUSTER_NAME);
    } else if sess.Ok? {
      IdentifiedKeeps(env, chosen, sess.value);
      var loc := Identified(env, chosen, sess.value);
      ClusterFollows(a, l, loc.l.status.cluster.value);
      OnClusterFollows(a, loc.l, name);
    }
  }

  // ------------------------------------------------- the stores in one pass

  predicate OthersKept(w: World, w': World, name: string) {
    w.leases - {name} == w'.leases - {name}
  }

  predicate OnlyAt(before: map<NsKey, Namespace>, after: map<NsKey, Namespace>, k: NsKey) {
    before - {k} == after - {k}
  }

  /** A pass over the stored lease a has reached the stores w and the copy l. */
  predicate InProgress(a: Lease, w0: World, w: World, l: Lease) {
    && a.meta.name in w0.leases && w0.leases[a.meta.name] == a && Healthy(a)
    && a.meta.name in w.leases && Follows(a, w.leases[a.meta.name]) && OthersKept(w0, w, a.meta.name)
    && Follows(a, l)
  }

  /** The lease has recorded k as its namespace. */
  predicate Recorded(c: Config, routes: map<string, string>, l: Lease, k: NsKey) {
    l.status.namespace != "" && k == Home(c, routes, l)
  }

  predicate SameMarks(a: Namespace, b: Namespace) {
    a.labels == b.labels && a.annotations == b.annotations && a.terminating == b.terminating
  }

  /** The lease a claimed k: it was free or a's to adopt, and now carries a's
      stamp or the marks it had. */
  predicate Claimed(a: Lease, before: map<NsKey, Namespace>, after: map<NsKey, Namespace>, k: NsKey) {
    && OnlyAt(before, after, k) && k in after
    && (k in before ==> CanAdoptNamespace(k.name, before[k], a.meta.name, a.meta.uid) && !before[k].terminating)
    && !after[k].terminating
    && (StampedFor(after[k], a.meta.name, a.meta.uid) || (k in before && SameMarks(before[k], after[k])))
  }

  lemma WriteKeepsProgress(a: Lease, w0: World, w: World, l: Lease)
    requires InProgress(a, w0, w, l)
    ensures InProgress(a, w0, WriteStatus(w, l), l)
    ensures WriteStatus(w, l).leases[a.meta.name].status == l.status && WriteStatus(w, l).namespaces == w.namespaces
  {
    var stored := w.leases[a.meta.name];
    assert Follows(a, stored.(status := l.status));
    assert WriteStatus(w, l).leases - {a.meta.name} == w.leases - {a.meta.name};
  }

  lemma EnsureClaims(c: Config, env: Env, a: Lease, w: World, l: Lease, sess: Session)
    requires SameIdentity(a, l)
    ensures var e := EnsureNamespace(c, env, w, l, sess);
            && e.w.leases == w.leases
            && (e.name.None? ==> e.w == w)
            && (e.name.Some? ==> e.name.value != "" && Claimed(a, w.namespaces, e.w.namespaces, NsKey(sess.site, e.name.value)))
            && (e.name.Some? && l.status.namespace != "" ==> e.name.value == l.status.namespace)
  {
    if l.status.namespace == "" && l.spec.namespace.name == "" {
      StampsVerify(l, c.controlClusterID, FreshNamespace(l, c.controlClusterID));
    } else {
      ExistingClaims(c, env, a, w, l, sess, if l.status.namespace != "" then l.status.namespace else l.spec.namespace.name);
    }
  }

  lemma ExistingClaims(c: Config, env: Env, a: Lease, w: World, l: Lease, sess: Session, name: string)
    requires SameIdentity(a, l)
    ensures var e := EnsureExistingNamespace(c, env, w, l, sess, name);
            && e.w.leases == w.leases
            && (e.name.None? ==> e.w == w)
            && (e.name.Some? ==> e.name.value == name != "" && Claimed(a, w.namespaces, e.w.namespaces, NsKey(sess.site, name)))
  {
    var key := NsKey(sess.site, name);
    if key in w.namespaces {
      AdoptionClaims(c, a, w.namespaces, l, key);
    } else {
      CreationClaims(c, a, w.namespaces, l, key);
    }
  }

  lemma CreationClaims(c: Config, a: Lease, before: map<NsKey, Namespace>, l: Lease, key: NsKey)
    requires SameIdentity(a, l) && key !in before
    ensures Claimed(a, before, before[key := FreshNamespace(l, c.controlClusterID)], key)
  {
    StampsVerify(l, c.controlClusterID, FreshNamespace(l, c.controlClusterID));
  }

  lemma AdoptionClaims(c: Config, a: Lease, before: map<NsKey, Namespace>, l: Lease, key: NsKey)
    requires SameIdentity(a, l) && key in before
    ensures !before[key].terminating && CanAdoptNamespace(key.name, before[key], l.meta.name, l.meta.uid) ==>
              && Claimed(a, before, before, key)
              && Claimed(a, before, before[key := AdoptedNamespace(before[key], l, c.controlClusterID)], key)
  {
    StampsVerify(l, c.controlClusterID, before[key]);
  }

  lemma QuotaKeepsMarks(ns: Namespace, name: string, desired: Option<map<HardKey, int>>, ok: bool)
    ensures SameMarks(ns, WithQuota(ns, name, desired, ok).ns)
  {
  }

  lemma ProvideKeepsMarks(env: Env, ns: Namespace, l: Lease, np: Option<NetworkPolicySpec>)
    ensures SameMarks(ns, Provide(env, ns, l, np).ns)
  {
    var q := WithQuota(ns, l.meta.name, DesiredQuota(l.spec), env.quotaOk);
    QuotaKeepsMarks(ns, l.meta.name, DesiredQuota(l.spec), env.quotaOk);
    var r := WithLimits(q.ns, l, env.limitsOk);
    assert SameMarks(ns, r.ns);
    var n := WithNetworkPolicy(r.ns, l, np, env.networkPolicyOk);
    assert SameMarks(ns, n.ns);
  }

  lemma FinishedFollows(env: Env, a: Lease, l: Lease)
    requires Follows(a, l) && l.status.namespace != "" && StickyCluster(l) != ""
    ensures Follows(a, Finished(env, l))
    ensures Finished(env, l).status.namespace == l.status.namespace && Finished(env, l).status.cluster == l.status.cluster
  {
  }

  lemma StillClaimed(a: Lease, before: map<NsKey, Namespace>, after: map<NsKey, Namespace>, k: NsKey, ns: Namespace)
    requires Claimed(a, before, after, k) && SameMarks(after[k], ns)
    ensures Claimed(a, before, after[k := ns], k)
  {
    assert OnlyAt(before, after[k := ns], k);
  }

  lemma FurnishFollows(c: Config, env: Env, a: Lease, w0: World, w: World, l: Lease, sess: Session, name: string, r: Resolved)
    requires InProgress(a, w0, w, l) && l.status.namespace == name != "" && StickyCluster(l) != ""
    requires Claimed(a, w0.namespaces, w.namespaces, NsKey(sess.site, name))
    ensures var p := Furnish(env, w, l, sess, name, r);
            && InProgress(a, w0, p.w, p.l) && p.w.leases == w.leases
            && Claimed(a, w0.namespaces, p.w.namespaces, NsKey(sess.site, name))
            && p.l.status.namespace == name && p.l.status.cluster == l.status.cluster
  {
    var key := NsKey(sess.site, name);
    var np := WorkingNetworkPolicy(l.spec, r);
    ProvideKeepsMarks(env, w.namespaces[key], l, np);
    var p := Provide(env, w.namespaces[key], l, np);
    StillClaimed(a, w0.namespaces, w.namespaces, key, p.ns);
    if p.failure.Some? {
      FailureFollows(a, l, p.failure.value);
    } else {
      FinishedFollows(env, a, l);
    }
  }

  /** What an active pass over a leaves: namespaces changed at most at the home
      of the working copy, which the store knows once it was written. */
  predicate ActiveEffect(c: Config, env: Env, a: Lease, w0: World, p: ActivePass) {
    && InProgress(a, w0, p.w, p.l)
    && (p.w.namespaces != w0.namespaces ==>
          && p.l.status.namespace != ""
          && Claimed(a, w0.namespaces, p.w.namespaces, Home(c, env.routes, p.l))
          && (if env.nsWriteOk || a.status.namespace != ""
              then Recorded(c, env.routes, p.w.leases[a.meta.name], Home(c, env.routes, p.l))
              else p.w.leases[a.meta.name].status.namespace == ""))
  }

  lemma ProvisioningFollows(c: Config, env: Env, a: Lease, l: Lease, sess: Session)
    requires Follows(a, l) && RightSession(c, env, l, sess)
    ensures var l1 := Mark(l, ProvisioningStatus(l.status, l.meta.generation));
            Follows(a, l1) && RightSession(c, env, l1, sess) && l1.status.namespace == l.status.namespace
  {
  }

  lemma NamedFollows(c: Config, env: Env, a: Lease, l: Lease, sess: Session, name: string)
    requires Follows(a, l) && RightSession(c, env, l, sess) && a.status.namespace == "" && name != ""
    ensures var l1 := l.(status := l.status.(namespace := name)); Follows(a, l1) && RightSession(c, env, l1, sess)
  {
  }

  lemma HomeStays(c: Config, routes: map<string, string>, a: Lease, l: Lease, l': Lease)
    requires a.status.namespace != "" && Follows(a, l) && Follows(a, l')
    ensures Home(c, routes, l) == Home(c, routes, l') && l'.status.namespace != ""
  {
  }

  lemma ProvisionFollows(c: Config, env: Env, a: Lease, w0: World, w: World, l: Lease, sess: Session, wasReady: bool, r: Resolved)
    requires InProgress(a, w0, w, l) && w.namespaces == w0.namespaces && RightSession(c, env, l, sess)
    requires l.status.namespace == a.status.namespace == w.leases[a.meta.name].status.namespace
    ensures ActiveEffect(c, env, a, w0, Provision(c, env, w, l, sess, wasReady, r))
  {
    ProvisioningFollows(c, env, a, l, sess);
    var l1 := if !wasReady && l.status.phase != Failed then Mark(l, ProvisioningStatus(l.status, l.meta.generation)) else l;
    EnsureClaims(c, env, a, w, l1, sess);
    var e := EnsureNamespace(c, env, w, l1, sess);
    if e.name.None? {
      FailureFollows(a, l1, NamespaceCreationFailed);
    } else if l1.status.namespace == e.name.value {
      FurnishFollows(c, env, a, w0, e.w, l1, sess, e.name.value, r);
      var p := Furnish(env, e.w, l1, sess, e.name.value, r);
      HomeStays(c, env.routes, a, p.l, p.w.leases[a.meta.name]);
    } else {
      NamedFollows(c, env, a, l1, sess, e.name.value);
      RecordFollows(c, env, a, w0, e.w, l1.(status := l1.status.(namespace := e.name.value)), sess, r);
    }
  }

  lemma RecordFollows(c: Config, env: Env, a: Lease, w0: World, w: World, l: Lease, sess: Session, r: Resolved)
    requires InProgress(a, w0, w, l) && RightSession(c, env, l, sess)
    requires a.status.namespace == "" == w.leases[a.meta.name].status.namespace && l.status.namespace != ""
    requires Claimed(a, w0.namespaces, w.namespaces, NsKey(sess.site, l.status.namespace))
    ensures ActiveEffect(c, env, a, w0, RecordNamespace(env, w, l, sess, r))
  {
    if env.nsWriteOk {
      WriteKeepsProgress(a, w0, w, l);
      var w1 := WriteStatus(w, l);
      var again := Reread(w1, l, Some(ToEffective(r)), sess.name);
      assert Follows(a, again);
      FurnishFollows(c, env, a, w0, w1, again, sess, l.status.namespace, r);
    }
  }

  lemma SettleFollows(c: Config, env: Env, a: Lease, w: World, l: Lease, sess: Session, previous: Phase, wasReady: bool, r: Resolved)
    requires a.meta.name in w.leases && w.leases[a.meta.name] == a && Healthy(a)
    requires Follows(a, OnCluster(l, sess.name)) && RightSession(c, env, OnCluster(l, sess.name), sess)
    requires OnCluster(l, sess.name).status.namespace == a.status.namespace
    ensures ActiveEffect(c, env, a, w, Settle(c, env, w, l, sess, previous, wasReady, r))
  {
    var l1 := OnCluster(l, sess.name);
    assert InProgress(a, w, w, l1);
    if !WritesClusterFirst(previous, l1) {
      ProvisionFollows(c, env, a, w, w, l1, sess, wasReady, r);
    } else if env.clusterWriteOk {
      WriteKeepsProgress(a, w, w, l1);
      var w1 := WriteStatus(w, l1);
      var again := Reread(w1, l1, Some(ToEffective(r)), sess.name);
      assert Follows(a, again);
      ProvisionFollows(c, env, a, w, w1, again, sess, wasReady, r);
    }
  }

  lemma ActiveFollows(c: Config, env: Env, a: Lease, w: World, l: Lease, previous: Phase, r: Resolved, pol: Option<LeasePolicy>)
    requires NamesGiven(env) && InProgress(a, w, w, l)
    requires l.status.namespace == a.status.namespace && l.status.cluster == a.status.cluster
    ensures ActiveEffect(c, env, a, w, ReconcileActive(c, env, w, l, previous, r, pol))
  {
    LocateFollows(c, env, a, l, pol);
    var loc := Locate(c, env, l, pol);
    match loc
    case Halted(l1, result) =>
    case Unavailable(l1, reason) => TargetErrorFollows(env, a, l1, reason);
    case Found(l1, sess) => SettleFollows(c, env, a, w, l1, sess, previous, ReadyTrue(l.status), r);
  }

  // ------------------------------------------------------------------ cleanup

  /** A working copy of a that is being cleaned up. */
  predicate Leaving(a: Lease, l: Lease) {
    SameIdentity(a, l) && Anchored(l) && StaysPut(a, l) && !ReadyTrue(l.status)
    && Ordered(l.status.timing) && SameBirth(a, l) && (l.status.namespace == a.status.namespace && l.status.cluster == a.status.cluster)
  }

  /** A lease that insists on cleaning up its cluster. */
  predicate Strict(l: Lease) {
    EffectiveCleanupMode(l.spec) == RequireRemoteCleanup && !l.meta.forceCleanupAcknowledged
  }

  predicate OnRemote(l: Lease) {
    CleanupTarget(l) != "" && CleanupTarget(l) != LOCAL_CLUSTER_NAME
  }

  /** The namespace k was deleted for a: a's own, unprotected, and on the cluster
      whose identity a recorded. */
  predicate Deleted(c: Config, a: Lease, before: map<NsKey, Namespace>, after: map<NsKey, Namespace>, k: NsKey) {
    && k in before && after == before[k := before[k].(terminating := true)] && !before[k].terminating
    && VerifyNamespaceOwnership(before[k], a, c.controlClusterID) && !IsProtectedNamespace(k.name)
    && (OnRemote(a) && RemoteIdentity(a) != "" ==> k.cluster == RemoteIdentity(a))
  }

  /** What cleaning up a leaves. */
  predicate CleanupEffect(c: Config, a: Lease, w: World, l: Lease, cl: Cleaned, home: NsKey) {
    && cl.w.leases == w.leases && Leaving(a, cl.l) && cl.l.status.phase == l.status.phase
    && (cl.w.namespaces == w.namespaces || Deleted(c, a, w.namespaces, cl.w.namespaces, home))
    && (cl.outcome == CleanedUp ==>
          cl.w == w && (Strict(a) ==> a.status.namespace == "" || home !in w.namespaces))
  }

  lemma ConditionLeaves(a: Lease, l: Lease, t: ConditionType, isTrue: bool, r: Reason)
    requires Leaving(a, l) && t != Ready
    ensures Leaving(a, SetCond(l, t, isTrue, r)) && SetCond(l, t, isTrue, r).status.phase == l.status.phase
  {
  }

  lemma RemovalCleans(c: Config, env: Env, a: Lease, w: World, l: Lease, key: NsKey)
    requires Leaving(a, l) && !IsProtectedNamespace(key.name)
    requires OnRemote(a) && RemoteIdentity(a) != "" ==> key.cluster == RemoteIdentity(a)
    ensures CleanupEffect(c, a, w, l, RemoveNamespace(c, env, w, l, key, EffectiveCleanupMode(l.spec) == BestEffort), key)
  {
    ConditionLeaves(a, l, Cleanup, false, OwnershipMismatch);
  }

  /** The part of CleanupEnvironment that has a session. */
  lemma SessionCleans(c: Config, env: Env, a: Lease, w: World, l: Lease, sess: Session)
    requires Leaving(a, l) && l.status.namespace != "" && !IsProtectedNamespace(l.status.namespace)
    requires !l.meta.forceCleanupAcknowledged && ResolveNamedTarget(c, env, CleanupTarget(l)) == Ok(sess)
    ensures CleanupEffect(c, a, w, l, CleanupEnvironment(c, env, w, l), Home(c, env.routes, a))
  {
    ConditionLeaves(a, l, Cleanup, false, OwnershipMismatch);
    var key := Home(c, env.routes, a);
    assert key == NsKey(sess.site, l.status.namespace);
    if OnRemote(a) && RemoteIdentity(a) != "" ==> key.cluster == RemoteIdentity(a) {
      RemovalCleans(c, env, a, w, l, key);
    }
  }

  lemma CleanupCleans(c: Config, env: Env, a: Lease, w: World, l: Lease)
    requires Leaving(a, l)
    ensures CleanupEffect(c, a, w, l, CleanupEnvironment(c, env, w, l), Home(c, env.routes, a))
  {
    if l.status.namespace != "" && !IsProtectedNamespace(l.status.namespace) && !l.meta.forceCleanupAcknowledged {
      var sess := ResolveNamedTarget(c, env, CleanupTarget(l));
      if sess.Ok? {
        SessionCleans(c, env, a, w, l, sess.value);
      } else {
        ConditionLeaves(a, l, TargetClusterReady, false, RemoteCleanupBlocked);
      }
    }
  }

  // ------------------------------------------------------------ whole passes

  /** b is a later state of a, but for the finalizer. */
  predicate Later(a: Lease, b: Lease) {
    Follows(a.(meta := a.meta.(finalizer := b.meta.finalizer)), b)
  }

  /** The store no longer holds a with its finalizer. */
  predicate Released(a: Lease, w: World) {
    a.meta.name in w.leases ==> !w.leases[a.meta.name].meta.finalizer
  }

  /** The namespace is on record already, or one of the two writes that can
      record a new one goes through. */
  predicate Durable(env: Env, a: Lease) {
    a.status.namespace != "" || env.nsWriteOk || env.finalWriteOk
  }

  predicate ClaimEffect(c: Config, env: Env, a: Lease, w: World, w': World, k: NsKey) {
    && a.meta.finalizer && !a.meta.deleting && Claimed(a, w.namespaces, w'.namespaces, k)
    && !Released(a, w')
    && (if Durable(env, a) then Recorded(c, env.routes, w'.leases[a.meta.name], k)
        else w'.leases[a.meta.name].status.namespace == "")
  }

  predicate DeleteEffect(c: Config, env: Env, a: Lease, w: World, w': World, k: NsKey) {
    && a.meta.finalizer && !Released(a, w')
    && k == Home(c, env.routes, a) && Deleted(c, a, w.namespaces, w'.namespaces, k)
  }

  /** Everything a pass over the stored lease a may do: nothing to other leases;
      a itself moves on; at most one namespace is claimed or deleted for a; the
      finalizer goes only when nothing is left at home. */
  ghost predicate PassEffect(c: Config, env: Env, a: Lease, w: World, w': World) {
    && OthersKept(w, w', a.meta.name)
    && (a.meta.name in w'.leases ==> Later(a, w'.leases[a.meta.name]))
    && (w'.namespaces == w.namespaces
        || (exists k :: ClaimEffect(c, env, a, w, w', k)) || (exists k :: DeleteEffect(c, env, a, w, w', k)))
    && (Released(a, w') && a.meta.finalizer ==>
          w'.namespaces == w.namespaces
          && (Strict(a) ==> a.status.namespace == "" || Home(c, env.routes, a) !in w'.namespaces))
  }

  predicate StoredAs(a: Lease, w: World) {
    a.meta.name in w.leases && w.leases[a.meta.name] == a && Healthy(a)
  }

  lemma PatchKeepsProgress(a: Lease, w0: World, w: World, l: Lease, before: LeaseStatus, ok: bool)
    requires InProgress(a, w0, w, l)
    ensures InProgress(a, w0, PatchStatus(w, l, before, ok), l) && PatchStatus(w, l, before, ok).namespaces == w.namespaces
  {
    WriteKeepsProgress(a, w0, w, l);
  }

  lemma CleaningFollows(a: Lease, l: Lease)
    requires Leaving(a, l)
    ensures l.status.phase == Cleaning ==> Follows(a, l)
    ensures Follows(a, Mark(l, CleaningStatus(l.status, l.meta.generation)))
    ensures Follows(a, Mark(l, CleanupFailedStatus(l.status, l.meta.generation)))
    ensures Follows(a, Mark(l, CleanedStatus(l.status, l.meta.generation)))
  {
  }

  lemma UnfinishedFollows(a: Lease, l: Lease, outcome: CleanupOutcome, expiring: bool)
    requires Leaving(a, l) && (expiring || l.status.phase == Cleaning)
    ensures Follows(a, UnfinishedLease(l, outcome, expiring)) && Follows(a, Observed(UnfinishedLease(l, outcome, expiring)))
  {
    CleaningFollows(a, l);
    var failed := Mark(l, CleanupFailedStatus(l.status, l.meta.generation));
    ConditionFollows(a, failed, Cleanup, false, OwnershipMismatch);
  }

  /** A cleanup that is not finished. */
  lemma UnfinishedEffect(c: Config, env: Env, a: Lease, w: World, cl: Cleaned, l1: Lease, l: Lease)
    requires StoredAs(a, w) && a.meta.finalizer && Follows(a, l)
    requires CleanupEffect(c, a, w, l1, cl, Home(c, env.routes, a))
    ensures PassEffect(c, env, a, w, PatchStatus(cl.w, l, a.status, env.finalWriteOk))
  {
    assert InProgress(a, w, cl.w, l);
    PatchKeepsProgress(a, w, cl.w, l, a.status, env.finalWriteOk);
    var w' := PatchStatus(cl.w, l, a.status, env.finalWriteOk);
    if w'.namespaces != w.namespaces {
      assert DeleteEffect(c, env, a, w, w', Home(c, env.routes, a));
    }
  }

  /** A finished cleanup, before and after the finalizer goes. */
  lemma ClosedEffect(c: Config, env: Env, a: Lease, w: World, l1: Lease, l: Lease)
    requires StoredAs(a, w) && a.meta.finalizer && Follows(a, l)
    requires Strict(a) ==> a.status.namespace == "" || Home(c, env.routes, a) !in w.namespaces
    ensures var w1 := PatchStatus(w, l, a.status, env.finalWriteOk);
            var w2 := RemoveFinalizer(w1, a.meta.name);
            && PassEffect(c, env, a, w, w1) && PassEffect(c, env, a, w, w2)
            && PassEffect(c, env, a, w, DeleteLease(w2, a.meta.name))
  {
    PatchKeepsProgress(a, w, w, l, a.status, env.finalWriteOk);
    var w1 := PatchStatus(w, l, a.status, env.finalWriteOk);
    var w2 := RemoveFinalizer(w1, a.meta.name);
    var w3 := DeleteLease(w2, a.meta.name);
    assert PassEffect(c, env, a, w, w1);
    assert w2.leases - {a.meta.name} == w1.leases - {a.meta.name};
    assert w3.leases - {a.meta.name} == w2.leases - {a.meta.name};
    assert a.meta.name in w2.leases ==> Later(a, w2.leases[a.meta.name]);
  }

  lemma ExpiredEffect(c: Config, env: Env, a: Lease, w: World, l: Lease)
    requires StoredAs(a, w) && a.meta.finalizer && Follows(a, l)
    requires l.status.namespace == a.status.namespace && l.status.cluster == a.status.cluster
    ensures PassEffect(c, env, a, w, ReconcileExpired(c, env, w, l, a.status).0)
  {
    var t := l.status.timing;
    var reason := if t.expirationReason != NoReason then t.expirationReason
                  else ResolveExpirationReason(env.now, t.expiresAt.GetOr(0), t.idleExpiresAt);
    var l1 := Mark(l, ExpiredStatus(l.status, reason, l.meta.generation));
    CleanupCleans(c, env, a, w, l1);
    CloseExpiredEffect(c, env, a, w, l1, CleanupEnvironment(c, env, w, l1));
  }

  lemma CloseExpiredEffect(c: Config, env: Env, a: Lease, w: World, l1: Lease, cl: Cleaned)
    requires StoredAs(a, w) && a.meta.finalizer && CleanupEffect(c, a, w, l1, cl, Home(c, env.routes, a))
    ensures PassEffect(c, env, a, w, CloseExpired(env, cl, a.status).0)
  {
    if cl.outcome != CleanedUp {
      UnfinishedFollows(a, cl.l, cl.outcome, true);
      UnfinishedEffect(c, env, a, w, cl, l1, Observed(UnfinishedLease(cl.l, cl.outcome, true)));
    } else {
      CleaningFollows(a, cl.l);
      ClosedEffect(c, env, a, w, l1, Observed(Mark(cl.l, CleanedStatus(cl.l.status, cl.l.meta.generation))));
    }
  }

  lemma DeleteEffects(c: Config, env: Env, a: Lease, w: World)
    requires StoredAs(a, w)
    ensures PassEffect(c, env, a, w, ReconcileDelete(c, env, w, a).0)
  {
    if a.meta.finalizer {
      var reason := if a.status.timing.expirationReason != SourceClosed then ManualExpiration else SourceClosed;
      var l0 := a.(status := a.status.(timing := a.status.timing.(expirationReason := reason)));
      var l1 := Mark(l0, CleaningStatus(l0.status, a.meta.generation));
      CleanupCleans(c, env, a, w, l1);
      CloseDeletedEffect(c, env, a, w, l1, CleanupEnvironment(c, env, w, l1));
    }
  }

  lemma CloseDeletedEffect(c: Config, env: Env, a: Lease, w: World, l1: Lease, cl: Cleaned)
    requires StoredAs(a, w) && a.meta.finalizer && CleanupEffect(c, a, w, l1, cl, Home(c, env.routes, a))
    requires l1.status.phase == Cleaning
    ensures PassEffect(c, env, a, w, CloseDeleted(env, cl, a.status).0)
  {
    if cl.outcome != CleanedUp {
      UnfinishedFollows(a, cl.l, cl.outcome, false);
      UnfinishedEffect(c, env, a, w, cl, l1, UnfinishedLease(cl.l, cl.outcome, false));
    } else {
      CleaningFollows(a, cl.l);
      ClosedEffect(c, env, a, w, l1, Mark(cl.l, CleanedStatus(cl.l.status, cl.l.meta.generation)));
    }
  }

  lemma RejectEffect(c: Config, env: Env, a: Lease, w: World, r: Reason)
    requires StoredAs(a, w) && a.meta.finalizer
    ensures PassEffect(c, env, a, w, Reject(env, w, a, a.status, r).0)
  {
    FailureFollows(a, a, r);
    var failed := Observed(Mark(a, FailedStatus(a.status, r, a.meta.generation)));
    assert InProgress(a, w, w, failed);
    PatchKeepsProgress(a, w, w, failed, a.status, env.finalWriteOk);
  }

  /** The end of an active pass. */
  lemma ActiveCloses(c: Config, env: Env, a: Lease, w: World, p: ActivePass)
    requires StoredAs(a, w) && a.meta.finalizer && !a.meta.deleting && ActiveEffect(c, env, a, w, p)
    ensures PassEffect(c, env, a, w, PatchStatus(p.w, Observed(p.l), a.status, env.finalWriteOk))
  {
    var l := Observed(p.l);
    PatchKeepsProgress(a, w, p.w, l, a.status, env.finalWriteOk);
    var w' := PatchStatus(p.w, l, a.status, env.finalWriteOk);
    if w'.namespaces != w.namespaces {
      assert Recorded(c, env.routes, l, Home(c, env.routes, p.l));
      assert ClaimEffect(c, env, a, w, w', Home(c, env.routes, p.l));
    }
  }

  lemma LiveEffect(c: Config, env: Env, a: Lease, w: World)
    requires NamesGiven(env) && StoredAs(a, w) && a.meta.finalizer && !a.meta.deleting
    ensures PassEffect(c, env, a, w, ReconcileLive(c, env, w, a).0)
  {
    var pol := FetchPolicy(env, a);
    if !ValidSpec(a) {
      RejectEffect(c, env, a, w, InvalidConfiguration);
    } else if pol.Err? {
      RejectEffect(c, env, a, w, pol.error);
    } else {
      var r := Resolve(a.spec, pol.value);
      if r.Err? {
        RejectEffect(c, env, a, w, PolicyViolation);
      } else {
        ResolvedObeysPolicy(a.spec, pol.value);
        TimedFollows(env, a, r.value);
        var l1 := Timed(env, a, r.value);
        if IsExpired(l1.status.timing, env.now) {
          ExpiredEffect(c, env, a, w, l1);
        } else {
          ActiveFollows(c, env, a, w, l1, a.status.phase, r.value, pol.value);
          ActiveCloses(c, env, a, w, ReconcileActive(c, env, w, l1, a.status.phase, r.value, pol.value));
        }
      }
    }
  }

  /** What a pass over a stored lease does. */
  lemma ReconcileEffect(c: Config, env: Env, w: World, name: string)
    requires NamesGiven(env) && name in w.leases && w.leases[name].meta.name == name && Healthy(w.leases[name])
    ensures PassEffect(c, env, w.leases[name], w, Reconcile(c, env, w, name).0)
  {
    var a := w.leases[name];
    if a.meta.deleting {
      DeleteEffects(c, env, a, w);
    } else if a.meta.finalizer {
      LiveEffect(c, env, a, w);
    }
  }

  // ----------------------------------------------------------------- progress

  /** Nothing stands in the way of cleaning up the lease's namespace. */
  predicate Reachable(c: Config, env: Env, l: Lease) {
    && l.status.namespace != "" && !IsProtectedNamespace(l.status.namespace) && !l.meta.forceCleanupAcknowledged
    && env.nsReadOk && env.nsDeleteOk && env.finalWriteOk && env.finalizerRemoveOk && env.leaseDeleteOk
    && var sess := ResolveNamedTarget(c, env, CleanupTarget(l));
    && sess.Ok? && (sess.value.isLocal || RemoteIdentity(l) == "" || Probe(env, sess.value) == Some(RemoteIdentity(l)))
  }

  lemma CleanupDecides(c: Config, env: Env, w: World, l: Lease)
    requires Reachable(c, env, l)
    ensures var home := Home(c, env.routes, l);
            var cl := CleanupEnvironment(c, env, w, l);
            if home !in w.namespaces then cl == Cleaned(w, l, CleanedUp)
            else if !VerifyNamespaceOwnership(w.namespaces[home], l, c.controlClusterID)
            then cl.w == w && cl.outcome == Mismatch && cl.l == MismatchedLease(l)
            else cl.outcome == Waiting && cl.l == l && cl.w.leases == w.leases
                 && cl.w.namespaces == w.namespaces[home := w.namespaces[home].(terminating := true)]
  {
    var sess := ResolveNamedTarget(c, env, CleanupTarget(l)).value;
    assert NsKey(sess.site, l.status.namespace) == Home(c, env.routes, l);
    var home := Home(c, env.routes, l);
    if home in w.namespaces && w.namespaces[home].terminating {
      assert w.namespaces[home := w.namespaces[home].(terminating := true)] == w.namespaces;
    }
  }

  /** A lease that is deleted while its cluster can be reached leaves the store
      exactly when its namespace is gone; until then a pass starts to delete what
      is the lease's own, and nothing else. */
  lemma DeletedLeaseProgresses(c: Config, env: Env, w: World, name: string)
    requires name in w.leases && w.leases[name].meta.name == name
    requires w.leases[name].meta.deleting && w.leases[name].meta.finalizer && Reachable(c, env, w.leases[name])
    ensures var l := w.leases[name];
            var home := Home(c, env.routes, l);
            var w' := Reconcile(c, env, w, name).0;
            && (name !in w'.leases <==> home !in w.namespaces)
            && w'.namespaces ==
                 if home in w.namespaces && VerifyNamespaceOwnership(w.namespaces[home], l, c.controlClusterID)
                 then w.namespaces[home := w.namespaces[home].(terminating := true)] else w.namespaces
  {
    var l := w.leases[name];
    var reason := if l.status.timing.expirationReason != SourceClosed then ManualExpiration else SourceClosed;
    var l0 := l.(status := l.status.(timing := l.status.timing.(expirationReason := reason)));
    var l1 := Mark(l0, CleaningStatus(l0.status, l.meta.generation));
    CleanupDecides(c, env, w, l1);
    var cl := CleanupEnvironment(c, env, w, l1);
    assert VerifiesAlike(c, w, l, l1, Home(c, env.routes, l));
    ClosingProgresses(env, cl, l.status, name);
  }

  predicate VerifiesAlike(c: Config, w: World, l: Lease, l1: Lease, k: NsKey) {
    k in w.namespaces ==>
      VerifyNamespaceOwnership(w.namespaces[k], l, c.controlClusterID)
      == VerifyNamespaceOwnership(w.namespaces[k], l1, c.controlClusterID)
  }

  lemma ClosingProgresses(env: Env, cl: Cleaned, before: LeaseStatus, name: string)
    requires name in cl.w.leases && cl.w.leases[name].meta.deleting && cl.l.meta.name == name
    requires env.finalWriteOk && env.finalizerRemoveOk
    ensures var w' := CloseDeleted(env, cl, before).0;
            (name !in w'.leases <==> cl.outcome == CleanedUp) && w'.namespaces == cl.w.namespaces
  {
  }
}
