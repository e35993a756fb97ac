/** One reconcile pass of the lease controller
    (internal/controller/environmentlease_controller.go and
    internal/remote/resolve.go), as a function of the stored leases, the
    namespaces of all clusters, and the answers the API servers give during the
    pass.  `LeaseReconcilers` runs the same pass step by step. */
module Reconciliation {
  import opened Api
  import opened LeaseTiming
  import opened LeaseStatusChanges
  import opened Warnings
  import opened LeaseObjects
  import opened Policy
  import opened PlacementDecision
  import opened Ownership

  /** The lease store and the namespaces of every cluster. */
  datatype World = World(leases: map<string, Lease>, namespaces: map<NsKey, Namespace>)

  /** `local` is the identity of the control cluster. */
  datatype Config = Config(hash: string -> nat, controlClusterID: string, local: string)

  /** Everything outside the pass's control: the clock, what reads return, which
      cluster each target's credentials reach, the name the server generates, and
      which calls fail. */
  datatype Env = Env(
    now: int,
    policies: map<string, LeasePolicy>,
    counts: Option<map<string, int>>,
    view: HubView,
    outageWait: int,
    outageMark: int,
    routes: map<string, string>,
    clientOk: bool,
    probeOk: bool,
    generatedName: string,
    finalizerAddOk: bool,
    clusterWriteOk: bool,
    clusterRereadOk: bool,
    nsReadOk: bool,
    nsCreateOk: bool,
    nsPatchOk: bool,
    nsWriteOk: bool,
    nsRereadOk: bool,
    quotaOk: bool,
    limitsOk: bool,
    networkPolicyOk: bool,
    nsDeleteOk: bool,
    finalWriteOk: bool,
    finalizerRemoveOk: bool,
    leaseDeleteOk: bool)

  const CLEANUP_REQUEUE_AFTER := 5 * SECOND
  const TARGET_UNAVAILABLE_AFTER := 30 * SECOND
  const REMOTE_DRIFT_REQUEUE := 120 * SECOND

  datatype PassResult = Requeue(after: int) | RequeueNow | Retry

  /** A pass in progress: the stores and the working copy of the lease. */
  datatype Work = Work(w: World, l: Lease)

  // ------------------------------------------------------------ small pieces

  function Stored(w: World, l: Lease): Lease {
    if l.meta.name in w.leases then w.leases[l.meta.name] else l
  }

  /** A status write replaces the whole stored status. */
  function WriteStatus(w: World, l: Lease): World {
    if l.meta.name in w.leases
    then w.(leases := w.leases[l.meta.name := w.leases[l.meta.name].(status := l.status)])
    else w
  }

  function Mark(l: Lease, s: LeaseStatus): Lease {
    l.(status := s)
  }

  function SetCond(l: Lease, t: ConditionType, isTrue: bool, r: Reason): Lease {
    l.(status := WithCondition(l.status, t, isTrue, r, l.meta.generation))
  }

  function Observed(l: Lease): Lease {
    l.(status := l.status.(observedGeneration := l.meta.generation))
  }

  /** patchStatusIfChanged: nothing is written when the status equals the one the
      pass started from. */
  function PatchStatus(w: World, l: Lease, before: LeaseStatus, ok: bool): World {
    if l.status == before || !ok then w else WriteStatus(w, l)
  }

  predicate PatchFails(l: Lease, before: LeaseStatus, ok: bool) {
    l.status != before && !ok
  }

  function ToEffective(r: Resolved): Effective {
    Effective(r.policyName, r.ttl, r.maxTTL, if r.idleTTL > 0 then Some(r.idleTTL) else None, r.renewable, r.defaultDeny)
  }

  predicate ValidWarnings(ws: seq<int>) {
    (forall w :: w in ws ==> w > 0) && Distinct(ws)
  }

  predicate ValidSpec(l: Lease) {
    && ValidWarnings(l.spec.warnings)
    && ValidNamespaceSpec(l.spec.namespace)
    && (l.status.namespace != "" ==> !IsProtectedNamespace(l.status.namespace))
    && (l.spec.clusterRef == "" || l.spec.placement.None?)
  }

  // ----------------------------------------------------------------- sessions

  /** A client for one cluster, known by the identity of that cluster. */
  datatype Session = Session(name: string, site: string, isLocal: bool)

  /** ResolveNamedTarget. */
  function ResolveNamedTarget(c: Config, env: Env, name: string): Result<Session, Reason> {
    if name == "" || name == LOCAL_CLUSTER_NAME then Ok(Session(LOCAL_CLUSTER_NAME, c.local, true))
    else if name !in env.view.get then Err(TargetNotFound)
    else if env.view.get[name].deleting then Err(TargetClusterUnavailable)
    else if !env.view.get[name].enabled then Err(TargetDisabled)
    else if !env.clientOk || name !in env.routes then Err(TargetClusterUnavailable)
    else Ok(Session(name, env.routes[name], false))
  }

  /** ProbeRemoteIdentity: the identity of the cluster behind the session. */
  function Probe(env: Env, s: Session): Option<string> {
    if env.probeOk && s.site != "" then Some(s.site) else None
  }

  datatype Located =
    | Found(l: Lease, session: Session)
    | Halted(l: Lease, result: PassResult)
    | Unavailable(l: Lease, reason: Reason)

  /** The cluster status for a decision keeps the identity recorded for the same
      target. */
  function KeepIdentity(previous: Option<ClusterStatus>, name: string): ClusterStatus {
    if previous.Some? && previous.value.name == name then previous.value else ClusterStatus(name, "", "")
  }

  /** resolveTargetSessionForProvision, up to the resolved session. */
  function Locate(c: Config, env: Env, l: Lease, pol: Option<LeasePolicy>): Located {
    if env.counts.None? then Unavailable(l, TargetClusterUnavailable)
    else
      var d := Decide(c.hash, env.view, l, pol, env.counts);
      if d == Err(PolicyMismatch) then
        Halted(Mark(l, FailedStatus(l.status, PolicyViolation, l.meta.generation)), Requeue(0))
      else if d.Err? then Unavailable(l, TargetClusterUnavailable)
      else if d.value.pending then
        Halted(SetCond(Mark(l, PendingStatus(l.status, NoMatchingCluster, l.meta.generation)),
                       TargetClusterReady, false, NoMatchingCluster),
               Requeue(TARGET_UNAVAILABLE_AFTER))
      else if env.outageWait > 0 then
        Halted(SetCond(l, TargetClusterReady, false, TargetClusterUnavailable), Requeue(env.outageWait))
      else
        Reach(c, env, l.(status := l.status.(cluster := Some(KeepIdentity(l.status.cluster, d.value.clusterName)))),
              d.value.clusterName)
  }

  /** The session for the cluster that was decided on. */
  function Reach(c: Config, env: Env, l: Lease, name: string): Located
    requires l.status.cluster.Some?
  {
    var sess := ResolveNamedTarget(c, env, name);
    if sess.Err? then Unavailable(l, sess.error)
    else if sess.value.isLocal then Found(l, sess.value)
    else Identified(env, l, sess.value)
  }

  /** Fills in the target's UID and the identity of a remote cluster: the
      target's sticky identity, else the recorded one, else a probe. */
  function Identified(env: Env, l: Lease, sess: Session): Located
    requires l.status.cluster.Some?
  {
    var cl := l.status.cluster.value;
    var known := sess.name in env.view.get;
    var uid := if known then env.view.get[sess.name].uid else cl.targetUID;
    var identity := if known && env.view.get[sess.name].remoteIdentity != "" then env.view.get[sess.name].remoteIdentity
                    else cl.remoteIdentity;
    var l1 := l.(status := l.status.(cluster := Some(ClusterStatus(cl.name, uid, identity))));
    if identity != "" then Found(l1, sess)
    else if Probe(env, sess).None? then Unavailable(l1, TargetClusterUnavailable)
    else Found(l1.(status := l1.status.(cluster := Some(ClusterStatus(cl.name, uid, Probe(env, sess).value)))), sess)
  }

  /** handleTargetError. */
  function TargetError(env: Env, l: Lease, r: Reason): (Lease, PassResult) {
    var failed := SetCond(Mark(l, FailedStatus(l.status, r, l.meta.generation)), TargetClusterReady, false, r);
    var cluster := StickyCluster(l);
    (failed, Requeue(if cluster != "" && cluster != LOCAL_CLUSTER_NAME then env.outageMark else TARGET_UNAVAILABLE_AFTER))
  }

  // --------------------------------------------------------------- namespaces

  datatype Ensured = Ensured(w: World, name: Option<string>)

  function EnsureNamespace(c: Config, env: Env, w: World, l: Lease, sess: Session): Ensured {
    if l.status.namespace != "" then EnsureExistingNamespace(c, env, w, l, sess, l.status.namespace)
    else if l.spec.namespace.name != "" then EnsureExistingNamespace(c, env, w, l, sess, l.spec.namespace.name)
    else
      var key := NsKey(sess.site, env.generatedName);
      if !env.nsCreateOk || env.generatedName == "" || key in w.namespaces then Ensured(w, None)
      else Ensured(w.(namespaces := w.namespaces[key := FreshNamespace(l, c.controlClusterID)]), Some(env.generatedName))
  }

  /** Creates the namespace, or adopts it when that is allowed. */
  function EnsureExistingNamespace(c: Config, env: Env, w: World, l: Lease, sess: Session, name: string): Ensured {
    var key := NsKey(sess.site, name);
    var desired := DesiredNamespace(l, name, c.controlClusterID);
    if desired.None? || !env.nsReadOk then Ensured(w, None)
    else if key !in w.namespaces then
      if !env.nsCreateOk then Ensured(w, None)
      else Ensured(w.(namespaces := w.namespaces[key := desired.value]), Some(name))
    else
      var existing := w.namespaces[key];
      var patched := AdoptedNamespace(existing, l, c.controlClusterID);
      if existing.terminating || !CanAdoptNamespace(name, existing, l.meta.name, l.meta.uid) then Ensured(w, None)
      else if MapsEqual(existing.labels, patched.labels) && MapsEqual(existing.annotations, patched.annotations)
      then Ensured(w, Some(name))
      else if !env.nsPatchOk then Ensured(w, None)
      else Ensured(w.(namespaces := w.namespaces[key := patched]), Some(name))
  }

  /** requests.* and limits.* entries, or nothing when there are none. */
  function DesiredQuota(spec: LeaseSpec): Option<map<HardKey, int>> {
    if spec.quota.None? then None
    else
      var hard := (map k | k in spec.quota.value.requests :: RequestsKey(k) := spec.quota.value.requests[k])
                  + (map k | k in spec.quota.value.limits :: LimitsKey(k) := spec.quota.value.limits[k]);
      if hard == map[] then None else Some(hard)
  }

  function DesiredLimits(spec: LeaseSpec): Option<Limits> {
    if spec.limits == Some(Limits(map[], map[], map[], map[])) then None else spec.limits
  }

  predicate DesiresNetworkPolicy(np: Option<NetworkPolicySpec>) {
    np.Some? && np.value.defaultDeny
  }

  /** The network policy the working copy asks for. */
  function WorkingNetworkPolicy(spec: LeaseSpec, r: Resolved): Option<NetworkPolicySpec> {
    if r.networkPolicy.Some? then r.networkPolicy else spec.networkPolicy
  }

  datatype Supplied = Supplied(ns: Namespace, ok: bool)

  /** The quota is patched only when its limits or labels compare unequal. */
  function WithQuota(ns: Namespace, leaseName: string, desired: Option<map<HardKey, int>>, ok: bool): Supplied {
    if desired.None? then Supplied(ns, true)
    else if !ok then Supplied(ns, false)
    else if ns.quota.Some? && ns.quota.value.spec == desired.value
            && MapsEqual(ns.quota.value.labels, ManagedLabels(leaseName)) then Supplied(ns, true)
    else Supplied(ns.(quota := Some(Child(ManagedLabels(leaseName), desired.value))), true)
  }

  function WithLimits(ns: Namespace, l: Lease, ok: bool): Supplied {
    var desired := DesiredLimits(l.spec);
    if desired.None? then Supplied(ns, true)
    else if !ok then Supplied(ns, false)
    else Supplied(ns.(limits := Some(Child(ManagedLabels(l.meta.name), desired.value))), true)
  }

  function WithNetworkPolicy(ns: Namespace, l: Lease, np: Option<NetworkPolicySpec>, ok: bool): Supplied {
    if !DesiresNetworkPolicy(np) then Supplied(ns, true)
    else if !ok then Supplied(ns, false)
    else Supplied(ns.(networkPolicy := Some(Child(ManagedLabels(l.meta.name), true))), true)
  }

  datatype Provided = Provided(ns: Namespace, failure: Option<Reason>)

  /** The supporting objects in order; the first failure ends it. */
  function Provide(env: Env, ns: Namespace, l: Lease, np: Option<NetworkPolicySpec>): Provided {
    var q := WithQuota(ns, l.meta.name, DesiredQuota(l.spec), env.quotaOk);
    if !q.ok then Provided(q.ns, Some(ResourceQuotaCreationFailed)) else ProvideOthers(env, q.ns, l, np)
  }

  /** The limit range and the network policy. */
  function ProvideOthers(env: Env, ns: Namespace, l: Lease, np: Option<NetworkPolicySpec>): Provided {
    var r := WithLimits(ns, l, env.limitsOk);
    if !r.ok then Provided(r.ns, Some(LimitRangeCreationFailed)) else
    var n := WithNetworkPolicy(r.ns, l, np, env.networkPolicyOk);
    if !n.ok then Provided(n.ns, Some(NetworkPolicyCreationFailed)) else
    Provided(n.ns, None)
  }

  // ------------------------------------------------------------- active leases

  datatype ActivePass = ActivePass(w: World, l: Lease, result: PassResult)

  /** The working copy after a status write and a re-read: the identity of the
      cluster is dropped until the next pass. */
  function Reread(w: World, l: Lease, effective: Option<Effective>, cluster: string): Lease {
    var s := Stored(w, l);
    s.(status := s.status.(effective := effective, cluster := Some(ClusterStatus(cluster, "", ""))))
  }

  predicate WritesClusterFirst(previous: Phase, l: Lease) {
    previous != Phase.Active && previous != Expiring && l.status.namespace == ""
  }

  function ReconcileActive(c: Config, env: Env, w: World, l: Lease, previous: Phase, r: Resolved,
                           pol: Option<LeasePolicy>): ActivePass
  {
    var loc := Locate(c, env, l, pol);
    match loc
    case Halted(l1, result) => ActivePass(w, l1, result)
    case Unavailable(l1, reason) =>
      var e := TargetError(env, l1, reason);
      ActivePass(w, e.0, e.1)
    case Found(l1, sess) => Settle(c, env, w, l1, sess, previous, ReadyTrue(l.status), r)
  }

  /** Makes the choice of cluster visible before anything is created there. */
  function Settle(c: Config, env: Env, w: World, l: Lease, sess: Session, previous: Phase, wasReady: bool, r: Resolved)
    : ActivePass
  {
    var l1 := OnCluster(l, sess.name);
    if !WritesClusterFirst(previous, l1) then Provision(c, env, w, l1, sess, wasReady, r)
    else if !env.clusterWriteOk then ActivePass(w, l1, Retry)
    else
      var w1 := WriteStatus(w, l1);
      if !env.clusterRereadOk then ActivePass(w1, l1, Retry)
      else Provision(c, env, w1, Reread(w1, l1, Some(ToEffective(r)), sess.name), sess, wasReady, r)
  }

  function OnCluster(l: Lease, name: string): Lease {
    var cluster := if l.status.cluster.None? then ClusterStatus(name, "", "") else l.status.cluster.value.(name := name);
    SetCond(l.(status := l.status.(cluster := Some(cluster))), TargetClusterReady, true, EnvironmentReady)
  }

  /** From the namespace on. */
  function Provision(c: Config, env: Env, w: World, l: Lease, sess: Session, wasReady: bool, r: Resolved): ActivePass {
    var l1 := if !wasReady && l.status.phase != Failed
              then Mark(l, ProvisioningStatus(l.status, l.meta.generation)) else l;
    var e := EnsureNamespace(c, env, w, l1, sess);
    if e.name.None? then
      ActivePass(e.w, Mark(l1, FailedStatus(l1.status, NamespaceCreationFailed, l1.meta.generation)), Retry)
    else if l1.status.namespace == e.name.value then Furnish(env, e.w, l1, sess, e.name.value, r)
    else RecordNamespace(env, e.w, l1.(status := l1.status.(namespace := e.name.value)), sess, r)
  }

  /** Makes a new namespace visible in the status before it is filled. */
  function RecordNamespace(env: Env, w: World, l: Lease, sess: Session, r: Resolved): ActivePass {
    if !env.nsWriteOk then ActivePass(w, l, Retry)
    else
      var w1 := WriteStatus(w, l);
      if !env.nsRereadOk then ActivePass(w1, l, Retry)
      else Furnish(env, w1, Reread(w1, l, Some(ToEffective(r)), sess.name), sess, l.status.namespace, r)
  }

  /** From the supporting objects on. */
  function Furnish(env: Env, w: World, l: Lease, sess: Session, name: string, r: Resolved): ActivePass {
    var key := NsKey(sess.site, name);
    if key !in w.namespaces then
      ActivePass(w, Mark(l, FailedStatus(l.status, ResourceQuotaCreationFailed, l.meta.generation)), Retry)
    else
      var p := Provide(env, w.namespaces[key], l, WorkingNetworkPolicy(l.spec, r));
      var w1 := w.(namespaces := w.namespaces[key := p.ns]);
      if p.failure.Some? then ActivePass(w1, Mark(l, FailedStatus(l.status, p.failure.value, l.meta.generation)), Retry)
      else ActivePass(w1, Finished(env, l), Requeue(RequeueAfter(env, Finished(env, l), sess)))
  }

  /** The working copy once everything is in place. */
  function Finished(env: Env, l: Lease): Lease {
    var warned := l.(status := l.status.(warningsDelivered := DeliveredAfter(l.status, l.spec.warnings, env.now)));
    SetCond(Mark(warned, ReadyStatus(warned.status, InWarningWindow(warned.status.timing, l.spec.warnings, env.now),
                                     l.meta.generation)),
            TargetClusterReady, true, EnvironmentReady)
  }

  /** Local leases sleep until the next warning or the deadline; remote ones wake
      at least every REMOTE_DRIFT_REQUEUE. */
  function RequeueAfter(env: Env, l: Lease, sess: Session): int {
    var deadline := EffectiveDeadline(l.status.timing);
    if deadline.None? then if sess.isLocal then 0 else REMOTE_DRIFT_REQUEUE
    else
      var wait := NextWait(env.now, deadline.value, WarningDurationsOf(l.spec.warnings), l.status.warningsDelivered);
      if !sess.isLocal && (wait == 0 || wait > REMOTE_DRIFT_REQUEUE) then REMOTE_DRIFT_REQUEUE else wait
  }

  // ------------------------------------------------------------------ cleanup

  datatype CleanupOutcome = CleanedUp | Waiting | Mismatch | Broken

  datatype Cleaned = Cleaned(w: World, l: Lease, outcome: CleanupOutcome)

  /** The target cleanup goes to. */
  function CleanupTarget(l: Lease): string {
    if l.spec.clusterRef != "" then l.spec.clusterRef
    else if StickyCluster(l) != "" then StickyCluster(l)
    else LOCAL_CLUSTER_NAME
  }

  function MismatchedLease(l: Lease): Lease {
    SetCond(l, Cleanup, false, OwnershipMismatch)
  }

  function CleanupEnvironment(c: Config, env: Env, w: World, l: Lease): Cleaned {
    var name := l.status.namespace;
    var bestEffort := EffectiveCleanupMode(l.spec) == BestEffort;
    if name == "" then Cleaned(w, l, CleanedUp)
    else if IsProtectedNamespace(name) then Cleaned(w, l, Broken)
    else if l.meta.forceCleanupAcknowledged then Cleaned(w, l, CleanedUp)
    else
      var sess := ResolveNamedTarget(c, env, CleanupTarget(l));
      if sess.Err? then
        if bestEffort then Cleaned(w, l, CleanedUp)
        else Cleaned(w, SetCond(l, TargetClusterReady, false, RemoteCleanupBlocked), Broken)
      else if !sess.value.isLocal && RemoteIdentity(l) != "" && Probe(env, sess.value).None? then Cleaned(w, l, Broken)
      else if !sess.value.isLocal && RemoteIdentity(l) != ""
              && !VerifyLiveTargetIdentity(RemoteIdentity(l), Probe(env, sess.value).value)
      then Cleaned(w, MismatchedLease(l), Mismatch)
      else RemoveNamespace(c, env, w, l, NsKey(sess.value.site, name), bestEffort)
  }

  /** The last part of cleanupEnvironment, once the cluster is known. */
  function RemoveNamespace(c: Config, env: Env, w: World, l: Lease, key: NsKey, bestEffort: bool): Cleaned {
    if !env.nsReadOk then Cleaned(w, l, if bestEffort then CleanedUp else Broken)
    else if key !in w.namespaces then Cleaned(w, l, CleanedUp)
    else if !VerifyNamespaceOwnership(w.namespaces[key], l, c.controlClusterID)
    then Cleaned(w, MismatchedLease(l), Mismatch)
    else if w.namespaces[key].terminating then Cleaned(w, l, Waiting)
    else if !env.nsDeleteOk then Cleaned(w, l, Broken)
    else Cleaned(w.(namespaces := w.namespaces[key := w.namespaces[key].(terminating := true)]), l, Waiting)
  }

  /** Dropping the finalizer removes a lease that is being deleted. */
  function RemoveFinalizer(w: World, name: string): World {
    if name !in w.leases then w
    else
      var l := w.leases[name];
      if l.meta.deleting then w.(leases := w.leases - {name})
      else w.(leases := w.leases[name := l.(meta := l.meta.(finalizer := false))])
  }

  function DeleteLease(w: World, name: string): World {
    if name !in w.leases then w
    else
      var l := w.leases[name];
      if l.meta.finalizer then w.(leases := w.leases[name := l.(meta := l.meta.(deleting := true))])
      else w.(leases := w.leases - {name})
  }

  /** The status an unfinished cleanup leaves. */
  function UnfinishedLease(l: Lease, outcome: CleanupOutcome, expiring: bool): Lease {
    var g := l.meta.generation;
    match outcome
    case Mismatch => MismatchedLease(Mark(l, CleanupFailedStatus(l.status, g)))
    case Broken => Mark(l, CleanupFailedStatus(l.status, g))
    case _ => if expiring then Mark(l, CleaningStatus(l.status, g)) else l
  }

  function UnfinishedResult(outcome: CleanupOutcome): PassResult {
    match outcome
    case Mismatch => Requeue(0)
    case Broken => Requeue(TARGET_UNAVAILABLE_AFTER)
    case _ => Requeue(CLEANUP_REQUEUE_AFTER)
  }

  function ReconcileExpired(c: Config, env: Env, w: World, l: Lease, before: LeaseStatus): (World, PassResult) {
    var t := l.status.timing;
    var reason := if t.expirationReason != NoReason then t.expirationReason
                  else ResolveExpirationReason(env.now, t.expiresAt.GetOr(0), t.idleExpiresAt);
    var l1 := Mark(l, ExpiredStatus(l.status, reason, l.meta.generation));
    CloseExpired(env, CleanupEnvironment(c, env, w, l1), before)
  }

  /** What follows the cleanup of an expired lease. */
  function CloseExpired(env: Env, cl: Cleaned, before: LeaseStatus): (World, PassResult) {
    if cl.outcome != CleanedUp then
      var l := Observed(UnfinishedLease(cl.l, cl.outcome, true));
      (PatchStatus(cl.w, l, before, env.finalWriteOk),
       if PatchFails(l, before, env.finalWriteOk) then Retry else UnfinishedResult(cl.outcome))
    else
      var l := Observed(Mark(cl.l, CleanedStatus(cl.l.status, cl.l.meta.generation)));
      var w1 := PatchStatus(cl.w, l, before, env.finalWriteOk);
      if PatchFails(l, before, env.finalWriteOk) || !env.finalizerRemoveOk then (w1, Retry)
      else
        var w2 := RemoveFinalizer(w1, l.meta.name);
        if !env.leaseDeleteOk then (w2, Retry) else (DeleteLease(w2, l.meta.name), Requeue(0))
  }

  function ReconcileDelete(c: Config, env: Env, w: World, l: Lease): (World, PassResult) {
    if !l.meta.finalizer then (w, Requeue(0))
    else
      var before := l.status;
      var t := l.status.timing;
      var reason := if t.expirationReason != SourceClosed then ManualExpiration else SourceClosed;
      var l0 := l.(status := l.status.(timing := t.(expirationReason := reason)));
      var l1 := Mark(l0, CleaningStatus(l0.status, l.meta.generation));
      CloseDeleted(env, CleanupEnvironment(c, env, w, l1), before)
  }

  /** What follows the cleanup of a deleted lease. */
  function CloseDeleted(env: Env, cl: Cleaned, before: LeaseStatus): (World, PassResult) {
    if cl.outcome != CleanedUp then
      var l := UnfinishedLease(cl.l, cl.outcome, false);
      (PatchStatus(cl.w, l, before, env.finalWriteOk),
       if PatchFails(l, before, env.finalWriteOk) then Retry else UnfinishedResult(cl.outcome))
    else
      var l := Mark(cl.l, CleanedStatus(cl.l.status, cl.l.meta.generation));
      var w1 := PatchStatus(cl.w, l, before, env.finalWriteOk);
      if PatchFails(l, before, env.finalWriteOk) || !env.finalizerRemoveOk then (w1, Retry)
      else (RemoveFinalizer(w1, l.meta.name), Requeue(0))
  }

  // --------------------------------------------------------------- the pass

  /** The end of a pass that rejects its lease. */
  function Reject(env: Env, w: World, l: Lease, before: LeaseStatus, r: Reason): (World, PassResult) {
    var failed := Observed(Mark(l, FailedStatus(l.status, r, l.meta.generation)));
    (PatchStatus(w, failed, before, env.finalWriteOk),
     if PatchFails(failed, before, env.finalWriteOk) then Retry else Requeue(0))
  }

  /** The working copy once the TTLs are resolved. */
  function Timed(env: Env, l: Lease, r: Resolved): Lease {
    var t := l.status.timing;
    var stamped := l.(status := l.status.(effective := Some(ToEffective(r)),
                      timing := Stamped(t, l.meta.creationTimestamp, r.ttl, r.maxTTL, r.renewable, env.now)));
    var noted := if RejectsRenewal(t, l.meta.creationTimestamp, r.ttl, r.renewable, env.now)
                 then SetCond(stamped, Degraded, true, RenewalRejected) else stamped;
    noted.(status := noted.status.(timing := Synced(noted.status.timing, r.idleTTL, env.now)))
  }

  function FetchPolicy(env: Env, l: Lease): Result<Option<LeasePolicy>, Reason> {
    if l.spec.policyRef == "" then Ok(None)
    else if l.spec.policyRef !in env.policies then Err(PolicyNotFound)
    else Ok(Some(env.policies[l.spec.policyRef]))
  }

  /** A pass over a live lease that has its finalizer. */
  function ReconcileLive(c: Config, env: Env, w: World, l: Lease): (World, PassResult) {
    var before := l.status;
    var pol := FetchPolicy(env, l);
    if !ValidSpec(l) then Reject(env, w, l, before, InvalidConfiguration)
    else if pol.Err? then Reject(env, w, l, before, pol.error)
    else
      var r := Resolve(l.spec, pol.value);
      if r.Err? then Reject(env, w, l, before, PolicyViolation)
      else
        var l1 := Timed(env, l, r.value);
        if IsExpired(l1.status.timing, env.now) then ReconcileExpired(c, env, w, l1, before)
        else
          var a := ReconcileActive(c, env, w, l1, before.phase, r.value, pol.value);
          var l2 := Observed(a.l);
          (PatchStatus(a.w, l2, before, env.finalWriteOk),
           if PatchFails(l2, before, env.finalWriteOk) then Retry else a.result)
  }

  function AddFinalizer(w: World, l: Lease): World {
    w.(leases := w.leases[l.meta.name := l.(meta := l.meta.(finalizer := true))])
  }

  function Reconcile(c: Config, env: Env, w: World, name: string): (World, PassResult) {
    if name !in w.leases then (w, Requeue(0))
    else
      var l := w.leases[name];
      if l.meta.deleting then ReconcileDelete(c, env, w, l)
      else if !l.meta.finalizer then
        if env.finalizerAddOk then (AddFinalizer(w, l), RequeueNow) else (w, Retry)
      else ReconcileLive(c, env, w, l)
  }
}
