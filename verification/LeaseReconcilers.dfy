/** The lease controller's methods, step by step: they change the working copy
    and issue calls on the stores, and meet the functions of `Reconciliation`. */
module LeaseReconcilers {
  import opened Api
  import opened LeaseTiming
  import opened Warnings
  import opened LeaseObjects
  import opened Policy
  import opened PlacementDecision
  import opened Ownership
  import opened Reconciliation

  class LeaseReconciler {
    const c: Config
    var leases: map<string, Lease>
    var namespaces: map<NsKey, Namespace>

    constructor (c: Config, w: World)
      ensures this.c == c && State() == w
    {
      this.c, leases, namespaces := c, w.leases, w.namespaces;
    }

    function State(): World
      reads this
    {
      World(leases, namespaces)
    }

    // ------------------------------------------------------------ API calls

    method UpdateStatus(leaseObj: EnvironmentLease, callOk: bool) returns (ok: bool)
      modifies this`leases
      ensures ok == callOk
      ensures State() == if ok then WriteStatus(old(State()), leaseObj.Value()) else old(State())
    {
      if !callOk {
        return false;
      }
      var name := leaseObj.meta.name;
      if name in leases {
        leases := leases[name := leases[name].(status := leaseObj.status)];
      }
      return true;
    }

    method Get(leaseObj: EnvironmentLease)
      modifies leaseObj
      ensures leaseObj.Value() == Stored(State(), old(leaseObj.Value()))
    {
      if leaseObj.meta.name in leases {
        var l := leases[leaseObj.meta.name];
        leaseObj.meta, leaseObj.spec, leaseObj.status := l.meta, l.spec, l.status;
      }
    }

    method PatchStatusIfChanged(env: Env, leaseObj: EnvironmentLease, before: LeaseStatus) returns (ok: bool)
      modifies this`leases
      ensures State() == PatchStatus(old(State()), leaseObj.Value(), before, env.finalWriteOk)
      ensures ok == !PatchFails(leaseObj.Value(), before, env.finalWriteOk)
    {
      if leaseObj.status == before {
        return true;
      }
      ok := UpdateStatus(leaseObj, env.finalWriteOk);
    }

    method RemoveLeaseFinalizer(env: Env, name: string) returns (ok: bool)
      modifies this`leases
      ensures ok == env.finalizerRemoveOk
      ensures State() == if ok then RemoveFinalizer(old(State()), name) else old(State())
    {
      if !env.finalizerRemoveOk {
        return false;
      }
      if name in leases {
        var current := leases[name];
        if current.meta.deleting {
          leases := leases - {name};
        } else {
          leases := leases[name := current.(meta := current.meta.(finalizer := false))];
        }
      }
      return true;
    }

    method Delete(env: Env, name: string) returns (ok: bool)
      modifies this`leases
      ensures ok == env.leaseDeleteOk
      ensures State() == if ok then DeleteLease(old(State()), name) else old(State())
    {
      if !env.leaseDeleteOk {
        return false;
      }
      if name in leases {
        var current := leases[name];
        if current.meta.finalizer {
          leases := leases[name := current.(meta := current.meta.(deleting := true))];
        } else {
          leases := leases - {name};
        }
      }
      return true;
    }

    // --------------------------------------------------------- provisioning

    method ResolveTargetSessionForProvision(env: Env, leaseObj: EnvironmentLease, pol: Option<LeasePolicy>)
      returns (sess: Option<Session>, result: Option<PassResult>, err: Option<Reason>)
      modifies leaseObj`status
      ensures match Locate(c, env, old(leaseObj.Value()), pol)
              case Found(l, s) => leaseObj.Value() == l && sess == Some(s) && result.None? && err.None?
              case Halted(l, r) => leaseObj.Value() == l && result == Some(r)
              case Unavailable(l, r) => leaseObj.Value() == l && result.None? && err == Some(r)
    {
      sess, result, err := None, None, None;
      if env.counts.None? {
        err := Some(TargetClusterUnavailable);
        return;
      }
      var decision := Decide(c.hash, env.view, leaseObj.Value(), pol, env.counts);
      if decision.Err? {
        if decision.error == PolicyMismatch {
          leaseObj.MarkFailed(PolicyViolation);
          result := Some(Requeue(0));
          return;
        }
        err := Some(TargetClusterUnavailable);
        return;
      }
      if decision.value.pending {
        leaseObj.MarkPending(NoMatchingCluster);
        leaseObj.SetCondition(TargetClusterReady, false, NoMatchingCluster);
        result := Some(Requeue(TARGET_UNAVAILABLE_AFTER));
        return;
      }
      if env.outageWait > 0 {
        leaseObj.SetCondition(TargetClusterReady, false, TargetClusterUnavailable);
        result := Some(Requeue(env.outageWait));
        return;
      }
      var name := decision.value.clusterName;
      var cluster := ClusterStatus(name, "", "");
      if leaseObj.status.cluster.Some? && leaseObj.status.cluster.value.name == name {
        cluster := cluster.(targetUID := leaseObj.status.cluster.value.targetUID,
                            remoteIdentity := leaseObj.status.cluster.value.remoteIdentity);
      }
      leaseObj.status := leaseObj.status.(cluster := Some(cluster));
      sess, err := OpenSession(env, leaseObj, name);
    }

    /** The session for the cluster that was decided on. */
    method OpenSession(env: Env, leaseObj: EnvironmentLease, name: string) returns (sess: Option<Session>, err: Option<Reason>)
      requires leaseObj.status.cluster.Some?
      modifies leaseObj`status
      ensures match Reach(c, env, old(leaseObj.Value()), name)
              case Found(l, s) => leaseObj.Value() == l && sess == Some(s) && err.None?
              case Halted(_, _) => false
              case Unavailable(l, r) => leaseObj.Value() == l && err == Some(r)
    {
      sess, err := None, None;
      var cluster := leaseObj.status.cluster.value;
      var resolved := ResolveNamedTarget(c, env, name);
      if resolved.Err? {
        err := Some(resolved.error);
        return;
      }
      if !resolved.value.isLocal {
        if resolved.value.name in env.view.get {
          var target := env.view.get[resolved.value.name];
          cluster := cluster.(targetUID := target.uid);
          if target.remoteIdentity != "" {
            cluster := cluster.(remoteIdentity := target.remoteIdentity);
          }
          leaseObj.status := leaseObj.status.(cluster := Some(cluster));
        }
        if cluster.remoteIdentity == "" {
          var id := Probe(env, resolved.value);
          if id.None? {
            err := Some(TargetClusterUnavailable);
            return;
          }
          leaseObj.status := leaseObj.status.(cluster := Some(cluster.(remoteIdentity := id.value)));
        }
      }
      sess := Some(resolved.value);
    }

    method HandleTargetError(env: Env, leaseObj: EnvironmentLease, r: Reason) returns (result: PassResult)
      modifies leaseObj`status
      ensures (leaseObj.Value(), result) == TargetError(env, old(leaseObj.Value()), r)
    {
      var cluster := "";
      if leaseObj.status.cluster.Some? {
        cluster := leaseObj.status.cluster.value.name;
      }
      leaseObj.MarkFailed(r);
      leaseObj.SetCondition(TargetClusterReady, false, r);
      var wait := TARGET_UNAVAILABLE_AFTER;
      if cluster != "" && cluster != LOCAL_CLUSTER_NAME {
        wait := env.outageMark;
      }
      return Requeue(wait);
    }

    method EnsureExisting(env: Env, leaseObj: EnvironmentLease, sess: Session, name: string)
      returns (found: Option<string>)
      modifies this`namespaces
      ensures Ensured(State(), found) == EnsureExistingNamespace(c, env, old(State()), leaseObj.Value(), sess, name)
    {
      var l := leaseObj.Value();
      var key := NsKey(sess.site, name);
      var desired := DesiredNamespace(l, name, c.controlClusterID);
      if desired.None? {
        return None;
      }
      if !env.nsReadOk {
        return None;
      }
      if key !in namespaces {
        if !env.nsCreateOk {
          return None;
        }
        namespaces := namespaces[key := desired.value];
        return Some(name);
      }
      var existing := namespaces[key];
      if existing.terminating {
        return None;
      }
      if !CanAdoptNamespace(name, existing, l.meta.name, l.meta.uid) {
        return None;
      }
      var labels := MergeLabels(ManagedLabels(l.meta.name), l.spec.namespace.labels);
      var annotations := existing.annotations + l.spec.namespace.annotations;
      annotations := annotations[ANNOTATION_LEASE_UID := l.meta.uid];
      if c.controlClusterID != "" {
        annotations := annotations[ANNOTATION_CONTROL_CLUSTER_ID := c.controlClusterID];
      }
      if RemoteIdentity(l) != "" {
        annotations := annotations[ANNOTATION_TARGET_IDENTITY := RemoteIdentity(l)];
      }
      var sameLabels := CompareMaps(existing.labels, labels);
      var sameAnnotations := CompareMaps(existing.annotations, annotations);
      if sameLabels && sameAnnotations {
        return Some(name);
      }
      if !env.nsPatchOk {
        return None;
      }
      namespaces := namespaces[key := existing.(labels := labels, annotations := annotations)];
      return Some(name);
    }

    method EnsureNs(env: Env, leaseObj: EnvironmentLease, sess: Session) returns (found: Option<string>)
      modifies this`namespaces
      ensures Ensured(State(), found) == EnsureNamespace(c, env, old(State()), leaseObj.Value(), sess)
    {
      if leaseObj.status.namespace != "" {
        found := EnsureExisting(env, leaseObj, sess, leaseObj.status.namespace);
        return;
      }
      if leaseObj.spec.namespace.name != "" {
        found := EnsureExisting(env, leaseObj, sess, leaseObj.spec.namespace.name);
        return;
      }
      var key := NsKey(sess.site, env.generatedName);
      if !env.nsCreateOk || env.generatedName == "" || key in namespaces {
        return None;
      }
      namespaces := namespaces[key := FreshNamespace(leaseObj.Value(), c.controlClusterID)];
      return Some(env.generatedName);
    }

    method EnsureResourceQuota(env: Env, leaseName: string, desired: Option<map<HardKey, int>>, ns: Namespace)
      returns (r: Supplied)
      ensures r == WithQuota(ns, leaseName, desired, env.quotaOk)
    {
      if desired.None? {
        return Supplied(ns, true);
      }
      if !env.quotaOk {
        return Supplied(ns, false);
      }
      var labels := ManagedLabels(leaseName);
      if ns.quota.Some? && ns.quota.value.spec == desired.value {
        var same := CompareMaps(ns.quota.value.labels, labels);
        if same {
          return Supplied(ns, true);
        }
      }
      return Supplied(ns.(quota := Some(Child(labels, desired.value))), true);
    }

    /** The supporting objects, written into the namespace one after the other. */
    method ProvideObjects(env: Env, l: Lease, np: Option<NetworkPolicySpec>, key: NsKey) returns (failure: Option<Reason>)
      requires key in namespaces
      modifies this`namespaces
      ensures var p := Provide(env, old(namespaces[key]), l, np);
              failure == p.failure && namespaces == old(namespaces)[key := p.ns]
    {
      var q := EnsureResourceQuota(env, l.meta.name, DesiredQuota(l.spec), namespaces[key]);
      Store(key, q.ns);
      if !q.ok {
        return Some(ResourceQuotaCreationFailed);
      }
      failure := ProvideLimitsAndPolicy(env, l, np, key);
    }

    /** The limit range and the network policy. */
    method ProvideLimitsAndPolicy(env: Env, l: Lease, np: Option<NetworkPolicySpec>, key: NsKey) returns (failure: Option<Reason>)
      requires key in namespaces
      modifies this`namespaces
      ensures var p := ProvideOthers(env, old(namespaces[key]), l, np);
              failure == p.failure && namespaces == old(namespaces)[key := p.ns]
    {
      var r := WithLimits(namespaces[key], l, env.limitsOk);
      Store(key, r.ns);
      if !r.ok {
        return Some(LimitRangeCreationFailed);
      }
      var n := WithNetworkPolicy(r.ns, l, np, env.networkPolicyOk);
      Store(key, n.ns);
      failure := if n.ok then None else Some(NetworkPolicyCreationFailed);
    }

    method Store(key: NsKey, ns: Namespace)
      modifies this`namespaces
      ensures namespaces == old(namespaces)[key := ns]
    {
      namespaces := namespaces[key := ns];
    }

    /** The supporting objects, the warnings and the ready state. */
    method FurnishNamespace(env: Env, leaseObj: EnvironmentLease, sess: Session, name: string, r: Resolved)
      returns (result: PassResult)
      modifies this`namespaces, leaseObj`status
      ensures ActivePass(State(), leaseObj.Value(), result) == Furnish(env, old(State()), old(leaseObj.Value()), sess, name, r)
    {
      var key := NsKey(sess.site, name);
      if key !in namespaces {
        leaseObj.MarkFailed(ResourceQuotaCreationFailed);
        return Retry;
      }
      var l := leaseObj.Value();
      var failure := ProvideObjects(env, l, WorkingNetworkPolicy(l.spec, r), key);
      if failure.Some? {
        leaseObj.MarkFailed(failure.value);
        return Retry;
      }
      result := FinishActive(env, leaseObj, sess);
    }

    method FinishActive(env: Env, leaseObj: EnvironmentLease, sess: Session) returns (result: PassResult)
      modifies leaseObj`status
      ensures leaseObj.Value() == Finished(env, old(leaseObj.Value()))
      ensures result == Requeue(RequeueAfter(env, leaseObj.Value(), sess))
    {
      var _ := leaseObj.EmitWarnings(env.now);
      var expiring := leaseObj.IsExpiringWindow(env.now);
      leaseObj.MarkReady(expiring);
      leaseObj.SetCondition(TargetClusterReady, true, EnvironmentReady);
      var deadline := EffectiveDeadline(leaseObj.status.timing);
      if deadline.None? {
        if !sess.isLocal {
          return Requeue(REMOTE_DRIFT_REQUEUE);
        }
        return Requeue(0);
      }
      var durations := WarningDurations(leaseObj.spec.warnings);
      var until := NextReconcileAfter(env.now, deadline.value, durations, leaseObj.status.warningsDelivered);
      if !sess.isLocal && (until == 0 || until > REMOTE_DRIFT_REQUEUE) {
        until := REMOTE_DRIFT_REQUEUE;
      }
      return Requeue(until);
    }

    method ProvisionNamespace(env: Env, leaseObj: EnvironmentLease, sess: Session, wasReady: bool, r: Resolved)
      returns (result: PassResult)
      modifies this`leases, this`namespaces, leaseObj
      ensures ActivePass(State(), leaseObj.Value(), result)
              == Provision(c, env, old(State()), old(leaseObj.Value()), sess, wasReady, r)
    {
      if !wasReady && leaseObj.status.phase != Failed {
        leaseObj.MarkProvisioning();
      }
      var found := EnsureNs(env, leaseObj, sess);
      if found.None? {
        leaseObj.MarkFailed(NamespaceCreationFailed);
        return Retry;
      }
      if leaseObj.status.namespace != found.value {
        leaseObj.status := leaseObj.status.(namespace := found.value);
        var ok := UpdateStatus(leaseObj, env.nsWriteOk);
        if !ok {
          return Retry;
        }
        if !env.nsRereadOk {
          return Retry;
        }
        Get(leaseObj);
        leaseObj.status := leaseObj.status.(effective := Some(ToEffective(r)));
        leaseObj.status := leaseObj.status.(cluster := Some(ClusterStatus(sess.name, "", "")));
      }
      result := FurnishNamespace(env, leaseObj, sess, found.value, r);
    }

    /** Persists the choice of cluster first when it is new. */
    method SettleCluster(env: Env, leaseObj: EnvironmentLease, sess: Session, previous: Phase, wasReady: bool, r: Resolved)
      returns (result: PassResult)
      modifies this`leases, this`namespaces, leaseObj
      ensures ActivePass(State(), leaseObj.Value(), result)
              == Settle(c, env, old(State()), old(leaseObj.Value()), sess, previous, wasReady, r)
    {
      if leaseObj.status.cluster.None? {
        leaseObj.status := leaseObj.status.(cluster := Some(ClusterStatus(sess.name, "", "")));
      } else {
        leaseObj.status := leaseObj.status.(cluster := Some(leaseObj.status.cluster.value.(name := sess.name)));
      }
      leaseObj.SetCondition(TargetClusterReady, true, EnvironmentReady);
      if previous != Phase.Active && previous != Expiring && leaseObj.status.namespace == "" {
        var ok := UpdateStatus(leaseObj, env.clusterWriteOk);
        if !ok {
          return Retry;
        }
        if !env.clusterRereadOk {
          return Retry;
        }
        Get(leaseObj);
        leaseObj.status := leaseObj.status.(effective := Some(ToEffective(r)));
        leaseObj.status := leaseObj.status.(cluster := Some(ClusterStatus(sess.name, "", "")));
      }
      result := ProvisionNamespace(env, leaseObj, sess, wasReady, r);
    }

    method ReconcileActiveLease(env: Env, leaseObj: EnvironmentLease, previous: Phase, r: Resolved,
                                pol: Option<LeasePolicy>) returns (result: PassResult)
      modifies this`leases, this`namespaces, leaseObj
      ensures ActivePass(State(), leaseObj.Value(), result)
              == ReconcileActive(c, env, old(State()), old(leaseObj.Value()), previous, r, pol)
    {
      var wasReady := ReadyTrue(leaseObj.status);
      var sess, halted, err := ResolveTargetSessionForProvision(env, leaseObj, pol);
      if halted.Some? {
        return halted.value;
      }
      if err.Some? {
        result := HandleTargetError(env, leaseObj, err.value);
        return;
      }
      result := SettleCluster(env, leaseObj, sess.value, previous, wasReady, r);
    }

    // -------------------------------------------------------------- cleanup

    method Cleanup(env: Env, leaseObj: EnvironmentLease) returns (outcome: CleanupOutcome)
      modifies this`namespaces, leaseObj`status
      ensures Cleaned(State(), leaseObj.Value(), outcome) == CleanupEnvironment(c, env, old(State()), old(leaseObj.Value()))
    {
      var l := leaseObj.Value();
      var name := leaseObj.status.namespace;
      if name == "" {
        return CleanedUp;
      }
      if IsProtectedNamespace(name) {
        return Broken;
      }
      if leaseObj.meta.forceCleanupAcknowledged {
        return CleanedUp;
      }
      var bestEffort := EffectiveCleanupMode(leaseObj.spec) == BestEffort;
      var resolved := ResolveNamedTarget(c, env, CleanupTarget(l));
      if resolved.Err? {
        if bestEffort {
          return CleanedUp;
        }
        leaseObj.SetCondition(TargetClusterReady, false, RemoteCleanupBlocked);
        return Broken;
      }
      var sess := resolved.value;
      if !sess.isLocal && RemoteIdentity(l) != "" {
        var live := Probe(env, sess);
        if live.None? {
          return Broken;
        }
        if !VerifyLiveTargetIdentity(RemoteIdentity(l), live.value) {
          leaseObj.SetCondition(ConditionType.Cleanup, false, OwnershipMismatch);
          return Mismatch;
        }
      }
      var key := NsKey(sess.site, name);
      if !env.nsReadOk {
        return if bestEffort then CleanedUp else Broken;
      }
      if key !in namespaces {
        return CleanedUp;
      }
      if !VerifyNamespaceOwnership(namespaces[key], l, c.controlClusterID) {
        leaseObj.SetCondition(ConditionType.Cleanup, false, OwnershipMismatch);
        return Mismatch;
      }
      if !namespaces[key].terminating {
        if !env.nsDeleteOk {
          return Broken;
        }
        namespaces := namespaces[key := namespaces[key].(terminating := true)];
      }
      return Waiting;
    }

    method ReconcileExpiredLease(env: Env, leaseObj: EnvironmentLease, before: LeaseStatus) returns (result: PassResult)
      modifies this`leases, this`namespaces, leaseObj`status
      ensures (State(), result) == ReconcileExpired(c, env, old(State()), old(leaseObj.Value()), before)
    {
      var reason := leaseObj.status.timing.expirationReason;
      if reason == NoReason {
        reason := ResolveExpirationReason(env.now, leaseObj.status.timing.expiresAt.GetOr(0),
                                          leaseObj.status.timing.idleExpiresAt);
      }
      leaseObj.MarkExpired(reason);
      var outcome := Cleanup(env, leaseObj);
      result := FinishExpired(env, leaseObj, outcome, before);
    }

    method FinishExpired(env: Env, leaseObj: EnvironmentLease, outcome: CleanupOutcome, before: LeaseStatus)
      returns (result: PassResult)
      modifies this`leases, leaseObj`status
      ensures (State(), result) == CloseExpired(env, Cleaned(old(State()), old(leaseObj.Value()), outcome), before)
    {
      if outcome != CleanedUp {
        if outcome == Mismatch {
          leaseObj.MarkCleanupFailed();
          leaseObj.SetCondition(ConditionType.Cleanup, false, OwnershipMismatch);
        } else if outcome == Broken {
          leaseObj.MarkCleanupFailed();
        } else {
          leaseObj.MarkCleaning();
        }
        leaseObj.EnsureObservedGeneration();
        var ok := PatchStatusIfChanged(env, leaseObj, before);
        return if ok then UnfinishedResult(outcome) else Retry;
      }
      leaseObj.MarkCleanupComplete();
      leaseObj.EnsureObservedGeneration();
      var ok := PatchStatusIfChanged(env, leaseObj, before);
      if !ok {
        return Retry;
      }
      ok := RemoveLeaseFinalizer(env, leaseObj.meta.name);
      if !ok {
        return Retry;
      }
      ok := Delete(env, leaseObj.meta.name);
      return if ok then Requeue(0) else Retry;
    }

    method ReconcileDeletedLease(env: Env, leaseObj: EnvironmentLease) returns (result: PassResult)
      modifies this`leases, this`namespaces, leaseObj`status
      ensures (State(), result) == ReconcileDelete(c, env, old(State()), old(leaseObj.Value()))
    {
      if !leaseObj.meta.finalizer {
        return Requeue(0);
      }
      var before := leaseObj.status;
      if leaseObj.status.timing.expirationReason != SourceClosed {
        leaseObj.status := leaseObj.status.(timing := leaseObj.status.timing.(expirationReason := ManualExpiration));
      }
      leaseObj.MarkCleaning();
      var outcome := Cleanup(env, leaseObj);
      result := FinishDeleted(env, leaseObj, outcome, before);
    }

    method FinishDeleted(env: Env, leaseObj: EnvironmentLease, outcome: CleanupOutcome, before: LeaseStatus)
      returns (result: PassResult)
      modifies this`leases, leaseObj`status
      ensures (State(), result) == CloseDeleted(env, Cleaned(old(State()), old(leaseObj.Value()), outcome), before)
    {
      if outcome != CleanedUp {
        if outcome == Mismatch {
          leaseObj.MarkCleanupFailed();
          leaseObj.SetCondition(ConditionType.Cleanup, false, OwnershipMismatch);
        } else if outcome == Broken {
          leaseObj.MarkCleanupFailed();
        }
        var ok := PatchStatusIfChanged(env, leaseObj, before);
        return if ok then UnfinishedResult(outcome) else Retry;
      }
      leaseObj.MarkCleanupComplete();
      var ok := PatchStatusIfChanged(env, leaseObj, before);
      if !ok {
        return Retry;
      }
      ok := RemoveLeaseFinalizer(env, leaseObj.meta.name);
      return if ok then Requeue(0) else Retry;
    }

    // ------------------------------------------------------------- the pass

    method RejectLease(env: Env, leaseObj: EnvironmentLease, before: LeaseStatus, r: Reason) returns (result: PassResult)
      modifies this`leases, leaseObj`status
      ensures (State(), result) == Reject(env, old(State()), old(leaseObj.Value()), before, r)
    {
      leaseObj.MarkFailed(r);
      leaseObj.EnsureObservedGeneration();
      var ok := PatchStatusIfChanged(env, leaseObj, before);
      return if ok then Requeue(0) else Retry;
    }

    method SetTimes(env: Env, leaseObj: EnvironmentLease, r: Resolved)
      requires ValidTTLs(r.ttl, r.maxTTL)
      modifies leaseObj`status
      ensures leaseObj.Value() == Timed(env, old(leaseObj.Value()), r)
    {
      leaseObj.status := leaseObj.status.(effective := Some(ToEffective(r)));
      var _, rejected, _ := leaseObj.EnsureTimestamps(r.ttl, r.maxTTL, r.renewable, env.now);
      if rejected {
        leaseObj.SetCondition(Degraded, true, RenewalRejected);
      }
      leaseObj.SyncExpirationStatus(r.idleTTL, env.now);
    }

    method ReconcileLiveLease(env: Env, leaseObj: EnvironmentLease) returns (result: PassResult)
      modifies this`leases, this`namespaces, leaseObj
      ensures (State(), result) == ReconcileLive(c, env, old(State()), old(leaseObj.Value()))
    {
      var before := leaseObj.status;
      if !ValidSpec(leaseObj.Value()) {
        result := RejectLease(env, leaseObj, before, InvalidConfiguration);
        return;
      }
      var pol := FetchPolicy(env, leaseObj.Value());
      if pol.Err? {
        result := RejectLease(env, leaseObj, before, pol.error);
        return;
      }
      var resolved := Resolve(leaseObj.spec, pol.value);
      if resolved.Err? {
        result := RejectLease(env, leaseObj, before, PolicyViolation);
        return;
      }
      ResolvedObeysPolicy(leaseObj.spec, pol.value);
      SetTimes(env, leaseObj, resolved.value);
      if IsExpired(leaseObj.status.timing, env.now) {
        result := ReconcileExpiredLease(env, leaseObj, before);
        return;
      }
      result := ReconcileActiveLease(env, leaseObj, before.phase, resolved.value, pol.value);
      leaseObj.EnsureObservedGeneration();
      var ok := PatchStatusIfChanged(env, leaseObj, before);
      if !ok {
        result := Retry;
      }
    }

    method ReconcileLease(env: Env, name: string) returns (result: PassResult)
      requires forall n :: n in leases ==> leases[n].meta.name == n
      modifies this`leases, this`namespaces
      ensures (State(), result) == Reconcile(c, env, old(State()), name)
    {
      if name !in leases {
        return Requeue(0);
      }
      var leaseObj := new EnvironmentLease(leases[name]);
      if leaseObj.meta.deleting {
        result := ReconcileDeletedLease(env, leaseObj);
        return;
      }
      if !leaseObj.meta.finalizer {
        if !env.finalizerAddOk {
          return Retry;
        }
        leases := leases[name := leases[name].(meta := leases[name].meta.(finalizer := true))];
        return RequeueNow;
      }
      result := ReconcileLiveLease(env, leaseObj);
    }
  }
}
