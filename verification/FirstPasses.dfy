/** The passes after the very first ready pass of a lease, which on a remote
    cluster leaves the identity of the cluster to the second. */
module FirstPasses {
  import opened Api
  import opened LeaseTiming
  import opened Warnings
  import opened WarningRuns
  import opened Policy
  import opened PlacementDecision
  import opened Ownership
  import opened Reconciliation
  import opened PassEffects
  import opened Convergence
  import opened WokenPasses

  /** The identity of the cluster behind the session can be had without what the
      lease has recorded: from its target, or by asking it. */
  predicate IdentityAvailable(env: Env, sess: Session) {
    sess.isLocal || (sess.name in env.view.get && env.view.get[sess.name].remoteIdentity != "") || Probe(env, sess).Some?
  }

  /** The provisioned lease b is decided onto the cluster it has recorded. */
  lemma DecidedAgain(c: Config, env: Env, l: Lease, b: Lease, pol: Option<LeasePolicy>)
    requires NamesGiven(env) && Locate(c, env, l, pol).Found? && SameIdentity(l, b) && l.status.namespace == ""
    requires b.status.namespace != "" && StickyCluster(b) == SessionOf(c, env, l, pol).name
    ensures var sess := SessionOf(c, env, l, pol);
            && Decide(c.hash, env.view, b, pol, env.counts) == Ok(Decision(sess.name, false, false))
            && ResolveNamedTarget(c, env, sess.name) == Ok(sess) && env.counts.Some? && env.outageWait <= 0
  {
    DecisionNamed(c, env, l, pol);
    var d := Decide(c.hash, env.view, l, pol, env.counts).value;
    var sess := SessionOf(c, env, l, pol);
    var chosen := l.(status := l.status.(cluster := Some(KeepIdentity(l.status.cluster, d.clusterName))));
    if !sess.isLocal { IdentifiedKeeps(env, chosen, sess); }
    assert d.clusterName == sess.name;
  }

  /** So the second pass finds the session of the first. */
  lemma LocatedNext(c: Config, env: Env, b: Lease, pol: Option<LeasePolicy>, sess: Session)
    requires Decide(c.hash, env.view, b, pol, env.counts) == Ok(Decision(sess.name, false, false))
    requires ResolveNamedTarget(c, env, sess.name) == Ok(sess) && env.counts.Some? && env.outageWait <= 0
    requires IdentityAvailable(env, sess)
    ensures var loc := Locate(c, env, b, pol);
            && loc.Found? && loc.session == sess && loc.l.status.cluster.Some?
            && loc.l == b.(status := b.status.(cluster := loc.l.status.cluster))
  {
  }

  lemma ProvideSucceeds(env: Env, ns: Namespace, l: Lease, np: Option<NetworkPolicySpec>)
    requires CallsSucceed(env, l, np)
    ensures Provide(env, ns, l, np).failure.None?
  {
    QuotaSupplied(ns, l.meta.name, DesiredQuota(l.spec), env.quotaOk);
  }

  /** A namespace that its lease may adopt is ensured, patched or not. */
  lemma AdoptableIsEnsured(c: Config, env: Env, w: World, l: Lease, sess: Session)
    requires l.status.namespace != "" && !IsProtectedNamespace(l.status.namespace) && env.nsReadOk && env.nsPatchOk
    requires var k := NsKey(sess.site, l.status.namespace);
             k in w.namespaces && !w.namespaces[k].terminating
             && CanAdoptNamespace(k.name, w.namespaces[k], l.meta.name, l.meta.uid)
    ensures var e := EnsureNamespace(c, env, w, l, sess);
            e.name == Some(l.status.namespace) && NsKey(sess.site, l.status.namespace) in e.w.namespaces
  {
  }

  lemma FurnishFinishes(env: Env, w: World, l: Lease, sess: Session, name: string, r: Resolved)
    requires NsKey(sess.site, name) in w.namespaces && CallsSucceed(env, l, WorkingNetworkPolicy(l.spec, r))
    ensures var p := Furnish(env, w, l, sess, name, r); p.result.Requeue? && ReadyTrue(p.l.status)
  {
    ProvideSucceeds(env, w.namespaces[NsKey(sess.site, name)], l, WorkingNetworkPolicy(l.spec, r));
    FinishedForm(env, l);
    FormIsReady(env, l);
    assert ReadyTrue(Observed(Finished(env, l)).status) == ReadyTrue(Finished(env, l).status);
  }

  /** An established lease whose namespace it may adopt becomes ready again. */
  lemma AdoptableFinishes(c: Config, env: Env, w: World, l: Lease, sess: Session, r: Resolved)
    requires l.status.namespace != "" && !IsProtectedNamespace(l.status.namespace) && env.nsReadOk && env.nsPatchOk
    requires var k := NsKey(sess.site, l.status.namespace);
             k in w.namespaces && !w.namespaces[k].terminating
             && CanAdoptNamespace(k.name, w.namespaces[k], l.meta.name, l.meta.uid)
    requires CallsSucceed(env, l, WorkingNetworkPolicy(l.spec, r))
    ensures var p := Provision(c, env, w, l, sess, true, r); p.result.Requeue? && ReadyTrue(p.l.status)
  {
    AdoptableIsEnsured(c, env, w, l, sess);
    FurnishFinishes(env, EnsureNamespace(c, env, w, l, sess).w, l, sess, l.status.namespace, r);
  }

  lemma SecondActive(c: Config, env: Env, w: World, l: Lease, pol: Option<LeasePolicy>, r: Resolved, sess: Session, previous: Phase)
    requires Locate(c, env, l, pol).Found? && Locate(c, env, l, pol).session == sess && env.outageWait <= 0
    requires var f := Locate(c, env, l, pol).l;
             f.status.cluster.Some? && f == l.(status := l.status.(cluster := f.status.cluster))
    requires ReadyTrue(l.status) && l.status.namespace != "" && !IsProtectedNamespace(l.status.namespace)
    requires env.nsReadOk && env.nsPatchOk && CallsSucceed(env, l, WorkingNetworkPolicy(l.spec, r))
    requires var k := NsKey(sess.site, l.status.namespace);
             k in w.namespaces && !w.namespaces[k].terminating
             && CanAdoptNamespace(k.name, w.namespaces[k], l.meta.name, l.meta.uid)
    ensures Finishes(env, ReconcileActive(c, env, w, l, previous, r, pol))
  {
    var f := Locate(c, env, l, pol).l;
    var l1 := OnCluster(f, sess.name);
    assert l1.spec == l.spec && l1.meta == l.meta && l1.status.namespace == l.status.namespace;
    AdoptableFinishes(c, env, w, l1, sess, r);
    assert ReconcileActive(c, env, w, l, previous, r, pol) == Provision(c, env, w, l1, sess, true, r);
  }

  /** A first ready pass, on any cluster, whose second pass may patch the namespace
      and learn the identity of the cluster. */
  predicate FirstPass(c: Config, env: Env, w: World, name: string) {
    && name in w.leases && w.leases[name].meta.name == name && Healthy(w.leases[name])
    && ReadyPass(c, env, w, w.leases[name]) && NamesGiven(env) && !IsProtectedNamespace(env.generatedName)
    && env.nsReadOk && env.nsPatchOk && w.leases[name].status.namespace == ""
    && var l := w.leases[name];
    && var l1 := Timed(env, l, TermsOf(env, l));
    && EffectiveDeadline(l1.status.timing).Some?
    && var loc := Locate(c, env, l1, FetchPolicy(env, l).value);
    && loc.Found? && IdentityAvailable(env, loc.session)
  }

  /** The lease b and the namespaces that the first pass leaves. */
  predicate Left(c: Config, env: Env, w1: World, core: Lease, b: Lease, sess: Session, r: Resolved) {
    && b == ReadyLease(env, core) && b.meta.name in w1.leases && w1.leases[b.meta.name] == b
    && core.status.namespace != "" && !IsProtectedNamespace(core.status.namespace)
    && core.status.cluster == Some(ClusterStatus(sess.name, "", "")) && core.status.effective == Some(ToEffective(r))
    && var k := NsKey(sess.site, core.status.namespace);
    && k in w1.namespaces && !w1.namespaces[k].terminating
    && CanAdoptNamespace(k.name, w1.namespaces[k], b.meta.name, b.meta.uid)
    && CallsSucceed(env, b, WorkingNetworkPolicy(b.spec, r))
  }

  /** What the first pass over l leaves. */
  predicate LeftBy(c: Config, env: Env, l: Lease, pass: (World, PassResult), core: Lease, sess: Session) {
    && TermsKnown(env, l)
    && var l1 := Timed(env, l, TermsOf(env, l));
    && var loc := Locate(c, env, l1, FetchPolicy(env, l).value);
    && loc.Found? && sess == loc.session
    && SameIdentity(core, l) && core.status.warningsDelivered == l.status.warningsDelivered
    && core.status.timing == l1.status.timing && pass.1 == Requeue(WaitFor(env, core, sess))
    && Left(c, env, pass.0, core, ReadyLease(env, core), sess, TermsOf(env, l))
  }

  lemma FirstLeaves(c: Config, env: Env, w: World, name: string) returns (core: Lease, sess: Session)
    requires FirstPass(c, env, w, name)
    ensures LeftBy(c, env, w.leases[name], Reconcile(c, env, w, name), core, sess)
  {
    var l := w.leases[name];
    var r, pol := TermsOf(env, l), FetchPolicy(env, l).value;
    var l1 := Timed(env, l, r);
    ReadyPassStores(c, env, w, name);
    var p := ActivePart(c, env, w, l);
    sess := SessionOf(c, env, l1, pol);
    core := CoreAfter(c, env, l1, pol, p.l.status.namespace);
    FormIsReady(env, core);
    assert env == env.(now := env.now);
    LandedIsInOrder(c, env, env, w.namespaces, p, core, ReadyLease(env, core), sess, r);
  }

  /** Only the clock moved. */
  lemma LocatedLater(c: Config, env: Env, env2: Env, b: Lease, pol: Option<LeasePolicy>, sess: Session)
    requires env2 == Tick(env, env2.now) && IdentityAvailable(env, sess)
    requires Decide(c.hash, env.view, b, pol, env.counts) == Ok(Decision(sess.name, false, false))
    requires ResolveNamedTarget(c, env, sess.name) == Ok(sess) && env.counts.Some? && env.outageWait <= 0
    ensures var loc := Locate(c, env2, b, pol);
            && loc.Found? && loc.session == sess && loc.l.status.cluster.Some?
            && loc.l == b.(status := b.status.(cluster := loc.l.status.cluster))
  {
    assert ResolveNamedTarget(c, env2, sess.name) == ResolveNamedTarget(c, env, sess.name);
    LocatedNext(c, env2, b, pol, sess);
  }

  lemma ReachesFrom(c: Config, env: Env, w: World, b: Lease, pol: Option<LeasePolicy>, r: Resolved)
    requires b.meta.finalizer && !b.meta.deleting && ValidSpec(b)
    requires FetchPolicy(env, b) == Ok(pol) && Resolve(b.spec, pol) == Ok(r)
    requires !IsExpired(Timed(env, b, r).status.timing, env.now)
    requires Finishes(env, ReconcileActive(c, env, w, Timed(env, b, r), b.status.phase, r, pol))
    ensures ReachesReady(c, env, w, b)
  {
  }

  /** What Timed leaves of a ready lease. */
  lemma TimedKeeps(env: Env, b: Lease, r: Resolved)
    ensures var l := Timed(env, b, r);
            && SameIdentity(l, b) && l.status.namespace == b.status.namespace && l.status.cluster == b.status.cluster
            && ReadyTrue(l.status) == ReadyTrue(b.status)
  {
  }

  lemma SecondFinishes(c: Config, env: Env, env2: Env, w1: World, core: Lease, b: Lease, pol: Option<LeasePolicy>, r: Resolved,
                       sess: Session)
    requires env2 == Tick(env, env2.now) && Left(c, env, w1, core, b, sess, r) && IdentityAvailable(env, sess)
    requires env.nsReadOk && env.nsPatchOk
    requires Decide(c.hash, env.view, Timed(env2, b, r), pol, env.counts) == Ok(Decision(sess.name, false, false))
    requires ResolveNamedTarget(c, env, sess.name) == Ok(sess) && env.counts.Some? && env.outageWait <= 0
    ensures Finishes(env2, ReconcileActive(c, env2, w1, Timed(env2, b, r), b.status.phase, r, pol))
  {
    TimedKeeps(env2, b, r);
    FormIsReady(env, core);
    LocatedLater(c, env, env2, Timed(env2, b, r), pol, sess);
    SecondActive(c, env2, w1, Timed(env2, b, r), pol, r, sess, b.status.phase);
  }

  /** A later pass over what the first one left is ready, and a settled one. */
  lemma SecondReaches(c: Config, env: Env, env2: Env, w: World, name: string, core: Lease, sess: Session)
    requires FirstPass(c, env, w, name) && env2 == Tick(env, env2.now)
    requires LeftBy(c, env, w.leases[name], Reconcile(c, env, w, name), core, sess)
    requires env.now <= env2.now < DeadlineOf(env, w.leases[name])
    ensures ReachesReady(c, env2, Reconcile(c, env, w, name).0, ReadyLease(env, core))
    ensures Timed(env2, ReadyLease(env, core), TermsOf(env, w.leases[name])).status.timing == core.status.timing
  {
    var l, w1, b := w.leases[name], Reconcile(c, env, w, name).0, ReadyLease(env, core);
    var r, pol := TermsOf(env, l), FetchPolicy(env, l).value;
    ResolvedObeysPolicy(l.spec, pol);
    FormIsReady(env, core);
    TimesStand(env, env2.now, l, core, b, r);
    TimedKeeps(env2, b, r);
    DecidedAgain(c, env, Timed(env, l, r), Timed(env2, b, r), pol);
    SecondFinishes(c, env, env2, w1, core, b, pol, r, sess);
    ReachesFrom(c, env2, w1, b, pol, r);
  }

  lemma LeftIsHealthy(c: Config, env: Env, w: World, name: string)
    requires NamesGiven(env) && name in w.leases && w.leases[name].meta.name == name && Healthy(w.leases[name])
    ensures var w1 := Reconcile(c, env, w, name).0; name in w1.leases ==> Healthy(w1.leases[name])
  {
    ReconcileEffect(c, env, w, name);
  }

  lemma SettledFrom(c: Config, env: Env, env2: Env, w1: World, name: string, b: Lease, deadline: int)
    requires name in w1.leases && w1.leases[name] == b && b.meta.name == name && Healthy(b) && b.status.namespace != ""
    requires env2 == Tick(env, env2.now) && NamesGiven(env) && !IsProtectedNamespace(env.generatedName)
    requires env.nsReadOk && env.finalWriteOk && ReachesReady(c, env2, w1, b)
    requires EffectiveDeadline(Timed(env2, b, TermsOf(env2, b)).status.timing) == Some(deadline)
    ensures SettledPass(c, env2, w1, name) && DeadlineOf(env2, b) == deadline
  {
  }

  /** The second pass, whenever it runs before the deadline, is settled. */
  lemma SecondIsSettled(c: Config, env: Env, env2: Env, w: World, name: string, core: Lease, sess: Session)
    requires FirstPass(c, env, w, name) && env2 == Tick(env, env2.now)
    requires LeftBy(c, env, w.leases[name], Reconcile(c, env, w, name), core, sess)
    requires env.now <= env2.now < DeadlineOf(env, w.leases[name])
    ensures SettledPass(c, env2, Reconcile(c, env, w, name).0, name)
    ensures DeadlineOf(env2, ReadyLease(env, core)) == DeadlineOf(env, w.leases[name])
  {
    var l := w.leases[name];
    SecondReaches(c, env, env2, w, name, core, sess);
    LeftIsHealthy(c, env, w, name);
    FormIsReady(env, core);
    SettledFrom(c, env, env2, Reconcile(c, env, w, name).0, name, ReadyLease(env, core), DeadlineOf(env, l));
  }

  lemma FirstIsLive(c: Config, env: Env, w: World, name: string)
    requires FirstPass(c, env, w, name)
    ensures var l := w.leases[name];
            && env.outageWait <= 0 && env.now < DeadlineOf(env, l) && Distinct(l.spec.warnings)
            && EffectiveDeadline(Timed(env, l, TermsOf(env, l)).status.timing) == Some(DeadlineOf(env, l))
            && Emits(env, l) == PendingNow(env.now, DeadlineOf(env, l), WarningDurationsOf(l.spec.warnings), l.status.warningsDelivered)
  {
  }

  lemma FirstBeats(k: Controller, c: Config, env: Env, w: World, name: string, core: Lease, sess: Session, n: Moment, wait: int,
                   deadline: int, ds: seq<int>, d: seq<WarningKey>)
    requires Reconciles(k, c, name) && FirstPass(c, env, w, name)
    requires LeftBy(c, env, w.leases[name], Reconcile(c, env, w, name), core, sess) && wait == WaitFor(env, core, sess)
    requires var l := w.leases[name];
             && deadline == DeadlineOf(env, l) && ds == WarningDurationsOf(l.spec.warnings) && d == l.status.warningsDelivered
    requires n == Moment(Tick(env, env.now + wait), Reconcile(c, env, w, name).0)
    ensures BeatOf(k, name, Moment(env, w)) == Some(Beat(n, wait, PendingNow(env.now, deadline, ds, d)))
  {
    FirstIsLive(c, env, w, name);
    FormIsReady(env, core);
    BeatsWhen(name, Moment(env, w), Reconcile(c, env, w, name), n, wait, Emits(env, w.leases[name]));
  }

  /** The passes from the second on. */
  lemma SecondWarnsOnce(k: Controller, c: Config, env2: Env, w1: World, name: string, b: Lease, deadline: int, ds: seq<int>,
                        e: seq<WarningKey>)
    requires Reconciles(k, c, name) && SettledPass(c, env2, w1, name) && w1.leases[name] == b
    requires DeadlineOf(env2, b) == deadline && ds == WarningDurationsOf(b.spec.warnings) && e == b.status.warningsDelivered
    ensures WarnsOnce(k, env2, w1, name, deadline, ds, e)
  {
    WokenPassesWarnOnce(k, c, env2, w1, name);
  }

  /** The first beat, and the passes after it. */
  lemma FirstAndSecond(k: Controller, env: Env, w: World, w1: World, name: string, core: Lease, sess: Session, n: Moment,
                       wait: int, at: int, deadline: int, ds: seq<int>, d: seq<WarningKey>, e: seq<WarningKey>)
    requires Parts(k, env, w, w1, name, core, n, wait, at, deadline, ds, d, e) && env.now < deadline && Distinct(ds)
    requires e == ReadyForm(env, core).warningsDelivered && wait == WaitFor(env, core, sess) && at == env.now + wait
    requires n == Moment(Tick(env, at), w1)
    ensures WarnsOnce(k, env, w, name, deadline, ds, d)
  {
    WaitMeetsNext(env, core, sess, deadline, ds);
    DurationsMembers(core.spec.warnings);
    FirstAndRest(k, env, w, name, deadline, ds, d, n, wait, at, e);
  }

  lemma NextWarnsOnce(k: Controller, c: Config, env: Env, env2: Env, w: World, name: string, core: Lease, sess: Session,
                      n: Moment, at: int, deadline: int, ds: seq<int>, e: seq<WarningKey>)
    requires Reconciles(k, c, name) && FirstPass(c, env, w, name) && env2 == Tick(env, env2.now)
    requires LeftBy(c, env, w.leases[name], Reconcile(c, env, w, name), core, sess)
    requires deadline == DeadlineOf(env, w.leases[name]) && env.now <= env2.now == at
    requires n == Moment(env2, Reconcile(c, env, w, name).0)
    requires ds == WarningDurationsOf(core.spec.warnings) && e == ReadyForm(env, core).warningsDelivered
    ensures RestOnce(k, name, n, at, deadline, ds, e)
  {
    if at < deadline {
      SecondIsSettled(c, env, env2, w, name, core, sess);
      SecondWarnsOnce(k, c, env2, Reconcile(c, env, w, name).0, name, ReadyLease(env, core), deadline, ds, e);
    }
  }

  lemma CoreWaits(c: Config, env: Env, l: Lease, pass: (World, PassResult), core: Lease, sess: Session, deadline: int)
    requires LeftBy(c, env, l, pass, core, sess) && env.now < deadline
    requires EffectiveDeadline(Timed(env, l, TermsOf(env, l)).status.timing) == Some(deadline)
    ensures EffectiveDeadline(core.status.timing) == Some(deadline) && WaitFor(env, core, sess) > 0
  {
    WaitMeetsNext(env, core, sess, deadline, WarningDurationsOf(core.spec.warnings));
  }

  /** The facts that the two parts of the log are put together from. */
  ghost predicate Parts(k: Controller, env: Env, w: World, w1: World, name: string, core: Lease, n: Moment, wait: int, at: int,
                        deadline: int, ds: seq<int>, d: seq<WarningKey>, e: seq<WarningKey>)
  {
    && BeatOf(k, name, Moment(env, w)) == Some(Beat(n, wait, PendingNow(env.now, deadline, ds, d)))
    && EffectiveDeadline(core.status.timing) == Some(deadline) && ds == WarningDurationsOf(core.spec.warnings)
    && core.status.warningsDelivered == d && RestOnce(k, name, n, at, deadline, ds, e)
  }

  lemma FirstParts(k: Controller, c: Config, env: Env, w: World, w1: World, name: string, core: Lease, sess: Session, n: Moment,
                   wait: int, at: int, deadline: int, ds: seq<int>, d: seq<WarningKey>, e: seq<WarningKey>)
    requires Reconciles(k, c, name) && FirstPass(c, env, w, name) && w1 == Reconcile(c, env, w, name).0
    requires LeftBy(c, env, w.leases[name], Reconcile(c, env, w, name), core, sess) && wait == WaitFor(env, core, sess)
    requires at == env.now + wait && n == Moment(Tick(env, at), w1) && e == ReadyForm(env, core).warningsDelivered
    requires var l := w.leases[name];
             deadline == DeadlineOf(env, l) && ds == WarningDurationsOf(l.spec.warnings) && d == l.status.warningsDelivered
    ensures Parts(k, env, w, w1, name, core, n, wait, at, deadline, ds, d, e)
  {
    FirstIsLive(c, env, w, name);
    FirstBeats(k, c, env, w, name, core, sess, n, wait, deadline, ds, d);
    CoreWaits(c, env, w.leases[name], Reconcile(c, env, w, name), core, sess, deadline);
    NextWarnsOnce(k, c, env, n.env, w, name, core, sess, n, at, deadline, ds, e);
  }

  /** Warnings from the first ready pass on, on any cluster: passes of the
      controller that run exactly when they asked to, and save their status, emit
      each warning exactly once, at max(start, deadline - w) and so before the
      deadline, and nothing else. */
  lemma FirstPassesWarnOnce(k: Controller, c: Config, env: Env, w: World, name: string)
    requires Reconciles(k, c, name) && FirstPass(c, env, w, name)
    ensures var l := w.leases[name];
            WarnsOnce(k, env, w, name, DeadlineOf(env, l), WarningDurationsOf(l.spec.warnings), l.status.warningsDelivered)
  {
    var l := w.leases[name];
    FirstIsLive(c, env, w, name);
    DurationsDistinct(l.spec.warnings);
    var deadline, ds, d := DeadlineOf(env, l), WarningDurationsOf(l.spec.warnings), l.status.warningsDelivered;
    var core, sess := FirstLeaves(c, env, w, name);
    var wait, w1 := WaitFor(env, core, sess), Reconcile(c, env, w, name).0;
    var at := env.now + wait;
    var n, e := Moment(Tick(env, at), w1), ReadyForm(env, core).warningsDelivered;
    FirstParts(k, c, env, w, w1, name, core, sess, n, wait, at, deadline, ds, d, e);
    FirstAndSecond(k, env, w, w1, name, core, sess, n, wait, at, deadline, ds, d, e);
  }
}
