/** Concrete passes: the situations other modules reason about do occur. */
module Scenarios {
  import opened Api
  import opened LeaseTiming
  import opened LeaseStatusChanges
  import opened Policy
  import opened PlacementDecision
  import opened Ownership
  import opened Reconciliation
  import opened PassEffects
  import opened Convergence
  import opened FirstPasses
  import opened Lifecycle

  const LONE_SPEC := LeaseSpec("", "", None, None, Some(10), None, None, None, [],
                               NamespaceSpec("team-a", "", map[], map[]), None, None, None)

  const LONE_LEASE := Lease(Meta("a", "uid-a", 1, Some(0), true, false, false), LONE_SPEC, NO_STATUS)

  /** Every call succeeds. */
  const GOOD_LUCK := Env(0, map[], Some(map[]), HubView(map[], Some([])), 0, 0, map[], true, true, "",
                         true, true, true, true, true, true, true, true, true, true, true, true, true, true, true)

  /** Only the two status writes after the namespace is made fail. */
  const BAD_LUCK := GOOD_LUCK.(nsWriteOk := false, finalWriteOk := false)

  predicate NearlyGood(env: Env) {
    env == GOOD_LUCK.(nsWriteOk := env.nsWriteOk, finalWriteOk := env.finalWriteOk)
  }

  /** The lone lease is placed on the control cluster. */
  lemma LoneLeaseIsLocated(c: Config, env: Env, r: Resolved)
    requires NearlyGood(env) && Resolve(LONE_SPEC, None) == Ok(r)
    ensures var l1 := Timed(env, LONE_LEASE, r);
            var loc := Locate(c, env, l1, None);
            && !IsExpired(l1.status.timing, 0) && l1.spec == LONE_SPEC && l1.meta == LONE_LEASE.meta
            && EffectiveDeadline(l1.status.timing) == Some(10) && !ReadyTrue(l1.status)
            && loc.Found? && loc.session == Session(LOCAL_CLUSTER_NAME, c.local, true)
            && loc.l.status.namespace == "" && loc.l.spec == LONE_SPEC && loc.l.meta == LONE_LEASE.meta
  {
    var l1 := Timed(env, LONE_LEASE, r);
    assert StickyCluster(l1) == "";
    assert Decide(c.hash, env.view, l1, None, env.counts) == Ok(Decision(LOCAL_CLUSTER_NAME, false, false));
    var chosen := l1.(status := l1.status.(cluster := Some(KeepIdentity(None, LOCAL_CLUSTER_NAME))));
    assert Locate(c, env, l1, None) == Reach(c, env, chosen, LOCAL_CLUSTER_NAME);
  }

  function LoneWorld(): World {
    World(map["a" := LONE_LEASE], map[])
  }

  /** The active pass comes to Provision with the cluster on record. */
  lemma LoneLeaseIsSettled(c: Config, env: Env, r: Resolved) returns (w1: World, l: Lease)
    requires NearlyGood(env) && Resolve(LONE_SPEC, None) == Ok(r)
    ensures l.status.namespace == "" && l.spec == LONE_SPEC && l.meta == LONE_LEASE.meta
    ensures "a" in w1.leases && w1.leases["a"].spec == LONE_SPEC && w1.namespaces == map[]
    ensures ReconcileActive(c, env, LoneWorld(), Timed(env, LONE_LEASE, r), NoPhase, r, None)
            == Provision(c, env, w1, l, Session(LOCAL_CLUSTER_NAME, c.local, true), false, r)
  {
    LoneLeaseIsLocated(c, env, r);
    var loc := Locate(c, env, Timed(env, LONE_LEASE, r), None);
    var on := OnCluster(loc.l, LOCAL_CLUSTER_NAME);
    w1 := WriteStatus(LoneWorld(), on);
    l := Reread(w1, on, Some(ToEffective(r)), LOCAL_CLUSTER_NAME);
  }

  /** From there a new namespace is made, and with luck the lease becomes Ready. */
  lemma LoneLeaseIsProvisioned(c: Config, env: Env, w1: World, l: Lease, r: Resolved)
    requires NearlyGood(env) && l.status.namespace == "" && l.spec == LONE_SPEC && l.meta == LONE_LEASE.meta
    requires "a" in w1.leases && w1.namespaces == map[] && r.networkPolicy.None?
    requires w1.leases["a"].spec == LONE_SPEC
    ensures var p := Provision(c, env, w1, l, Session(LOCAL_CLUSTER_NAME, c.local, true), false, r);
            && NsKey(c.local, "team-a") in p.w.namespaces
            && (env.nsWriteOk ==> p.result.Requeue? && ReadyTrue(p.l.status))
  {
    var sess := Session(LOCAL_CLUSTER_NAME, c.local, true);
    var key := NsKey(c.local, "team-a");
    var l1 := if l.status.phase != Failed then Mark(l, ProvisioningStatus(l.status, l.meta.generation)) else l;
    var e := EnsureNamespace(c, env, w1, l1, sess);
    assert e == Ensured(w1.(namespaces := map[key := FreshNamespace(l1, c.controlClusterID)]), Some("team-a"));
    var l2 := l1.(status := l1.status.(namespace := "team-a"));
    if env.nsWriteOk {
      LoneLeaseIsFurnished(env, WriteStatus(e.w, l2), Reread(WriteStatus(e.w, l2), l2, Some(ToEffective(r)), sess.name), sess, r);
    }
  }

  lemma LoneLeaseIsFurnished(env: Env, w: World, l: Lease, sess: Session, r: Resolved)
    requires NearlyGood(env) && l.spec == LONE_SPEC && r.networkPolicy.None? && NsKey(sess.site, "team-a") in w.namespaces
    ensures var p := Furnish(env, w, l, sess, "team-a", r);
            p.result.Requeue? && ReadyTrue(p.l.status) && p.w.namespaces.Keys == w.namespaces.Keys
  {
    var key := NsKey(sess.site, "team-a");
    assert DesiredQuota(l.spec).None? && DesiredLimits(l.spec).None? && !DesiresNetworkPolicy(WorkingNetworkPolicy(l.spec, r));
    assert Provide(env, w.namespaces[key], l, WorkingNetworkPolicy(l.spec, r)) == Provided(w.namespaces[key], None);
  }

  lemma LivePassIsActive(c: Config, env: Env, w: World, name: string, r: Resolved)
    requires name in w.leases && w.leases[name].meta.finalizer && !w.leases[name].meta.deleting
    requires var l := w.leases[name];
             && ValidSpec(l) && FetchPolicy(env, l) == Ok(None) && Resolve(l.spec, None) == Ok(r)
             && !IsExpired(Timed(env, l, r).status.timing, env.now)
    ensures var l := w.leases[name];
            Reconcile(c, env, w, name).0.namespaces
            == ReconcileActive(c, env, w, Timed(env, l, r), l.status.phase, r, None).w.namespaces
  {
  }

  lemma LoneLeaseIsWell(env: Env)
    requires NearlyGood(env)
    ensures WellFormed(System(LoneWorld(), {"uid-a"}))
    ensures ValidSpec(LONE_LEASE) && FetchPolicy(env, LONE_LEASE) == Ok(None)
    ensures Resolve(LONE_SPEC, None).Ok? && Resolve(LONE_SPEC, None).value.networkPolicy.None?
  {
  }

  /** A pass that makes a namespace without recording it. */
  lemma UnrecordedClaimHappens(c: Config)
    ensures WellFormed(System(LoneWorld(), {"uid-a"})) && NamesGiven(BAD_LUCK) && !Durable(BAD_LUCK, LONE_LEASE)
    ensures NsKey(c.local, "team-a") in Reconcile(c, BAD_LUCK, LoneWorld(), "a").0.namespaces
  {
    LoneLeaseIsWell(BAD_LUCK);
    var r := Resolve(LONE_SPEC, None).value;
    LoneLeaseIsLocated(c, BAD_LUCK, r);
    var w1, l := LoneLeaseIsSettled(c, BAD_LUCK, r);
    LoneLeaseIsProvisioned(c, BAD_LUCK, w1, l, r);
    LivePassIsActive(c, BAD_LUCK, LoneWorld(), "a", r);
  }

  /** A ready pass on the control cluster that the convergence and quiescence
      theorems apply to. */
  lemma ReadyPassHappens(c: Config)
    ensures Healthy(LONE_LEASE) && NamesGiven(GOOD_LUCK) && !IsProtectedNamespace(GOOD_LUCK.generatedName)
    ensures ReadyPass(c, GOOD_LUCK, LoneWorld(), LONE_LEASE)
  {
    LoneLeaseIsHealthy();
    assert ReadyPass(c, GOOD_LUCK, LoneWorld(), LONE_LEASE) by { LoneLeaseIsReady(c); }
  }

  lemma LoneLeaseIsHealthy()
    ensures Healthy(LONE_LEASE) && NamesGiven(GOOD_LUCK) && !IsProtectedNamespace(GOOD_LUCK.generatedName)
  {
    FreshIsHealthy(LONE_LEASE);
  }

  lemma LoneLeaseIsReady(c: Config)
    ensures ReadyPass(c, GOOD_LUCK, LoneWorld(), LONE_LEASE)
  {
    LoneLeaseIsWell(GOOD_LUCK);
    LoneLeaseReaches(c, Resolve(LONE_SPEC, None).value);
  }

  /** It runs on the control cluster and has a deadline. */
  lemma ReadyPassIsLocal(c: Config, r: Resolved)
    requires FetchPolicy(GOOD_LUCK, LONE_LEASE) == Ok(None) && Resolve(LONE_SPEC, None) == Ok(r)
    ensures var l1 := Timed(GOOD_LUCK, LONE_LEASE, TermsOf(GOOD_LUCK, LONE_LEASE));
            var loc := Locate(c, GOOD_LUCK, l1, None);
            loc.Found? && loc.session.isLocal && EffectiveDeadline(l1.status.timing) == Some(10)
  {
    LoneLeaseIsLocated(c, GOOD_LUCK, r);
  }

  lemma LoneLeaseReaches(c: Config, r: Resolved)
    requires ValidSpec(LONE_LEASE) && FetchPolicy(GOOD_LUCK, LONE_LEASE) == Ok(None)
    requires Resolve(LONE_SPEC, None) == Ok(r) && r.networkPolicy.None?
    ensures ReachesReady(c, GOOD_LUCK, LoneWorld(), LONE_LEASE) && TermsOf(GOOD_LUCK, LONE_LEASE) == r
  {
    LoneLeaseIsLocated(c, GOOD_LUCK, r);
    LoneLeaseFinishes(c, r);
    ReadyFrom(c, GOOD_LUCK, LoneWorld(), LONE_LEASE, r);
  }

  /** So it is settled, and a first pass. */
  lemma FirstPassHappens(c: Config)
    ensures SettledPass(c, GOOD_LUCK, LoneWorld(), "a") && FirstPass(c, GOOD_LUCK, LoneWorld(), "a")
  {
    ReadyPassHappens(c);
    LoneLeaseIsWell(GOOD_LUCK);
    ReadyPassIsLocal(c, Resolve(LONE_SPEC, None).value);
  }

  lemma ReadyFrom(c: Config, env: Env, w: World, l: Lease, r: Resolved)
    requires l.meta.finalizer && !l.meta.deleting && ValidSpec(l)
    requires FetchPolicy(env, l) == Ok(None) && Resolve(l.spec, None) == Ok(r)
    requires !IsExpired(Timed(env, l, r).status.timing, env.now)
    requires Finishes(env, ReconcileActive(c, env, w, Timed(env, l, r), l.status.phase, r, None))
    ensures ReachesReady(c, env, w, l) && TermsOf(env, l) == r
  {
  }

  lemma LoneLeaseFinishes(c: Config, r: Resolved)
    requires Resolve(LONE_SPEC, None) == Ok(r) && r.networkPolicy.None?
    ensures Finishes(GOOD_LUCK, ReconcileActive(c, GOOD_LUCK, LoneWorld(), Timed(GOOD_LUCK, LONE_LEASE, r), NoPhase, r, None))
  {
    var w1, l := LoneLeaseIsSettled(c, GOOD_LUCK, r);
    LoneLeaseIsProvisioned(c, GOOD_LUCK, w1, l, r);
  }

  // ------------------------------------- what a careful run cannot do without

  function Cluster(name: string): Target {
    Target(name, "", map[], map[], false, true, None, true, "", None)
  }

  const ROUTES: map<string, string> := map["east" := "site-1", "west" := "site-2"]

  const TWO_CLUSTERS := GOOD_LUCK.(view := HubView(map["east" := Cluster("east"), "west" := Cluster("west")], Some([])),
                                   routes := ROUTES)

  /** A deleted lease that has recorded the namespace "team-a" on "east". */
  const HELD_LEASE := Lease(Meta("a", "uid-a", 1, Some(0), true, true, false), LONE_SPEC,
                            NO_STATUS.(namespace := "team-a", cluster := Some(ClusterStatus("east", "", ""))))

  const HELD_KEY := NsKey("site-1", "team-a")

  /** Its namespace is where it should be. */
  const HELD := System(World(map["a" := HELD_LEASE],
                             map[HELD_KEY := Namespace(ManagedLabels("a"), map[ANNOTATION_LEASE_UID := "uid-a"], false,
                                                       None, None, None)]),
                       {"uid-a"})

  lemma HeldIsAccounted(c: Config)
    ensures WellFormed(HELD) && Accounted(c, ROUTES, "uid-a", HELD) && LeaseUID(HELD.w.namespaces[HELD_KEY]) == "uid-a"
    ensures !IsProtectedNamespace("team-a") && CleanupTarget(HELD_LEASE) == "east" && "east" != LOCAL_CLUSTER_NAME
  {
    assert |"east"| == 4 && |LOCAL_CLUSTER_NAME| == 5;
    assert HeldBy(c, ROUTES, HELD.w, HELD_KEY, "a");
  }

  /** One pass that finds the target on another cluster orphans the namespace. */
  lemma RoutesAreNeeded(c: Config)
    ensures var moved := TWO_CLUSTERS.(routes := map["east" := "site-2"]);
            NamesGiven(moved) && Orphaned(Perform(c, HELD, Step.Pass("a", moved)), "uid-a", HELD_KEY)
  {
    var moved := TWO_CLUSTERS.(routes := map["east" := "site-2"]);
    HeldIsAccounted(c);
    assert ResolveNamedTarget(c, moved, "east") == Ok(Session("east", "site-2", false));
    assert Reachable(c, moved, HELD_LEASE);
    assert Home(c, moved.routes, HELD_LEASE) == NsKey("site-2", "team-a");
    StrayHomeOrphans(c, HELD, "a", moved, HELD_KEY);
  }

  /** So does a pass after an edit of the clusterRef. */
  lemma ClusterRefIsNeeded(c: Config)
    ensures var edit := Edit("a", LONE_SPEC.(clusterRef := "west"), 2, false);
            && Allowed(HELD, edit) && NamesGiven(TWO_CLUSTERS)
            && Orphaned(Steps(c, HELD, [edit, Step.Pass("a", TWO_CLUSTERS)]), "uid-a", HELD_KEY)
  {
    var edit := Edit("a", LONE_SPEC.(clusterRef := "west"), 2, false);
    HeldIsAccounted(c);
    StepMovesOn(c, HELD, edit);
    var s := Perform(c, HELD, edit);
    var l := s.w.leases["a"];
    assert |"west"| == 4 && |LOCAL_CLUSTER_NAME| == 5 && CleanupTarget(l) == "west";
    assert ResolveNamedTarget(c, TWO_CLUSTERS, "west") == Ok(Session("west", "site-2", false));
    assert Home(c, ROUTES, l) == NsKey("site-2", "team-a");
    StrayHomeOrphans(c, s, "a", TWO_CLUSTERS, HELD_KEY);
    TwoSteps(c, HELD, edit, Step.Pass("a", TWO_CLUSTERS));
  }

  /** And a pass after cleanup was forced. */
  lemma UnforcedCleanupIsNeeded(c: Config)
    ensures var edit := Edit("a", LONE_SPEC, 2, true);
            && Allowed(HELD, edit) && NamesGiven(TWO_CLUSTERS)
            && Orphaned(Steps(c, HELD, [edit, Step.Pass("a", TWO_CLUSTERS)]), "uid-a", HELD_KEY)
  {
    var edit := Edit("a", LONE_SPEC, 2, true);
    HeldIsAccounted(c);
    StepMovesOn(c, HELD, edit);
    LaxCleanupOrphans(c, Perform(c, HELD, edit), "a", TWO_CLUSTERS, HELD_KEY);
    TwoSteps(c, HELD, edit, Step.Pass("a", TWO_CLUSTERS));
  }

  /** And, in mode BestEffort, a pass that cannot reach the target. */
  lemma StrictModeIsNeeded(c: Config)
    ensures var edit := Edit("a", LONE_SPEC.(cleanupMode := Some(BestEffort)), 2, false);
            && Allowed(HELD, edit) && NamesGiven(GOOD_LUCK)
            && Orphaned(Steps(c, HELD, [edit, Step.Pass("a", GOOD_LUCK)]), "uid-a", HELD_KEY)
  {
    var edit := Edit("a", LONE_SPEC.(cleanupMode := Some(BestEffort)), 2, false);
    HeldIsAccounted(c);
    StepMovesOn(c, HELD, edit);
    var s := Perform(c, HELD, edit);
    assert CleanupTarget(s.w.leases["a"]) == "east" && ResolveNamedTarget(c, GOOD_LUCK, "east").Err?;
    LaxCleanupOrphans(c, s, "a", GOOD_LUCK, HELD_KEY);
    TwoSteps(c, HELD, edit, Step.Pass("a", GOOD_LUCK));
  }

  lemma TwoSteps(c: Config, s: System, p: Step, q: Step)
    ensures Steps(c, s, [p, q]) == Perform(c, Perform(c, s, p), q)
  {
    assert [p, q][1..] == [q] && [q][1..] == [];
    assert Steps(c, Perform(c, s, p), [q]) == Steps(c, Perform(c, Perform(c, s, p), q), []);
  }
}
