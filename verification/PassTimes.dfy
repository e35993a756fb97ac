/** What one reconcile pass does to the stored timestamps of its lease: it leaves
    them, or makes them those of one pass event of `LeaseTiming`, with the terms
    that its spec and policy resolve to. */
module PassTimes {
  import opened Api
  import opened LeaseTiming
  import opened LeaseStatusChanges
  import opened Policy
  import opened Reconciliation

  /** The event of a pass over a live lease whose spec and policy are accepted. */
  function PassEvent(env: Env, l: Lease): Option<Event> {
    if l.meta.deleting || !l.meta.finalizer || !ValidSpec(l) || FetchPolicy(env, l).Err? then None
    else
      var r := Resolve(l.spec, FetchPolicy(env, l).value);
      if r.Err? then None
      else Some(Event.Pass(r.value.ttl, r.value.maxTTL, r.value.renewable, r.value.idleTTL, env.now))
  }

  /** The timestamps the pass works out. */
  function WorkedOut(env: Env, l: Lease): Timing {
    if PassEvent(env, l).None? then l.status.timing
    else Apply(l.status.timing, l.meta.creationTimestamp, PassEvent(env, l).value)
  }

  /** The timestamps of a live pass are one event of `LeaseTiming`. */
  lemma TimedIsOnePass(env: Env, l: Lease, r: Resolved)
    requires ValidTTLs(r.ttl, r.maxTTL)
    ensures Timed(env, l, r).status.timing
            == Apply(l.status.timing, l.meta.creationTimestamp, Event.Pass(r.ttl, r.maxTTL, r.renewable, r.idleTTL, env.now))
  {
  }

  /** The working copy l has the clock `t1`, the stored lease that or `t0`. */
  predicate OnTime(t0: Timing, t1: Timing, w: World, l: Lease) {
    && Clock(l.status.timing) == Clock(t1)
    && (l.meta.name in w.leases ==> Clock(w.leases[l.meta.name].status.timing) in {Clock(t0), Clock(t1)})
  }

  lemma LocateKeepsTimes(c: Config, env: Env, l: Lease, pol: Option<LeasePolicy>)
    ensures Locate(c, env, l, pol).l.status.timing == l.status.timing
    ensures Locate(c, env, l, pol).l.meta == l.meta
  {
  }

  lemma FurnishKeepsTimes(env: Env, w: World, l: Lease, sess: Session, name: string, r: Resolved)
    ensures var p := Furnish(env, w, l, sess, name, r);
            p.w.leases == w.leases && p.l.status.timing == l.status.timing && p.l.meta == l.meta
  {
  }

  lemma WriteIsOnTime(t0: Timing, t1: Timing, w: World, l: Lease)
    requires OnTime(t0, t1, w, l)
    ensures OnTime(t0, t1, WriteStatus(w, l), l)
    ensures l.meta.name in w.leases ==>
              l.meta.name in WriteStatus(w, l).leases && WriteStatus(w, l).leases[l.meta.name].status == l.status
              && WriteStatus(w, l).leases[l.meta.name].meta == w.leases[l.meta.name].meta
  {
  }

  /** The lease is stored under its own name. */
  predicate InPlace(w: World, l: Lease) {
    l.meta.name in w.leases && w.leases[l.meta.name].meta == l.meta
  }

  lemma RereadIsOnTime(t0: Timing, t1: Timing, w: World, l: Lease, e: Option<Effective>, cluster: string)
    requires OnTime(t0, t1, w, l) && InPlace(w, l)
    ensures var again := Reread(WriteStatus(w, l), l, e, cluster);
            OnTime(t0, t1, WriteStatus(w, l), again) && InPlace(WriteStatus(w, l), again) && again.meta == l.meta
  {
  }

  lemma EnsureKeepsLeases(c: Config, env: Env, w: World, l: Lease, sess: Session)
    ensures EnsureNamespace(c, env, w, l, sess).w.leases == w.leases
  {
  }

  lemma RecordIsOnTime(t0: Timing, t1: Timing, env: Env, w: World, l: Lease, sess: Session, r: Resolved)
    requires OnTime(t0, t1, w, l) && InPlace(w, l)
    ensures var p := RecordNamespace(env, w, l, sess, r); OnTime(t0, t1, p.w, p.l) && InPlace(p.w, p.l) && p.l.meta == l.meta
  {
    WriteIsOnTime(t0, t1, w, l);
    RereadIsOnTime(t0, t1, w, l, Some(ToEffective(r)), sess.name);
    FurnishKeepsTimes(env, WriteStatus(w, l), Reread(WriteStatus(w, l), l, Some(ToEffective(r)), sess.name), sess,
                      l.status.namespace, r);
  }

  lemma ProvisionIsOnTime(t0: Timing, t1: Timing, c: Config, env: Env, w: World, l: Lease, sess: Session, wasReady: bool,
                          r: Resolved)
    requires OnTime(t0, t1, w, l) && InPlace(w, l)
    ensures var p := Provision(c, env, w, l, sess, wasReady, r); OnTime(t0, t1, p.w, p.l) && InPlace(p.w, p.l) && p.l.meta == l.meta
  {
    var l1 := if !wasReady && l.status.phase != Failed then Mark(l, ProvisioningStatus(l.status, l.meta.generation)) else l;
    assert l1.status.timing == l.status.timing && l1.meta == l.meta;
    EnsureKeepsLeases(c, env, w, l1, sess);
    var e := EnsureNamespace(c, env, w, l1, sess);
    if e.name.None? {
    } else if l1.status.namespace == e.name.value {
      FurnishKeepsTimes(env, e.w, l1, sess, e.name.value, r);
    } else {
      RecordIsOnTime(t0, t1, env, e.w, l1.(status := l1.status.(namespace := e.name.value)), sess, r);
    }
  }

  lemma SettleIsOnTime(t0: Timing, t1: Timing, c: Config, env: Env, w: World, l: Lease, sess: Session, previous: Phase,
                       wasReady: bool, r: Resolved)
    requires OnTime(t0, t1, w, l) && InPlace(w, l)
    ensures var p := Settle(c, env, w, l, sess, previous, wasReady, r); OnTime(t0, t1, p.w, p.l) && InPlace(p.w, p.l) && p.l.meta == l.meta
  {
    var l1 := OnCluster(l, sess.name);
    assert l1.status.timing == l.status.timing && l1.meta == l.meta;
    if !WritesClusterFirst(previous, l1) {
      ProvisionIsOnTime(t0, t1, c, env, w, l1, sess, wasReady, r);
    } else {
      WriteIsOnTime(t0, t1, w, l1);
      RereadIsOnTime(t0, t1, w, l1, Some(ToEffective(r)), sess.name);
      ProvisionIsOnTime(t0, t1, c, env, WriteStatus(w, l1),
                        Reread(WriteStatus(w, l1), l1, Some(ToEffective(r)), sess.name), sess, wasReady, r);
    }
  }

  lemma ActiveIsOnTime(t0: Timing, t1: Timing, c: Config, env: Env, w: World, l: Lease, previous: Phase, r: Resolved,
                       pol: Option<LeasePolicy>)
    requires OnTime(t0, t1, w, l) && InPlace(w, l)
    ensures var p := ReconcileActive(c, env, w, l, previous, r, pol); OnTime(t0, t1, p.w, p.l) && InPlace(p.w, p.l) && p.l.meta == l.meta
  {
    LocateKeepsTimes(c, env, l, pol);
    var loc := Locate(c, env, l, pol);
    match loc
    case Halted(_, _) =>
    case Unavailable(l1, reason) =>
      assert TargetError(env, l1, reason).0.status.timing == l1.status.timing;
    case Found(l1, sess) =>
      SettleIsOnTime(t0, t1, c, env, w, l1, sess, previous, ReadyTrue(l.status), r);
  }

  lemma CleanupKeepsTimes(c: Config, env: Env, w: World, l: Lease)
    ensures var cl := CleanupEnvironment(c, env, w, l);
            cl.w.leases == w.leases && cl.l.status.timing == l.status.timing && cl.l.meta == l.meta
  {
  }

  /** After the final patch. */
  lemma PatchIsOnTime(t0: Timing, t1: Timing, w: World, l: Lease, before: LeaseStatus, ok: bool)
    requires OnTime(t0, t1, w, l) && InPlace(w, l) && before.timing == t0
    ensures var w' := PatchStatus(w, l, before, ok);
            OnTime(t0, t1, w', l) && InPlace(w', l)
            && (ok ==> Clock(w'.leases[l.meta.name].status.timing) == Clock(t1))
  {
    WriteIsOnTime(t0, t1, w, l);
  }

  /** A pass over the stored lease a left its timestamps, or made them those it
      worked out; the latter for certain when the final status write succeeds. */
  predicate TimesOf(env: Env, a: Lease, w': World) {
    a.meta.name in w'.leases ==>
      var t := Clock(w'.leases[a.meta.name].status.timing);
      t in {Clock(a.status.timing), Clock(WorkedOut(env, a))} && (env.finalWriteOk ==> t == Clock(WorkedOut(env, a)))
  }

  lemma CloseExpiredTimes(env: Env, a: Lease, w: World, cl: Cleaned)
    requires a.meta.name in w.leases && w.leases[a.meta.name] == a && cl.w.leases == w.leases
    requires cl.l.meta == a.meta && Clock(cl.l.status.timing) == Clock(WorkedOut(env, a))
    ensures TimesOf(env, a, CloseExpired(env, cl, a.status).0)
  {
    var t0, t1 := a.status.timing, WorkedOut(env, a);
    var l := Observed(if cl.outcome != CleanedUp then UnfinishedLease(cl.l, cl.outcome, true)
                      else Mark(cl.l, CleanedStatus(cl.l.status, cl.l.meta.generation)));
    assert l.status.timing == cl.l.status.timing && l.meta == a.meta;
    PatchIsOnTime(t0, t1, cl.w, l, a.status, env.finalWriteOk);
  }

  lemma CloseDeletedTimes(env: Env, a: Lease, w: World, cl: Cleaned)
    requires a.meta.name in w.leases && w.leases[a.meta.name] == a && cl.w.leases == w.leases
    requires cl.l.meta == a.meta && Clock(cl.l.status.timing) == Clock(WorkedOut(env, a))
    ensures TimesOf(env, a, CloseDeleted(env, cl, a.status).0)
  {
    var t0, t1 := a.status.timing, WorkedOut(env, a);
    var l := if cl.outcome != CleanedUp then UnfinishedLease(cl.l, cl.outcome, false)
             else Mark(cl.l, CleanedStatus(cl.l.status, cl.l.meta.generation));
    assert l.status.timing == cl.l.status.timing && l.meta == a.meta;
    PatchIsOnTime(t0, t1, cl.w, l, a.status, env.finalWriteOk);
  }

  lemma ExpiredTimes(c: Config, env: Env, a: Lease, w: World, l: Lease)
    requires a.meta.name in w.leases && w.leases[a.meta.name] == a
    requires l.meta == a.meta && Clock(l.status.timing) == Clock(WorkedOut(env, a))
    ensures TimesOf(env, a, ReconcileExpired(c, env, w, l, a.status).0)
  {
    var t := l.status.timing;
    var reason := if t.expirationReason != NoReason then t.expirationReason
                  else ResolveExpirationReason(env.now, t.expiresAt.GetOr(0), t.idleExpiresAt);
    var l1 := Mark(l, ExpiredStatus(l.status, reason, l.meta.generation));
    CleanupKeepsTimes(c, env, w, l1);
    CloseExpiredTimes(env, a, w, CleanupEnvironment(c, env, w, l1));
  }

  lemma DeletedTimes(c: Config, env: Env, a: Lease, w: World)
    requires a.meta.name in w.leases && w.leases[a.meta.name] == a && a.meta.deleting
    ensures TimesOf(env, a, ReconcileDelete(c, env, w, a).0)
  {
    if a.meta.finalizer {
      var reason := if a.status.timing.expirationReason != SourceClosed then ManualExpiration else SourceClosed;
      var l0 := a.(status := a.status.(timing := a.status.timing.(expirationReason := reason)));
      var l1 := Mark(l0, CleaningStatus(l0.status, a.meta.generation));
      CleanupKeepsTimes(c, env, w, l1);
      CloseDeletedTimes(env, a, w, CleanupEnvironment(c, env, w, l1));
    }
  }

  lemma RejectedTimes(env: Env, a: Lease, w: World, r: Reason)
    requires a.meta.name in w.leases && w.leases[a.meta.name] == a && PassEvent(env, a).None?
    ensures TimesOf(env, a, Reject(env, w, a, a.status, r).0)
  {
    PatchIsOnTime(a.status.timing, a.status.timing, w, Observed(Mark(a, FailedStatus(a.status, r, a.meta.generation))),
                  a.status, env.finalWriteOk);
  }

  lemma ActiveTimes(c: Config, env: Env, a: Lease, w: World, l: Lease, pol: Option<LeasePolicy>, r: Resolved)
    requires a.meta.name in w.leases && w.leases[a.meta.name] == a
    requires l.meta == a.meta && Clock(l.status.timing) == Clock(WorkedOut(env, a))
    ensures var p := ReconcileActive(c, env, w, l, a.status.phase, r, pol);
            TimesOf(env, a, PatchStatus(p.w, Observed(p.l), a.status, env.finalWriteOk))
  {
    ActiveIsOnTime(a.status.timing, WorkedOut(env, a), c, env, w, l, a.status.phase, r, pol);
    var p := ReconcileActive(c, env, w, l, a.status.phase, r, pol);
    assert Observed(p.l).meta == p.l.meta && Observed(p.l).status.timing == p.l.status.timing;
    PatchIsOnTime(a.status.timing, WorkedOut(env, a), p.w, Observed(p.l), a.status, env.finalWriteOk);
  }

  lemma AcceptedTimes(c: Config, env: Env, a: Lease, w: World, pol: Option<LeasePolicy>, r: Resolved)
    requires a.meta.name in w.leases && w.leases[a.meta.name] == a
    requires PassEvent(env, a).Some? && FetchPolicy(env, a) == Ok(pol) && Resolve(a.spec, pol) == Ok(r)
    ensures TimesOf(env, a, ReconcileLive(c, env, w, a).0)
  {
    ResolvedObeysPolicy(a.spec, pol);
    TimedIsOnePass(env, a, r);
    var l := Timed(env, a, r);
    assert l.status.timing == WorkedOut(env, a) && l.meta == a.meta;
    if IsExpired(l.status.timing, env.now) {
      ExpiredTimes(c, env, a, w, l);
    } else {
      ActiveTimes(c, env, a, w, l, pol, r);
    }
  }

  /** Every pass. */
  lemma PassKeepsTime(c: Config, env: Env, w: World, name: string)
    requires name in w.leases && w.leases[name].meta.name == name
    ensures TimesOf(env, w.leases[name], Reconcile(c, env, w, name).0)
  {
    var a := w.leases[name];
    var pol := FetchPolicy(env, a);
    if a.meta.deleting {
      DeletedTimes(c, env, a, w);
    } else if a.meta.finalizer {
      if !ValidSpec(a) {
        RejectedTimes(env, a, w, InvalidConfiguration);
      } else if pol.Err? {
        RejectedTimes(env, a, w, pol.error);
      } else if Resolve(a.spec, pol.value).Err? {
        RejectedTimes(env, a, w, PolicyViolation);
      } else {
        AcceptedTimes(c, env, a, w, pol.value, Resolve(a.spec, pol.value).value);
      }
    }
  }
}
