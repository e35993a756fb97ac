/** Whole runs of the system: the controller, users, the touch command, the
    webhook and everyone else who writes namespaces take turns on the stores.
    The assumptions on the outside are in `Allowed`; those that the no-orphan
    claim needs on top are in `Careful`. */
module Lifecycle {
  import opened Api
  import opened LeaseTiming
  import opened LeaseStatusChanges
  import opened PlacementDecision
  import opened Ownership
  import opened Reconciliation
  import opened PassEffects
  import opened PassTimes

  /** The stores, and every UID the lease API has handed out. */
  datatype System = System(w: World, used: set<string>)

  datatype Step =
    | Pass(name: string, env: Env)
    | Create(lease: Lease)
    | UserDelete(name: string)
    | Edit(name: string, spec: LeaseSpec, generation: int, forceCleanup: bool)
    | TouchLease(name: string, at: int, idleTTL: int)
    | MarkSourceClosed(name: string)
    | Outside(namespaces: map<NsKey, Namespace>)

  function LeaseUID(ns: Namespace): string {
    Lookup(ns.annotations, ANNOTATION_LEASE_UID)
  }

  function WithTiming(l: Lease, t: Timing): Lease {
    l.(status := l.status.(timing := t))
  }

  function Perform(c: Config, s: System, step: Step): System {
    match step
    case Pass(name, env) => s.(w := Reconcile(c, env, s.w, name).0)
    case Create(l) => System(s.w.(leases := s.w.leases[l.meta.name := l]), s.used + {l.meta.uid})
    case UserDelete(name) => s.(w := DeleteLease(s.w, name))
    case Edit(name, spec, generation, forceCleanup) =>
      if name !in s.w.leases then s
      else
        var l := s.w.leases[name];
        Put(s, l.(spec := spec, meta := l.meta.(generation := generation, forceCleanupAcknowledged := forceCleanup)))
    case TouchLease(name, at, idleTTL) =>
      if name !in s.w.leases then s
      else
        var l := s.w.leases[name];
        var t := Touched(l.status.timing, at, idleTTL);
        if t.Err? then s else Put(s, WithTiming(l, t.value))
    case MarkSourceClosed(name) =>
      if name !in s.w.leases then s
      else
        var l := s.w.leases[name];
        Put(s, WithTiming(l, l.status.timing.(expirationReason := SourceClosed)))
    case Outside(namespaces) => s.(w := s.w.(namespaces := namespaces))
  }

  function Put(s: System, l: Lease): System {
    s.(w := s.w.(leases := s.w.leases[l.meta.name := l]))
  }

  function Steps(c: Config, s: System, steps: seq<Step>): System
    decreases |steps|
  {
    if steps == [] then s else Steps(c, Perform(c, s, steps[0]), steps[1..])
  }

  // ------------------------------------------------------------- assumptions

  /** New leases have a fresh UID and an empty status; edits leave metadata and
      status alone. */
  predicate Allowed(s: System, step: Step) {
    match step
    case Pass(_, env) => NamesGiven(env)
    case Create(l) =>
      && l.meta.name !in s.w.leases && l.meta.uid != "" && l.meta.uid !in s.used
      && l.status == NO_STATUS && !l.meta.deleting
    case _ => true
  }

  predicate AllowedRun(c: Config, s: System, steps: seq<Step>)
    decreases |steps|
  {
    steps != [] ==> Allowed(s, steps[0]) && AllowedRun(c, Perform(c, s, steps[0]), steps[1..])
  }

  /** Nobody outside puts the UID on a namespace that did not carry it. */
  predicate NoForgery(uid: string, before: map<NsKey, Namespace>, after: map<NsKey, Namespace>) {
    forall k :: k in after && LeaseUID(after[k]) == uid ==> k in before && LeaseUID(before[k]) == uid
  }

  predicate Unmarked(uid: string, namespaces: map<NsKey, Namespace>) {
    forall k :: k in namespaces ==> LeaseUID(namespaces[k]) != uid
  }

  /** What the lease with this UID, and only it, needs to leave nothing behind: its
      passes find every target on its cluster, insist on cleanup, and get to record
      a namespace they claim; its clusterRef is not edited; and its UID is neither
      in use before nor forged after it is created. */
  predicate Careful(routes: map<string, string>, uid: string, s: System, step: Step) {
    match step
    case Pass(n, env) =>
      n in s.w.leases && s.w.leases[n].meta.uid == uid ==>
        env.routes == routes && Strict(s.w.leases[n]) && Durable(env, s.w.leases[n])
    case Create(l) => l.meta.uid == uid ==> Unmarked(uid, s.w.namespaces)
    case Edit(n, spec, _, _) => KeepsRef(s, step, uid)
    case Outside(namespaces) => NoForgery(uid, s.w.namespaces, namespaces)
    case _ => true
  }

  /** The step does not edit the clusterRef of the lease with this UID. */
  predicate KeepsRef(s: System, step: Step, uid: string) {
    step.Edit? && step.name in s.w.leases && s.w.leases[step.name].meta.uid == uid ==>
      step.spec.clusterRef == s.w.leases[step.name].spec.clusterRef
  }

  predicate CarefulRun(c: Config, routes: map<string, string>, uid: string, s: System, steps: seq<Step>)
    decreases |steps|
  {
    steps != [] ==>
      Careful(routes, uid, s, steps[0]) && CarefulRun(c, routes, uid, Perform(c, s, steps[0]), steps[1..])
  }

  // --------------------------------------------------------------- invariants

  /** Every stored lease is healthy, stored under its name, with its own UID. */
  predicate WellFormed(s: System) {
    && "" !in s.used
    && (forall n :: n in s.w.leases ==>
          s.w.leases[n].meta.name == n && s.w.leases[n].meta.uid in s.used && Healthy(s.w.leases[n]))
    && (forall n, m :: n in s.w.leases && m in s.w.leases && n != m ==>
          s.w.leases[n].meta.uid != s.w.leases[m].meta.uid)
  }

  /** The lease n holds the namespace k: it carries n's UID, n has its finalizer
      and has recorded k. */
  predicate HeldBy(c: Config, routes: map<string, string>, w: World, k: NsKey, n: string) {
    && n in w.leases && k in w.namespaces && w.leases[n].meta.uid == LeaseUID(w.namespaces[k])
    && w.leases[n].meta.finalizer && Recorded(c, routes, w.leases[n], k)
  }

  /** Once the UID is handed out, every namespace that carries it is held by its
      lease. */
  ghost predicate Accounted(c: Config, routes: map<string, string>, uid: string, s: System) {
    uid in s.used ==>
      forall k :: k in s.w.namespaces && LeaseUID(s.w.namespaces[k]) == uid ==> exists n :: HeldBy(c, routes, s.w, k, n)
  }

  /** The same lease later on. */
  predicate Onward(a: Lease, b: Lease) {
    b.meta.uid == a.meta.uid ==> StaysPut(a, b) && SameBirth(a, b)
  }

  ghost predicate AllOnward(s: System, s': System) {
    && s.used <= s'.used
    && (forall n :: n in s'.w.leases ==> n in s.w.leases || s'.w.leases[n].meta.uid !in s.used)
    && (forall n :: n in s'.w.leases && n in s.w.leases ==>
          && Onward(s.w.leases[n], s'.w.leases[n])
          && (s'.w.leases[n].meta.uid == s.w.leases[n].meta.uid || s'.w.leases[n].meta.uid !in s.used))
  }

  lemma OthersLookup(w: World, w': World, name: string, n: string)
    requires OthersKept(w, w', name) && n != name
    ensures (n in w'.leases <==> n in w.leases) && (n in w.leases ==> w'.leases[n] == w.leases[n])
  {
    assert n in w.leases <==> n in w.leases - {name};
    assert n in w'.leases <==> n in w'.leases - {name};
    if n in w.leases {
      assert w.leases[n] == (w.leases - {name})[n] == (w'.leases - {name})[n];
    }
  }

  /** The lease stored under a name goes on as b, or leaves. */
  lemma OneMovesOn(s: System, w': World, name: string)
    requires WellFormed(s) && name in s.w.leases && OthersKept(s.w, w', name)
    requires name in w'.leases ==>
               var a, b := s.w.leases[name], w'.leases[name];
               b.meta.name == name && b.meta.uid == a.meta.uid && Healthy(b) && Onward(a, b)
    ensures WellFormed(s.(w := w')) && AllOnward(s, s.(w := w'))
  {
    forall n | n != name
      ensures (n in w'.leases <==> n in s.w.leases) && (n in s.w.leases ==> w'.leases[n] == s.w.leases[n])
    {
      OthersLookup(s.w, w', name, n);
    }
    assert WellFormed(s.(w := w'));
  }

  lemma PassMovesOn(c: Config, s: System, name: string, env: Env)
    requires WellFormed(s) && NamesGiven(env)
    ensures var s' := Perform(c, s, Step.Pass(name, env)); WellFormed(s') && AllOnward(s, s')
  {
    if name in s.w.leases {
      ReconcileEffect(c, env, s.w, name);
      OneMovesOn(s, Reconcile(c, env, s.w, name).0, name);
    }
  }

  lemma DeleteMovesOn(s: System, name: string)
    requires WellFormed(s)
    ensures var s' := s.(w := DeleteLease(s.w, name)); WellFormed(s') && AllOnward(s, s')
  {
    if name in s.w.leases {
      var w' := DeleteLease(s.w, name);
      assert w'.leases - {name} == s.w.leases - {name};
      OneMovesOn(s, w', name);
    }
  }

  lemma PutMovesOn(s: System, l: Lease)
    requires WellFormed(s) && l.meta.name in s.w.leases && Healthy(l)
    requires l.meta.uid == s.w.leases[l.meta.name].meta.uid && Onward(s.w.leases[l.meta.name], l)
    ensures WellFormed(Put(s, l)) && AllOnward(s, Put(s, l))
  {
    assert Put(s, l).w.leases - {l.meta.name} == s.w.leases - {l.meta.name};
    OneMovesOn(s, Put(s, l).w, l.meta.name);
  }

  lemma FreshIsHealthy(l: Lease)
    requires l.status == NO_STATUS
    ensures Healthy(l)
  {
  }

  lemma CreateMovesOn(c: Config, s: System, l: Lease)
    requires WellFormed(s) && Allowed(s, Create(l))
    ensures var s' := Perform(c, s, Create(l)); WellFormed(s') && AllOnward(s, s')
  {
    FreshIsHealthy(l);
    var s' := Perform(c, s, Create(l));
    forall n | n in s'.w.leases && n != l.meta.name ensures n in s.w.leases && s'.w.leases[n] == s.w.leases[n] {
    }
    assert s'.w.leases[l.meta.name] == l;
  }

  lemma TouchIsHealthy(l: Lease, at: int, idleTTL: int)
    requires Healthy(l)
    ensures var t := Touched(l.status.timing, at, idleTTL);
            t.Ok? ==> Healthy(WithTiming(l, t.value)) && Onward(l, WithTiming(l, t.value))
    ensures var closed := WithTiming(l, l.status.timing.(expirationReason := SourceClosed));
            Healthy(closed) && Onward(l, closed)
  {
    ApplyKeepsOrder(l.status.timing, None, Touch(at, idleTTL));
    ApplyKeepsOrder(l.status.timing, None, CloseSource);
  }

  /** Every allowed step keeps the system well formed and no lease goes back on
      its namespace, its cluster or its birth. */
  lemma StepMovesOn(c: Config, s: System, step: Step)
    requires WellFormed(s) && Allowed(s, step)
    ensures WellFormed(Perform(c, s, step)) && AllOnward(s, Perform(c, s, step))
  {
    match step
    case Pass(name, env) => PassMovesOn(c, s, name, env);
    case Create(l) => CreateMovesOn(c, s, l);
    case UserDelete(name) => DeleteMovesOn(s, name);
    case Outside(_) =>
    case Edit(name, spec, generation, forceCleanup) =>
      if name in s.w.leases {
        var l := s.w.leases[name];
        PutMovesOn(s, l.(spec := spec, meta := l.meta.(generation := generation, forceCleanupAcknowledged := forceCleanup)));
      }
    case TouchLease(name, at, idleTTL) =>
      if name in s.w.leases {
        var l := s.w.leases[name];
        TouchIsHealthy(l, at, idleTTL);
        var t := Touched(l.status.timing, at, idleTTL);
        if t.Ok? { PutMovesOn(s, WithTiming(l, t.value)); }
      }
    case MarkSourceClosed(name) =>
      if name in s.w.leases {
        var l := s.w.leases[name];
        TouchIsHealthy(l, 0, 0);
        PutMovesOn(s, WithTiming(l, l.status.timing.(expirationReason := SourceClosed)));
      }
  }

  // ---------------------------------------------------- no orphaned namespaces

  lemma StillHeld(c: Config, routes: map<string, string>, s: System, s': System, k: NsKey, n: string)
    requires HeldBy(c, routes, s.w, k, n)
    requires k in s'.w.namespaces && LeaseUID(s'.w.namespaces[k]) == LeaseUID(s.w.namespaces[k])
    requires n in s'.w.leases && s'.w.leases[n].meta.uid == s.w.leases[n].meta.uid && s'.w.leases[n].meta.finalizer
    requires Onward(s.w.leases[n], s'.w.leases[n]) && s'.w.leases[n].spec.clusterRef == s.w.leases[n].spec.clusterRef
    ensures HeldBy(c, routes, s'.w, k, n)
  {
  }

  /** The holder of a namespace still holds it after a pass that leaves the UID on
      that namespace alone. */
  lemma PassKeepsHold(c: Config, routes: map<string, string>, s: System, name: string, env: Env, k: NsKey, n: string)
    requires WellFormed(s) && NamesGiven(env) && name in s.w.leases && HeldBy(c, routes, s.w, k, n)
    requires Careful(routes, LeaseUID(s.w.namespaces[k]), s, Step.Pass(name, env))
    ensures var s' := Perform(c, s, Step.Pass(name, env));
            k in s'.w.namespaces && LeaseUID(s'.w.namespaces[k]) == LeaseUID(s.w.namespaces[k]) ==> HeldBy(c, routes, s'.w, k, n)
  {
    ReconcileEffect(c, env, s.w, name);
    var s' := Perform(c, s, Step.Pass(name, env));
    if n != name {
      OthersLookup(s.w, s'.w, name, n);
    } else if Released(s.w.leases[n], s'.w) {
      assert false;
    } else {
      assert Later(s.w.leases[n], s'.w.leases[n]);
    }
  }

  lemma MarksElsewhere(a: Lease, before: map<NsKey, Namespace>, after: map<NsKey, Namespace>, k: NsKey, k': NsKey)
    requires OnlyAt(before, after, k) && k' != k && k' in after
    ensures k' in before && before[k'] == after[k']
  {
    assert k' in after - {k};
    assert before[k'] == (before - {k})[k'] == (after - {k})[k'];
  }

  /** A UID new on a namespace is that of the lease whose pass put it there. */
  lemma PassStampsItsOwn(c: Config, s: System, name: string, env: Env, k: NsKey) returns (k0: NsKey)
    requires WellFormed(s) && NamesGiven(env) && name in s.w.leases
    requires k in Reconcile(c, env, s.w, name).0.namespaces
    requires k !in s.w.namespaces || LeaseUID(s.w.namespaces[k]) != LeaseUID(Reconcile(c, env, s.w, name).0.namespaces[k])
    ensures k0 == k && ClaimEffect(c, env, s.w.leases[name], s.w, Reconcile(c, env, s.w, name).0, k0)
    ensures LeaseUID(Reconcile(c, env, s.w, name).0.namespaces[k]) == s.w.leases[name].meta.uid
  {
    var a, w' := s.w.leases[name], Reconcile(c, env, s.w, name).0;
    ReconcileEffect(c, env, s.w, name);
    if x :| ClaimEffect(c, env, a, s.w, w', x) {
      k0 := x;
      if k != k0 {
        MarksElsewhere(a, s.w.namespaces, w'.namespaces, k0, k);
        assert false;
      }
    } else {
      assert false;
    }
  }

  lemma PassAccounts(c: Config, routes: map<string, string>, uid: string, s: System, name: string, env: Env, k: NsKey)
    requires WellFormed(s) && NamesGiven(env) && name in s.w.leases && Careful(routes, uid, s, Step.Pass(name, env))
    requires Accounted(c, routes, uid, s) && uid in s.used
    requires k in Perform(c, s, Step.Pass(name, env)).w.namespaces
    requires LeaseUID(Perform(c, s, Step.Pass(name, env)).w.namespaces[k]) == uid
    ensures exists n :: HeldBy(c, routes, Perform(c, s, Step.Pass(name, env)).w, k, n)
  {
    var s' := Perform(c, s, Step.Pass(name, env));
    if k in s.w.namespaces && LeaseUID(s.w.namespaces[k]) == uid {
      var n :| HeldBy(c, routes, s.w, k, n);
      PassKeepsHold(c, routes, s, name, env, k, n);
    } else {
      var k0 := PassStampsItsOwn(c, s, name, env, k);
      PassMovesOn(c, s, name, env);
      assert HeldBy(c, routes, s'.w, k, name);
    }
  }

  /** A step that is careful for one lease keeps its namespaces accounted for,
      whatever the other leases do. */
  lemma StepAccounts(c: Config, routes: map<string, string>, uid: string, s: System, step: Step)
    requires WellFormed(s) && Allowed(s, step) && Careful(routes, uid, s, step) && Accounted(c, routes, uid, s)
    ensures Accounted(c, routes, uid, Perform(c, s, step))
  {
    var s' := Perform(c, s, step);
    forall k | uid in s'.used && k in s'.w.namespaces && LeaseUID(s'.w.namespaces[k]) == uid
      ensures exists n :: HeldBy(c, routes, s'.w, k, n)
    {
      if step.Pass? && step.name in s.w.leases {
        PassAccounts(c, routes, uid, s, step.name, step.env, k);
      } else {
        OtherStepAccounts(c, routes, uid, s, step, k);
      }
    }
  }

  lemma OtherStepAccounts(c: Config, routes: map<string, string>, uid: string, s: System, step: Step, k: NsKey)
    requires WellFormed(s) && Allowed(s, step) && Careful(routes, uid, s, step) && Accounted(c, routes, uid, s)
    requires !(step.Pass? && step.name in s.w.leases) && uid in Perform(c, s, step).used
    requires k in Perform(c, s, step).w.namespaces && LeaseUID(Perform(c, s, step).w.namespaces[k]) == uid
    ensures exists n :: HeldBy(c, routes, Perform(c, s, step).w, k, n)
  {
    assert k in s.w.namespaces && LeaseUID(s.w.namespaces[k]) == uid;
    assert uid in s.used;
    var n :| HeldBy(c, routes, s.w, k, n);
    OtherStepKeepsHold(c, routes, s, step, k, n);
  }

  /** No step but a pass takes a lease with a finalizer out of the store. */
  lemma OtherStepKeepsLease(c: Config, s: System, step: Step, n: string)
    requires WellFormed(s) && Allowed(s, step) && !(step.Pass? && step.name in s.w.leases)
    requires n in s.w.leases && s.w.leases[n].meta.finalizer
    ensures var s' := Perform(c, s, step);
            n in s'.w.leases && s'.w.leases[n].meta.uid == s.w.leases[n].meta.uid && s'.w.leases[n].meta.finalizer
  {
    match step
    case Edit(name, spec, generation, forceCleanup) =>
      if name in s.w.leases {
        var l := s.w.leases[name];
        PutKeepsLease(s, l.(spec := spec, meta := l.meta.(generation := generation, forceCleanupAcknowledged := forceCleanup)), n);
      }
    case TouchLease(name, at, idleTTL) =>
      if name in s.w.leases {
        var t := Touched(s.w.leases[name].status.timing, at, idleTTL);
        if t.Ok? { PutKeepsLease(s, WithTiming(s.w.leases[name], t.value), n); }
      }
    case MarkSourceClosed(name) =>
      if name in s.w.leases {
        var l := s.w.leases[name];
        PutKeepsLease(s, WithTiming(l, l.status.timing.(expirationReason := SourceClosed)), n);
      }
    case _ =>
  }

  lemma PutKeepsLease(s: System, l: Lease, n: string)
    requires n in s.w.leases && l.meta.name in s.w.leases
    requires l.meta.uid == s.w.leases[l.meta.name].meta.uid && l.meta.finalizer == s.w.leases[l.meta.name].meta.finalizer
    ensures var s' := Put(s, l);
            n in s'.w.leases && s'.w.leases[n].meta.uid == s.w.leases[n].meta.uid
            && s'.w.leases[n].meta.finalizer == s.w.leases[n].meta.finalizer
  {
  }

  /** No step but an edit changes the clusterRef of a lease. */
  lemma OtherStepKeepsRef(c: Config, s: System, step: Step, n: string)
    requires WellFormed(s) && Allowed(s, step) && n in s.w.leases && n in Perform(c, s, step).w.leases
    requires KeepsRef(s, step, s.w.leases[n].meta.uid)
    requires Perform(c, s, step).w.leases[n].meta.uid == s.w.leases[n].meta.uid
    ensures Perform(c, s, step).w.leases[n].spec.clusterRef == s.w.leases[n].spec.clusterRef
  {
    if step.Pass? && step.name in s.w.leases {
      ReconcileEffect(c, step.env, s.w, step.name);
      if n != step.name { OthersLookup(s.w, Perform(c, s, step).w, step.name, n); }
    }
  }

  lemma OtherStepKeepsHold(c: Config, routes: map<string, string>, s: System, step: Step, k: NsKey, n: string)
    requires WellFormed(s) && Allowed(s, step) && !(step.Pass? && step.name in s.w.leases) && HeldBy(c, routes, s.w, k, n)
    requires Careful(routes, LeaseUID(s.w.namespaces[k]), s, step) && k in Perform(c, s, step).w.namespaces
    requires LeaseUID(s.w.namespaces[k]) == LeaseUID(Perform(c, s, step).w.namespaces[k])
    ensures HeldBy(c, routes, Perform(c, s, step).w, k, n)
  {
    StepMovesOn(c, s, step);
    OtherStepKeepsLease(c, s, step, n);
    OtherStepKeepsRef(c, s, step, n);
    StillHeld(c, routes, s, Perform(c, s, step), k, n);
  }

  // ------------------------------------------------------------- run theorems

  /** In every reachable state every stored lease is healthy: Ready is True
      exactly in the phases Active and Expiring and then namespace and cluster are
      on record, a recorded namespace has a recorded cluster, and the deadlines
      are in order. */
  lemma {:induction false} RunIsWellFormed(c: Config, s: System, steps: seq<Step>)
    requires WellFormed(s) && AllowedRun(c, s, steps)
    ensures WellFormed(Steps(c, s, steps))
    decreases |steps|
  {
    if steps != [] {
      StepMovesOn(c, s, steps[0]);
      RunIsWellFormed(c, Perform(c, s, steps[0]), steps[1..]);
    }
  }

  lemma {:induction false} RunAccounts(c: Config, routes: map<string, string>, uid: string, s: System, steps: seq<Step>)
    requires WellFormed(s) && Accounted(c, routes, uid, s) && AllowedRun(c, s, steps) && CarefulRun(c, routes, uid, s, steps)
    ensures Accounted(c, routes, uid, Steps(c, s, steps))
    decreases |steps|
  {
    if steps != [] {
      StepMovesOn(c, s, steps[0]);
      StepAccounts(c, routes, uid, s, steps[0]);
      RunAccounts(c, routes, uid, Perform(c, s, steps[0]), steps[1..]);
    }
  }

  predicate LeaseStored(w: World, uid: string) {
    exists n :: n in w.leases && w.leases[n].meta.uid == uid
  }

  /** No orphans, lease by lease: in every state a run reaches that was careful for
      one lease - and for no other - once that lease is gone no namespace on any
      cluster carries its UID; and while it is stored, such a namespace sits exactly
      where the lease says, under its finalizer. */
  lemma NoOrphans(c: Config, routes: map<string, string>, s: System, steps: seq<Step>, uid: string, k: NsKey)
    requires WellFormed(s) && AllowedRun(c, s, steps)
    requires Accounted(c, routes, uid, s) && CarefulRun(c, routes, uid, s, steps)
    requires var end := Steps(c, s, steps);
             uid in end.used && k in end.w.namespaces && LeaseUID(end.w.namespaces[k]) == uid
    ensures var end := Steps(c, s, steps);
            && LeaseStored(end.w, uid)
            && forall n :: n in end.w.leases && end.w.leases[n].meta.uid == uid ==>
                 end.w.leases[n].meta.finalizer && Recorded(c, routes, end.w.leases[n], k)
  {
    RunIsWellFormed(c, s, steps);
    RunAccounts(c, routes, uid, s, steps);
    var end := Steps(c, s, steps);
    var n :| HeldBy(c, routes, end.w, k, n);
    assert n in end.w.leases;
  }

  /** The invariants hold in a well-formed state for every UID not handed out yet,
      so for all of them before the first lease exists. */
  lemma StartIsAccounted(c: Config, routes: map<string, string>, s: System, namespaces: map<NsKey, Namespace>)
    ensures forall uid :: uid !in s.used ==> Accounted(c, routes, uid, s)
    ensures WellFormed(System(World(map[], namespaces), {}))
    ensures forall uid :: Accounted(c, routes, uid, System(World(map[], namespaces), {}))
  {
  }

  predicate Holds(s: System, name: string, uid: string) {
    name in s.w.leases && s.w.leases[name].meta.uid == uid
  }

  /** A UID that has left a name never comes back there. */
  lemma {:induction false} GoneForGood(c: Config, s: System, steps: seq<Step>, name: string, uid: string)
    requires WellFormed(s) && AllowedRun(c, s, steps) && uid in s.used && !Holds(s, name, uid)
    ensures !Holds(Steps(c, s, steps), name, uid)
    decreases |steps|
  {
    if steps != [] {
      StepMovesOn(c, s, steps[0]);
      GoneForGood(c, Perform(c, s, steps[0]), steps[1..], name, uid);
    }
  }

  /** Sticky over whole runs: whatever anybody does to targets, clusters, labels,
      policies, capacity and specs, a lease that has recorded its namespace keeps
      it, and its createdAt is written once. */
  lemma {:induction false} LeaseStaysPut(c: Config, s: System, steps: seq<Step>, name: string)
    requires WellFormed(s) && AllowedRun(c, s, steps)
    requires name in s.w.leases && Holds(Steps(c, s, steps), name, s.w.leases[name].meta.uid)
    ensures var a, b := s.w.leases[name], Steps(c, s, steps).w.leases[name];
            && (a.status.namespace != "" ==> b.status.namespace == a.status.namespace)
            && (a.status.timing.createdAt.Some? ==> b.status.timing.createdAt == a.status.timing.createdAt)
    decreases |steps|
  {
    if steps != [] {
      StepMovesOn(c, s, steps[0]);
      StillStored(c, s, steps, name);
      LeaseStaysPut(c, Perform(c, s, steps[0]), steps[1..], name);
    }
  }

  /** Nobody edits the clusterRef of the lease with this UID. */
  predicate RefKept(c: Config, s: System, steps: seq<Step>, uid: string)
    decreases |steps|
  {
    steps != [] ==> KeepsRef(s, steps[0], uid) && RefKept(c, Perform(c, s, steps[0]), steps[1..], uid)
  }

  /** And as long as nobody edits its own clusterRef, a lease without one keeps the
      cluster of its namespace. */
  lemma {:induction false} ClusterStaysPut(c: Config, s: System, steps: seq<Step>, name: string)
    requires WellFormed(s) && AllowedRun(c, s, steps)
    requires name in s.w.leases && Holds(Steps(c, s, steps), name, s.w.leases[name].meta.uid)
    requires RefKept(c, s, steps, s.w.leases[name].meta.uid)
    ensures var a, b := s.w.leases[name], Steps(c, s, steps).w.leases[name];
            && b.spec.clusterRef == a.spec.clusterRef
            && (a.status.namespace != "" && a.spec.clusterRef == "" ==> StickyCluster(b) == StickyCluster(a) != "")
    decreases |steps|
  {
    if steps != [] {
      StepMovesOn(c, s, steps[0]);
      StillStored(c, s, steps, name);
      OtherStepKeepsRef(c, s, steps[0], name);
      ClusterStaysPut(c, Perform(c, s, steps[0]), steps[1..], name);
    }
  }

  // ---------------------------------------------------------------- histories

  /** What a step does to the timestamps stored under a name, as events of
      `LeaseTiming`: a pass counts when the times it worked out are the ones
      stored afterwards, a touch when it is accepted. */
  function StepEvents(c: Config, s: System, step: Step, name: string): seq<Event> {
    if name !in s.w.leases then []
    else
      var l := s.w.leases[name];
      match step
      case Pass(n, env) =>
        if n == name && PassEvent(env, l).Some? && Saved(env, l, Perform(c, s, step).w) then [PassEvent(env, l).value] else []
      case TouchLease(n, at, idleTTL) =>
        if n == name && Touched(l.status.timing, at, idleTTL).Ok? then [Touch(at, idleTTL)] else []
      case MarkSourceClosed(n) => if n == name then [CloseSource] else []
      case _ => []
  }

  /** The times the pass worked out for l are stored. */
  predicate Saved(env: Env, l: Lease, w': World) {
    l.meta.name in w'.leases && Clock(w'.leases[l.meta.name].status.timing) == Clock(WorkedOut(env, l))
  }

  /** The events of a whole run. */
  function RunEvents(c: Config, s: System, steps: seq<Step>, name: string): seq<Event>
    decreases |steps|
  {
    if steps == [] then []
    else StepEvents(c, s, steps[0], name) + RunEvents(c, Perform(c, s, steps[0]), steps[1..], name)
  }

  /** The timestamps of the lease are those of this history, and its lifetime is
      the least TTL seen since the last renewable pass in it. */
  ghost predicate HasHistory(l: Lease, events: seq<Event>) {
    && Clock(l.status.timing) == Clock(Run(l.meta.creationTimestamp, events))
    && LifetimeIs(Seen(events), l.status.timing)
  }

  lemma ClockCarriesHistory(l: Lease, events: seq<Event>)
    requires Clock(l.status.timing) == Clock(Run(l.meta.creationTimestamp, events))
    ensures HasHistory(l, events)
  {
    LifetimeIsLeastTTL(l.meta.creationTimestamp, events);
    var t, u := Run(l.meta.creationTimestamp, events), l.status.timing;
    assert t.createdAt == u.createdAt && t.expiresAt == u.expiresAt;
    if Seen(events) != [] {
      var from: nat :| WindowStart(Seen(events), from) && IsMinimumFrom(Seen(events), from, t.expiresAt.value - t.createdAt.value);
      assert IsMinimumFrom(Seen(events), from, u.expiresAt.value - u.createdAt.value);
    }
  }

  /** One event more. */
  lemma HistoryGrows(a: Lease, b: Lease, events: seq<Event>, e: Event)
    requires HasHistory(a, events) && b.meta.creationTimestamp == a.meta.creationTimestamp
    requires Clock(b.status.timing) == Clock(Apply(a.status.timing, a.meta.creationTimestamp, e))
    ensures HasHistory(b, events + [e])
  {
    ApplyFollowsClock(a.status.timing, Run(a.meta.creationTimestamp, events), a.meta.creationTimestamp, e);
    assert (events + [e])[..|events|] == events;
    ClockCarriesHistory(b, events + [e]);
  }

  lemma SameClockSameHistory(a: Lease, b: Lease, events: seq<Event>)
    requires HasHistory(a, events) && b.meta.creationTimestamp == a.meta.creationTimestamp
    requires Clock(b.status.timing) == Clock(a.status.timing)
    ensures HasHistory(b, events + [])
  {
    assert events + [] == events;
    ClockCarriesHistory(b, events);
  }

  lemma PassKeepsHistory(c: Config, s: System, name: string, env: Env, n: string, h: seq<Event>)
    requires WellFormed(s) && NamesGiven(env) && name in s.w.leases && HasHistory(s.w.leases[name], h)
    requires var s' := Perform(c, s, Step.Pass(n, env)); name in s'.w.leases
    ensures var step := Step.Pass(n, env);
            HasHistory(Perform(c, s, step).w.leases[name], h + StepEvents(c, s, step, name))
  {
    var s' := Perform(c, s, Step.Pass(n, env));
    var a, b := s.w.leases[name], s'.w.leases[name];
    if n !in s.w.leases {
      SameClockSameHistory(a, b, h);
    } else {
      ReconcileEffect(c, env, s.w, n);
      if n != name {
        OthersLookup(s.w, s'.w, n, name);
        SameClockSameHistory(a, b, h);
      } else {
        PassKeepsTime(c, env, s.w, name);
        assert Later(a, b);
        if PassEvent(env, a).Some? && Saved(env, a, s'.w) {
          HistoryGrows(a, b, h, PassEvent(env, a).value);
        } else {
          SameClockSameHistory(a, b, h);
        }
      }
    }
  }

  /** A step adds exactly its events to the history of a lease that stays. */
  lemma TouchKeepsHistory(c: Config, s: System, step: Step, name: string, h: seq<Event>)
    requires step.TouchLease? && WellFormed(s) && name in s.w.leases && HasHistory(s.w.leases[name], h)
    ensures name in Perform(c, s, step).w.leases
    ensures HasHistory(Perform(c, s, step).w.leases[name], h + StepEvents(c, s, step, name))
  {
    var a, b := s.w.leases[name], Perform(c, s, step).w.leases[name];
    if step.name == name && Touched(a.status.timing, step.at, step.idleTTL).Ok? {
      HistoryGrows(a, b, h, Touch(step.at, step.idleTTL));
    } else {
      SameClockSameHistory(a, b, h);
    }
  }

  lemma StepKeepsHistory(c: Config, s: System, step: Step, name: string, h: seq<Event>)
    requires WellFormed(s) && Allowed(s, step) && name in s.w.leases && HasHistory(s.w.leases[name], h)
    requires name in Perform(c, s, step).w.leases
    ensures HasHistory(Perform(c, s, step).w.leases[name], h + StepEvents(c, s, step, name))
  {
    var a, b := s.w.leases[name], Perform(c, s, step).w.leases[name];
    match step
    case Pass(n, env) => PassKeepsHistory(c, s, name, env, n, h);
    case TouchLease(_, _, _) => TouchKeepsHistory(c, s, step, name, h);
    case MarkSourceClosed(n) =>
      if n == name { HistoryGrows(a, b, h, CloseSource); } else { SameClockSameHistory(a, b, h); }
    case _ =>
      OtherStepKeepsClock(c, s, step, name);
      SameClockSameHistory(a, b, h);
  }

  lemma OtherStepKeepsClock(c: Config, s: System, step: Step, name: string)
    requires WellFormed(s) && Allowed(s, step) && !step.Pass? && !step.TouchLease? && !step.MarkSourceClosed?
    requires name in s.w.leases && name in Perform(c, s, step).w.leases
    ensures var a, b := s.w.leases[name], Perform(c, s, step).w.leases[name];
            b.status == a.status && b.meta.creationTimestamp == a.meta.creationTimestamp
  {
  }

  /** The history of a lease over a run: as long as it stays stored its timestamps
      are those of its history so far followed by its own passes and touches in
      the run, and expiresAt - createdAt is the least TTL since the last renewable
      pass of that history. */
  lemma {:induction false} RunIsHistoric(c: Config, s: System, steps: seq<Step>, name: string, h: seq<Event>)
    requires WellFormed(s) && AllowedRun(c, s, steps) && name in s.w.leases && HasHistory(s.w.leases[name], h)
    requires Holds(Steps(c, s, steps), name, s.w.leases[name].meta.uid)
    ensures HasHistory(Steps(c, s, steps).w.leases[name], h + RunEvents(c, s, steps, name))
    decreases |steps|
  {
    if steps == [] {
      assert h + [] == h;
    } else {
      var s1 := Perform(c, s, steps[0]);
      StillStored(c, s, steps, name);
      StepKeepsHistory(c, s, steps[0], name, h);
      RunIsHistoric(c, s1, steps[1..], name, h + StepEvents(c, s, steps[0], name));
      EventsJoin(c, s, steps, name, h);
    }
  }

  lemma EventsJoin(c: Config, s: System, steps: seq<Step>, name: string, h: seq<Event>)
    requires steps != []
    ensures h + RunEvents(c, s, steps, name)
            == h + StepEvents(c, s, steps[0], name) + RunEvents(c, Perform(c, s, steps[0]), steps[1..], name)
  {
    var e, rest := StepEvents(c, s, steps[0], name), RunEvents(c, Perform(c, s, steps[0]), steps[1..], name);
    assert (h + e) + rest == h + (e + rest);
  }

  /** A lease stored at the end of a run is stored after its first step. */
  lemma StillStored(c: Config, s: System, steps: seq<Step>, name: string)
    requires WellFormed(s) && AllowedRun(c, s, steps) && steps != [] && name in s.w.leases
    requires Holds(Steps(c, s, steps), name, s.w.leases[name].meta.uid)
    ensures WellFormed(Perform(c, s, steps[0])) && Holds(Perform(c, s, steps[0]), name, s.w.leases[name].meta.uid)
  {
    StepMovesOn(c, s, steps[0]);
    if !Holds(Perform(c, s, steps[0]), name, s.w.leases[name].meta.uid) {
      GoneForGood(c, Perform(c, s, steps[0]), steps[1..], name, s.w.leases[name].meta.uid);
      assert false;
    }
  }

  lemma OnlyCreateIntroduces(c: Config, s: System, step: Step, name: string, uid: string)
    requires WellFormed(s) && Allowed(s, step) && !Holds(s, name, uid) && Holds(Perform(c, s, step), name, uid)
    ensures step.Create? && step.lease.meta.name == name && step.lease.meta.uid == uid
  {
    StepMovesOn(c, s, step);
  }

  /** So every lease stored at the end of a run, unless it was there before, was
      created by some step i, and its history is that of its own passes and
      touches since. */
  lemma {:induction false} EveryLeaseHasItsHistory(c: Config, s: System, steps: seq<Step>, name: string) returns (i: nat)
    requires WellFormed(s) && AllowedRun(c, s, steps) && name in Steps(c, s, steps).w.leases
    requires !Holds(s, name, Steps(c, s, steps).w.leases[name].meta.uid)
    ensures var end := Steps(c, s, steps).w.leases[name];
            && i < |steps| && steps[i].Create? && steps[i].lease.meta.name == name && steps[i].lease.meta.uid == end.meta.uid
            && HasHistory(end, RunEvents(c, Steps(c, s, steps[..i + 1]), steps[i + 1..], name))
    decreases |steps|
  {
    var s1 := Perform(c, s, steps[0]);
    var end := Steps(c, s, steps);
    var uid := end.w.leases[name].meta.uid;
    StepMovesOn(c, s, steps[0]);
    if Holds(s1, name, uid) {
      OnlyCreateIntroduces(c, s, steps[0], name, uid);
      i := 0;
      ClockCarriesHistory(s1.w.leases[name], []);
      RunIsHistoric(c, s1, steps[1..], name, []);
      assert [] + RunEvents(c, s1, steps[1..], name) == RunEvents(c, s1, steps[1..], name);
      assert steps[..1][1..] == [] && Steps(c, s, steps[..1]) == Steps(c, s1, []);
    } else {
      var j := EveryLeaseHasItsHistory(c, s1, steps[1..], name);
      i := j + 1;
      assert steps[..i + 1][1..] == steps[1..][..j + 1] && steps[i + 1..] == steps[1..][j + 1..];
      assert Steps(c, s, steps[..i + 1]) == Steps(c, s1, steps[1..][..j + 1]);
    }
  }

  // ------------------------------------------------------ exclusive ownership

  /** The namespace is out of reach of every lease but the one with this UID. */
  predicate Guarded(ns: Namespace, k: NsKey, uid: string) {
    IsProtectedNamespace(k.name)
    || (Lookup(ns.labels, LABEL_MANAGED_BY) == MANAGED_BY_VALUE && LeaseUID(ns) == uid != "")
  }

  /** No step of the owner, and no change of k from outside. */
  predicate OthersOnly(c: Config, s: System, steps: seq<Step>, k: NsKey, uid: string)
    decreases |steps|
  {
    steps != [] ==>
      && (steps[0].Pass? && steps[0].name in s.w.leases ==> s.w.leases[steps[0].name].meta.uid != uid)
      && (steps[0].Outside? && k in s.w.namespaces ==>
            k in steps[0].namespaces && steps[0].namespaces[k] == s.w.namespaces[k])
      && OthersOnly(c, Perform(c, s, steps[0]), steps[1..], k, uid)
  }

  lemma PassLeavesGuarded(c: Config, s: System, name: string, env: Env, k: NsKey, uid: string)
    requires WellFormed(s) && NamesGiven(env) && name in s.w.leases && s.w.leases[name].meta.uid != uid
    requires k in s.w.namespaces && Guarded(s.w.namespaces[k], k, uid)
    ensures var w' := Reconcile(c, env, s.w, name).0; k in w'.namespaces && w'.namespaces[k] == s.w.namespaces[k]
  {
    var a := s.w.leases[name];
    var w' := Reconcile(c, env, s.w, name).0;
    ReconcileEffect(c, env, s.w, name);
    if exists k0 :: ClaimEffect(c, env, a, s.w, w', k0) {
      var k0 :| ClaimEffect(c, env, a, s.w, w', k0);
      assert k0 != k;
      assert k in s.w.namespaces - {k0};
      MarksElsewhere(a, s.w.namespaces, w'.namespaces, k0, k);
    } else if exists k0 :: DeleteEffect(c, env, a, s.w, w', k0) {
      var k0 :| DeleteEffect(c, env, a, s.w, w', k0);
      assert k0 != k;
    }
  }

  /** Exclusive ownership: a namespace with a lease's managed-by label and UID - or
      a protected one - stays exactly as it is through any run of other leases'
      passes, a later lease of the same name included. */
  lemma {:induction false} GuardedIsUntouched(c: Config, s: System, steps: seq<Step>, k: NsKey, uid: string)
    requires WellFormed(s) && AllowedRun(c, s, steps) && OthersOnly(c, s, steps, k, uid)
    requires k in s.w.namespaces && Guarded(s.w.namespaces[k], k, uid)
    ensures var end := Steps(c, s, steps); k in end.w.namespaces && end.w.namespaces[k] == s.w.namespaces[k]
    decreases |steps|
  {
    if steps != [] {
      StepMovesOn(c, s, steps[0]);
      if steps[0].Pass? && steps[0].name in s.w.leases {
        PassLeavesGuarded(c, s, steps[0].name, steps[0].env, k, uid);
      }
      GuardedIsUntouched(c, Perform(c, s, steps[0]), steps[1..], k, uid);
    }
  }

  /** A namespace only starts to terminate, other than from outside, in a pass of
      a lease that holds its finalizer, at that lease's own home, with that
      lease's labels and UID on it, unprotected, under this control cluster, and
      on the cluster whose identity the lease recorded. */
  lemma DeletionIsEarned(c: Config, s: System, step: Step, k: NsKey)
    requires WellFormed(s) && Allowed(s, step) && !step.Outside? && k in s.w.namespaces
    ensures k in Perform(c, s, step).w.namespaces
    ensures Perform(c, s, step).w.namespaces[k].terminating && !s.w.namespaces[k].terminating ==>
              && step.Pass? && step.name in s.w.leases
              && var a := s.w.leases[step.name];
              && a.meta.finalizer && k == Home(c, step.env.routes, a)
              && StampedFor(s.w.namespaces[k], a.meta.name, a.meta.uid) && !IsProtectedNamespace(k.name)
              && VerifyNamespaceOwnership(s.w.namespaces[k], a, c.controlClusterID)
              && (OnRemote(a) && RemoteIdentity(a) != "" ==> k.cluster == RemoteIdentity(a))
  {
    if step.Pass? && step.name in s.w.leases {
      var a := s.w.leases[step.name];
      var w' := Perform(c, s, step).w;
      ReconcileEffect(c, step.env, s.w, step.name);
      if exists k0 :: ClaimEffect(c, step.env, a, s.w, w', k0) {
        var k0 :| ClaimEffect(c, step.env, a, s.w, w', k0);
        if k0 != k {
          assert k in s.w.namespaces - {k0};
          MarksElsewhere(a, s.w.namespaces, w'.namespaces, k0, k);
        }
      }
    }
  }

  // ------------------------------------------------------------------ the gap

  lemma UnrecordedPass(c: Config, s: System, name: string, env: Env, k: NsKey)
    requires WellFormed(s) && NamesGiven(env) && name in s.w.leases && !Durable(env, s.w.leases[name])
    requires k !in s.w.namespaces && k in Reconcile(c, env, s.w, name).0.namespaces
    ensures var w' := Reconcile(c, env, s.w, name).0;
            && name in w'.leases && w'.leases[name].status.namespace == "" && w'.leases[name].meta == s.w.leases[name].meta
            && w'.leases[name].meta.finalizer && LeaseUID(w'.namespaces[k]) == s.w.leases[name].meta.uid
  {
    ReconcileEffect(c, env, s.w, name);
    var a, w' := s.w.leases[name], Reconcile(c, env, s.w, name).0;
    var k0 :| ClaimEffect(c, env, a, s.w, w', k0);
    if k0 != k { MarksElsewhere(a, s.w.namespaces, w'.namespaces, k0, k); }
    assert Later(a, w'.leases[name]);
  }

  lemma NothingToCleanUp(c: Config, env: Env, w: World, name: string)
    requires name in w.leases && w.leases[name].meta.name == name && w.leases[name].meta.deleting
    requires w.leases[name].status.namespace == "" && w.leases[name].meta.finalizer
    requires env.finalWriteOk && env.finalizerRemoveOk
    ensures var w' := Reconcile(c, env, w, name).0; w'.leases == w.leases - {name} && w'.namespaces == w.namespaces
  {
  }

  /** What Careful leaves out does orphan: when a pass makes a namespace but both
      status writes that could record it fail, deleting the lease removes it
      without a trace of that namespace. */
  lemma UnrecordedClaimOrphans(c: Config, s: System, name: string, env: Env, env': Env, k: NsKey)
    requires WellFormed(s) && NamesGiven(env) && name in s.w.leases
    requires !Durable(env, s.w.leases[name]) && env'.finalWriteOk && env'.finalizerRemoveOk
    requires k !in s.w.namespaces && k in Perform(c, s, Step.Pass(name, env)).w.namespaces
    ensures var end := Steps(c, s, [Step.Pass(name, env), UserDelete(name), Step.Pass(name, env')]);
            && !LeaseStored(end.w, s.w.leases[name].meta.uid)
            && k in end.w.namespaces && LeaseUID(end.w.namespaces[k]) == s.w.leases[name].meta.uid
  {
    var s1 := Perform(c, s, Step.Pass(name, env));
    var s2 := Perform(c, s1, UserDelete(name));
    UnrecordedPass(c, s, name, env, k);
    StepMovesOn(c, s, Step.Pass(name, env));
    StepMovesOn(c, s1, UserDelete(name));
    NothingToCleanUp(c, env', s2.w, name);
    ThreeSteps(c, s, Step.Pass(name, env), UserDelete(name), Step.Pass(name, env'));
  }

  /** The namespace k outlives its lease. */
  predicate Orphaned(s: System, uid: string, k: NsKey) {
    !LeaseStored(s.w, uid) && k in s.w.namespaces && LeaseUID(s.w.namespaces[k]) == uid
  }

  lemma LeavingOrphans(c: Config, s: System, name: string, env: Env, k: NsKey)
    requires WellFormed(s) && NamesGiven(env) && name in s.w.leases
    requires k in s.w.namespaces && LeaseUID(s.w.namespaces[k]) == s.w.leases[name].meta.uid
    requires Reconcile(c, env, s.w, name).0.namespaces == s.w.namespaces && name !in Reconcile(c, env, s.w, name).0.leases
    ensures Orphaned(Perform(c, s, Step.Pass(name, env)), s.w.leases[name].meta.uid, k)
  {
    var s' := Perform(c, s, Step.Pass(name, env));
    ReconcileEffect(c, env, s.w, name);
    forall n | n in s'.w.leases ensures s'.w.leases[n].meta.uid != s.w.leases[name].meta.uid {
      OthersLookup(s.w, s'.w, name, n);
    }
  }

  /** A pass that looks for the namespace of a deleted lease where it is not -
      because the target was re-routed, or the clusterRef edited - orphans it. */
  lemma StrayHomeOrphans(c: Config, s: System, name: string, env: Env, k: NsKey)
    requires WellFormed(s) && NamesGiven(env) && name in s.w.leases
    requires s.w.leases[name].meta.deleting && s.w.leases[name].meta.finalizer && Reachable(c, env, s.w.leases[name])
    requires Home(c, env.routes, s.w.leases[name]) !in s.w.namespaces
    requires k in s.w.namespaces && LeaseUID(s.w.namespaces[k]) == s.w.leases[name].meta.uid
    ensures Orphaned(Perform(c, s, Step.Pass(name, env)), s.w.leases[name].meta.uid, k)
  {
    DeletedLeaseProgresses(c, env, s.w, name);
    LeavingOrphans(c, s, name, env, k);
  }

  /** So does a pass over a deleted lease with forced cleanup, and one in mode
      BestEffort whose target is out of reach. */
  lemma LaxCleanupOrphans(c: Config, s: System, name: string, env: Env, k: NsKey)
    requires WellFormed(s) && NamesGiven(env) && name in s.w.leases && env.finalWriteOk && env.finalizerRemoveOk
    requires var l := s.w.leases[name];
             && l.meta.deleting && l.meta.finalizer && !IsProtectedNamespace(l.status.namespace)
             && (l.meta.forceCleanupAcknowledged
                 || (EffectiveCleanupMode(l.spec) == BestEffort && ResolveNamedTarget(c, env, CleanupTarget(l)).Err?))
    requires k in s.w.namespaces && LeaseUID(s.w.namespaces[k]) == s.w.leases[name].meta.uid
    ensures Orphaned(Perform(c, s, Step.Pass(name, env)), s.w.leases[name].meta.uid, k)
  {
    LaxCleanupLeaves(c, env, s.w, name);
    LeavingOrphans(c, s, name, env, k);
  }

  lemma LaxCleanupLeaves(c: Config, env: Env, w: World, name: string)
    requires name in w.leases && w.leases[name].meta.name == name && env.finalWriteOk && env.finalizerRemoveOk
    requires var l := w.leases[name];
             && l.meta.deleting && l.meta.finalizer && !IsProtectedNamespace(l.status.namespace)
             && (l.meta.forceCleanupAcknowledged
                 || (EffectiveCleanupMode(l.spec) == BestEffort && ResolveNamedTarget(c, env, CleanupTarget(l)).Err?))
    ensures Reconcile(c, env, w, name).0.namespaces == w.namespaces && name !in Reconcile(c, env, w, name).0.leases
  {
    var l := w.leases[name];
    var reason := if l.status.timing.expirationReason != SourceClosed then ManualExpiration else SourceClosed;
    var l0 := l.(status := l.status.(timing := l.status.timing.(expirationReason := reason)));
    var l1 := Mark(l0, CleaningStatus(l0.status, l.meta.generation));
    assert CleanupEnvironment(c, env, w, l1) == Cleaned(w, l1, CleanedUp);
    ClosingProgresses(env, Cleaned(w, l1, CleanedUp), l.status, name);
  }

  lemma ThreeSteps(c: Config, s: System, p: Step, q: Step, r: Step)
    ensures Steps(c, s, [p, q, r]) == Perform(c, Perform(c, Perform(c, s, p), q), r)
  {
    var s1 := Perform(c, s, p);
    assert [p, q, r][1..] == [q, r] && [q, r][1..] == [r] && [r][1..] == [];
    assert Steps(c, s1, [q, r]) == Steps(c, Perform(c, s1, q), [r]);
    assert Steps(c, Perform(c, s1, q), [r]) == Steps(c, Perform(c, Perform(c, s1, q), r), []);
  }
}
