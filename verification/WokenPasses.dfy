/** Reconcile passes at exactly the instants they ask to be woken: joins the
    warnings of `WarningRuns` to the passes of `Reconciliation`. */
module WokenPasses {
  import opened Api
  import opened LeaseTiming
  import opened Warnings
  import opened WarningRuns
  import opened Sorting
  import opened Policy
  import opened PlacementDecision
  import opened Reconciliation
  import opened PassEffects
  import opened Convergence

  /** The stores, and the outside as it is at env.now. */
  datatype Moment = Moment(env: Env, w: World)

  /** A controller of one lease: what its passes make of the stores, and what
      they emit. */
  datatype Controller = Controller(step: (Env, World) -> (World, PassResult), emit: (Env, Lease) -> seq<int>)

  /** It is the one of the source. */
  ghost predicate Reconciles(k: Controller, c: Config, name: string) {
    && (forall e: Env, x: World {:trigger Reconcile(c, e, x, name)} :: k.step(e, x) == Reconcile(c, e, x, name))
    && (forall e: Env, l: Lease {:trigger Emits(e, l)} :: k.emit(e, l) == Emits(e, l))
  }

  /** A pass that becomes ready: the stores it leaves, its requeue, and the
      warnings it emits; until the next one only the clock moves. */
  function BeatOf(k: Controller, name: string, m: Moment): Option<Beat<Moment>> {
    if name !in m.w.leases then None else BeatBy(name, m, k.step(m.env, m.w), k.emit(m.env, m.w.leases[name]))
  }

  function TheController(c: Config, name: string): Controller {
    Controller((e: Env, x: World) => Reconcile(c, e, x, name), Emits)
  }

  lemma ControllerExists(c: Config, name: string)
    ensures Reconciles(TheController(c, name), c, name)
  {
  }

  /** Without an outage window, a pass that saves its status, asks to be requeued
      and leaves its lease Ready went through MarkReady, and so through
      emitWarnings. */
  function BeatBy(name: string, m: Moment, pass: (World, PassResult), emitted: seq<int>): Option<Beat<Moment>> {
    if m.env.outageWait > 0 || !pass.1.Requeue? || name !in pass.0.leases || !ReadyTrue(pass.0.leases[name].status) then None
    else Some(Beat(Moment(Tick(m.env, m.env.now + pass.1.after), pass.0), pass.1.after, emitted))
  }

  function Tick(env: Env, now: int): Env {
    env.(now := now)
  }

  /** What emitWarnings emits once the times of the pass are worked out. */
  function Emits(env: Env, l: Lease): seq<int> {
    var pol := FetchPolicy(env, l);
    if pol.Err? || Resolve(l.spec, pol.value).Err? then []
    else PendingNow(env.now, DeadlineOf(env, l), WarningDurationsOf(l.spec.warnings), l.status.warningsDelivered)
  }

  function PassAt(k: Controller, name: string): (int, Moment) -> Option<Beat<Moment>> {
    (now: int, m: Moment) => if now == m.env.now then BeatOf(k, name, m) else None
  }

  /** What stays fixed while a lease is woken again and again. */
  datatype Terms = Terms(pol: Option<LeasePolicy>, r: Resolved, sess: Session, warnings: seq<int>, deadline: int)

  /** The stored lease b is poised with the ledger d. */
  predicate PoisedAs(c: Config, t: Terms, m: Moment, b: Lease, d: seq<WarningKey>) {
    && Anchored(b) && b.spec.warnings == t.warnings && b.status.warningsDelivered == d
    && EffectiveDeadline(b.status.timing) == Some(t.deadline) && Fair(m.env, t)
    && Poised(c, m.env, m.w, b, t.pol, t.r, t.sess)
  }

  predicate PoisedAt(c: Config, name: string, t: Terms, now: int, m: Moment, d: seq<WarningKey>) {
    now == m.env.now && name in m.w.leases && m.w.leases[name].meta.name == name && PoisedAs(c, t, m, m.w.leases[name], d)
  }

  predicate Fair(env: Env, t: Terms) {
    NamesGiven(env) && env.finalWriteOk && ValidTTLs(t.r.ttl, t.r.maxTTL)
  }

  lemma FoundNoOutage(c: Config, env: Env, l: Lease, pol: Option<LeasePolicy>)
    requires Locate(c, env, l, pol).Found?
    ensures env.outageWait <= 0
  {
  }

  /** The lease after a ready pass. */
  function ReadyLease(env: Env, b: Lease): Lease {
    b.(status := ReadyForm(env, b))
  }

  /** The moment after a pass over a poised lease. */
  function NextMoment(m: Moment, b: Lease, wait: int): Moment {
    Moment(Tick(m.env, m.env.now + wait), m.w.(leases := m.w.leases[b.meta.name := ReadyLease(m.env, b)]))
  }

  lemma BeatsWhen(name: string, m: Moment, pass: (World, PassResult), n: Moment, wait: int, p: seq<int>)
    requires name in m.w.leases && m.env.outageWait <= 0
    requires pass == (n.w, Requeue(wait)) && n.env == Tick(m.env, m.env.now + wait)
    requires name in n.w.leases && ReadyTrue(n.w.leases[name].status)
    ensures BeatBy(name, m, pass, p) == Some(Beat(n, wait, p))
  {
  }

  /** The deadline a poised lease is emitted against is its own. */
  lemma EmitsBy(c: Config, t: Terms, m: Moment, b: Lease, d: seq<WarningKey>)
    requires PoisedAs(c, t, m, b, d)
    ensures Emits(m.env, b) == PendingNow(m.env.now, t.deadline, WarningDurationsOf(t.warnings), d)
    ensures m.env.outageWait <= 0 && b.meta.name in m.w.leases && m.w.leases[b.meta.name] == b
  {
    FoundNoOutage(c, m.env, Timed(m.env, b, t.r), t.pol);
  }

  lemma PoisedBeats(k: Controller, c: Config, t: Terms, m: Moment, b: Lease, d: seq<WarningKey>, n: Moment, wait: int)
    requires Reconciles(k, c, b.meta.name)
    requires PoisedAs(c, t, m, b, d) && wait == WaitFor(m.env, b, t.sess) && n == NextMoment(m, b, wait)
    ensures BeatOf(k, b.meta.name, m)
            == Some(Beat(n, wait, PendingNow(m.env.now, t.deadline, WarningDurationsOf(t.warnings), d)))
  {
    PoisedPass(c, m.env, m.w, b, t.pol, t.r, t.sess);
    var pass := Reconcile(c, m.env, m.w, b.meta.name);
    assert pass == (n.w, Requeue(wait));
    NextIsReady(c, t, m, b, d, n, wait);
    BeatsWhen(b.meta.name, m, pass, n, wait, PendingNow(m.env.now, t.deadline, WarningDurationsOf(t.warnings), d));
  }

  lemma NextIsReady(c: Config, t: Terms, m: Moment, b: Lease, d: seq<WarningKey>, n: Moment, wait: int)
    requires PoisedAs(c, t, m, b, d) && n == NextMoment(m, b, wait)
    ensures b.meta.name in m.w.leases && m.env.outageWait <= 0
    ensures Emits(m.env, m.w.leases[b.meta.name]) == PendingNow(m.env.now, t.deadline, WarningDurationsOf(t.warnings), d)
    ensures b.meta.name in n.w.leases && ReadyTrue(n.w.leases[b.meta.name].status)
  {
    EmitsBy(c, t, m, b, d);
    FormIsReady(m.env, b);
  }

  /** The wait of a ready pass. */
  lemma WaitMeetsNext(env: Env, l: Lease, sess: Session, deadline: int, ds: seq<int>)
    requires EffectiveDeadline(l.status.timing) == Some(deadline) && env.now < deadline
    requires ds == WarningDurationsOf(l.spec.warnings)
    ensures var d := After(env.now, deadline, ds, l.status.warningsDelivered);
            && ReadyForm(env, l).warningsDelivered == d && ReadyForm(env, l).timing == l.status.timing
            && 0 < WaitFor(env, l, sess) && env.now + WaitFor(env, l, sess) <= NextEvent(deadline, ds, d)
  {
    NextOf(env.now, deadline, ds, l.status.warningsDelivered);
  }

  lemma LocatedAgain(c: Config, env: Env, later: int, l: Lease, b: Lease, pol: Option<LeasePolicy>, sess: Session)
    requires Locate(c, env, l, pol) == Found(l, sess) && NamesGiven(env) && Anchored(l) && SameIdentity(l, b)
    requires l.status.namespace != "" && b.status.namespace == l.status.namespace && b.status.cluster == l.status.cluster
    requires b.status.cluster.Some? && b.status.cluster.value.name == sess.name
    ensures Locate(c, Tick(env, later), b, pol) == Found(b, sess)
  {
    Relocates(c, env, later, l, b, pol);
  }

  lemma StaysLocated(c: Config, env: Env, env2: Env, b: Lease, b2: Lease, pol: Option<LeasePolicy>, r: Resolved, sess: Session)
    requires env2 == Tick(env, env2.now) && b2 == ReadyLease(env, b) && NamesGiven(env) && Anchored(b)
    requires Timed(env, b, r).status.timing == b.status.timing && ValidTTLs(r.ttl, r.maxTTL)
    requires EffectiveDeadline(b.status.timing).Some? && env.now <= env2.now < EffectiveDeadline(b.status.timing).value
    requires b.status.cluster.Some? && b.status.namespace != "" && StickyCluster(b) == sess.name
    requires Locate(c, env, Timed(env, b, r), pol) == Found(Timed(env, b, r), sess)
    ensures Timed(env2, b2, r).status.timing == b2.status.timing && !IsExpired(b2.status.timing, env2.now)
    ensures Locate(c, env2, Timed(env2, b2, r), pol) == Found(Timed(env2, b2, r), sess)
  {
    FormIsReady(env, b);
    TimesStand(env, env2.now, b, b, b2, r);
    LocatedAgain(c, env, env2.now, Timed(env, b, r), Timed(env2, b2, r), pol, sess);
  }

  /** Once poised, poised at every later instant before the deadline. */
  lemma StaysPoised(c: Config, env: Env, env2: Env, w: World, w2: World, b: Lease, b2: Lease, pol: Option<LeasePolicy>,
                    r: Resolved, sess: Session)
    requires Poised(c, env, w, b, pol, r, sess) && NamesGiven(env) && Anchored(b) && ValidTTLs(r.ttl, r.maxTTL)
    requires EffectiveDeadline(b.status.timing).Some? && env.now <= env2.now < EffectiveDeadline(b.status.timing).value
    requires env2 == Tick(env, env2.now) && b2 == ReadyLease(env, b) && w2 == w.(leases := w.leases[b.meta.name := b2])
    ensures Poised(c, env2, w2, b2, pol, r, sess) && Anchored(b2) && b2.status.timing == b.status.timing
  {
    FormIsReady(env, b);
    StaysLocated(c, env, env2, b, b2, pol, r, sess);
    StaysFurnished(c, env, env2, b, b2, NsKey(sess.site, b.status.namespace), w.namespaces[NsKey(sess.site, b.status.namespace)],
                   WorkingNetworkPolicy(b.spec, r));
  }

  lemma StaysFurnished(c: Config, env: Env, env2: Env, b: Lease, b2: Lease, k: NsKey, ns: Namespace, np: Option<NetworkPolicySpec>)
    requires env2 == Tick(env, env2.now) && b2 == ReadyLease(env, b)
    requires MarksAtRest(c, b, k, ns) && LooksFurnished(ns, b, np) && CallsSucceed(env, b, np)
    ensures MarksAtRest(c, b2, k, ns) && LooksFurnished(ns, b2, np) && CallsSucceed(env2, b2, np)
  {
    FormIsReady(env, b);
    LooksDepend(c, b, b2, ns);
    FurnishedDepends(b, b2, ns, np);
  }

  lemma PoisedOn(c: Config, t: Terms, m: Moment, b: Lease, d: seq<WarningKey>, wait: int)
    requires PoisedAs(c, t, m, b, d) && 0 <= wait && m.env.now + wait < t.deadline
    ensures PoisedAs(c, t, NextMoment(m, b, wait), ReadyLease(m.env, b),
                     After(m.env.now, t.deadline, WarningDurationsOf(t.warnings), d))
  {
    var n := NextMoment(m, b, wait);
    WaitMeetsNext(m.env, b, t.sess, t.deadline, WarningDurationsOf(t.warnings));
    StaysPoised(c, m.env, n.env, m.w, n.w, b, ReadyLease(m.env, b), t.pol, t.r, t.sess);
  }

  function GoodAt(c: Config, name: string, t: Terms): (int, Moment, seq<WarningKey>) -> bool {
    (now: int, m: Moment, d: seq<WarningKey>) => PoisedAt(c, name, t, now, m, d)
  }

  lemma PoisedOnGood(c: Config, name: string, t: Terms, m: Moment, b: Lease, d: seq<WarningKey>, n: Moment, wait: int)
    requires PoisedAs(c, t, m, b, d) && 0 <= wait && n == NextMoment(m, b, wait) && b.meta.name == name
    ensures m.env.now + wait < t.deadline ==>
              GoodAt(c, name, t)(m.env.now + wait, n, After(m.env.now, t.deadline, WarningDurationsOf(t.warnings), d))
  {
    if m.env.now + wait < t.deadline { PoisedOn(c, t, m, b, d, wait); }
  }

  lemma KeptBy(k: Controller, name: string, good: (int, Moment, seq<WarningKey>) -> bool, deadline: int, ds: seq<int>,
               m: Moment, d: seq<WarningKey>, n: Moment, wait: int)
    requires BeatOf(k, name, m) == Some(Beat(n, wait, PendingNow(m.env.now, deadline, ds, d)))
    requires 0 < wait && m.env.now + wait <= NextEvent(deadline, ds, After(m.env.now, deadline, ds, d))
    requires m.env.now + wait < deadline ==> good(m.env.now + wait, n, After(m.env.now, deadline, ds, d))
    ensures KeepsBeat(PassAt(k, name), good, deadline, ds, m.env.now, m, d)
  {
    BeatKept(PassAt(k, name), good, deadline, ds, m.env.now, m, d, n, wait);
  }

  /** A poised lease keeps to the beat. */
  lemma PoisedKeepsBeat(k: Controller, c: Config, name: string, t: Terms, m: Moment, b: Lease, d: seq<WarningKey>)
    requires Reconciles(k, c, name)
    requires PoisedAs(c, t, m, b, d) && m.env.now < t.deadline
    requires b.meta.name == name && name in m.w.leases && m.w.leases[name] == b
    ensures KeepsBeat(PassAt(k, name), GoodAt(c, name, t), t.deadline, WarningDurationsOf(t.warnings), m.env.now, m, d)
  {
    var wait, ds := WaitFor(m.env, b, t.sess), WarningDurationsOf(t.warnings);
    var n := NextMoment(m, b, wait);
    PoisedBeats(k, c, t, m, b, d, n, wait);
    WaitMeetsNext(m.env, b, t.sess, t.deadline, ds);
    PoisedOnGood(c, name, t, m, b, d, n, wait);
    KeptBy(k, name, GoodAt(c, name, t), t.deadline, ds, m, d, n, wait);
  }

  lemma GoodKeepsBeat(k: Controller, c: Config, name: string, t: Terms, now: int, m: Moment, d: seq<WarningKey>)
    requires Reconciles(k, c, name)
    ensures KeepsBeat(PassAt(k, name), GoodAt(c, name, t), t.deadline, WarningDurationsOf(t.warnings), now, m, d)
  {
    if now < t.deadline && PoisedAt(c, name, t, now, m, d) {
      PoisedKeepsBeat(k, c, name, t, m, m.w.leases[name], d);
    }
  }

  /** The passes from a poised lease on. */
  lemma PoisedWarnsOnce(k: Controller, c: Config, name: string, t: Terms, start: int, m: Moment, d: seq<WarningKey>)
    requires Reconciles(k, c, name)
    requires PoisedAt(c, name, t, start, m, d) && start < t.deadline && Distinct(WarningDurationsOf(t.warnings))
    ensures OnceEach(WokenLog(PassAt(k, name), start, m, t.deadline), start, t.deadline, WarningDurationsOf(t.warnings), d)
  {
    var ds := WarningDurationsOf(t.warnings);
    var pass, good := PassAt(k, name), GoodAt(c, name, t);
    DurationsMembers(t.warnings);
    forall now, x, e ensures KeepsBeat(pass, good, t.deadline, ds, now, x, e) {
      GoodKeepsBeat(k, c, name, t, now, x, e);
    }
    assert good(start, m, d);
    WokenPassesEmitOnce(pass, good, start, m, t.deadline, ds, d);
  }

  lemma DurationsDistinct(warnings: seq<int>)
    requires Distinct(warnings)
    ensures Distinct(WarningDurationsOf(warnings))
  {
    var chosen := Select(warnings, Positive);
    SelectDistinct(warnings, Positive);
    DescendingIsTotal();
    SortSorts(chosen, Descending);
    DistinctIsMultiplicity(chosen);
    DistinctIsMultiplicity(WarningDurationsOf(warnings));
  }

  lemma SettledIsLive(c: Config, env: Env, w: World, name: string)
    requires SettledPass(c, env, w, name)
    ensures var l := w.leases[name];
            && env.outageWait <= 0 && env.now < DeadlineOf(env, l) && Distinct(l.spec.warnings)
            && Emits(env, l) == PendingNow(env.now, DeadlineOf(env, l), WarningDurationsOf(l.spec.warnings), l.status.warningsDelivered)
  {
  }

  predicate TermsKnown(env: Env, l: Lease) {
    FetchPolicy(env, l).Ok? && Resolve(l.spec, FetchPolicy(env, l).value).Ok?
  }

  function TermsAfter(env: Env, l: Lease, sess: Session): Terms
    requires FetchPolicy(env, l).Ok? && Resolve(l.spec, FetchPolicy(env, l).value).Ok?
  {
    Terms(FetchPolicy(env, l).value, TermsOf(env, l), sess, l.spec.warnings, DeadlineOf(env, l))
  }

  lemma SettledIsFair(c: Config, env: Env, w: World, name: string, sess: Session)
    requires SettledPass(c, env, w, name)
    ensures Fair(env, TermsAfter(env, w.leases[name], sess))
  {
    ResolvedObeysPolicy(w.leases[name].spec, FetchPolicy(env, w.leases[name]).value);
  }

  /** The stored lease of a ready pass. */
  predicate Suits(t: Terms, b: Lease, d: seq<WarningKey>) {
    Anchored(b) && b.spec.warnings == t.warnings && b.status.warningsDelivered == d
    && EffectiveDeadline(b.status.timing) == Some(t.deadline)
  }

  lemma ReadySuits(env: Env, core: Lease, t: Terms)
    requires core.spec.warnings == t.warnings && EffectiveDeadline(core.status.timing) == Some(t.deadline)
    requires Anchored(ReadyLease(env, core))
    ensures Suits(t, ReadyLease(env, core), ReadyForm(env, core).warningsDelivered)
  {
  }

  lemma SettledIsAnchored(c: Config, env: Env, w: World, name: string)
    requires SettledPass(c, env, w, name)
    ensures var w1 := Reconcile(c, env, w, name).0; name in w1.leases ==> Anchored(w1.leases[name])
  {
    ReconcileEffect(c, env, w, name);
  }

  lemma PoisedAsFrom(c: Config, t: Terms, m: Moment, b: Lease, d: seq<WarningKey>)
    requires Suits(t, b, d) && Fair(m.env, t) && Poised(c, m.env, m.w, b, t.pol, t.r, t.sess)
    ensures PoisedAs(c, t, m, b, d)
  {
  }

  /** What the first pass leaves: w1, its requeue, and the lease it stored. */
  predicate LeavesPoised(c: Config, env: Env, l: Lease, pass: (World, PassResult), core: Lease, t: Terms) {
    && TermsKnown(env, l) && t.deadline == DeadlineOf(env, l) && t.warnings == l.spec.warnings
    && l.meta.name in pass.0.leases && pass.0.leases[l.meta.name] == ReadyLease(env, core) && core.meta == l.meta
    && pass.1 == Requeue(WaitFor(env, core, t.sess))
    && core.status.warningsDelivered == l.status.warningsDelivered && core.spec == l.spec
    && EffectiveDeadline(core.status.timing) == Some(t.deadline)
  }

  /** A settled pass leaves its lease poised. */
  lemma SettledIsPoised(c: Config, env: Env, w: World, name: string) returns (core: Lease, t: Terms)
    requires SettledPass(c, env, w, name) && env.now < DeadlineOf(env, w.leases[name])
    ensures LeavesPoised(c, env, w.leases[name], Reconcile(c, env, w, name), core, t)
    ensures PoisedAs(c, t, Moment(env, Reconcile(c, env, w, name).0), ReadyLease(env, core), ReadyForm(env, core).warningsDelivered)
  {
    var l := w.leases[name];
    assert env == env.(now := env.now);
    var sess;
    core, sess := ReadyPassIsPoised(c, env, w, name, env);
    t := TermsAfter(env, l, sess);
    SettledIsFair(c, env, w, name, sess);
    SettledIsAnchored(c, env, w, name);
    ReadySuits(env, core, t);
    PoisedAsFrom(c, t, Moment(env, Reconcile(c, env, w, name).0), ReadyLease(env, core), ReadyForm(env, core).warningsDelivered);
  }

  /** The first beat. */
  lemma SettledBeats(k: Controller, c: Config, env: Env, w: World, name: string, core: Lease, t: Terms, n: Moment, wait: int)
    requires Reconciles(k, c, name)
    requires SettledPass(c, env, w, name) && LeavesPoised(c, env, w.leases[name], Reconcile(c, env, w, name), core, t)
    requires wait == WaitFor(env, core, t.sess) && n == Moment(Tick(env, env.now + wait), Reconcile(c, env, w, name).0)
    ensures BeatOf(k, name, Moment(env, w))
            == Some(Beat(n, wait, PendingNow(env.now, t.deadline, WarningDurationsOf(t.warnings), w.leases[name].status.warningsDelivered)))
  {
    SettledIsLive(c, env, w, name);
    FormIsReady(env, core);
    BeatsWhen(name, Moment(env, w), Reconcile(c, env, w, name), n, wait, Emits(env, w.leases[name]));
  }

  /** A lease that is poised right after its pass is poised when it wakes up. */
  lemma PoisedLater(c: Config, t: Terms, env: Env, core: Lease, n: Moment, at: int)
    requires PoisedAs(c, t, Moment(env, n.w), ReadyLease(env, core), ReadyForm(env, core).warningsDelivered)
    requires n.env == Tick(env, at) && env.now <= at < t.deadline
    requires core.meta.name in n.w.leases && n.w.leases[core.meta.name] == ReadyLease(env, core)
    requires EffectiveDeadline(core.status.timing) == Some(t.deadline)
    ensures PoisedAs(c, t, n, ReadyLease(env, core), ReadyForm(env, core).warningsDelivered)
  {
    ReadyTwice(env, core, n.w);
    LaterPoised(c, t, Moment(env, n.w), n, ReadyLease(env, core), ReadyForm(env, core).warningsDelivered);
  }

  /** A ready lease is ready already. */
  lemma ReadyTwice(env: Env, core: Lease, w: World)
    requires EffectiveDeadline(core.status.timing).Some? && env.now < EffectiveDeadline(core.status.timing).value
    requires core.meta.name in w.leases && w.leases[core.meta.name] == ReadyLease(env, core)
    ensures var b := ReadyLease(env, core);
            ReadyLease(env, b) == b && w.(leases := w.leases[b.meta.name := b]) == w
  {
    FormTwice(env, core, ReadyLease(env, core));
    SameEntry(w, ReadyLease(env, core));
  }

  lemma FormTwice(env: Env, core: Lease, b: Lease)
    requires EffectiveDeadline(core.status.timing).Some? && env.now < EffectiveDeadline(core.status.timing).value
    requires b == ReadyLease(env, core)
    ensures ReadyForm(env, b) == b.status
  {
    LedgerRests(EffectiveDeadline(core.status.timing).value, core.spec.warnings, core.status.warningsDelivered, env.now, env.now);
  }

  lemma LaterPoised(c: Config, t: Terms, m: Moment, n: Moment, b: Lease, d: seq<WarningKey>)
    requires PoisedAs(c, t, m, b, d) && n.env == Tick(m.env, n.env.now) && n.w == m.w
    requires m.env.now <= n.env.now < t.deadline
    requires b == ReadyLease(m.env, b) && m.w == m.w.(leases := m.w.leases[b.meta.name := b])
    ensures PoisedAs(c, t, n, b, d)
  {
    StaysPoised(c, m.env, n.env, m.w, n.w, b, b, t.pol, t.r, t.sess);
  }

  /** The passes after the first. */
  lemma LaterWarnsOnce(k: Controller, c: Config, name: string, t: Terms, env: Env, core: Lease, n: Moment, at: int)
    requires Reconciles(k, c, name)
    requires PoisedAs(c, t, Moment(env, n.w), ReadyLease(env, core), ReadyForm(env, core).warningsDelivered)
    requires n.env == Tick(env, at) && env.now <= at < t.deadline && core.meta.name == name
    requires name in n.w.leases && n.w.leases[name] == ReadyLease(env, core)
    requires EffectiveDeadline(core.status.timing) == Some(t.deadline) && Distinct(WarningDurationsOf(t.warnings))
    ensures OnceEach(WokenLog(PassAt(k, name), at, n, t.deadline), at, t.deadline, WarningDurationsOf(t.warnings),
                     ReadyForm(env, core).warningsDelivered)
  {
    PoisedLater(c, t, env, core, n, at);
    PoisedWarnsOnce(k, c, name, t, at, n, ReadyForm(env, core).warningsDelivered);
  }

  /** The first pass from (env, w), as a beat. */
  predicate FirstBeat(k: Controller, env: Env, w: World, name: string, deadline: int, ds: seq<int>, d: seq<WarningKey>,
                      n: Moment, wait: int)
  {
    && PassAt(k, name)(env.now, Moment(env, w)) == Some(Beat(n, wait, PendingNow(env.now, deadline, ds, d)))
    && 0 < wait && env.now + wait <= NextEvent(deadline, ds, After(env.now, deadline, ds, d))
  }

  /** The passes from n on. */
  ghost predicate RestOnce(k: Controller, name: string, n: Moment, at: int, deadline: int, ds: seq<int>, d: seq<WarningKey>) {
    at < deadline ==> OnceEach(WokenLog(PassAt(k, name), at, n, deadline), at, deadline, ds, d)
  }

  /** The ledger and the wait after the first pass. */
  lemma LeavesLedger(env: Env, core: Lease, t: Terms, ds: seq<int>, d: seq<WarningKey>, e: seq<WarningKey>, wait: int)
    requires EffectiveDeadline(core.status.timing) == Some(t.deadline) && env.now < t.deadline
    requires core.spec.warnings == t.warnings && core.status.warningsDelivered == d && ds == WarningDurationsOf(t.warnings)
    requires e == ReadyForm(env, core).warningsDelivered && wait == WaitFor(env, core, t.sess)
    ensures e == After(env.now, t.deadline, ds, d) && 0 < wait
  {
    WaitMeetsNext(env, core, t.sess, t.deadline, ds);
  }

  /** And the rest, whatever the first pass was. */
  lemma SettledRest(k: Controller, c: Config, env: Env, name: string, core: Lease, t: Terms, w1: World, n: Moment, at: int,
                    deadline: int, ds: seq<int>, e: seq<WarningKey>)
    requires Reconciles(k, c, name) && ds == WarningDurationsOf(t.warnings) && Distinct(ds) && deadline == t.deadline
    requires core.meta.name == name && name in w1.leases && w1.leases[name] == ReadyLease(env, core)
    requires EffectiveDeadline(core.status.timing) == Some(t.deadline)
    requires PoisedAs(c, t, Moment(env, w1), ReadyLease(env, core), ReadyForm(env, core).warningsDelivered)
    requires env.now < at && n == Moment(Tick(env, at), w1) && e == ReadyForm(env, core).warningsDelivered
    ensures RestOnce(k, name, n, at, deadline, ds, e)
  {
    if at < t.deadline { LaterWarnsOnce(k, c, name, t, env, core, n, at); }
  }

  /** The first beat and the rest make the whole log. */
  lemma FirstAndRest(k: Controller, env: Env, w: World, name: string, deadline: int, ds: seq<int>, d: seq<WarningKey>,
                     n: Moment, wait: int, at: int, e: seq<WarningKey>)
    requires at == env.now + wait && env.now < deadline && Distinct(ds) && forall x :: x in ds ==> x > 0
    requires FirstBeat(k, env, w, name, deadline, ds, d, n, wait)
    requires RestOnce(k, name, n, at, deadline, ds, e) && e == After(env.now, deadline, ds, d)
    ensures WarnsOnce(k, env, w, name, deadline, ds, d)
  {
    OneBeatMore(PassAt(k, name), env.now, Moment(env, w), deadline, ds, d, n, wait);
  }

  /** The log of the passes from (env, w) on has every open warning once. */
  ghost predicate WarnsOnce(k: Controller, env: Env, w: World, name: string, deadline: int, ds: seq<int>, d: seq<WarningKey>) {
    OnceEach(WokenLog(PassAt(k, name), env.now, Moment(env, w), deadline), env.now, deadline, ds, d)
  }

  /** All of it, whatever the first pass was. */
  lemma WholeLog(k: Controller, c: Config, env: Env, w: World, name: string, w1: World, core: Lease, t: Terms, n: Moment,
                 wait: int, at: int, ds: seq<int>, d: seq<WarningKey>)
    requires Reconciles(k, c, name) && ds == WarningDurationsOf(t.warnings) && Distinct(ds) && (forall x :: x in ds ==> x > 0)
    requires core.meta.name == name && name in w1.leases && w1.leases[name] == ReadyLease(env, core)
    requires core.status.warningsDelivered == d && core.spec.warnings == t.warnings
    requires EffectiveDeadline(core.status.timing) == Some(t.deadline) && env.now < t.deadline
    requires PoisedAs(c, t, Moment(env, w1), ReadyLease(env, core), ReadyForm(env, core).warningsDelivered)
    requires wait == WaitFor(env, core, t.sess) && at == env.now + wait && n == Moment(Tick(env, at), w1)
    requires FirstBeat(k, env, w, name, t.deadline, ds, d, n, wait)
    ensures WarnsOnce(k, env, w, name, t.deadline, ds, d)
  {
    var e := ReadyForm(env, core).warningsDelivered;
    LeavesLedger(env, core, t, ds, d, e, wait);
    SettledRest(k, c, env, name, core, t, w1, n, at, t.deadline, ds, e);
    FirstAndRest(k, env, w, name, t.deadline, ds, d, n, wait, at, e);
  }

  /** Warnings over real passes: from a settled ready pass on, passes of the
      controller that run exactly when they asked to, and save their status, emit
      each warning not yet delivered exactly once, at max(start, deadline - w) and
      so before the deadline, and nothing else. */
  lemma WokenPassesWarnOnce(k: Controller, c: Config, env: Env, w: World, name: string)
    requires Reconciles(k, c, name)
    requires SettledPass(c, env, w, name)
    ensures var l := w.leases[name];
            var deadline := DeadlineOf(env, l);
            WarnsOnce(k, env, w, name, deadline, WarningDurationsOf(l.spec.warnings), l.status.warningsDelivered)
  {
    var l := w.leases[name];
    SettledIsLive(c, env, w, name);
    DurationsDistinct(l.spec.warnings);
    DurationsMembers(l.spec.warnings);
    var ds, d := WarningDurationsOf(l.spec.warnings), l.status.warningsDelivered;
    var core, t := SettledIsPoised(c, env, w, name);
    var wait := WaitFor(env, core, t.sess);
    var w1 := Reconcile(c, env, w, name).0;
    var n := Moment(Tick(env, env.now + wait), w1);
    SettledBeats(k, c, env, w, name, core, t, n, wait);
    WaitMeetsNext(env, core, t.sess, t.deadline, ds);
    WholeLog(k, c, env, w, name, w1, core, t, n, wait, env.now + wait, ds, d);
  }
}
