/** Lease timestamps, renewal and idle windows (internal/lease/expiration.go and
    activity.go): the functions the mutating methods of `EnvironmentLease` meet, and
    what holds of them over every history of passes and touches. */
module LeaseTiming {
  import opened Api

  datatype Window = Window(hard: int, idle: Option<int>, effective: int)

  function ComputeExpirationWindow(hard: int, lastActivity: int, idleTTL: int): (w: Window)
    ensures w.hard == hard && w.effective <= hard
    ensures w.idle.None? <==> idleTTL <= 0
    ensures idleTTL > 0 ==> w.idle == Some(Min(lastActivity + idleTTL, hard)) && w.effective == w.idle.value
  {
    if idleTTL <= 0 then Window(hard, None, hard)
    else
      var idle := if lastActivity + idleTTL > hard then hard else lastActivity + idleTTL;
      Window(hard, Some(idle), if idle < hard then idle else hard)
  }

  function ResolveExpirationReason(now: int, hard: int, idle: Option<int>): ExpirationReason {
    if idle.Some? && now >= idle.value && idle.value < hard then IdleTimeout
    else if now >= hard then TTLExpired
    else NoReason
  }

  predicate ValidTTLs(ttl: int, maxTTL: int) {
    0 < ttl <= maxTTL
  }

  /** The status after EnsureTimestamps accepts its arguments. */
  function Stamped(t: Timing, creation: Option<int>, ttl: int, maxTTL: int, renewable: bool, now: int): Timing {
    var created := t.createdAt.GetOr(creation.GetOr(now));
    var expires := if !renewable && t.expiresAt.Some? then Min(created + ttl, t.expiresAt.value) else created + ttl;
    t.(createdAt := Some(created), maximumExpiresAt := Some(created + maxTTL), expiresAt := Some(expires))
  }

  predicate RejectsRenewal(t: Timing, creation: Option<int>, ttl: int, renewable: bool, now: int) {
    !renewable && t.expiresAt.Some? && t.createdAt.GetOr(creation.GetOr(now)) + ttl > t.expiresAt.value
  }

  /** The hard deadline: expiresAt, capped by maximumExpiresAt. */
  function HardDeadline(t: Timing): int
    requires t.expiresAt.Some?
  {
    if t.maximumExpiresAt.Some? && t.expiresAt.value > t.maximumExpiresAt.value
    then t.maximumExpiresAt.value else t.expiresAt.value
  }

  predicate ExplicitReason(r: ExpirationReason) {
    r == ManualExpiration || r == SourceClosed
  }

  predicate Initialized(t: Timing) {
    t.createdAt.Some? && t.expiresAt.Some?
  }

  /** The status after SyncExpirationStatus. */
  function Synced(t: Timing, idleTTL: int, now: int): Timing {
    if !Initialized(t) then t
    else
      var last := t.lastActivityAt.GetOr(t.createdAt.value);
      var w := ComputeExpirationWindow(HardDeadline(t), last, idleTTL);
      t.(lastActivityAt := Some(last), idleExpiresAt := w.idle, effectiveExpiresAt := Some(w.effective),
         expirationReason :=
           if ExplicitReason(t.expirationReason) then t.expirationReason
           else if now < w.effective then NoReason
           else ResolveExpirationReason(now, w.hard, w.idle))
  }

  datatype TouchError = NotInitialized | NoIdleTTL | HardTTLElapsed | AlreadyExpired(reason: ExpirationReason)

  /** The verdict of RecordActivity; on success, the status to persist. */
  function Touched(t: Timing, now: int, idleTTL: int): Result<Timing, TouchError> {
    if !Initialized(t) then Err(NotInitialized)
    else if idleTTL <= 0 then Err(NoIdleTTL)
    else if now >= HardDeadline(t) then Err(HardTTLElapsed)
    else
      var s := Synced(t, idleTTL, now);
      if now >= s.effectiveExpiresAt.value
      then Err(AlreadyExpired(if s.expirationReason == NoReason then IdleTimeout else s.expirationReason))
      else Ok(Synced(s.(lastActivityAt := Some(now)), idleTTL, now))
  }

  function EffectiveDeadline(t: Timing): Option<int> {
    if t.effectiveExpiresAt.Some? then t.effectiveExpiresAt else t.expiresAt
  }

  predicate IsExpired(t: Timing, now: int) {
    EffectiveDeadline(t).Some? && now >= EffectiveDeadline(t).value
  }

  datatype Extension = Extension(ttl: int, expires: int)

  datatype ExtendError = NonPositive | NotRenewable | AtMaximum

  function ComputeExtendedTTL(created: int, expires: int, maximum: int, extra: int, renewable: bool)
    : Result<Extension, ExtendError>
  {
    if extra <= 0 then Err(NonPositive)
    else if !renewable then Err(NotRenewable)
    else
      var newExpires := if expires + extra > maximum then maximum else expires + extra;
      if newExpires <= expires then Err(AtMaximum)
      else Ok(Extension(newExpires - created, newExpires))
  }

  // ---------------------------------------------------------------- histories

  /** What may rewrite the timing of one lease: a reconcile pass whose TTLs were
      resolved, a touch, and the webhook recording why it deletes the lease. */
  datatype Event =
    | Pass(ttl: int, maxTTL: int, renewable: bool, idleTTL: int, now: int)
    | Touch(at: int, window: int)
    | CloseSource

  function Apply(t: Timing, creation: Option<int>, e: Event): Timing {
    match e
    case Pass(ttl, maxTTL, renewable, idleTTL, now) =>
      if ValidTTLs(ttl, maxTTL) then Synced(Stamped(t, creation, ttl, maxTTL, renewable, now), idleTTL, now) else t
    case Touch(at, window) =>
      var r := Touched(t, at, window);
      if r.Ok? then r.value else t
    case CloseSource => t.(expirationReason := SourceClosed)
  }

  /** The timestamps without the reason, which several hands write. */
  function Clock(t: Timing): Timing {
    t.(expirationReason := NoReason)
  }

  lemma ApplyFollowsClock(t: Timing, u: Timing, creation: Option<int>, e: Event)
    requires Clock(t) == Clock(u)
    ensures Clock(Apply(t, creation, e)) == Clock(Apply(u, creation, e))
  {
  }

  function Run(creation: Option<int>, events: seq<Event>): Timing {
    if events == [] then NO_TIMING
    else Apply(Run(creation, events[..|events| - 1]), creation, events[|events| - 1])
  }

  /** The order of the deadlines in a status that a pass has filled in. */
  predicate Ordered(t: Timing) {
    if t.createdAt.None? then
      t.(expirationReason := NoReason) == NO_TIMING
    else
      && t.expiresAt.Some? && t.maximumExpiresAt.Some? && t.lastActivityAt.Some? && t.effectiveExpiresAt.Some?
      && t.createdAt.value < t.expiresAt.value <= t.maximumExpiresAt.value
      && t.effectiveExpiresAt.value <= t.expiresAt.value
      && t.effectiveExpiresAt.value == t.idleExpiresAt.GetOr(t.expiresAt.value)
  }

  lemma ApplyKeepsOrder(t: Timing, creation: Option<int>, e: Event)
    requires Ordered(t)
    ensures Ordered(Apply(t, creation, e))
    ensures t.createdAt.Some? ==> Apply(t, creation, e).createdAt == t.createdAt
    ensures e.Touch? || e.CloseSource? ==>
              Apply(t, creation, e).(lastActivityAt := None, idleExpiresAt := None, effectiveExpiresAt := None,
                                     expirationReason := NoReason)
              == t.(lastActivityAt := None, idleExpiresAt := None, effectiveExpiresAt := None,
                    expirationReason := NoReason)
  {
  }

  /** In every reachable status the deadlines are ordered, and createdAt never
      changes once it is set: a longer history shows the same value. */
  lemma {:induction false} DeadlinesOrdered(creation: Option<int>, events: seq<Event>, n: nat)
    requires n <= |events|
    ensures Ordered(Run(creation, events))
    ensures Run(creation, events[..n]).createdAt.Some? ==>
              Run(creation, events).createdAt == Run(creation, events[..n]).createdAt
  {
    if n == |events| {
      assert events[..n] == events;
      if n > 0 { DeadlinesOrdered(creation, events[..n - 1], 0);
        ApplyKeepsOrder(Run(creation, events[..n - 1]), creation, events[n - 1]); }
    } else {
      var before := events[..|events| - 1];
      assert before[..n] == events[..n];
      DeadlinesOrdered(creation, before, n);
      ApplyKeepsOrder(Run(creation, before), creation, events[|events| - 1]);
    }
  }

  /** The TTLs of the passes that got as far as the timestamps. */
  datatype SeenTTL = SeenTTL(ttl: int, renewable: bool)

  function Seen(events: seq<Event>): seq<SeenTTL> {
    if events == [] then []
    else
      var rest, e := Seen(events[..|events| - 1]), events[|events| - 1];
      if e.Pass? && ValidTTLs(e.ttl, e.maxTTL) then rest + [SeenTTL(e.ttl, e.renewable)] else rest
  }

  /** `from` is the last renewable pass, or the first pass when none is. */
  ghost predicate WindowStart(seen: seq<SeenTTL>, from: nat) {
    && from < |seen|
    && (seen[from].renewable || from == 0)
    && forall i :: from < i < |seen| ==> !seen[i].renewable
  }

  ghost predicate IsMinimumFrom(seen: seq<SeenTTL>, from: nat, v: int) {
    && (exists i :: from <= i < |seen| && seen[i].ttl == v)
    && forall i :: from <= i < |seen| ==> v <= seen[i].ttl
  }

  ghost predicate LifetimeIs(seen: seq<SeenTTL>, t: Timing) {
    if seen == [] then t.createdAt.None?
    else
      && Initialized(t)
      && exists from: nat :: WindowStart(seen, from)
           && IsMinimumFrom(seen, from, t.expiresAt.value - t.createdAt.value)
  }

  /** expiresAt - createdAt is the least TTL seen since the last renewable pass,
      that pass included. */
  lemma {:induction false} LifetimeIsLeastTTL(creation: Option<int>, events: seq<Event>)
    ensures LifetimeIs(Seen(events), Run(creation, events))
  {
    if events != [] {
      var n := |events| - 1;
      var before, e := events[..n], events[n];
      LifetimeIsLeastTTL(creation, before);
      DeadlinesOrdered(creation, before, 0);
      ApplyKeepsOrder(Run(creation, before), creation, e);
      if e.Pass? && ValidTTLs(e.ttl, e.maxTTL) {
        ExtendMinimum(Seen(before), Run(creation, before), creation, e);
      }
    }
  }

  lemma ExtendMinimum(seen: seq<SeenTTL>, t: Timing, creation: Option<int>, e: Event)
    requires e.Pass? && ValidTTLs(e.ttl, e.maxTTL)
    requires LifetimeIs(seen, t) && Ordered(t)
    ensures LifetimeIs(seen + [SeenTTL(e.ttl, e.renewable)], Apply(t, creation, e))
  {
    var next := seen + [SeenTTL(e.ttl, e.renewable)];
    var after := Apply(t, creation, e);
    var v := after.expiresAt.value - after.createdAt.value;
    if e.renewable || seen == [] {
      assert WindowStart(next, |seen|);
      assert next[|seen|].ttl == v && IsMinimumFrom(next, |seen|, v);
    } else {
      var from: nat :| WindowStart(seen, from)
        && IsMinimumFrom(seen, from, t.expiresAt.value - t.createdAt.value);
      var i :| from <= i < |seen| && seen[i].ttl == t.expiresAt.value - t.createdAt.value;
      assert next[i] == seen[i] && next[|seen|].ttl == e.ttl;
      assert WindowStart(next, from) && IsMinimumFrom(next, from, v);
    }
  }

  // ----------------------------------------------------------------- renewal

  /** Touches and the webhook leave every hard time alone. */
  lemma {:induction false} HardTimesFixed(creation: Option<int>, before: seq<Event>, after: seq<Event>)
    requires forall i :: 0 <= i < |after| ==> !after[i].Pass?
    ensures var s, t := Run(creation, before), Run(creation, before + after);
            && t.createdAt == s.createdAt && t.expiresAt == s.expiresAt && t.maximumExpiresAt == s.maximumExpiresAt
  {
    if after == [] {
      assert before + after == before;
    } else {
      var init := after[..|after| - 1];
      assert (before + after)[..|before + after| - 1] == before + init;
      HardTimesFixed(creation, before, init);
    }
  }

  /** After any history, extending and then reconciling with the written TTL
      lands on the reported expiry exactly when the resolved lease is renewable.
      The command consults spec.renewable alone, so a policy default of `false`
      defeats it: the pass rejects the renewal and keeps the old expiry. */
  lemma ExtendRoundTrip(creation: Option<int>, history: seq<Event>, p: Event, touches: seq<Event>,
                        extra: int, renewable: bool, idleTTL: int, now: int)
    requires p.Pass? && ValidTTLs(p.ttl, p.maxTTL) && forall i :: 0 <= i < |touches| ==> !touches[i].Pass?
    requires var t := Run(creation, history + [p] + touches);
             Initialized(t) && t.maximumExpiresAt.Some?
             && ComputeExtendedTTL(t.createdAt.value, t.expiresAt.value, t.maximumExpiresAt.value, extra, true).Ok?
    ensures var t := Run(creation, history + [p] + touches);
            var x := ComputeExtendedTTL(t.createdAt.value, t.expiresAt.value, t.maximumExpiresAt.value, extra, true).value;
            var after := Apply(t, creation, Pass(x.ttl, p.maxTTL, renewable, idleTTL, now));
            && ValidTTLs(x.ttl, p.maxTTL)
            && x.expires == Min(t.expiresAt.value + extra, t.maximumExpiresAt.value) > t.expiresAt.value
            && (after.expiresAt == Some(x.expires) <==> renewable)
            && (!renewable ==>
                  && after.expiresAt == t.expiresAt
                  && RejectsRenewal(t, creation, x.ttl, renewable, now))
  {
    var upTo := history + [p];
    assert upTo[..|upTo| - 1] == history;
    HardTimesFixed(creation, upTo, touches);
    DeadlinesOrdered(creation, upTo, 0);
    DeadlinesOrdered(creation, upTo + touches, 0);
  }

  function Sum(ds: seq<int>): int {
    if ds == [] then 0 else Sum(ds[..|ds| - 1]) + ds[|ds| - 1]
  }

  /** Runs of `extend`: each success moves the expiry, a failure leaves it. */
  function Extended(expires: int, maximum: int, ds: seq<int>): int {
    if ds == [] then expires
    else
      var e := Extended(expires, maximum, ds[..|ds| - 1]);
      var r := ComputeExtendedTTL(0, e, maximum, ds[|ds| - 1], true);
      if r.Ok? then r.value.expires else e
  }

  function Successes(expires: int, maximum: int, ds: seq<int>): nat {
    if ds == [] then 0
    else
      var e := Extended(expires, maximum, ds[..|ds| - 1]);
      Successes(expires, maximum, ds[..|ds| - 1])
      + (if ComputeExtendedTTL(0, e, maximum, ds[|ds| - 1], true).Ok? then 1 else 0)
  }

  lemma {:induction false} ExtendsAddUp(expires: int, maximum: int, ds: seq<int>)
    requires expires <= maximum && forall i :: 0 <= i < |ds| ==> ds[i] > 0
    ensures Extended(expires, maximum, ds) == Min(expires + Sum(ds), maximum)
    ensures Sum(ds) >= 0
  {
    if ds != [] { ExtendsAddUp(expires, maximum, ds[..|ds| - 1]); }
  }

  /** How often d has to be added to cover the gap: ceil(gap / d). */
  function StepsToCover(gap: int, d: int): int
    requires d > 0
  {
    (gap + d - 1) / d
  }

  lemma StepsToCoverBound(gap: int, d: int, k: nat)
    requires gap >= 0 && d > 0
    ensures k * d < gap <==> k < StepsToCover(gap, d)
  {
    var c := StepsToCover(gap, d);
    assert c * d <= gap + d - 1 < c * d + d;
    if k < c {
      assert (k + 1) * d <= c * d;
    } else {
      assert c * d <= k * d;
    }
  }

  lemma {:induction false} SumOfEqual(ds: seq<int>, d: int)
    requires forall i :: 0 <= i < |ds| ==> ds[i] == d
    ensures Sum(ds) == |ds| * d
  {
    if ds != [] {
      SumOfEqual(ds[..|ds| - 1], d);
      assert |ds| * d == (|ds| - 1) * d + d;
    }
  }

  /** Repeating `extend` by d succeeds exactly while the expiry is below the
      maximum: k requests give min(k, ceil((maximum - expires) / d)) successes. */
  lemma {:induction false} ExtendsRunOut(expires: int, maximum: int, d: int, ds: seq<int>)
    requires expires <= maximum && d > 0 && forall i :: 0 <= i < |ds| ==> ds[i] == d
    ensures Successes(expires, maximum, ds) == Min(|ds|, StepsToCover(maximum - expires, d))
  {
    StepsToCoverBound(maximum - expires, d, 0);
    if ds != [] {
      var before := ds[..|ds| - 1];
      ExtendsRunOut(expires, maximum, d, before);
      ExtendsAddUp(expires, maximum, before);
      SumOfEqual(before, d);
      StepsToCoverBound(maximum - expires, d, |before|);
      NextExtend(expires, maximum, d, |before| * d);
    }
  }

  lemma NextExtend(expires: int, maximum: int, d: int, sum: int)
    requires expires <= maximum && d > 0
    ensures ComputeExtendedTTL(0, Min(expires + sum, maximum), maximum, d, true).Ok? <==> sum < maximum - expires
  {
  }
}
