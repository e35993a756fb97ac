/** Heartbeats under a fixed hard deadline and a fixed idle window
    (internal/lease/activity.go), interleaved with reconcile passes. */
module Heartbeat {
  import opened Api
  import opened LeaseTiming

  /** The idle window d counts from `last`; the hard deadline is `hard`. */
  ghost predicate Beating(t: Timing, hard: int, d: int, last: int) {
    && Ordered(t) && Initialized(t) && t.expiresAt.value == hard
    && t.lastActivityAt == Some(last)
    && t.idleExpiresAt == Some(Min(last + d, hard))
    && t.effectiveExpiresAt == t.idleExpiresAt
  }

  /** Touches with the fixed window, and passes that keep both deadlines. */
  ghost predicate Steady(e: Event, created: int, hard: int, d: int) {
    match e
    case Touch(_, window) => window == d
    case Pass(ttl, maxTTL, _, idleTTL, _) => ttl == hard - created && ttl <= maxTTL && idleTTL == d
    case CloseSource => true
  }

  function From(t: Timing, creation: Option<int>, events: seq<Event>): Timing {
    if events == [] then t
    else Apply(From(t, creation, events[..|events| - 1]), creation, events[|events| - 1])
  }

  function TouchTimes(events: seq<Event>): seq<int> {
    if events == [] then []
    else
      var e := events[|events| - 1];
      TouchTimes(events[..|events| - 1]) + (if e.Touch? then [e.at] else [])
  }

  /** The instant of the touch before touch i. */
  function Previous(first: int, touches: seq<int>, i: nat): int
    requires i <= |touches|
  {
    if i == 0 then first else touches[i - 1]
  }

  /** Touch i comes in time: within d of the previous touch and before `hard`. */
  predicate InTime(first: int, touches: seq<int>, hard: int, d: int, i: nat)
    requires i < |touches|
  {
    touches[i] < hard && touches[i] - Previous(first, touches, i) < d
  }

  /** The first k touches are in time and touch k, if there is one, is not. */
  ghost predicate FirstGap(first: int, touches: seq<int>, hard: int, d: int, k: nat) {
    && k <= |touches|
    && (forall i :: 0 <= i < k ==> InTime(first, touches, hard, d, i))
    && (k < |touches| ==> !InTime(first, touches, hard, d, k))
  }

  ghost predicate TimeOrdered(first: int, touches: seq<int>) {
    && (forall i :: 0 <= i < |touches| ==> first <= touches[i])
    && forall i, j :: 0 <= i < j < |touches| ==> touches[i] <= touches[j]
  }

  lemma OneBeat(t: Timing, creation: Option<int>, e: Event, hard: int, d: int, last: int)
    requires Beating(t, hard, d, last) && d > 0 && Steady(e, t.createdAt.value, hard, d)
    ensures e.Touch? ==> (Touched(t, e.at, d).Ok? <==> e.at < hard && e.at - last < d)
    ensures Apply(t, creation, e).createdAt == t.createdAt
    ensures Beating(Apply(t, creation, e), hard, d, if e.Touch? && Touched(t, e.at, d).Ok? then e.at else last)
  {
  }

  /** One more touch: it is accepted only if no earlier touch missed. */
  lemma OneMoreTouch(first: int, touches: seq<int>, at: int, hard: int, d: int, k: nat) returns (next: nat)
    requires FirstGap(first, touches, hard, d, k) && TimeOrdered(first, touches + [at])
    ensures FirstGap(first, touches + [at], hard, d, next)
    ensures var accepted := at < hard && at - Previous(first, touches, k) < d;
            && (accepted <==> |touches| < next)
            && (accepted ==> k == |touches|) && (!accepted ==> next == k)
            && Previous(first, touches + [at], next) == if accepted then at else Previous(first, touches, k)
  {
    var more := touches + [at];
    assert forall i :: 0 <= i < |touches| ==> more[i] == touches[i];
    if k < |touches| {
      // A touch already missed; this one is at least as late.
      assert more[k] <= more[|touches|];
      next := k;
    } else {
      next := if at < hard && at - Previous(first, touches, k) < d then k + 1 else k;
    }
    forall i | 0 <= i < |touches| ensures InTime(first, more, hard, d, i) == InTime(first, touches, hard, d, i) {
      assert Previous(first, more, i) == Previous(first, touches, i);
    }
    assert Previous(first, more, |touches|) == Previous(first, touches, |touches|);
  }

  /** Event n is a touch that succeeds. */
  predicate Succeeds(t: Timing, creation: Option<int>, events: seq<Event>, d: int, n: nat)
    requires n < |events|
  {
    events[n].Touch? && Touched(From(t, creation, events[..n]), events[n].at, d).Ok?
  }

  /** The touches that succeed are the first k. */
  ghost predicate FirstSucceed(t: Timing, creation: Option<int>, events: seq<Event>, d: int, k: nat) {
    forall n :: 0 <= n < |events| && events[n].Touch? ==>
      (Succeeds(t, creation, events, d, n) <==> |TouchTimes(events[..n])| < k)
  }

  lemma ExtendSucceed(t: Timing, creation: Option<int>, events: seq<Event>, d: int, k: nat, next: nat)
    requires events != [] && FirstSucceed(t, creation, events[..|events| - 1], d, k)
    requires var m := |events| - 1;
             && |TouchTimes(events[..m])| >= k && k <= next
             && (k < next ==> k == |TouchTimes(events[..m])|)
             && (events[m].Touch? ==> (Succeeds(t, creation, events, d, m) <==> |TouchTimes(events[..m])| < next))
    ensures FirstSucceed(t, creation, events, d, next)
  {
    var m := |events| - 1;
    var before := events[..m];
    forall n | 0 <= n < |events| && events[n].Touch?
      ensures Succeeds(t, creation, events, d, n) <==> |TouchTimes(events[..n])| < next
    {
      if n < m {
        assert before[..n] == events[..n] && before[n] == events[n];
        assert Succeeds(t, creation, before, d, n) == Succeeds(t, creation, events, d, n);
        TouchesGrow(before, n);
      }
    }
  }

  /** Over every time-ordered run, the accepted touches are exactly those before
      the first gap of d or the hard deadline; no later touch ever succeeds. */
  lemma {:induction false} AcceptedTouches(t: Timing, creation: Option<int>, events: seq<Event>,
                                          hard: int, d: int, first: int) returns (k: nat)
    requires Beating(t, hard, d, first) && d > 0
    requires forall i :: 0 <= i < |events| ==> Steady(events[i], t.createdAt.value, hard, d)
    requires TimeOrdered(first, TouchTimes(events))
    ensures FirstGap(first, TouchTimes(events), hard, d, k)
    ensures From(t, creation, events).createdAt == t.createdAt
    ensures Beating(From(t, creation, events), hard, d, Previous(first, TouchTimes(events), k))
    ensures FirstSucceed(t, creation, events, d, k)
  {
    k := 0;
    if events != [] {
      var m := |events| - 1;
      var before, e := events[..m], events[m];
      var earlier := TouchTimes(before);
      assert TouchTimes(events) == if e.Touch? then earlier + [e.at] else earlier;
      assert TimeOrdered(first, earlier) by {
        assert forall i :: 0 <= i < |earlier| ==> earlier[i] == TouchTimes(events)[i];
      }
      var j := AcceptedTouches(t, creation, before, hard, d, first);
      OneBeat(From(t, creation, before), creation, e, hard, d, Previous(first, earlier, j));
      k := j;
      if e.Touch? {
        k := OneMoreTouch(first, earlier, e.at, hard, d, j);
      }
      ExtendSucceed(t, creation, events, d, j, k);
    }
  }

  lemma {:induction false} TouchesGrow(events: seq<Event>, n: nat)
    requires n < |events| && events[n].Touch?
    ensures |TouchTimes(events[..n])| < |TouchTimes(events)|
  {
    var before := events[..|events| - 1];
    if n < |before| {
      assert before[..n] == events[..n];
      TouchesGrow(before, n);
    }
  }

  /** What an observer at T sees: the lease is live iff T is before the hard
      deadline and within d of the last accepted touch, and an expired lease
      reports IdleTimeout iff its idle deadline lay strictly before the hard one. */
  lemma HeartbeatVerdict(t: Timing, creation: Option<int>, events: seq<Event>, hard: int, d: int, first: int, at: int)
    returns (k: nat)
    requires Beating(t, hard, d, first) && d > 0
    requires forall i :: 0 <= i < |events| ==> Steady(events[i], t.createdAt.value, hard, d)
    requires TimeOrdered(first, TouchTimes(events))
    ensures FirstGap(first, TouchTimes(events), hard, d, k)
    ensures var last := Previous(first, TouchTimes(events), k);
            var seen := Synced(From(t, creation, events), d, at);
            && (!IsExpired(seen, at) <==> at < hard && at - last < d)
            && (IsExpired(seen, at) && !ExplicitReason(seen.expirationReason) ==>
                  (seen.expirationReason == IdleTimeout <==> last + d < hard)
                  && (seen.expirationReason == TTLExpired <==> last + d >= hard))
  {
    k := AcceptedTouches(t, creation, events, hard, d, first);
  }

  /** The first pass over a fresh lease starts such a run, with createdAt as the
      first activity. */
  lemma FirstPassBeats(creation: Option<int>, e: Event)
    requires e.Pass? && ValidTTLs(e.ttl, e.maxTTL) && e.idleTTL > 0
    ensures var c := creation.GetOr(e.now);
            Beating(Apply(NO_TIMING, creation, e), c + e.ttl, e.idleTTL, c)
  {
  }
}
