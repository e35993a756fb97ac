/** The working copy of a lease, and the methods of internal/lease that change
    its status in place. */
module LeaseObjects {
  import opened Api
  import opened LeaseTiming
  import opened LeaseStatusChanges
  import opened Warnings
  import opened WarningRuns

  class EnvironmentLease {
    var meta: Meta
    var spec: LeaseSpec
    var status: LeaseStatus

    constructor (l: Lease)
      ensures Value() == l
    {
      meta, spec, status := l.meta, l.spec, l.status;
    }

    function Value(): Lease
      reads this
    {
      Lease(meta, spec, status)
    }

    // ------------------------------------------------------------- timestamps

    method EnsureTimestamps(ttl: int, maxTTL: int, renewable: bool, now: int)
      returns (changed: bool, rejected: bool, failed: bool)
      modifies this`status
      ensures failed <==> !ValidTTLs(ttl, maxTTL)
      ensures failed ==> status == old(status) && !changed && !rejected
      ensures !failed ==>
                && status == old(status).(timing := Stamped(old(status.timing), meta.creationTimestamp, ttl, maxTTL, renewable, now))
                && rejected == RejectsRenewal(old(status.timing), meta.creationTimestamp, ttl, renewable, now)
                && changed == (status != old(status))
    {
      changed, rejected, failed := false, false, false;
      if ttl <= 0 || maxTTL <= 0 || maxTTL < ttl {
        failed := true;
        return;
      }
      var t := status.timing;
      if t.createdAt.None? {
        var created := now;
        if meta.creationTimestamp.Some? {
          created := meta.creationTimestamp.value;
        }
        t := t.(createdAt := Some(created));
        changed := true;
      }
      var maxExp := t.createdAt.value + maxTTL;
      if t.maximumExpiresAt != Some(maxExp) {
        t := t.(maximumExpiresAt := Some(maxExp));
        changed := true;
      }
      var desired := t.createdAt.value + ttl;
      if !renewable && t.expiresAt.Some? && desired > t.expiresAt.value {
        desired := t.expiresAt.value;
        rejected := true;
      }
      if t.expiresAt != Some(desired) {
        t := t.(expiresAt := Some(desired));
        changed := true;
      }
      status := status.(timing := t);
    }

    method SyncExpirationStatus(idleTTL: int, now: int)
      modifies this`status
      ensures status == old(status).(timing := Synced(old(status.timing), idleTTL, now))
    {
      var t := status.timing;
      if t.createdAt.None? || t.expiresAt.None? {
        return;
      }
      if t.lastActivityAt.None? {
        t := t.(lastActivityAt := t.createdAt);
      }
      var hard := t.expiresAt.value;
      if t.maximumExpiresAt.Some? && hard > t.maximumExpiresAt.value {
        hard := t.maximumExpiresAt.value;
      }
      var win := ComputeExpirationWindow(hard, t.lastActivityAt.value, idleTTL);
      t := t.(idleExpiresAt := win.idle);
      t := t.(effectiveExpiresAt := Some(win.effective));
      if t.expirationReason != ManualExpiration && t.expirationReason != SourceClosed {
        if now < win.effective {
          t := t.(expirationReason := NoReason);
        } else {
          t := t.(expirationReason := ResolveExpirationReason(now, win.hard, win.idle));
        }
      }
      status := status.(timing := t);
    }

    /** A touch of an expired lease is rejected after the working copy was synced,
        every other one before; neither copy is persisted. */
    method RecordActivity(now: int, idleTTL: int) returns (err: Option<TouchError>)
      modifies this`status
      ensures var r := Touched(old(status.timing), now, idleTTL);
              && (err.None? <==> r.Ok?)
              && (r.Ok? ==> status == old(status).(timing := r.value))
              && (r.Err? ==> err == Some(r.error))
              && (r.Err? && r.error.AlreadyExpired? ==> status == old(status).(timing := Synced(old(status.timing), idleTTL, now)))
              && (r.Err? && !r.error.AlreadyExpired? ==> status == old(status))
    {
      if status.timing.createdAt.None? || status.timing.expiresAt.None? {
        return Some(NotInitialized);
      }
      if idleTTL <= 0 {
        return Some(NoIdleTTL);
      }
      var hard := status.timing.expiresAt.value;
      if status.timing.maximumExpiresAt.Some? && hard > status.timing.maximumExpiresAt.value {
        hard := status.timing.maximumExpiresAt.value;
      }
      if now >= hard {
        return Some(HardTTLElapsed);
      }
      SyncExpirationStatus(idleTTL, now);
      if status.timing.effectiveExpiresAt.Some? && now >= status.timing.effectiveExpiresAt.value {
        var reason := status.timing.expirationReason;
        if reason == NoReason {
          reason := IdleTimeout;
        }
        return Some(AlreadyExpired(reason));
      }
      status := status.(timing := status.timing.(lastActivityAt := Some(now)));
      SyncExpirationStatus(idleTTL, now);
      return None;
    }

    // --------------------------------------------------------------- warnings

    method IsExpiringWindow(now: int) returns (inside: bool)
      ensures inside <==> InWarningWindow(status.timing, spec.warnings, now)
    {
      var deadline := EffectiveDeadline(status.timing);
      if deadline.None? || IsExpired(status.timing, now) {
        return false;
      }
      var warnings := WarningDurations(spec.warnings);
      if |warnings| == 0 {
        return false;
      }
      var earliest := 0;
      for i := 0 to |warnings|
        invariant i > 0 ==> earliest in warnings[..i]
        invariant forall j :: 0 <= j < i ==> warnings[j] <= earliest
      {
        var w := warnings[i];
        if i == 0 || w > earliest {
          earliest := w;
        }
      }
      assert earliest in warnings;
      return now >= deadline.value - earliest;
    }

    /** Emits what is pending and records it, so that a repeat emits nothing. */
    method EmitWarnings(now: int) returns (events: seq<int>)
      modifies this`status
      ensures status == old(status).(warningsDelivered := DeliveredAfter(old(status), spec.warnings, now))
      ensures EffectiveDeadline(status.timing).Some? ==>
                events == PendingNow(now, EffectiveDeadline(status.timing).value, WarningDurationsOf(spec.warnings),
                                     old(status.warningsDelivered))
    {
      var deadline := EffectiveDeadline(status.timing);
      if deadline.None? {
        return [];
      }
      var durations := WarningDurations(spec.warnings);
      events := PendingWarnings(now, deadline.value, durations, status.warningsDelivered);
      var before := status.warningsDelivered;
      for i := 0 to |events|
        invariant status == old(status).(warningsDelivered := MarkAll(before, events[..i]))
      {
        assert events[..i + 1][..i] == events[..i];
        var delivered := MarkWarningDelivered(status.warningsDelivered, events[i]);
        status := status.(warningsDelivered := delivered);
      }
      assert events[..|events|] == events;
    }

    // ------------------------------------------------------------- conditions

    method SetCondition(t: ConditionType, isTrue: bool, r: Reason)
      modifies this`status
      ensures status == WithCondition(old(status), t, isTrue, r, meta.generation)
    {
      status := status.(conditions := status.conditions[t := Condition(isTrue, r, meta.generation)]);
    }

    method MarkProvisioning()
      modifies this`status
      ensures status == ProvisioningStatus(old(status), meta.generation)
    {
      status := status.(phase := Provisioning);
      SetCondition(Ready, false, ReasonProvisioning);
      SetCondition(ExpiringSoon, false, ReasonProvisioning);
      SetCondition(Cleanup, false, ReasonProvisioning);
      SetCondition(Degraded, false, ReasonProvisioning);
    }

    method MarkReady(expiring: bool)
      modifies this`status
      ensures status == ReadyStatus(old(status), expiring, meta.generation)
    {
      if expiring {
        status := status.(phase := Expiring);
        SetCondition(ExpiringSoon, true, LeaseExpiring);
      } else {
        status := status.(phase := Active);
        SetCondition(ExpiringSoon, false, EnvironmentReady);
      }
      SetCondition(Ready, true, EnvironmentReady);
      SetCondition(Cleanup, false, EnvironmentReady);
      SetCondition(Degraded, false, EnvironmentReady);
    }

    method MarkPending(r: Reason)
      modifies this`status
      ensures status == PendingStatus(old(status), r, meta.generation)
    {
      status := status.(phase := Pending);
      SetCondition(Ready, false, r);
      SetCondition(TargetClusterReady, false, r);
      SetCondition(Degraded, false, r);
    }

    method MarkFailed(r: Reason)
      modifies this`status
      ensures status == FailedStatus(old(status), r, meta.generation)
    {
      status := status.(phase := Failed);
      SetCondition(Ready, false, r);
      SetCondition(Degraded, true, r);
    }

    method MarkExpired(reason: ExpirationReason)
      modifies this`status
      ensures status == ExpiredStatus(old(status), reason, meta.generation)
    {
      var r := reason;
      if r == NoReason {
        r := TTLExpired;
      }
      status := status.(timing := status.timing.(expirationReason := r));
      status := status.(phase := Expiring);
      SetCondition(Ready, false, LeaseExpired);
      SetCondition(ExpiringSoon, true, LeaseExpired);
    }

    method MarkCleaning()
      modifies this`status
      ensures status == CleaningStatus(old(status), meta.generation)
    {
      status := status.(phase := Cleaning);
      SetCondition(Cleanup, false, CleanupInProgress);
      SetCondition(Ready, false, CleanupInProgress);
    }

    method MarkCleanupComplete()
      modifies this`status
      ensures status == CleanedStatus(old(status), meta.generation)
    {
      status := status.(phase := Expired);
      SetCondition(Cleanup, true, CleanupComplete);
      SetCondition(ExpiringSoon, false, CleanupComplete);
      SetCondition(Degraded, false, CleanupComplete);
    }

    method MarkCleanupFailed()
      modifies this`status
      ensures status == CleanupFailedStatus(old(status), meta.generation)
    {
      status := status.(phase := Cleaning);
      SetCondition(Cleanup, false, CleanupFailed);
      SetCondition(Degraded, true, CleanupFailed);
    }

    method EnsureObservedGeneration()
      modifies this`status
      ensures status == old(status).(observedGeneration := meta.generation)
    {
      status := status.(observedGeneration := meta.generation);
    }
  }

  /** Some positive warning threshold has been reached before the deadline. */
  predicate InWarningWindow(t: Timing, warnings: seq<int>, now: int) {
    && EffectiveDeadline(t).Some? && now < EffectiveDeadline(t).value
    && exists w :: w in warnings && w > 0 && now >= EffectiveDeadline(t).value - w
  }

  function DeliveredAfter(s: LeaseStatus, warnings: seq<int>, now: int): seq<WarningKey> {
    if EffectiveDeadline(s.timing).None? then s.warningsDelivered
    else After(now, EffectiveDeadline(s.timing).value, WarningDurationsOf(warnings), s.warningsDelivered)
  }
}
