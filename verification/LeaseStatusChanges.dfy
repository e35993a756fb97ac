/** How the phase and the conditions of a lease move (internal/lease/conditions.go),
    as functions on the status. */
module LeaseStatusChanges {
  import opened Api

  function WithCondition(s: LeaseStatus, t: ConditionType, isTrue: bool, r: Reason, generation: int): LeaseStatus {
    s.(conditions := s.conditions[t := Condition(isTrue, r, generation)])
  }

  function ProvisioningStatus(s: LeaseStatus, g: int): LeaseStatus {
    var s := WithCondition(s.(phase := Provisioning), Ready, false, ReasonProvisioning, g);
    var s := WithCondition(s, ExpiringSoon, false, ReasonProvisioning, g);
    var s := WithCondition(s, Cleanup, false, ReasonProvisioning, g);
    WithCondition(s, Degraded, false, ReasonProvisioning, g)
  }

  function ReadyStatus(s: LeaseStatus, expiring: bool, g: int): LeaseStatus {
    var s := if expiring then WithCondition(s.(phase := Expiring), ExpiringSoon, true, LeaseExpiring, g)
             else WithCondition(s.(phase := Active), ExpiringSoon, false, EnvironmentReady, g);
    var s := WithCondition(s, Ready, true, EnvironmentReady, g);
    var s := WithCondition(s, Cleanup, false, EnvironmentReady, g);
    WithCondition(s, Degraded, false, EnvironmentReady, g)
  }

  function PendingStatus(s: LeaseStatus, r: Reason, g: int): LeaseStatus {
    var s := WithCondition(s.(phase := Pending), Ready, false, r, g);
    var s := WithCondition(s, TargetClusterReady, false, r, g);
    WithCondition(s, Degraded, false, r, g)
  }

  function FailedStatus(s: LeaseStatus, r: Reason, g: int): LeaseStatus {
    var s := WithCondition(s.(phase := Failed), Ready, false, r, g);
    WithCondition(s, Degraded, true, r, g)
  }

  function ExpiredStatus(s: LeaseStatus, reason: ExpirationReason, g: int): LeaseStatus {
    var r := if reason == NoReason then TTLExpired else reason;
    var s := s.(timing := s.timing.(expirationReason := r), phase := Expiring);
    var s := WithCondition(s, Ready, false, LeaseExpired, g);
    WithCondition(s, ExpiringSoon, true, LeaseExpired, g)
  }

  function CleaningStatus(s: LeaseStatus, g: int): LeaseStatus {
    var s := WithCondition(s.(phase := Cleaning), Cleanup, false, CleanupInProgress, g);
    WithCondition(s, Ready, false, CleanupInProgress, g)
  }

  function CleanedStatus(s: LeaseStatus, g: int): LeaseStatus {
    var s := WithCondition(s.(phase := Expired), Cleanup, true, CleanupComplete, g);
    var s := WithCondition(s, ExpiringSoon, false, CleanupComplete, g);
    WithCondition(s, Degraded, false, CleanupComplete, g)
  }

  function CleanupFailedStatus(s: LeaseStatus, g: int): LeaseStatus {
    var s := WithCondition(s.(phase := Cleaning), Cleanup, false, CleanupFailed, g);
    WithCondition(s, Degraded, true, CleanupFailed, g)
  }

  /** Ready is True exactly in the phases Active and Expiring, and only once the
      namespace and the cluster are recorded. */
  predicate PhaseAgrees(s: LeaseStatus) {
    && (ReadyTrue(s) <==> s.phase in {Active, Expiring})
    && (ReadyTrue(s) ==> s.namespace != "" && s.cluster.Some? && s.cluster.value.name != "")
  }
}
