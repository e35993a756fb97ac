/** The API objects of KubeLease as values: leases, cluster targets and managed
    namespaces.  Instants and durations are integers (nanoseconds). */
module Api {

  const SECOND := 1_000_000_000

  datatype Option<+T> = None | Some(value: T)
  {
    function GetOr(default: T): T {
      if Some? then value else default
    }
  }

  datatype Result<+T, +E> = Ok(value: T) | Err(error: E)

  /** String maps of object metadata.  Go reads an absent key as "". */
  type Labels = map<string, string>

  function Lookup(m: Labels, key: string): string {
    if key in m then m[key] else ""
  }

  function Min(a: int, b: int): int {
    if a <= b then a else b
  }

  const LABEL_MANAGED_BY := "app.kubernetes.io/managed-by"
  const MANAGED_BY_VALUE := "kubelease"
  const LABEL_LEASE := "kubelease.io/lease"
  const ANNOTATION_LEASE_UID := "kubelease.io/lease-uid"
  const ANNOTATION_CONTROL_CLUSTER_ID := "kubelease.io/control-cluster-id"
  const ANNOTATION_TARGET_IDENTITY := "kubelease.io/target-identity"
  const LOCAL_CLUSTER_NAME := "local"

  datatype Phase = NoPhase | Pending | Provisioning | Active | Expiring | Cleaning | Expired | Failed

  datatype ExpirationReason = NoReason | TTLExpired | IdleTimeout | ManualExpiration | SourceClosed

  datatype ConditionType = Ready | ExpiringSoon | Cleanup | Degraded | TargetClusterReady

  datatype Reason =
    | ReasonProvisioning | EnvironmentReady | NamespaceCreationFailed | ResourceQuotaCreationFailed
    | LimitRangeCreationFailed | NetworkPolicyCreationFailed | InvalidConfiguration | PolicyViolation
    | PolicyNotFound | LeaseExpired | LeaseExpiring | CleanupInProgress | CleanupComplete | CleanupFailed
    | RenewalRejected | TargetClusterUnavailable | TargetNotFound | TargetDisabled | RemoteCleanupBlocked
    | NoMatchingCluster | OwnershipMismatch

  /** A condition without its message and transition time. */
  datatype Condition = Condition(isTrue: bool, reason: Reason, observedGeneration: int)

  /** The time-related part of a lease status. */
  datatype Timing = Timing(
    createdAt: Option<int>,
    expiresAt: Option<int>,
    maximumExpiresAt: Option<int>,
    lastActivityAt: Option<int>,
    idleExpiresAt: Option<int>,
    effectiveExpiresAt: Option<int>,
    expirationReason: ExpirationReason)

  const NO_TIMING := Timing(None, None, None, None, None, None, NoReason)

  datatype ClusterStatus = ClusterStatus(name: string, targetUID: string, remoteIdentity: string)

  /** Stands for Duration.String, which is injective. */
  datatype WarningKey = WarningKey(d: int)

  datatype Effective = Effective(
    policyName: string, ttl: int, maxTTL: int, idleTTL: Option<int>, renewable: bool, defaultDeny: bool)

  datatype LeaseStatus = LeaseStatus(
    phase: Phase,
    namespace: string,
    cluster: Option<ClusterStatus>,
    timing: Timing,
    warningsDelivered: seq<WarningKey>,
    effective: Option<Effective>,
    observedGeneration: int,
    conditions: map<ConditionType, Condition>)

  const NO_STATUS := LeaseStatus(NoPhase, "", None, NO_TIMING, [], None, 0, map[])

  /** One requirement of a Kubernetes label selector. */
  datatype Requirement =
    | In(key: string, values: set<string>)
    | NotIn(key: string, values: set<string>)
    | Exists(key: string)
    | DoesNotExist(key: string)

  datatype Selector = Selector(requirements: seq<Requirement>)

  datatype Placement = Placement(selector: Option<Selector>)

  datatype CleanupMode = RequireRemoteCleanup | BestEffort

  datatype NamespaceSpec = NamespaceSpec(name: string, generateName: string, labels: Labels, annotations: Labels)

  datatype Quota = Quota(requests: map<string, int>, limits: map<string, int>)

  datatype Limits = Limits(
    default: map<string, int>, defaultRequest: map<string, int>, max: map<string, int>, min: map<string, int>)

  datatype NetworkPolicySpec = NetworkPolicySpec(defaultDeny: bool)

  /** policyRef and clusterRef are "" when unset: the source treats a nil
      reference and an empty name alike. */
  datatype LeaseSpec = LeaseSpec(
    policyRef: string,
    clusterRef: string,
    placement: Option<Placement>,
    cleanupMode: Option<CleanupMode>,
    ttl: Option<int>,
    maxTTL: Option<int>,
    idleTTL: Option<int>,
    renewable: Option<bool>,
    warnings: seq<int>,
    namespace: NamespaceSpec,
    quota: Option<Quota>,
    limits: Option<Limits>,
    networkPolicy: Option<NetworkPolicySpec>)

  datatype Meta = Meta(
    name: string,
    uid: string,
    generation: int,
    creationTimestamp: Option<int>,
    finalizer: bool,
    deleting: bool,
    forceCleanupAcknowledged: bool)

  datatype Lease = Lease(meta: Meta, spec: LeaseSpec, status: LeaseStatus)

  datatype Target = Target(
    name: string,
    uid: string,
    metaLabels: Labels,
    specLabels: Labels,
    deleting: bool,
    enabled: bool,
    maxActiveLeases: Option<int>,
    ready: bool,
    remoteIdentity: string,
    capacity: Option<int>)

  /** A supporting object inside a managed namespace. */
  datatype Child<S> = Child(labels: Labels, spec: S)

  /** A hard limit's key: "requests.<resource>" or "limits.<resource>". */
  datatype HardKey = RequestsKey(resource: string) | LimitsKey(resource: string)

  datatype Namespace = Namespace(
    labels: Labels,
    annotations: Labels,
    terminating: bool,
    quota: Option<Child<map<HardKey, int>>>,
    limits: Option<Child<Limits>>,
    networkPolicy: Option<Child<bool>>)

  /** A namespace is addressed by the identity of its cluster and its name. */
  datatype NsKey = NsKey(cluster: string, name: string)

  function EffectiveCleanupMode(spec: LeaseSpec): CleanupMode {
    spec.cleanupMode.GetOr(RequireRemoteCleanup)
  }

  function ReadyTrue(s: LeaseStatus): bool {
    Ready in s.conditions && s.conditions[Ready].isTrue
  }
}
