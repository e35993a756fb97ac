# KubeLease, modelled and verified in Dafny

KubeLease hands out temporary namespaces on several Kubernetes clusters. An
EnvironmentLease is placed on a cluster, gets a namespace with a quota, limits and a
network policy, is kept alive by touches and renewals, warns before it expires, and is
cleaned up afterwards. This project models that protocol and the algorithms it rests on,
and proves what they promise over all inputs and all runs.

Check everything with `dafny verify dfyconfig.toml` (Dafny 4.11).

## How the model is laid out

| file | what it holds |
|---|---|
| `Api.dfy` | leases, cluster targets, namespaces as values; instants and durations are integers |
| `LeaseTiming.dfy`, `Heartbeat.dfy` | timestamps, renewal, extension, idle windows and their histories |
| `Warnings.dfy`, `WarningRuns.dfy` | the warning loops, and warnings over whole runs of wake-ups |
| `Policy.dfy` | resolution of a spec against a policy |
| `PlacementDecision.dfy`, `SoftCapacity.dfy`, `Sorting.dfy`, `Finite.dfy` | choosing a cluster, and how far racing workers can overshoot a limit |
| `Ownership.dfy` | which namespaces a lease may claim, stamp and delete |
| `LeaseStatusChanges.dfy`, `ConditionLists.dfy`, `LeaseObjects.dfy` | phases and conditions; the lease object whose methods change its status in place |
| `Reconciliation.dfy`, `LeaseReconcilers.dfy` | one reconcile pass, as a function of the stores and of everything the outside answers; and the class whose methods run it step by step, proved equal to it |
| `PassEffects.dfy`, `PassTimes.dfy`, `Lifecycle.dfy`, `Convergence.dfy` | what one pass may do to the stores and to the timestamps, what holds over every run of the system, and what a ready pass leaves |
| `WokenPasses.dfy`, `FirstPasses.dfy` | passes at exactly the instants they ask to be woken, from the first ready pass on |
| `Scenarios.dfy` | concrete passes, showing that what the theorems assume does occur |
| `ClusterTargets.dfy` | health passes and the sticky cluster identity |
| `ClientCache.dfy`, `Outage.dfy` | the LRU client cache with its two critical sections, and the backoff windows |
| `GitHubNames.dfy`, `GitHubRuns.dfy` | lease names for pull requests, and webhook events over whole runs |

Methods that change state are specified by a function of the old state; the properties are
proved about those functions. A pass takes an `Env`: the clock, the policies and targets it
reads, which cluster each target's credentials reach, the name the server generates, and
which calls fail. Every failure flag may take any value. SHA-256, SHA-1 and kubeconfig
parsing are function parameters.

The API is assumed to let a writer read its own writes, passes and touches are atomic, and a
pass uses one clock value. `Lifecycle.Allowed` spells out what every run theorem assumes of
the outside: new leases have a fresh UID and an empty status, and edits leave metadata and
status alone. Anybody may edit any spec, its clusterRef included, and outsiders may do
anything to namespaces. Only the no-orphan claim needs more, and only of the one lease it is
about (`Lifecycle.Careful`): its passes find every target on its cluster, run in cleanup mode
RequireRemoteCleanup without forced cleanup, and get to record a namespace they claim in one of
the two status writes that follow; its clusterRef is not edited; and nobody else puts its UID on
a namespace. Other leases need no condition, and each one on routes, clusterRef, mode, force and
recording writes is shown to be needed by a run that orphans without it.

## Where the code falls short of what it is for

Each of these is stated as a lemma with a concrete input, next to the exact condition under
which the promise holds.

- The map comparison reads an absent key as "". A namespace with empty label values can
  compare equal to its patched form, so a lease becomes Ready while its namespace lacks the
  managed labels, and cleanup later refuses that namespace (`Convergence.DisguiseExists`).
  The same holds for the labels of a quota with the desired limits (`QuotaDisguiseExists`).
  Otherwise labels, annotations and objects are exactly as desired (`Convergence.ReadyMeansConverged`).
- Warnings are emitted before the status write that records them. When that write fails the
  next pass in the window emits them again (`Convergence.LostLedger`,
  `WarningRuns.LostWriteRepeats`); `WarningRuns.NeverTwiceIff` has the exact condition.
- Nothing keeps a ClusterTarget from being named "local", the name of the control cluster. A
  lease placed on such a target can be decided elsewhere while the target still fits
  (`PlacementDecision.ReservedNameMoves`, `DecisionIsStableIff`), and no lease is ever counted
  there, so its limit never bites (`SoftCapacity.ReservedNameIsNeverFull`).
- When both status writes after the creation of a namespace fail, nothing records it; deleting
  the lease then orphans it (`Lifecycle.UnrecordedClaimOrphans`, `Scenarios.UnrecordedClaimHappens`).
- `extend` consults only spec.renewable. With a policy default of renewable false it reports an
  expiry that the next pass rejects (`LeaseTiming.ExtendRoundTrip` has the condition).
- A maxTTL that falls back to ttl, or comes from a policy default, is not compared with the
  policy's bounds, so re-resolving a resolved spec can fail (`Policy.ResolveIsFixedPoint`).
- Soft capacity can be exceeded by the number of workers minus one, and is
  (`SoftCapacity.CapacityOvershoot`, `OvershootIsReached`). A lease in phase Expired is not
  counted, yet decided back onto its full target once its times are extended
  (`SoftCapacity.ExpiredLeaseIgnoresLimit`).
- A target deleted and recreated under the same name has generation 1 again: a client built for
  the old one, inserted after the invalidation, is served for the new one
  (`ClientCache.RecreatedTargetIsStale`, `TransparentIff`).
- A target that is re-routed to another cluster before the lease has recorded an identity, an
  edit of the clusterRef of a provisioned lease, forced cleanup, and mode BestEffort with the
  target out of reach each make cleanup report success while the namespace stays
  (`Scenarios.RoutesAreNeeded`, `ClusterRefIsNeeded`, `UnforcedCleanupIsNeeded`,
  `StrictModeIsNeeded`).
- `NewOutageTracker` accepts a minimum above its replacement maximum of two minutes; windows
  then exceed the maximum (`Outage.OutageTracker.constructor`, `Outage.BoundsMustBeOrdered`).
- Different repositories can share a lease name (`GitHubNames.NamesCollide`); the identity
  check then refuses the second one (`GitHubRuns.OthersAreRefused`).
- The comparison of condition lists is not symmetric on lists with a repeated type
  (`ConditionLists.DuplicatesConfuse`); the controller never builds one.

## Model

| member | source | states |
|---|---|---|
| Lifecycle.NoOrphans | internal/controller/environmentlease_controller.go:513-774 | lease by lease: over every run that is careful for one lease, whatever all others do, a namespace on any cluster that carries its UID has that lease still stored, under its finalizer, with exactly that cluster and name on record; so once the lease is gone no such namespace exists |
| Lifecycle.StepAccounts | internal/controller/environmentlease_controller.go:107-213 | one step of anybody that is careful for a lease keeps every namespace that carries its UID accounted for by it |
| Lifecycle.StartIsAccounted | internal/controller/environmentlease_controller.go:107-131 | the invariant holds of every UID before it is handed out, and all invariants before the first lease exists |
| Lifecycle.UnrecordedClaimOrphans | internal/controller/environmentlease_controller.go:285-305 | without a recording write, delete and one more pass leave a stamped namespace whose lease is gone |
| Lifecycle.StrayHomeOrphans | internal/controller/environmentlease_controller.go:692-774 | a pass over a deleted lease that looks for its namespace where it is not removes the lease and leaves the namespace |
| Lifecycle.LaxCleanupOrphans | internal/controller/environmentlease_controller.go:692-728 | so does a pass with forced cleanup, and one in mode BestEffort whose target is out of reach |
| Scenarios.RoutesAreNeeded | internal/remote/resolve.go:45-114 | one pass that finds the target on another cluster orphans the namespace of a lease that is accounted for |
| Scenarios.ClusterRefIsNeeded | internal/placement/decide.go:101-112 | so does a pass after an edit of the clusterRef |
| Scenarios.UnforcedCleanupIsNeeded | internal/identity/identity.go:114-121 | so does a pass after cleanup was forced |
| Scenarios.StrictModeIsNeeded | internal/controller/environmentlease_controller.go:692-728 | so does a pass in mode BestEffort that cannot reach the target |
| Scenarios.UnrecordedClaimHappens | internal/controller/environmentlease_controller.go:285-305 | a pass that claims a namespace without recording it exists |
| Lifecycle.GuardedIsUntouched | internal/resources/namespace.go:73-97 | through any run of other leases' passes, whatever is edited and whichever cluster an edited clusterRef leads to, later leases of the same name included, a namespace with a lease's managed-by label and UID, or a protected one, stays exactly as it is |
| Lifecycle.DeletionIsEarned | internal/controller/environmentlease_controller.go:692-774 | a namespace starts to terminate only in a pass of a lease with its finalizer, at that lease's home, carrying its labels and UID, unprotected, and on the cluster whose identity the lease recorded; passes never remove a namespace themselves |
| Lifecycle.LeaseStaysPut | internal/placement/decide.go:114-153 | over every run a recorded namespace and createdAt never change, whatever anybody does to targets, clusters, labels, policies, capacity and specs |
| Lifecycle.ClusterStaysPut | internal/placement/decide.go:101-153 | as long as nobody edits its own clusterRef, a provisioned lease without one keeps its cluster over every run |
| Lifecycle.RunIsWellFormed | internal/lease/conditions.go:46-133 | in every reachable stored status Ready is True iff the phase is Active or Expiring, Ready implies namespace and cluster are recorded, a namespace has a cluster, and the deadlines are in order |
| Lifecycle.RunIsHistoric | internal/lease/expiration.go:74-123 | over every run, a stored lease's timestamps are those of its history so far followed by its own passes and touches in that run, in order, each pass with the terms it resolved; expiresAt - createdAt is the least TTL in that very history since its last renewable pass |
| Lifecycle.EveryLeaseHasItsHistory | internal/controller/environmentlease_controller.go:171-199 | so every lease stored at the end of a run was created by one of its steps, and its timestamps are exactly those of its own passes and touches since that step |
| Lifecycle.StepKeepsHistory | internal/lease/activity.go:121-152 | one step of anybody adds exactly its events to the history of a lease |
| Lifecycle.StepMovesOn | internal/controller/environmentlease_controller.go:107-213 | every step of controller, user, touch, webhook or outsider keeps the system well formed and no lease goes back on namespace or birth, nor without a clusterRef on its cluster |
| Lifecycle.TouchIsHealthy | internal/lease/activity.go:121-152 | touches and the webhook's status write keep a stored lease healthy |
| Lifecycle.PassLeavesGuarded | internal/identity/identity.go:58-97 | one pass of another lease leaves a guarded namespace as it is, whatever calls fail |
| PassEffects.ReconcileEffect | internal/controller/environmentlease_controller.go:107-213 | a pass changes no other lease, moves its own one on, claims or deletes at most one namespace, records a claim exactly when a recording write succeeds, and drops the finalizer only with nothing left at home |
| PassEffects.ActiveFollows | internal/controller/environmentlease_controller.go:229-363 | an active pass only changes namespaces at the home of its lease and the store learns it from the status writes |
| PassEffects.LocateFollows | internal/controller/environmentlease_controller.go:365-436 | the session found for a lease leads to the cluster its status then names, and a provisioned lease does not move |
| PassEffects.EnsureClaims | internal/controller/environmentlease_controller.go:776-804 | a namespace is only taken when it was free or adoptable, and afterwards carries the lease's stamp or the marks it had |
| PassEffects.ExistingClaims | internal/controller/environmentlease_controller.go:821-881 | the same for a given name, created or adopted |
| PassEffects.CleanupCleans | internal/controller/environmentlease_controller.go:692-774 | cleanup deletes only at home and only what verifies; it reports done under RequireRemoteCleanup only when no namespace is left there |
| PassTimes.TimedIsOnePass | internal/controller/environmentlease_controller.go:171-199 | the times a live pass works out are one explicit pass event with the terms it resolved |
| PassTimes.PassKeepsTime | internal/controller/environmentlease_controller.go:107-213 | every pass leaves the stored timestamps or makes them those it worked out, and the latter whenever the final status write succeeds |
| PassEffects.ExpiredEffect | internal/controller/environmentlease_controller.go:513-618 | the pass over an expired lease stays within the effects of a pass |
| PassEffects.DeleteEffects | internal/controller/environmentlease_controller.go:620-690 | the pass over a deleted lease stays within the effects of a pass |
| PassEffects.DeletedLeaseProgresses | internal/controller/environmentlease_controller.go:620-774 | while its cluster can be reached, a deleted lease leaves the store iff its namespace is gone; until then a pass starts deleting exactly what is the lease's own |
| Convergence.ReadyMeansConverged | internal/controller/environmentlease_controller.go:229-363 | from any cluster state a pass that reaches MarkReady leaves every requested quota, limit range and network policy equal to the desired one iff the old quota was not disguised, and labels and annotations exactly as desired iff the old namespace was not; all compare equal in any case |
| Convergence.ReadyPassIsQuiescent | internal/controller/environmentlease_controller.go:229-363 | a further pass with the same inputs in the same warning window changes nothing: at once on the control cluster, from the second ready pass on elsewhere |
| Convergence.ReadyPassWakesInTime | internal/controller/environmentlease_controller.go:329-363 | the requeue of a ready pass lies strictly ahead and misses neither the deadline nor a warning still to come; local leases wake exactly at the next of them, remote ones within the drift interval; everything already due has been emitted |
| Scenarios.ReadyPassHappens | internal/controller/environmentlease_controller.go:229-363 | a first pass on the control cluster to which both theorems above apply |
| Convergence.RestIsRest | internal/controller/environmentlease_controller.go:1031-1052 | a pass over a lease at rest writes nothing |
| Convergence.MarkedUnlessDisguised | internal/controller/environmentlease_controller.go:1054-1064 | a namespace that the comparison lets through is exactly marked iff no empty label hides a missing key |
| Convergence.DisguiseExists | internal/controller/environmentlease_controller.go:853-876 | an adoptable namespace exists that is skipped and fails verification |
| Convergence.ProvideFurnishes | internal/controller/environmentlease_controller.go:883-1012 | when no call fails every requested object equals the desired one iff the old quota was not disguised, whatever else was there |
| Convergence.QuotaExactly | internal/controller/environmentlease_controller.go:883-928 | the quota is exact afterwards iff no empty label of the old one, with equal limits, hid a missing label |
| Convergence.QuotaDisguiseExists | internal/controller/environmentlease_controller.go:883-928 | a quota with the desired limits exists that is skipped and differs from the desired one |
| Convergence.FurnishedStays | internal/controller/environmentlease_controller.go:883-1012 | furnishing a namespace whose objects compare equal changes nothing |
| Convergence.StampingTwice | internal/controller/environmentlease_controller.go:806-819 | stamping annotations twice is stamping them once, and keeps every old key |
| Convergence.FinishedForm | internal/lease/conditions.go:59-75 | the status of a ready lease is determined by its core: all five conditions are rewritten |
| Convergence.Relocates | internal/controller/environmentlease_controller.go:365-436 | the next pass finds the same session and the same cluster status |
| Convergence.TimingRests | internal/lease/activity.go:81-117 | repeating a pass before the deadline leaves all timestamps alone |
| Convergence.LedgerRests | internal/controller/environmentlease_controller.go:491-511 | within one warning window a second pass emits nothing |
| Convergence.LostLedger | internal/controller/environmentlease_controller.go:329-363 | a ready pass over an established lease whose final status write fails leaves every lease, the ledger included, as it was |
| Convergence.ReadyPassIsPoised | internal/controller/environmentlease_controller.go:229-363 | a settled ready pass leaves its lease such that a pass at any later instant before the deadline is ready again |
| WokenPasses.WokenPassesWarnOnce | internal/controller/environmentlease_controller.go:329-363 | real passes over a provisioned lease, each run at the requeue of the one before and saving its status, emit every open warning exactly once, at max(start, deadline - w) and before the deadline |
| FirstPasses.FirstPassesWarnOnce | internal/controller/environmentlease_controller.go:229-363 | the same from the very first ready pass on, on any cluster whose identity the second pass can learn |
| FirstPasses.SecondIsSettled | internal/controller/environmentlease_controller.go:404-436 | the pass after the first, whenever it runs before the deadline, finds the same cluster, learns its identity, re-stamps the namespace and is ready again |
| Scenarios.FirstPassHappens | internal/controller/environmentlease_controller.go:229-363 | such a first pass exists |
| WokenPasses.StaysPoised | internal/controller/environmentlease_controller.go:229-363 | a lease that is ready stays ready pass after pass until its deadline |
| LeaseReconcilers.LeaseReconciler.ReconcileLease | internal/controller/environmentlease_controller.go:107-213 | the step-by-step pass reaches exactly the stores and result of the pass the run theorems are about |
| LeaseReconcilers.LeaseReconciler.ReconcileLiveLease | internal/controller/environmentlease_controller.go:133-213 | validation, policy, times, expiry and the final patch, in the source's order |
| LeaseReconcilers.LeaseReconciler.ReconcileActiveLease | internal/controller/environmentlease_controller.go:229-363 | the active part from placement to the requeue |
| LeaseReconcilers.LeaseReconciler.ResolveTargetSessionForProvision | internal/controller/environmentlease_controller.go:365-436 | decision, outage window, cluster status, session |
| LeaseReconcilers.LeaseReconciler.OpenSession | internal/controller/environmentlease_controller.go:404-436 | the session, the target's UID and the identity: sticky, recorded or probed |
| LeaseReconcilers.LeaseReconciler.HandleTargetError | internal/controller/environmentlease_controller.go:451-473 | failed status and the wait of the outage tracker for remote targets |
| LeaseReconcilers.LeaseReconciler.EnsureExisting | internal/controller/environmentlease_controller.go:821-881 | create, adopt, skip or refuse |
| LeaseReconcilers.LeaseReconciler.EnsureNs | internal/controller/environmentlease_controller.go:776-804 | recorded name, then given name, then a generated one |
| LeaseReconcilers.LeaseReconciler.EnsureResourceQuota | internal/controller/environmentlease_controller.go:883-928 | create, patch or leave the quota |
| LeaseReconcilers.LeaseReconciler.ProvideObjects | internal/controller/environmentlease_controller.go:307-330 | the supporting objects in order, stopping at the first failure |
| LeaseReconcilers.LeaseReconciler.ProvisionNamespace | internal/controller/environmentlease_controller.go:272-305 | the namespace, its record in the status and the re-read |
| LeaseReconcilers.LeaseReconciler.SettleCluster | internal/controller/environmentlease_controller.go:250-270 | the cluster is written before anything is created there |
| LeaseReconcilers.LeaseReconciler.Cleanup | internal/controller/environmentlease_controller.go:692-774 | all branches of cleanup, with the outcome |
| LeaseReconcilers.LeaseReconciler.ReconcileExpiredLease | internal/controller/environmentlease_controller.go:513-618 | expiry, cleanup, status, finalizer and deletion |
| LeaseReconcilers.LeaseReconciler.ReconcileDeletedLease | internal/controller/environmentlease_controller.go:620-690 | deletion with its reason, cleanup and finalizer |
| LeaseReconcilers.LeaseReconciler.RemoveLeaseFinalizer | internal/controller/environmentlease_controller.go:1014-1029 | dropping the finalizer removes a lease that is being deleted |
| LeaseReconcilers.LeaseReconciler.PatchStatusIfChanged | internal/controller/environmentlease_controller.go:1031-1052 | the whole status is written, and only when it differs from the start |
| LeaseTiming.DeadlinesOrdered | internal/lease/expiration.go:74-123 | over every history idle and effective deadlines are at most expiresAt, which is at most maximumExpiresAt, and createdAt is written once |
| LeaseTiming.LifetimeIsLeastTTL | internal/lease/expiration.go:103-120 | expiresAt - createdAt is the least TTL since the last renewable pass, inclusive |
| LeaseTiming.ApplyKeepsOrder | internal/lease/activity.go:81-152 | one pass or touch keeps the order; touches leave the hard times alone |
| LeaseTiming.HardTimesFixed | internal/lease/activity.go:121-152 | no sequence of touches moves createdAt, expiresAt or maximumExpiresAt |
| LeaseTiming.ExtendRoundTrip | internal/lease/expiration.go:158-183 | extending and reconciling lands on the reported expiry iff the resolved lease is renewable, else the renewal is rejected |
| LeaseTiming.ExtendsAddUp | internal/lease/expiration.go:158-183 | n extensions give min(expiry + sum, maximum) |
| LeaseTiming.ExtendsRunOut | internal/lease/expiration.go:158-183 | k extensions by d succeed exactly min(k, ceil((maximum - expiry) / d)) times |
| Heartbeat.AcceptedTouches | internal/lease/activity.go:121-152 | the touches that succeed are exactly those before the first gap of d or the hard deadline |
| Heartbeat.HeartbeatVerdict | internal/lease/activity.go:41-117 | an observer sees the lease live iff before the hard deadline and within d of the last accepted touch; the reason is IdleTimeout iff the idle deadline was strictly earlier |
| Heartbeat.FirstPassBeats | internal/lease/activity.go:81-117 | the first pass starts such a run with createdAt as the first activity |
| Warnings.WarningDurations | internal/lease/warnings.go:28-37 | exactly the positive warnings, longest first |
| Warnings.PendingWarnings | internal/lease/warnings.go:46-72 | the warnings that are due and undelivered, longest first |
| Warnings.PendingMembers | internal/lease/warnings.go:46-72 | membership of pending warnings, sorted and without repeats |
| Warnings.MarkWarningDelivered | internal/lease/warnings.go:75-83 | the ledger gains the key once |
| Warnings.NextReconcileAfter | internal/lease/schedule.go:26-62 | the wait until the first undelivered threshold or the deadline; 0 iff expired or something is pending |
| Warnings.NextEventIsFirst | internal/lease/schedule.go:46-61 | the next event is the least undelivered threshold, capped by the deadline |
| WarningRuns.EachWarningOnce | internal/controller/environmentlease_controller.go:491-511 | woken when told, each undelivered warning is emitted exactly once, at max(start, deadline - w) and before the deadline |
| WarningRuns.FewWakeUps | internal/lease/schedule.go:26-62 | that takes at most one wake-up per warning plus one |
| WarningRuns.NeverTwiceIff | internal/controller/environmentlease_controller.go:491-511 | on any schedule, across renewals and touches, no warning is emitted twice iff no emission whose status write failed is still due at a later visit |
| WarningRuns.SavedIsFinal | internal/lease/warnings.go:46-83 | an emission that was saved is never repeated |
| WarningRuns.OncePlusLost | internal/controller/environmentlease_controller.go:491-511 | a warning is emitted at most once more than its emission is lost |
| WarningRuns.LostWriteRepeats | internal/controller/environmentlease_controller.go:500-510 | two passes in one window, the first of which loses its write, both emit |
| WarningRuns.WokenPassesEmitOnce | internal/lease/schedule.go:26-62 | passes that emit what is due and wake up no later than the next event emit each warning once, even if some wake up early |
| Policy.ResolvedObeysPolicy | internal/policy/resolve.go:64-136 | success gives 0 < ttl <= maxTTL and meets every limit on values from spec or default |
| Policy.ExplicitResolution | internal/policy/resolve.go:199-295 | an explicit spec is accepted iff it meets the limits, and then keeps its own values |
| Policy.TighteningOnlyRejects | internal/policy/resolve.go:64-136 | tightening a policy only removes acceptances |
| Policy.ResolveIsFixedPoint | internal/policy/resolve.go:86-104 | re-resolving a result is a fixed point iff its maxTTL had been checked |
| Policy.UncheckedMaxTTL | internal/policy/resolve.go:92-104 | both ways of missing that check occur |
| PlacementDecision.SelectFromCandidates | internal/placement/decide.go:220-266 | the filtering loop picks from the sorted eligible names by hash |
| PlacementDecision.SelectionIsEligible | internal/placement/decide.go:200-266 | the choice is ready, enabled, not deleting, matching and under capacity; Pending iff no target is |
| PlacementDecision.SelectionIgnoresOrder | internal/placement/decide.go:255-279 | the choice depends on the set of eligible targets alone |
| PlacementDecision.DecisionIsStableIff | internal/placement/decide.go:101-153 | a persisted decision is a fixed point under all counts and all targets among which the decided one still fits, iff no placement chose a target named like the control cluster |
| PlacementDecision.ReservedNameMoves | internal/placement/decide.go:114-153 | a lease placed on the target "local" is decided elsewhere while that target is healthy and matching |
| PlacementDecision.ProvisionedStaysPut | internal/placement/decide.go:114-153 | a provisioned lease without clusterRef gets its own cluster again, whatever the targets |
| SoftCapacity.CountActiveLeases | internal/placement/decide.go:282-303 | the counting loop, per target |
| SoftCapacity.ListingCounts | internal/placement/decide.go:282-303 | the count of a listing is the number of active leases stored on the target |
| SoftCapacity.CapacityOvershoot | internal/placement/decide.go:207-265 | in every state W workers reach, leases on or in flight to a target number at most limit + W - 1, none at limit 0; exactly bounded for one worker |
| SoftCapacity.OvershootIsReached | internal/controller/environmentlease_controller.go:371-377 | for every limit from 1 and any W some run reaches limit + W - 1 |
| SoftCapacity.DecisionRespectsLimit | internal/placement/decide.go:207-218 | a decision stays where its lease is counted or names a target below its limit |
| SoftCapacity.ReservedNameIsNeverFull | internal/placement/decide.go:282-303 | a target named like the control cluster has room under every listing unless its limit is 0 |
| SoftCapacity.ExpiredLeaseIgnoresLimit | internal/placement/decide.go:114-153 | an uncounted lease in phase Expired is decided back onto its full target |
| Ownership.StampsVerify | internal/resources/namespace.go:102-133 | whatever a stamping path writes passes the ownership check of its own lease |
| Ownership.AdoptableIff | internal/resources/namespace.go:73-97 | adoptable iff not protected and unmanaged, or naming this lease and no other UID |
| Ownership.StampExcludesOthers | internal/identity/identity.go:58-97 | a stamped namespace can be neither claimed nor deleted under another UID |
| Ownership.MapsEqualExactly | internal/controller/environmentlease_controller.go:1054-1064 | the map comparison is equality iff no empty value hides a missing key |
| Ownership.CompareMaps | internal/controller/environmentlease_controller.go:1054-1064 | the loop decides that comparison |
| Ownership.MergeLabels | internal/resources/labels.go:34-43 | every base entry wins, every other extra entry is kept, nothing else |
| LeaseObjects.EnvironmentLease.EnsureTimestamps | internal/lease/expiration.go:74-123 | the new times, whether anything changed, and whether a renewal was rejected |
| LeaseObjects.EnvironmentLease.SyncExpirationStatus | internal/lease/activity.go:81-117 | last activity, idle and effective deadline, and the reason |
| LeaseObjects.EnvironmentLease.RecordActivity | internal/lease/activity.go:121-152 | the verdict on a touch, and the status it leaves: touched when accepted, synced when rejected as expired, the old one when rejected earlier |
| LeaseObjects.EnvironmentLease.IsExpiringWindow | internal/lease/expiration.go:136-153 | true iff before the deadline and some positive warning's threshold has come |
| LeaseObjects.EnvironmentLease.EmitWarnings | internal/controller/environmentlease_controller.go:491-511 | emits what is pending and records it, leaving the rest of the status |
| LeaseObjects.EnvironmentLease.MarkReady | internal/lease/conditions.go:59-75 | phase and conditions of a ready lease |
| LeaseObjects.EnvironmentLease.MarkExpired | internal/lease/conditions.go:93-104 | phase, reason and conditions of an expired lease |
| ConditionLists.ConditionsEqual | internal/lease/status.go:109-128 | equal lengths and every entry agrees with the last entry of its type |
| ConditionLists.ReachableListsCompareExactly | internal/lease/status.go:109-128 | on lists the controller can build, the comparison says whether the same conditions hold, in any order and with any transition times |
| ConditionLists.SetIsUpdate | internal/lease/conditions.go:28-43 | setting a condition in the list is a map update and keeps one entry per type |
| ConditionLists.DuplicatesConfuse | internal/lease/status.go:109-128 | with a repeated type the comparison is not symmetric |
| ClusterTargets.ClusterTargetReconciler.ReconcileHealth | internal/controller/clustertarget_controller.go:161-262 | the stored status after a health pass, and when the cached client is dropped |
| ClusterTargets.ClusterTargetReconciler.RefreshCapacity | internal/controller/clustertarget_controller.go:264-286 | the active count by index, by full listing, or 0 |
| ClusterTargets.ReadyIffConfirmed | internal/controller/clustertarget_controller.go:213-261 | over every run Ready is True iff the last pass that wrote probed exactly the recorded identity |
| ClusterTargets.IdentityIsWriteOnce | internal/controller/clustertarget_controller.go:222-243 | a recorded identity survives every run of credential swaps and lost writes |
| ClusterTargets.SwapIsRefused | internal/controller/clustertarget_controller.go:161-243 | the first pass that writes while another identity, or none, answers makes the target not Ready and keeps the recorded identity |
| ClusterTargets.CountsAgree | internal/controller/clustertarget_controller.go:264-286 | the indexed and the fallback count agree |
| ClientCache.TransparentIff | internal/remote/provider.go:120-168 | every interleaving returns only fresh clients iff the fingerprint determines the client among the reads |
| ClientCache.CacheIsBounded | internal/remote/provider.go:158-187 | under every interleaving the cache stays within its bound |
| ClientCache.RecreatedTargetIsStale | internal/remote/provider.go:251-260 | two reads of a recreated target that share a fingerprint but not a client |
| ClientCache.GenerationsDetermine | internal/remote/provider.go:251-260 | a digest that keeps kubeconfigs apart and generations that fix the limits suffice |
| ClientCache.Provider.EvictIfNeeded | internal/remote/provider.go:170-187 | evicts least recently used entries, and no more than needed |
| ClientCache.Provider.Lookup | internal/remote/provider.go:135-142 | hits iff the fingerprint matches, and then only renews its last use |
| ClientCache.Provider.Insert | internal/remote/provider.go:158-168 | evicts and stores the new entry within the bound |
| ClientCache.Provider.ConfigAndClient | internal/remote/provider.go:120-168 | undisturbed, the call answers as if there were no cache |
| Outage.MarkWindows | internal/remote/outage.go:49-84 | over any run with a monotone clock a mark returns a window in [min, max], moves no deadline earlier or beyond now + max, and RequeueAfter counts it down |
| Outage.WindowsDouble | internal/remote/outage.go:49-70 | the k-th mark at one instant returns min(max, min * 2^(k-1)) |
| Outage.BoundsMustBeOrdered | internal/remote/outage.go:34-46 | windows stay within max iff min is at most max |
| Outage.OutageTracker.constructor | internal/remote/outage.go:34-46 | the defaults, and exactly when they leave the bounds in order |
| Outage.OutageTracker.MarkUnavailable | internal/remote/outage.go:49-70 | the window opened and the new deadlines |
| Outage.OutageTracker.RequeueAfter | internal/remote/outage.go:73-84 | what remains of an open window, else 0 |
| Outage.OutageTracker.Clear | internal/remote/outage.go:87-94 | forgets the one target |
| GitHubNames.DnsLabel | internal/sourcewebhook/github_identity.go:78-87 | the string pipeline with its collapse loop terminates and equals a one-pass scan |
| GitHubNames.LabelIsSlug | internal/sourcewebhook/github_identity.go:78-87 | only letters, digits and single inner dashes |
| GitHubNames.LabelIsIdempotent | internal/sourcewebhook/github_identity.go:78-87 | a second application changes nothing |
| GitHubNames.LabelKeepsLetters | internal/sourcewebhook/github_identity.go:78-87 | no letter or digit is lost, added or moved |
| GitHubNames.LeaseNameIsGood | internal/sourcewebhook/github_identity.go:49-116 | for 0 < N < 2^63 and any repository the name is a DNS label of at most 63 characters ending in "-pr-N"; the branch without the repository is unreachable |
| GitHubNames.EqualNamesEqualNumbers | internal/sourcewebhook/github_identity.go:49-76 | equal names imply equal pull request numbers |
| GitHubNames.NamesCollide | internal/sourcewebhook/github_identity.go:78-87 | equal names do not imply equal repositories |
| GitHubRuns.OnlyItsCloseDeletes | internal/sourcewebhook/github_actions.go:56-230 | over any sequence of events and other steps a lease keeps its recorded repository and number and stays undeleted until that very pull request is closed, or somebody other than the events - a user, the other webhook, the controller at expiry - deletes it |
| GitHubRuns.RecordStands | internal/sourcewebhook/github_actions.go:56-161 | as long as the lease is stored, deleted or not, no step changes its recorded repository and number |
| GitHubRuns.ItsCloseDeletes | internal/sourcewebhook/github_actions.go:163-230 | that close event deletes it, with the reason recorded first |
| GitHubRuns.OthersAreRefused | internal/sourcewebhook/github_actions.go:232-248 | events of other pull requests leave it alone; another repository under the same name gets 409 |
| GitHubRuns.AcceptedMeansRecorded | internal/sourcewebhook/github_actions.go:56-161 | an accepted opened or reopened event leaves a lease that records its pull request |
| GitHubRuns.Server.HandlePREvent | internal/sourcewebhook/github_actions.go:39-54 | the new store and reply of one event |
| GitHubRuns.Server.EnsureGitHubLease | internal/sourcewebhook/github_actions.go:56-114 | all branches of ensuring a lease |
| GitHubRuns.Server.ExpireGitHubLease | internal/sourcewebhook/github_actions.go:163-230 | all branches of expiring a lease |
| GitHubRuns.Server.PatchMetadata | internal/sourcewebhook/github_actions.go:143-161 | the metadata overlays the old annotations unless it looks like a secret |

## Left out

- Message texts, transition times in the stored status, events, logs and metrics: no claim rests on them.
- Second granularity of stored times and 64-bit overflow of durations: times are unbounded integers.
- Lost updates: a touch that lands inside a pass can be overwritten by its status patch; passes and touches are atomic here.
- Crashes inside a pass and create calls that succeed while reporting an error.
- Informer-cache staleness, watches, field indexers and server-defaulted labels.
- Malformed label selectors and quantities: selectors are lists of well-formed requirements, quantities integers.
- Warning keys: Duration.String is taken as injective.
- Owner references, and the details of the quota, limit range and network policy builders beyond the desired value.
- TargetGate: a counting semaphore.
- The generic webhook's create, expire and touch endpoints, HTTP, HMAC and JSON handling, and PolicyForRepo; a GitHub close event may also delete a lease that records no source at all, as the source allows.
- Deletion of ClusterTargets, which waits for the leases whose clusterRef names them.
- The command line, beyond that extend and touch call the lease functions.
- Users who remove finalizers or rewrite the status of a lease.
- Liveness: a lease that fails validation never reaches its expiry check, and cleanup waits for disabled or unreachable targets.
- Policy.ExplicitResolution: for specs that leave fields to defaults only the limits are stated, not independence of the policy.
- SoftCapacity.CapacityOvershoot: covers targets not named like the control cluster and leases without clusterRef whose phase is not Expired when they are placed, under fixed limits and current counts; SoftCapacity.ReservedNameIsNeverFull and SoftCapacity.ExpiredLeaseIgnoresLimit show why the first and the last are needed, and the source never checks a clusterRef against the limit.
- FirstPasses.FirstPassesWarnOnce: everything but the clock stays fixed over the run, and status writes succeed; WarningRuns.NeverTwiceIff covers changing deadlines and lost writes.
- Convergence.ReadyPassIsQuiescent: on a remote cluster the first ready pass is excluded, because there the next pass does write: the source drops the cluster's identity from the status in that pass and restores it in the next.
- Lifecycle.RunIsHistoric: states the timestamps up to expirationReason, which deletion and the webhook also write.
