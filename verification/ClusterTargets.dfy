/** The health pass over a ClusterTarget and its sticky identity
    (internal/controller/clustertarget_controller.go). */
module ClusterTargets {
  import opened Api
  import opened PlacementDecision
  import opened SoftCapacity

  datatype TargetConditionType = TargetReady | Authenticated | Reachable | TargetDegraded

  datatype TargetReason = ClusterTargetDisabled | CredentialsInvalid | ClusterUnreachable | IdentityDrift | ClusterReachable

  datatype TargetCondition = TargetCondition(isTrue: bool, reason: TargetReason, observedGeneration: int)

  datatype Capacity = Capacity(active: int, max: Option<int>)

  datatype TargetStatus = TargetStatus(
    conditions: map<TargetConditionType, TargetCondition>,
    remoteIdentity: string,
    version: string,
    capacity: Option<Capacity>,
    observedGeneration: int)

  const NEW_TARGET := TargetStatus(map[], "", "", None, 0)

  datatype TargetSpec = TargetSpec(name: string, generation: int, enabled: bool, maxActiveLeases: Option<int>)

  /** What the outside answers during one pass: whether the credentials parse, the
      server version, whether a client can be built, the live identity (never ""),
      the listing by cluster name and the full listing, and whether the status
      write goes through. */
  datatype Answers = Answers(
    credentialsOk: bool, version: Option<string>, clientOk: bool, live: Option<string>,
    byCluster: Option<seq<Lease>>, all: Option<seq<Lease>>, writeOk: bool)

  function Conditions(m: map<TargetConditionType, TargetCondition>, ready: bool, authenticated: bool, reachable: bool,
                      r: TargetReason, g: int): map<TargetConditionType, TargetCondition>
  {
    m[Authenticated := TargetCondition(authenticated, r, g)][Reachable := TargetCondition(reachable, r, g)]
     [TargetReady := TargetCondition(ready, r, g)]
  }

  function Degrade(m: map<TargetConditionType, TargetCondition>, isTrue: bool, r: TargetReason, g: int)
    : map<TargetConditionType, TargetCondition>
  {
    m[TargetDegraded := TargetCondition(isTrue, r, g)]
  }

  function CountListed(items: seq<Lease>): nat {
    if items == [] then 0
    else
      var l := items[|items| - 1];
      CountListed(items[..|items| - 1]) + (if !l.meta.deleting && l.status.phase != Phase.Expired then 1 else 0)
  }

  /** Without the index the count comes from all leases; without either it is 0. */
  function ActiveOn(name: string, a: Answers): int {
    if a.byCluster.Some? then CountListed(a.byCluster.value)
    else if a.all.Some? then CountIn(a.all.value, name)
    else 0
  }

  /** The identity after a pass that probed `live`: the first one sticks. */
  function Sticky(recorded: string, live: string): string {
    if recorded == "" then live else recorded
  }

  /** The status a health pass tries to write. */
  function Probed(t: TargetSpec, s: TargetStatus, a: Answers): TargetStatus {
    var g := t.generation;
    var s := s.(observedGeneration := g);
    if !t.enabled then s.(conditions := Conditions(s.conditions, false, false, false, ClusterTargetDisabled, g))
    else if !a.credentialsOk then s.(conditions := Conditions(s.conditions, false, false, false, CredentialsInvalid, g))
    else if a.version.None? then
      s.(conditions := Degrade(Conditions(s.conditions, false, true, false, ClusterUnreachable, g), true, ClusterUnreachable, g))
    else if !a.clientOk then s.(conditions := Conditions(s.conditions, false, false, false, CredentialsInvalid, g))
    else if a.live.None? then s.(conditions := Conditions(s.conditions, false, true, false, ClusterUnreachable, g))
    else if Sticky(s.remoteIdentity, a.live.value) != a.live.value then
      s.(conditions := Degrade(Conditions(s.conditions, false, true, true, IdentityDrift, g), true, IdentityDrift, g))
    else
      s.(remoteIdentity := Sticky(s.remoteIdentity, a.live.value), version := a.version.value,
         conditions := Degrade(Conditions(s.conditions, true, true, true, ClusterReachable, g), false, ClusterReachable, g),
         capacity := Some(Capacity(ActiveOn(t.name, a), t.maxActiveLeases)))
  }

  /** The stored status after a health pass. */
  function Health(t: TargetSpec, s: TargetStatus, a: Answers): TargetStatus {
    if a.writeOk then Probed(t, s, a) else s
  }

  class ClusterTargetReconciler {
    var stored: TargetStatus

    constructor ()
      ensures stored == NEW_TARGET
    {
      stored := NEW_TARGET;
    }

    /** Status().Update */
    method Update(s: TargetStatus, ok: bool)
      modifies this`stored
      ensures stored == if ok then s else old(stored)
    {
      if ok { stored := s; }
    }

    method RefreshCapacity(t: TargetSpec, a: Answers) returns (c: Capacity)
      ensures c == Capacity(ActiveOn(t.name, a), t.maxActiveLeases)
    {
      var active := 0;
      if a.byCluster.None? {
        if a.all.Some? {
          var counts := CountActiveLeases(a.all.value);
          active := CountOf(counts, t.name);
        }
      } else {
        var items := a.byCluster.value;
        for i := 0 to |items|
          invariant active == CountListed(items[..i])
        {
          assert items[..i + 1][..i] == items[..i];
          if !items[i].meta.deleting && items[i].status.phase != Phase.Expired {
            active := active + 1;
          }
        }
        assert items[..|items|] == items;
      }
      c := Capacity(active, t.maxActiveLeases);
    }

    method ReconcileHealth(t: TargetSpec, a: Answers) returns (dropClient: bool)
      modifies this`stored
      ensures stored == Health(t, old(stored), a)
      ensures dropClient <==>
                if !t.enabled then a.writeOk
                else a.credentialsOk && a.version.Some? && a.clientOk && a.live.Some?
                     && old(stored).remoteIdentity !in {"", a.live.value}
    {
      var s := stored;
      var g := t.generation;
      s := s.(observedGeneration := g);
      if !t.enabled {
        s := s.(conditions := Conditions(s.conditions, false, false, false, ClusterTargetDisabled, g));
        Update(s, a.writeOk);
        return a.writeOk;
      }
      if !a.credentialsOk {
        s := s.(conditions := Conditions(s.conditions, false, false, false, CredentialsInvalid, g));
        Update(s, a.writeOk);
        return false;
      }
      if a.version.None? {
        s := s.(conditions := Conditions(s.conditions, false, true, false, ClusterUnreachable, g));
        s := s.(conditions := Degrade(s.conditions, true, ClusterUnreachable, g));
        Update(s, a.writeOk);
        return false;
      }
      if !a.clientOk {
        s := s.(conditions := Conditions(s.conditions, false, false, false, CredentialsInvalid, g));
        Update(s, a.writeOk);
        return false;
      }
      if a.live.None? {
        s := s.(conditions := Conditions(s.conditions, false, true, false, ClusterUnreachable, g));
        Update(s, a.writeOk);
        return false;
      }
      if s.remoteIdentity == "" {
        s := s.(remoteIdentity := a.live.value);
      } else if s.remoteIdentity != a.live.value {
        s := s.(conditions := Conditions(s.conditions, false, true, true, IdentityDrift, g));
        s := s.(conditions := Degrade(s.conditions, true, IdentityDrift, g));
        Update(s, a.writeOk);
        return true;
      }
      s := s.(version := a.version.value);
      s := s.(conditions := Conditions(s.conditions, true, true, true, ClusterReachable, g));
      s := s.(conditions := Degrade(s.conditions, false, ClusterReachable, g));
      var capacity := RefreshCapacity(t, a);
      s := s.(capacity := Some(capacity));
      Update(s, a.writeOk);
      return false;
    }
  }

  // --------------------------------------------------------------------- runs

  datatype Pass = Pass(spec: TargetSpec, answers: Answers)

  function Run(passes: seq<Pass>): TargetStatus {
    if passes == [] then NEW_TARGET
    else Health(passes[|passes| - 1].spec, Run(passes[..|passes| - 1]), passes[|passes| - 1].answers)
  }

  predicate IsReady(s: TargetStatus) {
    TargetReady in s.conditions && s.conditions[TargetReady].isTrue
  }

  /** The pass wrote its result after a full probe that found this identity. */
  predicate Confirms(p: Pass, identity: string) {
    p.spec.enabled && p.answers.writeOk && p.answers.credentialsOk && p.answers.version.Some? && p.answers.clientOk
    && p.answers.live == Some(identity)
  }

  /** Ready, exactly: the last pass whose write went through probed the identity
      that is recorded. */
  ghost predicate ConfirmedBy(passes: seq<Pass>, identity: string, i: nat) {
    && i < |passes| && Confirms(passes[i], identity)
    && forall j :: i < j < |passes| ==> !passes[j].answers.writeOk
  }

  lemma {:induction false} ReadyIffConfirmed(passes: seq<Pass>)
    ensures var s := Run(passes);
            IsReady(s) <==> exists i: nat :: ConfirmedBy(passes, s.remoteIdentity, i)
  {
    if passes != [] {
      var m := |passes| - 1;
      var before, p := passes[..m], passes[m];
      ReadyIffConfirmed(before);
      var s0, s := Run(before), Run(passes);
      if !p.answers.writeOk {
        assert s == s0;
        if IsReady(s) {
          var i: nat :| ConfirmedBy(before, s0.remoteIdentity, i);
          assert ConfirmedBy(passes, s.remoteIdentity, i);
        }
        if i: nat :| ConfirmedBy(passes, s.remoteIdentity, i) {
          assert i < m;
          assert ConfirmedBy(before, s0.remoteIdentity, i);
        }
      } else {
        assert IsReady(s) <==> Confirms(p, s.remoteIdentity);
        if IsReady(s) { assert ConfirmedBy(passes, s.remoteIdentity, m); }
        if i: nat :| ConfirmedBy(passes, s.remoteIdentity, i) { assert i == m; }
      }
    }
  }

  /** The recorded identity is written once: it survives every run of credential
      swaps, outages, edits and lost writes. */
  lemma {:induction false} IdentityIsWriteOnce(passes: seq<Pass>, n: nat)
    requires n <= |passes| && Run(passes[..n]).remoteIdentity != ""
    ensures Run(passes).remoteIdentity == Run(passes[..n]).remoteIdentity
  {
    if n == |passes| {
      assert passes[..n] == passes;
    } else {
      var before := passes[..|passes| - 1];
      assert before[..n] == passes[..n];
      IdentityIsWriteOnce(before, n);
    }
  }

  /** A swapped cluster is refused: the first pass that writes while the recorded
      identity is not the one that answers - another one, or none at all - makes
      the target not Ready and keeps the identity. */
  lemma SwapIsRefused(passes: seq<Pass>, p: Pass)
    requires Run(passes).remoteIdentity != "" && p.answers.writeOk
    requires p.answers.live != Some(Run(passes).remoteIdentity)
    ensures !IsReady(Run(passes + [p])) && Run(passes + [p]).remoteIdentity == Run(passes).remoteIdentity
  {
    assert (passes + [p])[..|passes|] == passes;
  }

  // ----------------------------------------------------------------- capacity

  /** The listing by cluster name: the leases whose status names the target. */
  function Listed(items: seq<Lease>, name: string): seq<Lease> {
    if items == [] then []
    else
      var l := items[|items| - 1];
      Listed(items[..|items| - 1], name) + (if StickyCluster(l) == name then [l] else [])
  }

  /** The two ways to count agree on every target that is not named like the
      control cluster. */
  lemma {:induction false} CountsAgree(items: seq<Lease>, name: string)
    requires name != "" && name != LOCAL_CLUSTER_NAME
    ensures CountListed(Listed(items, name)) == CountIn(items, name)
  {
    if items != [] {
      var init, l := items[..|items| - 1], items[|items| - 1];
      CountsAgree(init, name);
      if StickyCluster(l) == name {
        var listed := Listed(items, name);
        assert listed == Listed(init, name) + [l];
        assert listed[..|listed| - 1] == Listed(init, name) && listed[|listed| - 1] == l;
      } else {
        assert Listed(items, name) == Listed(init, name);
      }
    }
  }
}
