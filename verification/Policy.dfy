/** Policy resolution (internal/policy/resolve.go). */
module Policy {
  import opened Api

  datatype DurationPolicy = DurationPolicy(default: Option<int>, maximum: Option<int>, minimum: Option<int>)

  datatype BoolPolicy = BoolPolicy(default: Option<bool>, force: Option<bool>)

  datatype QuotaPolicy = QuotaPolicy(maxCPU: Option<int>, maxMemory: Option<int>)

  datatype NetworkPolicyPolicy = NetworkPolicyPolicy(defaultDenyRequired: bool, defaultDenyDefault: Option<bool>)

  datatype PolicySpec = PolicySpec(
    ttl: Option<DurationPolicy>,
    maxTTL: Option<DurationPolicy>,
    idleTTL: Option<DurationPolicy>,
    renewable: Option<BoolPolicy>,
    quota: Option<QuotaPolicy>,
    networkPolicy: Option<NetworkPolicyPolicy>,
    placement: Option<Placement>)

  datatype LeasePolicy = LeasePolicy(name: string, spec: PolicySpec)

  datatype Resolved = Resolved(
    policyName: string, ttl: int, maxTTL: int, idleTTL: int, renewable: bool,
    quota: Option<Quota>, networkPolicy: Option<NetworkPolicySpec>, defaultDeny: bool)

  datatype PolicyError =
    | BadDefault | BadMinimum | Required | NotPositive | BelowMinimum | AboveMaximum
    | MaxBelowTTL | MaxAboveTTLMaximum | Forced | QuotaExceeded | DenyRequired

  const CPU := "cpu"
  const MEMORY := "memory"

  const NO_POLICY := PolicySpec(None, None, None, None, None, None, None)

  function CheckDurationPolicy(d: Option<DurationPolicy>): Option<PolicyError> {
    if d.None? then None
    else if d.value.default.Some? && d.value.maximum.Some? && d.value.default.value > d.value.maximum.value
    then Some(BadDefault)
    else if d.value.minimum.Some? && d.value.maximum.Some? && d.value.minimum.value > d.value.maximum.value
    then Some(BadMinimum)
    else None
  }

  function ValidatePolicySpec(p: PolicySpec): Option<PolicyError> {
    if CheckDurationPolicy(p.ttl).Some? then CheckDurationPolicy(p.ttl)
    else if CheckDurationPolicy(p.maxTTL).Some? then CheckDurationPolicy(p.maxTTL)
    else CheckDurationPolicy(p.idleTTL)
  }

  /** 0 stands for an unset optional duration. */
  function ResolveDuration(value: Option<int>, pol: Option<DurationPolicy>, required: bool): Result<int, PolicyError> {
    if value.None? && (pol.None? || pol.value.default.None?) then
      if required then Err(Required) else Ok(0)
    else
      var d := if value.Some? then value.value else pol.value.default.value;
      if d <= 0 then Err(NotPositive)
      else if pol.Some? && pol.value.minimum.Some? && d < pol.value.minimum.value then Err(BelowMinimum)
      else if pol.Some? && pol.value.maximum.Some? && d > pol.value.maximum.value then Err(AboveMaximum)
      else Ok(d)
  }

  function ResolveBool(value: Option<bool>, pol: Option<BoolPolicy>): Result<bool, PolicyError> {
    var v := if value.Some? then value.value
             else if pol.Some? && pol.value.default.Some? then pol.value.default.value
             else true;
    if pol.Some? && pol.value.force.Some? && v != pol.value.force.value then Err(Forced) else Ok(v)
  }

  predicate ListWithin(list: map<string, int>, pol: QuotaPolicy) {
    && (pol.maxCPU.Some? && CPU in list ==> list[CPU] <= pol.maxCPU.value)
    && (pol.maxMemory.Some? && MEMORY in list ==> list[MEMORY] <= pol.maxMemory.value)
  }

  predicate QuotaWithin(quota: Option<Quota>, pol: Option<QuotaPolicy>) {
    pol.None? || quota.None?
    || (ListWithin(quota.value.requests, pol.value) && ListWithin(quota.value.limits, pol.value))
  }

  function ResolveNetworkPolicy(np: Option<NetworkPolicySpec>, pol: Option<NetworkPolicyPolicy>)
    : Result<(Option<NetworkPolicySpec>, bool), PolicyError>
  {
    var defaultDeny :=
      if np.Some? then np.value.defaultDeny
      else if pol.Some? && pol.value.defaultDenyDefault.Some? then pol.value.defaultDenyDefault.value
      else false;
    var explicitFalse := np.Some? && !np.value.defaultDeny;
    if pol.Some? && pol.value.defaultDenyRequired && explicitFalse then Err(DenyRequired)
    else if (pol.Some? && pol.value.defaultDenyRequired) || defaultDeny
    then Ok((Some(NetworkPolicySpec(true)), true))
    else Ok((np, false))
  }

  /** Without a maxTTL policy, ttl.maximum serves as maxTTL default and ceiling. */
  function MaxTTLPolicy(p: PolicySpec): Option<DurationPolicy> {
    if p.maxTTL.None? && p.ttl.Some? && p.ttl.value.maximum.Some?
    then Some(DurationPolicy(p.ttl.value.maximum, p.ttl.value.maximum, None))
    else p.maxTTL
  }

  function TTLMaximum(p: PolicySpec): Option<int> {
    if p.ttl.Some? then p.ttl.value.maximum else None
  }

  /** A nil policy resolves like one that sets nothing. */
  function Resolve(spec: LeaseSpec, policy: Option<LeasePolicy>): Result<Resolved, PolicyError> {
    var p := if policy.Some? then policy.value.spec else NO_POLICY;
    var name := if policy.Some? then policy.value.name else "";
    if ValidatePolicySpec(p).Some? then Err(ValidatePolicySpec(p).value)
    else
      var ttl := ResolveDuration(spec.ttl, p.ttl, true);
      if ttl.Err? then Err(ttl.error) else
      var declared := ResolveDuration(spec.maxTTL, MaxTTLPolicy(p), false);
      if declared.Err? then Err(declared.error) else
      var maxTTL := if declared.value == 0 then ttl.value else declared.value;
      if maxTTL < ttl.value then Err(MaxBelowTTL)
      else if TTLMaximum(p).Some? && maxTTL > TTLMaximum(p).value && spec.maxTTL.Some? then Err(MaxAboveTTLMaximum)
      else
        var idle := ResolveDuration(spec.idleTTL, p.idleTTL, false);
        if idle.Err? then Err(idle.error) else
        var renewable := ResolveBool(spec.renewable, p.renewable);
        if renewable.Err? then Err(renewable.error)
        else if !QuotaWithin(spec.quota, p.quota) then Err(QuotaExceeded)
        else
          var np := ResolveNetworkPolicy(spec.networkPolicy, p.networkPolicy);
          if np.Err? then Err(np.error)
          else Ok(Resolved(name, ttl.value, maxTTL, idle.value, renewable.value, spec.quota, np.value.0, np.value.1))
  }

  function SpecOf(policy: Option<LeasePolicy>): PolicySpec {
    if policy.Some? then policy.value.spec else NO_POLICY
  }

  // --------------------------------------------------------------- properties

  ghost predicate WithinBounds(d: int, pol: Option<DurationPolicy>) {
    pol.Some? ==>
      && (pol.value.minimum.Some? ==> pol.value.minimum.value <= d)
      && (pol.value.maximum.Some? ==> d <= pol.value.maximum.value)
  }

  /** maxTTL was not declared by the spec or a default, so ttl stands in for it. */
  predicate FallsBackToTTL(spec: LeaseSpec, p: PolicySpec) {
    spec.maxTTL.None? && (MaxTTLPolicy(p).None? || MaxTTLPolicy(p).value.default.None?)
  }

  /** A successful resolution has 0 < ttl <= maxTTL and obeys every limit that
      bears on a value taken from the spec or a default. */
  lemma ResolvedObeysPolicy(spec: LeaseSpec, policy: Option<LeasePolicy>)
    requires Resolve(spec, policy).Ok?
    ensures var p, r := SpecOf(policy), Resolve(spec, policy).value;
            && 0 < r.ttl <= r.maxTTL && WithinBounds(r.ttl, p.ttl)
            && (!FallsBackToTTL(spec, p) ==> WithinBounds(r.maxTTL, MaxTTLPolicy(p)))
            && (spec.maxTTL.Some? && TTLMaximum(p).Some? ==> r.maxTTL <= TTLMaximum(p).value)
            && r.idleTTL >= 0 && (r.idleTTL > 0 ==> WithinBounds(r.idleTTL, p.idleTTL))
            && (p.renewable.Some? && p.renewable.value.force.Some? ==> r.renewable == p.renewable.value.force.value)
            && QuotaWithin(r.quota, p.quota)
            && (p.networkPolicy.Some? && p.networkPolicy.value.defaultDenyRequired ==> r.defaultDeny)
            && (r.defaultDeny <==> r.networkPolicy == Some(NetworkPolicySpec(true)))
  {
  }

  predicate Explicit(spec: LeaseSpec) {
    spec.ttl.Some? && spec.maxTTL.Some? && spec.idleTTL.Some? && spec.renewable.Some? && spec.networkPolicy.Some?
  }

  /** The limits a policy puts on a fully explicit spec, stated on their own. */
  ghost predicate Accepts(p: PolicySpec, spec: LeaseSpec)
    requires Explicit(spec)
  {
    && ValidatePolicySpec(p).None?
    && 0 < spec.ttl.value <= spec.maxTTL.value && spec.idleTTL.value > 0
    && WithinBounds(spec.ttl.value, p.ttl) && WithinBounds(spec.maxTTL.value, p.maxTTL)
    && WithinBounds(spec.idleTTL.value, p.idleTTL)
    && (TTLMaximum(p).Some? ==> spec.maxTTL.value <= TTLMaximum(p).value)
    && (p.renewable.Some? && p.renewable.value.force.Some? ==> spec.renewable.value == p.renewable.value.force.value)
    && QuotaWithin(spec.quota, p.quota)
    && (p.networkPolicy.Some? && p.networkPolicy.value.defaultDenyRequired ==> spec.networkPolicy.value.defaultDeny)
  }

  /** A fully explicit spec is accepted iff it meets the limits, and then its
      values are its own: no policy changes them. */
  lemma ExplicitResolution(spec: LeaseSpec, policy: Option<LeasePolicy>)
    requires Explicit(spec)
    ensures Resolve(spec, policy).Ok? <==> Accepts(SpecOf(policy), spec)
    ensures Resolve(spec, policy).Ok? ==>
              Resolve(spec, policy).value.(policyName := "")
              == Resolved("", spec.ttl.value, spec.maxTTL.value, spec.idleTTL.value, spec.renewable.value,
                          spec.quota, spec.networkPolicy, spec.networkPolicy.value.defaultDeny)
  {
    var p := SpecOf(policy);
    assert ResolveDuration(spec.ttl, p.ttl, true).Ok? <==> spec.ttl.value > 0 && WithinBounds(spec.ttl.value, p.ttl);
    if spec.networkPolicy.value.defaultDeny {
      assert spec.networkPolicy == Some(NetworkPolicySpec(true));
    }
  }

  ghost predicate TighterMaximum(a: Option<int>, b: Option<int>) {
    a.Some? ==> b.Some? && b.value <= a.value
  }

  ghost predicate TighterDuration(a: Option<DurationPolicy>, b: Option<DurationPolicy>) {
    a.Some? ==>
      && b.Some? && b.value.default == a.value.default
      && TighterMaximum(a.value.maximum, b.value.maximum)
      && (a.value.minimum.Some? ==> b.value.minimum.Some? && a.value.minimum.value <= b.value.minimum.value)
  }

  /** b keeps every limit of a, possibly stricter, and may add more. */
  ghost predicate Tighter(a: PolicySpec, b: PolicySpec) {
    && TighterDuration(a.ttl, b.ttl) && TighterDuration(a.maxTTL, b.maxTTL) && TighterDuration(a.idleTTL, b.idleTTL)
    && (a.renewable.Some? && a.renewable.value.force.Some? ==>
          b.renewable.Some? && b.renewable.value.force == a.renewable.value.force)
    && (a.quota.Some? ==>
          && b.quota.Some?
          && TighterMaximum(a.quota.value.maxCPU, b.quota.value.maxCPU)
          && TighterMaximum(a.quota.value.maxMemory, b.quota.value.maxMemory))
    && (a.networkPolicy.Some? && a.networkPolicy.value.defaultDenyRequired ==>
          b.networkPolicy.Some? && b.networkPolicy.value.defaultDenyRequired)
  }

  /** Tightening a policy only removes acceptances; what stays accepted keeps its
      values. */
  lemma TighteningOnlyRejects(spec: LeaseSpec, a: LeasePolicy, b: LeasePolicy)
    requires Explicit(spec) && Tighter(a.spec, b.spec)
    requires Resolve(spec, Some(b)).Ok?
    ensures Resolve(spec, Some(a)).Ok?
    ensures Resolve(spec, Some(a)).value.(policyName := b.name) == Resolve(spec, Some(b)).value
  {
    ExplicitResolution(spec, Some(a));
    ExplicitResolution(spec, Some(b));
    TighterStaysValid(a.spec, b.spec);
  }

  lemma TighterStaysValid(a: PolicySpec, b: PolicySpec)
    requires Tighter(a, b) && ValidatePolicySpec(b).None?
    ensures ValidatePolicySpec(a).None?
  {
  }

  /** The spec that spells a resolution out. */
  function SpelledOut(spec: LeaseSpec, r: Resolved): LeaseSpec {
    spec.(ttl := Some(r.ttl), maxTTL := Some(r.maxTTL), renewable := Some(r.renewable),
          idleTTL := if r.idleTTL > 0 then Some(r.idleTTL) else None,
          quota := r.quota, networkPolicy := r.networkPolicy)
  }

  /** When the resolved maxTTL was never compared with the policy's bounds: the
      fallback to ttl skips maxTTL's own bounds, a default skips ttl.maximum. */
  predicate MaxTTLChecked(spec: LeaseSpec, p: PolicySpec, ttl: int) {
    spec.maxTTL.Some? || p.maxTTL.None? ||
    if p.maxTTL.value.default.Some? then TTLMaximum(p).None? || p.maxTTL.value.default.value <= TTLMaximum(p).value
    else
      && (p.maxTTL.value.minimum.Some? ==> p.maxTTL.value.minimum.value <= ttl)
      && (p.maxTTL.value.maximum.Some? ==> ttl <= p.maxTTL.value.maximum.value)
  }

  /** Resolving a spelled-out result again gives the same result iff its maxTTL
      had been checked. */
  lemma ResolveIsFixedPoint(spec: LeaseSpec, policy: Option<LeasePolicy>)
    requires Resolve(spec, policy).Ok?
    ensures var r := Resolve(spec, policy).value;
            Resolve(SpelledOut(spec, r), policy) == Ok(r) <==> MaxTTLChecked(spec, SpecOf(policy), r.ttl)
  {
    var r, p := Resolve(spec, policy).value, SpecOf(policy);
    var again := SpelledOut(spec, r);
    assert ResolveDuration(again.ttl, p.ttl, true) == Ok(r.ttl);
    assert ResolveDuration(again.idleTTL, p.idleTTL, false) == Ok(r.idleTTL);
    assert ResolveBool(again.renewable, p.renewable) == Ok(r.renewable);
    assert ResolveNetworkPolicy(again.networkPolicy, p.networkPolicy) == Ok((r.networkPolicy, r.defaultDeny));
    if FallsBackToTTL(spec, p) {
      assert r.maxTTL == r.ttl;
    }
  }

  /** Both ways of missing the check are real. */
  lemma UncheckedMaxTTL(spec: LeaseSpec)
    requires spec.ttl == Some(1) && spec.maxTTL.None? && spec.idleTTL.None? && spec.renewable.None?
             && spec.quota.None? && spec.networkPolicy.None?
    ensures var p := NO_POLICY.(maxTTL := Some(DurationPolicy(None, None, Some(10))));
            var r := Resolve(spec, Some(LeasePolicy("p", p)));
            r.Ok? && r.value.maxTTL == 1 && Resolve(SpelledOut(spec, r.value), Some(LeasePolicy("p", p))).Err?
    ensures var p := NO_POLICY.(ttl := Some(DurationPolicy(None, Some(5), None)),
                                maxTTL := Some(DurationPolicy(Some(10), None, None)));
            var r := Resolve(spec, Some(LeasePolicy("p", p)));
            r.Ok? && r.value.maxTTL == 10 && Resolve(SpelledOut(spec, r.value), Some(LeasePolicy("p", p))).Err?
  {
  }
}
