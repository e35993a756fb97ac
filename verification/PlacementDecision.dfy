/** Cluster placement (internal/placement/decide.go). */
module PlacementDecision {
  import opened Api
  import opened Policy
  import opened Sorting

  /** What the API server answers while one decision is taken: a target absent
      from `get` stands for any failed read. */
  datatype HubView = HubView(get: map<string, Target>, list: Option<seq<Target>>)

  datatype Decision = Decision(clusterName: string, pending: bool, reselected: bool)

  datatype DecideError = MutuallyExclusive | TargetReadFailed | PolicyMismatch | ListFailed

  function SchedulingLabels(t: Target): Labels {
    t.specLabels + t.metaLabels
  }

  predicate Satisfies(r: Requirement, labels: Labels) {
    match r
    case In(key, values) => key in labels && labels[key] in values
    case NotIn(key, values) => key in labels ==> labels[key] !in values
    case Exists(key) => key in labels
    case DoesNotExist(key) => key !in labels
  }

  predicate SelectorMatches(s: Selector, labels: Labels) {
    forall r :: r in s.requirements ==> Satisfies(r, labels)
  }

  function PolicyPlacement(policy: Option<LeasePolicy>): Option<Placement> {
    if policy.Some? then policy.value.spec.placement else None
  }

  function SelectorFromPlacement(p: Option<Placement>): Option<Selector> {
    if p.Some? then p.value.selector else None
  }

  predicate MatchesSelectors(t: Target, leaseSel: Option<Selector>, policySel: Option<Selector>) {
    && (leaseSel.Some? ==> SelectorMatches(leaseSel.value, SchedulingLabels(t)))
    && (policySel.Some? ==> SelectorMatches(policySel.value, SchedulingLabels(t)))
  }

  predicate TargetHealthyEnabled(t: Target) {
    !t.deleting && t.enabled && t.ready
  }

  /** counts reads as 0 for an absent name. */
  function CountOf(counts: map<string, int>, name: string): int {
    if name in counts then counts[name] else 0
  }

  predicate UnderSoftCapacity(t: Target, counts: map<string, int>) {
    t.maxActiveLeases.Some? ==> CountOf(counts, t.name) < t.maxActiveLeases.value
  }

  predicate Eligible(t: Target, leaseSel: Option<Selector>, policySel: Option<Selector>, counts: map<string, int>) {
    TargetHealthyEnabled(t) && MatchesSelectors(t, leaseSel, policySel) && UnderSoftCapacity(t, counts)
  }

  function EligibleNames(ts: seq<Target>, leaseSel: Option<Selector>, policySel: Option<Selector>,
                         counts: map<string, int>): seq<string> {
    if ts == [] then []
    else
      var t := ts[|ts| - 1];
      EligibleNames(ts[..|ts| - 1], leaseSel, policySel, counts)
      + (if Eligible(t, leaseSel, policySel, counts) then [t.name] else [])
  }

  /** status.capacity stands in for the counts when none are given. */
  function CapacityCounts(ts: seq<Target>): map<string, int> {
    if ts == [] then map[]
    else
      var t := ts[|ts| - 1];
      var counts := CapacityCounts(ts[..|ts| - 1]);
      if t.capacity.Some? then counts[t.name := t.capacity.value] else counts
  }

  function HashKey(uid: string, name: string): string {
    if uid == "" then name else uid
  }

  /** `hash` stands for the first eight bytes of SHA-256. */
  function PickStable(hash: string -> nat, uid: string, name: string, candidates: seq<string>): string
    requires candidates != []
  {
    candidates[hash(HashKey(uid, name)) % |candidates|]
  }

  function Selected(hash: string -> nat, uid: string, name: string, ts: seq<Target>,
                    leaseSel: Option<Selector>, policySel: Option<Selector>, counts: Option<map<string, int>>)
    : Decision
  {
    var names := EligibleNames(ts, leaseSel, policySel, counts.GetOr(CapacityCounts(ts)));
    if names == [] then Decision("", true, false)
    else
      SortNonEmpty(names);
      Decision(PickStable(hash, uid, name, Sort(names, NameLE)), false, false)
  }

  lemma SortNonEmpty(names: seq<string>)
    ensures multiset(Sort(names, NameLE)) == multiset(names)
    ensures |Sort(names, NameLE)| == |names|
  {
    NameLEIsTotal();
    SortSorts(names, NameLE);
    assert |names| == |multiset(names)|;
    assert |Sort(names, NameLE)| == |multiset(Sort(names, NameLE))|;
  }

  method SelectFromCandidates(hash: string -> nat, uid: string, name: string, list: Option<seq<Target>>,
                              leaseSel: Option<Selector>, policySel: Option<Selector>,
                              given: Option<map<string, int>>)
    returns (r: Result<Decision, DecideError>)
    ensures list.None? ==> r == Err(ListFailed)
    ensures list.Some? ==> r == Ok(Selected(hash, uid, name, list.value, leaseSel, policySel, given))
  {
    if list.None? {
      return Err(ListFailed);
    }
    var items := list.value;
    var counts := given.GetOr(map[]);
    if given.None? {
      for i := 0 to |items|
        invariant counts == CapacityCounts(items[..i])
      {
        assert items[..i + 1][..i] == items[..i];
        if items[i].capacity.Some? {
          counts := counts[items[i].name := items[i].capacity.value];
        }
      }
      assert items[..|items|] == items;
    }
    var candidates: seq<string> := [];
    for i := 0 to |items|
      invariant candidates == EligibleNames(items[..i], leaseSel, policySel, counts)
    {
      assert items[..i + 1][..i] == items[..i];
      var t := items[i];
      if !TargetHealthyEnabled(t) {
        continue;
      }
      if !MatchesSelectors(t, leaseSel, policySel) {
        continue;
      }
      if !UnderSoftCapacity(t, counts) {
        continue;
      }
      candidates := candidates + [t.name];
    }
    assert items[..|items|] == items;
    if candidates == [] {
      return Ok(Decision("", true, false));
    }
    SortNonEmpty(candidates);
    candidates := Sort(candidates, NameLE);
    return Ok(Decision(PickStable(hash, uid, name, candidates), false, false));
  }

  // ------------------------------------------------------------------- Decide

  predicate NeedsPlacement(l: Lease, policy: Option<LeasePolicy>) {
    l.spec.placement.Some? || SelectorFromPlacement(PolicyPlacement(policy)).Some?
  }

  predicate Provisioned(l: Lease) {
    l.status.namespace != ""
  }

  function StickyCluster(l: Lease): string {
    if l.status.cluster.Some? then l.status.cluster.value.name else ""
  }

  function SelectIn(hash: string -> nat, view: HubView, l: Lease, policy: Option<LeasePolicy>,
                    counts: Option<map<string, int>>, reselected: bool): Result<Decision, DecideError>
  {
    if view.list.None? then Err(ListFailed)
    else
      var d := Selected(hash, l.meta.uid, l.meta.name, view.list.value, SelectorFromPlacement(l.spec.placement),
                        SelectorFromPlacement(PolicyPlacement(policy)), counts);
      Ok(d.(reselected := reselected))
  }

  predicate StickyStillFits(view: HubView, l: Lease, policy: Option<LeasePolicy>) {
    && StickyCluster(l) in view.get
    && var t := view.get[StickyCluster(l)];
       MatchesSelectors(t, SelectorFromPlacement(l.spec.placement), SelectorFromPlacement(PolicyPlacement(policy)))
       && TargetHealthyEnabled(t)
  }

  function Decide(hash: string -> nat, view: HubView, l: Lease, policy: Option<LeasePolicy>,
                  counts: Option<map<string, int>>): Result<Decision, DecideError>
  {
    var policySel := SelectorFromPlacement(PolicyPlacement(policy));
    var sticky := StickyCluster(l);
    var toLocal := Decision(LOCAL_CLUSTER_NAME, false, false);
    if l.spec.clusterRef != "" && l.spec.placement.Some? then Err(MutuallyExclusive)
    else if l.spec.clusterRef != "" then
      if l.spec.clusterRef !in view.get then Err(TargetReadFailed)
      else if policySel.Some? && !SelectorMatches(policySel.value, SchedulingLabels(view.get[l.spec.clusterRef]))
      then Err(PolicyMismatch)
      else Ok(Decision(l.spec.clusterRef, false, false))
    else if sticky != "" && sticky != LOCAL_CLUSTER_NAME then
      if StickyStillFits(view, l, policy) || Provisioned(l) then Ok(Decision(sticky, false, false))
      else if NeedsPlacement(l, policy) then SelectIn(hash, view, l, policy, counts, true)
      else Ok(toLocal.(reselected := true))
    else if sticky == LOCAL_CLUSTER_NAME && Provisioned(l) then Ok(toLocal)
    else if NeedsPlacement(l, policy) then SelectIn(hash, view, l, policy, counts, false)
    else Ok(toLocal)
  }

  // --------------------------------------------------------------- properties

  /** Targets are named uniquely, and never "". */
  ghost predicate ProperList(ts: seq<Target>) {
    && (forall i, j :: 0 <= i < j < |ts| ==> ts[i].name != ts[j].name)
    && forall i :: 0 <= i < |ts| ==> ts[i].name != ""
  }

  lemma {:induction false} EligibleNamesSpec(ts: seq<Target>, ls: Option<Selector>, ps: Option<Selector>,
                                            counts: map<string, int>)
    ensures forall n :: n in EligibleNames(ts, ls, ps, counts) <==>
              exists t :: t in ts && t.name == n && Eligible(t, ls, ps, counts)
  {
    if ts != [] {
      EligibleNamesSpec(ts[..|ts| - 1], ls, ps, counts);
      assert ts == ts[..|ts| - 1] + [ts[|ts| - 1]];
    }
  }

  lemma {:induction false} EligibleNamesDistinct(ts: seq<Target>, ls: Option<Selector>, ps: Option<Selector>,
                                                counts: map<string, int>)
    requires ProperList(ts)
    ensures forall n :: multiset(EligibleNames(ts, ls, ps, counts))[n] <= 1
  {
    if ts != [] {
      var init, t := ts[..|ts| - 1], ts[|ts| - 1];
      EligibleNamesDistinct(init, ls, ps, counts);
      EligibleNamesSpec(init, ls, ps, counts);
      assert t.name !in EligibleNames(init, ls, ps, counts);
    }
  }

  /** The choice is an eligible target of the list; it is Pending iff there is none. */
  lemma SelectionIsEligible(hash: string -> nat, uid: string, name: string, ts: seq<Target>,
                            ls: Option<Selector>, ps: Option<Selector>, counts: map<string, int>)
    ensures var d := Selected(hash, uid, name, ts, ls, ps, Some(counts));
            && (d.pending <==> forall t :: t in ts ==> !Eligible(t, ls, ps, counts))
            && (!d.pending ==> exists t :: t in ts && t.name == d.clusterName && Eligible(t, ls, ps, counts))
  {
    var names := EligibleNames(ts, ls, ps, counts);
    EligibleNamesSpec(ts, ls, ps, counts);
    if names == [] {
      forall t | t in ts ensures !Eligible(t, ls, ps, counts) {
        assert t.name !in names;
      }
    } else {
      SortNonEmpty(names);
      assert names[0] in names;
      var d := Selected(hash, uid, name, ts, ls, ps, Some(counts));
      assert d.clusterName in multiset(Sort(names, NameLE));
      assert d.clusterName in names;
    }
  }

  /** Two listings with the same eligible targets - permuted, or with ineligible
      targets added or removed - give the same decision. */
  lemma SelectionIgnoresOrder(hash: string -> nat, uid: string, name: string, a: seq<Target>, b: seq<Target>,
                              ls: Option<Selector>, ps: Option<Selector>, counts: map<string, int>)
    requires ProperList(a) && ProperList(b)
    requires forall t :: Eligible(t, ls, ps, counts) ==> (t in a <==> t in b)
    ensures Selected(hash, uid, name, a, ls, ps, Some(counts)) == Selected(hash, uid, name, b, ls, ps, Some(counts))
  {
    var na, nb := EligibleNames(a, ls, ps, counts), EligibleNames(b, ls, ps, counts);
    EligibleNamesSpec(a, ls, ps, counts);
    EligibleNamesSpec(b, ls, ps, counts);
    EligibleNamesDistinct(a, ls, ps, counts);
    EligibleNamesDistinct(b, ls, ps, counts);
    forall n ensures multiset(na)[n] == multiset(nb)[n] {
      assert n in na <==> n in nb;
      assert n in na <==> multiset(na)[n] > 0;
      assert n in nb <==> multiset(nb)[n] > 0;
    }
    assert multiset(na) == multiset(nb);
    NameLEIsTotal();
    SortIgnoresOrder(na, nb, NameLE);
    assert |na| == |multiset(na)| && |nb| == |multiset(nb)|;
  }

  /** l with the decided cluster on record. */
  function Decided(l: Lease, status: ClusterStatus): Lease {
    l.(status := l.status.(cluster := Some(status)))
  }

  /** A placement put an unprovisioned lease on a target that bears the name of
      the control cluster. */
  predicate OnReservedName(l: Lease, policy: Option<LeasePolicy>, name: string) {
    name == LOCAL_CLUSTER_NAME && l.spec.clusterRef == "" && !Provisioned(l) && NeedsPlacement(l, policy)
  }

  /** The recorded cluster is still there for the lease: a clusterRef needs its
      target to match the policy, any other lease a healthy matching target; the
      control cluster, unless a placement chose the name, is always there. */
  predicate StillFits(view: HubView, l: Lease, policy: Option<LeasePolicy>) {
    if l.spec.clusterRef != "" then
      && StickyCluster(l) in view.get
      && var policySel := SelectorFromPlacement(PolicyPlacement(policy));
         (policySel.Some? ==> SelectorMatches(policySel.value, SchedulingLabels(view.get[StickyCluster(l)])))
    else
      StickyStillFits(view, l, policy)
      || (StickyCluster(l) == LOCAL_CLUSTER_NAME && !OnReservedName(l, policy, LOCAL_CLUSTER_NAME))
  }

  /** Deciding again names the recorded cluster. */
  predicate StaysWith(hash: string -> nat, view: HubView, l: Lease, policy: Option<LeasePolicy>,
                      counts: Option<map<string, int>>)
  {
    var again := Decide(hash, view, l, policy, counts);
    again.Ok? && !again.value.pending && again.value.clusterName == StickyCluster(l)
  }

  /** Persisting a decision makes it a fixed point of Decide under all counts and
      all targets among which the decided one still fits - iff no placement chose
      a target named like the control cluster. */
  lemma DecisionIsStableIff(hash: string -> nat, view: HubView, l: Lease, policy: Option<LeasePolicy>,
                            counts: Option<map<string, int>>, status: ClusterStatus)
    requires Decide(hash, view, l, policy, counts).Ok? && !Decide(hash, view, l, policy, counts).value.pending
    requires status.name == Decide(hash, view, l, policy, counts).value.clusterName != ""
    ensures !OnReservedName(l, policy, status.name) <==>
              forall later: HubView, laterCounts: Option<map<string, int>> ::
                StillFits(later, Decided(l, status), policy) ==> StaysWith(hash, later, Decided(l, status), policy, laterCounts)
  {
    if !OnReservedName(l, policy, status.name) {
      forall later: HubView, laterCounts: Option<map<string, int>> | StillFits(later, Decided(l, status), policy)
        ensures StaysWith(hash, later, Decided(l, status), policy, laterCounts)
      {
        DecisionIsStable(hash, view, later, l, policy, counts, laterCounts, status);
      }
    } else {
      var ls, ps := SelectorFromPlacement(l.spec.placement), SelectorFromPlacement(PolicyPlacement(policy));
      var current := counts.GetOr(CapacityCounts(view.list.value));
      SelectionIsEligible(hash, l.meta.uid, l.meta.name, view.list.value, ls, ps, current);
      var t :| t in view.list.value && t.name == LOCAL_CLUSTER_NAME && Eligible(t, ls, ps, current);
      var later := HubView(map[LOCAL_CLUSTER_NAME := t], Some([]));
      assert StillFits(later, Decided(l, status), policy);
      assert Decide(hash, later, Decided(l, status), policy, None)
             == SelectIn(hash, later, Decided(l, status), policy, None, false);
      assert !StaysWith(hash, later, Decided(l, status), policy, None);
    }
  }

  lemma DecisionIsStable(hash: string -> nat, view: HubView, later: HubView, l: Lease, policy: Option<LeasePolicy>,
                         counts: Option<map<string, int>>, laterCounts: Option<map<string, int>>, status: ClusterStatus)
    requires Decide(hash, view, l, policy, counts).Ok? && !Decide(hash, view, l, policy, counts).value.pending
    requires status.name == Decide(hash, view, l, policy, counts).value.clusterName != ""
    requires !OnReservedName(l, policy, status.name) && StillFits(later, Decided(l, status), policy)
    ensures StaysWith(hash, later, Decided(l, status), policy, laterCounts)
  {
  }

  /** Such a lease does move: placed on the ready target "local" while that has
      room, it goes to "b" once the counts say "local" is full, though "local" is
      still healthy and matching. */
  lemma ReservedNameMoves(hash: string -> nat, l: Lease)
    requires l.spec.clusterRef == "" && !Provisioned(l) && StickyCluster(l) == ""
    requires l.spec.placement == Some(Placement(None))
    ensures var t := Target(LOCAL_CLUSTER_NAME, "u1", map[], map[], false, true, Some(1), true, "", None);
            var b := Target("b", "u2", map[], map[], false, true, None, true, "", None);
            var view := HubView(map[LOCAL_CLUSTER_NAME := t], Some([t]));
            var later := HubView(map[LOCAL_CLUSTER_NAME := t, "b" := b], Some([t, b]));
            var after := Decided(l, ClusterStatus(LOCAL_CLUSTER_NAME, "", ""));
            && Decide(hash, view, l, None, Some(map[])) == Ok(Decision(LOCAL_CLUSTER_NAME, false, false))
            && StickyStillFits(later, after, None)
            && Decide(hash, later, after, None, Some(map[LOCAL_CLUSTER_NAME := 1])) == Ok(Decision("b", false, false))
  {
    var t := Target(LOCAL_CLUSTER_NAME, "u1", map[], map[], false, true, Some(1), true, "", None);
    var b := Target("b", "u2", map[], map[], false, true, None, true, "", None);
    OneEligible(hash, l, [], t, map[]);
    assert [t] + [b] == [t, b];
    OneEligible(hash, Decided(l, ClusterStatus(LOCAL_CLUSTER_NAME, "", "")), [t], b, map[LOCAL_CLUSTER_NAME := 1]);
    assert [] + [t] == [t];
  }

  /** The only eligible target is chosen. */
  lemma OneEligible(hash: string -> nat, l: Lease, others: seq<Target>, t: Target, counts: map<string, int>)
    requires Eligible(t, None, None, counts) && EligibleNames(others, None, None, counts) == []
    ensures Selected(hash, l.meta.uid, l.meta.name, others + [t], None, None, Some(counts)) == Decision(t.name, false, false)
  {
    assert (others + [t])[..|others|] == others;
    assert EligibleNames(others + [t], None, None, counts) == [t.name];
    assert Sort([t.name][1..], NameLE) == [];
    assert Sort([t.name], NameLE) == [t.name];
  }

  /** Once a namespace exists, a lease without a clusterRef stays where it is
      whatever the targets, labels, policy or counts have become. */
  lemma ProvisionedStaysPut(hash: string -> nat, view: HubView, l: Lease, policy: Option<LeasePolicy>,
                            counts: Option<map<string, int>>)
    requires l.spec.clusterRef == "" && Provisioned(l) && StickyCluster(l) != ""
    ensures Decide(hash, view, l, policy, counts) == Ok(Decision(StickyCluster(l), false, false))
  {
  }
}
