/** How far concurrent reconciles can exceed a target's soft capacity
    (CountActiveLeases in internal/placement/decide.go, and
    internal/controller/environmentlease_controller.go: counting and deciding
    come before the write that makes the choice visible). */
module SoftCapacity {
  import opened Api
  import opened Finite
  import opened Policy
  import opened PlacementDecision
  import opened Sorting

  /** The leases CountActiveLeases attributes to a target. */
  predicate Counted(l: Lease) {
    !l.meta.deleting && StickyCluster(l) != "" && StickyCluster(l) != LOCAL_CLUSTER_NAME && l.status.phase != Expired
  }

  function CountIn(items: seq<Lease>, target: string): nat {
    if items == [] then 0
    else
      var l := items[|items| - 1];
      CountIn(items[..|items| - 1], target) + (if Counted(l) && StickyCluster(l) == target then 1 else 0)
  }

  method CountActiveLeases(items: seq<Lease>) returns (counts: map<string, int>)
    ensures forall t :: CountOf(counts, t) == CountIn(items, t)
  {
    counts := map[];
    for i := 0 to |items|
      invariant forall t :: CountOf(counts, t) == CountIn(items[..i], t)
    {
      assert items[..i + 1][..i] == items[..i];
      var l := items[i];
      if l.meta.deleting {
        continue;
      }
      if l.status.cluster.None? || l.status.cluster.value.name == ""
         || l.status.cluster.value.name == LOCAL_CLUSTER_NAME {
        continue;
      }
      if l.status.phase == Expired {
        continue;
      }
      var name := l.status.cluster.value.name;
      counts := counts[name := CountOf(counts, name) + 1];
    }
    assert items[..|items|] == items;
  }

  /** The stored leases counted on a target. */
  function OnTarget(leases: map<string, Lease>, target: string): set<string> {
    set n | n in leases && Counted(leases[n]) && StickyCluster(leases[n]) == target
  }

  /** A listing shows every stored lease once. */
  ghost predicate Lists(items: seq<Lease>, leases: map<string, Lease>) {
    && (forall i :: 0 <= i < |items| ==> items[i].meta.name in leases && leases[items[i].meta.name] == items[i])
    && (forall n :: n in leases ==> exists i :: 0 <= i < |items| && items[i].meta.name == n)
    && forall i, j :: 0 <= i < j < |items| ==> items[i].meta.name != items[j].meta.name
  }

  function NamesOn(items: seq<Lease>, target: string): set<string> {
    if items == [] then {}
    else
      var l := items[|items| - 1];
      NamesOn(items[..|items| - 1], target) + (if Counted(l) && StickyCluster(l) == target then {l.meta.name} else {})
  }

  lemma {:induction false} NamesOnMembers(items: seq<Lease>, target: string)
    ensures forall n :: n in NamesOn(items, target) <==>
              exists i :: 0 <= i < |items| && items[i].meta.name == n && Counted(items[i]) && StickyCluster(items[i]) == target
  {
    if items != [] {
      var init, l := items[..|items| - 1], items[|items| - 1];
      NamesOnMembers(init, target);
      assert forall i :: 0 <= i < |init| ==> init[i] == items[i];
    }
  }

  lemma {:induction false} CountIsCardinality(items: seq<Lease>, target: string)
    requires forall i, j :: 0 <= i < j < |items| ==> items[i].meta.name != items[j].meta.name
    ensures CountIn(items, target) == |NamesOn(items, target)|
  {
    if items != [] {
      var init := items[..|items| - 1];
      CountIsCardinality(init, target);
      NamesOnMembers(init, target);
    }
  }

  lemma ListingCounts(items: seq<Lease>, leases: map<string, Lease>, target: string)
    requires Lists(items, leases)
    ensures CountIn(items, target) == |OnTarget(leases, target)|
  {
    CountIsCardinality(items, target);
    NamesOnMembers(items, target);
    forall n | n in OnTarget(leases, target) ensures n in NamesOn(items, target) {
      var i :| 0 <= i < |items| && items[i].meta.name == n;
      assert leases[items[i].meta.name] == items[i];
    }
    assert NamesOn(items, target) == OnTarget(leases, target);
  }

  // ------------------------------------------------------------- the protocol

  /** A worker between its decision and its status write. */
  datatype Worker = Idle | Assigning(lease: string, target: string)

  datatype State = State(leases: map<string, Lease>, workers: seq<Worker>)

  datatype Config = Config(hash: string -> nat, limits: map<string, int>)

  ghost predicate LimitsFixed(c: Config, view: HubView) {
    view.list.Some? ==>
      forall t :: t in view.list.value && t.name in c.limits ==> t.maxActiveLeases == Some(c.limits[t.name])
  }

  ghost predicate CountsAreCurrent(leases: map<string, Lease>, counts: map<string, int>) {
    forall t :: CountOf(counts, t) == |OnTarget(leases, t)|
  }

  /** A worker counts, decides, and holds on to its decision.  Its lease has no
      clusterRef and is neither going nor marked Expired. */
  ghost predicate Begin(c: Config, s: State, s': State, w: nat, n: string, view: HubView,
                        policy: Option<LeasePolicy>, counts: map<string, int>)
  {
    && w < |s.workers| && s.workers[w].Idle? && n in s.leases
    && s.leases[n].spec.clusterRef == "" && !s.leases[n].meta.deleting && s.leases[n].status.phase != Expired
    && LimitsFixed(c, view) && CountsAreCurrent(s.leases, counts)
    && var d := Decide(c.hash, view, s.leases[n], policy, Some(counts));
       d.Ok? && !d.value.pending
       && s' == s.(workers := s.workers[w := Assigning(n, d.value.clusterName)])
  }

  /** The status write: whatever else it changes, the lease is on the decided
      target.  A lease deleted meanwhile is not written. */
  ghost predicate Persist(s: State, s': State, w: nat, l: Lease) {
    && w < |s.workers| && s.workers[w].Assigning?
    && s'.workers == s.workers[w := Idle]
    && if s.workers[w].lease in s.leases
       then StickyCluster(l) == s.workers[w].target && s'.leases == s.leases[s.workers[w].lease := l]
       else s'.leases == s.leases
  }

  /** The worker gives up (an outage window, a failed write). */
  ghost predicate Abort(s: State, s': State, w: nat) {
    w < |s.workers| && s' == s.(workers := s.workers[w := Idle])
  }

  /** Everything else - creations, deletions, edits, expiry - puts no lease on a
      target. */
  ghost predicate Environment(s: State, s': State) {
    s'.workers == s.workers && forall t :: OnTarget(s'.leases, t) <= OnTarget(s.leases, t)
  }

  ghost predicate Next(c: Config, s: State, s': State) {
    || (exists w: nat, n, view, policy, counts :: Begin(c, s, s', w, n, view, policy, counts))
    || (exists w: nat, l :: Persist(s, s', w, l))
    || (exists w: nat :: Abort(s, s', w))
    || Environment(s, s')
  }

  ghost predicate Init(s: State, workers: nat) {
    s.leases == map[] && |s.workers| == workers && forall i :: 0 <= i < workers ==> s.workers[i].Idle?
  }

  ghost predicate IsRun(c: Config, states: seq<State>, workers: nat) {
    states != [] && Init(states[0], workers) && forall i :: 0 <= i < |states| - 1 ==> Next(c, states[i], states[i + 1])
  }

  /** Leases some worker is about to put on the target. */
  function InFlight(s: State, target: string): set<string> {
    set i | 0 <= i < |s.workers| && s.workers[i].Assigning? && s.workers[i].target == target :: s.workers[i].lease
  }

  /** Leases on the target or on their way to it. */
  function Committed(s: State, target: string): set<string> {
    OnTarget(s.leases, target) + InFlight(s, target)
  }

  /** No lease is let in at limit 0; above it, as many too many as there are other
      workers. */
  function Ceiling(limit: int, workers: nat): int {
    if limit <= 0 then 0 else limit + workers - 1
  }

  ghost predicate Bounded(c: Config, s: State) {
    forall t :: t in c.limits && t != "" && t != LOCAL_CLUSTER_NAME ==>
      |Committed(s, t)| <= Ceiling(c.limits[t], |s.workers|)
  }

  lemma UnionSize<T>(a: set<T>, b: set<T>)
    ensures |a + b| <= |a| + |b|
  {
    assert |a + b| == |a| + |b| - |a * b|;
  }

  lemma {:induction false} FlightSize(workers: seq<Worker>, target: string)
    ensures |InFlight(State(map[], workers), target)| <= |workers|
  {
    if workers != [] {
      var init, w := workers[..|workers| - 1], workers[|workers| - 1];
      FlightSize(init, target);
      var rest := InFlight(State(map[], init), target);
      var last: set<string> := if w.Assigning? then {w.lease} else {};
      assert forall i :: 0 <= i < |init| ==> init[i] == workers[i];
      assert InFlight(State(map[], workers), target) <= rest + last;
      SubsetSize(InFlight(State(map[], workers), target), rest + last);
      UnionSize(rest, last);
    }
  }

  /** A decision either stays where the lease is counted already, or picks a
      target below its limit. */
  lemma DecisionRespectsLimit(c: Config, view: HubView, l: Lease, policy: Option<LeasePolicy>, counts: map<string, int>)
    requires l.spec.clusterRef == "" && !l.meta.deleting && l.status.phase != Expired && LimitsFixed(c, view)
    requires Decide(c.hash, view, l, policy, Some(counts)).Ok?
    requires !Decide(c.hash, view, l, policy, Some(counts)).value.pending
    ensures var t := Decide(c.hash, view, l, policy, Some(counts)).value.clusterName;
            t == LOCAL_CLUSTER_NAME || t == "" || t !in c.limits
            || (Counted(l) && StickyCluster(l) == t) || CountOf(counts, t) < c.limits[t]
  {
    var t := Decide(c.hash, view, l, policy, Some(counts)).value.clusterName;
    if t != LOCAL_CLUSTER_NAME && t != StickyCluster(l) {
      var ls, ps := SelectorFromPlacement(l.spec.placement), SelectorFromPlacement(PolicyPlacement(policy));
      SelectionIsEligible(c.hash, l.meta.uid, l.meta.name, view.list.value, ls, ps, counts);
    }
  }

  /** Beginning adds at most the one lease, on the one target. */
  lemma BeginCommits(s: State, s': State, w: nat, n: string, picked: string, t: string)
    requires w < |s.workers| && s.workers[w].Idle? && s' == s.(workers := s.workers[w := Assigning(n, picked)])
    ensures t != picked || n in OnTarget(s.leases, t) ==> Committed(s', t) <= Committed(s, t)
    ensures |Committed(s', t)| <= |OnTarget(s.leases, t)| + |s.workers|
  {
    assert forall i :: 0 <= i < |s'.workers| && i != w ==> s'.workers[i] == s.workers[i];
    FlightSize(s'.workers, t);
    assert InFlight(s', t) == InFlight(State(map[], s'.workers), t);
    UnionSize(OnTarget(s'.leases, t), InFlight(s', t));
  }

  lemma BeginKeepsBound(c: Config, s: State, s': State, w: nat, n: string, view: HubView,
                        policy: Option<LeasePolicy>, counts: map<string, int>)
    requires Bounded(c, s) && Begin(c, s, s', w, n, view, policy, counts)
    ensures Bounded(c, s')
  {
    DecisionRespectsLimit(c, view, s.leases[n], policy, counts);
    var picked := Decide(c.hash, view, s.leases[n], policy, Some(counts)).value.clusterName;
    var stays := Counted(s.leases[n]) && StickyCluster(s.leases[n]) == picked;
    assert stays ==> n in OnTarget(s.leases, picked);
    forall t | t in c.limits && t != "" && t != LOCAL_CLUSTER_NAME
      ensures |Committed(s', t)| <= Ceiling(c.limits[t], |s'.workers|)
    {
      BeginCommits(s, s', w, n, picked, t);
      if t != picked || stays {
        SubsetSize(Committed(s', t), Committed(s, t));
      } else {
        assert CountOf(counts, t) == |OnTarget(s.leases, t)| < c.limits[t];
      }
    }
  }

  /** No other step commits a lease to a target. */
  lemma OthersKeepBound(c: Config, s: State, s': State)
    requires Bounded(c, s) && |s'.workers| == |s.workers|
    requires forall t :: t != "" && t != LOCAL_CLUSTER_NAME ==> Committed(s', t) <= Committed(s, t)
    ensures Bounded(c, s')
  {
    forall t | t in c.limits && t != "" && t != LOCAL_CLUSTER_NAME
      ensures |Committed(s', t)| <= Ceiling(c.limits[t], |s'.workers|)
    {
      SubsetSize(Committed(s', t), Committed(s, t));
    }
  }

  lemma PersistCommitsNothing(s: State, s': State, w: nat, l: Lease, t: string)
    requires Persist(s, s', w, l)
    ensures Committed(s', t) <= Committed(s, t)
  {
    assert forall i :: 0 <= i < |s'.workers| && i != w ==> s'.workers[i] == s.workers[i];
    forall n | n in Committed(s', t) ensures n in Committed(s, t) {
      if n in OnTarget(s'.leases, t) && n == s.workers[w].lease && n in s.leases {
        assert n in InFlight(s, t);
      }
    }
  }

  lemma StepKeepsBound(c: Config, s: State, s': State)
    requires Bounded(c, s) && Next(c, s, s')
    ensures Bounded(c, s') && |s'.workers| == |s.workers|
  {
    if w: nat, n, view, policy, counts :| Begin(c, s, s', w, n, view, policy, counts) {
      BeginKeepsBound(c, s, s', w, n, view, policy, counts);
    } else if w: nat, l :| Persist(s, s', w, l) {
      forall t ensures Committed(s', t) <= Committed(s, t) {
        PersistCommitsNothing(s, s', w, l, t);
      }
      OthersKeepBound(c, s, s');
    } else if w: nat :| Abort(s, s', w) {
      assert forall i :: 0 <= i < |s'.workers| && i != w ==> s'.workers[i] == s.workers[i];
      OthersKeepBound(c, s, s');
    } else {
      OthersKeepBound(c, s, s');
    }
  }

  /** In every reachable state of W workers, the leases on a target or in flight
      to it number at most its limit + W - 1, and none at limit 0; with one worker,
      its limit. */
  lemma {:induction false} CapacityOvershoot(c: Config, states: seq<State>, workers: nat, target: string)
    requires workers >= 1 && IsRun(c, states, workers)
    requires target in c.limits && target != "" && target != LOCAL_CLUSTER_NAME
    ensures |Committed(states[|states| - 1], target)| <= Ceiling(c.limits[target], workers)
    ensures workers == 1 && c.limits[target] >= 0 ==> |OnTarget(states[|states| - 1].leases, target)| <= c.limits[target]
  {
    RunIsBounded(c, states, workers);
    var s := states[|states| - 1];
    SubsetSize(OnTarget(s.leases, target), Committed(s, target));
  }

  lemma {:induction false} RunIsBounded(c: Config, states: seq<State>, workers: nat)
    requires IsRun(c, states, workers)
    ensures Bounded(c, states[|states| - 1]) && |states[|states| - 1].workers| == workers
  {
    if |states| == 1 {
      forall t ensures Committed(states[0], t) == {} {
      }
    } else {
      var before := states[..|states| - 1];
      RunIsBounded(c, before, workers);
      assert Next(c, states[|states| - 2], states[|states| - 1]);
      StepKeepsBound(c, before[|before| - 1], states[|states| - 1]);
    }
  }

  // ------------------------------------------------------- the bound is reached

  function Fresh(n: string): Lease {
    Lease(Meta(n, n, 1, None, true, false, false),
          LeaseSpec("", "", Some(Placement(None)), None, None, None, None, None, [],
                    NamespaceSpec("", "ns-", map[], map[]), None, None, None),
          NO_STATUS)
  }

  function Placed(n: string): Lease {
    Fresh(n).(status := NO_STATUS.(cluster := Some(ClusterStatus("t", "", ""))))
  }

  /** The first p leases are on the target "t". */
  function Filled(names: seq<string>, p: nat): map<string, Lease>
    requires p <= |names|
  {
    map n | n in names :: if n in names[..p] then Placed(n) else Fresh(n)
  }

  /** The first k of the workers have decided for the leases after the first m. */
  function Racing(names: seq<string>, m: nat, workers: nat, k: nat): State
    requires m + workers <= |names|
  {
    State(Filled(names, m), seq(workers, i requires 0 <= i < workers => if i < k then Assigning(names[m + i], "t") else Idle))
  }

  ghost predicate Different(names: seq<string>) {
    forall i, j :: 0 <= i < j < |names| ==> names[i] != names[j]
  }

  lemma {:induction false} DistinctNames(names: seq<string>)
    requires Different(names)
    ensures |set n | n in names| == |names|
  {
    if names != [] {
      var init, last := names[..|names| - 1], names[|names| - 1];
      DistinctNames(init);
      assert names == init + [last];
      assert (set n | n in names) == (set n | n in init) + {last};
    }
  }

  lemma FilledCounts(names: seq<string>, p: nat, target: string)
    requires p <= |names| && Different(names)
    ensures |OnTarget(Filled(names, p), target)| == if target == "t" then p else 0
  {
    if target == "t" {
      DistinctNames(names[..p]);
      assert OnTarget(Filled(names, p), "t") == set n | n in names[..p];
    } else {
      assert OnTarget(Filled(names, p), target) == {};
    }
  }

  function OneTarget(limit: int): HubView {
    var t := Target("t", "u", map[], map[], false, true, Some(limit), true, "", None);
    HubView(map["t" := t], Some([t]))
  }

  /** Below the limit a fresh lease is decided onto the target. */
  lemma FreshPicksTarget(hash: string -> nat, n: string, limit: int, counted: int)
    requires counted < limit
    ensures Decide(hash, OneTarget(limit), Fresh(n), None, Some(map["t" := counted])) == Ok(Decision("t", false, false))
  {
    var t := OneTarget(limit).get["t"];
    var counts: map<string, int> := map["t" := counted];
    assert EligibleNames([t], None, None, counts) == ["t"] by {
      assert [t][..0] == [];
      assert EligibleNames([], None, None, counts) == [];
    }
    assert Sort(["t"][1..], NameLE) == [];
    assert Sort(["t"], NameLE) == ["t"];
  }

  /** An idle worker begins with the fresh lease p + i, counting p leases. */
  lemma BeginFresh(hash: string -> nat, limit: int, names: seq<string>, p: nat, i: nat, s: State, s': State, w: nat)
    requires p + i < |names| && p < limit && Different(names) && s.leases == Filled(names, p)
    requires w < |s.workers| && s.workers[w].Idle? && s' == s.(workers := s.workers[w := Assigning(names[p + i], "t")])
    ensures Next(Config(hash, map["t" := limit]), s, s')
  {
    var c, n := Config(hash, map["t" := limit]), names[p + i];
    forall x ensures |OnTarget(s.leases, x)| == if x == "t" then p else 0 {
      FilledCounts(names, p, x);
    }
    assert n !in names[..p];
    FreshPicksTarget(hash, n, limit, p);
    assert Begin(c, s, s', w, n, OneTarget(limit), None, map["t" := p]);
  }

  lemma AppendState(c: Config, states: seq<State>, s: State, workers: nat)
    requires IsRun(c, states, workers) && Next(c, states[|states| - 1], s)
    ensures IsRun(c, states + [s], workers)
  {
    var longer := states + [s];
    forall i | 0 <= i < |longer| - 1 ensures Next(c, longer[i], longer[i + 1]) {
      if i < |states| - 1 {
        assert Next(c, states[i], states[i + 1]);
      }
    }
  }

  /** One worker fills the target up to p leases. */
  lemma {:induction false} FillRuns(hash: string -> nat, limit: int, names: seq<string>, workers: nat, p: nat)
    returns (states: seq<State>)
    requires Different(names) && 1 <= workers && p < limit && p + workers <= |names|
    ensures IsRun(Config(hash, map["t" := limit]), states, workers)
    ensures states[|states| - 1] == Racing(names, p, workers, 0)
  {
    var c := Config(hash, map["t" := limit]);
    var idle := seq(workers, i requires 0 <= i < workers => Idle);
    var end := Racing(names, p, workers, 0);
    assert end.workers == idle;
    if p == 0 {
      forall t ensures OnTarget(end.leases, t) == {} {
        FilledCounts(names, 0, t);
      }
      assert Environment(State(map[], idle), end);
      states := [State(map[], idle), end];
    } else {
      var before := FillRuns(hash, limit, names, workers, p - 1);
      var s := Racing(names, p - 1, workers, 0);
      assert s.workers == idle;
      var mid := s.(workers := idle[0 := Assigning(names[p - 1], "t")]);
      BeginFresh(hash, limit, names, p - 1, 0, s, mid, 0);
      AppendState(c, before, mid, workers);
      FillOne(names, p);
      assert mid.workers[0 := Idle] == idle;
      assert Persist(mid, end, 0, Placed(names[p - 1]));
      AppendState(c, before + [mid], end, workers);
      states := before + [mid] + [end];
    }
  }

  lemma FillOne(names: seq<string>, p: nat)
    requires 0 < p <= |names| && Different(names)
    ensures names[p - 1] in Filled(names, p - 1)
    ensures Filled(names, p) == Filled(names, p - 1)[names[p - 1] := Placed(names[p - 1])]
  {
    assert names[..p] == names[..p - 1] + [names[p - 1]];
  }

  lemma {:induction false} RaceRuns(hash: string -> nat, limit: nat, names: seq<string>, workers: nat, k: nat)
    returns (states: seq<State>)
    requires 1 <= limit && 1 <= workers && |names| == limit - 1 + workers && Different(names) && k <= workers
    ensures IsRun(Config(hash, map["t" := limit]), states, workers)
    ensures states[|states| - 1] == Racing(names, limit - 1, workers, k)
  {
    if k == 0 {
      states := FillRuns(hash, limit, names, workers, limit - 1);
    } else {
      var before := RaceRuns(hash, limit, names, workers, k - 1);
      var s, s' := Racing(names, limit - 1, workers, k - 1), Racing(names, limit - 1, workers, k);
      assert s'.workers == s.workers[k - 1 := Assigning(names[limit - 1 + (k - 1)], "t")];
      BeginFresh(hash, limit, names, limit - 1, k - 1, s, s', k - 1);
      AppendState(Config(hash, map["t" := limit]), before, s', workers);
      states := before + [s'];
    }
  }

  /** The bound is met: for every limit from 1 and every W workers there is a run
      that ends with limit + W - 1 leases committed to one target. */
  lemma OvershootIsReached(hash: string -> nat, limit: nat, names: seq<string>, workers: nat) returns (states: seq<State>)
    requires 1 <= limit && 1 <= workers && |names| == limit - 1 + workers && Different(names)
    ensures IsRun(Config(hash, map["t" := limit]), states, workers)
    ensures |Committed(states[|states| - 1], "t")| == Ceiling(limit, workers)
  {
    states := RaceRuns(hash, limit, names, workers, workers);
    EverybodyCommitted(names, limit - 1, workers);
    DistinctNames(names);
  }

  lemma EverybodyCommitted(names: seq<string>, m: nat, workers: nat)
    requires m + workers == |names|
    ensures Committed(Racing(names, m, workers, workers), "t") == set n | n in names
  {
    var s := Racing(names, m, workers, workers);
    forall n | n in names ensures n in Committed(s, "t") {
      var i :| 0 <= i < |names| && names[i] == n;
      if i < m {
        assert names[..m][i] == n;
      } else {
        assert s.workers[i - m] == Assigning(n, "t");
      }
    }
  }

  // ------------------------------------------------------ what is not counted

  /** A target named like the control cluster has no ceiling: no lease is counted
      there, so it has room under every listing unless its limit is 0. */
  lemma ReservedNameIsNeverFull(t: Target, items: seq<Lease>, counts: map<string, int>)
    requires t.name == LOCAL_CLUSTER_NAME && forall n :: CountOf(counts, n) == CountIn(items, n)
    ensures UnderSoftCapacity(t, counts) <==> t.maxActiveLeases.None? || t.maxActiveLeases.value > 0
  {
    NobodyIsCountedLocally(items);
  }

  lemma {:induction false} NobodyIsCountedLocally(items: seq<Lease>)
    ensures CountIn(items, LOCAL_CLUSTER_NAME) == 0
  {
    if items != [] { NobodyIsCountedLocally(items[..|items| - 1]); }
  }

  /** A lease that was marked Expired is not counted, yet once its times are
      extended it is decided back onto its full target: one worker is enough to
      exceed the limit. */
  lemma ExpiredLeaseIgnoresLimit(hash: string -> nat, l: Lease, limit: int, counted: int)
    requires l.spec.clusterRef == "" && l.spec.placement.Some? && l.spec.placement.value.selector.None?
    requires StickyCluster(l) == "t" && l.status.phase == Expired && counted >= limit
    ensures !Counted(l) && Counted(l.(status := l.status.(phase := Provisioning), meta := l.meta.(deleting := false)))
    ensures Decide(hash, OneTarget(limit), l, None, Some(map["t" := counted])) == Ok(Decision("t", false, false))
  {
  }
}
