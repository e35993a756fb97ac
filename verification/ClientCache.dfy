/** The bounded cache of remote clients (internal/remote/provider.go).  Lookup and
    insertion are separate critical sections, so other workers run in between. */
module ClientCache {
  import opened Api
  import opened Finite

  /** What one call reads before it looks at the cache: the target, and its
      credential secret. */
  datatype Load = Load(
    name: string, generation: int, enabled: bool, qps: Option<int>, burst: Option<int>,
    secretVersion: string, data: Option<string>)

  datatype Client = Client(config: string, qps: int, burst: int)

  datatype ProviderError = Disabled | NoCredentials | BuildFailed

  /** `digest` stands for the first eight bytes of SHA-256, `parse` for building a
      client from kubeconfig bytes. */
  datatype Codec = Codec(digest: string -> int, parse: string -> Option<string>)

  datatype Fingerprint = Fingerprint(name: string, generation: int, enabled: bool, secretVersion: string, digest: int)

  datatype Entry = Entry(fingerprint: Fingerprint, client: Client, lastUsed: int)

  const DEFAULT_MAX_CACHE := 32

  /** A positive limit from the target, else the default, never above the cap. */
  function Limit(given: Option<int>, default: int, cap: int): int {
    Min(if given.Some? && given.value > 0 then given.value else default, cap)
  }

  predicate Usable(l: Load) {
    l.enabled && l.data.Some? && l.data.value != ""
  }

  function Build(k: Codec, l: Load): Option<Client> {
    if l.data.None? || k.parse(l.data.value).None? then None
    else Some(Client(k.parse(l.data.value).value, Limit(l.qps, 20, 50), Limit(l.burst, 40, 100)))
  }

  /** What a provider without a cache would answer. */
  function Fresh(k: Codec, l: Load): Result<Client, ProviderError> {
    if !l.enabled then Err(Disabled)
    else if !Usable(l) then Err(NoCredentials)
    else if Build(k, l).None? then Err(BuildFailed)
    else Ok(Build(k, l).value)
  }

  function FingerprintOf(k: Codec, l: Load): Fingerprint {
    Fingerprint(l.name, l.generation, l.enabled, l.secretVersion, k.digest(l.data.GetOr("")))
  }

  predicate Hits(k: Codec, cache: map<string, Entry>, l: Load) {
    l.name in cache && cache[l.name].fingerprint == FingerprintOf(k, l)
  }

  /** after is before without some least recently used entries, and without any
      more of them than it takes to get below max. */
  ghost predicate Evicted(before: map<string, Entry>, after: map<string, Entry>, max: int) {
    && after.Keys <= before.Keys
    && (forall n :: n in after ==> after[n] == before[n])
    && |after| == Min(|before|, max - 1)
    && forall gone, kept :: gone in before && gone !in after && kept in after ==>
         before[gone].lastUsed <= before[kept].lastUsed
  }

  ghost predicate Inserted(before: map<string, Entry>, after: map<string, Entry>, name: string, e: Entry, max: int) {
    exists kept: map<string, Entry> :: Evicted(before, kept, max) && after == kept[name := e]
  }

  class Provider {
    var cache: map<string, Entry>
    const codec: Codec
    const maxCache: int

    constructor (codec: Codec, max: int)
      ensures cache == map[] && this.codec == codec
      ensures maxCache == if max <= 0 then DEFAULT_MAX_CACHE else max
      ensures Valid()
    {
      this.codec := codec;
      cache, maxCache := map[], if max <= 0 then DEFAULT_MAX_CACHE else max;
    }

    predicate Valid()
      reads this
    {
      0 < maxCache && |cache| <= maxCache && "" !in cache
    }

    method Invalidate(name: string)
      requires Valid()
      modifies this`cache
      ensures Valid() && cache == old(cache) - {name}
    {
      assert (cache - {name}).Keys == cache.Keys - {name};
      SubsetSize((cache - {name}).Keys, cache.Keys);
      cache := cache - {name};
    }

    /** The first critical section. */
    method Lookup(l: Load, now: int) returns (hit: Option<Client>)
      requires Valid()
      modifies this`cache
      ensures Valid()
      ensures hit.Some? <==> Hits(codec, old(cache), l)
      ensures hit.Some? ==> hit.value == old(cache)[l.name].client
                            && cache == old(cache)[l.name := old(cache)[l.name].(lastUsed := now)]
      ensures hit.None? ==> cache == old(cache)
    {
      if l.name in cache && cache[l.name].fingerprint == FingerprintOf(codec, l) {
        assert cache[l.name := cache[l.name].(lastUsed := now)].Keys == cache.Keys;
        cache := cache[l.name := cache[l.name].(lastUsed := now)];
        return Some(cache[l.name].client);
      }
      return None;
    }

    method Oldest() returns (name: string)
      requires "" !in cache && |cache| > 0
      ensures name in cache
      ensures forall n :: n in cache ==> cache[name].lastUsed <= cache[n].lastUsed
    {
      name := "";
      var time, first := 0, true;
      var todo := cache.Keys;
      while todo != {}
        invariant todo <= cache.Keys
        invariant first <==> todo == cache.Keys
        invariant !first ==> name in cache && time == cache[name].lastUsed
        invariant forall n :: n in cache.Keys - todo ==> time <= cache[n].lastUsed
        decreases todo
      {
        var n :| n in todo;
        if first || cache[n].lastUsed < time {
          name, time, first := n, cache[n].lastUsed, false;
        }
        todo := todo - {n};
      }
    }

    /** evictIfNeededLocked. */
    method EvictIfNeeded()
      requires Valid()
      modifies this`cache
      ensures Valid() && Evicted(old(cache), cache, maxCache)
    {
      ghost var before := cache;
      while |cache| >= maxCache
        invariant cache.Keys <= before.Keys && "" !in cache
        invariant forall n :: n in cache ==> cache[n] == before[n]
        invariant Min(|before|, maxCache - 1) <= |cache| <= |before|
        invariant forall gone, kept :: gone in before && gone !in cache && kept in cache ==>
                    before[gone].lastUsed <= before[kept].lastUsed
        decreases |cache|
      {
        var oldest := Oldest();
        assert (cache - {oldest}).Keys == cache.Keys - {oldest};
        assert |cache - {oldest}| == |cache| - 1;
        cache := cache - {oldest};
      }
    }

    /** The second critical section. */
    method Insert(l: Load, client: Client, now: int)
      requires Valid() && l.name != ""
      modifies this`cache
      ensures Valid()
      ensures Inserted(old(cache), cache, l.name, Entry(FingerprintOf(codec, l), client, now), maxCache)
    {
      EvictIfNeeded();
      ghost var kept := cache;
      cache := cache[l.name := Entry(FingerprintOf(codec, l), client, now)];
      assert cache.Keys == kept.Keys + {l.name};
    }

    /** The whole call, when nobody else runs in between: it answers as if there
        were no cache, provided the entry it may hit is a faithful one. */
    method ConfigAndClient(l: Load, now: int, later: int) returns (r: Result<Client, ProviderError>)
      requires Valid() && l.name != ""
      requires Hits(codec, cache, l) ==> Build(codec, l) == Some(cache[l.name].client)
      modifies this`cache
      ensures Valid() && r == Fresh(codec, l)
      ensures r.Ok? ==> l.name in cache && cache[l.name].client == r.value && cache[l.name].fingerprint == FingerprintOf(codec, l)
      ensures r.Err? ==> cache == old(cache)
    {
      if !l.enabled {
        return Err(Disabled);
      }
      if l.data.None? || l.data.value == "" {
        return Err(NoCredentials);
      }
      var hit := Lookup(l, now);
      if hit.Some? {
        return Ok(hit.value);
      }
      var built := Build(codec, l);
      if built.None? {
        return Err(BuildFailed);
      }
      Insert(l, built.value, later);
      return Ok(built.value);
    }
  }

  // ------------------------------------------------------------ interleavings

  datatype Return = Return(load: Load, client: Client)

  /** The cache, the calls between their two critical sections, and what was
      returned so far. */
  datatype State = State(cache: map<string, Entry>, inFlight: map<nat, Load>, log: seq<Return>)

  /** One critical section of one worker.  `kept` is what an eviction spares. */
  datatype Step =
    | LookUp(worker: nat, load: Load, now: int)
    | Finish(worker: nat, now: int, kept: map<string, Entry>)
    | Drop(name: string)

  const START := State(map[], map[], [])

  ghost predicate CanStep(k: Codec, max: int, s: State, step: Step) {
    match step
    case LookUp(worker, load, _) => worker !in s.inFlight && Usable(load) && load.name != ""
    case Finish(worker, _, kept) => worker in s.inFlight && Build(k, s.inFlight[worker]).Some? && Evicted(s.cache, kept, max)
    case Drop(_) => true
  }

  function Next(k: Codec, s: State, step: Step): State {
    match step
    case LookUp(worker, load, now) =>
      if Hits(k, s.cache, load) then
        State(s.cache[load.name := s.cache[load.name].(lastUsed := now)], s.inFlight,
              s.log + [Return(load, s.cache[load.name].client)])
      else if Build(k, load).None? then s
      else s.(inFlight := s.inFlight[worker := load])
    case Finish(worker, now, kept) =>
      if worker !in s.inFlight || Build(k, s.inFlight[worker]).None? then s
      else
        var load := s.inFlight[worker];
        var client := Build(k, load).value;
        State(kept[load.name := Entry(FingerprintOf(k, load), client, now)], s.inFlight - {worker},
              s.log + [Return(load, client)])
    case Drop(name) => s.(cache := s.cache - {name})
  }

  function After(k: Codec, steps: seq<Step>): State {
    if steps == [] then START else Next(k, After(k, steps[..|steps| - 1]), steps[|steps| - 1])
  }

  ghost predicate Run(k: Codec, max: int, loads: set<Load>, steps: seq<Step>) {
    forall i :: 0 <= i < |steps| ==>
      CanStep(k, max, After(k, steps[..i]), steps[i]) && (steps[i].LookUp? ==> steps[i].load in loads)
  }

  /** Everything returned is what a fresh build from the same reads gives. */
  predicate AllFresh(k: Codec, s: State) {
    forall i :: 0 <= i < |s.log| ==> Fresh(k, s.log[i].load) == Ok(s.log[i].client)
  }

  /** Among these reads the fingerprint determines the client. */
  predicate Determines(k: Codec, loads: set<Load>) {
    forall x, y ::
      (x in loads && y in loads && Usable(x) && Usable(y) && x.name != "" && y.name != ""
       && FingerprintOf(k, x) == FingerprintOf(k, y) && Build(k, x).Some?) ==>
        Build(k, y) == Build(k, x)
  }

  /** The entry was built from one of these reads. */
  ghost predicate Faithful(k: Codec, loads: set<Load>, e: Entry) {
    exists x :: x in loads && Usable(x) && x.name != "" && FingerprintOf(k, x) == e.fingerprint && Build(k, x) == Some(e.client)
  }

  ghost predicate Coherent(k: Codec, max: int, loads: set<Load>, s: State) {
    && |s.cache| <= max && "" !in s.cache
    && (forall n :: n in s.cache ==> Faithful(k, loads, s.cache[n]))
    && (forall w :: w in s.inFlight ==>
          s.inFlight[w] in loads && Usable(s.inFlight[w]) && s.inFlight[w].name != "" && Build(k, s.inFlight[w]).Some?)
    && AllFresh(k, s)
  }

  lemma HitKeeps(k: Codec, max: int, loads: set<Load>, s: State, load: Load, now: int, worker: nat)
    requires Coherent(k, max, loads, s) && Determines(k, loads) && load in loads && Usable(load) && load.name != ""
    requires Hits(k, s.cache, load)
    ensures Coherent(k, max, loads, Next(k, s, LookUp(worker, load, now)))
  {
    var e := s.cache[load.name];
    var x :| x in loads && Usable(x) && x.name != "" && FingerprintOf(k, x) == e.fingerprint && Build(k, x) == Some(e.client);
    assert Build(k, load) == Some(e.client);
    var touched := s.cache[load.name := e.(lastUsed := now)];
    assert touched.Keys == s.cache.Keys;
    TouchedIsFaithful(k, loads, s.cache, load.name, now);
    assert Fresh(k, load) == Ok(e.client);
    FreshLog(k, s, load, e.client);
  }

  lemma TouchedIsFaithful(k: Codec, loads: set<Load>, cache: map<string, Entry>, name: string, now: int)
    requires name in cache && forall n :: n in cache ==> Faithful(k, loads, cache[n])
    ensures var touched := cache[name := cache[name].(lastUsed := now)];
            forall n :: n in touched ==> Faithful(k, loads, touched[n])
  {
    assert Faithful(k, loads, cache[name].(lastUsed := now));
  }

  lemma FreshLog(k: Codec, s: State, load: Load, client: Client)
    requires AllFresh(k, s) && Fresh(k, load) == Ok(client)
    ensures forall cache, inFlight :: AllFresh(k, State(cache, inFlight, s.log + [Return(load, client)]))
  {
  }

  lemma InsertFits(kept: map<string, Entry>, name: string, e: Entry)
    ensures |kept[name := e]| <= |kept| + 1
  {
    assert kept[name := e].Keys == kept.Keys + {name};
  }

  lemma FinishKeeps(k: Codec, max: int, loads: set<Load>, s: State, worker: nat, now: int, kept: map<string, Entry>)
    requires 0 < max && Coherent(k, max, loads, s) && CanStep(k, max, s, Finish(worker, now, kept))
    ensures Coherent(k, max, loads, Next(k, s, Finish(worker, now, kept)))
  {
    var load := s.inFlight[worker];
    var e := Entry(FingerprintOf(k, load), Build(k, load).value, now);
    assert Faithful(k, loads, e);
    InsertFits(kept, load.name, e);
    var cache := kept[load.name := e];
    forall n | n in cache ensures n != "" && Faithful(k, loads, cache[n]) {
      if n != load.name { assert n in s.cache && cache[n] == s.cache[n]; }
    }
    FreshLog(k, s, load, e.client);
  }

  lemma DropKeeps(k: Codec, max: int, loads: set<Load>, s: State, name: string)
    requires Coherent(k, max, loads, s)
    ensures Coherent(k, max, loads, Next(k, s, Drop(name)))
  {
    assert (s.cache - {name}).Keys == s.cache.Keys - {name};
    SubsetSize((s.cache - {name}).Keys, s.cache.Keys);
  }

  lemma MissKeeps(k: Codec, max: int, loads: set<Load>, s: State, load: Load, now: int, worker: nat)
    requires Coherent(k, max, loads, s) && load in loads && Usable(load) && load.name != "" && !Hits(k, s.cache, load)
    ensures Coherent(k, max, loads, Next(k, s, LookUp(worker, load, now)))
  {
  }

  lemma StepIsCoherent(k: Codec, max: int, loads: set<Load>, s: State, step: Step)
    requires 0 < max && Determines(k, loads) && Coherent(k, max, loads, s)
    requires CanStep(k, max, s, step) && (step.LookUp? ==> step.load in loads)
    ensures Coherent(k, max, loads, Next(k, s, step))
  {
    match step
    case LookUp(worker, load, now) =>
      if Hits(k, s.cache, load) { HitKeeps(k, max, loads, s, load, now, worker); }
      else { MissKeeps(k, max, loads, s, load, now, worker); }
    case Finish(worker, now, kept) => FinishKeeps(k, max, loads, s, worker, now, kept);
    case Drop(name) => DropKeeps(k, max, loads, s, name);
  }

  lemma {:induction false} RunIsCoherent(k: Codec, max: int, loads: set<Load>, steps: seq<Step>)
    requires 0 < max && Determines(k, loads) && Run(k, max, loads, steps)
    ensures Coherent(k, max, loads, After(k, steps))
  {
    if steps != [] {
      var m := |steps| - 1;
      var before := steps[..m];
      assert forall i :: 0 <= i < m ==> before[..i] == steps[..i];
      RunIsCoherent(k, max, loads, before);
      StepIsCoherent(k, max, loads, After(k, before), steps[m]);
    }
  }

  lemma StepIsBounded(k: Codec, max: int, s: State, step: Step)
    requires 0 < max && |s.cache| <= max && CanStep(k, max, s, step)
    ensures |Next(k, s, step).cache| <= max
  {
    match step
    case LookUp(worker, load, now) =>
      if Hits(k, s.cache, load) {
        assert s.cache[load.name := s.cache[load.name].(lastUsed := now)].Keys == s.cache.Keys;
      }
    case Finish(worker, now, kept) =>
      var load := s.inFlight[worker];
      InsertFits(kept, load.name, Entry(FingerprintOf(k, load), Build(k, load).value, now));
    case Drop(name) =>
      assert (s.cache - {name}).Keys == s.cache.Keys - {name};
      SubsetSize((s.cache - {name}).Keys, s.cache.Keys);
  }

  /** Under every interleaving the cache stays within its bound. */
  lemma {:induction false} CacheIsBounded(k: Codec, max: int, loads: set<Load>, steps: seq<Step>)
    requires 0 < max && Run(k, max, loads, steps)
    ensures |After(k, steps).cache| <= max
  {
    if steps != [] {
      var m := |steps| - 1;
      var before := steps[..m];
      assert forall i :: 0 <= i < m ==> before[..i] == steps[..i];
      CacheIsBounded(k, max, loads, before);
      StepIsBounded(k, max, After(k, before), steps[m]);
    }
  }

  /** Two reads of one target with one fingerprint but different clients: the
      first is built while the target is dropped, and then served to the second. */
  function StaleRun(k: Codec, x: Load, y: Load): seq<Step> {
    [LookUp(0, x, 0), Drop(x.name), Finish(0, 1, map[]), LookUp(1, y, 2)]
  }

  lemma StaleRunReturns(k: Codec, max: int, x: Load, y: Load)
    requires 0 < max && Usable(x) && Usable(y) && x.name != ""
    requires FingerprintOf(k, x) == FingerprintOf(k, y) && Build(k, x).Some?
    ensures Run(k, max, {x, y}, StaleRun(k, x, y))
    ensures After(k, StaleRun(k, x, y)).log == [Return(x, Build(k, x).value), Return(y, Build(k, x).value)]
  {
    var steps := StaleRun(k, x, y);
    var client := Build(k, x).value;
    assert steps[..0] == [] && After(k, steps[..0]) == START;
    assert steps[..1][..0] == steps[..0] && steps[..2][..1] == steps[..1] && steps[..3][..2] == steps[..2] && steps[..4] == steps;
    var s1 := After(k, steps[..1]);
    assert s1 == State(map[], map[0 := x], []);
    var s2 := After(k, steps[..2]);
    assert s2 == s1;
    var s3 := After(k, steps[..3]);
    assert s3 == State(map[x.name := Entry(FingerprintOf(k, x), client, 1)], map[], [Return(x, client)]);
    assert Hits(k, s3.cache, y);
  }

  lemma MoreLoads(k: Codec, max: int, some: set<Load>, loads: set<Load>, steps: seq<Step>)
    requires some <= loads && Run(k, max, some, steps)
    ensures Run(k, max, loads, steps)
  {
  }

  /** The stale run is one over any reads with such a pair. */
  lemma StaleRunIsStale(k: Codec, max: int, loads: set<Load>, x: Load, y: Load)
    requires 0 < max && x in loads && y in loads && Usable(x) && Usable(y) && x.name != ""
    requires FingerprintOf(k, x) == FingerprintOf(k, y) && Build(k, x).Some? && Build(k, y) != Build(k, x)
    ensures Run(k, max, loads, StaleRun(k, x, y)) && !AllFresh(k, After(k, StaleRun(k, x, y)))
  {
    StaleRunReturns(k, max, x, y);
    MoreLoads(k, max, {x, y}, loads, StaleRun(k, x, y));
    StaleLog(k, After(k, StaleRun(k, x, y)), x, y);
  }

  lemma StaleLog(k: Codec, s: State, x: Load, y: Load)
    requires Build(k, x).Some? && Build(k, y) != Build(k, x)
    requires s.log == [Return(x, Build(k, x).value), Return(y, Build(k, x).value)]
    ensures !AllFresh(k, s)
  {
    assert s.log[1] == Return(y, Build(k, x).value);
  }

  /** Transparency, exactly: every interleaving over these reads only returns
      fresh clients iff the fingerprint determines the client among them. */
  lemma TransparentIff(k: Codec, max: int, loads: set<Load>)
    requires 0 < max
    ensures Determines(k, loads) <==>
              forall steps :: Run(k, max, loads, steps) ==> AllFresh(k, After(k, steps))
  {
    if Determines(k, loads) {
      forall steps | Run(k, max, loads, steps) ensures AllFresh(k, After(k, steps)) {
        RunIsCoherent(k, max, loads, steps);
      }
    } else {
      var x, y :| x in loads && y in loads && Usable(x) && Usable(y) && x.name != "" && y.name != ""
                  && FingerprintOf(k, x) == FingerprintOf(k, y) && Build(k, x).Some? && Build(k, y) != Build(k, x);
      StaleRunIsStale(k, max, loads, x, y);
    }
  }

  /** Such a pair of reads: a target recreated with another rate limit has
      generation 1 again. */
  lemma RecreatedTargetIsStale(k: Codec, data: string)
    requires data != "" && k.parse(data).Some?
    ensures var x := Load("t", 1, true, Some(10), None, "7", Some(data));
            var y := x.(qps := Some(20));
            !Determines(k, {x, y})
  {
    var x := Load("t", 1, true, Some(10), None, "7", Some(data));
    var y := x.(qps := Some(20));
    assert FingerprintOf(k, x) == FingerprintOf(k, y);
    assert Build(k, x).value.qps == 10 && Build(k, y).value.qps == 20;
  }

  /** And when reads are determined: the digest keeps kubeconfigs apart, and a
      generation fixes the limits. */
  lemma GenerationsDetermine(k: Codec, loads: set<Load>)
    requires forall x, y ::
               (x in loads && y in loads && x.data.Some? && y.data.Some? && k.digest(x.data.value) == k.digest(y.data.value)) ==>
                 x.data == y.data
    requires forall x, y :: (x in loads && y in loads && x.name == y.name && x.generation == y.generation) ==>
               x.qps == y.qps && x.burst == y.burst
    ensures Determines(k, loads)
  {
  }
}
