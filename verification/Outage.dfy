/** Shared backoff windows for unreachable targets (internal/remote/outage.go). */
module Outage {
  import opened Api

  const DEFAULT_MIN := 15 * SECOND
  const DEFAULT_MAX := 120 * SECOND

  function Clamp(x: int, lo: int, hi: int): int {
    var y := if x < lo then lo else x;
    if y > hi then hi else y
  }

  predicate Tracked(name: string) {
    name != "" && name != LOCAL_CLUSTER_NAME
  }

  /** The window a mark opens: twice what remains of an open one. */
  function Window(until: map<string, int>, name: string, now: int, lo: int, hi: int): int {
    if !Tracked(name) then 0
    else if name in until && until[name] > now then Clamp(2 * (until[name] - now), lo, hi)
    else lo
  }

  function Marked(until: map<string, int>, name: string, now: int, lo: int, hi: int): map<string, int> {
    if Tracked(name) then until[name := now + Window(until, name, now, lo, hi)] else until
  }

  function Remaining(until: map<string, int>, name: string, now: int): int {
    if name in until && until[name] > now then until[name] - now else 0
  }

  class OutageTracker {
    var until: map<string, int>
    const minBack: int
    const maxBack: int

    constructor (min: int, max: int)
      ensures until == map[]
      ensures minBack == (if min <= 0 then DEFAULT_MIN else min)
      ensures maxBack == (if max < minBack then DEFAULT_MAX else max)
      ensures 0 < minBack
      ensures minBack <= maxBack <==> minBack <= max || minBack <= DEFAULT_MAX
    {
      var lo := min;
      if lo <= 0 {
        lo := DEFAULT_MIN;
      }
      var hi := max;
      if hi < lo {
        hi := DEFAULT_MAX;
      }
      until, minBack, maxBack := map[], lo, hi;
    }

    method MarkUnavailable(name: string, now: int) returns (back: int)
      modifies this`until
      ensures back == Window(old(until), name, now, minBack, maxBack)
      ensures until == Marked(old(until), name, now, minBack, maxBack)
    {
      if name == "" || name == LOCAL_CLUSTER_NAME {
        return 0;
      }
      back := minBack;
      if name in until && until[name] > now {
        var remaining := until[name] - now;
        back := remaining * 2;
        if back < minBack {
          back := minBack;
        }
        if back > maxBack {
          back := maxBack;
        }
      }
      until := until[name := now + back];
    }

    method RequeueAfter(name: string, now: int) returns (wait: int)
      ensures wait == if name == "" then 0 else Remaining(until, name, now)
    {
      if name == "" {
        return 0;
      }
      if name !in until || until[name] <= now {
        return 0;
      }
      wait := until[name] - now;
    }

    method Clear(name: string)
      modifies this`until
      ensures until == old(until) - {name}
    {
      until := until - {name};
    }
  }

  // --------------------------------------------------------------------- runs

  datatype Call = MarkCall(name: string, now: int) | ClearCall(name: string)

  function Apply(until: map<string, int>, call: Call, lo: int, hi: int): map<string, int> {
    match call
    case MarkCall(name, now) => Marked(until, name, now, lo, hi)
    case ClearCall(name) => until - {name}
  }

  function Run(calls: seq<Call>, lo: int, hi: int): map<string, int> {
    if calls == [] then map[] else Apply(Run(calls[..|calls| - 1], lo, hi), calls[|calls| - 1], lo, hi)
  }

  /** No call is later than `now`, and the clock never goes back. */
  ghost predicate Monotone(calls: seq<Call>, now: int) {
    && (forall i :: 0 <= i < |calls| && calls[i].MarkCall? ==> calls[i].now <= now)
    && (forall i, j :: 0 <= i < j < |calls| && calls[i].MarkCall? && calls[j].MarkCall? ==> calls[i].now <= calls[j].now)
  }

  ghost predicate Bounded(until: map<string, int>, now: int, hi: int) {
    forall n :: n in until ==> Tracked(n) && until[n] <= now + hi
  }

  lemma {:induction false} RunIsBounded(calls: seq<Call>, now: int, lo: int, hi: int)
    requires 0 < lo <= hi && Monotone(calls, now)
    ensures Bounded(Run(calls, lo, hi), now, hi)
  {
    if calls != [] {
      var before, last := calls[..|calls| - 1], calls[|calls| - 1];
      if last.MarkCall? {
        assert Monotone(before, last.now);
        RunIsBounded(before, last.now, lo, hi);
      } else {
        RunIsBounded(before, now, lo, hi);
      }
    }
  }

  /** Over any run with a clock that never goes back, a mark of a target opens a
      window between the bounds, never moves any deadline earlier, never beyond
      now + max, and leaves other targets alone; it is what RequeueAfter then
      counts down. */
  lemma MarkWindows(calls: seq<Call>, name: string, now: int, at: int, lo: int, hi: int)
    requires 0 < lo <= hi && Monotone(calls, now) && Tracked(name) && now <= at
    ensures var before := Run(calls, lo, hi);
            var back := Window(before, name, now, lo, hi);
            var after := Run(calls + [MarkCall(name, now)], lo, hi);
            && lo <= back <= hi
            && (forall n :: n in before ==> n in after && before[n] <= after[n])
            && (forall n :: n in after ==> after[n] <= now + hi)
            && (forall n :: n != name ==> (n in after <==> n in before) && (n in after ==> after[n] == before[n]))
            && Remaining(after, name, at) == (if at - now < back then back - (at - now) else 0)
  {
    RunIsBounded(calls, now, lo, hi);
    assert (calls + [MarkCall(name, now)])[..|calls|] == calls;
  }

  /** lo * 2^k */
  function Doubled(lo: int, k: nat): int {
    if k == 0 then lo else 2 * Doubled(lo, k - 1)
  }

  lemma {:induction false} DoubledGrows(lo: int, k: nat)
    requires lo > 0
    ensures lo <= Doubled(lo, k)
  {
    if k > 0 { DoubledGrows(lo, k - 1); }
  }

  /** k marks of one target at one instant. */
  function MarkTimes(until: map<string, int>, name: string, now: int, k: nat, lo: int, hi: int): map<string, int> {
    if k == 0 then until else Marked(MarkTimes(until, name, now, k - 1, lo, hi), name, now, lo, hi)
  }

  /** From a clear state the k-th mark at one instant returns min * 2^(k-1),
      capped at max. */
  lemma {:induction false} WindowsDouble(until: map<string, int>, name: string, now: int, k: nat, lo: int, hi: int)
    requires 0 < lo <= hi && Tracked(name) && name !in until && k > 0
    ensures Window(MarkTimes(until, name, now, k - 1, lo, hi), name, now, lo, hi) == Min(hi, Doubled(lo, k - 1))
  {
    if k > 1 {
      WindowsDouble(until, name, now, k - 1, lo, hi);
      DoubledGrows(lo, k - 2);
      assert MarkTimes(until, name, now, k - 1, lo, hi)[name] == now + Min(hi, Doubled(lo, k - 2));
    }
  }

  /** Windows keep to the bounds exactly when the bounds are in order: otherwise
      the first window is already longer than the maximum. */
  lemma BoundsMustBeOrdered(name: string, now: int, lo: int, hi: int)
    requires Tracked(name)
    ensures lo <= hi <==> forall until: map<string, int> :: Window(until, name, now, lo, hi) <= hi
  {
    if lo > hi {
      var clear: map<string, int> := map[];
      assert Window(clear, name, now, lo, hi) > hi;
    }
  }
}
