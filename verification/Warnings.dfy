/** Expiration warnings and wake-ups (internal/lease/warnings.go, schedule.go):
    the methods with their loops, and what they give over whole runs. */
module Warnings {
  import opened Api
  import opened Sorting

  function CanonicalWarningKey(d: int): WarningKey {
    WarningKey(d)
  }

  predicate Undelivered(w: int, delivered: seq<WarningKey>) {
    CanonicalWarningKey(w) !in delivered
  }

  /** w should fire at `now`: its threshold has come and it was not delivered. */
  predicate Due(now: int, deadline: int, delivered: seq<WarningKey>, w: int) {
    Undelivered(w, delivered) && now >= deadline - w
  }

  function Select(ws: seq<int>, keep: int -> bool): seq<int> {
    if ws == [] then []
    else Select(ws[..|ws| - 1], keep) + (if keep(ws[|ws| - 1]) then [ws[|ws| - 1]] else [])
  }

  lemma {:induction false} SelectMembers(ws: seq<int>, keep: int -> bool)
    ensures forall w :: w in Select(ws, keep) <==> w in ws && keep(w)
    ensures |Select(ws, keep)| <= |ws|
  {
    if ws != [] {
      SelectMembers(ws[..|ws| - 1], keep);
      assert ws == ws[..|ws| - 1] + [ws[|ws| - 1]];
    }
  }

  predicate Distinct(ws: seq<int>) {
    forall i, j :: 0 <= i < j < |ws| ==> ws[i] != ws[j]
  }

  lemma {:induction false} SelectDistinct(ws: seq<int>, keep: int -> bool)
    requires Distinct(ws)
    ensures Distinct(Select(ws, keep))
  {
    if ws != [] {
      SelectDistinct(ws[..|ws| - 1], keep);
      SelectMembers(ws[..|ws| - 1], keep);
    }
  }

  lemma DistinctIsMultiplicity(ws: seq<int>)
    ensures Distinct(ws) <==> forall w :: multiset(ws)[w] <= 1
  {
    if Distinct(ws) {
      forall w ensures multiset(ws)[w] <= 1 { AtMostOnce(ws, w); }
    } else {
      var i, j :| 0 <= i < j < |ws| && ws[i] == ws[j];
      assert ws == ws[..i] + [ws[i]] + ws[i + 1..j] + [ws[j]] + ws[j + 1..];
      assert multiset(ws)[ws[i]] >= 2;
    }
  }

  lemma {:induction false} AtMostOnce(ws: seq<int>, w: int)
    requires Distinct(ws)
    ensures multiset(ws)[w] <= 1
  {
    if ws != [] {
      var init := ws[..|ws| - 1];
      assert ws == init + [ws[|ws| - 1]];
      AtMostOnce(init, w);
      if ws[|ws| - 1] == w {
        assert w !in init;
      }
    }
  }

  // ---------------------------------------------------------------- methods

  method SortSlice(s: seq<int>) returns (r: seq<int>)
    ensures r == Sort(s, Descending) && SortedBy(r, Descending) && multiset(r) == multiset(s)
  {
    DescendingIsTotal();
    SortSorts(s, Descending);
    r := Sort(s, Descending);
  }

  function Positive(w: int): bool {
    w > 0
  }

  function WarningDurationsOf(warnings: seq<int>): seq<int> {
    Sort(Select(warnings, Positive), Descending)
  }

  method WarningDurations(warnings: seq<int>) returns (out: seq<int>)
    ensures out == WarningDurationsOf(warnings)
    ensures SortedBy(out, Descending)
    ensures forall w :: w in out <==> w in warnings && w > 0
  {
    out := [];
    for i := 0 to |warnings|
      invariant out == Select(warnings[..i], Positive)
    {
      assert warnings[..i + 1][..i] == warnings[..i];
      if warnings[i] > 0 {
        out := out + [warnings[i]];
      }
    }
    assert warnings[..|warnings|] == warnings;
    SelectMembers(warnings, Positive);
    var unsorted := out;
    out := SortSlice(unsorted);
    assert forall w :: w in out <==> w in multiset(out);
    assert forall w :: w in unsorted <==> w in multiset(unsorted);
  }

  /** The loop both PendingWarnings and NextReconcileAfter start with. */
  method DeliveredSet(delivered: seq<WarningKey>) returns (r: set<WarningKey>)
    ensures forall k :: k in r <==> k in delivered
  {
    r := {};
    for i := 0 to |delivered|
      invariant forall k :: k in r <==> k in delivered[..i]
    {
      r := r + {delivered[i]};
    }
  }

  function PendingNow(now: int, deadline: int, warnings: seq<int>, delivered: seq<WarningKey>): seq<int> {
    if now >= deadline then [] else Sort(Select(warnings, w => Due(now, deadline, delivered, w)), Descending)
  }

  lemma PendingMembers(now: int, deadline: int, warnings: seq<int>, delivered: seq<WarningKey>)
    ensures var p := PendingNow(now, deadline, warnings, delivered);
            && (forall w :: w in p <==> w in warnings && now < deadline && Due(now, deadline, delivered, w))
            && SortedBy(p, Descending)
            && (Distinct(warnings) ==> Distinct(p))
  {
    var due := Select(warnings, w => Due(now, deadline, delivered, w));
    SelectMembers(warnings, w => Due(now, deadline, delivered, w));
    DescendingIsTotal();
    SortSorts(due, Descending);
    var p := Sort(due, Descending);
    assert forall w :: w in p <==> w in multiset(p);
    assert forall w :: w in due <==> w in multiset(due);
    if Distinct(warnings) {
      SelectDistinct(warnings, w => Due(now, deadline, delivered, w));
      DistinctIsMultiplicity(due);
      DistinctIsMultiplicity(p);
    }
  }

  method PendingWarnings(now: int, deadline: int, warnings: seq<int>, delivered: seq<WarningKey>)
    returns (pending: seq<int>)
    ensures pending == PendingNow(now, deadline, warnings, delivered)
    ensures forall w :: w in pending <==> w in warnings && deadline - w <= now < deadline && Undelivered(w, delivered)
    ensures SortedBy(pending, Descending)
  {
    PendingMembers(now, deadline, warnings, delivered);
    if now >= deadline {
      return [];
    }
    var deliveredSet := DeliveredSet(delivered);
    ghost var keep := w => Due(now, deadline, delivered, w);
    var due: seq<int> := [];
    for i := 0 to |warnings|
      invariant due == Select(warnings[..i], keep)
    {
      assert warnings[..i + 1][..i] == warnings[..i];
      var w := warnings[i];
      if CanonicalWarningKey(w) in deliveredSet {
        continue;
      }
      var threshold := deadline - w;
      if now >= threshold {
        due := due + [w];
      }
    }
    assert warnings[..|warnings|] == warnings;
    pending := SortSlice(due);
  }

  function MarkDelivered(delivered: seq<WarningKey>, d: int): seq<WarningKey> {
    if CanonicalWarningKey(d) in delivered then delivered else delivered + [CanonicalWarningKey(d)]
  }

  method MarkWarningDelivered(delivered: seq<WarningKey>, d: int) returns (r: seq<WarningKey>)
    ensures r == MarkDelivered(delivered, d)
    ensures delivered <= r && |r| <= |delivered| + 1
    ensures forall w :: Undelivered(w, r) <==> Undelivered(w, delivered) && w != d
  {
    var key := CanonicalWarningKey(d);
    for i := 0 to |delivered|
      invariant key !in delivered[..i]
    {
      if delivered[i] == key {
        return delivered;
      }
    }
    r := delivered + [key];
  }

  /** The next instant at which something happens: the first undelivered
      threshold or the deadline. */
  function NextEvent(deadline: int, warnings: seq<int>, delivered: seq<WarningKey>): int {
    if warnings == [] then deadline
    else
      var w := warnings[|warnings| - 1];
      var next := NextEvent(deadline, warnings[..|warnings| - 1], delivered);
      if Undelivered(w, delivered) then Min(next, deadline - w) else next
  }

  lemma {:induction false} NextEventIsFirst(deadline: int, warnings: seq<int>, delivered: seq<WarningKey>)
    ensures var next := NextEvent(deadline, warnings, delivered);
            && next <= deadline
            && (forall w :: w in warnings && Undelivered(w, delivered) ==> next <= deadline - w)
            && (next == deadline || exists w :: w in warnings && Undelivered(w, delivered) && next == deadline - w)
  {
    if warnings != [] {
      var init, w := warnings[..|warnings| - 1], warnings[|warnings| - 1];
      NextEventIsFirst(deadline, init, delivered);
      assert warnings == init + [w];
      if NextEvent(deadline, warnings, delivered) != deadline && NextEvent(deadline, warnings, delivered) != deadline - w {
        var v :| v in init && Undelivered(v, delivered) && NextEvent(deadline, init, delivered) == deadline - v;
        assert v in warnings;
      }
    }
  }

  function NextWait(now: int, deadline: int, warnings: seq<int>, delivered: seq<WarningKey>): int {
    if now >= NextEvent(deadline, warnings, delivered) then 0 else NextEvent(deadline, warnings, delivered) - now
  }

  /** The wait is 0 iff the lease is expired or a warning is pending; otherwise it
      ends at the first undelivered threshold or the deadline. */
  method NextReconcileAfter(now: int, deadline: int, warnings: seq<int>, delivered: seq<WarningKey>)
    returns (wait: int)
    ensures wait == NextWait(now, deadline, warnings, delivered)
    ensures wait >= 0
    ensures wait == 0 <==> now >= deadline || PendingNow(now, deadline, warnings, delivered) != []
    ensures wait > 0 ==> now + wait == NextEvent(deadline, warnings, delivered)
  {
    NextEventIsFirst(deadline, warnings, delivered);
    if now >= deadline {
      return 0;
    }
    PendingEmptyIffNothingDue(now, deadline, warnings, delivered);
    var deliveredSet := DeliveredSet(delivered);
    var next := deadline;
    for i := 0 to |warnings|
      invariant next == NextEvent(deadline, warnings[..i], delivered) && next >= now
    {
      assert warnings[..i + 1][..i] == warnings[..i];
      var w := warnings[i];
      if CanonicalWarningKey(w) in deliveredSet {
        continue;
      }
      var threshold := deadline - w;
      if threshold < now {
        assert w in warnings;
        return 0;
      }
      if threshold < next {
        next := threshold;
      }
    }
    assert warnings[..|warnings|] == warnings;
    wait := next - now;
  }

  lemma PendingEmptyIffNothingDue(now: int, deadline: int, warnings: seq<int>, delivered: seq<WarningKey>)
    requires now < deadline
    ensures PendingNow(now, deadline, warnings, delivered) != [] <==> NextEvent(deadline, warnings, delivered) <= now
  {
    var p := PendingNow(now, deadline, warnings, delivered);
    PendingMembers(now, deadline, warnings, delivered);
    NextEventIsFirst(deadline, warnings, delivered);
    if p != [] {
      assert p[0] in p;
    }
    if NextEvent(deadline, warnings, delivered) <= now {
      var w :| w in warnings && Undelivered(w, delivered) && NextEvent(deadline, warnings, delivered) == deadline - w;
      assert w in p;
    }
  }
}
