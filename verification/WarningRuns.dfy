/** Which warnings are emitted, and when, over whole runs of wake-ups
    (internal/lease/schedule.go, warnings.go and emitWarnings in
    internal/controller/environmentlease_controller.go). */
module WarningRuns {
  import opened Api
  import opened Finite
  import opened Warnings

  datatype Emission = Emission(at: int, warning: int)

  function EmitAt(now: int, ws: seq<int>): (r: seq<Emission>)
    ensures |r| == |ws| && forall i :: 0 <= i < |r| ==> r[i] == Emission(now, ws[i])
  {
    seq(|ws|, i requires 0 <= i < |ws| => Emission(now, ws[i]))
  }

  function MarkAll(delivered: seq<WarningKey>, ws: seq<int>): seq<WarningKey> {
    if ws == [] then delivered else MarkDelivered(MarkAll(delivered, ws[..|ws| - 1]), ws[|ws| - 1])
  }

  lemma {:induction false} MarkAllMembers(delivered: seq<WarningKey>, ws: seq<int>)
    ensures forall w :: Undelivered(w, MarkAll(delivered, ws)) <==> Undelivered(w, delivered) && w !in ws
  {
    if ws != [] {
      MarkAllMembers(delivered, ws[..|ws| - 1]);
      assert ws == ws[..|ws| - 1] + [ws[|ws| - 1]];
    }
  }

  /** What one pass at `now` emits, and the ledger it leaves. */
  function After(now: int, deadline: int, warnings: seq<int>, delivered: seq<WarningKey>): seq<WarningKey> {
    MarkAll(delivered, PendingNow(now, deadline, warnings, delivered))
  }

  // --------------------------------------------------- one deadline, woken on time

  /** The warnings still to be delivered. */
  function Open(warnings: seq<int>, delivered: seq<WarningKey>): set<int> {
    set w | w in warnings && Undelivered(w, delivered)
  }

  /** Shrinks with every wake-up: undelivered warnings count first. */
  function Steps(now: int, deadline: int, warnings: seq<int>, delivered: seq<WarningKey>): nat {
    2 * |Open(warnings, delivered)|
    + (if now < deadline then 1 else 0)
    + (if now < deadline && PendingNow(now, deadline, warnings, delivered) == [] then 1 else 0)
  }

  lemma AtMostLength(ws: seq<int>)
    ensures |set w | w in ws| <= |ws|
  {
    if ws != [] {
      var init, w := ws[..|ws| - 1], ws[|ws| - 1];
      AtMostLength(init);
      assert ws == init + [w];
      assert (set v | v in ws) == (set v | v in init) + {w};
    }
  }

  /** A pass delivers what is due and nothing else. */
  lemma PassDelivers(now: int, deadline: int, warnings: seq<int>, delivered: seq<WarningKey>)
    requires now < deadline
    ensures var d := After(now, deadline, warnings, delivered);
            && (forall w :: Undelivered(w, d) <==> Undelivered(w, delivered) && !(w in warnings && now >= deadline - w))
            && Open(warnings, d) <= Open(warnings, delivered)
            && (PendingNow(now, deadline, warnings, delivered) != [] ==> Open(warnings, d) != Open(warnings, delivered))
  {
    var p := PendingNow(now, deadline, warnings, delivered);
    PendingMembers(now, deadline, warnings, delivered);
    MarkAllMembers(delivered, p);
    if p != [] {
      assert p[0] in p;
      assert p[0] in Open(warnings, delivered) && p[0] !in Open(warnings, After(now, deadline, warnings, delivered));
    }
  }

  /** When nothing is due, the next wake-up lies strictly ahead, at the first
      undelivered threshold or at the deadline. */
  lemma WaitIsPositive(now: int, deadline: int, warnings: seq<int>, d: seq<WarningKey>)
    requires now < deadline && forall w :: w in warnings && Undelivered(w, d) ==> now < deadline - w
    ensures var next := now + NextWait(now, deadline, warnings, d);
            && now < next == NextEvent(deadline, warnings, d) <= deadline
            && (forall w :: w in warnings && Undelivered(w, d) ==> next <= deadline - w)
            && (next < deadline ==> PendingNow(next, deadline, warnings, d) != [])
  {
    NextEventIsAhead(now, deadline, warnings, d);
    var next := NextEvent(deadline, warnings, d);
    if next < deadline {
      PendingEmptyIffNothingDue(next, deadline, warnings, d);
    }
  }

  lemma NextEventIsAhead(now: int, deadline: int, warnings: seq<int>, d: seq<WarningKey>)
    requires now < deadline && forall w :: w in warnings && Undelivered(w, d) ==> now < deadline - w
    ensures var next := NextEvent(deadline, warnings, d);
            && now < next <= deadline && next == now + NextWait(now, deadline, warnings, d)
            && (forall w :: w in warnings && Undelivered(w, d) ==> next <= deadline - w)
  {
    NextEventIsFirst(deadline, warnings, d);
  }

  lemma NextWakeUp(now: int, deadline: int, warnings: seq<int>, delivered: seq<WarningKey>)
    requires now < deadline
    ensures var d := After(now, deadline, warnings, delivered);
            var next := now + NextWait(now, deadline, warnings, d);
            && now < next <= deadline
            && (forall w :: w in warnings && Undelivered(w, d) ==> now < deadline - w && next <= deadline - w)
            && (next < deadline ==> PendingNow(next, deadline, warnings, d) != [])
  {
    PassDelivers(now, deadline, warnings, delivered);
    WaitIsPositive(now, deadline, warnings, After(now, deadline, warnings, delivered));
  }

  lemma StepsShrink(now: int, deadline: int, warnings: seq<int>, delivered: seq<WarningKey>)
    requires now < deadline
    ensures var d := After(now, deadline, warnings, delivered);
            Steps(now + NextWait(now, deadline, warnings, d), deadline, warnings, d)
            < Steps(now, deadline, warnings, delivered)
  {
    NextWakeUp(now, deadline, warnings, delivered);
    PassDelivers(now, deadline, warnings, delivered);
    SubsetSize(Open(warnings, After(now, deadline, warnings, delivered)), Open(warnings, delivered));
  }

  /** How many wake-ups it takes until every warning has been delivered. */
  function WakeUps(now: int, deadline: int, warnings: seq<int>, delivered: seq<WarningKey>): nat
    decreases Steps(now, deadline, warnings, delivered)
  {
    if now >= deadline || Open(warnings, delivered) == {} then 0
    else
      StepsShrink(now, deadline, warnings, delivered);
      var d := After(now, deadline, warnings, delivered);
      1 + WakeUps(now + NextWait(now, deadline, warnings, d), deadline, warnings, d)
  }

  function Max(a: int, b: int): int {
    if a >= b then a else b
  }

  /** w is emitted once, at the instant `at`. */
  ghost predicate EmittedOnce(log: seq<Emission>, w: int, at: int) {
    exists i :: 0 <= i < |log| && log[i] == Emission(at, w)
      && forall j :: 0 <= j < |log| && log[j].warning == w ==> j == i
  }

  /** The log has every open warning once, at its time, and nothing else. */
  ghost predicate OnceEach(log: seq<Emission>, start: int, deadline: int, ds: seq<int>, d: seq<WarningKey>) {
    && (forall w :: w in ds && Undelivered(w, d) ==>
          EmittedOnce(log, w, Max(start, deadline - w)) && Max(start, deadline - w) < deadline)
    && (forall i :: 0 <= i < |log| ==> log[i].warning in ds && Undelivered(log[i].warning, d))
  }

  /** One wake-up, and a log with the rest once. */
  lemma StageOnce(start: int, deadline: int, ds: seq<int>, d: seq<WarningKey>, tail: seq<Emission>, at: int)
    requires start < deadline && Distinct(ds) && forall w :: w in ds ==> w > 0
    requires start < at <= NextEvent(deadline, ds, After(start, deadline, ds, d))
    requires if at < deadline then OnceEach(tail, at, deadline, ds, After(start, deadline, ds, d)) else tail == []
    ensures OnceEach(EmitAt(start, PendingNow(start, deadline, ds, d)) + tail, start, deadline, ds, d)
  {
    NextOf(start, deadline, ds, d);
    OneStage(start, deadline, ds, d, tail, at);
  }

  /** One wake-up followed by a run that emits each remaining warning once. */
  lemma OneStage(start: int, deadline: int, warnings: seq<int>, delivered: seq<WarningKey>, tail: seq<Emission>, next: int)
    requires start < deadline && Distinct(warnings)
    requires forall w :: w in warnings && Undelivered(w, After(start, deadline, warnings, delivered)) ==>
               start < next <= deadline - w && EmittedOnce(tail, w, Max(next, deadline - w))
    requires forall i :: 0 <= i < |tail| ==>
               tail[i].warning in warnings && Undelivered(tail[i].warning, After(start, deadline, warnings, delivered))
    ensures var log := EmitAt(start, PendingNow(start, deadline, warnings, delivered)) + tail;
            && (forall w :: w in warnings && Undelivered(w, delivered) ==>
                  EmittedOnce(log, w, Max(start, deadline - w)))
            && (forall i :: 0 <= i < |log| ==> log[i].warning in warnings && Undelivered(log[i].warning, delivered))
  {
    var p := PendingNow(start, deadline, warnings, delivered);
    var d := After(start, deadline, warnings, delivered);
    PendingMembers(start, deadline, warnings, delivered);
    MarkAllMembers(delivered, p);
    forall w | w in warnings && Undelivered(w, delivered)
      ensures EmittedOnce(EmitAt(start, p) + tail, w, Max(start, deadline - w))
    {
      if w in p {
        EmittedInHead(EmitAt(start, p), tail, start, p, d, w);
      } else {
        assert forall i :: 0 <= i < |p| ==> p[i] in p;
        EmittedInTail(EmitAt(start, p), tail, w, Max(next, deadline - w));
      }
    }
    forall i | 0 <= i < |p| ensures EmitAt(start, p)[i].warning in p { assert p[i] in p; }
  }

  lemma EmittedInHead(head: seq<Emission>, tail: seq<Emission>, start: int, p: seq<int>, d: seq<WarningKey>, w: int)
    requires Distinct(p) && head == EmitAt(start, p) && w in p && !Undelivered(w, d)
    requires forall i :: 0 <= i < |tail| ==> Undelivered(tail[i].warning, d)
    ensures EmittedOnce(head + tail, w, start)
  {
    var i :| 0 <= i < |p| && p[i] == w;
    var log := head + tail;
    assert log[i] == Emission(start, w);
    forall j | 0 <= j < |log| && log[j].warning == w ensures j == i {
      assert j < |head| ==> log[j].warning == p[j];
    }
  }

  lemma EmittedInTail(head: seq<Emission>, tail: seq<Emission>, w: int, at: int)
    requires forall i :: 0 <= i < |head| ==> head[i].warning != w
    requires EmittedOnce(tail, w, at)
    ensures EmittedOnce(head + tail, w, at)
  {
    var i :| 0 <= i < |tail| && tail[i] == Emission(at, w)
      && forall j :: 0 <= j < |tail| && tail[j].warning == w ==> j == i;
    var log := head + tail;
    assert log[|head| + i] == tail[i];
    forall j | 0 <= j < |log| && log[j].warning == w ensures j == |head| + i {
      assert j >= |head| && log[j] == tail[j - |head|];
    }
  }

  /** At most one wake-up per warning, plus the first. */
  lemma {:induction false} FewWakeUps(start: int, deadline: int, warnings: seq<int>, delivered: seq<WarningKey>)
    ensures WakeUps(start, deadline, warnings, delivered) <= |warnings| + 1
  {
    WakeUpBound(start, deadline, warnings, delivered);
    AtMostLength(warnings);
    SubsetSize(Open(warnings, delivered), set w | w in warnings);
  }

  /** A wake-up for each open warning, and one more when nothing is due yet. */
  function Bound(now: int, deadline: int, warnings: seq<int>, delivered: seq<WarningKey>): nat {
    |Open(warnings, delivered)|
    + (if now < deadline && PendingNow(now, deadline, warnings, delivered) == [] then 1 else 0)
  }

  lemma BoundShrinks(now: int, deadline: int, warnings: seq<int>, delivered: seq<WarningKey>)
    requires now < deadline
    ensures var d := After(now, deadline, warnings, delivered);
            Bound(now + NextWait(now, deadline, warnings, d), deadline, warnings, d) + 1
            <= Bound(now, deadline, warnings, delivered)
  {
    NextWakeUp(now, deadline, warnings, delivered);
    PassDelivers(now, deadline, warnings, delivered);
    SubsetSize(Open(warnings, After(now, deadline, warnings, delivered)), Open(warnings, delivered));
  }

  lemma {:induction false} WakeUpBound(start: int, deadline: int, warnings: seq<int>, delivered: seq<WarningKey>)
    ensures WakeUps(start, deadline, warnings, delivered) <= Bound(start, deadline, warnings, delivered)
    decreases Steps(start, deadline, warnings, delivered)
  {
    if start < deadline && Open(warnings, delivered) != {} {
      var d := After(start, deadline, warnings, delivered);
      StepsShrink(start, deadline, warnings, delivered);
      WakeUpBound(start + NextWait(start, deadline, warnings, d), deadline, warnings, d);
      BoundShrinks(start, deadline, warnings, delivered);
    }
  }

  // ------------------------------------------------- passes that wake themselves

  /** What one pass does: the state it leaves, when it asks to be woken, and what
      it emits. */
  datatype Beat<S> = Beat(next: S, wait: int, emitted: seq<int>)

  /** What passes emit until the deadline when each runs as the one before asked. */
  function WokenLog<S>(pass: (int, S) -> Option<Beat<S>>, now: int, s: S, deadline: int): seq<Emission>
    decreases deadline - now
  {
    if now >= deadline || pass(now, s).None? then []
    else
      var b := pass(now, s).value;
      EmitAt(now, b.emitted) + if b.wait > 0 then WokenLog(pass, now + b.wait, b.next, deadline) else []
  }

  /** The pass emits what is due and wakes up before anything else is. */
  predicate OnBeat<S>(pass: (int, S) -> Option<Beat<S>>, now: int, s: S, deadline: int, ds: seq<int>, d: seq<WarningKey>) {
    && pass(now, s).Some?
    && var b := pass(now, s).value;
    && b.emitted == PendingNow(now, deadline, ds, d)
    && 0 < b.wait && now + b.wait <= NextEvent(deadline, ds, After(now, deadline, ds, d))
  }

  /** Where `good` holds the pass keeps to the beat, and `good` holds again when it
      wakes up. */
  ghost predicate KeepsBeat<S(!new)>(pass: (int, S) -> Option<Beat<S>>, good: (int, S, seq<WarningKey>) -> bool,
                                    deadline: int, ds: seq<int>, now: int, s: S, d: seq<WarningKey>)
  {
    now < deadline && good(now, s, d) ==>
      && OnBeat(pass, now, s, deadline, ds, d)
      && var b := pass(now, s).value;
      (now + b.wait < deadline ==> good(now + b.wait, b.next, After(now, deadline, ds, d)))
  }

  lemma BeatKept<S(!new)>(pass: (int, S) -> Option<Beat<S>>, good: (int, S, seq<WarningKey>) -> bool, deadline: int,
                          ds: seq<int>, now: int, s: S, d: seq<WarningKey>, n: S, wait: int)
    requires pass(now, s) == Some(Beat(n, wait, PendingNow(now, deadline, ds, d)))
    requires 0 < wait && now + wait <= NextEvent(deadline, ds, After(now, deadline, ds, d))
    requires now + wait < deadline ==> good(now + wait, n, After(now, deadline, ds, d))
    ensures KeepsBeat(pass, good, deadline, ds, now, s, d)
  {
  }

  /** One beat, then a log that has the rest once. */
  lemma OneBeatMore<S>(pass: (int, S) -> Option<Beat<S>>, start: int, s: S, deadline: int, ds: seq<int>, d: seq<WarningKey>,
                       n: S, wait: int)
    requires start < deadline && Distinct(ds) && forall w :: w in ds ==> w > 0
    requires pass(start, s) == Some(Beat(n, wait, PendingNow(start, deadline, ds, d)))
    requires 0 < wait && start + wait <= NextEvent(deadline, ds, After(start, deadline, ds, d))
    requires start + wait < deadline ==>
               OnceEach(WokenLog(pass, start + wait, n, deadline), start + wait, deadline, ds, After(start, deadline, ds, d))
    ensures OnceEach(WokenLog(pass, start, s, deadline), start, deadline, ds, d)
  {
    var tail := WokenLog(pass, start + wait, n, deadline);
    LogUnfolds(pass, start, s, deadline, n, wait, PendingNow(start, deadline, ds, d), tail);
    StageOnce(start, deadline, ds, d, tail, start + wait);
  }

  lemma LogUnfolds<S>(pass: (int, S) -> Option<Beat<S>>, start: int, s: S, deadline: int, n: S, wait: int, p: seq<int>,
                      tail: seq<Emission>)
    requires start < deadline && pass(start, s) == Some(Beat(n, wait, p)) && 0 < wait
    requires tail == WokenLog(pass, start + wait, n, deadline)
    ensures WokenLog(pass, start, s, deadline) == EmitAt(start, p) + tail
  {
  }

  /** Such passes emit each warning exactly once, at max(start, deadline - w) and
      so before the deadline, and nothing else - even when some of them wake up
      between two events. */
  lemma {:induction false} WokenPassesEmitOnce<S(!new)>(
    pass: (int, S) -> Option<Beat<S>>, good: (int, S, seq<WarningKey>) -> bool,
    start: int, s: S, deadline: int, ds: seq<int>, d: seq<WarningKey>)
    requires start < deadline && good(start, s, d) && Distinct(ds) && forall w :: w in ds ==> w > 0
    requires forall t, x, e :: KeepsBeat(pass, good, deadline, ds, t, x, e)
    ensures OnceEach(WokenLog(pass, start, s, deadline), start, deadline, ds, d)
    decreases deadline - start
  {
    assert KeepsBeat(pass, good, deadline, ds, start, s, d);
    var b := pass(start, s).value;
    if start + b.wait < deadline {
      WokenPassesEmitOnce(pass, good, start + b.wait, b.next, deadline, ds, After(start, deadline, ds, d));
    }
    OneBeatMore(pass, start, s, deadline, ds, d, b.next, b.wait);
  }

  /** After a pass the next event is the first threshold left. */
  lemma NextOf(now: int, deadline: int, ds: seq<int>, d: seq<WarningKey>)
    requires now < deadline
    ensures var e := After(now, deadline, ds, d);
            var next := NextEvent(deadline, ds, e);
            && now < next <= deadline && next == now + NextWait(now, deadline, ds, e)
            && forall w :: w in ds && Undelivered(w, e) ==> next <= deadline - w
  {
    PassDelivers(now, deadline, ds, d);
    WaitIsPositive(now, deadline, ds, After(now, deadline, ds, d));
  }

  /** A pass that is woken exactly when NextReconcileAfter says, over the ledger. */
  function ExactPass(deadline: int, ds: seq<int>): (int, seq<WarningKey>) -> Option<Beat<seq<WarningKey>>> {
    (now: int, d: seq<WarningKey>) => Some(ExactBeat(now, deadline, ds, d))
  }

  function ExactBeat(now: int, deadline: int, ds: seq<int>, d: seq<WarningKey>): Beat<seq<WarningKey>> {
    var after := After(now, deadline, ds, d);
    Beat(after, NextWait(now, deadline, ds, after), PendingNow(now, deadline, ds, d))
  }

  /** The emissions of a lease that is woken exactly when NextReconcileAfter says. */
  function Emissions(start: int, deadline: int, ds: seq<int>, d: seq<WarningKey>): seq<Emission> {
    WokenLog(ExactPass(deadline, ds), start, d, deadline)
  }

  function SameLedger(): (int, seq<WarningKey>, seq<WarningKey>) -> bool {
    (now: int, x: seq<WarningKey>, d: seq<WarningKey>) => x == d
  }

  lemma ExactPassKeepsBeat(deadline: int, ds: seq<int>, now: int, x: seq<WarningKey>, d: seq<WarningKey>)
    ensures KeepsBeat(ExactPass(deadline, ds), SameLedger(), deadline, ds, now, x, d)
  {
    if now < deadline && x == d {
      var b := ExactBeat(now, deadline, ds, d);
      NextOf(now, deadline, ds, d);
      BeatKept(ExactPass(deadline, ds), SameLedger(), deadline, ds, now, x, d, b.next, b.wait);
    }
  }

  /** Each warning is emitted exactly once, at max(start, deadline - w) and so
      before the deadline; nothing else is emitted. */
  lemma EachWarningOnce(start: int, deadline: int, warnings: seq<int>, delivered: seq<WarningKey>)
    requires start < deadline && Distinct(warnings) && forall w :: w in warnings ==> w > 0
    ensures OnceEach(Emissions(start, deadline, warnings, delivered), start, deadline, warnings, delivered)
  {
    var pass, good := ExactPass(deadline, warnings), SameLedger();
    forall t, x, e ensures KeepsBeat(pass, good, deadline, warnings, t, x, e) {
      ExactPassKeepsBeat(deadline, warnings, t, x, e);
    }
    assert good(start, delivered, delivered);
    WokenPassesEmitOnce(pass, good, start, delivered, deadline, warnings, delivered);
  }

  // --------------------------------------------- any schedule, any deadlines

  /** A pass at `now` while the deadline is `deadline`: renewals, touches and
      spec edits may change the deadline and the warnings between passes.  The
      events go out first; `saved` says whether the status write that records them
      then succeeds. */
  datatype Visit = Visit(now: int, deadline: int, warnings: seq<int>, saved: bool)

  function Ledger(visits: seq<Visit>, delivered: seq<WarningKey>): seq<WarningKey> {
    if visits == [] then delivered
    else
      var v, before := visits[|visits| - 1], Ledger(visits[..|visits| - 1], delivered);
      if v.saved then After(v.now, v.deadline, v.warnings, before) else before
  }

  /** The warnings visit i emits. */
  function EmittedAt(visits: seq<Visit>, delivered: seq<WarningKey>, i: nat): seq<int>
    requires i < |visits|
  {
    PendingNow(visits[i].now, visits[i].deadline, visits[i].warnings, Ledger(visits[..i], delivered))
  }

  /** w is asked for, and its time has come but not the deadline's. */
  predicate StillDue(v: Visit, w: int) {
    w in v.warnings && v.deadline - w <= v.now < v.deadline
  }

  lemma EmittedMembers(visits: seq<Visit>, delivered: seq<WarningKey>, i: nat)
    requires i < |visits|
    ensures forall w :: w in EmittedAt(visits, delivered, i) <==>
              StillDue(visits[i], w) && Undelivered(w, Ledger(visits[..i], delivered))
    ensures Distinct(visits[i].warnings) ==> Distinct(EmittedAt(visits, delivered, i))
  {
    PendingMembers(visits[i].now, visits[i].deadline, visits[i].warnings, Ledger(visits[..i], delivered));
  }

  /** One visit more: what it saves is delivered from then on. */
  lemma LedgerStep(visits: seq<Visit>, delivered: seq<WarningKey>, i: nat)
    requires i < |visits|
    ensures forall w :: Undelivered(w, Ledger(visits[..i + 1], delivered)) <==>
              Undelivered(w, Ledger(visits[..i], delivered)) && !(visits[i].saved && w in EmittedAt(visits, delivered, i))
  {
    assert visits[..i + 1][..i] == visits[..i] && visits[..i + 1][i] == visits[i];
    MarkAllMembers(Ledger(visits[..i], delivered), EmittedAt(visits, delivered, i));
  }

  lemma {:induction false} LedgerGrows(visits: seq<Visit>, delivered: seq<WarningKey>, i: nat, j: nat, w: int)
    requires i <= j <= |visits| && Undelivered(w, Ledger(visits[..j], delivered))
    ensures Undelivered(w, Ledger(visits[..i], delivered))
  {
    if i < j {
      LedgerStep(visits, delivered, j - 1);
      LedgerGrows(visits, delivered, i, j - 1, w);
    }
  }

  /** A warning that got delivered between two visits was emitted and saved there. */
  lemma {:induction false} WhoDelivered(visits: seq<Visit>, delivered: seq<WarningKey>, i: nat, j: nat, w: int) returns (k: nat)
    requires i <= j <= |visits|
    requires Undelivered(w, Ledger(visits[..i], delivered)) && !Undelivered(w, Ledger(visits[..j], delivered))
    ensures i <= k < j && visits[k].saved && w in EmittedAt(visits, delivered, k)
  {
    LedgerStep(visits, delivered, j - 1);
    if Undelivered(w, Ledger(visits[..j - 1], delivered)) {
      k := j - 1;
    } else {
      k := WhoDelivered(visits, delivered, i, j - 1, w);
    }
  }

  /** A saved emission is final. */
  lemma SavedIsFinal(visits: seq<Visit>, delivered: seq<WarningKey>, i: nat, j: nat, w: int)
    requires i < j < |visits| && visits[i].saved && w in EmittedAt(visits, delivered, i)
    ensures w !in EmittedAt(visits, delivered, j)
  {
    LedgerStep(visits, delivered, i);
    EmittedMembers(visits, delivered, j);
    if Undelivered(w, Ledger(visits[..j], delivered)) {
      LedgerGrows(visits, delivered, i + 1, j, w);
    }
  }

  /** No warning is emitted by two visits. */
  ghost predicate NoRepeats(visits: seq<Visit>, delivered: seq<WarningKey>) {
    forall i, j, w :: 0 <= i < j < |visits| && w in EmittedAt(visits, delivered, i) ==> w !in EmittedAt(visits, delivered, j)
  }

  /** No visit comes, while a warning is still due, after one that emitted it and
      failed to save that. */
  ghost predicate NothingLost(visits: seq<Visit>, delivered: seq<WarningKey>) {
    forall i, j, w :: 0 <= i < j < |visits| && !visits[i].saved && w in EmittedAt(visits, delivered, i) ==>
      !StillDue(visits[j], w)
  }

  /** Whatever the schedule and however deadlines and warnings move, no warning is
      emitted twice iff no unsaved emission is still due at a later visit. */
  lemma NeverTwiceIff(visits: seq<Visit>, delivered: seq<WarningKey>)
    ensures NoRepeats(visits, delivered) <==> NothingLost(visits, delivered)
  {
    if NothingLost(visits, delivered) {
      forall i, j, w | 0 <= i < j < |visits| && w in EmittedAt(visits, delivered, i)
        ensures w !in EmittedAt(visits, delivered, j)
      {
        EmittedMembers(visits, delivered, j);
        if visits[i].saved { SavedIsFinal(visits, delivered, i, j, w); }
      }
    }
    if NoRepeats(visits, delivered) {
      forall i, j, w | 0 <= i < j < |visits| && !visits[i].saved && w in EmittedAt(visits, delivered, i)
        ensures !StillDue(visits[j], w)
      {
        LostIsRepeated(visits, delivered, i, j, w);
      }
    }
  }

  lemma LostIsRepeated(visits: seq<Visit>, delivered: seq<WarningKey>, i: nat, j: nat, w: int)
    requires i < j < |visits| && !visits[i].saved && w in EmittedAt(visits, delivered, i)
    ensures StillDue(visits[j], w) ==> !NoRepeats(visits, delivered)
  {
    EmittedMembers(visits, delivered, i);
    EmittedMembers(visits, delivered, j);
    if StillDue(visits[j], w) && !Undelivered(w, Ledger(visits[..j], delivered)) {
      var k := WhoDelivered(visits, delivered, i, j, w);
      assert i < k;
    }
  }

  /** How many visits emit w, and how many of them fail to save that. */
  function Emitters(visits: seq<Visit>, delivered: seq<WarningKey>, w: int, n: nat): nat
    requires n <= |visits|
  {
    if n == 0 then 0
    else Emitters(visits, delivered, w, n - 1) + (if w in EmittedAt(visits, delivered, n - 1) then 1 else 0)
  }

  function LostEmitters(visits: seq<Visit>, delivered: seq<WarningKey>, w: int, n: nat): nat
    requires n <= |visits|
  {
    if n == 0 then 0
    else LostEmitters(visits, delivered, w, n - 1)
         + (if !visits[n - 1].saved && w in EmittedAt(visits, delivered, n - 1) then 1 else 0)
  }

  /** Every repetition is paid for by a lost write: a warning is emitted at most
      once more than its emission is lost, and never again once it is delivered. */
  lemma {:induction false} OncePlusLost(visits: seq<Visit>, delivered: seq<WarningKey>, w: int, n: nat)
    requires n <= |visits|
    ensures Emitters(visits, delivered, w, n)
            <= LostEmitters(visits, delivered, w, n) + (if Undelivered(w, Ledger(visits[..n], delivered)) then 0 else 1)
  {
    if n > 0 {
      OncePlusLost(visits, delivered, w, n - 1);
      LedgerStep(visits, delivered, n - 1);
      EmittedMembers(visits, delivered, n - 1);
    }
  }

  /** Two passes in one window, the first of which loses its write, both emit. */
  lemma LostWriteRepeats(saved: bool)
    ensures var visits := [Visit(0, 10, [20], false), Visit(1, 10, [20], saved)];
            20 in EmittedAt(visits, [], 0) && 20 in EmittedAt(visits, [], 1) && !NoRepeats(visits, [])
  {
    var visits := [Visit(0, 10, [20], false), Visit(1, 10, [20], saved)];
    assert visits[..0] == [] && visits[..1][..0] == [];
    EmittedMembers(visits, [], 0);
    EmittedMembers(visits, [], 1);
    assert 20 in visits[0].warnings && 20 in visits[1].warnings;
    assert StillDue(visits[0], 20) && StillDue(visits[1], 20);
  }
}
