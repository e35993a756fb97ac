/** The condition list of a lease status: how it is updated in place
    (internal/lease/conditions.go) and compared (internal/lease/status.go).  It
    justifies treating conditions as a map everywhere else. */
module ConditionLists {
  import opened Api
  import opened Finite

  /** `since` is the transition time. */
  datatype Listed = Listed(kind: ConditionType, condition: Condition, message: string, since: int)

  datatype Fact = Fact(condition: Condition, message: string)

  function FactOf(c: Listed): Fact {
    Fact(c.condition, c.message)
  }

  /** byType: of several entries of one kind, the last. */
  function View(list: seq<Listed>): map<ConditionType, Fact> {
    if list == [] then map[]
    else View(list[..|list| - 1])[list[|list| - 1].kind := FactOf(list[|list| - 1])]
  }

  ghost predicate OneOfEach(list: seq<Listed>) {
    forall i, j :: 0 <= i < j < |list| ==> list[i].kind != list[j].kind
  }

  predicate Agrees(c: Listed, m: map<ConditionType, Fact>) {
    c.kind in m && m[c.kind] == FactOf(c)
  }

  predicate AllAgree(list: seq<Listed>, m: map<ConditionType, Fact>) {
    forall i :: 0 <= i < |list| ==> Agrees(list[i], m)
  }

  method ConditionsEqual(a: seq<Listed>, b: seq<Listed>) returns (equal: bool)
    ensures equal <==> |a| == |b| && AllAgree(a, View(b))
  {
    if |a| != |b| {
      return false;
    }
    var byType: map<ConditionType, Fact> := map[];
    for i := 0 to |b|
      invariant byType == View(b[..i])
    {
      assert b[..i + 1][..i] == b[..i];
      byType := byType[b[i].kind := FactOf(b[i])];
    }
    assert b[..|b|] == b;
    for i := 0 to |a|
      invariant AllAgree(a[..i], byType)
    {
      if a[i].kind !in byType || byType[a[i].kind] != FactOf(a[i]) {
        assert !Agrees(a[i], byType);
        return false;
      }
      assert forall j :: 0 <= j < i ==> a[..i + 1][j] == a[..i][j];
    }
    assert a[..|a|] == a;
    return true;
  }

  /** The view has the kinds of the list, and every entry agrees with it. */
  ghost predicate Faithful(list: seq<Listed>, m: map<ConditionType, Fact>) {
    && AllAgree(list, m) && |m| == |list|
    && forall t :: t in m ==> exists i :: 0 <= i < |list| && list[i].kind == t
  }

  lemma OneMore(init: seq<Listed>, last: Listed, m: map<ConditionType, Fact>)
    requires Faithful(init, m) && forall i :: 0 <= i < |init| ==> init[i].kind != last.kind
    ensures Faithful(init + [last], m[last.kind := FactOf(last)])
  {
    var list, after := init + [last], m[last.kind := FactOf(last)];
    assert last.kind !in m;
    assert after.Keys == m.Keys + {last.kind};
    forall i | 0 <= i < |list| ensures Agrees(list[i], after) {
      if i < |init| { assert Agrees(init[i], m); }
    }
    forall t | t in after ensures exists i :: 0 <= i < |list| && list[i].kind == t {
      if t == last.kind {
        assert list[|init|].kind == t;
      } else {
        var i :| 0 <= i < |init| && init[i].kind == t;
        assert list[i].kind == t;
      }
    }
  }

  lemma {:induction false} ViewMembers(list: seq<Listed>)
    requires OneOfEach(list)
    ensures Faithful(list, View(list))
  {
    if list != [] {
      var init, last := list[..|list| - 1], list[|list| - 1];
      ViewMembers(init);
      OneMore(init, last, View(init));
      assert init + [last] == list;
    }
  }

  lemma AgreementIsEquality(a: seq<Listed>, m: map<ConditionType, Fact>)
    requires OneOfEach(a) && |a| == |m| && AllAgree(a, m)
    ensures View(a) == m
  {
    ViewMembers(a);
    forall t | t in View(a) ensures t in m && View(a)[t] == m[t] {
      var i :| 0 <= i < |a| && a[i].kind == t;
      assert Agrees(a[i], View(a)) && Agrees(a[i], m);
    }
    assert |View(a).Keys| == |View(a)| && |m.Keys| == |m|;
    SubsetSize(View(a).Keys, m.Keys);
  }

  /** With one entry of each kind the comparison is exact: it neither depends on
      the order nor on transition times. */
  lemma ComparisonIsExact(a: seq<Listed>, b: seq<Listed>)
    requires OneOfEach(a) && OneOfEach(b)
    ensures |a| == |b| && AllAgree(a, View(b)) <==> View(a) == View(b)
  {
    ViewMembers(a);
    ViewMembers(b);
    if |a| == |b| && AllAgree(a, View(b)) {
      AgreementIsEquality(a, View(b));
    }
  }

  /** Without that it is not even symmetric. */
  lemma DuplicatesConfuse(x: Listed, y: Listed)
    requires x.kind != y.kind
    ensures AllAgree([x, x], View([x, y])) && !AllAgree([x, y], View([x, x]))
  {
    assert [x, y][..1] == [x] && [x][..0] == [] && [x, x][..1] == [x];
    assert View([x]) == map[x.kind := FactOf(x)];
    assert !Agrees([x, y][1], View([x, x]));
  }

  // ------------------------------------------------------------------ updates

  function Position(list: seq<Listed>, t: ConditionType): (i: nat)
    ensures i <= |list| && (i < |list| ==> list[i].kind == t) && forall j :: 0 <= j < i ==> list[j].kind != t
  {
    if list == [] || list[0].kind == t then 0 else 1 + Position(list[1..], t)
  }

  /** SetCondition: in place when the kind is there, else at the end; the
      transition time moves only when the status flips. */
  function Set(list: seq<Listed>, t: ConditionType, c: Condition, message: string, now: int): seq<Listed> {
    var i := Position(list, t);
    if i == |list| then list + [Listed(t, c, message, now)]
    else list[i := Listed(t, c, message, if list[i].condition.isTrue == c.isTrue then list[i].since else now)]
  }

  lemma {:induction false} ViewOfUpdate(list: seq<Listed>, i: nat, c: Listed)
    requires i < |list| && OneOfEach(list) && c.kind == list[i].kind
    ensures View(list[i := c]) == View(list)[c.kind := FactOf(c)]
  {
    var n := |list| - 1;
    var after := list[i := c];
    if i == n {
      assert after[..n] == list[..n];
    } else {
      assert after[..n] == list[..n][i := c] && after[n] == list[n];
      ViewOfUpdate(list[..n], i, c);
    }
  }

  lemma OneOfEachUpdated(list: seq<Listed>, i: nat, c: Listed)
    requires i < |list| && OneOfEach(list) && c.kind == list[i].kind
    ensures OneOfEach(list[i := c])
  {
  }

  lemma OneOfEachAppended(list: seq<Listed>, c: Listed)
    requires OneOfEach(list) && forall i :: 0 <= i < |list| ==> list[i].kind != c.kind
    ensures OneOfEach(list + [c]) && View(list + [c]) == View(list)[c.kind := FactOf(c)]
  {
    assert (list + [c])[..|list|] == list;
  }

  /** On a list with one entry of each kind SetCondition is a map update. */
  lemma SetIsUpdate(list: seq<Listed>, t: ConditionType, c: Condition, message: string, now: int)
    requires OneOfEach(list)
    ensures OneOfEach(Set(list, t, c, message, now))
    ensures View(Set(list, t, c, message, now)) == View(list)[t := Fact(c, message)]
  {
    var i := Position(list, t);
    if i == |list| {
      OneOfEachAppended(list, Listed(t, c, message, now));
    } else {
      var entry := Listed(t, c, message, if list[i].condition.isTrue == c.isTrue then list[i].since else now);
      ViewOfUpdate(list, i, entry);
      OneOfEachUpdated(list, i, entry);
    }
  }

  datatype Change = Change(kind: ConditionType, condition: Condition, message: string, now: int)

  function SetAll(changes: seq<Change>): seq<Listed> {
    if changes == [] then []
    else
      var c := changes[|changes| - 1];
      Set(SetAll(changes[..|changes| - 1]), c.kind, c.condition, c.message, c.now)
  }

  lemma {:induction false} SetAllIsOneOfEach(changes: seq<Change>)
    ensures OneOfEach(SetAll(changes))
  {
    if changes != [] {
      var c := changes[|changes| - 1];
      SetAllIsOneOfEach(changes[..|changes| - 1]);
      SetIsUpdate(SetAll(changes[..|changes| - 1]), c.kind, c.condition, c.message, c.now);
    }
  }

  /** So on all condition lists the controller can build, the comparison says
      whether the same conditions hold. */
  lemma ReachableListsCompareExactly(p: seq<Change>, q: seq<Change>)
    ensures var a, b := SetAll(p), SetAll(q);
            |a| == |b| && AllAgree(a, View(b)) <==> View(a) == View(b)
  {
    SetAllIsOneOfEach(p);
    SetAllIsOneOfEach(q);
    ComparisonIsExact(SetAll(p), SetAll(q));
  }
}
