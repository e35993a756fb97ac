/** sort.Slice over a total order, with the two facts the callers rely on: the
    result is sorted, and it depends on the multiset of the elements alone. */
module Sorting {

  ghost predicate TotalOrder<T(!new)>(le: (T, T) -> bool) {
    && (forall x, y :: le(x, y) || le(y, x))
    && (forall x, y :: le(x, y) && le(y, x) ==> x == y)
    && (forall x, y, z :: le(x, y) && le(y, z) ==> le(x, z))
  }

  predicate SortedBy<T>(s: seq<T>, le: (T, T) -> bool) {
    forall i, j :: 0 <= i < j < |s| ==> le(s[i], s[j])
  }

  function Insert<T>(x: T, s: seq<T>, le: (T, T) -> bool): seq<T> {
    if s == [] then [x]
    else if le(x, s[0]) then [x] + s
    else [s[0]] + Insert(x, s[1..], le)
  }

  function Sort<T>(s: seq<T>, le: (T, T) -> bool): seq<T> {
    if s == [] then [] else Insert(s[0], Sort(s[1..], le), le)
  }

  /** A least element in front of a sorted sequence. */
  lemma LeastFirst<T(!new)>(x: T, s: seq<T>, le: (T, T) -> bool)
    requires SortedBy(s, le) && forall y :: y in multiset(s) ==> le(x, y)
    ensures SortedBy([x] + s, le)
  {
    forall i | 0 <= i < |s| ensures le(x, s[i]) {
      assert s[i] in multiset(s);
    }
  }

  lemma FirstBelow<T(!new)>(x: T, s: seq<T>, le: (T, T) -> bool)
    requires TotalOrder(le) && SortedBy(s, le) && s != [] && le(x, s[0])
    ensures forall y :: y in multiset(s) ==> le(x, y)
  {
    forall y | y in multiset(s) ensures le(x, y) {
      FirstIsLeast(s, le, y);
    }
  }

  lemma {:induction false} InsertElements<T(!new)>(x: T, s: seq<T>, le: (T, T) -> bool)
    ensures multiset(Insert(x, s, le)) == multiset(s) + multiset{x}
  {
    if s != [] && !le(x, s[0]) {
      RestElements(s);
      InsertElements(x, s[1..], le);
    }
  }

  lemma {:induction false} InsertKeeps<T(!new)>(x: T, s: seq<T>, le: (T, T) -> bool)
    requires TotalOrder(le) && SortedBy(s, le)
    ensures SortedBy(Insert(x, s, le), le)
  {
    if s != [] {
      if le(x, s[0]) {
        FirstBelow(x, s, le);
        LeastFirst(x, s, le);
      } else {
        InsertKeeps(x, s[1..], le);
        InsertIsBelow(s[0], x, s, le);
        LeastFirst(s[0], Insert(x, s[1..], le), le);
      }
    }
  }

  lemma InsertIsBelow<T(!new)>(first: T, x: T, s: seq<T>, le: (T, T) -> bool)
    requires TotalOrder(le) && SortedBy(s, le) && s != [] && first == s[0] && !le(x, first)
    ensures forall y :: y in multiset(Insert(x, s[1..], le)) ==> le(first, y)
  {
    RestElements(s);
    InsertElements(x, s[1..], le);
    FirstBelow(first, s, le);
  }

  lemma {:induction false} SortSorts<T(!new)>(s: seq<T>, le: (T, T) -> bool)
    requires TotalOrder(le)
    ensures SortedBy(Sort(s, le), le)
    ensures multiset(Sort(s, le)) == multiset(s)
  {
    if s != [] {
      SortSorts(s[1..], le);
      InsertKeeps(s[0], Sort(s[1..], le), le);
      InsertElements(s[0], Sort(s[1..], le), le);
      assert s == [s[0]] + s[1..];
    }
  }

  /** A sorted sequence starts with its least element. */
  lemma FirstIsLeast<T(!new)>(s: seq<T>, le: (T, T) -> bool, x: T)
    requires TotalOrder(le) && SortedBy(s, le) && x in multiset(s)
    ensures s != [] && le(s[0], x)
  {
    var i :| 0 <= i < |s| && s[i] == x;
    assert le(s[0], s[0]);
  }

  lemma RestElements<T>(s: seq<T>)
    requires s != []
    ensures multiset(s[1..]) == multiset(s) - multiset{s[0]} && s[0] in multiset(s)
  {
    assert s == [s[0]] + s[1..];
  }

  /** A sorted sequence is determined by its elements. */
  lemma {:induction false} SortedUnique<T(!new)>(a: seq<T>, b: seq<T>, le: (T, T) -> bool)
    requires TotalOrder(le) && SortedBy(a, le) && SortedBy(b, le)
    requires multiset(a) == multiset(b)
    ensures a == b
    decreases |a|
  {
    if a == [] {
      if b != [] { RestElements(b); }
    } else {
      RestElements(a);
      FirstIsLeast(b, le, a[0]);
      RestElements(b);
      FirstIsLeast(a, le, b[0]);
      assert a[0] == b[0];
      SortedUnique(a[1..], b[1..], le);
      assert a == [a[0]] + a[1..] && b == [b[0]] + b[1..];
    }
  }

  lemma SortIgnoresOrder<T(!new)>(a: seq<T>, b: seq<T>, le: (T, T) -> bool)
    requires TotalOrder(le) && multiset(a) == multiset(b)
    ensures Sort(a, le) == Sort(b, le)
  {
    SortSorts(a, le);
    SortSorts(b, le);
    SortedUnique(Sort(a, le), Sort(b, le), le);
  }

  // ------------------------------------------------------------- the orders

  predicate Descending(a: int, b: int) {
    a >= b
  }

  lemma DescendingIsTotal()
    ensures TotalOrder(Descending)
  {
  }

  /** Go's string comparison. */
  predicate NameLE(a: string, b: string) {
    a == [] || (b != [] && (a[0] < b[0] || (a[0] == b[0] && NameLE(a[1..], b[1..]))))
  }

  lemma {:induction false} NameLETotal(a: string, b: string)
    ensures NameLE(a, b) || NameLE(b, a)
    ensures NameLE(a, b) && NameLE(b, a) ==> a == b
  {
    if a != [] && b != [] {
      NameLETotal(a[1..], b[1..]);
      assert a == [a[0]] + a[1..] && b == [b[0]] + b[1..];
    }
  }

  lemma {:induction false} NameLETransitive(a: string, b: string, c: string)
    requires NameLE(a, b) && NameLE(b, c)
    ensures NameLE(a, c)
  {
    if a != [] && a[0] == b[0] == c[0] {
      NameLETransitive(a[1..], b[1..], c[1..]);
    }
  }

  lemma NameLEIsTotal()
    ensures TotalOrder(NameLE)
  {
    forall a, b ensures NameLE(a, b) || NameLE(b, a) { NameLETotal(a, b); }
    forall a, b | NameLE(a, b) && NameLE(b, a) ensures a == b { NameLETotal(a, b); }
    forall a, b, c | NameLE(a, b) && NameLE(b, c) ensures NameLE(a, c) { NameLETransitive(a, b, c); }
  }
}
