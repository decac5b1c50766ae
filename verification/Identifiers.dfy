/**
 Identifiers are strings ordered by code point, as Python's `sorted` and `min` order them.
 Every place in the repository that sorts identifiers does so by an integer key first
 (losses, bye counts, negated priority, or nothing) and by the identifier second.
 */
module Identifiers {

  type Id = string

  predicate Leq(a: Id, b: Id) {
    if a == [] then true
    else if b == [] then false
    else if a[0] == b[0] then Leq(a[1..], b[1..])
    else a[0] < b[0]
  }

  lemma LeqTotal(a: Id, b: Id)
    ensures Leq(a, b) || Leq(b, a)
    ensures Leq(a, b) && Leq(b, a) ==> a == b
  {
    if a != [] && b != [] && a[0] == b[0] {
      LeqTotal(a[1..], b[1..]);
      assert a == [a[0]] + a[1..] && b == [b[0]] + b[1..];
    }
  }

  lemma LeqTransitive(a: Id, b: Id, c: Id)
    requires Leq(a, b) && Leq(b, c)
    ensures Leq(a, c)
  {
    if a != [] && b != [] && c != [] && a[0] == b[0] == c[0] {
      LeqTransitive(a[1..], b[1..], c[1..]);
    }
  }

  /** The sort order `(key, identifier)`. */
  predicate Before(key: Id -> int, a: Id, b: Id) {
    key(a) < key(b) || (key(a) == key(b) && Leq(a, b))
  }

  predicate IsFirst(key: Id -> int, m: Id, s: set<Id>) {
    m in s && forall x | x in s :: Before(key, m, x)
  }

  lemma FirstExists(key: Id -> int, s: set<Id>)
    requires s != {}
    ensures exists m :: IsFirst(key, m, s)
  {
    var y :| y in s;
    LeqTotal(y, y);
    if s == {y} {
      assert IsFirst(key, y, s);
    } else {
      var rest := s - {y};
      FirstExists(key, rest);
      var n :| IsFirst(key, n, rest);
      LeqTotal(y, n);
      if Before(key, y, n) {
        forall x | x in rest ensures Before(key, y, x) {
          if key(y) == key(n) == key(x) { LeqTransitive(y, n, x); }
        }
        assert IsFirst(key, y, s);
      } else {
        assert IsFirst(key, n, s);
      }
    }
  }

  lemma FirstUnique(key: Id -> int, m: Id, n: Id, s: set<Id>)
    requires IsFirst(key, m, s) && IsFirst(key, n, s)
    ensures m == n
  {
    LeqTotal(m, n);
  }

  /** Python's `min(s, key=...)`. */
  function First(key: Id -> int, s: set<Id>): (m: Id)
    requires s != {}
    ensures m in s && forall x | x in s :: Before(key, m, x)
  {
    FirstExists(key, s);
    assert forall m, n | IsFirst(key, m, s) && IsFirst(key, n, s) :: m == n by {
      forall m, n | IsFirst(key, m, s) && IsFirst(key, n, s) ensures m == n { FirstUnique(key, m, n, s); }
    }
    var m :| m in s && IsFirst(key, m, s);
    m
  }

  function NoKey(x: Id): int { 0 }

  /** Python's `min(s)`, the head of `sorted(s)`. */
  function Least(s: set<Id>): (m: Id)
    requires s != {}
    ensures m in s && forall x | x in s :: Leq(m, x)
  {
    var m := First(NoKey, s);
    assert forall x | x in s :: Before(NoKey, m, x) ==> Leq(m, x);
    m
  }

  ghost predicate Distinct<T>(s: seq<T>) {
    forall i, j | 0 <= i < j < |s| :: s[i] != s[j]
  }

  function Elements<T>(s: seq<T>): set<T> {
    set x | x in s
  }

  lemma ElementsCons<T>(x: T, s: seq<T>)
    ensures Elements([x] + s) == {x} + Elements(s)
  {}

  /** Python's `sorted(s, key=...)`. */
  function SortBy(key: Id -> int, s: set<Id>): (r: seq<Id>)
    ensures |r| == |s|
    ensures Elements(r) == s
  {
    if s == {} then []
    else
      var m := First(key, s);
      var rest := SortBy(key, s - {m});
      ElementsCons(m, rest);
      [m] + rest
  }

  lemma SortByMember(key: Id -> int, s: set<Id>, x: Id)
    ensures x in SortBy(key, s) <==> x in s
  {
    assert x in SortBy(key, s) <==> x in Elements(SortBy(key, s));
  }

  lemma {:induction false} SortByDistinct(key: Id -> int, s: set<Id>)
    ensures Distinct(SortBy(key, s))
  {
    if s != {} {
      var m := First(key, s);
      SortByDistinct(key, s - {m});
      SortByMember(key, s - {m}, m);
    }
  }

  lemma {:induction false} SortByOrdered(key: Id -> int, s: set<Id>, i: nat, j: nat)
    requires i < j < |s|
    ensures Before(key, SortBy(key, s)[i], SortBy(key, s)[j])
  {
    var m := First(key, s);
    var rest := SortBy(key, s - {m});
    if i == 0 {
      SortByMember(key, s - {m}, rest[j - 1]);
    } else {
      SortByOrdered(key, s - {m}, i - 1, j - 1);
    }
  }

  /** Python's `sorted(s)`. */
  function Sorted(s: set<Id>): (r: seq<Id>)
    ensures |r| == |s|
    ensures Elements(r) == s
  {
    SortBy(NoKey, s)
  }
}
