/** Member and session identifiers are strings compared by code unit, as the
    language of the repository compares them. Dafny's `<` on strings is the prefix
    order, so the comparison is spelled out here, with the sort built on it. */
module Ids {

  type Id = string

  datatype Option<+T> = None | Some(value: T)

  predicate Less(a: Id, b: Id) {
    b != [] && (a == [] || a[0] < b[0] || (a[0] == b[0] && Less(a[1..], b[1..])))
  }

  lemma {:induction false} LessIrreflexive(a: Id)
    ensures !Less(a, a)
  {
    if a != [] { LessIrreflexive(a[1..]); }
  }

  lemma {:induction false} LessTransitive(a: Id, b: Id, c: Id)
    requires Less(a, b) && Less(b, c)
    ensures Less(a, c)
  {
    if a != [] && a[0] == b[0] && b[0] == c[0] { LessTransitive(a[1..], b[1..], c[1..]); }
  }

  lemma LessAsymmetric(a: Id, b: Id)
    requires Less(a, b)
    ensures !Less(b, a) && a != b
  {
    LessIrreflexive(a);
    if Less(b, a) { LessTransitive(a, b, a); }
  }

  lemma {:induction false} LessTotal(a: Id, b: Id)
    ensures Less(a, b) || a == b || Less(b, a)
  {
    if a != [] && b != [] && a[0] == b[0] {
      LessTotal(a[1..], b[1..]);
      assert a == [a[0]] + a[1..] && b == [b[0]] + b[1..];
    }
  }

  ghost predicate IsLeast(x: Id, s: set<Id>) {
    x in s && forall y | y in s :: y == x || Less(x, y)
  }

  lemma {:induction false} LeastExists(s: set<Id>) returns (x: Id)
    requires s != {}
    ensures IsLeast(x, s)
  {
    var y :| y in s;
    var rest := s - {y};
    x := y;
    assert s == rest + {y};
    if rest != {} {
      var z := LeastExists(rest);
      LessTotal(y, z);
      if Less(y, z) {
        forall w | w in s ensures w == y || Less(y, w) {
          if w in rest && w != z { LessTransitive(y, z, w); }
        }
      } else {
        x := z;
      }
    }
  }

  // The least element of a non-empty set.
  ghost function Least(s: set<Id>): (x: Id)
    requires s != {}
    ensures IsLeast(x, s)
  {
    assert exists x :: IsLeast(x, s) by { var x := LeastExists(s); }
    var x :| IsLeast(x, s);
    x
  }

  ghost predicate Ascending(s: seq<Id>) {
    forall i, j | 0 <= i < j < |s| :: Less(s[i], s[j])
  }

  // What Array.from(set).sort() returns.
  ghost function Sorted(s: set<Id>): (r: seq<Id>)
    ensures Ascending(r)
    ensures forall x :: x in r <==> x in s
    ensures |r| == |s|
  {
    if s == {} then [] else
      var x := Least(s);
      var r := [x] + Sorted(s - {x});
      assert forall y :: y in r <==> y in s;
      r
  }

  lemma {:induction false} AscendingUnique(a: seq<Id>, b: seq<Id>)
    requires Ascending(a) && Ascending(b)
    requires forall x :: x in a <==> x in b
    ensures a == b
  {
    if a == [] || b == [] {
      assert Elements(a) == Elements(b);
      ElementsEmpty(a);
      ElementsEmpty(b);
    } else {
      assert a[0] in b && b[0] in a;
      if a[0] != b[0] {
        LessAsymmetric(a[0], b[0]);
      }
      forall x ensures x in a[1..] <==> x in b[1..] {
        LessIrreflexive(a[0]);
        if x in a[1..] { assert x in b; }
        if x in b[1..] { assert x in a; }
      }
      AscendingUnique(a[1..], b[1..]);
      assert a == [a[0]] + a[1..] && b == [b[0]] + b[1..];
    }
  }

  // The elements of s that come before x.
  function Below(s: set<Id>, x: Id): set<Id> { set y | y in s && Less(y, x) }

  function Elements<T>(s: seq<T>): set<T> { set x | x in s }

  lemma ElementsEmpty<T>(s: seq<T>)
    ensures Elements(s) == {} <==> s == []
  {
    if s != [] { assert s[0] in Elements(s); }
  }

  // No repetitions.
  predicate Distinct<T(==)>(s: seq<T>) {
    s == [] || (s[0] !in s[1..] && Distinct(s[1..]))
  }

  lemma {:induction false} ElementsSize<T>(s: seq<T>)
    requires Distinct(s)
    ensures |Elements(s)| == |s|
  {
    if s != [] {
      ElementsSize(s[1..]);
      assert Elements(s) == {s[0]} + Elements(s[1..]);
    }
  }

  lemma {:induction false} SubsetSize<T>(a: set<T>, b: set<T>)
    requires a <= b
    ensures |a| <= |b|
  {
    if a != {} {
      var x :| x in a;
      SubsetSize(a - {x}, b - {x});
    }
  }

  lemma {:induction false} AscendingIsDistinct(s: seq<Id>)
    requires Ascending(s)
    ensures Distinct(s)
  {
    if s != [] {
      AscendingIsDistinct(s[1..]);
      LessIrreflexive(s[0]);
    }
  }

  lemma BelowSorted(s: set<Id>, i: nat)
    requires i < |s|
    ensures Sorted(s)[i] in s && |Below(s, Sorted(s)[i])| == i
  {
    var r := Sorted(s);
    assert r[i] in r;
    forall y ensures y in Below(s, r[i]) <==> y in r[..i] {
      if y in Below(s, r[i]) {
        var j :| 0 <= j < |r| && r[j] == y;
        LessAsymmetric(y, r[i]);
        assert j < i;
      }
      assert y in r[..i] ==> y in r;
    }
    assert Below(s, r[i]) == Elements(r[..i]);
    AscendingIsDistinct(r[..i]);
    ElementsSize(r[..i]);
  }

  // Truncating the sorted list keeps exactly the elements with fewer than n before them.
  lemma TakeSorted(s: set<Id>, n: nat, x: Id)
    ensures x in Sorted(s)[..if n < |s| then n else |s|] <==> x in s && |Below(s, x)| < n
  {
    var m := if n < |s| then n else |s|;
    if x in Sorted(s)[..m] {
      var j :| 0 <= j < m && Sorted(s)[j] == x;
      BelowSorted(s, j);
    }
    if x in s && |Below(s, x)| < n { AmongFirst(s, n, x); }
  }

  lemma AmongFirst(s: set<Id>, n: nat, x: Id)
    requires x in s && |Below(s, x)| < n
    ensures x in Sorted(s)[..if n < |s| then n else |s|]
  {
    assert x in Sorted(s);
    var i :| 0 <= i < |Sorted(s)| && Sorted(s)[i] == x;
    BelowSorted(s, i);
  }

  lemma ExtendAscending(s: seq<Id>, x: Id)
    requires Ascending(s) && (s == [] || Less(s[|s| - 1], x))
    ensures Ascending(s + [x])
  {
    forall i | 0 <= i < |s| ensures Less(s[i], x) {
      if i < |s| - 1 { LessTransitive(s[i], s[|s| - 1], x); }
    }
  }

  // Array.from(set).sort(): repeatedly take the least element.
  method SortIds(s: set<Id>) returns (r: seq<Id>)
    ensures r == Sorted(s)
  {
    r := [];
    var todo := s;
    while todo != {}
      invariant todo <= s && Ascending(r)
      invariant forall x :: x in r <==> x in s && x !in todo
      invariant forall x, y | x in r && y in todo :: Less(x, y)
    {
      var x := LeastOf(todo);
      assert r != [] ==> r[|r| - 1] in r;
      ExtendAscending(r, x);
      r := r + [x];
      todo := todo - {x};
    }
    AscendingUnique(r, Sorted(s));
  }

  method LeastOf(s: set<Id>) returns (x: Id)
    requires s != {}
    ensures IsLeast(x, s)
  {
    x :| x in s;
    var todo := s - {x};
    while todo != {}
      invariant x in s && todo <= s
      invariant forall y | y in s && y !in todo :: y == x || Less(x, y)
    {
      var y :| y in todo;
      LessTotal(x, y);
      if Less(y, x) {
        forall z | z in s && z !in todo && z != x ensures Less(y, z) { LessTransitive(y, x, z); }
        x := y;
      }
      todo := todo - {y};
    }
  }

  lemma {:induction false} PrefixDistinct(s: seq<Id>, k: Id)
    requires Distinct(s + [k])
    ensures Distinct(s) && k !in s
  {
    if s != [] {
      assert (s + [k])[1..] == s[1..] + [k];
      PrefixDistinct(s[1..], k);
      assert s[0] !in s[1..] + [k];
    }
  }

  lemma {:induction false} PickDistinct(who: set<Id>, n: nat) returns (ids: seq<Id>)
    requires n <= |who|
    ensures Distinct(ids) && |ids| == n && Elements(ids) <= who
  {
    ids := [];
    if n > 0 {
      var m :| m in who;
      var rest := PickDistinct(who - {m}, n - 1);
      assert m !in Elements(rest);
      ids := [m] + rest;
    }
  }

  // What is left of b when some of its entries are dropped.
  predicate KeepsOrder<T(==)>(a: seq<T>, b: seq<T>) {
    a == [] || (b != [] && ((a[0] == b[0] && KeepsOrder(a[1..], b[1..])) || KeepsOrder(a, b[1..])))
  }
}
