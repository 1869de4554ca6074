/** The sorted rearrangement that sort.Sort leaves. The library's algorithm is not stable and is not
    modelled; results elsewhere use only that the outcome is sorted and a permutation. */
module Sorting {

  ghost predicate TotalPreorder<T(!new)>(le: (T, T) -> bool) {
    && (forall x, y :: le(x, y) || le(y, x))
    && (forall x, y, z :: le(x, y) && le(y, z) ==> le(x, z))
  }

  ghost predicate SortedBy<T>(s: seq<T>, le: (T, T) -> bool) {
    forall i, j :: 0 <= i < j < |s| ==> le(s[i], s[j])
  }

  function Insert<T>(x: T, s: seq<T>, le: (T, T) -> bool): seq<T> {
    if s == [] then [x] else if le(x, s[0]) then [x] + s else [s[0]] + Insert(x, s[1..], le)
  }

  function Sort<T>(s: seq<T>, le: (T, T) -> bool): seq<T> {
    if s == [] then [] else Insert(s[0], Sort(s[1..], le), le)
  }

  lemma {:induction false} InsertKeepsElements<T>(x: T, s: seq<T>, le: (T, T) -> bool)
    ensures multiset(Insert(x, s, le)) == multiset([x] + s)
  {
    if s != [] && !le(x, s[0]) {
      InsertKeepsElements(x, s[1..], le);
      assert s == [s[0]] + s[1..];
    }
  }

  ghost predicate BelowAll<T>(x: T, s: seq<T>, le: (T, T) -> bool) {
    forall i :: 0 <= i < |s| ==> le(x, s[i])
  }

  lemma SortedCons<T>(x: T, s: seq<T>, le: (T, T) -> bool)
    requires SortedBy(s, le) && BelowAll(x, s, le)
    ensures SortedBy([x] + s, le)
  {
  }

  lemma BelowInsert<T>(y: T, x: T, s: seq<T>, le: (T, T) -> bool)
    requires BelowAll(y, s, le) && le(y, x)
    ensures BelowAll(y, Insert(x, s, le), le)
  {
    var r := Insert(x, s, le);
    InsertKeepsElements(x, s, le);
    forall i | 0 <= i < |r| ensures le(y, r[i]) {
      assert r[i] in multiset(r);
      assert r[i] == x || r[i] in s;
    }
  }

  lemma Transitivity<T(!new)>(le: (T, T) -> bool, x: T, y: T, z: T)
    requires TotalPreorder(le) && le(x, y) && le(y, z)
    ensures le(x, z)
  {
  }

  lemma {:induction false} InsertSorts<T(!new)>(x: T, s: seq<T>, le: (T, T) -> bool)
    requires TotalPreorder(le) && SortedBy(s, le)
    ensures SortedBy(Insert(x, s, le), le)
  {
    if s == [] {
    } else if le(x, s[0]) {
      forall i | 0 <= i < |s| ensures le(x, s[i]) {
        if i > 0 { Transitivity(le, x, s[0], s[i]); }
      }
      SortedCons(x, s, le);
    } else {
      InsertSorts(x, s[1..], le);
      BelowInsert(s[0], x, s[1..], le);
      SortedCons(s[0], Insert(x, s[1..], le), le);
    }
  }

  /** Sorting keeps the elements with their multiplicities and puts them in order. */
  lemma {:induction false} SortSorts<T(!new)>(s: seq<T>, le: (T, T) -> bool)
    requires TotalPreorder(le)
    ensures SortedBy(Sort(s, le), le) && multiset(Sort(s, le)) == multiset(s)
  {
    if s != [] {
      SortSorts(s[1..], le);
      InsertSorts(s[0], Sort(s[1..], le), le);
      InsertKeepsElements(s[0], Sort(s[1..], le), le);
      assert s == [s[0]] + s[1..];
    }
  }

  lemma SameMultisetSameElements<T>(a: seq<T>, b: seq<T>)
    requires multiset(a) == multiset(b)
    ensures |a| == |b|
    ensures forall x :: x in a <==> x in b
  {
    assert |multiset(a)| == |a| && |multiset(b)| == |b|;
    forall x ensures x in a <==> x in b {
      assert x in multiset(a) <==> x in multiset(b);
    }
  }

  lemma InsertedElements<T>(list: seq<T>, p: nat, x: T)
    requires p <= |list|
    ensures multiset(list[..p] + [x] + list[p..]) == multiset(list) + multiset{x}
  {
    assert list == list[..p] + list[p..];
  }

  ghost predicate Distinct<T>(s: seq<T>) {
    forall i, j :: 0 <= i < j < |s| ==> s[i] != s[j]
  }

  lemma {:induction false} DistinctIsMultiplicityOne<T>(s: seq<T>)
    ensures Distinct(s) <==> (forall x :: x in s ==> multiset(s)[x] == 1)
  {
    if s != [] {
      var x, tail := s[0], s[1..];
      assert s == [x] + tail;
      DistinctIsMultiplicityOne(tail);
      assert forall y :: multiset(s)[y] == multiset(tail)[y] + (if y == x then 1 else 0);
      if x in tail {
        var k :| 0 <= k < |tail| && tail[k] == x;
        assert s[k + 1] == s[0];
        assert x in multiset(tail);
        assert multiset(s)[x] >= 2 && x in s;
      } else {
        assert x !in multiset(tail);
        DistinctCons(x, tail);
        assert forall y :: y in s <==> y == x || y in tail;
      }
    }
  }

  lemma DistinctCons<T>(x: T, tail: seq<T>)
    requires x !in tail
    ensures Distinct([x] + tail) <==> Distinct(tail)
  {
    var s := [x] + tail;
    if Distinct(s) {
      forall i, j | 0 <= i < j < |tail| ensures tail[i] != tail[j] {
        assert s[i + 1] != s[j + 1];
      }
    }
  }

  lemma DistinctOfConcat<T>(a: seq<T>, b: seq<T>)
    ensures Distinct(a + b) <==> Distinct(a) && Distinct(b) && forall x :: x in a ==> x !in b
  {
    var s := a + b;
    if Distinct(s) {
      forall i, j | 0 <= i < j < |a| ensures a[i] != a[j] { assert s[i] != s[j]; }
      forall i, j | 0 <= i < j < |b| ensures b[i] != b[j] { assert s[|a| + i] != s[|a| + j]; }
      forall x | x in a ensures x !in b {
        var i :| 0 <= i < |a| && a[i] == x;
        forall j | 0 <= j < |b| ensures b[j] != x { assert s[i] != s[|a| + j]; }
      }
    } else {
      var i, j :| 0 <= i < j < |s| && s[i] == s[j];
      if j < |a| {
        assert a[i] == a[j];
      } else if i < |a| {
        assert a[i] == b[j - |a|] && a[i] in a;
      } else {
        assert b[i - |a|] == b[j - |a|];
      }
    }
  }

  /** Distinct elements drawn from a set are no more than the set has. */
  lemma {:induction false} DistinctFitInSet<T>(s: seq<T>, among: set<T>)
    requires Distinct(s) && forall x :: x in s ==> x in among
    ensures |s| <= |among|
  {
    if s != [] {
      var tail := s[1..];
      assert s == [s[0]] + tail;
      DistinctCons(s[0], tail);
      DistinctFitInSet(tail, among - {s[0]});
    }
  }

  lemma PermutationKeepsDistinct<T>(a: seq<T>, b: seq<T>)
    requires multiset(a) == multiset(b) && Distinct(a)
    ensures Distinct(b)
  {
    DistinctIsMultiplicityOne(a);
    DistinctIsMultiplicityOne(b);
    SameMultisetSameElements(a, b);
  }
}
