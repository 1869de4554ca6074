/** Names in the order Go compares strings. */
module Names {

  /** Go's comparison of strings. */
  function CompareStrings(a: string, b: string): int {
    if a == "" && b == "" then 0
    else if a == "" then -1
    else if b == "" then 1
    else if a[0] != b[0] then (if a[0] > b[0] then 1 else -1)
    else CompareStrings(a[1..], b[1..])
  }

  lemma {:induction false} StringsOrdered(a: string, b: string, c: string)
    ensures CompareStrings(a, b) == -CompareStrings(b, a)
    ensures CompareStrings(a, b) == 0 <==> a == b
    ensures CompareStrings(a, b) <= 0 && CompareStrings(b, c) <= 0 ==> CompareStrings(a, c) <= 0
  {
    if a != "" && b != "" {
      assert a == [a[0]] + a[1..] && b == [b[0]] + b[1..];
      if c != "" { StringsOrdered(a[1..], b[1..], c[1..]); } else { StringsOrdered(a[1..], b[1..], ""); }
    }
  }

  /** `a` comes before `b`: it is shorter and begins it, or has the smaller character where they first
      differ. */
  ghost predicate TextBefore(a: string, b: string) {
    a < b || exists k :: 0 <= k < |a| && k < |b| && a[..k] == b[..k] && a[k] < b[k]
  }

  lemma TextBeforeOfTails(a: string, b: string)
    requires a != "" && b != "" && a[0] == b[0]
    ensures TextBefore(a, b) <==> TextBefore(a[1..], b[1..])
  {
    var s, t := a[1..], b[1..];
    assert a == [a[0]] + s && b == [b[0]] + t;
    if k :| 0 <= k < |a| && k < |b| && a[..k] == b[..k] && a[k] < b[k] {
      assert a[..k][1..] == s[..k - 1] && b[..k][1..] == t[..k - 1] && s[k - 1] < t[k - 1];
    }
    if k :| 0 <= k < |s| && k < |t| && s[..k] == t[..k] && s[k] < t[k] {
      assert a[..k + 1] == [a[0]] + s[..k] && b[..k + 1] == [b[0]] + t[..k] && a[k + 1] < b[k + 1];
    }
  }

  lemma SameBeginning<T>(a: seq<T>, b: seq<T>, k: nat)
    requires k <= |a| && k <= |b| && a[..k] == b[..k]
    ensures k > 0 ==> a[0] == b[0]
  {
    if k > 0 { assert a[..k][0] == a[0] && b[..k][0] == b[0]; }
  }

  lemma FirstCharacterDecides(a: string, b: string)
    requires a != "" && b != "" && a[0] != b[0]
    ensures TextBefore(a, b) <==> a[0] < b[0]
  {
    if k :| 0 <= k < |a| && k < |b| && a[..k] == b[..k] && a[k] < b[k] {
      SameBeginning(a, b, k);
    }
    if a[0] < b[0] { assert a[..0] == b[..0]; }
  }

  /** The comparison is that order. */
  lemma {:induction false} ComparesText(a: string, b: string)
    ensures CompareStrings(a, b) == (if TextBefore(a, b) then -1 else if TextBefore(b, a) then 1 else 0)
    ensures !(TextBefore(a, b) && TextBefore(b, a))
  {
    if a != "" && b != "" {
      if a[0] == b[0] {
        TextBeforeOfTails(a, b);
        TextBeforeOfTails(b, a);
        ComparesText(a[1..], b[1..]);
      } else {
        FirstCharacterDecides(a, b);
        FirstCharacterDecides(b, a);
      }
    }
  }

  ghost predicate Ascending(names: seq<string>) {
    forall i, j :: 0 <= i < j < |names| ==> CompareStrings(names[i], names[j]) < 0
  }

  lemma FirstIsLeast(a: seq<string>, b: seq<string>)
    requires Ascending(a) && Ascending(b) && a != [] && b != [] && (forall x :: x in a <==> x in b)
    ensures a[0] == b[0]
  {
    assert a[0] in b && b[0] in a;
    var i :| 0 <= i < |b| && b[i] == a[0];
    var j :| 0 <= j < |a| && a[j] == b[0];
    StringsOrdered(a[0], b[0], "");
  }

  /** A directory has one listing. */
  lemma {:induction false} ListingIsUnique(a: seq<string>, b: seq<string>)
    requires Ascending(a) && Ascending(b) && forall x :: x in a <==> x in b
    ensures a == b
  {
    assert (a == [] || a[0] in a) && (b == [] || b[0] in b);
    if a != [] && b != [] {
      FirstIsLeast(a, b);
      forall x ensures x in a[1..] <==> x in b[1..] {
        TailElements(a, x);
        TailElements(b, x);
      }
      ListingIsUnique(a[1..], b[1..]);
      assert a == [a[0]] + a[1..] && b == [b[0]] + b[1..];
    }
  }

  lemma TailElements(a: seq<string>, x: string)
    requires Ascending(a) && a != []
    ensures x in a[1..] <==> x in a && x != a[0]
  {
    if x in a[1..] {
      var k :| 0 <= k < |a[1..]| && a[1..][k] == x;
      assert a[k + 1] == x && CompareStrings(a[0], x) < 0;
      StringsOrdered(x, x, x);
    }
    if x in a && x != a[0] {
      var k :| 0 <= k < |a| && a[k] == x;
      assert a[1..][k - 1] == x;
    }
  }

  /** The names in order; how a directory is read and how a profile's VMs are put in order. */
  method SortedNames(all: set<string>) returns (names: seq<string>)
    ensures Ascending(names) && forall name :: name in names <==> name in all
  {
    names := [];
    var rest := all;
    while rest != {}
      invariant rest <= all && Ascending(names)
      invariant forall name :: name in names <==> name in all && name !in rest
    {
      var name :| name in rest;
      ghost var before := names;
      names := InsertName(names, name);
      rest := rest - {name};
    }
  }

  method InsertName(names: seq<string>, name: string) returns (out: seq<string>)
    requires Ascending(names) && name !in names
    ensures Ascending(out) && forall x :: x in out <==> x in names || x == name
  {
    var p := 0;
    while p < |names| && CompareStrings(names[p], name) < 0
      invariant p <= |names| && forall i :: 0 <= i < p ==> CompareStrings(names[i], name) < 0
    {
      p := p + 1;
    }
    out := names[..p] + [name] + names[p..];
    forall i | p <= i < |names| ensures CompareStrings(name, names[i]) < 0 {
      StringsOrdered(names[p], name, name);
      assert names[p] in names;
      if i > p {
        StringsOrdered(name, names[p], names[i]);
        StringsOrdered(names[i], name, names[p]);
        StringsOrdered(names[p], names[i], name);
      }
    }
    forall i, j | 0 <= i < j < |out| ensures CompareStrings(out[i], out[j]) < 0 {
      if i < p < j { StringsOrdered(names[i], name, names[j - 1]); }
    }
    forall x ensures x in out <==> x in names || x == name {
      assert names == names[..p] + names[p..];
    }
  }

  lemma LaterName(names: seq<string>, n: nat)
    requires Ascending(names) && n < |names|
    ensures names[n] !in names[..n]
  {
    StringsOrdered(names[n], names[n], names[n]);
  }
}
