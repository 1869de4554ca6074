/** The parts of Go's package `strings` the model relies on, with their laws.
    Separators are single characters: every separator the program splits or joins on is one. */
module Text {

  datatype Option<+T> = None | Some(value: T)

  function Split(s: string, sep: char): (parts: seq<string>)
    ensures |parts| >= 1
  {
    if s == "" then [""]
    else
      var rest := Split(s[1..], sep);
      if s[0] == sep then [""] + rest else [[s[0]] + rest[0]] + rest[1..]
  }

  function Join(parts: seq<string>, sep: char): string {
    if parts == [] then ""
    else if |parts| == 1 then parts[0]
    else parts[0] + [sep] + Join(parts[1..], sep)
  }

  function Flatten<T>(parts: seq<seq<T>>): seq<T> {
    if parts == [] then [] else parts[0] + Flatten(parts[1..])
  }

  function Reverse<T>(s: seq<T>): (r: seq<T>)
    ensures |r| == |s|
    ensures forall i :: 0 <= i < |s| ==> r[i] == s[|s| - 1 - i]
  {
    if s == [] then [] else Reverse(s[1..]) + [s[0]]
  }

  /** Leftmost, non-overlapping replacement of every occurrence, as strings.Replace(s, from, to, -1). */
  function Replace(s: string, from: string, to: string): string
    requires from != ""
  {
    if |s| < |from| then s
    else if from <= s then to + Replace(s[|from|..], from, to)
    else [s[0]] + Replace(s[1..], from, to)
  }

  predicate HasPrefix(s: string, prefix: string) { prefix <= s }

  predicate HasSuffix(s: string, suffix: string) {
    |suffix| <= |s| && s[|s| - |suffix|..] == suffix
  }

  function TrimPrefix(s: string, prefix: string): string {
    if HasPrefix(s, prefix) then s[|prefix|..] else s
  }

  function TrimSuffix(s: string, suffix: string): string {
    if HasSuffix(s, suffix) then s[..|s| - |suffix|] else s
  }

  /** No string of the list contains `c`. */
  ghost predicate AllFree(parts: seq<string>, c: char) {
    forall i :: 0 <= i < |parts| ==> c !in parts[i]
  }

  // ---- Splitting and joining undo each other ----

  lemma {:induction false} SplitIsFree(s: string, sep: char)
    ensures AllFree(Split(s, sep), sep)
    ensures forall i, c :: 0 <= i < |Split(s, sep)| && c in Split(s, sep)[i] ==> c in s
  {
    if s != "" {
      SplitIsFree(s[1..], sep);
      var rest := Split(s[1..], sep);
      assert Split(s, sep) == if s[0] == sep then [""] + rest else [[s[0]] + rest[0]] + rest[1..];
      assert forall c :: c in s[1..] ==> c in s;
      forall i, c | 0 <= i < |Split(s, sep)| && c in Split(s, sep)[i] ensures c in s {
        if s[0] != sep && i == 0 && c != s[0] {
          assert c in rest[0];
        }
      }
    }
  }

  lemma {:induction false} JoinOfSplit(s: string, sep: char)
    ensures Join(Split(s, sep), sep) == s
  {
    if s != "" {
      JoinOfSplit(s[1..], sep);
      var rest := Split(s[1..], sep);
      if s[0] != sep { assert Split(s, sep)[1..] == rest[1..]; } else { assert Split(s, sep)[1..] == rest; }
    }
  }

  lemma {:induction false} SplitWithout(s: string, sep: char)
    requires sep !in s
    ensures Split(s, sep) == [s]
  {
    if s != "" {
      SplitWithout(s[1..], sep);
      assert s == [s[0]] + s[1..];
    }
  }

  lemma {:induction false} SplitOfConcat(a: string, sep: char, b: string)
    ensures Split(a + [sep] + b, sep) == Split(a, sep) + Split(b, sep)
  {
    var s := a + [sep] + b;
    if a == "" {
      assert s[1..] == b;
    } else {
      assert s[1..] == a[1..] + [sep] + b;
      SplitOfConcat(a[1..], sep, b);
    }
  }

  lemma {:induction false} SplitOfFreeJoin(parts: seq<string>, sep: char)
    requires parts != [] && AllFree(parts, sep)
    ensures Split(Join(parts, sep), sep) == parts
  {
    SplitWithout(parts[0], sep);
    if |parts| > 1 {
      SplitOfConcat(parts[0], sep, Join(parts[1..], sep));
      SplitOfFreeJoin(parts[1..], sep);
    }
  }

  lemma {:induction false} JoinOfConcat(a: seq<string>, b: seq<string>, sep: char)
    requires a != [] && b != []
    ensures Join(a + b, sep) == Join(a, sep) + [sep] + Join(b, sep)
  {
    if |a| == 1 {
      assert (a + b)[1..] == b;
    } else {
      assert (a + b)[1..] == a[1..] + b;
      JoinOfConcat(a[1..], b, sep);
    }
  }

  /** A character other than the separator occurs in a join only if it occurs in a part. */
  lemma {:induction false} JoinIsFree(parts: seq<string>, sep: char, c: char)
    requires c != sep && AllFree(parts, c)
    ensures c !in Join(parts, sep)
  {
    if |parts| > 1 {
      assert AllFree(parts[1..], c);
      JoinIsFree(parts[1..], sep, c);
    }
  }

  lemma {:induction false} ReverseOfConcat<T>(a: seq<T>, b: seq<T>)
    ensures Reverse(a + b) == Reverse(b) + Reverse(a)
  {
    if a == [] {
      assert a + b == b;
    } else {
      assert (a + b)[1..] == a[1..] + b;
      ReverseOfConcat(a[1..], b);
    }
  }

  lemma ReverseTwice<T>(s: seq<T>)
    ensures Reverse(Reverse(s)) == s
  {
    var r := Reverse(s);
    assert |Reverse(r)| == |s|;
    assert forall i :: 0 <= i < |s| ==> Reverse(r)[i] == r[|s| - 1 - i] == s[i];
  }

  lemma {:induction false} FlattenOfConcat<T>(a: seq<seq<T>>, b: seq<seq<T>>)
    ensures Flatten(a + b) == Flatten(a) + Flatten(b)
  {
    if a == [] {
      assert a + b == b;
    } else {
      assert (a + b)[1..] == a[1..] + b;
      FlattenOfConcat(a[1..], b);
    }
  }

  // ---- Replacing one character by another ----

  /** Replacing one character by another is splitting on the first and joining with the second. */
  lemma {:induction false} ReplaceIsRejoin(s: string, from: char, to: char)
    ensures Replace(s, [from], [to]) == Join(Split(s, from), to)
  {
    if s != "" {
      ReplaceIsRejoin(s[1..], from, to);
      var rest := Split(s[1..], from);
      if s[0] == from {
        assert Split(s, from)[1..] == rest;
        assert Replace(s, [from], [to]) == [to] + Replace(s[1..], [from], [to]);
      } else {
        assert Split(s, from)[1..] == rest[1..];
        assert Replace(s, [from], [to]) == [s[0]] + Replace(s[1..], [from], [to]);
      }
    }
  }

  lemma {:induction false} ReplaceAbsent(s: string, from: char, to: string)
    requires from !in s
    ensures Replace(s, [from], to) == s
  {
    if s != "" {
      ReplaceAbsent(s[1..], from, to);
      assert [from][0] != s[0];
    }
  }

  /** Deleting a character leaves none of it and brings in nothing new. */
  lemma {:induction false} DeleteIsFree(s: string, c: char)
    ensures c !in Replace(s, [c], "")
    ensures forall d :: d in Replace(s, [c], "") ==> d in s
  {
    if s != "" {
      DeleteIsFree(s[1..], c);
      if s[0] == c { assert [c] <= s; } else { assert !([c] <= s); }
    }
  }
}
