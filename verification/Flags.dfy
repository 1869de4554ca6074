/** The workaround for list flags, which come back with brackets around them and commas inside. */
module Flags {
  import opened Text

  /** A value without its brackets. */
  function Stripped(x: string): string {
    Replace(Replace(x, "]", ""), "[", "")
  }

  function Sliced(plain: seq<string>): seq<string> {
    if plain == [] then [] else Split(Stripped(plain[0]), ',') + Sliced(plain[1..])
  }

  method SplitFlags(plain: seq<string>) returns (sliced: seq<string>)
    ensures sliced == Sliced(plain)
  {
    sliced := [];
    for n := 0 to |plain|
      invariant Sliced(plain) == sliced + Sliced(plain[n..])
    {
      var parts := Split(Stripped(plain[n]), ',');
      ghost var before := sliced;
      for k := 0 to |parts|
        invariant sliced == before + parts[..k]
      {
        sliced := sliced + [parts[k]];
      }
      assert parts[..|parts|] == parts;
      assert plain[n..][1..] == plain[n + 1..];
    }
  }

  /** The characters of a text but its brackets. */
  function Unbracketed(x: string): string {
    if x == "" then ""
    else if x[0] == '[' || x[0] == ']' then Unbracketed(x[1..])
    else [x[0]] + Unbracketed(x[1..])
  }

  lemma {:induction false} DeletesFirst(x: string, c: string)
    requires |c| == 1 && x != ""
    ensures Replace(x, c, "") == (if x[0] == c[0] then "" else [x[0]]) + Replace(x[1..], c, "")
  {
    assert c <= x <==> x[0] == c[0];
  }

  /** Stripping takes out the brackets, wherever they stand, and nothing else. */
  lemma {:induction false} StrippedIsUnbracketed(x: string)
    ensures Stripped(x) == Unbracketed(x)
  {
    if x != "" {
      var rest := Replace(x[1..], "]", "");
      DeletesFirst(x, "]");
      StrippedIsUnbracketed(x[1..]);
      if x[0] == ']' {
        assert Replace(x, "]", "") == rest;
      } else {
        assert Replace(x, "]", "") == [x[0]] + rest && ([x[0]] + rest)[1..] == rest;
        DeletesFirst([x[0]] + rest, "[");
      }
    }
  }

  lemma StrippedIsFree(x: string)
    ensures '[' !in Stripped(x) && ']' !in Stripped(x)
  {
    DeleteIsFree(x, ']');
    DeleteIsFree(Replace(x, "]", ""), '[');
  }

  /** No output has brackets or commas left, and a non-empty input has a non-empty output. */
  lemma {:induction false} SlicedIsClean(plain: seq<string>)
    ensures AllFree(Sliced(plain), '[') && AllFree(Sliced(plain), ']') && AllFree(Sliced(plain), ',')
    ensures plain != [] ==> Sliced(plain) != []
  {
    if plain != [] {
      SlicedIsClean(plain[1..]);
      StrippedIsFree(plain[0]);
      SplitIsFree(Stripped(plain[0]), ',');
    }
  }

  /** A string that has no brackets is left alone. */
  lemma StrippedOfClean(x: string)
    requires '[' !in x && ']' !in x
    ensures Stripped(x) == x
  {
    ReplaceAbsent(x, ']', "");
    ReplaceAbsent(x, '[', "");
  }

  /** The list survives being passed on as one comma-separated argument and taken apart again. */
  lemma SlicedSurvivesReexec(plain: seq<string>)
    requires plain != []
    ensures Sliced([Join(Sliced(plain), ',')]) == Sliced(plain)
  {
    var out := Sliced(plain);
    var joined := Join(out, ',');
    SlicedIsClean(plain);
    JoinIsFree(out, ',', '[');
    JoinIsFree(out, ',', ']');
    StrippedOfClean(joined);
    SplitOfFreeJoin(out, ',');
    assert [joined][1..] == [];
  }

  /** An empty list does not: it comes back as one empty value. */
  lemma EmptyListDoesNot()
    ensures Sliced([Join(Sliced([]), ',')]) == [""]
  {
    StrippedOfClean("");
    assert [""][1..] == [];
  }

  /** Applying the workaround to its own output changes nothing. */
  lemma {:induction false} SlicedTwice(clean: seq<string>)
    requires AllFree(clean, '[') && AllFree(clean, ']') && AllFree(clean, ',')
    ensures Sliced(clean) == clean
  {
    if clean != [] {
      assert AllFree(clean[1..], '[') && AllFree(clean[1..], ']') && AllFree(clean[1..], ',');
      SlicedTwice(clean[1..]);
      StrippedOfClean(clean[0]);
      SplitWithout(clean[0], ',');
    }
  }
}
