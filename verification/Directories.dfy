/** The embedded assets' directories: a listing handed out in pages. */
module Directories {
  import opened Text

  /** How many entries a Readdir call takes: all that is left if none or more than that is asked for. */
  function Taken(total: nat, pos: nat, count: int): nat
    requires pos <= total
  {
    if count <= 0 || count > total - pos then total - pos else count
  }

  predicate AtEnd(total: nat, pos: nat, count: int) { pos >= total && count > 0 }

  /** Where a sequence of Readdir calls leaves the position. */
  function EndOf(total: nat, pos: nat, counts: seq<int>): (end: nat)
    requires pos <= total
    ensures pos <= end <= total
    decreases counts
  {
    if counts == [] then pos
    else EndOf(total, if AtEnd(total, pos, counts[0]) then pos else pos + Taken(total, pos, counts[0]), counts[1..])
  }

  /** The pages a sequence of Readdir calls returns; at the end a positive count gets none. */
  function Pages<T>(entries: seq<T>, pos: nat, counts: seq<int>): seq<seq<T>>
    requires pos <= |entries|
    decreases counts
  {
    if counts == [] then []
    else if AtEnd(|entries|, pos, counts[0]) then [[]] + Pages(entries, pos, counts[1..])
    else
      var next := pos + Taken(|entries|, pos, counts[0]);
      [entries[pos..next]] + Pages(entries, next, counts[1..])
  }

  /** Whatever counts are asked for, the pages put together are the entries up to the position. */
  lemma {:induction false} PagesConcatenate<T>(entries: seq<T>, pos: nat, counts: seq<int>)
    requires pos <= |entries|
    ensures Flatten(Pages(entries, pos, counts)) == entries[pos..EndOf(|entries|, pos, counts)]
    decreases counts
  {
    if counts != [] {
      var next := if AtEnd(|entries|, pos, counts[0]) then pos else pos + Taken(|entries|, pos, counts[0]);
      PagesConcatenate(entries, next, counts[1..]);
      var end := EndOf(|entries|, next, counts[1..]);
      assert entries[pos..next] + entries[next..end] == entries[pos..end];
    }
  }

  function Times(count: int, calls: nat): seq<int> { seq(calls, _ => count) }

  lemma OneMoreCall(calls: nat, c: int)
    requires c > 0 && calls > 0
    ensures calls * c == (calls - 1) * c + c && (calls - 1) * c >= 0
    ensures Times(c, calls)[0] == c && Times(c, calls)[1..] == Times(c, calls - 1)
  {
  }

  lemma {:induction false} FixedCountEnds(total: nat, pos: nat, c: int, calls: nat)
    requires c > 0 && pos <= total
    ensures EndOf(total, pos, Times(c, calls)) == if pos + calls * c <= total then pos + calls * c else total
    decreases calls
  {
    if calls > 0 {
      OneMoreCall(calls, c);
      FixedCountEnds(total, if AtEnd(total, pos, c) then pos else pos + Taken(total, pos, c), c, calls - 1);
    }
  }

  /** With a fixed positive count c, k calls deliver exactly the first min(k*c, n) entries, and the
      next call reports the end exactly when those are all of them. */
  lemma FixedCountCovers<T>(entries: seq<T>, pos: nat, c: int, calls: nat)
    requires c > 0 && pos <= |entries|
    ensures var end := EndOf(|entries|, pos, Times(c, calls));
            && end == (if pos + calls * c <= |entries| then pos + calls * c else |entries|)
            && (AtEnd(|entries|, end, c) <==> pos + calls * c >= |entries|)
            && Flatten(Pages(entries, pos, Times(c, calls))) == entries[pos..end]
  {
    PagesConcatenate(entries, pos, Times(c, calls));
    FixedCountEnds(|entries|, pos, c, calls);
  }

  /** A count that is not positive asks for all that is left, and is never told of the end. */
  lemma RestInOnePage<T>(entries: seq<T>, pos: nat, count: int)
    requires pos <= |entries| && count <= 0
    ensures Pages(entries, pos, [count]) == [entries[pos..]] && EndOf(|entries|, pos, [count]) == |entries|
    ensures !AtEnd(|entries|, pos, count)
  {
    assert [count][1..] == [] && entries[pos..|entries|] == entries[pos..];
    assert Pages(entries, |entries|, []) == [];
  }

  /** A positive count is kept to as long as there are entries left. */
  lemma PageOfCount<T>(entries: seq<T>, pos: nat, count: int)
    requires pos <= |entries| && count > 0
    ensures Pages(entries, pos, [count]) ==
            [entries[pos..if pos + count < |entries| then pos + count else |entries|]]
    ensures AtEnd(|entries|, pos, count) <==> pos == |entries|
  {
    assert [count][1..] == [];
    if pos == |entries| {
      assert entries[pos..pos] == [];
      assert Pages(entries, pos, [count]) == [[]] + Pages(entries, pos, []);
    } else {
      var next := pos + Taken(|entries|, pos, count);
      assert Pages(entries, pos, [count]) == [entries[pos..next]] + Pages(entries, next, []);
    }
  }

  class Dir<T> {
    const entries: seq<T>
    var pos: nat

    ghost predicate Valid()
      reads this
    {
      pos <= |entries|
    }

    constructor (entries: seq<T>)
      ensures Valid() && this.entries == entries && pos == 0
    {
      this.entries := entries;
      pos := 0;
    }

    /** Only a rewind is supported. */
    method Seek(offset: int, fromStart: bool) returns (ok: bool)
      requires Valid()
      modifies this
      ensures Valid()
      ensures ok <==> offset == 0 && fromStart
      ensures pos == if ok then 0 else old(pos)
    {
      ok := offset == 0 && fromStart;
      if ok {
        pos := 0;
      }
    }

    method Readdir(count: int) returns (page: seq<T>, eof: bool)
      requires Valid()
      modifies this
      ensures Valid()
      ensures eof <==> old(AtEnd(|entries|, pos, count))
      ensures [page] == old(Pages(entries, pos, [count])) && pos == old(EndOf(|entries|, pos, [count]))
      ensures count <= 0 ==> !eof && page == entries[old(pos)..]
      ensures count > 0 ==> |page| == (if count < |entries| - old(pos) then count else |entries| - old(pos))
      ensures count > 0 ==> (eof <==> old(pos) == |entries|)
    {
      var n := count;
      if pos >= |entries| && count > 0 {
        return [], true;
      }
      if n <= 0 || n > |entries| - pos {
        n := |entries| - pos;
      }
      page := entries[pos..pos + n];
      pos := pos + n;
      eof := false;
    }
  }
}
