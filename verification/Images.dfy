/** The image store: directories on disk, one per version and channel, and the daemon's index of them. */
module Images {
  import opened Text
  import opened Names
  import opened SemVer
  import opened Sorting

  const CHANNELS := ["alpha", "beta", "stable"]

  /** An entry of a channel's directory. A version's directory is known by the modification times of
      its two image files, if they are there, and its own; `removable` says whether deleting it works. */
  datatype Node = File | Dir(vmlinuz: Option<nat>, initrd: Option<nat>, modTime: nat, removable: bool)

  type Listing = map<string, Node>

  function Max(a: nat, b: nat): nat { if a < b then b else a }

  /** A usable image: both files are there and the newest of the three times is after the breakage. */
  predicate Usable(breakage: nat, node: Node) {
    node.Dir? && node.vmlinuz.Some? && node.initrd.Some? &&
    Max(Max(node.vmlinuz.value, node.initrd.value), node.modTime) > breakage
  }

  /** Put the other way: a version is kept if it has both files, and they or their directory have been
      changed since the breakage. */
  lemma UsableIff(breakage: nat, node: Node)
    ensures Usable(breakage, node) <==>
            && node.Dir? && node.vmlinuz.Some? && node.initrd.Some?
            && (breakage < node.vmlinuz.value || breakage < node.initrd.value || breakage < node.modTime)
  {
  }

  /** What a complete scan leaves: everything but the unusable directories. */
  function Cleaned(breakage: nat, dir: Listing): Listing {
    map name | name in dir && (dir[name].File? || Usable(breakage, dir[name])) :: dir[name]
  }

  /** A channel the scan gets through: usable directories are named by versions, others can be deleted. */
  predicate Scannable(breakage: nat, dir: Listing) {
    forall name :: name in dir ==> EntryOk(breakage, dir, name)
  }

  predicate EntryOk(breakage: nat, dir: Listing, name: string)
    requires name in dir
  {
    dir[name].Dir? ==> if Usable(breakage, dir[name]) then Parse(name).Some? else dir[name].removable
  }

  /** The versions found, in the order the names are listed. */
  function Found(breakage: nat, dir: Listing, names: seq<string>): seq<Version> {
    if names == [] then []
    else
      var rest := Found(breakage, dir, names[1..]);
      if names[0] in dir && Usable(breakage, dir[names[0]]) && Parse(names[0]).Some?
      then [Parse(names[0]).value] + rest
      else rest
  }

  /** ReadDir lists a directory in the order of the names. */
  ghost predicate Lists(names: seq<string>, dir: Listing) {
    Ascending(names) && forall name :: name in names <==> name in dir
  }

  /** `list` is what a successful scan of the channel returns. */
  ghost predicate ScanResult(breakage: nat, dir: Listing, list: seq<Version>) {
    exists names :: Lists(names, dir) && list == Sort(Found(breakage, dir, names), Le)
  }

  // ---- Listings ----

  function Select(breakage: nat, dir: Listing, names: seq<string>): seq<string> {
    if names == [] then []
    else
      var rest := Select(breakage, dir, names[1..]);
      if names[0] in Cleaned(breakage, dir) then [names[0]] + rest else rest
  }

  lemma {:induction false} SelectIsOrdered(breakage: nat, dir: Listing, names: seq<string>)
    requires Ascending(names)
    ensures forall name :: name in Select(breakage, dir, names) <==> name in names && name in Cleaned(breakage, dir)
    ensures Ascending(Select(breakage, dir, names))
  {
    if names != [] {
      var rest := Select(breakage, dir, names[1..]);
      SelectIsOrdered(breakage, dir, names[1..]);
      assert names == [names[0]] + names[1..];
      forall j | 0 <= j < |rest| ensures CompareStrings(names[0], rest[j]) < 0 {
        assert rest[j] in rest;
        var k :| 0 <= k < |names[1..]| && names[1..][k] == rest[j];
        assert names[k + 1] == rest[j];
      }
    }
  }

  lemma {:induction false} SelectFindsTheSame(breakage: nat, dir: Listing, names: seq<string>)
    ensures Found(breakage, Cleaned(breakage, dir), Select(breakage, dir, names)) == Found(breakage, dir, names)
  {
    if names != [] {
      SelectFindsTheSame(breakage, dir, names[1..]);
      var rest := Select(breakage, dir, names[1..]);
      if names[0] in Cleaned(breakage, dir) {
        assert ([names[0]] + rest)[1..] == rest;
      }
    }
  }

  // ---- The scan is a fixpoint ----

  lemma CleanedTwice(breakage: nat, dir: Listing)
    ensures Cleaned(breakage, Cleaned(breakage, dir)) == Cleaned(breakage, dir)
    ensures Scannable(breakage, dir) ==> Scannable(breakage, Cleaned(breakage, dir))
  {
  }

  /** Scanning again gives the same list and deletes nothing. */
  lemma ScanAgainIsSame(breakage: nat, dir: Listing, first: seq<Version>, second: seq<Version>)
    requires Scannable(breakage, dir)
    requires ScanResult(breakage, dir, first) && ScanResult(breakage, Cleaned(breakage, dir), second)
    ensures second == first
    ensures Scannable(breakage, Cleaned(breakage, dir))
    ensures Cleaned(breakage, Cleaned(breakage, dir)) == Cleaned(breakage, dir)
  {
    CleanedTwice(breakage, dir);
    var names :| Lists(names, dir) && first == Sort(Found(breakage, dir, names), Le);
    var again :| Lists(again, Cleaned(breakage, dir)) &&
        second == Sort(Found(breakage, Cleaned(breakage, dir), again), Le);
    SelectIsOrdered(breakage, dir, names);
    ListingIsUnique(again, Select(breakage, dir, names));
    SelectFindsTheSame(breakage, dir, names);
  }

  lemma {:induction false} FoundAre(breakage: nat, dir: Listing, names: seq<string>)
    ensures forall v :: v in Found(breakage, dir, names) ==>
              ToString(v) in names && ToString(v) in dir && Usable(breakage, dir[ToString(v)]) &&
                  Parse(ToString(v)) == Some(v)
    ensures forall name :: name in names && name in dir && Usable(breakage, dir[name]) && Parse(name).Some? ==>
              Parse(name).value in Found(breakage, dir, names)
  {
    if names != [] {
      FoundAre(breakage, dir, names[1..]);
      assert names == [names[0]] + names[1..];
      if names[0] in dir && Usable(breakage, dir[names[0]]) && Parse(names[0]).Some? {
        ParsePrintsBack(names[0]);
      }
    }
  }

  lemma LeIsTotal()
    ensures TotalPreorder(Le)
  {
    forall x, y ensures Le(x, y) || Le(y, x) { PrecedenceIsTotal(x, y, x); }
    forall x, y, z ensures Le(x, y) && Le(y, z) ==> Le(x, z) { PrecedenceIsTotal(x, y, z); }
  }

  /** No version of the list is followed by one that precedes it. */
  ghost predicate NoneLater(list: seq<Version>) {
    forall i, j :: 0 <= i < j < |list| ==> !Precedes(list[j], list[i])
  }

  lemma SortedIsInOrder(list: seq<Version>)
    requires SortedBy(list, Le)
    ensures NoneLater(list)
  {
    forall i, j | 0 <= i < j < |list| ensures !Precedes(list[j], list[i]) {
      ComparesAsTheStandardSays(list[i], list[j]);
    }
  }

  /** After a successful scan the directories of a channel are exactly the listed versions, each of
      them usable, and the list ascends. */
  lemma ScanListsTheDisk(breakage: nat, dir: Listing, list: seq<Version>, name: string)
    requires Scannable(breakage, dir) && ScanResult(breakage, dir, list)
    ensures var disk := Cleaned(breakage, dir);
      && (name in disk && disk[name].Dir? <==> exists v :: v in list && ToString(v) == name)
      && (name in disk && disk[name].Dir? ==> Usable(breakage, disk[name]))
    ensures SortedBy(list, Le) && NoneLater(list)
  {
    var names :| Lists(names, dir) && list == Sort(Found(breakage, dir, names), Le);
    LeIsTotal();
    SortSorts(Found(breakage, dir, names), Le);
    SameMultisetSameElements(list, Found(breakage, dir, names));
    FoundAre(breakage, dir, names);
    SortedIsInOrder(list);
    if name in Cleaned(breakage, dir) && dir[name].Dir? {
      ParsePrintsBack(name);
      assert Parse(name).value in list;
    }
  }

  /** The last version of a scan's list is preceded by all others: none has a higher major, minor and
      patch number, nor is any later among those that have the same. */
  lemma LastIsNewest(list: seq<Version>, v: Version)
    requires SortedBy(list, Le) && v in list
    ensures var last := list[|list| - 1]; Le(v, last) && !Precedes(last, v) && !CoreBefore(last, v)
  {
    PrecedenceIsTotal(v, v, v);
    ComparesAsTheStandardSays(v, list[|list| - 1]);
  }

  // ---- Scanning ----

  method SortTimes(times: seq<nat>) returns (sorted: seq<nat>)
    requires |times| == 3
    ensures |sorted| == 3 && sorted[2] == Max(Max(times[0], times[1]), times[2])
  {
    var le := (a: nat, b: nat) => a <= b;
    SortSorts(times, le);
    sorted := Sort(times, le);
    SameMultisetSameElements(times, sorted);
    assert times[0] in sorted && times[1] in sorted && times[2] in sorted;
    assert sorted[2] in times;
    assert le(sorted[0], sorted[2]) && le(sorted[1], sorted[2]);
  }

  /** The check of one directory entry. */
  method CheckEntry(breakage: nat, node: Node) returns (keep: bool)
    requires node.Dir?
    ensures keep <==> Usable(breakage, node)
  {
    var ok := false;
    var lastMod: seq<nat> := [0, 0, 0];
    var files := [node.vmlinuz, node.initrd];
    var cnt := 0;
    while cnt < |files|
      invariant cnt <= 2 && |lastMod| == 3
      invariant cnt > 0 ==> ok && node.vmlinuz.Some? && lastMod[0] == node.vmlinuz.value
      invariant cnt > 1 ==> node.initrd.Some? && lastMod[1] == node.initrd.value
    {
      if files[cnt].None? {
        ok := false;
        break;
      }
      ok := true;
      lastMod := lastMod[cnt := files[cnt].value];
      cnt := cnt + 1;
    }
    lastMod := lastMod[2 := node.modTime];
    lastMod := SortTimes(lastMod);
    keep := ok && lastMod[2] > breakage;
  }

  /** What an interrupted scan may have done to a channel: deleted some unusable directories. */
  ghost predicate PartlyCleaned(breakage: nat, before: Listing, after: Listing) {
    && (forall name :: name in after ==> name in before && after[name] == before[name])
    && (forall name :: name in Cleaned(breakage, before) ==> name in after)
  }

  /** What the scan has left of a directory once it has been through the first `n` names. */
  function LeftAfter(breakage: nat, dir: Listing, names: seq<string>, n: nat): Listing
    requires n <= |names|
  {
    map name | name in dir && (name in names[..n] ==> name in Cleaned(breakage, dir)) :: dir[name]
  }

  lemma LeftAfterNext(breakage: nat, dir: Listing, names: seq<string>, n: nat)
    requires Lists(names, dir) && n < |names|
    ensures names[n] in dir && names[n] in LeftAfter(breakage, dir, names, n)
    ensures LeftAfter(breakage, dir, names, n)[names[n]] == dir[names[n]]
    ensures LeftAfter(breakage, dir, names, n + 1) ==
            if names[n] in Cleaned(breakage, dir) then LeftAfter(breakage, dir, names, n)
            else LeftAfter(breakage, dir, names, n) - {names[n]}
  {
    LaterName(names, n);
    assert names[n] in names;
    assert names[..n + 1] == names[..n] + [names[n]];
  }

  lemma LeftIsPartlyCleaned(breakage: nat, dir: Listing, names: seq<string>, n: nat)
    requires Lists(names, dir) && n <= |names|
    ensures PartlyCleaned(breakage, dir, LeftAfter(breakage, dir, names, n))
    ensures n == |names| ==> LeftAfter(breakage, dir, names, n) == Cleaned(breakage, dir)
  {
    if n == |names| { assert names[..n] == names; }
  }

  /** What the scan does with a directory entry. */
  datatype Verdict = Skip | Keep(version: Version) | Delete | Fail

  method JudgeEntry(breakage: nat, name: string, node: Node) returns (verdict: Verdict)
    ensures verdict.Skip? <==> node.File?
    ensures verdict.Keep? <==> Usable(breakage, node) && Parse(name).Some?
    ensures verdict.Keep? ==> Parse(name) == Some(verdict.version)
    ensures verdict.Delete? <==> node.Dir? && !Usable(breakage, node) && node.removable
  {
    if node.File? {
      return Skip;
    }
    var keep := CheckEntry(breakage, node);
    if keep {
      var v := Parse(name);
      verdict := if v.Some? then Keep(v.value) else Fail;
    } else {
      verdict := if node.removable then Delete else Fail;
    }
  }

  lemma FoundNext(breakage: nat, dir: Listing, names: seq<string>, n: nat, all: seq<Version>, verdict: Verdict)
    requires n < |names| && names[n] in dir
    requires verdict.Keep? <==> Usable(breakage, dir[names[n]]) && Parse(names[n]).Some?
    requires verdict.Keep? ==> Parse(names[n]) == Some(verdict.version)
    ensures all + Found(breakage, dir, names[n..]) ==
            (if verdict.Keep? then all + [verdict.version] else all) + Found(breakage, dir, names[n + 1..])
  {
    assert names[n..][1..] == names[n + 1..];
  }

  /** The loop's body: the n-th entry. */
  method ScanEntry(breakage: nat, ghost dir: Listing, names: seq<string>, n: nat, left: Listing, all: seq<Version>)
    returns (rest: Listing, found: seq<Version>, ok: bool)
    requires Lists(names, dir) && n < |names| && left == LeftAfter(breakage, dir, names, n)
    ensures names[n] in dir && (ok <==> EntryOk(breakage, dir, names[n]))
    ensures rest == LeftAfter(breakage, dir, names, if ok then n + 1 else n)
    ensures ok ==> found + Found(breakage, dir, names[n + 1..]) == all + Found(breakage, dir, names[n..])
  {
    LeftAfterNext(breakage, dir, names, n);
    var verdict := JudgeEntry(breakage, names[n], left[names[n]]);
    FoundNext(breakage, dir, names, n, all, verdict);
    rest, found, ok := left, all, true;
    match verdict {
      case Skip =>
      case Keep(version) => found := all + [version];
      case Delete => rest := left - {names[n]};
      case Fail => ok := false;
    }
  }

  /** How far the scan is after `n` entries: what it leaves, that it could deal with all, and what it has found. */
  ghost predicate ScannedUpTo(breakage: nat, dir: Listing, names: seq<string>, n: nat, left: Listing, all: seq<Version>)
    requires n <= |names|
  {
    && left == LeftAfter(breakage, dir, names, n)
    && (forall k :: 0 <= k < n ==> names[k] in dir && EntryOk(breakage, dir, names[k]))
    && all + Found(breakage, dir, names[n..]) == Found(breakage, dir, names)
  }

  lemma ScanStarts(breakage: nat, dir: Listing, names: seq<string>)
    ensures ScannedUpTo(breakage, dir, names, 0, dir, [])
  {
    assert names[0..] == names;
  }

  lemma ScanEnds(breakage: nat, dir: Listing, names: seq<string>, left: Listing, all: seq<Version>)
    requires Lists(names, dir) && ScannedUpTo(breakage, dir, names, |names|, left, all)
    ensures all == Found(breakage, dir, names) && left == Cleaned(breakage, dir) && PartlyCleaned(breakage, dir, left)
  {
    assert names[|names|..] == [];
    LeftIsPartlyCleaned(breakage, dir, names, |names|);
  }

  /** The loop over one channel's directory; it stops at the first entry it cannot deal with. */
  method ScanNames(breakage: nat, dir: Listing, names: seq<string>) returns (left: Listing, all: seq<Version>, ok: bool)
    requires Lists(names, dir)
    ensures PartlyCleaned(breakage, dir, left)
    ensures ok <==> forall k :: 0 <= k < |names| ==> EntryOk(breakage, dir, names[k])
    ensures ok ==> all == Found(breakage, dir, names) && left == Cleaned(breakage, dir)
  {
    left, all := dir, [];
    ScanStarts(breakage, dir, names);
    var n := 0;
    while n < |names|
      invariant n <= |names|
      invariant ScannedUpTo(breakage, dir, names, n, left, all)
    {
      LeftIsPartlyCleaned(breakage, dir, names, n);
      left, all, ok := ScanEntry(breakage, dir, names, n, left, all);
      if !ok {
        return;
      }
      n := n + 1;
    }
    ScanEnds(breakage, dir, names, left, all);
    ok := true;
  }

  /** One channel of the scan: what is left of the directory, and the versions found, in order. */
  method ScanChannel(breakage: nat, dir: Listing) returns (left: Listing, all: seq<Version>, ok: bool)
    ensures PartlyCleaned(breakage, dir, left)
    ensures ok <==> Scannable(breakage, dir)
    ensures ok ==> ScanResult(breakage, dir, all) && left == Cleaned(breakage, dir)
  {
    var names := SortedNames(dir.Keys);
    left, all, ok := ScanNames(breakage, dir, names);
    assert forall k :: 0 <= k < |names| ==> names[k] in names;
    assert ok <==> Scannable(breakage, dir) by {
      forall name | name in dir ensures name in names { }
    }
    all := Sort(all, Le);
  }

  /** Every channel exists and can be scanned. */
  ghost predicate AllScannable(breakage: nat, disk: map<string, Listing>, channels: seq<string>) {
    forall k :: 0 <= k < |channels| ==> channels[k] in disk && Scannable(breakage, disk[channels[k]])
  }

  ghost predicate StorePartlyCleaned(breakage: nat, before: map<string, Listing>, after: map<string, Listing>) {
    before.Keys == after.Keys && forall c :: c in before ==> PartlyCleaned(breakage, before[c], after[c])
  }

  /** The outcome of a complete scan: the lists of exactly the given channels, those channels cleaned,
      the rest of the store as it was. */
  ghost predicate AllScanned(breakage: nat, before: map<string, Listing>, after: map<string, Listing>,
                             channels: seq<string>, local: map<string, seq<Version>>)
  {
    && before.Keys == after.Keys
    && (forall c :: c in local <==> c in channels)
    && (forall c :: c in local ==>
        c in before && ScanResult(breakage, before[c], local[c]) && after[c] == Cleaned(breakage, before[c]))
    && (forall c :: c in before && c !in local ==> after[c] == before[c])
  }

  /** The whole scan is a fixpoint: a second one can be completed, gives the same lists and deletes nothing. */
  lemma ScanningAllAgainIsSame(breakage: nat, start: map<string, Listing>, once: map<string, Listing>,
                               twice: map<string, Listing>, channels: seq<string>,
                               first: map<string, seq<Version>>, second: map<string, seq<Version>>)
    requires AllScannable(breakage, start, channels) && AllScanned(breakage, start, once, channels, first)
    requires AllScanned(breakage, once, twice, channels, second)
    ensures AllScannable(breakage, once, channels) && second == first && twice == once
  {
    forall c | c in channels ensures c in start && Scannable(breakage, start[c]) {
      var k :| 0 <= k < |channels| && channels[k] == c;
    }
    forall c | c in first
      ensures c in second && second[c] == first[c] && twice[c] == once[c] && Scannable(breakage, once[c])
    {
      ScanAgainIsSame(breakage, start[c], first[c], second[c]);
    }
    forall c | c in once ensures twice[c] == once[c] {
      if c !in first { assert c !in second; }
    }
    assert second.Keys == first.Keys;
  }

  lemma OneMoreScanned(breakage: nat, before: map<string, Listing>, after: map<string, Listing>, done: seq<string>,
                       local: map<string, seq<Version>>, channel: string, left: Listing, all: seq<Version>)
    requires AllScanned(breakage, before, after, done, local) && channel !in done && channel in before
    requires ScanResult(breakage, before[channel], all) && left == Cleaned(breakage, before[channel])
    ensures AllScanned(breakage, before, after[channel := left], done + [channel], local[channel := all])
  {
    var a, l := after[channel := left], local[channel := all];
    assert channel !in local;
    forall c ensures c in l <==> c in done + [channel] { }
    forall c | c in l
      ensures c in before && ScanResult(breakage, before[c], l[c]) && a[c] == Cleaned(breakage, before[c])
    {
      if c != channel { assert c in local; }
    }
  }

  lemma OneMorePartly(breakage: nat, start: map<string, Listing>, disk: map<string, Listing>, channel: string,
                      left: Listing)
    requires StorePartlyCleaned(breakage, start, disk) && channel in disk && disk[channel] == start[channel]
    requires PartlyCleaned(breakage, disk[channel], left)
    ensures StorePartlyCleaned(breakage, start, disk[channel := left])
  {
  }

  method ScanChannels(breakage: nat, start: map<string, Listing>, channels: seq<string>)
    returns (disk: map<string, Listing>, local: map<string, seq<Version>>, ok: bool)
    requires Distinct(channels)
    ensures StorePartlyCleaned(breakage, start, disk)
    ensures ok <==> AllScannable(breakage, start, channels)
    ensures ok ==> AllScanned(breakage, start, disk, channels, local)
  {
    disk, local := start, map[];
    for k := 0 to |channels|
      invariant StorePartlyCleaned(breakage, start, disk)
      invariant AllScannable(breakage, start, channels[..k])
      invariant AllScanned(breakage, start, disk, channels[..k], local)
    {
      var channel := channels[k];
      assert channel !in channels[..k];
      assert channels[..k + 1] == channels[..k] + [channel];
      if channel !in disk {
        return disk, local, false;
      }
      var left, all, scanned := ScanChannel(breakage, disk[channel]);
      OneMorePartly(breakage, start, disk, channel, left);
      if scanned { OneMoreScanned(breakage, start, disk, channels[..k], local, channel, left, all); }
      disk := disk[channel := left];
      if !scanned {
        return disk, local, false;
      }
      local := local[channel := all];
    }
    assert channels[..|channels|] == channels;
    ok := true;
  }

  lemma ChannelsDiffer()
    ensures Distinct(CHANNELS)
  {
    assert |"alpha"| == 5 && |"beta"| == 4 && |"stable"| == 6;
  }
}
