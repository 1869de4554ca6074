/** The daemon's in-memory index of images, the requests that change it, and its agreement with disk. */
module ImageIndex {
  import opened Text
  import opened Names
  import opened SemVer
  import opened Sorting
  import opened Images

  const LATEST := "latest"

  /** The position RemoveImage's search stops at: the first that is as asked, else simply the last. */
  function Pick(names: seq<string>, version: string): (x: nat)
    requires names != []
    ensures x < |names|
  {
    if names[0] == version || |names| == 1 then 0 else 1 + Pick(names[1..], version)
  }

  function NamesOf(list: seq<Version>): (names: seq<string>)
    ensures |names| == |list| && forall i :: 0 <= i < |list| ==> names[i] == ToString(list[i])
  {
    seq(|list|, i requires 0 <= i < |list| => ToString(list[i]))
  }

  function Chosen(list: seq<Version>, version: string): (x: nat)
    requires list != []
    ensures x < |list|
  {
    Pick(NamesOf(list), version)
  }

  function Without<T>(list: seq<T>, x: nat): seq<T>
    requires x < |list|
  {
    list[..x] + list[x + 1..]
  }

  predicate Has(list: seq<Version>, version: string) { version in NamesOf(list) }

  ghost predicate NamesOnce(list: seq<Version>) { Distinct(NamesOf(list)) }

  lemma {:induction false} PickIs(names: seq<string>, version: string)
    requires names != []
    ensures version in names ==> names[Pick(names, version)] == version
    ensures version !in names ==> Pick(names, version) == |names| - 1
    ensures version !in names[..Pick(names, version)]
  {
    if names[0] != version && |names| > 1 {
      PickIs(names[1..], version);
      assert names == [names[0]] + names[1..];
      var x := Pick(names[1..], version);
      assert names[..x + 1] == [names[0]] + names[1..][..x];
    }
  }

  lemma WithoutOnce<T>(list: seq<T>, x: nat)
    requires x < |list| && Distinct(list)
    ensures Distinct(Without(list, x))
    ensures forall y :: y in Without(list, x) <==> y in list && y != list[x]
  {
    var rest := Without(list, x);
    forall y ensures y in rest <==> y in list && y != list[x] {
      if y in rest {
        var k :| 0 <= k < |rest| && rest[k] == y;
        assert list[if k < x then k else k + 1] == y;
      }
      if y in list && y != list[x] {
        var k :| 0 <= k < |list| && list[k] == y;
        assert rest[if k < x then k else k - 1] == y;
      }
    }
  }

  lemma NamesOfWithout(list: seq<Version>, x: nat)
    requires x < |list|
    ensures NamesOf(Without(list, x)) == Without(NamesOf(list), x)
  {
    var rest, names := Without(list, x), NamesOf(list);
    forall i | 0 <= i < |rest| ensures NamesOf(rest)[i] == Without(names, x)[i] {
      assert rest[i] == list[if i < x then i else i + 1];
    }
  }

  /** Removing a version from the index takes out exactly that entry when the index has it. When it
      does not, another version is lost in its place: the last one. */
  lemma RemovalTakesTheVersionIff(list: seq<Version>, version: string)
    requires list != [] && NamesOnce(list)
    ensures var x := Chosen(list, version);
      && (ToString(list[x]) == version <==> Has(list, version))
      && (Has(list, version) ==>
            forall name :: Has(Without(list, x), name) <==> Has(list, name) && name != version)
      && (!Has(list, version) ==> Without(list, x) == list[..|list| - 1])
  {
    var x := Chosen(list, version);
    PickIs(NamesOf(list), version);
    NamesOfWithout(list, x);
    WithoutOnce(NamesOf(list), x);
    assert NamesOf(list)[x] == ToString(list[x]);
  }

  lemma WithoutKeepsOrder(list: seq<Version>, x: nat)
    requires x < |list|
    ensures SortedBy(list, Le) ==> SortedBy(Without(list, x), Le)
    ensures forall v :: v in Without(list, x) ==> v in list
  {
  }

  lemma HasIs(list: seq<Version>, version: string)
    ensures Has(list, version) <==> exists v :: v in list && ToString(v) == version
  {
    if v :| v in list && ToString(v) == version {
      var k :| 0 <= k < |list| && list[k] == v;
      assert NamesOf(list)[k] == version;
    }
    if Has(list, version) {
      var k :| 0 <= k < |list| && NamesOf(list)[k] == version;
      assert list[k] in list;
    }
  }

  // ---- Agreement with disk ----

  ghost predicate OnDisk(breakage: nat, disk: map<string, Listing>, channel: string, v: Version) {
    channel in disk && ToString(v) in disk[channel] && Usable(breakage, disk[channel][ToString(v)])
  }

  /** Every indexed version is a usable directory on disk; each list ascends and has no version twice. */
  ghost predicate IndexInv(breakage: nat, media: map<string, seq<Version>>, disk: map<string, Listing>) {
    forall c :: c in media ==>
      SortedBy(media[c], Le) && NamesOnce(media[c]) && forall v :: v in media[c] ==> OnDisk(breakage, disk, c, v)
  }

  lemma {:induction false} FoundNamesOnce(breakage: nat, dir: Listing, names: seq<string>)
    requires Ascending(names)
    ensures Distinct(Found(breakage, dir, names))
  {
    if names != [] {
      var rest := Found(breakage, dir, names[1..]);
      FoundNamesOnce(breakage, dir, names[1..]);
      FoundAre(breakage, dir, names[1..]);
      if names[0] in dir && Usable(breakage, dir[names[0]]) && Parse(names[0]).Some? {
        ParsePrintsBack(names[0]);
        TailElements(names, names[0]);
        assert Parse(names[0]).value !in rest;
      }
    }
  }

  /** A scan's versions are read back from the names they print. */
  lemma ScanParsesBack(breakage: nat, dir: Listing, local: seq<Version>)
    requires ScanResult(breakage, dir, local)
    ensures forall v :: v in local ==> Parse(ToString(v)) == Some(v)
    ensures forall v :: v in local ==> ToString(v) in dir && Usable(breakage, dir[ToString(v)])
  {
    var names :| Lists(names, dir) && local == Sort(Found(breakage, dir, names), Le);
    LeIsTotal();
    SortSorts(Found(breakage, dir, names), Le);
    SameMultisetSameElements(local, Found(breakage, dir, names));
    FoundAre(breakage, dir, names);
  }

  lemma ScanIsDistinct(breakage: nat, dir: Listing, list: seq<Version>)
    requires ScanResult(breakage, dir, list)
    ensures Distinct(list)
  {
    var names :| Lists(names, dir) && list == Sort(Found(breakage, dir, names), Le);
    LeIsTotal();
    SortSorts(Found(breakage, dir, names), Le);
    FoundNamesOnce(breakage, dir, names);
    PermutationKeepsDistinct(Found(breakage, dir, names), list);
  }

  lemma NamesDistinguish(v: Version, w: Version)
    requires Parse(ToString(v)) == Some(v) && Parse(ToString(w)) == Some(w) && v != w
    ensures ToString(v) != ToString(w)
  {
  }

  lemma ScanHasNamesOnce(breakage: nat, dir: Listing, list: seq<Version>)
    requires ScanResult(breakage, dir, list)
    ensures NamesOnce(list)
  {
    ScanParsesBack(breakage, dir, list);
    ScanIsDistinct(breakage, dir, list);
    forall i, j | 0 <= i < j < |list| ensures NamesOf(list)[i] != NamesOf(list)[j] {
      assert list[i] in list && list[j] in list;
      NamesDistinguish(list[i], list[j]);
    }
  }

  /** The index taken from a complete scan agrees with the disk it leaves. */
  lemma ScanGivesIndex(breakage: nat, before: map<string, Listing>, after: map<string, Listing>,
                       channels: seq<string>, local: map<string, seq<Version>>)
    requires AllScannable(breakage, before, channels) && AllScanned(breakage, before, after, channels, local)
    ensures IndexInv(breakage, local, after)
  {
    forall c | c in local
      ensures SortedBy(local[c], Le) && NamesOnce(local[c])
      ensures forall v :: v in local[c] ==> OnDisk(breakage, after, c, v)
    {
      assert c in channels;
      ScanHasNamesOnce(breakage, before[c], local[c]);
      ScanParsesBack(breakage, before[c], local[c]);
      ScanListsTheDisk(breakage, before[c], local[c], "");
    }
  }

  /** A scan, even one that stops half way, deletes nothing that is indexed. */
  lemma ScanKeepsIndex(breakage: nat, media: map<string, seq<Version>>, before: map<string, Listing>,
                       after: map<string, Listing>)
    requires IndexInv(breakage, media, before) && StorePartlyCleaned(breakage, before, after)
    ensures IndexInv(breakage, media, after)
  {
    forall c, v | c in media && v in media[c] ensures OnDisk(breakage, after, c, v) {
      assert OnDisk(breakage, before, c, v);
      assert ToString(v) in Cleaned(breakage, before[c]);
    }
  }

  /** Deleting the directory of the entry taken out, or failing to, deletes nothing that is indexed. */
  lemma RemovalKeepsIndex(breakage: nat, media: map<string, seq<Version>>, disk: map<string, Listing>,
                          channel: string, x: nat)
    requires IndexInv(breakage, media, disk) && channel in media && x < |media[channel]|
    ensures IndexInv(breakage, media[channel := Without(media[channel], x)], disk)
    ensures channel in disk
    ensures IndexInv(breakage, media[channel := Without(media[channel], x)],
                     disk[channel := disk[channel] - {ToString(media[channel][x])}])
  {
    var list := media[channel];
    var rest := Without(list, x);
    assert OnDisk(breakage, disk, channel, list[x]);
    WithoutKeepsOrder(list, x);
    NamesOfWithout(list, x);
    WithoutOnce(NamesOf(list), x);
    forall v | v in rest ensures ToString(v) != ToString(list[x]) {
      HasIs(rest, ToString(v));
    }
    var after := disk[channel := disk[channel] - {ToString(list[x])}];
    forall c, v | c in media[channel := rest] && v in media[channel := rest][c]
      ensures OnDisk(breakage, disk, c, v) && OnDisk(breakage, after, c, v)
    {
      assert v in media[c] && OnDisk(breakage, disk, c, v);
    }
  }

  /** Writing the directory of a version that is not indexed disturbs no indexed one. */
  lemma WriteKeepsIndex(breakage: nat, media: map<string, seq<Version>>, disk: map<string, Listing>,
                        channel: string, version: string, node: Node)
    requires IndexInv(breakage, media, disk) && channel in disk
    requires channel in media ==> !Has(media[channel], version)
    ensures IndexInv(breakage, media, disk[channel := disk[channel][version := node]])
  {
    var after := disk[channel := disk[channel][version := node]];
    forall c, v | c in media && v in media[c] ensures OnDisk(breakage, after, c, v) {
      assert OnDisk(breakage, disk, c, v);
      if c == channel { HasIs(media[channel], ToString(v)); }
    }
  }

  /** A version that is indexed shows up in every complete scan ... */
  lemma IndexedIsListed(breakage: nat, media: map<string, seq<Version>>, before: map<string, Listing>,
                        channel: string, local: seq<Version>, version: string)
    requires IndexInv(breakage, media, before) && channel in media && Has(media[channel], version)
    requires channel in before ==> Scannable(breakage, before[channel]) && ScanResult(breakage, before[channel], local)
    ensures Has(local, version)
  {
    HasIs(media[channel], version);
    var v :| v in media[channel] && ToString(v) == version;
    assert OnDisk(breakage, before, channel, v);
    ScanListsTheDisk(breakage, before[channel], local, version);
    HasIs(local, version);
  }

  /** A scan lists a version exactly if its directory can be used. */
  lemma ListedIffUsable(breakage: nat, dir: Listing, local: seq<Version>, version: string)
    requires Scannable(breakage, dir) && ScanResult(breakage, dir, local)
    ensures Has(local, version) <==> version in dir && Usable(breakage, dir[version])
  {
    HasIs(local, version);
    ScanListsTheDisk(breakage, dir, local, version);
  }

  /** ... and one that RemoveImage was asked for is not indexed afterwards. */
  lemma NotIndexedAfterRemoval(list: seq<Version>, version: string)
    requires list != [] && NamesOnce(list)
    ensures !Has(Without(list, Chosen(list, version)), version)
  {
    var x := Chosen(list, version);
    PickIs(NamesOf(list), version);
    NamesOfWithout(list, x);
    WithoutOnce(NamesOf(list), x);
  }

  // ---- Runs ----

  datatype Store = Store(media: map<string, seq<Version>>, disk: map<string, Listing>)

  /** What can happen to the store: a scan, complete or not; the removal of an indexed entry, whose
      directory goes or stays; a download into the directory of a version that is not indexed. */
  ghost predicate Moves(breakage: nat, s: Store, t: Store) {
    || (t.media == s.media && StorePartlyCleaned(breakage, s.disk, t.disk))
    || (exists c, x: nat :: Removes(s, t, c, x))
    || (exists c, version, node :: Writes(s, t, c, version, node))
  }

  ghost predicate Removes(s: Store, t: Store, c: string, x: nat) {
    && c in s.media && x < |s.media[c]| && t.media == s.media[c := Without(s.media[c], x)]
    && (t.disk == s.disk || (c in s.disk && t.disk == s.disk[c := s.disk[c] - {ToString(s.media[c][x])}]))
  }

  ghost predicate Writes(s: Store, t: Store, c: string, version: string, node: Node) {
    && c in s.disk && t.media == s.media && (c in s.media ==> !Has(s.media[c], version))
    && t.disk == s.disk[c := s.disk[c][version := node]]
  }

  ghost predicate Trace(breakage: nat, stores: seq<Store>) {
    forall k :: 0 <= k < |stores| - 1 ==> Moves(breakage, stores[k], stores[k + 1])
  }

  lemma MoveKeepsIndex(breakage: nat, s: Store, t: Store)
    requires IndexInv(breakage, s.media, s.disk) && Moves(breakage, s, t)
    ensures IndexInv(breakage, t.media, t.disk)
  {
    if t.media == s.media && StorePartlyCleaned(breakage, s.disk, t.disk) {
      ScanKeepsIndex(breakage, s.media, s.disk, t.disk);
    } else if c, x: nat :| Removes(s, t, c, x) {
      RemovalKeepsIndex(breakage, s.media, s.disk, c, x);
    } else {
      var c, version, node :| Writes(s, t, c, version, node);
      WriteKeepsIndex(breakage, s.media, s.disk, c, version, node);
    }
  }

  /** Under every mix of scans, removals and downloads the index stays a part of the disk. */
  lemma {:induction false} IndexStaysOnDisk(breakage: nat, stores: seq<Store>)
    requires stores != [] && Trace(breakage, stores) && IndexInv(breakage, stores[0].media, stores[0].disk)
    ensures var last := stores[|stores| - 1]; IndexInv(breakage, last.media, last.disk)
  {
    if |stores| > 1 {
      MoveKeepsIndex(breakage, stores[0], stores[1]);
      forall k | 0 <= k < |stores[1..]| - 1 ensures Moves(breakage, stores[1..][k], stores[1..][k + 1]) {
        assert stores[1..][k] == stores[k + 1] && stores[1..][k + 1] == stores[k + 2];
      }
      IndexStaysOnDisk(breakage, stores[1..]);
    }
  }

  // ---- Choosing a version to run ----

  datatype Resolution = Use(version: string) | Offline

  function Resolved(local: seq<Version>, version: string, preferLocal: bool, upstream: Option<string>): Resolution {
    if version != LATEST then Use(version)
    else if preferLocal && local != [] then Use(ToString(local[|local| - 1]))
    else if upstream.Some? && upstream.value != "" then Use(upstream.value)
    else if local != [] then Use(ToString(local[|local| - 1]))
    else Offline
  }

  /** Any version but "latest" is taken as it is; "latest" is the local latest if that is preferred or
      there is no answer from upstream, else the answer; and there is none exactly without both. */
  lemma ResolvedAsAsked(local: seq<Version>, version: string, preferLocal: bool, upstream: Option<string>)
    ensures var r := Resolved(local, version, preferLocal, upstream);
      var answered := upstream.Some? && upstream.value != "";
      && (version != "latest" ==> r == Use(version))
      && (version == "latest" && answered && !(preferLocal && local != []) ==> r == Use(upstream.value))
      && (version == "latest" && local != [] && (preferLocal || !answered) ==> r == Use(ToString(local[|local| - 1])))
      && (r == Offline <==> version == "latest" && local == [] && !answered)
  {
  }

  lemma HasLast(list: seq<Version>)
    requires list != []
    ensures Has(list, ToString(list[|list| - 1]))
  {
    assert NamesOf(list)[|list| - 1] in NamesOf(list);
  }

  lemma ScanIsSorted(breakage: nat, dir: Listing, local: seq<Version>)
    requires Scannable(breakage, dir) && ScanResult(breakage, dir, local)
    ensures SortedBy(local, Le)
  {
    ScanListsTheDisk(breakage, dir, local, "");
  }

  lemma LastOfScan(breakage: nat, dir: Listing, local: seq<Version>)
    requires Scannable(breakage, dir) && ScanResult(breakage, dir, local) && local != []
    ensures var last := local[|local| - 1];
      && Parse(ToString(last)) == Some(last) && Has(local, ToString(last))
      && forall v :: v in local ==> Le(v, last) && !Precedes(last, v) && !CoreBefore(last, v)
  {
    ScanIsSorted(breakage, dir, local);
    ScanParsesBack(breakage, dir, local);
    HasLast(local);
    var last := local[|local| - 1];
    forall v | v in local ensures Le(v, last) && !Precedes(last, v) && !CoreBefore(last, v) { LastIsNewest(local, v); }
  }

  /** Asked for "latest", a local answer is a version on disk, with the highest precedence of them all. */
  lemma LocalLatestIsNewest(breakage: nat, dir: Listing, local: seq<Version>, preferLocal: bool,
                            upstream: Option<string>)
    requires Scannable(breakage, dir) && ScanResult(breakage, dir, local)
    requires local != [] && (preferLocal || upstream.None? || upstream.value == "")
    ensures var last := local[|local| - 1];
      && Resolved(local, LATEST, preferLocal, upstream) == Use(ToString(last))
      && Has(local, ToString(last)) && Parse(ToString(last)) == Some(last)
      && forall v :: v in local ==> Le(v, last) && !Precedes(last, v) && !CoreBefore(last, v)
  {
    LastOfScan(breakage, dir, local);
  }

  // ---- The requests ----

  /** What comes of a download: the version's directory with both files in place, or a failure that
      leaves some directory or none. */
  datatype Fetch =
    | Fetched(vmlinuz: nat, initrd: nat, modTime: nat, removable: bool)
    | Unfetched(left: Option<Node>)

  function Left(fetch: Fetch): Option<Node> {
    match fetch
    case Fetched(vmlinuz, initrd, modTime, removable) => Some(Dir(Some(vmlinuz), Some(initrd), modTime, removable))
    case Unfetched(left) => left
  }

  datatype RemoveOutcome = Removed(entry: Version) | RemoveFailed(entry: Version) | PanickedLocked

  class ImageStore {
    const breakage: nat
    var disk: map<string, Listing>
    /** The daemon's index. */
    var media: map<string, seq<Version>>

    ghost predicate Valid()
      reads this
    {
      IndexInv(breakage, media, disk)
    }

    constructor (breakage: nat, disk: map<string, Listing>)
      ensures Valid() && this.breakage == breakage && this.disk == disk && media == map[]
    {
      this.breakage, this.disk, this.media := breakage, disk, map[];
    }

    /** localImages(): scans all channels, deleting what cannot be used. */
    method LocalImages() returns (local: map<string, seq<Version>>, ok: bool)
      requires Valid()
      modifies this`disk
      ensures Valid() && StorePartlyCleaned(breakage, old(disk), disk)
      ensures ok <==> AllScannable(breakage, old(disk), CHANNELS)
      ensures ok ==> AllScanned(breakage, old(disk), disk, CHANNELS, local)
    {
      ChannelsDiffer();
      disk, local, ok := ScanChannels(breakage, disk, CHANNELS);
      ScanKeepsIndex(breakage, media, old(disk), disk);
    }

    /** What the daemon does at its start. */
    method RegisterImages() returns (ok: bool)
      requires Valid()
      modifies this
      ensures Valid()
      ensures ok ==> AllScanned(breakage, old(disk), disk, CHANNELS, media)
      ensures !ok ==> media == old(media)
    {
      var local;
      local, ok := LocalImages();
      if ok {
        media := local;
        ScanGivesIndex(breakage, old(disk), disk, CHANNELS, local);
      }
    }

    static method Search(list: seq<Version>, version: string) returns (x: nat)
      requires list != []
      ensures x == Chosen(list, version)
    {
      ghost var names := NamesOf(list);
      x := 0;
      while ToString(list[x]) != version && x < |list| - 1
        invariant x < |list|
        invariant Pick(names, version) == x + Pick(names[x..], version)
        decreases |list| - x
      {
        assert names[x..][1..] == names[x + 1..];
        x := x + 1;
      }
      assert names[x] == ToString(list[x]);
    }

    /** The entry goes from the index, and its directory, if that can be deleted, from the disk. */
    method TakeOut(channel: string, x: nat) returns (y: Version, removed: bool)
      requires Valid() && channel in media && x < |media[channel]|
      modifies this
      ensures Valid()
      ensures y == old(media)[channel][x] && media == old(media)[channel := Without(old(media)[channel], x)]
      ensures removed <==> Deletable(old(disk), channel, ToString(y))
      ensures disk == if removed then old(disk)[channel := old(disk)[channel] - {ToString(y)}] else old(disk)
    {
      y := media[channel][x];
      RemovalKeepsIndex(breakage, media, disk, channel, x);
      media := media[channel := media[channel][..x] + media[channel][x + 1..]];
      var name := ToString(y);
      removed := !(name in disk[channel] && disk[channel][name].Dir? && !disk[channel][name].removable);
      if removed {
        disk := disk[channel := disk[channel] - {name}];
      }
    }

    /** RemoveImage: with nothing indexed for the channel the code slices past the end of an empty
        list while it holds the daemon's lock. */
    method RemoveImage(channel: string, version: string)
      returns (outcome: RemoveOutcome, listed: bool, images: map<string, seq<Version>>)
      requires Valid()
      modifies this
      ensures Valid()
      ensures outcome == PanickedLocked <==> channel !in old(media) || old(media)[channel] == []
      ensures outcome == PanickedLocked ==> media == old(media) && disk == old(disk)
      ensures outcome != PanickedLocked ==>
                var list := old(media)[channel]; var x := Chosen(list, version);
                && outcome.entry == list[x]
                && media == old(media)[channel := Without(list, x)]
                && (outcome.RemoveFailed? <==> !Deletable(old(disk), channel, ToString(list[x])))
                && (outcome.RemoveFailed? ==> disk == old(disk) && !listed)
                && (outcome.Removed? ==>
                      var rest := old(disk)[channel := old(disk)[channel] - {ToString(list[x])}];
                      && StorePartlyCleaned(breakage, rest, disk)
                      && (listed <==> AllScannable(breakage, rest, CHANNELS))
                      && (listed ==> AllScanned(breakage, rest, disk, CHANNELS, images)))
    {
      listed, images := false, map[];
      if channel !in media || media[channel] == [] {
        return PanickedLocked, false, images;
      }
      var x := Search(media[channel], version);
      var y, removed := TakeOut(channel, x);
      if !removed {
        return RemoveFailed(y), false, images;
      }
      images, listed := LocalImages();
      outcome := Removed(y);
    }

    static predicate Deletable(disk: map<string, Listing>, channel: string, name: string) {
      channel in disk && (name in disk[channel] && disk[channel][name].Dir? ==> disk[channel][name].removable)
    }

    static method Available(local: seq<Version>, version: string) returns (available: bool)
      ensures available <==> Has(local, version)
    {
      available := false;
      for k := 0 to |local|
        invariant !available && version !in NamesOf(local)[..k]
      {
        assert NamesOf(local)[k] == ToString(local[k]);
        if version == ToString(local[k]) {
          return true;
        }
        assert NamesOf(local)[..k + 1] == NamesOf(local)[..k] + [NamesOf(local)[k]];
      }
      assert NamesOf(local)[..|local|] == NamesOf(local);
    }

    static method Resolve(local: seq<Version>, version: string, preferLocal: bool, upstream: Option<string>)
      returns (r: Resolution)
      ensures r == Resolved(local, version, preferLocal, upstream)
    {
      if version == LATEST {
        if preferLocal && |local| > 0 {
          r := Use(ToString(local[|local| - 1]));
        } else if upstream.None? || upstream.value == "" {
          if |local| == 0 {
            return Offline;
          }
          r := Use(ToString(local[|local| - 1]));
        } else {
          r := Use(upstream.value);
        }
      } else {
        r := Use(version);
      }
    }

    /** `r` is the version asked for, resolved against what a scan of the channel lists. */
    ghost predicate PulledFrom(dir: Listing, r: Resolution, version: string, preferLocal: bool,
                               upstream: Option<string>)
    {
      exists local :: ScanResult(breakage, dir, local) && r == Resolved(local, version, preferLocal, upstream)
    }

    ghost predicate Holds(channel: string, version: string, node: Option<Node>)
      reads this
    {
      node.Some? && channel in disk && version in disk[channel] && disk[channel][version] == node.value
    }

    ghost predicate HoldsUsable(channel: string, version: string)
      reads this
    {
      channel in disk && version in disk[channel] && Usable(breakage, disk[channel][version])
    }

    /** The first part of PullImage: the scan, the version that is meant, and whether it is there. */
    method FindLocally(channel: string, version: string, preferLocal: bool, upstream: Option<string>)
      returns (r: Resolution, scanned: bool, available: bool)
      requires Valid() && channel in CHANNELS
      modifies this`disk
      ensures Valid() && StorePartlyCleaned(breakage, old(disk), disk)
      ensures scanned <==> AllScannable(breakage, old(disk), CHANNELS)
      ensures scanned ==> channel in old(disk) && PulledFrom(old(disk)[channel], r, version, preferLocal, upstream)
      ensures scanned && r.Use? ==> (available <==> old(HoldsUsable(channel, r.version)))
      ensures scanned && r.Use? ==> (available <==> HoldsUsable(channel, r.version))
      ensures scanned && r.Use? && !available ==> channel !in media || !Has(media[channel], r.version)
    {
      var all;
      all, scanned := LocalImages();
      r, available := Use(version), false;
      if scanned {
        var local := all[channel];
        r := Resolve(local, version, preferLocal, upstream);
        if r.Use? {
          available := Available(local, r.version);
          ListedIffUsable(breakage, old(disk)[channel], local, r.version);
          if channel in media && Has(media[channel], r.version) {
            IndexedIsListed(breakage, media, old(disk), channel, local, r.version);
          }
        }
      }
    }

    /** PullImage's request to the daemon to forget a version that is about to be replaced. */
    method Evict(channel: string, version: string) returns (ok: bool)
      requires Valid()
      modifies this
      ensures Valid()
      ensures ok ==> channel in disk && (channel in media ==> !Has(media[channel], version))
    {
      var outcome, listed, images := RemoveImage(channel, version);
      ok := outcome.Removed? && listed;
      if ok {
        NotIndexedAfterRemoval(old(media)[channel], version);
      }
    }

    /** localize(), with what the download comes to as a parameter. */
    method Localize(channel: string, version: string, fetch: Fetch) returns (ok: bool)
      requires Valid() && channel in disk && (channel in media ==> !Has(media[channel], version))
      modifies this`disk
      ensures Valid()
      ensures ok <==> fetch.Fetched?
      ensures Left(fetch).None? ==> disk == old(disk)
      ensures Left(fetch).Some? ==> disk == old(disk)[channel := old(disk)[channel][version := Left(fetch).value]]
    {
      var left := Left(fetch);
      if left.Some? {
        WriteKeepsIndex(breakage, media, disk, channel, version, left.value);
        disk := disk[channel := disk[channel][version := left.value]];
      }
      ok := fetch.Fetched?;
    }

    /** The version, indexed or not there at all, is fetched. */
    method Renew(channel: string, version: string, available: bool, fetch: Fetch) returns (ok: bool)
      requires Valid() && channel in disk && (available || channel !in media || !Has(media[channel], version))
      modifies this
      ensures Valid()
      ensures !available ==> media == old(media) && (ok <==> fetch.Fetched?)
      ensures ok ==> fetch.Fetched? && Holds(channel, version, Left(fetch))
    {
      ok := true;
      if available {
        ok := Evict(channel, version);
      }
      if ok {
        ok := Localize(channel, version, fetch);
      }
    }

    /** PullImage. It succeeds with the version on disk: found there, or fetched. */
    method PullImage(channel: string, version: string, override: bool, preferLocal: bool,
                     upstream: Option<string>, fetch: Fetch)
      returns (r: Resolution, ok: bool)
      requires Valid() && channel in CHANNELS
      modifies this
      ensures Valid()
      ensures !override ==> media == old(media)
      ensures ok ==> channel in old(disk) && r.Use? && PulledFrom(old(disk)[channel], r, version, preferLocal, upstream)
      ensures ok && override ==> fetch.Fetched?
      ensures !override ==>
              (ok <==> AllScannable(breakage, old(disk), CHANNELS) && r.Use? &&
                       (old(HoldsUsable(channel, r.version)) || fetch.Fetched?))
      ensures ok ==> (fetch.Fetched? && Holds(channel, r.version, Left(fetch))) || HoldsUsable(channel, r.version)
      ensures ok && !override && old(HoldsUsable(channel, r.version)) ==>
              StorePartlyCleaned(breakage, old(disk), disk) && HoldsUsable(channel, r.version)
    {
      var scanned, available;
      r, scanned, available := FindLocally(channel, version, preferLocal, upstream);
      ok := scanned && r.Use?;
      if ok && (!available || override) {
        ok := Renew(channel, r.version, available, fetch);
      }
    }
  }
}
