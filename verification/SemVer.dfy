/** Versions as github.com/blang/semver reads, prints and compares them (SemVer 2.0.0). */
module SemVer {
  import opened Text
  import opened Decimal
  import opened Names

  datatype PreRelease = Num(n: nat) | Alpha(s: string)

  datatype Version = Version(major: nat, minor: nat, patch: nat, pre: seq<PreRelease>, build: seq<string>)

  // ---- Reading ----

  predicate IsAlphanum(c: char) {
    IsDigit(c) || 'a' <= c <= 'z' || 'A' <= c <= 'Z' || c == '-'
  }

  predicate AllAlphanum(s: string) { forall i :: 0 <= i < |s| ==> IsAlphanum(s[i]) }

  predicate HasLeadingZero(s: string) { |s| > 1 && s[0] == '0' }

  /** One of the three version numbers. */
  function ParseNumber(s: string): Option<nat> {
    if !AllDigits(s) || HasLeadingZero(s) then None else ParseUint(s)
  }

  function ParsePreRelease(s: string): Option<PreRelease> {
    if s == "" then None
    else if AllDigits(s) then
      (if HasLeadingZero(s) then None else match ParseUint(s) case Some(n) => Some(Num(n)) case None => None)
    else if AllAlphanum(s) then Some(Alpha(s))
    else None
  }

  function ParsePreReleases(parts: seq<string>): Option<seq<PreRelease>> {
    if parts == [] then Some([])
    else
      var first, rest := ParsePreRelease(parts[0]), ParsePreReleases(parts[1..]);
      if first.Some? && rest.Some? then Some([first.value] + rest.value) else None
  }

  /** Text before and after the first occurrence of `c`. */
  function Before(s: string, c: char): string {
    if s == "" || s[0] == c then "" else [s[0]] + Before(s[1..], c)
  }

  function After(s: string, c: char): string {
    if s == "" then "" else if s[0] == c then s[1..] else After(s[1..], c)
  }

  predicate GoodBuild(build: seq<string>) {
    forall i :: 0 <= i < |build| ==> build[i] != "" && AllAlphanum(build[i])
  }

  /** What follows the second dot: patch number, pre-release, build metadata. */
  function ParseTail(major: nat, minor: nat, s: string): Option<Version> {
    var build := if '+' in s then Split(After(s, '+'), '.') else [];
    var front := Before(s, '+');
    var pre := if '-' in front then Split(After(front, '-'), '.') else [];
    var patch, pres := ParseNumber(Before(front, '-')), ParsePreReleases(pre);
    if patch.Some? && pres.Some? && GoodBuild(build) then Some(Version(major, minor, patch.value, pres.value, build))
    else None
  }

  function Parse(s: string): Option<Version> {
    var parts := Split(s, '.');
    if |parts| < 3 then None
    else
      var major, minor := ParseNumber(parts[0]), ParseNumber(parts[1]);
      if major.Some? && minor.Some? then ParseTail(major.value, minor.value, Join(parts[2..], '.')) else None
  }

  // ---- Printing ----

  function PreToString(p: PreRelease): string {
    match p case Num(n) => Itoa(n) case Alpha(s) => s
  }

  function PresToStrings(pre: seq<PreRelease>): (out: seq<string>)
    ensures |out| == |pre|
    ensures forall i :: 0 <= i < |pre| ==> out[i] == PreToString(pre[i])
  {
    if pre == [] then [] else [PreToString(pre[0])] + PresToStrings(pre[1..])
  }

  function PreSuffix(pre: seq<PreRelease>): string {
    if pre == [] then "" else "-" + Join(PresToStrings(pre), '.')
  }

  function BuildSuffix(build: seq<string>): string {
    if build == [] then "" else "+" + Join(build, '.')
  }

  function TailToString(v: Version): string {
    Itoa(v.patch) + PreSuffix(v.pre) + BuildSuffix(v.build)
  }

  function ToString(v: Version): string {
    Itoa(v.major) + "." + (Itoa(v.minor) + "." + TailToString(v))
  }

  // ---- Reading and printing undo each other ----

  predicate ValidPre(p: PreRelease) {
    match p
    case Num(n) => n <= MAX_UINT64
    case Alpha(s) => s != "" && AllAlphanum(s) && !AllDigits(s)
  }

  predicate Valid(v: Version) {
    && v.major <= MAX_UINT64 && v.minor <= MAX_UINT64 && v.patch <= MAX_UINT64
    && (forall i :: 0 <= i < |v.pre| ==> ValidPre(v.pre[i]))
    && GoodBuild(v.build)
  }

  lemma {:induction false} CutAtFirst(s: string, c: char)
    ensures c !in Before(s, c)
    ensures s == Before(s, c) + (if c in s then [c] + After(s, c) else "")
    ensures c !in s ==> Before(s, c) == s
    ensures forall d :: d in Before(s, c) ==> d in s
  {
    if s != "" {
      CutAtFirst(s[1..], c);
      assert s == [s[0]] + s[1..];
    }
  }

  lemma {:induction false} CutOfConcat(a: string, c: char, b: string)
    requires c !in a
    ensures Before(a + [c] + b, c) == a && After(a + [c] + b, c) == b
  {
    var s := a + [c] + b;
    if a == "" {
      assert s[1..] == b;
    } else {
      assert s[1..] == a[1..] + [c] + b;
      CutOfConcat(a[1..], c, b);
    }
  }

  lemma NumberPrintsBack(s: string)
    ensures ParseNumber(s).Some? ==> Itoa(ParseNumber(s).value) == s && ParseNumber(s).value <= MAX_UINT64
  {
    if ParseNumber(s).Some? { ItoaOfValue(s); }
  }

  lemma NumberReadsBack(n: nat)
    requires n <= MAX_UINT64
    ensures ParseNumber(Itoa(n)) == Some(n)
  {
    ItoaIsCanonical(n);
  }

  lemma PrePrintsBack(s: string)
    ensures ParsePreRelease(s).Some? ==>
            PreToString(ParsePreRelease(s).value) == s && ValidPre(ParsePreRelease(s).value)
  {
    if ParsePreRelease(s).Some? && AllDigits(s) { ItoaOfValue(s); }
  }

  lemma PreReadsBack(p: PreRelease)
    requires ValidPre(p)
    ensures ParsePreRelease(PreToString(p)) == Some(p)
    ensures AllAlphanum(PreToString(p))
  {
    if p.Num? { ItoaIsCanonical(p.n); }
  }

  lemma {:induction false} PresPrintBack(parts: seq<string>)
    requires ParsePreReleases(parts).Some?
    ensures PresToStrings(ParsePreReleases(parts).value) == parts
    ensures forall i :: 0 <= i < |ParsePreReleases(parts).value| ==> ValidPre(ParsePreReleases(parts).value[i])
  {
    if parts != [] {
      PrePrintsBack(parts[0]);
      PresPrintBack(parts[1..]);
      assert ParsePreReleases(parts).value[1..] == ParsePreReleases(parts[1..]).value;
    }
  }

  lemma {:induction false} PresReadBack(pre: seq<PreRelease>)
    requires forall i :: 0 <= i < |pre| ==> ValidPre(pre[i])
    ensures ParsePreReleases(PresToStrings(pre)) == Some(pre)
  {
    if pre != [] {
      PreReadsBack(pre[0]);
      PresReadBack(pre[1..]);
      PresParseCons(PreToString(pre[0]), PresToStrings(pre[1..]));
      assert pre == [pre[0]] + pre[1..];
    }
  }

  lemma PresParseCons(first: string, rest: seq<string>)
    requires ParsePreRelease(first).Some? && ParsePreReleases(rest).Some?
    ensures ParsePreReleases([first] + rest) == Some([ParsePreRelease(first).value] + ParsePreReleases(rest).value)
  {
    assert ([first] + rest)[1..] == rest;
  }

  lemma PresHaveNo(pre: seq<PreRelease>, c: char)
    requires (forall i :: 0 <= i < |pre| ==> ValidPre(pre[i])) && !IsAlphanum(c)
    ensures AllFree(PresToStrings(pre), c)
  {
    forall i | 0 <= i < |pre| ensures c !in PresToStrings(pre)[i] { PreReadsBack(pre[i]); }
  }

  lemma SuffixesPrintBack(front: string, s: string)
    requires front == Before(s, '+')
    ensures var build := if '+' in s then Split(After(s, '+'), '.') else [];
            s == front + BuildSuffix(build)
    ensures var pre := if '-' in front then Split(After(front, '-'), '.') else [];
            ParsePreReleases(pre).Some? ==> front == Before(front, '-') + PreSuffix(ParsePreReleases(pre).value)
  {
    CutAtFirst(s, '+');
    JoinOfSplit(After(s, '+'), '.');
    CutAtFirst(front, '-');
    var pre := if '-' in front then Split(After(front, '-'), '.') else [];
    if ParsePreReleases(pre).Some? {
      PresPrintBack(pre);
      JoinOfSplit(After(front, '-'), '.');
    }
  }

  lemma TailPrintsBack(major: nat, minor: nat, s: string)
    requires ParseTail(major, minor, s).Some?
    ensures TailToString(ParseTail(major, minor, s).value) == s
    ensures major <= MAX_UINT64 && minor <= MAX_UINT64 ==> Valid(ParseTail(major, minor, s).value)
  {
    var front := Before(s, '+');
    var pre := if '-' in front then Split(After(front, '-'), '.') else [];
    SuffixesPrintBack(front, s);
    NumberPrintsBack(Before(front, '-'));
    PresPrintBack(pre);
  }

  /** A name that is read as a version is the name that version prints: the directory of an image is
      found again under its version. */
  lemma ParsePrintsBack(s: string)
    requires Parse(s).Some?
    ensures ToString(Parse(s).value) == s && Valid(Parse(s).value)
  {
    var parts := Split(s, '.');
    var tail := Join(parts[2..], '.');
    NumberPrintsBack(parts[0]);
    NumberPrintsBack(parts[1]);
    TailPrintsBack(ParseNumber(parts[0]).value, ParseNumber(parts[1]).value, tail);
    JoinOfSplit(s, '.');
    assert parts[1..][1..] == parts[2..];
    assert s == parts[0] + "." + (parts[1] + "." + tail);
  }

  lemma PreSuffixReadsBack(patch: string, pre: seq<PreRelease>)
    requires AllDigits(patch) && forall i :: 0 <= i < |pre| ==> ValidPre(pre[i])
    ensures var front := patch + PreSuffix(pre);
      && '+' !in front
      && Before(front, '-') == patch
      && (if '-' in front then Split(After(front, '-'), '.') else []) == PresToStrings(pre)
  {
    if pre == [] {
      assert patch + "" == patch;
      CutAtFirst(patch, '-');
    } else {
      PresHaveNo(pre, '+');
      PresHaveNo(pre, '.');
      JoinedPreReadsBack(patch, PresToStrings(pre));
    }
  }

  lemma JoinedPreReadsBack(patch: string, pres: seq<string>)
    requires AllDigits(patch) && pres != [] && AllFree(pres, '+') && AllFree(pres, '.')
    ensures var front := patch + ("-" + Join(pres, '.'));
      '+' !in front && '-' in front && Before(front, '-') == patch && Split(After(front, '-'), '.') == pres
  {
    JoinIsFree(pres, '.', '+');
    assert patch + ("-" + Join(pres, '.')) == patch + ['-'] + Join(pres, '.');
    CutOfConcat(patch, '-', Join(pres, '.'));
    SplitOfFreeJoin(pres, '.');
  }

  lemma BuildSuffixReadsBack(front: string, build: seq<string>)
    requires '+' !in front && GoodBuild(build)
    ensures var s := front + BuildSuffix(build);
      Before(s, '+') == front && (if '+' in s then Split(After(s, '+'), '.') else []) == build
  {
    if build == [] {
      assert front + "" == front;
      CutAtFirst(front, '+');
    } else {
      assert front + ("+" + Join(build, '.')) == front + ['+'] + Join(build, '.');
      CutOfConcat(front, '+', Join(build, '.'));
      SplitOfFreeJoin(build, '.');
    }
  }

  lemma TailReadsBack(v: Version)
    requires Valid(v)
    ensures ParseTail(v.major, v.minor, TailToString(v)) == Some(v)
  {
    NumberReadsBack(v.patch);
    ItoaIsCanonical(v.patch);
    PreSuffixReadsBack(Itoa(v.patch), v.pre);
    BuildSuffixReadsBack(Itoa(v.patch) + PreSuffix(v.pre), v.build);
    PresReadBack(v.pre);
  }

  lemma DottedReadsBack(major: string, minor: string, tail: string)
    requires '.' !in major && '.' !in minor
    ensures var parts := Split(major + "." + (minor + "." + tail), '.');
      |parts| >= 3 && parts[0] == major && parts[1] == minor && Join(parts[2..], '.') == tail
  {
    SplitWithout(major, '.');
    SplitWithout(minor, '.');
    SplitOfConcat(major, '.', minor + "." + tail);
    SplitOfConcat(minor, '.', tail);
    var parts := Split(major + "." + (minor + "." + tail), '.');
    assert parts[2..] == Split(tail, '.');
    JoinOfSplit(tail, '.');
  }

  /** Every valid version is read back from what it prints. */
  lemma PrintReadsBack(v: Version)
    requires Valid(v)
    ensures Parse(ToString(v)) == Some(v)
  {
    ItoaWithout(v.major, '.');
    ItoaWithout(v.minor, '.');
    DottedReadsBack(Itoa(v.major), Itoa(v.minor), TailToString(v));
    NumberReadsBack(v.major);
    NumberReadsBack(v.minor);
    TailReadsBack(v);
  }

  // ---- Comparing (section 11 of SemVer 2.0.0) ----

  function CompareNumbers(a: nat, b: nat): int {
    if a == b then 0 else if a > b then 1 else -1
  }

  function ComparePre(a: PreRelease, b: PreRelease): int {
    match (a, b)
    case (Num(_), Alpha(_)) => -1
    case (Alpha(_), Num(_)) => 1
    case (Num(m), Num(n)) => CompareNumbers(m, n)
    case (Alpha(s), Alpha(t)) => CompareStrings(s, t)
  }

  /** Field by field; of two lists that agree, the longer is greater. */
  function ComparePres(a: seq<PreRelease>, b: seq<PreRelease>): int {
    if a == [] && b == [] then 0
    else if a == [] then -1
    else if b == [] then 1
    else if ComparePre(a[0], b[0]) != 0 then ComparePre(a[0], b[0])
    else ComparePres(a[1..], b[1..])
  }

  function Compare(v: Version, o: Version): int {
    if v.major != o.major then CompareNumbers(v.major, o.major)
    else if v.minor != o.minor then CompareNumbers(v.minor, o.minor)
    else if v.patch != o.patch then CompareNumbers(v.patch, o.patch)
    else if v.pre == [] && o.pre == [] then 0
    else if v.pre == [] then 1
    else if o.pre == [] then -1
    else ComparePres(v.pre, o.pre)
  }

  /** The comparison loop of the library. */
  method CompareLoop(a: seq<PreRelease>, b: seq<PreRelease>) returns (c: int)
    ensures c == ComparePres(a, b)
  {
    var i := 0;
    while i < |a| && i < |b|
      invariant i <= |a| && i <= |b|
      invariant ComparePres(a, b) == ComparePres(a[i..], b[i..])
    {
      var comp := ComparePre(a[i], b[i]);
      assert a[i..][1..] == a[i + 1..] && b[i..][1..] == b[i + 1..];
      if comp != 0 {
        return comp;
      }
      i := i + 1;
    }
    if i == |a| && i == |b| {
      c := 0;
    } else if i == |a| {
      c := -1;
    } else {
      c := 1;
    }
  }

  predicate Le(v: Version, o: Version) { Compare(v, o) <= 0 }

  lemma PreOrdered(a: PreRelease, b: PreRelease, c: PreRelease)
    ensures ComparePre(a, b) == -ComparePre(b, a)
    ensures ComparePre(a, b) == 0 <==> a == b
    ensures ComparePre(a, b) <= 0 && ComparePre(b, c) <= 0 ==> ComparePre(a, c) <= 0
  {
    if a.Alpha? && b.Alpha? { StringsOrdered(a.s, b.s, if c.Alpha? then c.s else ""); }
  }

  lemma {:induction false} PresOrdered(a: seq<PreRelease>, b: seq<PreRelease>, c: seq<PreRelease>)
    ensures ComparePres(a, b) == -ComparePres(b, a)
    ensures ComparePres(a, b) == 0 <==> a == b
    ensures ComparePres(a, b) <= 0 && ComparePres(b, c) <= 0 ==> ComparePres(a, c) <= 0
  {
    if a != [] && b != [] {
      assert a == [a[0]] + a[1..] && b == [b[0]] + b[1..];
      if c != [] {
        PreOrdered(a[0], b[0], c[0]);
        PreOrdered(b[0], c[0], a[0]);
        PreOrdered(a[0], c[0], b[0]);
        PresOrdered(a[1..], b[1..], c[1..]);
      } else {
        PreOrdered(a[0], b[0], a[0]);
        PresOrdered(a[1..], b[1..], []);
      }
    }
  }

  /** Precedence is a total preorder, in which versions tie exactly when they differ at most in build
      metadata. */
  lemma PrecedenceIsTotal(v: Version, o: Version, w: Version)
    ensures Compare(v, o) == -Compare(o, v)
    ensures Compare(v, o) == 0 <==> v.(build := []) == o.(build := [])
    ensures Le(v, o) || Le(o, v)
    ensures Le(v, o) && Le(o, w) ==> Le(v, w)
  {
    PresOrdered(v.pre, o.pre, w.pre);
  }

  predicate SameCore(v: Version, o: Version) {
    v.major == o.major && v.minor == o.minor && v.patch == o.patch
  }

  /** A pre-release comes before its release, and between the two there is nothing but pre-releases of
      the same release. */
  lemma PreReleaseIsOlder(v: Version, o: Version)
    requires v.pre != []
    ensures Compare(v, v.(pre := [])) == -1
    ensures Le(v, o) && Compare(o, v.(pre := [])) < 0 ==> SameCore(o, v) && o.pre != []
  {
    var release := v.(pre := []);
    PrecedenceIsTotal(v, o, release);
    PrecedenceIsTotal(o, release, release);
  }

  // ---- The order as the standard words it ----

  /** Numeric identifiers by value, before all others; the others in the order of their characters. */
  ghost predicate IdBefore(a: PreRelease, b: PreRelease) {
    match (a, b)
    case (Num(m), Num(n)) => m < n
    case (Num(_), Alpha(_)) => true
    case (Alpha(_), Num(_)) => false
    case (Alpha(s), Alpha(t)) => TextBefore(s, t)
  }

  /** The shorter of two lists, one of which begins the other, or the one with the earlier identifier
      where they first differ. */
  ghost predicate IdsBefore(a: seq<PreRelease>, b: seq<PreRelease>) {
    a < b || exists k :: 0 <= k < |a| && k < |b| && a[..k] == b[..k] && IdBefore(a[k], b[k])
  }

  predicate CoreBefore(v: Version, o: Version) {
    || v.major < o.major
    || (v.major == o.major && v.minor < o.minor)
    || (v.major == o.major && v.minor == o.minor && v.patch < o.patch)
  }

  ghost predicate Precedes(v: Version, o: Version) {
    CoreBefore(v, o) || (SameCore(v, o) && v.pre != [] && (o.pre == [] || IdsBefore(v.pre, o.pre)))
  }

  lemma ComparesIds(a: PreRelease, b: PreRelease)
    ensures ComparePre(a, b) == (if IdBefore(a, b) then -1 else if IdBefore(b, a) then 1 else 0)
    ensures !(IdBefore(a, b) && IdBefore(b, a)) && (IdBefore(a, b) || IdBefore(b, a) <==> a != b)
  {
    PreOrdered(a, b, a);
    if a.Alpha? && b.Alpha? { ComparesText(a.s, b.s); }
  }

  lemma IdsBeforeOfTails(a: seq<PreRelease>, b: seq<PreRelease>)
    requires a != [] && b != [] && a[0] == b[0]
    ensures IdsBefore(a, b) <==> IdsBefore(a[1..], b[1..])
  {
    var s, t := a[1..], b[1..];
    assert a == [a[0]] + s && b == [b[0]] + t;
    ComparesIds(a[0], b[0]);
    if k :| 0 <= k < |a| && k < |b| && a[..k] == b[..k] && IdBefore(a[k], b[k]) {
      assert a[..k][1..] == s[..k - 1] && b[..k][1..] == t[..k - 1] && IdBefore(s[k - 1], t[k - 1]);
    }
    if k :| 0 <= k < |s| && k < |t| && s[..k] == t[..k] && IdBefore(s[k], t[k]) {
      assert a[..k + 1] == [a[0]] + s[..k] && b[..k + 1] == [b[0]] + t[..k] && IdBefore(a[k + 1], b[k + 1]);
    }
  }

  lemma FirstIdDecides(a: seq<PreRelease>, b: seq<PreRelease>)
    requires a != [] && b != [] && a[0] != b[0]
    ensures IdsBefore(a, b) <==> IdBefore(a[0], b[0])
  {
    if k :| 0 <= k < |a| && k < |b| && a[..k] == b[..k] && IdBefore(a[k], b[k]) {
      SameBeginning(a, b, k);
    }
    if IdBefore(a[0], b[0]) { assert a[..0] == b[..0]; }
  }

  lemma {:induction false} ComparesLists(a: seq<PreRelease>, b: seq<PreRelease>)
    ensures ComparePres(a, b) == (if IdsBefore(a, b) then -1 else if IdsBefore(b, a) then 1 else 0)
    ensures !(IdsBefore(a, b) && IdsBefore(b, a))
  {
    if a != [] && b != [] {
      ComparesIds(a[0], b[0]);
      if a[0] == b[0] {
        IdsBeforeOfTails(a, b);
        IdsBeforeOfTails(b, a);
        ComparesLists(a[1..], b[1..]);
      } else {
        FirstIdDecides(a, b);
        FirstIdDecides(b, a);
      }
    }
  }

  /** The comparison is the standard's order: by major, minor and patch number; a pre-release before its
      release; pre-releases identifier by identifier. */
  lemma ComparesAsTheStandardSays(v: Version, o: Version)
    ensures Compare(v, o) == (if Precedes(v, o) then -1 else if Precedes(o, v) then 1 else 0)
    ensures !(Precedes(v, o) && Precedes(o, v))
  {
    ComparesLists(v.pre, o.pre);
  }

  /** What a version's text looks like, and that a plain one is read number by number. */
  lemma TextOfVersion(v: Version)
    ensures ToString(v) == Itoa(v.major) + "." + Itoa(v.minor) + "." + Itoa(v.patch)
                           + (if v.pre == [] then "" else "-" + Join(PresToStrings(v.pre), '.'))
                           + (if v.build == [] then "" else "+" + Join(v.build, '.'))
  {
    var major, minor, patch := Itoa(v.major), Itoa(v.minor), Itoa(v.patch);
    FiveParts(major, minor, patch, PreSuffix(v.pre), BuildSuffix(v.build));
  }

  lemma FiveParts(a: string, b: string, c: string, d: string, e: string)
    ensures a + "." + (b + "." + (c + d + e)) == a + "." + b + "." + c + d + e
  {
  }

  lemma PlainVersionReads(major: nat, minor: nat, patch: nat)
    requires major <= MAX_UINT64 && minor <= MAX_UINT64 && patch <= MAX_UINT64
    ensures Parse(Itoa(major) + "." + Itoa(minor) + "." + Itoa(patch)) == Some(Version(major, minor, patch, [], []))
  {
    var v := Version(major, minor, patch, [], []);
    PrintReadsBack(v);
    TextOfVersion(v);
    assert Itoa(major) + "." + Itoa(minor) + "." + Itoa(patch) + "" + "" ==
           Itoa(major) + "." + Itoa(minor) + "." + Itoa(patch);
  }
}
