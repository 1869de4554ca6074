/** Volumes: which are accepted, and the slots they get. */
module Volumes {
  import opened Text
  import opened Decimal
  import Lifecycle

  type Config = Lifecycle.Config

  datatype Format = Raw | Qcow2

  datatype Device = Device(format: Format, slot: nat, path: string)

  /** What opening a file and looking at its header says about it. */
  datatype Probe = IsQcow2 | IsNotQcow2 | Unreadable

  datatype FileInfo = FileInfo(abs: string, probe: Probe)

  datatype VolumeError = NotFound | CannotRead | NotAnImg | UsedByAnotherVm | UsedTwice

  datatype Outcome = Accepted(drives: seq<Device>) | Rejected(error: VolumeError)

  /** A registered VM has the file as a volume. */
  ghost predicate InUse(running: map<string, Config>, path: string) {
    exists u :: u in running && path in running[u].volumes
  }

  function PathsOf(drives: seq<Device>): seq<string> {
    seq(|drives|, i requires 0 <= i < |drives| => drives[i].path)
  }

  /** What the loop does with one volume. */
  datatype Verdict = Skip | Reject(error: VolumeError) | Add(device: Device)

  ghost function Judged(fs: map<string, FileInfo>, running: map<string, Config>,
                        volume: string, format: Format, drives: seq<Device>): Verdict
  {
    if volume == "" then Skip
    else if volume !in fs then Reject(NotFound)
    else if fs[volume].probe == Unreadable then Reject(CannotRead)
    else
      var file := fs[volume];
      var now := if file.probe == IsNotQcow2 then Raw else format;
      if now == Raw && !HasSuffix(volume, ".img") then Reject(NotAnImg)
      else if InUse(running, file.abs) then Reject(UsedByAnotherVm)
      else if file.abs in PathsOf(drives) then Reject(UsedTwice)
      else Add(Device(now, |drives|, file.abs))
  }

  /** What is said of a volume: the first of these that applies. One without a name is passed over. */
  lemma JudgedAsDeserved(fs: map<string, FileInfo>, running: map<string, Config>, volume: string, format: Format,
                         drives: seq<Device>)
    ensures var verdict := Judged(fs, running, volume, format, drives);
      if volume == "" then verdict == Skip
      else if volume !in fs then verdict == Reject(NotFound)
      else if fs[volume].probe == Unreadable then verdict == Reject(CannotRead)
      else
        var raw, path := fs[volume].probe == IsNotQcow2 || format == Raw, fs[volume].abs;
        var img := |volume| >= 4 && volume[|volume| - 4..] == ".img";
        if raw && !img then verdict == Reject(NotAnImg)
        else if exists u :: u in running && path in running[u].volumes then verdict == Reject(UsedByAnotherVm)
        else if exists i :: 0 <= i < |drives| && drives[i].path == path then verdict == Reject(UsedTwice)
        else verdict == Add(Device(if raw then Raw else Qcow2, |drives|, path))
  {
    if volume in fs {
      var path := fs[volume].abs;
      assert forall i :: 0 <= i < |drives| ==> PathsOf(drives)[i] == drives[i].path;
    }
  }

  /** The validation loop: `format` is the loop's variable, `drives` the drives so far in slot order. */
  ghost function Validated(fs: map<string, FileInfo>, running: map<string, Config>,
                           volumes: seq<string>, format: Format, drives: seq<Device>): Outcome
    decreases volumes
  {
    if volumes == [] then Accepted(drives)
    else match Judged(fs, running, volumes[0], format, drives)
      case Skip => Validated(fs, running, volumes[1..], format, drives)
      case Reject(error) => Rejected(error)
      case Add(device) => Validated(fs, running, volumes[1..], device.format, drives + [device])
  }

  function NonEmpty(volumes: seq<string>): seq<string> {
    if volumes == [] then []
    else if volumes[0] == "" then NonEmpty(volumes[1..])
    else [volumes[0]] + NonEmpty(volumes[1..])
  }

  // ---- What is accepted, and as what ----

  /** A volume at or before position `k` of this call is not in the qcow2 format. */
  ghost predicate RawSoFar(fs: map<string, FileInfo>, named: seq<string>, format: Format, k: int) {
    format == Raw || exists j :: 0 <= j <= k && j < |named| && named[j] in fs && fs[named[j]].probe == IsNotQcow2
  }

  ghost predicate Admissible(fs: map<string, FileInfo>, running: map<string, Config>,
                             named: seq<string>, format: Format, drives: seq<Device>) {
    forall k :: 0 <= k < |named| ==>
      && named[k] in fs && fs[named[k]].probe != Unreadable
      && (RawSoFar(fs, named, format, k) ==> HasSuffix(named[k], ".img"))
      && !InUse(running, fs[named[k]].abs)
      && fs[named[k]].abs !in PathsOf(drives)
      && forall j :: 0 <= j < k && named[j] in fs ==> fs[named[j]].abs != fs[named[k]].abs
  }

  /** The drives of the volumes named, in the order of the arguments, in consecutive slots. */
  ghost predicate DrivesFor(fs: map<string, FileInfo>, named: seq<string>, format: Format, first: nat,
                            added: seq<Device>)
  {
    && |added| == |named|
    && forall k :: 0 <= k < |named| ==>
        && named[k] in fs && added[k].path == fs[named[k]].abs && added[k].slot == first + k
        && (added[k].format == Raw <==> RawSoFar(fs, named, format, k))
  }

  lemma RawSoFarShifts(fs: map<string, FileInfo>, named: seq<string>, format: Format, k: nat)
    requires named != [] && named[0] in fs && k < |named| - 1
    ensures RawSoFar(fs, named, format, k + 1) <==>
            RawSoFar(fs, named[1..], if fs[named[0]].probe == IsNotQcow2 then Raw else format, k)
  {
    var tail := named[1..];
    if j :| 0 <= j <= k + 1 && j < |named| && named[j] in fs && fs[named[j]].probe == IsNotQcow2 {
      if j > 0 { assert tail[j - 1] == named[j]; }
    }
    if j :| 0 <= j <= k && j < |tail| && tail[j] in fs && fs[tail[j]].probe == IsNotQcow2 {
      assert named[j + 1] == tail[j];
    }
  }

  lemma AdmissibleSplits(fs: map<string, FileInfo>, running: map<string, Config>,
                         named: seq<string>, format: Format, drives: seq<Device>)
    requires named != [] && named[0] in fs && fs[named[0]].probe != Unreadable
    ensures var file := fs[named[0]]; var now := if file.probe == IsNotQcow2 then Raw else format;
      Admissible(fs, running, named, format, drives) <==>
        && (now == Raw ==> HasSuffix(named[0], ".img")) && !InUse(running, file.abs) && file.abs !in PathsOf(drives)
        && Admissible(fs, running, named[1..], now, drives + [Device(now, |drives|, file.abs)])
  {
    var file := fs[named[0]];
    var now := if file.probe == IsNotQcow2 then Raw else format;
    var more := drives + [Device(now, |drives|, file.abs)];
    var tail := named[1..];
    assert PathsOf(more) == PathsOf(drives) + [file.abs];
    assert RawSoFar(fs, named, format, 0) <==> now == Raw;
    forall k | 0 <= k < |tail| ensures RawSoFar(fs, tail, now, k) <==> RawSoFar(fs, named, format, k + 1) {
      RawSoFarShifts(fs, named, format, k);
    }
    if Admissible(fs, running, named, format, drives) {
      forall k | 0 <= k < |tail|
        ensures fs[named[k + 1]].abs != file.abs && tail[k] == named[k + 1]
      {
      }
    }
    if (now == Raw ==> HasSuffix(named[0], ".img")) && !InUse(running, file.abs) && file.abs !in PathsOf(drives)
       && Admissible(fs, running, tail, now, more)
    {
      forall k | 0 <= k < |named|
        ensures named[k] in fs && fs[named[k]].probe != Unreadable
        ensures RawSoFar(fs, named, format, k) ==> HasSuffix(named[k], ".img")
        ensures !InUse(running, fs[named[k]].abs) && fs[named[k]].abs !in PathsOf(drives)
        ensures forall j :: 0 <= j < k && named[j] in fs ==> fs[named[j]].abs != fs[named[k]].abs
      {
        if k > 0 {
          assert named[k] == tail[k - 1];
          assert file.abs in PathsOf(more) by { assert PathsOf(more)[|drives|] == file.abs; }
          forall j | 0 <= j < k && named[j] in fs ensures fs[named[j]].abs != fs[named[k]].abs {
            if j > 0 { assert named[j] == tail[j - 1]; }
          }
        }
      }
    }
  }

  /** What is asked of a volume that can be read. */
  ghost predicate Fits(fs: map<string, FileInfo>, running: map<string, Config>, volume: string, now: Format,
                       drives: seq<Device>)
    requires volume in fs
  {
    (now == Raw ==> HasSuffix(volume, ".img")) && !InUse(running, fs[volume].abs) && fs[volume].abs !in PathsOf(drives)
  }

  lemma ReadableVolume(fs: map<string, FileInfo>, running: map<string, Config>, volumes: seq<string>, format: Format,
                       drives: seq<Device>)
    requires volumes != [] && volumes[0] != "" && volumes[0] in fs && fs[volumes[0]].probe != Unreadable
    ensures var now := if fs[volumes[0]].probe == IsNotQcow2 then Raw else format;
      var out := Validated(fs, running, volumes, format, drives);
      if Fits(fs, running, volumes[0], now, drives)
      then out == Validated(fs, running, volumes[1..], now, drives + [Device(now, |drives|, fs[volumes[0]].abs)])
      else out.Rejected?
  {
  }

  lemma UnreadableVolume(fs: map<string, FileInfo>, running: map<string, Config>, volumes: seq<string>,
                         format: Format, drives: seq<Device>)
    requires volumes != [] && volumes[0] != "" && (volumes[0] !in fs || fs[volumes[0]].probe == Unreadable)
    ensures Validated(fs, running, volumes, format, drives).Rejected?
    ensures !Admissible(fs, running, NonEmpty(volumes), format, drives)
  {
    assert NonEmpty(volumes)[0] == volumes[0];
  }

  lemma AcceptedReadable(fs: map<string, FileInfo>, running: map<string, Config>, named: seq<string>, format: Format,
                         drives: seq<Device>, out: Outcome, rest: Outcome)
    requires named != [] && named[0] in fs && fs[named[0]].probe != Unreadable
    requires var now := if fs[named[0]].probe == IsNotQcow2 then Raw else format;
      var more := drives + [Device(now, |drives|, fs[named[0]].abs)];
      && (if Fits(fs, running, named[0], now, drives) then out == rest else out.Rejected?)
      && (rest.Accepted? <==> Admissible(fs, running, named[1..], now, more))
      && (rest.Accepted? ==> more <= rest.drives && DrivesFor(fs, named[1..], now, |more|, rest.drives[|more|..]))
    ensures out.Accepted? <==> Admissible(fs, running, named, format, drives)
    ensures out.Accepted? ==> drives <= out.drives && DrivesFor(fs, named, format, |drives|, out.drives[|drives|..])
  {
    var now := if fs[named[0]].probe == IsNotQcow2 then Raw else format;
    AdmissibleSplits(fs, running, named, format, drives);
    if out.Accepted? {
      DrivesForSplits(fs, named, format, drives, Device(now, |drives|, fs[named[0]].abs), out.drives);
    }
  }

  /** Volumes are accepted exactly when all named files can be read, are not in use by another VM, are
      different files, and end in ".img" from the first that is not qcow2 on. The drives then are those
      files in the order of the arguments, in consecutive slots. A drive is taken for raw exactly if it
      or an earlier volume of the same call is not qcow2. */
  lemma {:induction false} AcceptedIff(fs: map<string, FileInfo>, running: map<string, Config>,
                                       volumes: seq<string>, format: Format, drives: seq<Device>)
    ensures var out := Validated(fs, running, volumes, format, drives); var named := NonEmpty(volumes);
      && (out.Accepted? <==> Admissible(fs, running, named, format, drives))
      && (out.Accepted? ==> drives <= out.drives && DrivesFor(fs, named, format, |drives|, out.drives[|drives|..]))
    decreases volumes
  {
    if volumes == [] {
    } else if volumes[0] == "" {
      AcceptedIff(fs, running, volumes[1..], format, drives);
    } else if volumes[0] !in fs || fs[volumes[0]].probe == Unreadable {
      UnreadableVolume(fs, running, volumes, format, drives);
    } else {
      var named, now := NonEmpty(volumes), if fs[volumes[0]].probe == IsNotQcow2 then Raw else format;
      var device := Device(now, |drives|, fs[volumes[0]].abs);
      assert named[0] == volumes[0] && named[1..] == NonEmpty(volumes[1..]);
      ReadableVolume(fs, running, volumes, format, drives);
      AcceptedIff(fs, running, volumes[1..], now, drives + [device]);
      AcceptedReadable(fs, running, named, format, drives, Validated(fs, running, volumes, format, drives),
                       Validated(fs, running, volumes[1..], now, drives + [device]));
    }
  }

  lemma DrivesForSplits(fs: map<string, FileInfo>, named: seq<string>, format: Format,
                        drives: seq<Device>, device: Device, all: seq<Device>)
    requires named != [] && named[0] in fs
    requires var now := if fs[named[0]].probe == IsNotQcow2 then Raw else format;
      && device == Device(now, |drives|, fs[named[0]].abs)
      && drives + [device] <= all
      && DrivesFor(fs, named[1..], now, |drives| + 1, all[|drives| + 1..])
    ensures drives <= all && DrivesFor(fs, named, format, |drives|, all[|drives|..])
  {
    var added := all[|drives|..];
    assert all[|drives|] == (drives + [device])[|drives|] == device;
    forall k | 0 <= k < |named|
      ensures named[k] in fs && added[k].path == fs[named[k]].abs && added[k].slot == |drives| + k
      ensures added[k].format == Raw <==> RawSoFar(fs, named, format, k)
    {
      if k > 0 {
        assert added[k] == all[|drives| + 1..][k - 1] && named[k] == named[1..][k - 1];
        RawSoFarShifts(fs, named, format, k - 1);
      }
    }
  }

  /** The recorded formats are those of the files exactly when no qcow2 volume follows one that is not. */
  lemma FormatsMatchIff(fs: map<string, FileInfo>, running: map<string, Config>, volumes: seq<string>,
                        drives: seq<Device>)
    requires Validated(fs, running, volumes, Qcow2, drives).Accepted?
    ensures |drives| <= |Validated(fs, running, volumes, Qcow2, drives).drives|
    ensures var named := NonEmpty(volumes);
      var added := Validated(fs, running, volumes, Qcow2, drives).drives[|drives|..];
      && |added| == |named| && (forall k :: 0 <= k < |named| ==> named[k] in fs)
      && ((forall k :: 0 <= k < |named| ==> (added[k].format == Raw <==> fs[named[k]].probe == IsNotQcow2)) <==>
          (forall j, k :: 0 <= j < k < |named| && fs[named[j]].probe == IsNotQcow2 ==>
              fs[named[k]].probe == IsNotQcow2))
  {
    AcceptedIff(fs, running, volumes, Qcow2, drives);
    RightFormatsIff(fs, NonEmpty(volumes), |drives|, Validated(fs, running, volumes, Qcow2, drives).drives[|drives|..]);
  }

  lemma RightFormatsIff(fs: map<string, FileInfo>, named: seq<string>, first: nat, added: seq<Device>)
    requires DrivesFor(fs, named, Qcow2, first, added)
    ensures
      (forall k :: 0 <= k < |named| ==> (added[k].format == Raw <==> fs[named[k]].probe == IsNotQcow2)) <==>
      (forall j, k :: 0 <= j < k < |named| && fs[named[j]].probe == IsNotQcow2 ==> fs[named[k]].probe == IsNotQcow2)
  {
    if forall k :: 0 <= k < |named| ==> (added[k].format == Raw <==> fs[named[k]].probe == IsNotQcow2) {
      forall j, k | 0 <= j < k < |named| && fs[named[j]].probe == IsNotQcow2 ensures fs[named[k]].probe == IsNotQcow2 {
        assert RawSoFar(fs, named, Qcow2, k);
      }
    }
  }

  lemma ValidatedOne(fs: map<string, FileInfo>, running: map<string, Config>, volumes: seq<string>, format: Format,
                     drives: seq<Device>, device: Device)
    requires volumes != [] && Judged(fs, running, volumes[0], format, drives) == Add(device)
    ensures Validated(fs, running, volumes, format, drives) ==
            Validated(fs, running, volumes[1..], device.format, drives + [device])
  {
  }

  /** Such a call: a raw image and then a qcow2 one, both accepted, both recorded as raw. */
  lemma LaterQcow2IsTakenForRaw(fs: map<string, FileInfo>, raw: string, qcow2: string)
    requires HasSuffix(raw, ".img") && HasSuffix(qcow2, ".img") && raw != qcow2
    requires fs == map[raw := FileInfo(raw, IsNotQcow2), qcow2 := FileInfo(qcow2, IsQcow2)]
    ensures Validated(fs, map[], [raw, qcow2], Qcow2, []) == Accepted([Device(Raw, 0, raw), Device(Raw, 1, qcow2)])
  {
    var none: seq<Device> := [];
    var one := [Device(Raw, 0, raw)];
    assert |raw| >= 4 && |qcow2| >= 4;
    assert PathsOf(none) == [] && PathsOf(one) == [raw];
    ValidatedOne(fs, map[], [raw, qcow2], Qcow2, none, one[0]);
    ValidatedOne(fs, map[], [qcow2], Raw, one, Device(Raw, 1, qcow2));
    assert [raw, qcow2][1..] == [qcow2] && [qcow2][1..] == [];
    assert none + [one[0]] == one && one + [Device(Raw, 1, qcow2)] == [Device(Raw, 0, raw), Device(Raw, 1, qcow2)];
  }

  // ---- The two calls of a boot: the root volume, then the others ----

  ghost function BootVolumes(fs: map<string, FileInfo>, running: map<string, Config>, root: string,
                             volumes: seq<string>): Outcome
  {
    match Validated(fs, running, [root], Qcow2, [])
    case Rejected(error) => Rejected(error)
    case Accepted(first) => Validated(fs, running, volumes, Qcow2, first)
  }

  ghost predicate Sane(running: map<string, Config>, drives: seq<Device>) {
    && (forall k :: 0 <= k < |drives| ==> drives[k].slot == k && !InUse(running, drives[k].path))
    && (forall j, k :: 0 <= j < k < |drives| ==> drives[j].path != drives[k].path)
  }

  /** The absolute paths of the files named. */
  function AbsOf(fs: map<string, FileInfo>, named: seq<string>): seq<string> {
    seq(|named|, k requires 0 <= k < |named| => if named[k] in fs then fs[named[k]].abs else "")
  }

  lemma AddKeepsSane(running: map<string, Config>, drives: seq<Device>, device: Device)
    requires Sane(running, drives) && device.slot == |drives|
    requires !InUse(running, device.path) && device.path !in PathsOf(drives)
    ensures Sane(running, drives + [device]) && PathsOf(drives + [device]) == PathsOf(drives) + [device.path]
  {
    forall k | 0 <= k < |drives| ensures drives[k].path != device.path {
      assert PathsOf(drives)[k] == drives[k].path;
    }
  }

  /** One call: slots go on consecutively, and the new paths are those of the volumes named, in order. */
  lemma {:induction false} CallKeepsSane(fs: map<string, FileInfo>, running: map<string, Config>,
                                         volumes: seq<string>, format: Format, drives: seq<Device>)
    requires Sane(running, drives) && Validated(fs, running, volumes, format, drives).Accepted?
    ensures var all := Validated(fs, running, volumes, format, drives).drives;
      Sane(running, all) && PathsOf(all) == PathsOf(drives) + AbsOf(fs, NonEmpty(volumes))
    decreases volumes
  {
    if volumes != [] {
      var verdict := Judged(fs, running, volumes[0], format, drives);
      if verdict.Add? {
        AddKeepsSane(running, drives, verdict.device);
        CallKeepsSane(fs, running, volumes[1..], verdict.device.format, drives + [verdict.device]);
        assert AbsOf(fs, NonEmpty(volumes)) == [verdict.device.path] + AbsOf(fs, NonEmpty(volumes[1..]));
      } else {
        CallKeepsSane(fs, running, volumes[1..], format, drives);
      }
    }
  }

  /** After a boot's two calls the slots are 0..n-1 in the order of the arguments, root first, no file is
      there twice and none is another VM's. */
  lemma BootDrives(fs: map<string, FileInfo>, running: map<string, Config>, root: string, volumes: seq<string>)
    requires BootVolumes(fs, running, root, volumes).Accepted?
    ensures var drives := BootVolumes(fs, running, root, volumes).drives;
      && Sane(running, drives)
      && PathsOf(drives) == AbsOf(fs, NonEmpty([root])) + AbsOf(fs, NonEmpty(volumes))
      && (root != "" ==> drives != [] && root in fs && drives[0].path == fs[root].abs && drives[0].slot == 0)
  {
    CallKeepsSane(fs, running, [root], Qcow2, []);
    var first := Validated(fs, running, [root], Qcow2, []).drives;
    CallKeepsSane(fs, running, volumes, Qcow2, first);
    var drives := BootVolumes(fs, running, root, volumes).drives;
    if root != "" {
      assert NonEmpty([root]) == [root] && root in fs;
      assert PathsOf(drives)[0] == AbsOf(fs, [root])[0];
      assert |PathsOf(drives)| == |drives|;
    }
  }

  /** What earlier drives add to the conditions on later volumes: their files are taken. */
  lemma AdmissibleBeside(fs: map<string, FileInfo>, running: map<string, Config>, named: seq<string>,
                         first: seq<Device>)
    ensures Admissible(fs, running, named, Qcow2, first) <==>
      && Admissible(fs, running, named, Qcow2, [])
      && forall path :: path in PathsOf(first) ==> path !in AbsOf(fs, named)
  {
    assert PathsOf([]) == [];
    if Admissible(fs, running, named, Qcow2, first) {
      forall k | 0 <= k < |named| ensures AbsOf(fs, named)[k] !in PathsOf(first) {
        assert named[k] in fs && fs[named[k]].abs !in PathsOf(first);
      }
    }
    if Admissible(fs, running, named, Qcow2, [])
       && forall path :: path in PathsOf(first) ==> path !in AbsOf(fs, named)
    {
      forall k | 0 <= k < |named| ensures fs[named[k]].abs !in PathsOf(first) {
        assert AbsOf(fs, named)[k] == fs[named[k]].abs;
      }
    }
  }

  /** A boot's two calls succeed exactly if each list of volumes is admissible on its own and they have
      no file in common. */
  lemma BootAcceptedIff(fs: map<string, FileInfo>, running: map<string, Config>, root: string, volumes: seq<string>)
    ensures BootVolumes(fs, running, root, volumes).Accepted? <==>
      && Admissible(fs, running, NonEmpty([root]), Qcow2, [])
      && Admissible(fs, running, NonEmpty(volumes), Qcow2, [])
      && forall path :: path in AbsOf(fs, NonEmpty([root])) ==> path !in AbsOf(fs, NonEmpty(volumes))
  {
    var none: seq<Device> := [];
    AcceptedIff(fs, running, [root], Qcow2, none);
    var out := Validated(fs, running, [root], Qcow2, none);
    if out.Accepted? {
      CallKeepsSane(fs, running, [root], Qcow2, none);
      assert PathsOf(none) + AbsOf(fs, NonEmpty([root])) == AbsOf(fs, NonEmpty([root]));
      AcceptedIff(fs, running, volumes, Qcow2, out.drives);
      AdmissibleBeside(fs, running, NonEmpty(volumes), out.drives);
    }
  }

  /** A file that a VM can boot with as its root volume when nothing else runs. */
  ghost predicate Bootable(fs: map<string, FileInfo>, path: string) {
    && path != "" && path in fs
    && (fs[path].probe == IsQcow2 || (fs[path].probe == IsNotQcow2 && HasSuffix(path, ".img")))
  }

  lemma BootsAlone(fs: map<string, FileInfo>, path: string)
    requires Bootable(fs, path)
    ensures var out := BootVolumes(fs, map[], path, []); out.Accepted? && PathsOf(out.drives) == [fs[path].abs]
  {
    var none: seq<Device> := [];
    var format := if fs[path].probe == IsNotQcow2 then Raw else Qcow2;
    assert PathsOf(none) == [];
    ReadableVolume(fs, map[], [path], Qcow2, none);
    assert [path][1..] == [];
    assert Validated(fs, map[], [path], Qcow2, none) == Accepted([Device(format, 0, fs[path].abs)]);
  }

  ghost predicate SomeBootable(fs: map<string, FileInfo>) { exists path :: path in fs && Bootable(fs, path) }

  /** Whatever runs, a boot with volumes has one that could be booted alone. */
  lemma FirstIsBootable(fs: map<string, FileInfo>, running: map<string, Config>, root: string, volumes: seq<string>)
    requires BootVolumes(fs, running, root, volumes).Accepted?
    ensures PathsOf(BootVolumes(fs, running, root, volumes).drives) == [] || SomeBootable(fs)
  {
    BootDrives(fs, running, root, volumes);
    BootAcceptedIff(fs, running, root, volumes);
    if NonEmpty([root]) != [] { AdmissibleIsBootable(fs, running, [root]); }
    if NonEmpty(volumes) != [] { AdmissibleIsBootable(fs, running, volumes); }
  }

  lemma AdmissibleIsBootable(fs: map<string, FileInfo>, running: map<string, Config>, volumes: seq<string>)
    requires Admissible(fs, running, NonEmpty(volumes), Qcow2, []) && NonEmpty(volumes) != []
    ensures SomeBootable(fs)
  {
    var named := NonEmpty(volumes);
    NonEmptyIsNamed(volumes);
    assert named[0] in named;
    if named[0] in fs && fs[named[0]].probe == IsNotQcow2 { assert RawSoFar(fs, named, Qcow2, 0); }
    assert Bootable(fs, named[0]);
  }

  lemma {:induction false} NonEmptyIsNamed(volumes: seq<string>)
    ensures forall volume :: volume in NonEmpty(volumes) ==> volume != ""
  {
    if volumes != [] { NonEmptyIsNamed(volumes[1..]); }
  }

  // ---- The code ----

  lemma ValidatedFrom(fs: map<string, FileInfo>, running: map<string, Config>, volumes: seq<string>, n: nat,
                      format: Format, drives: seq<Device>)
    requires n < |volumes|
    ensures Validated(fs, running, volumes[n..], format, drives) ==
            match Judged(fs, running, volumes[n], format, drives)
            case Skip => Validated(fs, running, volumes[n + 1..], format, drives)
            case Reject(error) => Rejected(error)
            case Add(device) => Validated(fs, running, volumes[n + 1..], device.format, drives + [device])
  {
    assert volumes[n..][0] == volumes[n] && volumes[n..][1..] == volumes[n + 1..];
  }

  /** HardDrives holds the drives under the decimal forms of their slots. */
  function AsMap(drives: seq<Device>): (m: map<string, Device>)
  {
    if drives == [] then map[] else AsMap(drives[..|drives| - 1])[Itoa(|drives| - 1) := drives[|drives| - 1]]
  }

  lemma {:induction false} AsMapHas(drives: seq<Device>, n: nat)
    requires |drives| <= n
    ensures Itoa(n) !in AsMap(drives) && |AsMap(drives)| == |drives|
  {
    if drives != [] {
      var front := drives[..|drives| - 1];
      AsMapHas(front, n);
      AsMapHas(front, |drives| - 1);
      if Itoa(n) == Itoa(|drives| - 1) { ItoaIsInjective(n, |drives| - 1); }
    }
  }

  /** The keys are the decimal forms of the slots, each with the drive of that slot. */
  lemma {:induction false} AsMapAt(drives: seq<Device>, k: nat)
    requires k < |drives|
    ensures Itoa(k) in AsMap(drives) && AsMap(drives)[Itoa(k)] == drives[k]
  {
    var front := drives[..|drives| - 1];
    if k < |drives| - 1 {
      AsMapAt(front, k);
      if Itoa(k) == Itoa(|drives| - 1) { ItoaIsInjective(k, |drives| - 1); }
    }
  }

  lemma {:induction false} AsMapKey(drives: seq<Device>, key: string) returns (k: nat)
    requires key in AsMap(drives)
    ensures k < |drives| && key == Itoa(k) && AsMap(drives)[key] == drives[k]
  {
    var n := |drives| - 1;
    if key == Itoa(n) {
      k := n;
    } else {
      k := AsMapKey(drives[..n], key);
    }
  }

  class Storage {
    var hardDrives: map<string, Device>
    var persistentRoot: bool

    constructor ()
      ensures hardDrives == map[] && !persistentRoot
    {
      hardDrives, persistentRoot := map[], false;
    }

    /** Some registered VM uses the file. */
    static method UsedByAnother(running: map<string, Config>, path: string) returns (used: bool)
      ensures used <==> InUse(running, path)
    {
      var rest := running.Keys;
      while rest != {}
        invariant rest <= running.Keys
        invariant forall u :: u in running && u !in rest ==> path !in running[u].volumes
      {
        var u :| u in rest;
        for k := 0 to |running[u].volumes|
          invariant path !in running[u].volumes[..k]
        {
          if path == running[u].volumes[k] {
            return true;
          }
        }
        assert running[u].volumes[..|running[u].volumes|] == running[u].volumes;
        rest := rest - {u};
      }
      used := false;
    }

    /** One of the VM's own drives is the file. */
    method UsedHere(path: string, ghost drives: seq<Device>) returns (used: bool)
      requires hardDrives == AsMap(drives)
      ensures used <==> path in PathsOf(drives)
    {
      var rest := hardDrives.Keys;
      while rest != {}
        invariant rest <= hardDrives.Keys
        invariant forall key :: key in hardDrives && key !in rest ==> hardDrives[key].path != path
      {
        var key :| key in rest;
        if hardDrives[key].path == path {
          ghost var k := AsMapKey(drives, key);
          assert PathsOf(drives)[k] == path;
          return true;
        }
        rest := rest - {key};
      }
      forall k | 0 <= k < |drives| ensures PathsOf(drives)[k] != path {
        AsMapAt(drives, k);
      }
      used := false;
    }

    /** The paths of the drives, by slot. */
    method Paths(ghost drives: seq<Device>) returns (paths: seq<string>)
      requires hardDrives == AsMap(drives)
      ensures paths == PathsOf(drives)
    {
      AsMapHas(drives, |drives|);
      paths := [];
      for slot := 0 to |hardDrives|
        invariant paths == PathsOf(drives)[..slot]
      {
        AsMapAt(drives, slot);
        paths := paths + [hardDrives[Itoa(slot)].path];
      }
    }

    /** One round of the loop: the volume is passed over, rejected, or to be put in the next slot. */
    method JudgeVolume(fs: map<string, FileInfo>, running: map<string, Config>, j: string, format: Format,
                       ghost drives: seq<Device>)
      returns (verdict: Verdict)
      requires hardDrives == AsMap(drives)
      ensures verdict == Judged(fs, running, j, format, drives)
    {
      if j == "" {
        return Skip;
      }
      if j !in fs {
        return Reject(NotFound);
      }
      var now := format;
      if fs[j].probe == Unreadable {
        return Reject(CannotRead);
      }
      if fs[j].probe == IsNotQcow2 {
        now := Raw;
      }
      if now == Raw && !HasSuffix(j, ".img") {
        return Reject(NotAnImg);
      }
      var abs := fs[j].abs;
      var used := UsedByAnother(running, abs);
      if used {
        return Reject(UsedByAnotherVm);
      }
      used := UsedHere(abs, drives);
      if used {
        return Reject(UsedTwice);
      }
      AsMapHas(drives, |drives|);
      verdict := Add(Device(now, |hardDrives|, abs));
    }

    /** The device goes into the map under its slot's decimal form, a key not taken yet. */
    method Attach(device: Device, ghost drives: seq<Device>)
      requires hardDrives == AsMap(drives) && device.slot == |drives|
      modifies this`hardDrives
      ensures hardDrives == AsMap(drives + [device])
    {
      AsMapHas(drives, |drives|);
      hardDrives := hardDrives[Itoa(device.slot) := device];
      assert (drives + [device])[..|drives|] == drives;
    }

    method TakeVolume(fs: map<string, FileInfo>, running: map<string, Config>, j: string, format: Format,
                      ghost drives: seq<Device>)
      returns (error: Option<VolumeError>, now: Format)
      requires hardDrives == AsMap(drives)
      modifies this`hardDrives
      ensures match Judged(fs, running, j, format, drives)
              case Skip => error.None? && now == format && hardDrives == old(hardDrives)
              case Reject(e) => error == Some(e)
              case Add(device) => error.None? && now == device.format && hardDrives == AsMap(drives + [device])
    {
      var verdict := JudgeVolume(fs, running, j, format, drives);
      now, error := format, None;
      match verdict {
        case Skip =>
        case Reject(e) => error := Some(e);
        case Add(device) =>
          now := device.format;
          Attach(device, drives);
      }
    }

    method ValidateVolumes(fs: map<string, FileInfo>, running: map<string, Config>, volumes: seq<string>, root: bool,
                           ghost drives: seq<Device>)
      returns (error: Option<VolumeError>, ghost all: seq<Device>)
      requires hardDrives == AsMap(drives)
      modifies this
      ensures match Validated(fs, running, volumes, Qcow2, drives)
              case Rejected(e) => error == Some(e)
              case Accepted(ds) => error.None? && all == ds && hardDrives == AsMap(ds) &&
                                   persistentRoot == (old(persistentRoot) || (root && |ds| > |drives|))
    {
      var format := Qcow2;
      all := drives;
      var n := 0;
      while n < |volumes|
        invariant n <= |volumes| && |drives| <= |all|
        invariant hardDrives == AsMap(all)
        invariant Validated(fs, running, volumes, Qcow2, drives) == Validated(fs, running, volumes[n..], format, all)
        invariant persistentRoot == (old(persistentRoot) || (root && |all| > |drives|))
      {
        ValidatedFrom(fs, running, volumes, n, format, all);
        ghost var verdict := Judged(fs, running, volumes[n], format, all);
        error, format := TakeVolume(fs, running, volumes[n], format, all);
        if error.Some? {
          return error, all;
        }
        if verdict.Add? {
          all := all + [verdict.device];
        }
        if volumes[n] != "" && root {
          persistentRoot := true;
        }
        n := n + 1;
      }
      error := None;
    }
  }
}
