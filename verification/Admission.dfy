/** Admission by the client: memory and volumes are checked there, against the VMs the daemon reports,
    before the Run request is sent. The checks and the request are not one step, so what follows is
    about clients that boot one VM at a time; VMs may end, and everything else in the daemon may
    happen, at any moment in between. Module Clients is about more than one at a time. */
module Admission {
  import opened Text
  import opened Lifecycle
  import opened LifecycleInvariants
  import opened LifecycleTheorems
  import Volumes
  import Flags

  type FileSystem = map<string, Volumes.FileInfo>

  /** The settings of a VM that matter here; `uuid` is the one the daemon settled on. */
  datatype Args = Args(name: string, uuid: string, memory: int, root: string, volumes: seq<string>)

  /** The memory of the host in bytes, and its files. */
  datatype Host = Host(memory: nat, files: FileSystem)

  datatype BootError = TooMuchMemory | BadVolume(error: Volumes.VolumeError)

  datatype BootResult = Ready(config: Config) | Refused(error: BootError)

  // ---- One boot ----

  function Clamped(memory: int): nat {
    if memory < 1024 then 1024 else if memory > 8192 then 8192 else memory
  }

  /** Two thirds of the host's memory, in megabytes, as the client computes it. */
  function Cap(bytes: nat): nat { bytes / 1024 / 1024 * 2 / 3 }

  ghost function Total(running: map<string, Config>): nat
    decreases |running|
  {
    if running == map[] then 0 else var u :| u in running; running[u].memory + Total(running - {u})
  }

  ghost function Bootstrapped(host: Host, running: map<string, Config>, args: Args): BootResult {
    if Total(running) + Clamped(args.memory) > Cap(host.memory) then Refused(TooMuchMemory)
    else match Volumes.BootVolumes(host.files, running, args.root, Flags.Sliced(args.volumes))
      case Rejected(error) => Refused(BadVolume(error))
      case Accepted(drives) => Ready(Config(args.name, args.uuid, Clamped(args.memory), Volumes.PathsOf(drives)))
  }

  /** The memory a request is granted: what it asks for between the bounds, and the nearer bound else. */
  ghost predicate Grants(memory: int, m: int) {
    if memory < 1024 then m == 1024 else if memory > 8192 then m == 8192 else m == memory
  }

  /** Two thirds of the whole megabytes, less any fraction. */
  lemma CapIsTwoThirds(bytes: nat, total: nat)
    ensures total <= Cap(bytes) <==> 3 * total <= 2 * (bytes / 1048576)
  {
    assert bytes / 1024 / 1024 == bytes / 1048576;
  }

  /** A boot is admitted exactly if its memory and that of all that run make at most two thirds of the
      host's whole megabytes, and all its volumes, root first, can be read, are unused by other VMs and
      different files, and end in ".img" where they must. */
  lemma AdmittedIff(host: Host, running: map<string, Config>, args: Args, m: nat)
    requires Grants(args.memory, m)
    ensures var root, named := Volumes.NonEmpty([args.root]), Volumes.NonEmpty(Flags.Sliced(args.volumes));
      Bootstrapped(host, running, args).Ready? <==>
        && 3 * (Total(running) + m) <= 2 * (host.memory / 1048576)
        && Volumes.Admissible(host.files, running, root, Volumes.Qcow2, [])
        && Volumes.Admissible(host.files, running, named, Volumes.Qcow2, [])
        && forall path :: path in Volumes.AbsOf(host.files, root) ==> path !in Volumes.AbsOf(host.files, named)
  {
    CapIsTwoThirds(host.memory, Total(running) + m);
    Volumes.BootAcceptedIff(host.files, running, args.root, Flags.Sliced(args.volumes));
  }

  /** The test of memory comes first, and is exact. */
  lemma TooMuchMemoryIff(host: Host, running: map<string, Config>, args: Args, m: nat)
    requires Grants(args.memory, m)
    ensures Bootstrapped(host, running, args) == Refused(TooMuchMemory) <==>
            3 * (Total(running) + m) > 2 * (host.memory / 1048576)
  {
    CapIsTwoThirds(host.memory, Total(running) + m);
  }

  /** What is admitted has the name and UUID asked for, the memory granted, and the files of its volumes,
      root first, in the order of the arguments. */
  lemma AdmittedAsAsked(host: Host, running: map<string, Config>, args: Args)
    requires Bootstrapped(host, running, args).Ready?
    ensures var config := Bootstrapped(host, running, args).config;
      var root, named := Volumes.NonEmpty([args.root]), Volumes.NonEmpty(Flags.Sliced(args.volumes));
      && config.name == args.name && config.uuid == args.uuid && Grants(args.memory, config.memory)
      && config.volumes == Volumes.AbsOf(host.files, root) + Volumes.AbsOf(host.files, named)
  {
    Volumes.BootDrives(host.files, running, args.root, Flags.Sliced(args.volumes));
  }

  lemma {:induction false} TotalWithout(running: map<string, Config>, u: string)
    requires u in running
    ensures Total(running) == running[u].memory + Total(running - {u})
    decreases |running|
  {
    var w :| w in running && Total(running) == running[w].memory + Total(running - {w});
    if w != u {
      TotalWithout(running - {w}, u);
      TotalWithout(running - {u}, w);
      assert running - {w} - {u} == running - {u} - {w};
    }
  }

  lemma TotalOfInsert(running: map<string, Config>, u: string, config: Config)
    requires u !in running
    ensures Total(running[u := config]) == config.memory + Total(running)
  {
    TotalWithout(running[u := config], u);
    assert running[u := config] - {u} == running;
  }

  lemma {:induction false} TotalOfPart(part: map<string, Config>, running: map<string, Config>)
    requires forall u :: u in part ==> u in running && running[u] == part[u]
    ensures Total(part) <= Total(running)
    decreases |running|
  {
    if part == map[] {
    } else {
      var u :| u in part;
      TotalWithout(part, u);
      TotalWithout(running, u);
      TotalOfPart(part - {u}, running - {u});
    }
  }

  lemma {:induction false} TotalIsAtLeast(running: map<string, Config>, least: nat)
    requires forall u :: u in running ==> running[u].memory >= least
    ensures least * |running| <= Total(running)
    decreases |running|
  {
    if running != map[] {
      var u :| u in running;
      TotalWithout(running, u);
      TotalIsAtLeast(running - {u}, least);
      assert |running - {u}| == |running| - 1;
      assert least * |running| == least * (|running| - 1) + least;
    }
  }

  /** vmBootstrap, as far as admission goes. */
  method Bootstrap(host: Host, running: map<string, Config>, args: Args) returns (r: BootResult)
    ensures r == Bootstrapped(host, running, args)
    ensures forall m: nat :: Grants(args.memory, m) ==>
              && (r == Refused(TooMuchMemory) <==> 3 * (Total(running) + m) > 2 * (host.memory / 1048576))
              && (r.Ready? ==> r.config.memory == m && r.config.name == args.name && r.config.uuid == args.uuid)
  {
    forall m: nat | Grants(args.memory, m) ensures m == Clamped(args.memory) { }
    TooMuchMemoryIff(host, running, args, Clamped(args.memory));
    var memory := args.memory;
    if memory < 1024 {
      memory := 1024;
    } else if memory > 8192 {
      memory := 8192;
    }
    var totalM := 0;
    var rest := running;
    while rest != map[]
      invariant forall u :: u in rest ==> u in running
      invariant totalM + Total(rest) == Total(running)
      decreases |rest|
    {
      var u :| u in rest;
      TotalWithout(rest, u);
      totalM := totalM + rest[u].memory;
      rest := rest - {u};
    }
    if totalM + memory > host.memory / 1024 / 1024 * 2 / 3 {
      return Refused(TooMuchMemory);
    }
    var storage := new Volumes.Storage();
    ghost var none: seq<Volumes.Device>, first, all := [], [], [];
    var error;
    error, first := storage.ValidateVolumes(host.files, running, [args.root], true, none);
    if error.Some? {
      return Refused(BadVolume(error.value));
    }
    var sliced := Flags.SplitFlags(args.volumes);
    error, all := storage.ValidateVolumes(host.files, running, sliced, false, first);
    if error.Some? {
      return Refused(BadVolume(error.value));
    }
    var paths := storage.Paths(all);
    r := Ready(Config(args.name, args.uuid, memory, paths));
  }

  // ---- Whole runs ----

  /** What a client is told of the running VMs. */
  function Snapshot(s: State): map<string, Config> {
    map u | u in s.active && s.active[u] < |s.vms| :: s.vms[s.active[u]].config
  }

  /** The daemon, and the VM a client has checked but not sent yet. */
  datatype ClientState = ClientState(s: State, pending: Option<Config>)

  datatype ClientEvent =
    | Elsewhere(e: Event)
    | Check(args: Args)
    | Submit(now: nat, runDirOk: bool)

  ghost function ClientNext(env: Env, host: Host, c: ClientState, e: ClientEvent): ClientState {
    match e
    case Elsewhere(e) => if e.Admit? then c else c.(s := Next(env, c.s, e))
    case Check(args) =>
      if c.pending.Some? || !c.s.accepting || c.s.closed || c.s.fault.Some? then c
      else (match Bootstrapped(host, Snapshot(c.s), args)
            case Ready(config) => c.(pending := Some(config))
            case Refused(_) => c)
    case Submit(now, runDirOk) =>
      if c.pending.None? then c
      else ClientState(Next(env, c.s, Admit(c.pending.value, now, runDirOk)), None)
  }

  ghost function ClientRun(env: Env, host: Host, c: ClientState, events: seq<ClientEvent>): ClientState
    decreases events
  {
    if events == [] then c else ClientRun(env, host, ClientNext(env, host, c, events[0]), events[1..])
  }

  ghost predicate Apart(a: Config, b: Config) {
    forall path :: path in a.volumes ==> path !in b.volumes
  }

  /** No two VMs share a volume. */
  ghost predicate VolumesApart(running: map<string, Config>) {
    forall u, w :: u in running && w in running && u != w ==> Apart(running[u], running[w])
  }

  ghost predicate Fits(host: Host, running: map<string, Config>, pending: Option<Config>) {
    && Total(running) + (if pending.Some? then pending.value.memory else 0) <= Cap(host.memory)
    && (forall u :: u in running ==> 1024 <= running[u].memory <= 8192)
    && VolumesApart(running)
    && (pending.Some? ==>
          1024 <= pending.value.memory <= 8192 && forall u :: u in running ==> Apart(running[u], pending.value))
  }

  ghost predicate ClientInv(host: Host, c: ClientState) {
    RegistryInv(c.s) && OnlyNilProcess(c.s) && Fits(host, Snapshot(c.s), c.pending)
  }

  lemma FitsShrinks(host: Host, running: map<string, Config>, part: map<string, Config>, pending: Option<Config>)
    requires Fits(host, running, pending) && forall u :: u in part ==> u in running && running[u] == part[u]
    ensures Fits(host, part, pending)
  {
    TotalOfPart(part, running);
  }

  /** A checked VM fits in beside those that run. */
  lemma CheckedFits(host: Host, running: map<string, Config>, args: Args)
    requires Fits(host, running, None) && Bootstrapped(host, running, args).Ready?
    ensures Fits(host, running, Some(Bootstrapped(host, running, args).config))
  {
    var config := Bootstrapped(host, running, args).config;
    Volumes.BootDrives(host.files, running, args.root, Flags.Sliced(args.volumes));
    var drives := Volumes.BootVolumes(host.files, running, args.root, Flags.Sliced(args.volumes)).drives;
    forall k | 0 <= k < |config.volumes| ensures !Volumes.InUse(running, config.volumes[k]) {
      assert !Volumes.InUse(running, drives[k].path);
    }
  }

  lemma InsertedFits(host: Host, running: map<string, Config>, config: Config)
    requires Fits(host, running, Some(config)) && config.uuid !in running
    ensures Fits(host, running[config.uuid := config], None)
  {
    TotalOfInsert(running, config.uuid, config);
    var more := running[config.uuid := config];
    forall u, w | u in more && w in more && u != w ensures Apart(more[u], more[w]) {
      if u == config.uuid {
        assert Apart(running[w], config);
      } else if w == config.uuid {
        assert Apart(running[u], config);
      } else {
        assert Apart(running[u], running[w]);
      }
    }
  }

  lemma DroppedFits(host: Host, running: map<string, Config>, pending: Option<Config>)
    requires Fits(host, running, pending)
    ensures Fits(host, running, None)
  {
  }

  lemma SnapshotShrinks(env: Env, s: State, e: Event)
    requires AllSound(s) && EntriesAreOwn(s) && !e.Admit?
    ensures forall u :: u in Snapshot(Next(env, s, e)) ==>
            u in Snapshot(s) && Snapshot(s)[u] == Snapshot(Next(env, s, e))[u]
  {
    EntriesOnlyLeave(env, s, e);
    NextEvolves(env, s, e);
    forall i | 0 <= i < |s.vms| ensures VmEvolves(s.vms[i], Next(env, s, e).vms[i]) { }
  }

  lemma SnapshotOfAdmission(s: State, config: Config, now: nat, runDirOk: bool)
    requires EntriesAreOwn(s) && RefusalOf(s, config).None?
    ensures config.uuid !in Snapshot(s)
    ensures Snapshot(Admitted(s, config, now, runDirOk)) == Snapshot(s)[config.uuid := config]
  {
  }

  lemma SubmitKeeps(env: Env, host: Host, c: ClientState, now: nat, runDirOk: bool)
    requires GoodEnv(env) && ClientInv(host, c) && c.pending.Some?
    ensures ClientInv(host, ClientNext(env, host, c, Submit(now, runDirOk)))
  {
    var config := c.pending.value;
    RunEventKeepsRegistry(env, c.s, Admit(config, now, runDirOk));
    if c.s.closed || c.s.fault.Some? || RefusalOf(c.s, config).Some? {
      DroppedFits(host, Snapshot(c.s), c.pending);
    } else {
      SnapshotOfAdmission(c.s, config, now, runDirOk);
      InsertedFits(host, Snapshot(c.s), config);
    }
  }

  lemma ClientNextKeeps(env: Env, host: Host, c: ClientState, e: ClientEvent)
    requires GoodEnv(env) && ClientInv(host, c)
    ensures ClientInv(host, ClientNext(env, host, c, e))
  {
    match e {
      case Elsewhere(e) =>
        if !e.Admit? {
          NextKeepsRegistry(env, c.s, e);
          SnapshotShrinks(env, c.s, e);
          FitsShrinks(host, Snapshot(c.s), Snapshot(Next(env, c.s, e)), c.pending);
        }
      case Check(args) =>
        if c.pending.None? && Bootstrapped(host, Snapshot(c.s), args).Ready? { CheckedFits(host, Snapshot(c.s), args); }
      case Submit(now, runDirOk) => if c.pending.Some? { SubmitKeeps(env, host, c, now, runDirOk); }
    }
  }

  lemma {:induction false} ClientRunKeeps(env: Env, host: Host, c: ClientState, events: seq<ClientEvent>)
    requires GoodEnv(env) && ClientInv(host, c)
    ensures ClientInv(host, ClientRun(env, host, c, events))
    decreases events
  {
    if events != [] {
      ClientNextKeeps(env, host, c, events[0]);
      ClientRunKeeps(env, host, ClientNext(env, host, c, events[0]), events[1..]);
    }
  }

  lemma StartFits(env: Env, host: Host)
    ensures ClientInv(host, ClientState(Init(env), None))
  {
    assert Snapshot(Init(env)) == map[];
  }

  lemma CapIsAtMostTwoThirds(bytes: nat)
    ensures 3 * 1048576 * Cap(bytes) <= 2 * bytes
  {
    var megabytes := bytes / 1024 / 1024;
    assert 1048576 * megabytes <= bytes;
    assert 3 * Cap(bytes) <= 2 * megabytes;
  }

  lemma LimitsFollow(host: Host, c: ClientState)
    requires EntriesAreOwn(c.s) && Fits(host, Snapshot(c.s), c.pending)
    ensures var running := Snapshot(c.s);
      && running.Keys == c.s.active.Keys
      && Total(running) <= Cap(host.memory)
      && 3 * 1048576 * Total(running) <= 2 * host.memory
      && 1024 * |c.s.active| <= Total(running)
      && (forall u :: u in running ==> 1024 <= running[u].memory <= 8192)
      && VolumesApart(running)
  {
    CapIsAtMostTwoThirds(host.memory);
    TotalIsAtLeast(Snapshot(c.s), 1024);
    assert Snapshot(c.s).Keys == c.s.active.Keys;
    assert |Snapshot(c.s).Keys| == |Snapshot(c.s)| && |c.s.active.Keys| == |c.s.active|;
  }

  /** In every run of clients that boot one VM at a time, the registered VMs never have more than two
      thirds of the host's memory, each has between one and eight gigabytes, and no two share a volume. */
  lemma SequentialClientsStayWithinLimits(env: Env, host: Host, events: seq<ClientEvent>)
    requires GoodEnv(env)
    ensures var s := ClientRun(env, host, ClientState(Init(env), None), events).s; var running := Snapshot(s);
      && running.Keys == s.active.Keys
      && Total(running) <= Cap(host.memory)
      && 3 * 1048576 * Total(running) <= 2 * host.memory
      && 1024 * |s.active| <= Total(running)
      && (forall u :: u in running ==> 1024 <= running[u].memory <= 8192)
      && VolumesApart(running)
  {
    StartFits(env, host);
    ClientRunKeeps(env, host, ClientState(Init(env), None), events);
    LimitsFollow(host, ClientRun(env, host, ClientState(Init(env), None), events));
  }
}
