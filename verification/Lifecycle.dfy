/** The daemon as a state machine: the registry of running VMs, the goroutines and channels of every
    Run request, the HTTP handlers, the name records, and the shutdown.

    One event is one uninterrupted stretch of the code. Handlers, and the admission of a VM (accept
    check, lookup and insertion), are taken as uninterrupted; everything else interleaves freely.
    An event that is not enabled leaves the state alone, so every sequence of events is a run.
    A panic or a channel operation that would block for good is a `fault`, and stops the machine. */
module Lifecycle {
  import opened Text
  import opened Dns
  import opened Sorting

  // ---- State ----

  datatype Config = Config(name: string, uuid: string, memory: nat, volumes: seq<string>)

  /** A buffered channel of capacity one; `sent` counts the sends it has accepted. */
  datatype Chan<T> = Chan(queue: seq<T>, sent: nat, closed: bool)

  datatype Failure = NoRunDir | NotStarted | NoIPInTime | EndedTooEarly

  datatype Reply = Booted(ip: string) | Failed(failure: Failure)

  /** The goroutine that waits for the VM's address. */
  datatype Watcher = Waiting | Terminating | Over | Absent

  /** The goroutine that runs the VM's process: not scheduled yet, waiting for a live process, waiting
      for one that failed to start, finished, or never created. */
  datatype Runner = Queued | Up | Unstarted | Gone | Missing

  /** One Run request's VM. `announced` records the address of its last ignition request. */
  datatype Vm = Vm(
    config: Config, created: nat,
    publicIPCh: Chan<string>, errCh: Chan<Failure>, done: bool,
    callBackUsed: bool, isolationUsed: bool, notIsolated: bool,
    publicIP: string, pid: Option<nat>, process: Option<nat>,
    watcher: Watcher, runner: Runner, reply: Option<Reply>, announced: Option<string>)

  /** Progress of the Stop request: VMs still to stop, whether the first of them has been signalled,
      and all those signalled so far in order. */
  datatype Stopping = NotStopping | Stopping(todo: seq<nat>, awaiting: bool, log: seq<nat>) | StopPanicked
      | Stopped(log: seq<nat>)

  datatype Fault = NilProcess | SendOnClosed | SendBlocked | DoubleClose | NegativeJobs

  /** VMs are referred to by their index in `vms`, which lists all that were ever admitted. */
  datatype State = State(
    accepting: bool, vms: seq<Vm>, active: map<string, nat>, jobs: nat, store: map<string, string>,
    stop: Stopping, oops: bool, woken: bool, closed: bool, fault: Option<Fault>)

  datatype Env = Env(domain: string, hostIP: string, network: set<string>)

  datatype Event =
    | Admit(config: Config, now: nat, runDirOk: bool)
    | Start(i: nat, process: Option<nat>)
    | Exit(i: nat)
    | Timeout(i: nat)
    | Expire(i: nat)
    | TakeIP(i: nat)
    | Answer(i: nat, preferError: bool)
    | Callback(uuid: string, addr: string)
    | Ignition(uuid: string, addr: string)
    | Connectivity(uuid: string, addr: string)
    | StopCall(order: seq<nat>)
    | StopSignal
    | StopPoll
    | StopReturn
    | Oops
    | Wake
    | Close

  // ---- What each stretch of code does to one VM ----

  datatype Outcome = Changed(vm: Vm) | Unchanged | Panic(fault: Fault)

  datatype Sent<T> = Delivered(ch: Chan<T>) | Blocked | OnClosed

  function Send<T>(ch: Chan<T>, x: T): Sent<T> {
    if ch.closed then OnClosed
    else if |ch.queue| >= 1 then Blocked
    else Delivered(ch.(queue := ch.queue + [x], sent := ch.sent + 1))
  }

  function Fresh(config: Config, now: nat, runDirOk: bool): Vm {
    Vm(config, if runDirOk then now else 0, Chan([], 0, false), Chan([], 0, false), false,
       false, false, false, "", None, None,
       if runDirOk then Waiting else Absent, if runDirOk then Queued else Missing,
       if runDirOk then None else Some(Failed(NoRunDir)), None)
  }

  /** The runner starts the process, or reports that it could not. */
  function Started(v: Vm, process: Option<nat>): Outcome {
    if v.runner != Queued then Unchanged
    else if process.Some? then Changed(v.(runner := Up, process := process))
    else match Send(v.errCh, NotStarted)
      case Delivered(ch) => Changed(v.(runner := Unstarted, errCh := ch))
      case Blocked => Panic(SendBlocked)
      case OnClosed => Panic(SendOnClosed)
  }

  /** The watcher's time is up: it records the process and asks it to terminate. */
  function TimedOut(v: Vm): Outcome {
    if v.watcher != Waiting then Unchanged
    else if v.process.None? then Panic(NilProcess)
    else Changed(v.(pid := v.process, watcher := Terminating))
  }

  /** Termination did not help within a second timeout: the process is killed and the request failed. */
  function Expired(v: Vm): Outcome {
    if v.watcher != Terminating then Unchanged
    else match Send(v.errCh, NoIPInTime)
      case Delivered(ch) => Changed(v.(watcher := Over, errCh := ch))
      case Blocked => Panic(SendBlocked)
      case OnClosed => Panic(SendOnClosed)
  }

  /** The watcher receives the VM's address, records it and closes both channels. */
  function TookIP(v: Vm): Outcome {
    if v.watcher != Waiting || v.publicIPCh.queue == [] then Unchanged
    else if v.process.None? then Panic(NilProcess)
    else if v.publicIPCh.closed || v.done then Panic(DoubleClose)
    else Changed(v.(
      pid := v.process, publicIP := v.publicIPCh.queue[0],
      publicIPCh := v.publicIPCh.(queue := v.publicIPCh.queue[1..], closed := true),
      done := true, watcher := Over))
  }

  /** The Run request's final select; `preferError` settles it when both channels are ready. */
  function Answered(v: Vm, preferError: bool): Outcome {
    if v.reply.Some? then Unchanged
    else if v.done && !(preferError && v.errCh.queue != []) then
      Changed(v.(reply := Some(if v.publicIP == "" then Failed(EndedTooEarly) else Booted(v.publicIP))))
    else if v.errCh.queue != [] then
      Changed(v.(reply := Some(Failed(v.errCh.queue[0])), errCh := v.errCh.(queue := v.errCh.queue[1..])))
    else Unchanged
  }

  /** The guest reports in; only the first report is passed on, with the daemon locked. */
  function CalledBack(v: Vm, addr: string): Outcome {
    if v.callBackUsed then Unchanged
    else match Send(v.publicIPCh, addr)
      case Delivered(ch) => Changed(v.(callBackUsed := true, publicIPCh := ch))
      case Blocked => Panic(SendBlocked)
      case OnClosed => Panic(SendOnClosed)
  }

  function CheckedIsolation(v: Vm): Outcome {
    if v.isolationUsed then Unchanged else Changed(v.(isolationUsed := true, notIsolated := true))
  }

  // ---- Events ----

  predicate IsLoopback(addr: string) { HasPrefix(addr, "127.") }

  datatype HttpStatus = Accepted | Unauthorized | NotFound

  function RequestStatus(env: Env, s: State, uuid: string, addr: string): HttpStatus {
    if !(IsLoopback(addr) || addr in env.network) then Unauthorized
    else if uuid !in s.active then NotFound
    else Accepted
  }

  /** A guest's request that the callback and connectivity handlers act on. */
  predicate FromGuest(env: Env, s: State, uuid: string, addr: string) {
    RequestStatus(env, s, uuid, addr) == Accepted && !IsLoopback(addr)
  }

  function Apply(s: State, i: nat, outcome: Outcome): State
    requires i < |s.vms|
  {
    match outcome
    case Changed(v) => s.(vms := s.vms[i := v])
    case Unchanged => s
    case Panic(fault) => s.(fault := Some(fault))
  }

  datatype Refusal = ShuttingDown | ReservedName | AlreadyRunning

  /** Another VM in the registry has this UUID or this name. */
  ghost predicate Taken(s: State, config: Config) {
    config.uuid in s.active ||
    exists u :: u in s.active && s.active[u] < |s.vms| && s.vms[s.active[u]].config.name == config.name
  }

  ghost function RefusalOf(s: State, config: Config): Option<Refusal> {
    if !s.accepting then Some(ShuttingDown)
    else if config.name == RESERVED_HOST then Some(ReservedName)
    else if Taken(s, config) then Some(AlreadyRunning)
    else None
  }

  ghost function Admitted(s: State, config: Config, now: nat, runDirOk: bool): State {
    if RefusalOf(s, config).Some? then s
    else s.(vms := s.vms + [Fresh(config, now, runDirOk)], active := s.active[config.uuid := |s.vms|])
  }

  function RunnerStarted(s: State, i: nat, process: Option<nat>): State
    requires i < |s.vms|
  {
    var t := Apply(s, i, Started(s.vms[i], process));
    if s.vms[i].runner == Queued then t.(jobs := s.jobs + 1) else t
  }

  /** The runner's process has ended: its VM is unregistered and its job done. */
  function RunnerExited(env: Env, s: State, i: nat): State
    requires i < |s.vms|
  {
    var v := s.vms[i];
    if v.runner != Up && v.runner != Unstarted then s
    else if s.jobs == 0 then s.(fault := Some(NegativeJobs))
    else s.(
      vms := s.vms[i := v.(runner := Gone)],
      active := s.active - {v.config.uuid},
      store := Removed(s.store, env.domain, v.config.name, v.publicIP),
      jobs := s.jobs - 1)
  }

  function Ignited(env: Env, s: State, uuid: string, addr: string): State
    requires FromGuest(env, s, uuid, addr) && s.active[uuid] < |s.vms|
  {
    var i := s.active[uuid];
    s.(vms := s.vms[i := s.vms[i].(announced := Some(addr))],
       store := Added(s.store, env.domain, s.vms[i].config.name, addr))
  }

  /** The order in which Stop takes the VMs: all of them, newest first. */
  ghost predicate StopOrder(s: State, order: seq<nat>) {
    && Distinct(order)
    && (forall i :: i in order ==> i < |s.vms|)
    && (forall i :: i in order <==> i in s.active.Values)
    && NewestFirst(s.vms, order)
  }

  ghost predicate NewestFirst(vms: seq<Vm>, order: seq<nat>) {
    forall j, k :: 0 <= j < k < |order| && order[j] < |vms| && order[k] < |vms| ==>
      vms[order[j]].created >= vms[order[k]].created
  }

  /** `Daemon.Active[v.UUID].gracefullyShutdown()` reaches a process. */
  predicate CanSignal(s: State, i: nat) {
    i < |s.vms| &&
    var uuid := s.vms[i].config.uuid;
    uuid in s.active && s.active[uuid] < |s.vms| && s.vms[s.active[uuid]].process.Some?
  }

  function StopSignalled(s: State): State {
    if s.stop.Stopping? && !s.stop.awaiting && s.stop.todo != [] then
      var head := s.stop.todo[0];
      s.(stop := if CanSignal(s, head) then Stopping(s.stop.todo, true, s.stop.log + [head]) else StopPanicked)
    else s
  }

  function StopPolled(s: State): State {
    if s.stop.Stopping? && s.stop.awaiting && s.stop.todo != [] && s.stop.todo[0] < |s.vms| &&
       s.vms[s.stop.todo[0]].config.uuid !in s.active
    then s.(stop := Stopping(s.stop.todo[1..], false, s.stop.log))
    else s
  }

  function StopReturned(s: State): State {
    if s.stop.Stopping? && s.stop.todo == [] then s.(stop := Stopped(s.stop.log), oops := true) else s
  }

  predicate DaemonIsUp(s: State) { s.fault.None? && !s.closed }

  ghost function Next(env: Env, s: State, e: Event): State {
    if s.closed || s.fault.Some? then s
    else match e
      case Admit(config, now, runDirOk) => Admitted(s, config, now, runDirOk)
      case Start(i, process) => if i < |s.vms| then RunnerStarted(s, i, process) else s
      case Exit(i) => if i < |s.vms| then RunnerExited(env, s, i) else s
      case Timeout(i) => if i < |s.vms| then Apply(s, i, TimedOut(s.vms[i])) else s
      case Expire(i) => if i < |s.vms| then Apply(s, i, Expired(s.vms[i])) else s
      case TakeIP(i) => if i < |s.vms| then Apply(s, i, TookIP(s.vms[i])) else s
      case Answer(i, preferError) => if i < |s.vms| then Apply(s, i, Answered(s.vms[i], preferError)) else s
      case Callback(uuid, addr) =>
        if FromGuest(env, s, uuid, addr) && s.active[uuid] < |s.vms|
        then Apply(s, s.active[uuid], CalledBack(s.vms[s.active[uuid]], addr)) else s
      case Ignition(uuid, addr) =>
        if FromGuest(env, s, uuid, addr) && s.active[uuid] < |s.vms| then Ignited(env, s, uuid, addr) else s
      case Connectivity(uuid, addr) =>
        if FromGuest(env, s, uuid, addr) && s.active[uuid] < |s.vms|
        then Apply(s, s.active[uuid], CheckedIsolation(s.vms[s.active[uuid]])) else s
      case StopCall(order) =>
        if s.accepting && s.stop == NotStopping && StopOrder(s, order)
        then s.(accepting := false, stop := Stopping(order, false, [])) else s
      case StopSignal => StopSignalled(s)
      case StopPoll => StopPolled(s)
      case StopReturn => StopReturned(s)
      case Oops => s.(oops := true)
      case Wake => if s.oops then s.(accepting := false, woken := true) else s
      case Close =>
        if s.woken && s.jobs == 0
        then s.(closed := true, store := Removed(s.store, env.domain, RESERVED_HOST, env.hostIP)) else s
  }

  function Init(env: Env): State {
    State(true, [], map[], 0,
          Added(Added(map[], env.domain, RESERVED_HOST, env.hostIP), env.domain, NAMESERVER_HOST, env.hostIP),
          NotStopping, false, false, false, None)
  }

  ghost function Run(env: Env, s: State, events: seq<Event>): State
    decreases events
  {
    if events == [] then s else Run(env, Next(env, s, events[0]), events[1..])
  }

  ghost predicate Reachable(env: Env, s: State) {
    exists events: seq<Event> :: Run(env, Init(env), events) == s
  }
}
