/** The daemon's code, one method for each uninterrupted stretch of it, proved against the state
    machine of module Lifecycle. */
module Daemon {
  import opened Text
  import opened Dns
  import opened Lifecycle
  import opened LifecycleInvariants
  import Sorting

  /** One Run request's VM. `index` stands for the object's identity. */
  class VMInfo {
    const config: Config
    ghost const index: nat
    var creationTime: nat
    var publicIPCh: Chan<string>
    var errCh: Chan<Failure>
    var done: bool
    var callBackUsed: bool
    var isolationUsed: bool
    var notIsolated: bool
    var publicIP: string
    var pid: Option<nat>
    var process: Option<nat>
    var watcher: Watcher
    var runner: Runner
    var reply: Option<Reply>
    var announced: Option<string>

    /** A VM as a Run request sets it up; without a run directory it gets no goroutines. */
    constructor (config: Config, ghost index: nat, now: nat, runDirOk: bool)
      ensures this.config == config && this.index == index && View() == Fresh(config, now, runDirOk)
    {
      this.config := config;
      this.index := index;
      creationTime := if runDirOk then now else 0;
      publicIPCh, errCh, done := Chan([], 0, false), Chan([], 0, false), false;
      callBackUsed, isolationUsed, notIsolated := false, false, false;
      publicIP, pid, process := "", None, None;
      watcher := if runDirOk then Waiting else Absent;
      runner := if runDirOk then Queued else Missing;
      reply := if runDirOk then None else Some(Failed(NoRunDir));
      announced := None;
    }

    ghost function View(): Vm
      reads this
    {
      Vm(config, creationTime, publicIPCh, errCh, done, callBackUsed, isolationUsed, notIsolated,
         publicIP, pid, process, watcher, runner, reply, announced)
    }

    /** This VM is as `outcome` says, given what it was `before`; a panic is reported. */
    ghost predicate Performed(before: Vm, outcome: Outcome, fault: Option<Fault>)
      reads this
    {
      match outcome
      case Changed(after) => fault.None? && View() == after
      case Unchanged => fault.None? && View() == before
      case Panic(f) => fault == Some(f) && View() == before
    }

    /** The runner goroutine starts the process, or fails to. */
    method Start(process: Option<nat>) returns (fault: Option<Fault>)
      requires runner == Queued
      modifies this
      ensures Performed(old(View()), old(Started(View(), process)), fault)
    {
      fault := None;
      if process.Some? {
        this.process, runner := process, Up;
      } else {
        match Send(errCh, NotStarted) {
          case Delivered(ch) => errCh, runner := ch, Unstarted;
          case Blocked => fault := Some(SendBlocked);
          case OnClosed => fault := Some(SendOnClosed);
        }
      }
    }

    /** The watcher's timeout: record the process and signal it. */
    method TimeOut() returns (fault: Option<Fault>)
      requires watcher == Waiting
      modifies this
      ensures Performed(old(View()), old(TimedOut(View())), fault)
    {
      if process.None? {
        return Some(NilProcess);
      }
      pid := process;
      watcher := Terminating;
      fault := None;
    }

    /** The second timeout: kill the process and fail the request. */
    method GiveUp() returns (fault: Option<Fault>)
      requires watcher == Terminating
      modifies this
      ensures Performed(old(View()), old(Expired(View())), fault)
    {
      fault := None;
      match Send(errCh, NoIPInTime) {
        case Delivered(ch) => errCh, watcher := ch, Over;
        case Blocked => fault := Some(SendBlocked);
        case OnClosed => fault := Some(SendOnClosed);
      }
    }

    /** The watcher receives the address. */
    method TakeIP() returns (fault: Option<Fault>)
      requires watcher == Waiting && publicIPCh.queue != []
      modifies this
      ensures Performed(old(View()), old(TookIP(View())), fault)
    {
      var ip := publicIPCh.queue[0];
      if process.None? {
        return Some(NilProcess);
      }
      if publicIPCh.closed || done {
        return Some(DoubleClose);
      }
      pid, publicIP := process, ip;
      publicIPCh := publicIPCh.(queue := publicIPCh.queue[1..], closed := true);
      done := true;
      watcher := Over;
      fault := None;
    }

    /** The select that ends a Run request, once one of its channels is ready. */
    method AnswerRequest(preferError: bool)
      requires reply.None? && (done || errCh.queue != [])
      modifies this
      ensures Performed(old(View()), old(Answered(View(), preferError)), None)
      ensures reply.Some?
    {
      if done && !(preferError && errCh.queue != []) {
        if |publicIP| == 0 {
          reply := Some(Failed(EndedTooEarly));
        } else {
          reply := Some(Booted(publicIP));
        }
      } else {
        reply := Some(Failed(errCh.queue[0]));
        errCh := errCh.(queue := errCh.queue[1..]);
      }
    }

    /** callBack.Do: the first report is sent on. */
    method CallBack(addr: string) returns (fault: Option<Fault>)
      modifies this
      ensures Performed(old(View()), old(CalledBack(View(), addr)), fault)
    {
      fault := None;
      if !callBackUsed {
        match Send(publicIPCh, addr) {
          case Delivered(ch) => callBackUsed, publicIPCh := true, ch;
          case Blocked => fault := Some(SendBlocked);
          case OnClosed => fault := Some(SendOnClosed);
        }
      }
    }

    /** isolationCheck.Do. */
    method CheckIsolation()
      modifies this
      ensures Performed(old(View()), old(CheckedIsolation(View())), None)
    {
      if !isolationUsed {
        isolationUsed, notIsolated := true, true;
      }
    }
  }

  datatype StopPhase = Idle | Looping | Panicked | Returned

  class ServerContext {
    const env: Env
    const dns: DNSServer
    var acceptingRequests: bool
    var active: map<string, VMInfo>
    var jobs: nat
    var oops: bool
    var woken: bool
    var closed: bool
    var fault: Option<Fault>
    // The Stop request: where it is, the VMs it still has to stop, those it has signalled.
    var stopPhase: StopPhase
    var todo: seq<VMInfo>
    var awaiting: bool
    var log: seq<VMInfo>
    /** Every VM ever admitted, in order. */
    ghost var all: seq<VMInfo>

    ghost predicate Known(vm: VMInfo)
      reads this
    {
      vm.index < |all| && all[vm.index] == vm
    }

    ghost predicate Valid()
      reads this
    {
      && dns.domain == env.domain
      && (forall i :: 0 <= i < |all| ==> all[i].index == i)
      && (forall u :: u in active ==> Known(active[u]))
      && (forall i :: 0 <= i < |todo| ==> Known(todo[i]))
      && (forall i :: 0 <= i < |log| ==> Known(log[i]))
      && (stopPhase != Idle ==> !acceptingRequests)
    }

    static ghost function Indices(list: seq<VMInfo>): seq<nat> {
      seq(|list|, i requires 0 <= i < |list| => list[i].index)
    }

    ghost function Vms(): seq<Vm>
      reads this, all
    {
      seq(|all|, i requires 0 <= i < |all| reads this, all => all[i].View())
    }

    ghost function Entries(): map<string, nat>
      reads this
    {
      map u | u in active :: active[u].index
    }

    ghost function Stage(): Stopping
      reads this
    {
      match stopPhase
      case Idle => NotStopping
      case Looping => Stopping(Indices(todo), awaiting, Indices(log))
      case Panicked => StopPanicked
      case Returned => Stopped(Indices(log))
    }

    ghost function Abs(): State
      reads this, all, dns
    {
      State(acceptingRequests, Vms(), Entries(), jobs, dns.store, Stage(), oops, woken, closed, fault)
    }

    /** Changing one VM changes its place in the list and no other. */
    twostate lemma OneVmChanged(vm: VMInfo)
      requires old(Valid()) && all == old(all) && Known(vm)
      requires forall i :: 0 <= i < |all| && all[i] != vm ==> unchanged(all[i])
      ensures Vms() == old(Vms())[vm.index := vm.View()]
      ensures old(Vms())[vm.index] == old(vm.View())
      ensures vm.View() == old(vm.View()) ==> Vms() == old(Vms())
    {
      assert old(Vms())[vm.index := old(vm.View())] == old(Vms());
    }

    twostate lemma OneVmAdded(uuid: string, new vm: VMInfo)
      requires old(Valid()) && all == old(all) + [vm] && active == old(active)[uuid := vm]
      requires forall i :: 0 <= i < |old(all)| ==> unchanged(old(all)[i])
      ensures Vms() == old(Vms()) + [vm.View()]
      ensures Entries() == old(Entries())[uuid := vm.index]
    {
    }

    /** The daemon is up. */
    ghost predicate Up()
      reads this
    {
      !closed && fault.None?
    }

    constructor (env: Env)
      ensures Valid() && fresh(dns) && this.env == env && Abs() == Init(env)
    {
      this.env := env;
      dns := new DNSServer(env.domain, env.hostIP);
      acceptingRequests, active, jobs := true, map[], 0;
      oops, woken, closed, fault := false, false, false, None;
      stopPhase, todo, awaiting, log := Idle, [], false, [];
      all := [];
    }

    // ---- Registering ----

    method Lookup(config: Config) returns (taken: bool)
      requires Valid()
      ensures taken <==> Taken(Abs(), config)
    {
      if config.uuid in active {
        return true;
      }
      var rest := active.Keys;
      while rest != {}
        invariant rest <= active.Keys
        invariant forall u :: u in active && u !in rest ==> active[u].config.name != config.name
      {
        var u :| u in rest;
        if active[u].config.name == config.name {
          assert Abs().active[u] == active[u].index && Abs().vms[active[u].index].config.name == config.name;
          return true;
        }
        rest := rest - {u};
      }
      return false;
    }

    /** The part of a Run request up to its goroutines. */
    method Admit(config: Config, now: nat, runDirOk: bool) returns (refusal: Option<Refusal>, vm: VMInfo?)
      requires Valid() && Up()
      modifies this
      ensures Valid()
      ensures refusal == old(RefusalOf(Abs(), config))
      ensures refusal.None? ==> vm != null && fresh(vm) && all == old(all) + [vm]
      ensures Abs() == old(Admitted(Abs(), config, now, runDirOk))
    {
      if !acceptingRequests {
        return Some(ShuttingDown), null;
      }
      if config.name == RESERVED_HOST {
        return Some(ReservedName), null;
      }
      var taken := Lookup(config);
      if taken {
        return Some(AlreadyRunning), null;
      }
      vm := Enter(config, now, runDirOk);
      refusal := None;
    }

    /** Inserting a VM, and what Run does with it before its goroutines start. */
    method Enter(config: Config, now: nat, runDirOk: bool) returns (vm: VMInfo)
      requires Valid()
      modifies this
      ensures Valid() && fresh(vm) && all == old(all) + [vm]
      ensures Abs() == old(Abs()).(vms := old(Abs()).vms + [Fresh(config, now, runDirOk)],
                                   active := old(Abs()).active[config.uuid := |old(Abs()).vms|])
    {
      vm := new VMInfo(config, |all|, now, runDirOk);
      active := active[config.uuid := vm];
      all := all + [vm];
      OneVmAdded(config.uuid, vm);
      assert Stage() == old(Stage());
    }

    // ---- The runner ----

    method StartRunner(vm: VMInfo, process: Option<nat>)
      requires Valid() && Up() && Known(vm) && vm.runner == Queued
      modifies this`fault, this`jobs, vm
      ensures Valid() && Abs() == old(RunnerStarted(Abs(), vm.index, process))
    {
      assert Abs().vms[vm.index] == vm.View();
      Launch(vm, process);
      ghost var t := Abs();
      jobs := jobs + 1;
      assert Vms() == t.vms && Entries() == t.active && Stage() == t.stop;
    }

    /** exec.Start, with its error passed on. */
    method Launch(vm: VMInfo, process: Option<nat>)
      requires Valid() && Up() && Known(vm) && vm.runner == Queued
      modifies this`fault, vm
      ensures Valid() && Abs() == old(Apply(Abs(), vm.index, Started(vm.View(), process)))
    {
      var panic := vm.Start(process);
      fault := panic;
      OneVmChanged(vm);
      assert Entries() == old(Entries()) && Stage() == old(Stage());
    }

    method EndRunner(vm: VMInfo)
      requires Valid() && Up() && Known(vm) && vm.runner in {Runner.Up, Unstarted}
      modifies this`fault, this`active, this`jobs, vm`runner, dns
      ensures Valid() && Abs() == old(RunnerExited(env, Abs(), vm.index))
    {
      if jobs == 0 {
        Fail(NegativeJobs);
      } else {
        Deregister(vm);
        jobs := jobs - 1;
        assert Vms() == old(Vms())[vm.index := old(vm.View()).(runner := Gone)];
      }
    }

    method Fail(f: Fault)
      requires Valid()
      modifies this`fault
      ensures Valid() && Abs() == old(Abs()).(fault := Some(f))
    {
      fault := Some(f);
      assert Vms() == old(Vms()) && Entries() == old(Entries()) && Stage() == old(Stage());
    }

    /** deregister(), with which the runner's life ends. */
    method Deregister(vm: VMInfo)
      requires Valid() && Known(vm)
      modifies this`active, vm`runner, dns
      ensures Valid()
      ensures dns.store == Removed(old(dns.store), env.domain, vm.config.name, vm.publicIP)
      ensures Entries() == old(Entries()) - {vm.config.uuid}
      ensures Vms() == old(Vms())[vm.index := old(vm.View()).(runner := Gone)]
      ensures old(Vms())[vm.index] == old(vm.View()) && Stage() == old(Stage())
    {
      var removed := dns.RmRecord(vm.config.name, vm.publicIP);
      active := active - {vm.config.uuid};
      vm.runner := Gone;
      OneVmChanged(vm);
    }

    // ---- The watcher and the reply ----

    method WatcherTimesOut(vm: VMInfo)
      requires Valid() && Up() && Known(vm) && vm.watcher == Waiting
      modifies this, vm
      ensures Valid() && Abs() == old(Next(env, Abs(), Timeout(vm.index)))
    {
      var panic := vm.TimeOut();
      fault := panic;
      OneVmChanged(vm);
      assert Entries() == old(Entries()) && Stage() == old(Stage());
    }

    method WatcherGivesUp(vm: VMInfo)
      requires Valid() && Up() && Known(vm) && vm.watcher == Terminating
      modifies this, vm
      ensures Valid() && Abs() == old(Next(env, Abs(), Expire(vm.index)))
    {
      var panic := vm.GiveUp();
      fault := panic;
      OneVmChanged(vm);
      assert Entries() == old(Entries()) && Stage() == old(Stage());
    }

    method WatcherTakesIP(vm: VMInfo)
      requires Valid() && Up() && Known(vm) && vm.watcher == Waiting && vm.publicIPCh.queue != []
      modifies this, vm
      ensures Valid() && Abs() == old(Next(env, Abs(), TakeIP(vm.index)))
    {
      var panic := vm.TakeIP();
      fault := panic;
      OneVmChanged(vm);
      assert Entries() == old(Entries()) && Stage() == old(Stage());
    }

    method AnswerRun(vm: VMInfo, preferError: bool)
      requires Valid() && Up() && Known(vm) && vm.reply.None? && (vm.done || vm.errCh.queue != [])
      modifies vm
      ensures Valid() && Abs() == old(Next(env, Abs(), Answer(vm.index, preferError)))
      ensures vm.reply.Some?
    {
      vm.AnswerRequest(preferError);
      OneVmChanged(vm);
      assert Entries() == old(Entries()) && Stage() == old(Stage());
    }

    // ---- The HTTP handlers ----

    method AcceptableRequest(uuid: string, addr: string) returns (status: HttpStatus)
      requires Valid()
      ensures status == RequestStatus(env, Abs(), uuid, addr)
      ensures status == Accepted <==> (addr in env.network || "127." <= addr) && uuid in active
      ensures status == NotFound <==> (addr in env.network || "127." <= addr) && uuid !in active
    {
      status := Unauthorized;
      if IsLoopback(addr) || addr in env.network {
        if uuid in active {
          return Accepted;
        }
        status := NotFound;
      }
    }

    method InstanceCallback(uuid: string, addr: string) returns (status: HttpStatus)
      requires Valid() && Up()
      modifies this`fault, if uuid in active then {active[uuid]} else {}
      ensures Valid() && Abs() == old(Next(env, Abs(), Callback(uuid, addr)))
      ensures status == Accepted <==> addr in env.network && !("127." <= addr) && uuid in old(active)
      ensures status == NotFound <==> (addr in env.network || "127." <= addr) && uuid !in old(active)
    {
      status := AcceptableRequest(uuid, addr);
      if status == Accepted {
        if IsLoopback(addr) {
          return Unauthorized;
        }
        assert Abs().active[uuid] == active[uuid].index && Abs().vms[active[uuid].index] == active[uuid].View();
        PassOn(active[uuid], addr);
      }
    }

    /** callBack.Do on one VM. */
    method PassOn(vm: VMInfo, addr: string)
      requires Valid() && Up() && Known(vm)
      modifies this`fault, vm
      ensures Valid() && Abs() == old(Apply(Abs(), vm.index, CalledBack(vm.View(), addr)))
    {
      var panic := vm.CallBack(addr);
      fault := panic;
      OneVmChanged(vm);
      assert Entries() == old(Entries()) && Stage() == old(Stage());
    }

    method InstanceConnectivity(uuid: string, addr: string) returns (status: HttpStatus)
      requires Valid() && Up()
      modifies if uuid in active then {active[uuid]} else {}
      ensures Valid() && Abs() == old(Next(env, Abs(), Connectivity(uuid, addr)))
      ensures status == Accepted <==> addr in env.network && !("127." <= addr) && uuid in old(active)
      ensures status == NotFound <==> (addr in env.network || "127." <= addr) && uuid !in old(active)
    {
      status := AcceptableRequest(uuid, addr);
      if status == Accepted {
        if IsLoopback(addr) {
          return Unauthorized;
        }
        var vm := active[uuid];
        assert Abs().active[uuid] == vm.index;
        vm.CheckIsolation();
        OneVmChanged(vm);
        assert Entries() == old(Entries()) && Stage() == old(Stage());
      }
    }

    /** The ignition handler, as far as it touches the daemon: once the configuration is rendered. */
    method InstanceIgnition(uuid: string, addr: string) returns (status: HttpStatus)
      requires Valid() && Up()
      modifies dns, if uuid in active then {active[uuid]} else {}
      ensures Valid() && Abs() == old(Next(env, Abs(), Ignition(uuid, addr)))
      ensures status == Accepted <==> (addr in env.network || "127." <= addr) && uuid in old(active)
      ensures status == NotFound <==> (addr in env.network || "127." <= addr) && uuid !in old(active)
    {
      status := AcceptableRequest(uuid, addr);
      if status == Accepted && !IsLoopback(addr) {
        assert Abs().active[uuid] == active[uuid].index && Abs().vms[active[uuid].index] == active[uuid].View();
        Announce(active[uuid], addr);
      }
    }

    method Announce(vm: VMInfo, addr: string)
      requires Valid() && Known(vm)
      modifies dns, vm`announced
      ensures Valid()
      ensures Abs() == old(Abs()).(vms := old(Abs()).vms[vm.index := old(vm.View()).(announced := Some(addr))],
                                   store := Added(old(Abs()).store, env.domain, vm.config.name, addr))
    {
      dns.AddRecord(vm.config.name, addr);
      vm.announced := Some(addr);
      OneVmChanged(vm);
      assert vm.View() == old(vm.View()).(announced := Some(addr));
      assert Entries() == old(Entries()) && Stage() == old(Stage());
    }

    // ---- Shutting down ----

    /** The registered VMs, in whatever order the map gives them. */
    method Array() returns (out: seq<VMInfo>)
      requires Valid() && EntriesAreOwn(Abs())
      ensures forall vm :: vm in out <==> exists u :: u in active && active[u] == vm
      ensures Sorting.Distinct(out)
    {
      out := [];
      var rest := active.Keys;
      while rest != {}
        invariant rest <= active.Keys
        invariant forall vm :: vm in out <==> exists u :: u in active && u !in rest && active[u] == vm
        invariant Sorting.Distinct(out)
      {
        var u :| u in rest;
        forall w | w in active && active[w] == active[u] ensures w == u {
          assert Abs().active[w] == Abs().active[u];
          assert Abs().vms[Abs().active[w]].config.uuid == w && Abs().vms[Abs().active[u]].config.uuid == u;
        }
        ghost var before := out;
        out := out + [active[u]];
        forall i, j | 0 <= i < j < |out| ensures out[i] != out[j] {
          if j == |before| {
            assert out[i] in before;
          } else {
            assert before[i] != before[j];
          }
        }
        forall vm ensures vm in out <==> exists w :: w in active && w !in rest - {u} && active[w] == vm {
          assert vm in out <==> vm in before || vm == active[u];
        }
        rest := rest - {u};
      }
    }

    static ghost predicate Descending(list: seq<VMInfo>)
      reads list
    {
      forall i, j :: 0 <= i < j < |list| ==> list[i].creationTime >= list[j].creationTime
    }

    static method InsertByTime(list: seq<VMInfo>, vm: VMInfo) returns (out: seq<VMInfo>)
      requires Descending(list)
      ensures Descending(out) && multiset(out) == multiset(list) + multiset{vm}
    {
      var p := 0;
      while p < |list| && list[p].creationTime >= vm.creationTime
        invariant p <= |list|
        invariant forall i :: 0 <= i < p ==> list[i].creationTime >= vm.creationTime
      {
        p := p + 1;
      }
      out := list[..p] + [vm] + list[p..];
      InsertedInOrder(list, p, vm);
      Sorting.InsertedElements(list, p, vm);
    }

    static lemma InsertedInOrder(list: seq<VMInfo>, p: nat, vm: VMInfo)
      requires Descending(list) && p <= |list|
      requires forall i :: 0 <= i < p ==> list[i].creationTime >= vm.creationTime
      requires p < |list| ==> list[p].creationTime <= vm.creationTime
      ensures Descending(list[..p] + [vm] + list[p..])
    {
      var out := list[..p] + [vm] + list[p..];
      assert forall i :: 0 <= i < |out| ==> out[i] == if i < p then list[i] else if i == p then vm else list[i - 1];
    }

    /** sort.Sort(sort.Reverse(list)): newest first. */
    static method NewestFirstOrder(list: seq<VMInfo>) returns (out: seq<VMInfo>)
      ensures multiset(out) == multiset(list) && Descending(out)
    {
      out := [];
      for n := 0 to |list|
        invariant multiset(out) == multiset(list[..n]) && Descending(out)
      {
        out := InsertByTime(out, list[n]);
        assert list[..n + 1] == list[..n] + [list[n]];
      }
      assert list[..|list|] == list;
    }

    /** All registered VMs, newest first. */
    method StopList() returns (sorted: seq<VMInfo>)
      requires Valid() && EntriesAreOwn(Abs())
      ensures StopOrder(Abs(), Indices(sorted))
      ensures forall i :: 0 <= i < |sorted| ==> Known(sorted[i])
    {
      var list := Array();
      sorted := NewestFirstOrder(list);
      Sorting.SameMultisetSameElements(list, sorted);
      Sorting.PermutationKeepsDistinct(list, sorted);
      ListsActive(sorted, Indices(sorted));
      forall i | 0 <= i < |sorted| ensures Known(sorted[i]) { assert sorted[i] in sorted; }
    }

    method BeginStop() returns (refusal: Option<Refusal>, ghost order: seq<nat>)
      requires Valid() && Up() && EntriesAreOwn(Abs())
      modifies this`acceptingRequests, this`stopPhase, this`todo, this`awaiting, this`log
      ensures Valid()
      ensures refusal == if old(acceptingRequests) then None else Some(ShuttingDown)
      ensures refusal.Some? ==> Abs() == old(Abs())
      ensures refusal.None? ==>
                old(StopOrder(Abs(), order)) &&
                    Abs() == old(Abs()).(accepting := false, stop := Stopping(order, false, []))
    {
      if !acceptingRequests {
        order := [];
        return Some(ShuttingDown), order;
      }
      var sorted := StopList();
      order, refusal := Indices(sorted), None;
      TakeList(sorted);
    }

    method TakeList(sorted: seq<VMInfo>)
      requires Valid() && forall i :: 0 <= i < |sorted| ==> Known(sorted[i])
      modifies this`acceptingRequests, this`stopPhase, this`todo, this`awaiting, this`log
      ensures Valid() && Abs() == old(Abs()).(accepting := false, stop := Stopping(Indices(sorted), false, []))
    {
      acceptingRequests := false;
      stopPhase, todo, awaiting, log := Looping, sorted, false, [];
      assert Vms() == old(Vms()) && Entries() == old(Entries());
      assert Indices([]) == [];
    }

    lemma ListsActive(sorted: seq<VMInfo>, order: seq<nat>)
      requires Valid() && order == Indices(sorted)
      requires forall vm :: vm in sorted <==> exists u :: u in active && active[u] == vm
      requires Sorting.Distinct(sorted)
      requires Descending(sorted)
      ensures StopOrder(Abs(), order)
    {
      forall k | 0 <= k < |sorted| ensures Known(sorted[k]) {
        assert sorted[k] in sorted;
      }
      forall j, k | 0 <= j < k < |order| ensures order[j] != order[k] {
        assert all[sorted[j].index] == sorted[j] && all[sorted[k].index] == sorted[k];
      }
      forall i ensures i in order <==> i in Abs().active.Values {
        if i in order {
          var k :| 0 <= k < |order| && order[k] == i;
          assert sorted[k] in sorted;
          var u :| u in active && active[u] == sorted[k];
          assert Abs().active[u] == i;
        }
        if i in Abs().active.Values {
          var u :| u in active && Abs().active[u] == i;
          assert active[u] in sorted;
          var k :| 0 <= k < |sorted| && sorted[k] == active[u];
          assert order[k] == i;
        }
      }
      forall k | 0 <= k < |order| ensures order[k] < |all| && Abs().vms[order[k]].created == sorted[k].creationTime {
        assert Known(sorted[k]);
      }
    }

    /** The loop asks the next VM's process to terminate. */
    method StopSignalNext()
      requires Valid() && Up() && stopPhase == Looping && !awaiting && todo != []
      modifies this`stopPhase, this`awaiting, this`log
      ensures Valid() && Abs() == old(StopSignalled(Abs()))
    {
      var v := todo[0];
      HeadCanBeSignalled(v);
      SignalledIs(Abs(), v.index);
      if v.config.uuid !in active || active[v.config.uuid].process.None? {
        GivePanic();
      } else {
        Await(v);
      }
    }

    method GivePanic()
      requires Valid() && stopPhase == Looping
      modifies this`stopPhase
      ensures Valid() && Abs() == old(Abs()).(stop := StopPanicked)
    {
      stopPhase := Panicked;
      OnlyStopMoved();
    }

    method Await(v: VMInfo)
      requires Valid() && stopPhase == Looping && Known(v)
      modifies this`awaiting, this`log
      ensures Valid() && Abs() == old(Abs()).(stop := Stopping(Indices(todo), true, old(Indices(log)) + [v.index]))
    {
      LogGrows(log, v);
      awaiting, log := true, log + [v];
      OnlyStopMoved();
    }

    /** Nothing but the Stop request's own progress has changed. */
    twostate lemma OnlyStopMoved()
      requires old(Valid()) && all == old(all) && active == old(active)
      requires acceptingRequests == old(acceptingRequests) && jobs == old(jobs) && fault == old(fault)
      requires oops == old(oops) && woken == old(woken) && closed == old(closed)
      requires unchanged(dns) && forall i :: 0 <= i < |all| ==> unchanged(all[i])
      ensures Abs() == old(Abs()).(stop := Stage())
    {
      assert Vms() == old(Vms()) && Entries() == old(Entries());
    }

    static lemma SignalledIs(s: State, h: nat)
      requires s.stop.Stopping? && !s.stop.awaiting && s.stop.todo != [] && s.stop.todo[0] == h
      ensures StopSignalled(s) ==
              s.(stop := if CanSignal(s, h) then Stopping(s.stop.todo, true, s.stop.log + [h]) else StopPanicked)
    {
    }

    static lemma LogGrows(log: seq<VMInfo>, v: VMInfo)
      ensures Indices(log + [v]) == Indices(log) + [v.index]
    {
    }

    lemma HeadCanBeSignalled(v: VMInfo)
      requires Valid() && Known(v)
      ensures CanSignal(Abs(), v.index) <==> v.config.uuid in active && active[v.config.uuid].process.Some?
    {
      assert Vms()[v.index].config == v.config;
      if v.config.uuid in active {
        var w := active[v.config.uuid];
        assert Known(w) && Entries()[v.config.uuid] == w.index && Vms()[w.index] == w.View();
      }
    }

    /** The loop looks whether the VM it signalled is still registered. */
    method StopPollNext() returns (stillAlive: bool)
      requires Valid() && Up() && stopPhase == Looping && awaiting && todo != []
      modifies this`todo, this`awaiting
      ensures Valid() && Abs() == old(Next(env, Abs(), StopPoll))
      ensures stillAlive <==> old(todo[0].config.uuid in active)
    {
      stillAlive := todo[0].config.uuid in active;
      if !stillAlive {
        todo := todo[1..];
        awaiting := false;
        assert Indices(todo) == old(Indices(todo))[1..];
      }
    }

    method EndStop()
      requires Valid() && Up() && stopPhase == Looping && todo == []
      modifies this`stopPhase, this`oops
      ensures Valid() && Abs() == old(Next(env, Abs(), StopReturn))
    {
      stopPhase := Returned;
      oops := true;
    }

    /** The main goroutine receives from Oops and refuses further requests. */
    method WakeMain()
      requires Valid() && Up() && oops
      modifies this
      ensures Valid() && Abs() == old(Next(env, Abs(), Wake))
    {
      acceptingRequests := false;
      woken := true;
    }

    /** The jobs are done: the server closes, and the name service is torn down. */
    method CloseServer()
      requires Valid() && Up() && woken && jobs == 0
      modifies this, dns
      ensures Valid() && Abs() == old(Next(env, Abs(), Close))
    {
      closed := true;
      var removed := dns.RmRecord(RESERVED_HOST, env.hostIP);
    }
  }
}
