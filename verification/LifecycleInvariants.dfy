/** The invariants of the daemon's state machine and their preservation by every event. */
module LifecycleInvariants {
  import opened Text
  import opened Dns
  import opened Lifecycle

  // ---- One VM ----

  predicate StartError(v: Vm) { v.runner == Unstarted || (v.runner == Gone && v.process.None?) }

  predicate GaveUp(v: Vm) { v.watcher == Over && !v.done }

  /** Channels, goroutines and reply of one Run request agree. */
  ghost predicate VmInv(v: Vm) {
    && v.config.name != RESERVED_HOST
    && |v.publicIPCh.queue| <= v.publicIPCh.sent == (if v.callBackUsed then 1 else 0)
    && (v.publicIPCh.queue != [] ==> v.publicIPCh.queue[0] != "")
    && v.publicIPCh.closed == v.done
    && !v.errCh.closed
    && (v.done ==> v.callBackUsed && v.publicIPCh.queue == [] && v.publicIP != "" && v.process.Some? &&
                   v.pid == v.process && v.watcher == Over)
    && (!v.done ==> v.publicIP == "")
    && (v.watcher == Terminating ==> v.process.Some?)
    && (v.watcher == Over ==> v.process.Some?)
    && (v.watcher == Absent <==> v.runner == Missing)
    && |v.errCh.queue| <= v.errCh.sent == (if StartError(v) || GaveUp(v) then 1 else 0)
    && (v.runner == Up ==> v.process.Some?)
    && (v.runner == Queued || v.runner == Unstarted || v.runner == Missing ==> v.process.None?)
    && match v.reply
       case None => v.runner != Missing && |v.errCh.queue| == v.errCh.sent
       case Some(Booted(ip)) => v.done && ip == v.publicIP
       case Some(Failed(NoRunDir)) => v.runner == Missing && v.errCh.sent == 0
       case Some(Failed(NotStarted)) => StartError(v) && v.errCh.queue == []
       case Some(Failed(NoIPInTime)) => GaveUp(v) && v.errCh.queue == []
       case Some(Failed(EndedTooEarly)) => false
  }

  /** What waits in errCh says which way the request failed. */
  ghost predicate ErrorMatches(v: Vm) {
    v.errCh.queue != [] ==> v.errCh.queue[0] == (if StartError(v) then NotStarted else NoIPInTime)
  }

  ghost predicate Sound(v: Vm) { VmInv(v) && ErrorMatches(v) }

  /** How far the watcher is from its end; it never goes back. */
  function ToWatch(w: Watcher): nat {
    match w
    case Waiting => 2
    case Terminating => 1
    case Over => 0
    case Absent => 0
  }

  /** A stretch of code keeps the VM sound, keeps it in or out of the registry, and does not panic
      except on a process that was never started. */
  ghost predicate Keeps(v: Vm, outcome: Outcome) {
    match outcome
    case Changed(w) =>
      && Sound(w) && w.config == v.config && w.created == v.created && w.announced == v.announced
      && (w.runner == Gone <==> v.runner == Gone) && (v.runner != Queued ==> w.runner == v.runner)
      && (v.process.Some? ==> w.process == v.process)
      && (v.reply.Some? ==> w.reply == v.reply) && ToWatch(w.watcher) <= ToWatch(v.watcher)
    case Unchanged => true
    case Panic(fault) => fault == NilProcess && v.process.None? && v.watcher == Waiting
  }

  ghost predicate KeepsRunning(v: Vm, outcome: Outcome) {
    Keeps(v, outcome) && (outcome.Changed? ==> outcome.vm.runner == v.runner)
  }

  lemma FreshIsSound(config: Config, now: nat, runDirOk: bool)
    requires config.name != RESERVED_HOST
    ensures Sound(Fresh(config, now, runDirOk))
  {
  }

  lemma StartedKeeps(v: Vm, process: Option<nat>)
    requires Sound(v)
    ensures Keeps(v, Started(v, process)) && !Started(v, process).Panic?
    ensures Started(v, process).Changed? <==> v.runner == Queued
    ensures v.runner == Queued ==>
              Sound(Started(v, process).vm) && Started(v, process).vm.config == v.config &&
              Started(v, process).vm.runner == if process.Some? then Up else Unstarted
  {
  }

  lemma WatcherKeeps(v: Vm)
    requires Sound(v)
    ensures KeepsRunning(v, TimedOut(v)) && KeepsRunning(v, Expired(v)) && KeepsRunning(v, TookIP(v)) &&
            !Expired(v).Panic?
  {
  }

  lemma AnsweredKeeps(v: Vm, preferError: bool)
    requires Sound(v)
    ensures KeepsRunning(v, Answered(v, preferError)) && !Answered(v, preferError).Panic?
  {
  }

  /** A guest's report never blocks the daemon, and never reaches a closed channel. */
  lemma HandlersKeep(v: Vm, addr: string)
    requires Sound(v) && addr != ""
    ensures KeepsRunning(v, CalledBack(v, addr)) && !CalledBack(v, addr).Panic?
    ensures KeepsRunning(v, CheckedIsolation(v)) && !CheckedIsolation(v).Panic?
  {
  }

  lemma GoneKeeps(v: Vm)
    requires Sound(v) && (v.runner == Up || v.runner == Unstarted)
    ensures Sound(v.(runner := Gone))
  {
  }

  // ---- The registry ----

  ghost predicate SoundVms(vms: seq<Vm>) { forall i :: 0 <= i < |vms| ==> Sound(vms[i]) }

  /** Every entry belongs to the VM whose UUID it is filed under. */
  ghost predicate OwnEntries(vms: seq<Vm>, active: map<string, nat>) {
    forall u :: u in active ==>
      active[u] < |vms| && vms[active[u]].config.uuid == u && vms[active[u]].runner != Gone
  }

  /** Every VM whose runner is not finished owns the entry under its UUID. */
  ghost predicate EnteredVms(vms: seq<Vm>, active: map<string, nat>) {
    forall i :: 0 <= i < |vms| && vms[i].runner != Gone ==>
      vms[i].config.uuid in active && active[vms[i].config.uuid] == i
  }

  ghost predicate DifferentNames(vms: seq<Vm>) {
    forall i, j :: 0 <= i < j < |vms| && vms[i].runner != Gone && vms[j].runner != Gone ==>
      vms[i].config.name != vms[j].config.name
  }

  ghost predicate AllSound(s: State) { SoundVms(s.vms) }

  ghost predicate EntriesAreOwn(s: State) { OwnEntries(s.vms, s.active) }

  ghost predicate VmsAreEntered(s: State) { EnteredVms(s.vms, s.active) }

  ghost predicate NamesDiffer(s: State) { DifferentNames(s.vms) }

  function Unfinished(vms: seq<Vm>): nat {
    if vms == [] then 0
    else Unfinished(vms[..|vms| - 1]) + (if vms[|vms| - 1].runner in {Up, Unstarted} then 1 else 0)
  }

  ghost predicate ShapeOf(vms: seq<Vm>, active: map<string, nat>, jobs: nat) {
    OwnEntries(vms, active) && EnteredVms(vms, active) && DifferentNames(vms) && jobs == Unfinished(vms)
  }

  ghost predicate Shape(s: State) { ShapeOf(s.vms, s.active, s.jobs) }

  ghost predicate RegistryInv(s: State) { AllSound(s) && Shape(s) }

  /** What the environment must be like: a servable domain, and no empty address on the VM network. */
  predicate GoodEnv(env: Env) { GoodDomain(env.domain) && "" !in env.network }

  predicate OnlyNilProcess(s: State) { s.fault == None || s.fault == Some(NilProcess) }

  lemma {:induction false} UnfinishedOfUpdate(vms: seq<Vm>, i: nat, v: Vm)
    requires i < |vms|
    ensures Unfinished(vms[i := v]) + (if vms[i].runner in {Up, Unstarted} then 1 else 0)
         == Unfinished(vms) + (if v.runner in {Up, Unstarted} then 1 else 0)
  {
    var front := vms[..|vms| - 1];
    if i == |vms| - 1 {
      assert vms[i := v][..|vms| - 1] == front;
    } else {
      assert vms[i := v][..|vms| - 1] == front[i := v];
      UnfinishedOfUpdate(front, i, v);
    }
  }

  /** Changing one VM without moving it in or out of the registry. */
  lemma UpdateKeepsShape(vms: seq<Vm>, active: map<string, nat>, jobs: nat, i: nat, v: Vm, after: nat)
    requires ShapeOf(vms, active, jobs) && i < |vms|
    requires v.config == vms[i].config && (v.runner == Gone <==> vms[i].runner == Gone)
    requires after + (if vms[i].runner in {Up, Unstarted} then 1 else 0)
          == jobs + (if v.runner in {Up, Unstarted} then 1 else 0)
    ensures ShapeOf(vms[i := v], active, after)
  {
    UnfinishedOfUpdate(vms, i, v);
  }

  lemma UpdateKeepsSound(vms: seq<Vm>, i: nat, v: Vm)
    requires SoundVms(vms) && i < |vms| && Sound(v)
    ensures SoundVms(vms[i := v])
  {
  }

  lemma ApplyKeepsRegistry(s: State, i: nat, outcome: Outcome)
    requires RegistryInv(s) && OnlyNilProcess(s) && i < |s.vms| && KeepsRunning(s.vms[i], outcome)
    ensures RegistryInv(Apply(s, i, outcome)) && OnlyNilProcess(Apply(s, i, outcome))
  {
    if outcome.Changed? {
      UpdateKeepsSound(s.vms, i, outcome.vm);
      UpdateKeepsShape(s.vms, s.active, s.jobs, i, outcome.vm, s.jobs);
    }
  }

  lemma AdmittedIsNew(s: State, config: Config)
    requires VmsAreEntered(s) && RefusalOf(s, config).None?
    ensures forall i :: 0 <= i < |s.vms| && s.vms[i].runner != Gone ==>
              s.vms[i].config.name != config.name && s.vms[i].config.uuid != config.uuid
  {
    forall i | 0 <= i < |s.vms| && s.vms[i].runner != Gone
      ensures s.vms[i].config.name != config.name && s.vms[i].config.uuid != config.uuid
    {
      var u := s.vms[i].config.uuid;
      assert u in s.active && s.active[u] == i;
    }
  }

  lemma OneMoreEntry(vms: seq<Vm>, active: map<string, nat>, v: Vm)
    requires OwnEntries(vms, active) && v.runner != Gone
    ensures OwnEntries(vms + [v], active[v.config.uuid := |vms|])
  {
  }

  lemma OneMoreEntered(vms: seq<Vm>, active: map<string, nat>, v: Vm)
    requires EnteredVms(vms, active)
    requires forall i :: 0 <= i < |vms| && vms[i].runner != Gone ==> vms[i].config.uuid != v.config.uuid
    ensures EnteredVms(vms + [v], active[v.config.uuid := |vms|])
  {
  }

  lemma OneMoreName(vms: seq<Vm>, v: Vm)
    requires DifferentNames(vms)
    requires forall i :: 0 <= i < |vms| && vms[i].runner != Gone ==> vms[i].config.name != v.config.name
    ensures DifferentNames(vms + [v])
  {
  }

  lemma EnteredKeepsShape(vms: seq<Vm>, active: map<string, nat>, jobs: nat, v: Vm)
    requires ShapeOf(vms, active, jobs) && v.runner in {Queued, Missing}
    requires forall i :: 0 <= i < |vms| && vms[i].runner != Gone ==>
               vms[i].config.name != v.config.name && vms[i].config.uuid != v.config.uuid
    ensures ShapeOf(vms + [v], active[v.config.uuid := |vms|], jobs)
  {
    assert (vms + [v])[..|vms + [v]| - 1] == vms;
    OneMoreEntry(vms, active, v);
    OneMoreEntered(vms, active, v);
    OneMoreName(vms, v);
  }

  lemma EnteredKeepsSound(vms: seq<Vm>, v: Vm)
    requires SoundVms(vms) && Sound(v)
    ensures SoundVms(vms + [v])
  {
  }

  lemma AdmittedKeepsRegistry(s: State, config: Config, now: nat, runDirOk: bool)
    requires RegistryInv(s)
    ensures RegistryInv(Admitted(s, config, now, runDirOk))
  {
    if RefusalOf(s, config).None? {
      FreshIsSound(config, now, runDirOk);
      EnteredKeepsSound(s.vms, Fresh(config, now, runDirOk));
      AdmittedIsNew(s, config);
      EnteredKeepsShape(s.vms, s.active, s.jobs, Fresh(config, now, runDirOk));
    }
  }

  lemma RunnerStartedIs(s: State, i: nat, process: Option<nat>)
    requires i < |s.vms| && Sound(s.vms[i]) && s.vms[i].runner == Queued
    ensures RunnerStarted(s, i, process) == s.(vms := s.vms[i := Started(s.vms[i], process).vm], jobs := s.jobs + 1)
  {
    StartedKeeps(s.vms[i], process);
  }

  lemma RunnerStartedKeepsRegistry(s: State, i: nat, process: Option<nat>)
    requires RegistryInv(s) && i < |s.vms|
    ensures RegistryInv(RunnerStarted(s, i, process))
    ensures RunnerStarted(s, i, process).fault == s.fault
  {
    var v := s.vms[i];
    assert Sound(v);
    StartedKeeps(v, process);
    if v.runner == Queued {
      var w := Started(v, process).vm;
      RunnerStartedIs(s, i, process);
      UpdateKeepsSound(s.vms, i, w);
      UpdateKeepsShape(s.vms, s.active, s.jobs, i, w, s.jobs + 1);
    }
  }

  lemma RemovedKeepsShape(vms: seq<Vm>, active: map<string, nat>, jobs: nat, i: nat)
    requires ShapeOf(vms, active, jobs) && i < |vms| && vms[i].runner in {Up, Unstarted}
    ensures jobs > 0 && ShapeOf(vms[i := vms[i].(runner := Gone)], active - {vms[i].config.uuid}, jobs - 1)
  {
    var fewer, entries := vms[i := vms[i].(runner := Gone)], active - {vms[i].config.uuid};
    UnfinishedOfUpdate(vms, i, vms[i].(runner := Gone));
    assert active[vms[i].config.uuid] == i;
    assert OwnEntries(fewer, entries);
    forall j | 0 <= j < |fewer| && fewer[j].runner != Gone
      ensures fewer[j].config.uuid in entries && entries[fewer[j].config.uuid] == j
    {
      assert j != i && active[vms[j].config.uuid] == j;
    }
  }

  /** Unregistering a VM that has ended takes out its own entry and no other. */
  lemma RunnerExitedKeepsRegistry(env: Env, s: State, i: nat)
    requires RegistryInv(s) && i < |s.vms|
    ensures RegistryInv(RunnerExited(env, s, i))
    ensures RunnerExited(env, s, i).fault == s.fault
  {
    var v := s.vms[i];
    if v.runner in {Up, Unstarted} {
      GoneKeeps(v);
      RemovedKeepsShape(s.vms, s.active, s.jobs, i);
      UpdateKeepsSound(s.vms, i, v.(runner := Gone));
    }
  }

  lemma IgnitedKeepsRegistry(env: Env, s: State, uuid: string, addr: string)
    requires RegistryInv(s) && FromGuest(env, s, uuid, addr)
    ensures RegistryInv(Ignited(env, s, uuid, addr))
  {
    var i := s.active[uuid];
    var v := s.vms[i].(announced := Some(addr));
    assert Sound(s.vms[i]);
    UpdateKeepsSound(s.vms, i, v);
    UpdateKeepsShape(s.vms, s.active, s.jobs, i, v, s.jobs);
  }

  lemma OtherFieldsKeepRegistry(s: State, t: State)
    requires RegistryInv(s) && t.vms == s.vms && t.active == s.active && t.jobs == s.jobs
    ensures RegistryInv(t)
  {
  }

  lemma RunEventKeepsRegistry(env: Env, s: State, e: Event)
    requires RegistryInv(s) && OnlyNilProcess(s)
    requires e.Admit? || e.Start? || e.Exit?
    ensures RegistryInv(Next(env, s, e)) && OnlyNilProcess(Next(env, s, e))
  {
    if !s.closed && s.fault.None? {
      if e.Admit? {
        AdmittedKeepsRegistry(s, e.config, e.now, e.runDirOk);
      } else if e.Start? {
        if e.i < |s.vms| { RunnerStartedKeepsRegistry(s, e.i, e.process); }
      } else {
        if e.i < |s.vms| { RunnerExitedKeepsRegistry(env, s, e.i); }
      }
    }
  }

  /** An event that concerns one VM and leaves the registry and the records alone. */
  predicate OfOneVm(e: Event) {
    e.Start? || e.Timeout? || e.Expire? || e.TakeIP? || e.Answer? || e.Callback? || e.Connectivity?
  }

  /** The VM that such an event concerns; `|s.vms|` when there is none. */
  ghost function Concerned(env: Env, s: State, e: Event): nat
    requires OfOneVm(e)
  {
    if e.Callback? || e.Connectivity? then
      if FromGuest(env, s, e.uuid, e.addr) && s.active[e.uuid] < |s.vms| then s.active[e.uuid] else |s.vms|
    else
      if e.i < |s.vms| then e.i else |s.vms|
  }

  function OutcomeOf(v: Vm, e: Event): Outcome
    requires OfOneVm(e)
  {
    match e
    case Start(_, process) => Started(v, process)
    case Timeout(_) => TimedOut(v)
    case Expire(_) => Expired(v)
    case TakeIP(_) => TookIP(v)
    case Answer(_, preferError) => Answered(v, preferError)
    case Callback(_, addr) => CalledBack(v, addr)
    case Connectivity(_, _) => CheckedIsolation(v)
  }

  /** What an event does to the VM it concerns is all it does, apart from counting a job. */
  ghost predicate Does(env: Env, s: State, e: Event, t: State)
    requires OfOneVm(e)
  {
    var i := Concerned(env, s, e);
    if i >= |s.vms| then t == s
    else if e.Start? then t == Apply(s, i, OutcomeOf(s.vms[i], e)).(jobs := t.jobs)
    else t == Apply(s, i, OutcomeOf(s.vms[i], e))
  }

  lemma VmEventDoes(env: Env, s: State, e: Event)
    requires OfOneVm(e) && s.fault.None? && !s.closed
    ensures Does(env, s, e, Next(env, s, e))
  {
  }

  lemma AppliedAt(s: State, j: nat, outcome: Outcome, i: nat)
    requires j < |s.vms| && i < |s.vms|
    ensures var vms := Apply(s, j, outcome).vms;
      |vms| == |s.vms| && vms[i] == if i == j && outcome.Changed? then outcome.vm else s.vms[i]
  {
  }

  lemma OnlyConcernedChanges(env: Env, s: State, e: Event, t: State, i: nat)
    requires OfOneVm(e) && Does(env, s, e, t) && i < |s.vms|
    ensures i < |t.vms|
    ensures t.vms[i] == s.vms[i] ||
            (i == Concerned(env, s, e) && OutcomeOf(s.vms[i], e).Changed? && t.vms[i] == OutcomeOf(s.vms[i], e).vm)
  {
    var j := Concerned(env, s, e);
    if j < |s.vms| { AppliedAt(s, j, OutcomeOf(s.vms[j], e), i); }
  }

  lemma OutcomeKeeps(v: Vm, e: Event)
    requires Sound(v) && OfOneVm(e) && !e.Start? && (e.Callback? ==> e.addr != "")
    ensures KeepsRunning(v, OutcomeOf(v, e))
  {
    match e
    case Answer(_, preferError) => AnsweredKeeps(v, preferError);
    case Callback(_, addr) => HandlersKeep(v, addr);
    case Connectivity(_, _) => HandlersKeep(v, "0");
    case _ => WatcherKeeps(v);
  }

  lemma VmEventKeepsRegistry(env: Env, s: State, e: Event)
    requires GoodEnv(env) && RegistryInv(s) && OnlyNilProcess(s) && OfOneVm(e) && !e.Start?
    ensures RegistryInv(Next(env, s, e)) && OnlyNilProcess(Next(env, s, e))
  {
    var i := Concerned(env, s, e);
    if s.fault.None? && !s.closed && i < |s.vms| {
      VmEventDoes(env, s, e);
      OutcomeKeeps(s.vms[i], e);
      ApplyKeepsRegistry(s, i, OutcomeOf(s.vms[i], e));
    }
  }

  lemma IgnitionKeepsRegistry(env: Env, s: State, uuid: string, addr: string)
    requires RegistryInv(s) && OnlyNilProcess(s)
    ensures var t := Next(env, s, Ignition(uuid, addr)); RegistryInv(t) && OnlyNilProcess(t)
  {
    if s.fault.None? && !s.closed && FromGuest(env, s, uuid, addr) {
      assert Next(env, s, Ignition(uuid, addr)) == Ignited(env, s, uuid, addr);
      IgnitedKeepsRegistry(env, s, uuid, addr);
    }
  }

  lemma NextKeepsRegistry(env: Env, s: State, e: Event)
    requires GoodEnv(env) && RegistryInv(s) && OnlyNilProcess(s)
    ensures RegistryInv(Next(env, s, e)) && OnlyNilProcess(Next(env, s, e))
  {
    if e.Admit? || e.Start? || e.Exit? {
      RunEventKeepsRegistry(env, s, e);
    } else if OfOneVm(e) {
      VmEventKeepsRegistry(env, s, e);
    } else if e.Ignition? {
      IgnitionKeepsRegistry(env, s, e.uuid, e.addr);
    } else {
      OtherFieldsKeepRegistry(s, Next(env, s, e));
    }
  }
}
