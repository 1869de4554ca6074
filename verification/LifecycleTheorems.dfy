/** What holds in every run of the daemon: replies, ownership of registry entries, crashes. */
module LifecycleTheorems {
  import opened Text
  import opened Dns
  import opened Lifecycle
  import opened LifecycleInvariants

  lemma {:induction false} RunKeepsRegistry(env: Env, s: State, events: seq<Event>)
    requires GoodEnv(env) && RegistryInv(s) && OnlyNilProcess(s)
    ensures RegistryInv(Run(env, s, events)) && OnlyNilProcess(Run(env, s, events))
    decreases events
  {
    if events != [] {
      NextKeepsRegistry(env, s, events[0]);
      RunKeepsRegistry(env, Next(env, s, events[0]), events[1..]);
    }
  }

  lemma ReachableIsSound(env: Env, s: State)
    requires GoodEnv(env) && Reachable(env, s)
    ensures RegistryInv(s) && OnlyNilProcess(s)
  {
    var events :| Run(env, Init(env), events) == s;
    RunKeepsRegistry(env, Init(env), events);
  }

  // ---- Replies ----

  /** In every run a VM's address channel takes at most one send; no channel is closed twice, sent to
      after its close, or sent to when full; and a Run request is either released by `done`, with an
      address and a process known, or by one error, never both. */
  lemma ChannelsAreUsedOnce(env: Env, s: State, i: nat)
    requires GoodEnv(env) && Reachable(env, s) && i < |s.vms|
    ensures var v := s.vms[i];
      && v.publicIPCh.sent <= 1 && v.errCh.sent <= 1
      && (s.fault == None || s.fault == Some(NilProcess))
      && !(v.done && v.errCh.sent > 0)
      && (v.done ==> v.publicIP != "" && v.pid.Some? && v.pid == v.process)
  {
    ReachableIsSound(env, s);
    assert Sound(s.vms[i]);
  }

  /** A request's reply is its VM's address, or the one error that occurred; the code's third answer,
      a VM that ended too early, is never given. */
  lemma RepliesAreTruthful(env: Env, s: State, i: nat)
    requires GoodEnv(env) && Reachable(env, s) && i < |s.vms| && s.vms[i].reply.Some?
    ensures var v := s.vms[i];
      match v.reply.value
      case Booted(ip) => v.done && ip == v.publicIP != ""
      case Failed(NoRunDir) => v.runner == Missing
      case Failed(NotStarted) => !v.done && v.process.None?
      case Failed(NoIPInTime) => !v.done && v.process.Some? && v.watcher == Over
      case Failed(EndedTooEarly) => false
  {
    ReachableIsSound(env, s);
    assert Sound(s.vms[i]);
  }

  ghost predicate VmEvolves(v: Vm, w: Vm) {
    && w.config == v.config && w.created == v.created
    && (v.runner != Queued ==> w.runner == v.runner || (v.runner in {Up, Unstarted} && w.runner == Gone))
    && (v.process.Some? ==> w.process == v.process)
    && (v.reply.Some? ==> w.reply == v.reply)
    && ToWatch(w.watcher) <= ToWatch(v.watcher)
  }

  ghost predicate Evolves(s: State, t: State) {
    && |s.vms| <= |t.vms|
    && (forall i :: 0 <= i < |s.vms| ==> VmEvolves(s.vms[i], t.vms[i]))
    && (!s.accepting ==> !t.accepting && |s.vms| == |t.vms|)
  }

  /** What no event of one VM touches, beside what no event does. */
  ghost predicate VmSteps(v: Vm, w: Vm) {
    && VmEvolves(v, w)
    && w.announced == v.announced
    && (w.runner == Gone <==> v.runner == Gone)
  }

  lemma OutcomeSteps(v: Vm, e: Event)
    requires Sound(v) && OfOneVm(e) && OutcomeOf(v, e).Changed?
    ensures var w := OutcomeOf(v, e).vm;
      VmSteps(v, w) && (!e.Callback? ==> w.callBackUsed == v.callBackUsed)
  {
  }

  ghost predicate SameButVms(s: State, t: State) {
    |t.vms| == |s.vms| && t == s.(vms := t.vms, jobs := t.jobs, fault := t.fault)
  }

  lemma AppliedIsSameButVms(s: State, i: nat, outcome: Outcome)
    requires i < |s.vms|
    ensures SameButVms(s, Apply(s, i, outcome))
  {
  }

  /** An event of one VM changes VMs and jobs only, and may bring the daemon down. */
  lemma VmEventFrame(env: Env, s: State, e: Event)
    requires OfOneVm(e)
    ensures SameButVms(s, Next(env, s, e))
  {
    var i := Concerned(env, s, e);
    if s.fault.None? && !s.closed {
      VmEventDoes(env, s, e);
      if i < |s.vms| { AppliedIsSameButVms(s, i, OutcomeOf(s.vms[i], e)); }
    }
  }

  lemma VmEventSteps(env: Env, s: State, e: Event, i: nat)
    requires AllSound(s) && OfOneVm(e) && i < |s.vms|
    ensures var t := Next(env, s, e);
      && i < |t.vms|
      && VmSteps(s.vms[i], t.vms[i])
      && (!e.Callback? ==> t.vms[i].callBackUsed == s.vms[i].callBackUsed)
  {
    if s.fault.None? && !s.closed {
      VmEventDoes(env, s, e);
      OnlyConcernedChanges(env, s, e, Next(env, s, e), i);
      if OutcomeOf(s.vms[i], e).Changed? { OutcomeSteps(s.vms[i], e); }
    }
  }

  lemma VmEventEvolves(env: Env, s: State, e: Event)
    requires AllSound(s) && OfOneVm(e)
    ensures Evolves(s, Next(env, s, e))
  {
    VmEventFrame(env, s, e);
    forall i | 0 <= i < |s.vms| ensures VmEvolves(s.vms[i], Next(env, s, e).vms[i]) { VmEventSteps(env, s, e, i); }
  }

  lemma OneVmEvolves(s: State, t: State, i: nat)
    requires i < |s.vms| == |t.vms| && t.vms == s.vms[i := t.vms[i]] && VmEvolves(s.vms[i], t.vms[i])
    requires t.accepting == s.accepting
    ensures Evolves(s, t)
  {
  }

  lemma IgnitionEvolves(env: Env, s: State, uuid: string, addr: string)
    ensures Evolves(s, Next(env, s, Ignition(uuid, addr)))
  {
    if s.fault.None? && !s.closed && FromGuest(env, s, uuid, addr) && s.active[uuid] < |s.vms| {
      OneVmEvolves(s, Ignited(env, s, uuid, addr), s.active[uuid]);
    }
  }

  lemma ExitEvolves(env: Env, s: State, i: nat)
    ensures Evolves(s, Next(env, s, Exit(i)))
  {
    if i < |s.vms| && !s.closed && s.fault.None? {
      var t := RunnerExited(env, s, i);
      assert t.vms == s.vms || t.vms == s.vms[i := s.vms[i].(runner := Gone)];
      OneVmEvolves(s, t, i);
    }
  }

  lemma AdmitEvolves(env: Env, s: State, config: Config, now: nat, runDirOk: bool)
    ensures Evolves(s, Next(env, s, Admit(config, now, runDirOk)))
  {
  }

  lemma DaemonEventEvolves(env: Env, s: State, e: Event)
    requires e.StopCall? || e.StopSignal? || e.StopPoll? || e.StopReturn? || e.Oops? || e.Wake? || e.Close?
    ensures Evolves(s, Next(env, s, e)) && Next(env, s, e).vms == s.vms
  {
  }

  lemma NextEvolves(env: Env, s: State, e: Event)
    requires AllSound(s)
    ensures Evolves(s, Next(env, s, e))
  {
    if OfOneVm(e) {
      VmEventEvolves(env, s, e);
    } else if e.Ignition? {
      IgnitionEvolves(env, s, e.uuid, e.addr);
    } else if e.Exit? {
      ExitEvolves(env, s, e.i);
    } else if e.Admit? {
      AdmitEvolves(env, s, e.config, e.now, e.runDirOk);
    } else {
      DaemonEventEvolves(env, s, e);
    }
  }

  /** The registry after the event has no entry it did not have before, and requests that were refused
      still are. */
  ghost predicate OnlyLeaves(s: State, t: State) {
    && (!s.accepting ==> !t.accepting)
    && forall u :: u in t.active ==> u in s.active && t.active[u] == s.active[u]
  }

  lemma RegistryEventOnlyLeaves(env: Env, s: State, e: Event)
    requires e.Exit? || e.Ignition?
    ensures OnlyLeaves(s, Next(env, s, e))
  {
  }

  lemma DaemonEventOnlyLeaves(env: Env, s: State, e: Event)
    requires e.StopCall? || e.StopSignal? || e.StopPoll? || e.StopReturn? || e.Oops? || e.Wake? || e.Close?
    ensures OnlyLeaves(s, Next(env, s, e))
  {
  }

  /** Apart from admissions nothing enters the registry. */
  lemma EntriesOnlyLeave(env: Env, s: State, e: Event)
    requires !e.Admit? || !s.accepting
    ensures OnlyLeaves(s, Next(env, s, e))
  {
    if e.Admit? {
    } else if OfOneVm(e) {
      VmEventFrame(env, s, e);
    } else if e.Exit? || e.Ignition? {
      RegistryEventOnlyLeaves(env, s, e);
    } else {
      DaemonEventOnlyLeaves(env, s, e);
    }
  }

  lemma {:induction false} RunEvolves(env: Env, s: State, events: seq<Event>)
    requires GoodEnv(env) && RegistryInv(s) && OnlyNilProcess(s)
    ensures Evolves(s, Run(env, s, events))
    decreases events
  {
    if events != [] {
      var t := Next(env, s, events[0]);
      NextKeepsRegistry(env, s, events[0]);
      NextEvolves(env, s, events[0]);
      RunEvolves(env, t, events[1..]);
      var u := Run(env, s, events);
      forall i | 0 <= i < |s.vms| ensures VmEvolves(s.vms[i], u.vms[i]) {
        assert VmEvolves(s.vms[i], t.vms[i]) && VmEvolves(t.vms[i], u.vms[i]);
      }
    }
  }

  /** A request is answered once: whatever happens afterwards the reply stands. */
  lemma RepliesStand(env: Env, s: State, i: nat, events: seq<Event>)
    requires GoodEnv(env) && Reachable(env, s) && i < |s.vms| && s.vms[i].reply.Some?
    ensures var t := Run(env, s, events); i < |t.vms| && t.vms[i].reply == s.vms[i].reply
  {
    ReachableIsSound(env, s);
    RunEvolves(env, s, events);
    assert VmEvolves(s.vms[i], Run(env, s, events).vms[i]);
  }

  lemma RunOfCons(env: Env, s: State, e: Event, rest: seq<Event>)
    ensures Run(env, s, [e] + rest) == Run(env, Next(env, s, e), rest)
  {
    assert ([e] + rest)[1..] == rest;
  }

  lemma RunOfOne(env: Env, s: State, e: Event)
    ensures Run(env, s, [e]) == Next(env, s, e)
  {
    assert [e][1..] == [];
  }

  lemma RunOfThree(env: Env, s: State, a: Event, b: Event, c: Event)
    ensures Run(env, s, [a] + ([b] + [c])) == Next(env, Next(env, Next(env, s, a), b), c)
  {
    RunOfCons(env, s, a, [b] + [c]);
    RunOfCons(env, Next(env, s, a), b, [c]);
    RunOfOne(env, Next(env, Next(env, s, a), b), c);
  }

  lemma FirstAdmission(env: Env, config: Config)
    requires config.name != RESERVED_HOST
    ensures Next(env, Init(env), Admit(config, 0, true)) ==
            Init(env).(vms := [Fresh(config, 0, true)], active := map[config.uuid := 0])
  {
  }

  lemma TwoAdmissions(env: Env, a: Config, b: Config)
    requires a.name != RESERVED_HOST && b.name != RESERVED_HOST && a.name != b.name && a.uuid != b.uuid
    ensures Run(env, Init(env), [Admit(a, 0, true)] + [Admit(b, 0, true)]) ==
            Init(env).(vms := [Fresh(a, 0, true), Fresh(b, 0, true)], active := map[a.uuid := 0, b.uuid := 1])
  {
    var s := Next(env, Init(env), Admit(a, 0, true));
    FirstAdmission(env, a);
    SecondAdmission(env, a, b);
    RunOfCons(env, Init(env), Admit(a, 0, true), [Admit(b, 0, true)]);
    RunOfOne(env, s, Admit(b, 0, true));
  }

  lemma SecondAdmission(env: Env, a: Config, b: Config)
    requires b.name != RESERVED_HOST && a.name != b.name && a.uuid != b.uuid
    ensures var s := Init(env).(vms := [Fresh(a, 0, true)], active := map[a.uuid := 0]);
      Next(env, s, Admit(b, 0, true)) ==
      s.(vms := [Fresh(a, 0, true), Fresh(b, 0, true)], active := map[a.uuid := 0, b.uuid := 1])
  {
  }

  /** The steps of its own goroutines a request still has before it, at most. */
  function StepsLeft(v: Vm): nat {
    if v.reply.Some? then 0 else 1 + ToWatch(v.watcher) + (if v.runner == Queued then 1 else 0)
  }

  /** A step that is always open to an unanswered request; `process` is what starting it would bring. */
  function NextForRequest(v: Vm, i: nat, process: Option<nat>): Event {
    if v.done || v.errCh.queue != [] then Answer(i, false)
    else if v.watcher == Terminating then Expire(i)
    else if v.runner == Queued then Start(i, process)
    else Timeout(i)
  }

  lemma NextStepIsTaken(v: Vm, i: nat, process: Option<nat>)
    requires Sound(v) && v.reply.None?
    ensures var outcome := OutcomeOf(v, NextForRequest(v, i, process));
      outcome.Changed? && StepsLeft(outcome.vm) < StepsLeft(v)
  {
  }

  lemma ChangeIsMade(env: Env, s: State, e: Event, i: nat)
    requires OfOneVm(e) && s.fault.None? && !s.closed && Concerned(env, s, e) == i < |s.vms|
    requires OutcomeOf(s.vms[i], e).Changed?
    ensures var t := Next(env, s, e);
      t.fault.None? && !t.closed && t.vms == s.vms[i := OutcomeOf(s.vms[i], e).vm]
  {
    VmEventDoes(env, s, e);
  }

  /** While a request is unanswered, one of its own goroutines can take a step that brings the answer
      nearer and does not bring the daemon down ... */
  lemma RequestAdvances(env: Env, s: State, i: nat, process: Option<nat>)
    requires RegistryInv(s) && s.fault.None? && !s.closed && i < |s.vms| && s.vms[i].reply.None?
    ensures var t := Next(env, s, NextForRequest(s.vms[i], i, process));
      t.fault.None? && !t.closed && i < |t.vms| && StepsLeft(t.vms[i]) < StepsLeft(s.vms[i])
  {
    assert Sound(s.vms[i]);
    NextStepIsTaken(s.vms[i], i, process);
    ChangeIsMade(env, s, NextForRequest(s.vms[i], i, process), i);
  }

  /** No request is stuck: from every state in which the daemon is up, some steps of the request's own
      goroutines answer it. */
  lemma {:induction false} EveryRequestCanBeAnswered(env: Env, s: State, i: nat) returns (events: seq<Event>)
    requires GoodEnv(env) && RegistryInv(s) && s.fault.None? && !s.closed && i < |s.vms|
    ensures |events| <= StepsLeft(s.vms[i])
    ensures forall k :: 0 <= k < |events| ==> OwnStep(events[k], i)
    ensures var t := Run(env, s, events); i < |t.vms| && t.vms[i].reply.Some?
    decreases StepsLeft(s.vms[i])
  {
    if s.vms[i].reply.Some? {
      events := [];
    } else {
      var e := NextForRequest(s.vms[i], i, Some(0));
      RequestAdvances(env, s, i, Some(0));
      NextKeepsRegistry(env, s, e);
      var rest := EveryRequestCanBeAnswered(env, Next(env, s, e), i);
      events := [e] + rest;
      RunOfCons(env, s, e, rest);
    }
  }

  /** A step of one of request `i`'s own goroutines. */
  predicate OwnStep(e: Event, i: nat) {
    (e.Answer? || e.Expire? || e.Start? || e.Timeout?) && e.i == i
  }

  /** How many steps of a run bring the answer to request `i` nearer. */
  ghost function StepsTaken(env: Env, s: State, i: nat, events: seq<Event>): nat
    decreases events
  {
    if events == [] then 0
    else
      var t := Next(env, s, events[0]);
      (if i < |s.vms| && i < |t.vms| && StepsLeft(t.vms[i]) < StepsLeft(s.vms[i]) then 1 else 0)
      + StepsTaken(env, t, i, events[1..])
  }

  lemma StepsNeverGrow(v: Vm, w: Vm)
    requires VmEvolves(v, w)
    ensures StepsLeft(w) <= StepsLeft(v) <= 4
  {
  }

  lemma NoEventAddsSteps(env: Env, s: State, e: Event, i: nat)
    requires AllSound(s) && i < |s.vms|
    ensures var t := Next(env, s, e); i < |t.vms| && StepsLeft(t.vms[i]) <= StepsLeft(s.vms[i]) <= 4
  {
    NextEvolves(env, s, e);
    StepsNeverGrow(s.vms[i], Next(env, s, e).vms[i]);
  }

  /** ... and nothing else ever takes it further away: in every run a request is answered after at most
      four such steps. */
  lemma {:induction false} AnsweredWithinFourSteps(env: Env, s: State, i: nat, events: seq<Event>)
    requires GoodEnv(env) && RegistryInv(s) && OnlyNilProcess(s) && i < |s.vms|
    ensures var t := Run(env, s, events);
      && i < |t.vms| && StepsTaken(env, s, i, events) + StepsLeft(t.vms[i]) <= StepsLeft(s.vms[i]) <= 4
      && (t.vms[i].reply.None? ==> StepsTaken(env, s, i, events) < 4)
    decreases events
  {
    if events == [] {
      StepsNeverGrow(s.vms[i], s.vms[i]);
    } else {
      NextKeepsRegistry(env, s, events[0]);
      NoEventAddsSteps(env, s, events[0], i);
      AnsweredWithinFourSteps(env, Next(env, s, events[0]), i, events[1..]);
    }
  }

  /** A VM that ended without its guest ever reporting in. */
  predicate EndedSilently(v: Vm) { v.runner == Gone && v.process.Some? && !v.callBackUsed }

  lemma CallbackMissesGone(env: Env, s: State, e: Event, i: nat)
    requires EntriesAreOwn(s) && e.Callback? && i < |s.vms| && s.vms[i].runner == Gone
    ensures var t := Next(env, s, e); i < |t.vms| && t.vms[i] == s.vms[i]
  {
    if s.fault.None? && !s.closed {
      VmEventDoes(env, s, e);
      OnlyConcernedChanges(env, s, e, Next(env, s, e), i);
    }
  }

  lemma RegistryEventKeepsCallbacks(env: Env, s: State, e: Event, i: nat)
    requires (e.Admit? || e.Exit? || e.Ignition?) && i < |s.vms|
    ensures var t := Next(env, s, e); i < |t.vms| && t.vms[i].callBackUsed == s.vms[i].callBackUsed
  {
  }

  lemma GoneGetsNoCallback(env: Env, s: State, e: Event, i: nat)
    requires RegistryInv(s) && i < |s.vms| && s.vms[i].runner == Gone
    ensures var t := Next(env, s, e); i < |t.vms| && t.vms[i].callBackUsed == s.vms[i].callBackUsed
  {
    if e.Callback? {
      CallbackMissesGone(env, s, e, i);
    } else if OfOneVm(e) {
      VmEventSteps(env, s, e, i);
    } else if e.Admit? || e.Exit? || e.Ignition? {
      RegistryEventKeepsCallbacks(env, s, e, i);
    } else {
      DaemonEventEvolves(env, s, e);
    }
  }

  /** Its request is answered with the time-out or not at all yet, however the run goes on. */
  lemma {:induction false} SilentEndTimesOut(env: Env, s: State, i: nat, events: seq<Event>)
    requires GoodEnv(env) && RegistryInv(s) && OnlyNilProcess(s) && i < |s.vms| && EndedSilently(s.vms[i])
    ensures var t := Run(env, s, events);
      && i < |t.vms| && EndedSilently(t.vms[i])
      && (t.vms[i].reply == None || t.vms[i].reply == Some(Failed(NoIPInTime)))
    decreases events
  {
    assert Sound(s.vms[i]);
    if events != [] {
      var t := Next(env, s, events[0]);
      NextKeepsRegistry(env, s, events[0]);
      NextEvolves(env, s, events[0]);
      assert VmEvolves(s.vms[i], t.vms[i]);
      GoneGetsNoCallback(env, s, events[0], i);
      SilentEndTimesOut(env, t, i, events[1..]);
    }
  }

  // ---- Crashes ----

  /** A watcher that wakes up before its VM's process exists. */
  predicate WakesWithoutProcess(s: State, e: Event) {
    && (e.Timeout? || e.TakeIP?)
    && e.i < |s.vms| && s.vms[e.i].watcher == Waiting && s.vms[e.i].process.None?
    && (e.TakeIP? ==> s.vms[e.i].publicIPCh.queue != [])
  }

  lemma OutcomePanicsIff(v: Vm, e: Event)
    requires Sound(v) && OfOneVm(e) && (e.Callback? ==> e.addr != "")
    ensures OutcomeOf(v, e).Panic? <==>
            (e.Timeout? || e.TakeIP?) && v.watcher == Waiting && v.process.None? &&
            (e.TakeIP? ==> v.publicIPCh.queue != [])
  {
    if e.Callback? { HandlersKeep(v, e.addr); }
  }

  lemma VmEventCrashesIff(env: Env, s: State, e: Event)
    requires GoodEnv(env) && RegistryInv(s) && s.fault.None? && !s.closed && OfOneVm(e)
    ensures Next(env, s, e).fault.Some? <==> WakesWithoutProcess(s, e)
  {
    var i := Concerned(env, s, e);
    VmEventDoes(env, s, e);
    if i < |s.vms| { OutcomePanicsIff(s.vms[i], e); }
  }

  lemma EventCrashesIff(env: Env, s: State, e: Event)
    requires GoodEnv(env) && RegistryInv(s) && s.fault.None? && !s.closed
    ensures Next(env, s, e).fault.Some? <==> WakesWithoutProcess(s, e)
  {
    if OfOneVm(e) {
      VmEventCrashesIff(env, s, e);
    } else if e.Exit? {
      if e.i < |s.vms| { RunnerExitedKeepsRegistry(env, s, e.i); }
    }
  }

  /** The daemon goes down on an event exactly when that event wakes a watcher whose VM has no process. */
  lemma CrashesIff(env: Env, s: State, e: Event)
    requires GoodEnv(env) && Reachable(env, s) && s.fault.None? && !s.closed
    ensures Next(env, s, e).fault.Some? <==> WakesWithoutProcess(s, e)
  {
    ReachableIsSound(env, s);
    EventCrashesIff(env, s, e);
  }

  ghost predicate SomeWatcherWakesEarly(env: Env, s: State, events: seq<Event>)
    decreases events
  {
    && events != [] && s.fault.None? && !s.closed
    && (WakesWithoutProcess(s, events[0]) || SomeWatcherWakesEarly(env, Next(env, s, events[0]), events[1..]))
  }

  lemma {:induction false} FaultsStand(env: Env, s: State, events: seq<Event>)
    requires s.closed || s.fault.Some?
    ensures Run(env, s, events) == s
    decreases events
  {
    if events != [] { FaultsStand(env, s, events[1..]); }
  }

  /** The same over whole runs: the daemon goes down exactly in those runs. */
  lemma {:induction false} RunCrashesIff(env: Env, s: State, events: seq<Event>)
    requires GoodEnv(env) && RegistryInv(s) && s.fault.None?
    ensures Run(env, s, events).fault.Some? <==> SomeWatcherWakesEarly(env, s, events)
    decreases events
  {
    if s.closed {
      FaultsStand(env, s, events);
    } else if events != [] {
      var t := Next(env, s, events[0]);
      NextKeepsRegistry(env, s, events[0]);
      EventCrashesIff(env, s, events[0]);
      if t.fault.Some? {
        FaultsStand(env, t, events[1..]);
      } else {
        RunCrashesIff(env, t, events[1..]);
      }
    }
  }

  /** Such a run: one VM whose process could not be started, and its timeout. */
  lemma FailedStartCrashes(env: Env, config: Config)
    requires config.name != RESERVED_HOST
    ensures Run(env, Init(env), [Admit(config, 0, true)] + ([Start(0, None)] + [Timeout(0)])).fault == Some(NilProcess)
  {
    FirstAdmission(env, config);
    RunOfThree(env, Init(env), Admit(config, 0, true), Start(0, None), Timeout(0));
  }

  // ---- Ownership ----

  /** In every run: entries are filed under their VM's own UUID, their names differ from each other and
      from the daemon's, and the VMs whose runner is not finished are exactly those with an entry. */
  lemma RegistryIsOwned(env: Env, s: State)
    requires GoodEnv(env) && Reachable(env, s)
    ensures forall u :: u in s.active ==>
              s.active[u] < |s.vms| && s.vms[s.active[u]].config.uuid == u &&
              s.vms[s.active[u]].config.name != RESERVED_HOST
    ensures forall u, w :: u in s.active && w in s.active && u != w ==>
              s.vms[s.active[u]].config.name != s.vms[s.active[w]].config.name
    ensures forall i :: 0 <= i < |s.vms| ==>
              (s.vms[i].runner != Gone <==> s.vms[i].config.uuid in s.active && s.active[s.vms[i].config.uuid] == i)
  {
    ReachableIsSound(env, s);
    NamesAreNotReserved(s.vms);
    EntriesHaveDifferentNames(s.vms, s.active);
  }

  lemma NamesAreNotReserved(vms: seq<Vm>)
    requires SoundVms(vms)
    ensures forall i :: 0 <= i < |vms| ==> vms[i].config.name != RESERVED_HOST
  {
    forall i | 0 <= i < |vms| ensures vms[i].config.name != RESERVED_HOST { assert Sound(vms[i]); }
  }

  lemma EntriesHaveDifferentNames(vms: seq<Vm>, active: map<string, nat>)
    requires OwnEntries(vms, active) && DifferentNames(vms)
    ensures forall u, w :: u in active && w in active && u != w ==>
              vms[active[u]].config.name != vms[active[w]].config.name
  {
    forall u, w | u in active && w in active && u != w
      ensures vms[active[u]].config.name != vms[active[w]].config.name
    {
      assert active[u] < active[w] || active[w] < active[u];
    }
  }

  /** A VM that ends takes exactly its own entry with it. */
  lemma ExitRemovesOwnEntry(env: Env, s: State, i: nat)
    requires GoodEnv(env) && Reachable(env, s) && s.fault.None? && !s.closed
    requires i < |s.vms| && s.vms[i].runner in {Up, Unstarted}
    ensures var t := Next(env, s, Exit(i)); var u := s.vms[i].config.uuid;
      && u in s.active && s.active[u] == i
      && t.fault.None? && t.active == s.active - {u}
      && t.vms[i].runner == Gone && t.jobs + 1 == s.jobs
  {
    ReachableIsSound(env, s);
    OwnEntry(s, i);
    ExitIs(env, s, i);
  }

  lemma ExitIs(env: Env, s: State, i: nat)
    requires s.fault.None? && !s.closed && i < |s.vms| && s.vms[i].runner in {Up, Unstarted} && s.jobs > 0
    ensures var t, v := Next(env, s, Exit(i)), s.vms[i];
      && t.fault.None? && t.vms == s.vms[i := v.(runner := Gone)]
      && t.active == s.active - {v.config.uuid} && t.jobs == s.jobs - 1
  {
  }

  lemma OwnEntry(s: State, i: nat)
    requires Shape(s) && i < |s.vms| && s.vms[i].runner in {Up, Unstarted}
    ensures s.vms[i].config.uuid in s.active && s.active[s.vms[i].config.uuid] == i && s.jobs > 0
  {
    UnfinishedOfUpdate(s.vms, i, s.vms[i].(runner := Gone));
  }

  /** A VM whose run directory cannot be made keeps its entry for the rest of every run. */
  lemma {:induction false} MissingRunnerStays(env: Env, s: State, i: nat, events: seq<Event>)
    requires GoodEnv(env) && RegistryInv(s) && OnlyNilProcess(s) && i < |s.vms| && s.vms[i].runner == Missing
    ensures var t := Run(env, s, events); var u := s.vms[i].config.uuid;
      i < |t.vms| && t.vms[i].runner == Missing && u in t.active && t.active[u] == i
    decreases events
  {
    if events != [] {
      var e := events[0];
      NextKeepsRegistry(env, s, e);
      NextEvolves(env, s, e);
      assert VmEvolves(s.vms[i], Next(env, s, e).vms[i]);
      assert Sound(s.vms[i]);
      MissingRunnerStays(env, Next(env, s, e), i, events[1..]);
    }
  }
}
