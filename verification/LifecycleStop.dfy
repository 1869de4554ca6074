/** Shutting down: no VM is admitted any more, Stop takes the running ones newest first and one at a
    time, and the server closes only when no job is left. */
module LifecycleStop {
  import opened Text
  import opened Dns
  import opened Lifecycle
  import opened LifecycleInvariants
  import opened LifecycleTheorems
  import opened LifecycleDns

  /** A step of Stop itself. */
  predicate OfStop(e: Event) { e.StopCall? || e.StopSignal? || e.StopPoll? || e.StopReturn? }

  // ---- Nothing is added any more ----

  /** Once requests are refused, the registry only loses entries, whatever happens. */
  lemma {:induction false} RegistryOnlyShrinks(env: Env, s: State, events: seq<Event>)
    requires !s.accepting
    ensures var t := Run(env, s, events);
      !t.accepting && forall u :: u in t.active ==> u in s.active && t.active[u] == s.active[u]
    decreases events
  {
    if events != [] {
      EntriesOnlyLeave(env, s, events[0]);
      RegistryOnlyShrinks(env, Next(env, s, events[0]), events[1..]);
    }
  }

  // ---- The shutdown loop ----

  /** The VMs already dealt with. */
  function Finished(stop: Stopping): seq<nat>
    requires stop.Stopping? && (stop.awaiting ==> stop.log != [])
  {
    if stop.awaiting then stop.log[..|stop.log| - 1] else stop.log
  }

  ghost predicate AllIndices(vms: seq<Vm>, ids: seq<nat>) { forall k :: 0 <= k < |ids| ==> ids[k] < |vms| }

  ghost predicate AllGone(vms: seq<Vm>, ids: seq<nat>) {
    forall k :: 0 <= k < |ids| && ids[k] < |vms| ==> vms[ids[k]].runner == Gone
  }

  /** Every registered VM is still on the list. */
  ghost predicate RestIsListed(s: State, todo: seq<nat>) {
    forall i :: 0 <= i < |s.vms| && s.vms[i].runner != Gone ==> i in todo
  }

  ghost predicate UuidsDiffer(vms: seq<Vm>, ids: seq<nat>) {
    forall j, k :: 0 <= j < k < |ids| && ids[j] < |vms| && ids[k] < |vms| ==>
        vms[ids[j]].config.uuid != vms[ids[k]].config.uuid
  }

  ghost predicate OrderInv(vms: seq<Vm>, order: seq<nat>) {
    AllIndices(vms, order) && UuidsDiffer(vms, order) && NewestFirst(vms, order)
  }

  /** While it waits, the loop waits for a VM it has signalled, so one with a process. */
  ghost predicate WaitsForHead(s: State, stop: Stopping)
    requires stop.Stopping?
  {
    stop.awaiting ==>
      && stop.log != [] && stop.todo != [] && stop.log[|stop.log| - 1] == stop.todo[0]
      && (stop.todo[0] < |s.vms| ==> s.vms[stop.todo[0]].process.Some?)
  }

  ghost predicate LoopInv(s: State) {
    s.stop.Stopping? ==>
      && WaitsForHead(s, s.stop)
      && OrderInv(s.vms, Finished(s.stop) + s.stop.todo)
      && AllGone(s.vms, Finished(s.stop))
      && RestIsListed(s, s.stop.todo)
  }

  ghost predicate StopInv(s: State) {
    && (s.stop != NotStopping ==> !s.accepting)
    && LoopInv(s)
    && (s.stop.Stopped? ==> OrderInv(s.vms, s.stop.log) && AllGone(s.vms, s.stop.log))
    && (s.stop.Stopped? ==> forall i :: 0 <= i < |s.vms| ==> s.vms[i].runner == Gone)
  }

  lemma EvolutionKeepsStop(s: State, t: State)
    requires StopInv(s) && Evolves(s, t) && t.stop == s.stop && (s.accepting || !t.accepting)
    ensures StopInv(t)
  {
    if s.stop != NotStopping {
      assert |t.vms| == |s.vms|;
      assert forall i :: 0 <= i < |s.vms| ==> VmEvolves(s.vms[i], t.vms[i]);
      if s.stop.Stopping? {
        assert OrderInv(t.vms, Finished(s.stop) + s.stop.todo);
      }
    }
  }

  lemma ListedExactly(s: State, order: seq<nat>)
    requires Shape(s) && StopOrder(s, order)
    ensures RestIsListed(s, order)
  {
    forall i | 0 <= i < |s.vms| && s.vms[i].runner != Gone ensures i in order {
      assert s.active[s.vms[i].config.uuid] == i;
    }
  }

  lemma StopOrderIsGood(s: State, order: seq<nat>)
    requires Shape(s) && StopOrder(s, order)
    ensures OrderInv(s.vms, order)
  {
    forall k | 0 <= k < |order|
      ensures order[k] < |s.vms|
      ensures s.vms[order[k]].config.uuid in s.active && s.active[s.vms[order[k]].config.uuid] == order[k]
    {
      assert order[k] in order;
      var u :| u in s.active && s.active[u] == order[k];
    }
  }

  lemma StopCallKeepsStop(s: State, order: seq<nat>)
    requires Shape(s) && StopOrder(s, order)
    ensures StopInv(s.(accepting := false, stop := Stopping(order, false, [])))
  {
    ListedExactly(s, order);
    StopOrderIsGood(s, order);
    FreshLoop(s.(accepting := false, stop := Stopping(order, false, [])), order);
  }

  lemma FreshLoop(t: State, order: seq<nat>)
    requires t.stop == Stopping(order, false, []) && !t.accepting
    requires OrderInv(t.vms, order) && RestIsListed(t, order)
    ensures StopInv(t)
  {
    assert Finished(t.stop) + t.stop.todo == order;
  }

  /** The entry found under the UUID of the first VM on the list is that VM's own. */
  lemma HeadsEntry(s: State)
    requires Shape(s) && LoopInv(s) && s.stop.Stopping? && s.stop.todo != []
    ensures s.stop.todo[0] < |s.vms|
    ensures s.vms[s.stop.todo[0]].config.uuid in s.active ==>
            s.active[s.vms[s.stop.todo[0]].config.uuid] == s.stop.todo[0]
    ensures s.vms[s.stop.todo[0]].config.uuid in s.active <==> s.vms[s.stop.todo[0]].runner != Gone
  {
    var done, todo := Finished(s.stop), s.stop.todo;
    var order := done + todo;
    assert order[|done|] == todo[0];
    var u := s.vms[todo[0]].config.uuid;
    if u in s.active {
      var i := s.active[u];
      assert s.vms[i].runner != Gone && s.vms[i].config.uuid == u;
      var k :| 0 <= k < |todo| && todo[k] == i;
      assert order[|done| + k] == i;
    }
  }

  lemma StopSignalKeepsStop(s: State)
    requires Shape(s) && StopInv(s)
    ensures StopInv(StopSignalled(s))
  {
    if s.stop.Stopping? && !s.stop.awaiting && s.stop.todo != [] {
      HeadsEntry(s);
      if CanSignal(s, s.stop.todo[0]) {
        assert Finished(StopSignalled(s).stop) == Finished(s.stop);
      }
    }
  }

  lemma StopPollKeepsStop(s: State)
    requires Shape(s) && StopInv(s)
    ensures StopInv(StopPolled(s))
  {
    var t := StopPolled(s);
    if t.stop != s.stop {
      var done, head, rest := Finished(s.stop), s.stop.todo[0], s.stop.todo[1..];
      HeadsEntry(s);
      assert done + [head] == s.stop.log;
      assert done + s.stop.todo == s.stop.log + rest;
      assert Finished(t.stop) == s.stop.log;
      assert AllGone(s.vms, done + [head]);
      forall i | 0 <= i < |t.vms| && t.vms[i].runner != Gone ensures i in rest {
        assert i in s.stop.todo && i != head;
      }
    }
  }

  lemma StopReturnKeepsStop(s: State)
    requires StopInv(s)
    ensures StopInv(StopReturned(s))
  {
    if s.stop.Stopping? && s.stop.todo == [] {
      assert Finished(s.stop) + s.stop.todo == s.stop.log;
    }
  }

  lemma NextKeepsStop(env: Env, s: State, e: Event)
    requires GoodEnv(env) && RegistryInv(s) && StopInv(s)
    ensures StopInv(Next(env, s, e))
  {
    if s.closed || s.fault.Some? {
    } else if e.StopCall? {
      if s.accepting && StopOrder(s, e.order) { StopCallKeepsStop(s, e.order); }
    } else if e.StopSignal? {
      StopSignalKeepsStop(s);
    } else if e.StopPoll? {
      StopPollKeepsStop(s);
    } else if e.StopReturn? {
      StopReturnKeepsStop(s);
    } else {
      NextEvolves(env, s, e);
      OtherEventsLeaveStop(env, s, e);
      EvolutionKeepsStop(s, Next(env, s, e));
    }
  }

  lemma IgnitionLeavesStop(env: Env, s: State, uuid: string, addr: string)
    ensures var t := Next(env, s, Ignition(uuid, addr));
      t.stop == s.stop && t.active == s.active && t.accepting == s.accepting
  {
  }

  lemma OtherEventsLeaveStop(env: Env, s: State, e: Event)
    requires !OfStop(e)
    ensures Next(env, s, e).stop == s.stop && (s.accepting || !Next(env, s, e).accepting)
    ensures !e.Admit? && !e.Exit? ==> Next(env, s, e).active == s.active
  {
    if OfOneVm(e) {
      VmEventFrame(env, s, e);
    } else if e.Ignition? {
      IgnitionLeavesStop(env, s, e.uuid, e.addr);
    }
  }

  lemma {:induction false} RunKeepsStop(env: Env, s: State, events: seq<Event>)
    requires GoodEnv(env) && RegistryInv(s) && OnlyNilProcess(s) && StopInv(s)
    ensures StopInv(Run(env, s, events))
    decreases events
  {
    if events != [] {
      NextKeepsRegistry(env, s, events[0]);
      NextKeepsStop(env, s, events[0]);
      RunKeepsStop(env, Next(env, s, events[0]), events[1..]);
    }
  }

  lemma ReachableStop(env: Env, s: State)
    requires GoodEnv(env) && Reachable(env, s)
    ensures RegistryInv(s) && OnlyNilProcess(s) && StopInv(s)
  {
    ReachableIsSound(env, s);
    var events :| Run(env, Init(env), events) == s;
    RunKeepsStop(env, Init(env), events);
  }

  /** In every run Stop signals VMs newest first, and whenever it has signalled several, all but the
      last have already left the registry. */
  lemma StopSignalsOneByOneNewestFirst(env: Env, s: State)
    requires GoodEnv(env) && Reachable(env, s) && (s.stop.Stopping? || s.stop.Stopped?)
    ensures AllIndices(s.vms, s.stop.log) && NewestFirst(s.vms, s.stop.log)
    ensures AllGone(s.vms, s.stop.log[..if s.stop.log == [] then 0 else |s.stop.log| - 1])
  {
    ReachableStop(env, s);
    if s.stop.Stopping? { LogIsOrdered(s.vms, s.stop); } else { GonePrefix(s.vms, s.stop.log); }
  }

  lemma OrderedPrefix(vms: seq<Vm>, log: seq<nat>, rest: seq<nat>)
    requires OrderInv(vms, log + rest)
    ensures AllIndices(vms, log) && NewestFirst(vms, log)
  {
    assert forall k :: 0 <= k < |log| ==> (log + rest)[k] == log[k];
  }

  lemma GonePrefix(vms: seq<Vm>, log: seq<nat>)
    requires AllGone(vms, log)
    ensures AllGone(vms, log[..if log == [] then 0 else |log| - 1])
  {
  }

  lemma LogIsOrdered(vms: seq<Vm>, stop: Stopping)
    requires stop.Stopping?
    requires stop.awaiting ==> stop.log != [] && stop.todo != [] && stop.log[|stop.log| - 1] == stop.todo[0]
    requires OrderInv(vms, Finished(stop) + stop.todo) && AllGone(vms, Finished(stop))
    ensures AllIndices(vms, stop.log) && NewestFirst(vms, stop.log)
    ensures AllGone(vms, stop.log[..if stop.log == [] then 0 else |stop.log| - 1])
  {
    if stop.awaiting {
      assert Finished(stop) + stop.todo == stop.log + stop.todo[1..];
      OrderedPrefix(vms, stop.log, stop.todo[1..]);
    } else {
      OrderedPrefix(vms, stop.log, stop.todo);
      GonePrefix(vms, stop.log);
    }
  }

  /** When Stop returns, no VM is registered and no job is left. */
  lemma StopEndsEmpty(env: Env, s: State)
    requires GoodEnv(env) && Reachable(env, s) && s.stop.Stopped?
    ensures s.active == map[] && s.jobs == 0
  {
    ReachableStop(env, s);
    AllGoneMeansEmpty(s);
  }

  lemma AllGoneMeansEmpty(s: State)
    requires Shape(s) && forall i :: 0 <= i < |s.vms| ==> s.vms[i].runner == Gone
    ensures s.active == map[] && s.jobs == 0
  {
    forall u: string ensures u !in s.active { }
    NoneUnfinished(s.vms);
  }

  lemma {:induction false} NoneUnfinished(vms: seq<Vm>)
    ensures Unfinished(vms) == 0 <==> forall i :: 0 <= i < |vms| ==> vms[i].runner !in {Up, Unstarted}
  {
    if vms != [] {
      var front := vms[..|vms| - 1];
      NoneUnfinished(front);
      assert forall i :: 0 <= i < |front| ==> front[i] == vms[i];
    }
  }

  // ---- Progress ----

  /** Work left for Stop: the VMs on its list, twice, the signal it owes, and the entries left. */
  function WorkLeft(s: State): nat {
    match s.stop
    case Stopping(todo, awaiting, _) => 1 + 2 * |todo| + (if awaiting then 0 else 1) + |s.active|
    case _ => 0
  }

  lemma SubmapSize(a: map<string, nat>, b: map<string, nat>)
    requires forall u :: u in a ==> u in b
    ensures |a| <= |b|
    ensures |a| == |b| ==> a.Keys == b.Keys
  {
    assert |a.Keys| == |a| && |b.Keys| == |b|;
    SubsetSize(a.Keys, b.Keys);
  }

  lemma SubsetSize(a: set<string>, b: set<string>)
    requires a <= b
    ensures |a| <= |b| && (|a| == |b| ==> a == b)
  {
    assert b == a + (b - a);
    assert |b| == |a| + |b - a|;
    if |a| == |b| { assert b - a == {}; }
  }

  lemma LoopStepsReduceWork(env: Env, s: State, e: Event)
    requires StopInv(s) && s.stop.Stopping? && OfStop(e)
    ensures var t := Next(env, s, e); t.active == s.active && (t.stop != s.stop ==> WorkLeft(t) < WorkLeft(s))
  {
  }

  lemma OtherStepsKeepWork(env: Env, s: State, e: Event)
    requires !s.accepting && s.stop.Stopping? && !OfStop(e)
    ensures var t := Next(env, s, e);
      t.stop == s.stop && WorkLeft(t) <= WorkLeft(s) && (t.active != s.active ==> WorkLeft(t) < WorkLeft(s))
  {
    var t := Next(env, s, e);
    OtherEventsLeaveStop(env, s, e);
    EntriesOnlyLeave(env, s, e);
    SubmapSize(t.active, s.active);
    if t.active.Keys == s.active.Keys { assert t.active == s.active; }
  }

  /** No event adds to the work, and every step of the loop and every departure takes some off. */
  lemma WorkNeverGrows(env: Env, s: State, e: Event)
    requires GoodEnv(env) && Reachable(env, s) && s.stop.Stopping?
    ensures var t := Next(env, s, e);
      && WorkLeft(t) <= WorkLeft(s)
      && (t.stop != s.stop || t.active != s.active ==> WorkLeft(t) < WorkLeft(s))
  {
    ReachableStop(env, s);
    if OfStop(e) {
      LoopStepsReduceWork(env, s, e);
    } else {
      OtherStepsKeepWork(env, s, e);
    }
  }

  /** What Stop is waiting for, or does next. */
  function NextForStop(s: State): Event
    requires s.stop.Stopping?
  {
    if s.stop.todo == [] then StopReturn
    else if !s.stop.awaiting then StopSignal
    else if s.stop.todo[0] < |s.vms| && s.vms[s.stop.todo[0]].config.uuid in s.active then Exit(s.stop.todo[0])
    else StopPoll
  }

  lemma LoopStepIsTaken(env: Env, s: State)
    requires Shape(s) && LoopInv(s) && s.stop.Stopping? && s.fault.None? && !s.closed && !NextForStop(s).Exit?
    ensures Next(env, s, NextForStop(s)).stop != s.stop
  {
    if s.stop.todo != [] { HeadsEntry(s); }
    if s.stop.awaiting { assert |s.stop.todo[1..]| < |s.stop.todo|; }
  }

  lemma AwaitedExitIsTaken(env: Env, s: State)
    requires RegistryInv(s) && LoopInv(s) && s.stop.Stopping? && s.fault.None? && !s.closed && NextForStop(s).Exit?
    ensures Next(env, s, NextForStop(s)).active != s.active
  {
    HeadsEntry(s);
    HeadIsUp(s, s.stop.todo[0]);
    ExitShrinks(env, s, s.stop.todo[0]);
  }

  /** Stop cannot hang: while it runs, its next step, or the exit of the VM it has signalled, is
      possible and takes work off. So it ends if VMs that are signalled exit. */
  lemma StopAlwaysAdvances(env: Env, s: State)
    requires GoodEnv(env) && Reachable(env, s) && s.stop.Stopping? && s.fault.None? && !s.closed
    ensures WorkLeft(Next(env, s, NextForStop(s))) < WorkLeft(s)
  {
    ReachableStop(env, s);
    StepReducesWork(env, s);
  }

  lemma HeadIsUp(s: State, h: nat)
    requires AllSound(s) && h < |s.vms| && s.vms[h].runner != Gone && s.vms[h].process.Some?
    ensures s.vms[h].runner == Up
  {
    assert Sound(s.vms[h]);
  }

  lemma ExitShrinks(env: Env, s: State, h: nat)
    requires Shape(s) && s.fault.None? && !s.closed && h < |s.vms| && s.vms[h].runner == Up
    ensures Next(env, s, Exit(h)).active != s.active
  {
    OwnEntry(s, h);
    assert s.vms[h].config.uuid !in Next(env, s, Exit(h)).active;
  }

  // ---- When Stop panics ----

  /** The k-th listed VM is not the one being waited for, and will never have a process to signal: it
      has gone, could not be started, or was never given a runner. */
  predicate StuckAhead(s: State, k: nat) {
    && s.stop.Stopping? && (if s.stop.awaiting then 1 else 0) <= k < |s.stop.todo|
    && s.stop.todo[k] < |s.vms| && s.vms[s.stop.todo[k]].runner !in {Up, Queued}
  }

  ghost predicate Doomed(s: State) { exists k: nat :: StuckAhead(s, k) }

  /** Every listed VM but the one being waited for is up or will still be started. */
  ghost predicate Stoppable(s: State) {
    s.stop.Stopping? ==> forall k :: (if s.stop.awaiting then 1 else 0) <= k < |s.stop.todo| ==>
      s.stop.todo[k] < |s.vms| && s.vms[s.stop.todo[k]].runner in {Up, Queued}
  }

  /** Every listed VM is up, except that the one being waited for may have gone. */
  ghost predicate Orderly(s: State) {
    s.stop.Stopping? ==> forall k :: (if s.stop.awaiting then 1 else 0) <= k < |s.stop.todo| ==>
      s.stop.todo[k] < |s.vms| && s.vms[s.stop.todo[k]].runner == Up
  }

  lemma SignalPanicsIff(s: State)
    requires RegistryInv(s) && LoopInv(s) && s.stop.Stopping? && !s.stop.awaiting && s.stop.todo != []
    ensures s.stop.todo[0] < |s.vms|
    ensures StopSignalled(s).stop == StopPanicked <==> s.vms[s.stop.todo[0]].runner != Up
  {
    HeadsEntry(s);
    assert Sound(s.vms[s.stop.todo[0]]);
  }

  /** Stop's step fails exactly when the next VM's entry has vanished or has no process. */
  lemma StopPanicsIff(env: Env, s: State)
    requires GoodEnv(env) && Reachable(env, s) && s.fault.None? && !s.closed
    requires s.stop.Stopping? && !s.stop.awaiting && s.stop.todo != []
    ensures s.stop.todo[0] < |s.vms|
    ensures Next(env, s, StopSignal).stop == StopPanicked <==> s.vms[s.stop.todo[0]].runner != Up
  {
    ReachableStop(env, s);
    LoopEventsAre(env, s);
    SignalPanicsIff(s);
  }

  /** The exit of a listed VM before its turn. */
  predicate ExitsOutOfTurn(s: State, e: Event) {
    && e.Exit? && s.stop.Stopping? && e.i in s.stop.todo
    && !(s.stop.awaiting && s.stop.todo != [] && s.stop.todo[0] == e.i)
  }

  lemma RegisteredUnlessExit(env: Env, s: State, e: Event, i: nat)
    requires AllSound(s) && i < |s.vms| && s.vms[i].runner != Gone && e != Exit(i)
    ensures var t := Next(env, s, e); i < |t.vms| && t.vms[i].runner != Gone
  {
    if !e.Ignition? && !e.Exit? && !e.Close? {
      OtherEventKeepsAnnouncements(env, s, e);
    } else if e.Ignition? {
      IgnitionEvolves(env, s, e.uuid, e.addr);
    }
  }

  lemma UpStaysUp(env: Env, s: State, e: Event, i: nat)
    requires GoodEnv(env) && RegistryInv(s) && OnlyNilProcess(s) && i < |s.vms| && s.vms[i].runner == Up && e != Exit(i)
    ensures var t := Next(env, s, e); i < |t.vms| && t.vms[i].runner == Up
  {
    var t := Next(env, s, e);
    RegisteredUnlessExit(env, s, e, i);
    NextEvolves(env, s, e);
    NextKeepsRegistry(env, s, e);
    assert Sound(s.vms[i]) && VmEvolves(s.vms[i], t.vms[i]);
    HeadIsUp(t, i);
  }

  /** No VM is on the list twice. */
  lemma HeadIsListedOnce(s: State)
    requires LoopInv(s) && s.stop.Stopping?
    ensures forall k :: 0 < k < |s.stop.todo| ==> s.stop.todo[k] != s.stop.todo[0]
  {
    var done, todo := Finished(s.stop), s.stop.todo;
    forall k | 0 < k < |todo| ensures todo[k] != todo[0] {
      assert (done + todo)[|done|] == todo[0] && (done + todo)[|done| + k] == todo[k];
    }
  }

  lemma OrderlyBesideLoop(env: Env, s: State, e: Event)
    requires GoodEnv(env) && RegistryInv(s) && OnlyNilProcess(s) && LoopInv(s) && s.stop.Stopping? && Orderly(s)
    requires !ExitsOutOfTurn(s, e) && !OfStop(e)
    ensures var t := Next(env, s, e); Orderly(t) && t.stop == s.stop
  {
    var t := Next(env, s, e);
    OtherEventsLeaveStop(env, s, e);
    HeadIsListedOnce(s);
    forall k | (if s.stop.awaiting then 1 else 0) <= k < |s.stop.todo|
      ensures s.stop.todo[k] < |t.vms| && t.vms[s.stop.todo[k]].runner == Up
    {
      assert s.stop.todo[k] in s.stop.todo;
      UpStaysUp(env, s, e, s.stop.todo[k]);
    }
  }

  lemma LoopEventsAre(env: Env, s: State)
    requires s.fault.None? && !s.closed
    ensures Next(env, s, StopSignal) == StopSignalled(s)
    ensures Next(env, s, StopPoll) == StopPolled(s)
    ensures Next(env, s, StopReturn) == StopReturned(s)
  {
  }

  lemma SignalKeepsOrderly(s: State)
    requires RegistryInv(s) && LoopInv(s) && s.stop.Stopping? && Orderly(s)
    ensures Orderly(StopSignalled(s)) && StopSignalled(s).stop.Stopping?
  {
    if !s.stop.awaiting && s.stop.todo != [] { SignalPanicsIff(s); }
  }

  lemma PollKeepsOrderly(s: State)
    requires s.stop.Stopping? && Orderly(s)
    ensures Orderly(StopPolled(s)) && StopPolled(s).stop.Stopping?
  {
  }

  lemma StopCallIsRefused(env: Env, s: State, order: seq<nat>)
    requires s.stop.Stopping?
    ensures Next(env, s, StopCall(order)) == s
  {
  }

  lemma OrderlyInLoop(env: Env, s: State, e: Event)
    requires RegistryInv(s) && StopInv(s) && s.stop.Stopping? && Orderly(s)
    requires OfStop(e)
    ensures var t := Next(env, s, e); Orderly(t) && (t.stop.Stopping? || t.stop.Stopped?)
  {
    if s.fault.None? && !s.closed {
      LoopEventsAre(env, s);
      SignalKeepsOrderly(s);
      PollKeepsOrderly(s);
      if e.StopCall? { StopCallIsRefused(env, s, e.order); }
    }
  }

  /** As long as no VM leaves out of turn, an orderly shutdown stays orderly and does not panic. */
  lemma OrderlyStays(env: Env, s: State, e: Event)
    requires GoodEnv(env) && RegistryInv(s) && OnlyNilProcess(s) && StopInv(s) && s.stop.Stopping? && Orderly(s)
    requires !ExitsOutOfTurn(s, e)
    ensures var t := Next(env, s, e); Orderly(t) && (t.stop.Stopping? || t.stop.Stopped?)
  {
    if OfStop(e) {
      OrderlyInLoop(env, s, e);
    } else {
      OrderlyBesideLoop(env, s, e);
    }
  }

  ghost predicate NoneOutOfTurn(env: Env, s: State, events: seq<Event>)
    decreases events
  {
    events == [] || (!ExitsOutOfTurn(s, events[0]) && NoneOutOfTurn(env, Next(env, s, events[0]), events[1..]))
  }

  /** Shutting down VMs that are all up succeeds, or is still under way, in every run in which none of
      them leaves out of turn. */
  lemma {:induction false} OrderlyStopNeverPanics(env: Env, s: State, events: seq<Event>)
    requires GoodEnv(env) && RegistryInv(s) && OnlyNilProcess(s) && StopInv(s)
    requires s.stop.Stopped? || (s.stop.Stopping? && Orderly(s))
    requires NoneOutOfTurn(env, s, events)
    ensures Run(env, s, events).stop != StopPanicked
    decreases events
  {
    if events != [] {
      var e := events[0];
      NextKeepsRegistry(env, s, e);
      NextKeepsStop(env, s, e);
      if s.stop.Stopping? { OrderlyStays(env, s, e); } else { EndedStays(env, s, e); }
      OrderlyStopNeverPanics(env, Next(env, s, e), events[1..]);
    }
  }

  lemma NextForStopIsSafe(env: Env, s: State)
    requires GoodEnv(env) && RegistryInv(s) && s.stop.Stopping? && s.fault.None? && !s.closed
    ensures Next(env, s, NextForStop(s)).fault.None? && !Next(env, s, NextForStop(s)).closed
    ensures !ExitsOutOfTurn(s, NextForStop(s))
  {
    var e := NextForStop(s);
    EventCrashesIff(env, s, e);
    StopDoesNotClose(env, s, e);
  }

  lemma StopDoesNotClose(env: Env, s: State, e: Event)
    requires (e.StopSignal? || e.StopPoll? || e.StopReturn? || e.Exit?) && !s.closed
    ensures !Next(env, s, e).closed
  {
  }

  // ---- When Stop can return ----

  predicate HeadIsQueued(s: State) {
    s.stop.Stopping? && !s.stop.awaiting && s.stop.todo != [] && s.stop.todo[0] < |s.vms| &&
    s.vms[s.stop.todo[0]].runner == Queued
  }

  /** What Stop does or waits for next, once the first VM on its list has been started. */
  function NextForStopOrStart(s: State): Event
    requires s.stop.Stopping?
  {
    if HeadIsQueued(s) then Start(s.stop.todo[0], Some(0)) else NextForStop(s)
  }

  lemma StartOfHeadIs(env: Env, s: State, h: nat)
    requires h < |s.vms| && Sound(s.vms[h]) && s.vms[h].runner == Queued && s.fault.None? && !s.closed
    ensures var v := Started(s.vms[h], Some(0)).vm;
      v.runner == Up && Next(env, s, Start(h, Some(0))) == s.(vms := s.vms[h := v], jobs := s.jobs + 1)
  {
    RunnerStartedIs(s, h, Some(0));
    StartedKeeps(s.vms[h], Some(0));
  }

  lemma UpHeadIsStoppable(s: State, v: Vm)
    requires Stoppable(s) && HeadIsQueued(s) && v.runner == Up
    ensures var t := s.(vms := s.vms[s.stop.todo[0] := v], jobs := s.jobs + 1);
      Stoppable(t) && WorkLeft(t) == WorkLeft(s) && !HeadIsQueued(t)
  {
  }

  lemma StartKeepsStoppable(env: Env, s: State)
    requires RegistryInv(s) && Stoppable(s) && HeadIsQueued(s) && s.fault.None? && !s.closed
    ensures var t := Next(env, s, NextForStopOrStart(s));
      && Stoppable(t) && t.stop == s.stop && t.fault.None? && !t.closed
      && WorkLeft(t) == WorkLeft(s) && !HeadIsQueued(t)
  {
    var h := s.stop.todo[0];
    StartOfHeadIs(env, s, h);
    UpHeadIsStoppable(s, Started(s.vms[h], Some(0)).vm);
  }

  lemma ExitKeepsStoppable(env: Env, s: State, h: nat)
    requires LoopInv(s) && Stoppable(s) && s.stop.Stopping? && s.stop.awaiting && s.stop.todo != [] &&
            h == s.stop.todo[0]
    ensures Stoppable(Next(env, s, Exit(h)))
  {
    OtherEventsLeaveStop(env, s, Exit(h));
    HeadIsListedOnce(s);
    if h < |s.vms| {
      var t := RunnerExited(env, s, h);
      assert |t.vms| == |s.vms| && forall i :: 0 <= i < |s.vms| && i != h ==> t.vms[i] == s.vms[i];
    }
  }

  lemma SignalKeepsStoppable(s: State)
    requires RegistryInv(s) && LoopInv(s) && Stoppable(s) && s.stop.Stopping? && !HeadIsQueued(s)
    ensures Stoppable(StopSignalled(s)) && StopSignalled(s).stop.Stopping?
  {
    if !s.stop.awaiting && s.stop.todo != [] { SignalPanicsIff(s); }
  }

  lemma PollKeepsStoppable(s: State)
    requires Stoppable(s) && s.stop.Stopping?
    ensures Stoppable(StopPolled(s)) && StopPolled(s).stop.Stopping?
  {
  }

  lemma NextKeepsStoppable(env: Env, s: State)
    requires GoodEnv(env) && RegistryInv(s) && StopInv(s) && s.fault.None? && !s.closed
    requires s.stop.Stopping? && Stoppable(s) && !HeadIsQueued(s)
    ensures var t := Next(env, s, NextForStop(s)); Stoppable(t) && (t.stop.Stopping? || (t.stop.Stopped? && t.oops))
  {
    var e := NextForStop(s);
    LoopEventsAre(env, s);
    if e == StopReturn {
    } else if e == StopSignal {
      SignalKeepsStoppable(s);
    } else if e == StopPoll {
      PollKeepsStoppable(s);
    } else {
      ExitKeepsStoppable(env, s, e.i);
      OtherEventsLeaveStop(env, s, e);
    }
  }

  /** A shutdown of VMs that are up or get started, and exit once signalled, runs to its end, with
      nothing left. */
  lemma {:induction false} StoppableFinishes(env: Env, s: State) returns (events: seq<Event>)
    requires GoodEnv(env) && RegistryInv(s) && StopInv(s) && s.fault.None? && !s.closed
    requires s.stop.Stopping? && Stoppable(s)
    ensures var t := Run(env, s, events); t.stop.Stopped? && t.active == map[] && t.jobs == 0 && t.oops
    decreases WorkLeft(s), HeadIsQueued(s)
  {
    var e := NextForStopOrStart(s);
    var t := Next(env, s, e);
    NextKeepsRegistry(env, s, e);
    NextKeepsStop(env, s, e);
    if HeadIsQueued(s) {
      StartKeepsStoppable(env, s);
    } else {
      NextForStopIsSafe(env, s);
      NextKeepsStoppable(env, s);
      StepReducesWork(env, s);
    }
    if t.stop.Stopped? {
      events := [e];
      RunOfCons(env, s, e, []);
      assert [e] + [] == [e];
      AllGoneMeansEmpty(t);
    } else {
      var rest := StoppableFinishes(env, t);
      events := [e] + rest;
      RunOfCons(env, s, e, rest);
    }
  }

  /** From a state a run of the daemon reaches, Stop can still return exactly if every VM left on its
      list, but the one it waits for, is up or still to be started. */
  lemma StopReturnsIff(env: Env, s: State)
    requires GoodEnv(env) && Reachable(env, s) && s.stop.Stopping? && s.fault.None? && !s.closed
    ensures forall k :: 0 <= k < |s.stop.todo| ==> s.stop.todo[k] < |s.vms|
    ensures (exists events: seq<Event> :: Run(env, s, events).stop.Stopped?) <==>
            forall k :: (if s.stop.awaiting then 1 else 0) <= k < |s.stop.todo| ==>
              s.vms[s.stop.todo[k]].runner in {Up, Queued}
  {
    ReachableStop(env, s);
    ListedAreKnown(s);
    if Stoppable(s) {
      var events := StoppableFinishes(env, s);
      assert Run(env, s, events).stop.Stopped?;
    } else {
      var k :| (if s.stop.awaiting then 1 else 0) <= k < |s.stop.todo| && s.vms[s.stop.todo[k]].runner !in {Up, Queued};
      assert StuckAhead(s, k);
      forall events: seq<Event> ensures !Run(env, s, events).stop.Stopped? {
        DoomedStopNeverReturns(env, s, events);
      }
    }
  }

  lemma ListedAreKnown(s: State)
    requires LoopInv(s) && s.stop.Stopping?
    ensures forall k :: 0 <= k < |s.stop.todo| ==> s.stop.todo[k] < |s.vms|
  {
    var done, todo := Finished(s.stop), s.stop.todo;
    forall k | 0 <= k < |todo| ensures todo[k] < |s.vms| {
      assert (done + todo)[|done| + k] == todo[k];
    }
  }

  lemma StepReducesWork(env: Env, s: State)
    requires RegistryInv(s) && StopInv(s) && s.stop.Stopping? && s.fault.None? && !s.closed
    ensures WorkLeft(Next(env, s, NextForStop(s))) < WorkLeft(s)
  {
    var e := NextForStop(s);
    if e.Exit? {
      AwaitedExitIsTaken(env, s);
      OtherStepsKeepWork(env, s, e);
    } else {
      LoopStepIsTaken(env, s);
      LoopStepsReduceWork(env, s, e);
    }
  }

  lemma EndedStays(env: Env, s: State, e: Event)
    requires s.stop.Stopped? || s.stop.StopPanicked?
    ensures Next(env, s, e).stop == s.stop
  {
    if !OfStop(e) { OtherEventsLeaveStop(env, s, e); }
  }

  /** Once a listed VM can no longer be signalled, Stop never returns. */
  lemma {:induction false} DoomedStopNeverReturns(env: Env, s: State, events: seq<Event>)
    requires GoodEnv(env) && RegistryInv(s) && OnlyNilProcess(s) && StopInv(s)
    requires Doomed(s) || s.stop == StopPanicked
    ensures !Run(env, s, events).stop.Stopped?
    decreases events
  {
    if events != [] {
      var e := events[0];
      NextKeepsRegistry(env, s, e);
      NextKeepsStop(env, s, e);
      DoomStays(env, s, e);
      DoomedStopNeverReturns(env, Next(env, s, e), events[1..]);
    }
  }

  lemma DoomedIfSignalled(s: State, k: nat)
    requires RegistryInv(s) && LoopInv(s) && StuckAhead(s, k)
    ensures Doomed(StopSignalled(s)) || StopSignalled(s).stop == StopPanicked
  {
    if s.stop.awaiting {
      assert StuckAhead(StopSignalled(s), k);
    } else {
      SignalPanicsIff(s);
      assert k > 0 && StopSignalled(s).stop.Stopping? ==> StuckAhead(StopSignalled(s), k);
    }
  }

  lemma DoomedIfPolled(s: State, k: nat)
    requires StuckAhead(s, k)
    ensures Doomed(StopPolled(s))
  {
    if StopPolled(s) == s {
      assert StuckAhead(s, k);
    } else {
      assert s.stop.todo[1..][k - 1] == s.stop.todo[k];
      assert StuckAhead(StopPolled(s), k - 1);
    }
  }

  lemma DoomedIfReturned(env: Env, s: State, e: Event, k: nat)
    requires StuckAhead(s, k) && (e.StopCall? || e.StopReturn?)
    ensures Next(env, s, e) == s
  {
  }

  lemma DoomStaysInLoop(env: Env, s: State, e: Event, k: nat)
    requires RegistryInv(s) && LoopInv(s) && StuckAhead(s, k)
    requires OfStop(e)
    ensures var t := Next(env, s, e); Doomed(t) || t.stop == StopPanicked
  {
    if s.closed || s.fault.Some? {
      assert StuckAhead(Next(env, s, e), k);
    } else if e == StopSignal {
      LoopEventsAre(env, s);
      DoomedIfSignalled(s, k);
    } else if e == StopPoll {
      LoopEventsAre(env, s);
      DoomedIfPolled(s, k);
    } else {
      DoomedIfReturned(env, s, e, k);
    }
  }

  lemma DoomStaysBesideLoop(env: Env, s: State, e: Event, k: nat)
    requires RegistryInv(s) && StuckAhead(s, k)
    requires !OfStop(e)
    ensures Doomed(Next(env, s, e))
  {
    var t := Next(env, s, e);
    NextEvolves(env, s, e);
    assert VmEvolves(s.vms[s.stop.todo[k]], t.vms[s.stop.todo[k]]);
    OtherEventsLeaveStop(env, s, e);
    assert StuckAhead(t, k);
  }

  lemma DoomStays(env: Env, s: State, e: Event)
    requires GoodEnv(env) && RegistryInv(s) && StopInv(s) && (Doomed(s) || s.stop == StopPanicked)
    ensures var t := Next(env, s, e); Doomed(t) || t.stop == StopPanicked
  {
    if s.stop == StopPanicked {
      EndedStays(env, s, e);
    } else {
      var k: nat :| StuckAhead(s, k);
      if OfStop(e) {
        DoomStaysInLoop(env, s, e, k);
      } else {
        DoomStaysBesideLoop(env, s, e, k);
      }
    }
  }

  /** A VM leaving out of turn makes it so. */
  lemma LeavingOutOfTurnDooms(env: Env, s: State, e: Event)
    requires GoodEnv(env) && RegistryInv(s) && StopInv(s) && s.fault.None? && !s.closed
    requires ExitsOutOfTurn(s, e) && e.i < |s.vms| && s.vms[e.i].runner == Up
    ensures Doomed(Next(env, s, e))
  {
    var k :| 0 <= k < |s.stop.todo| && s.stop.todo[k] == e.i;
    OwnEntry(s, e.i);
    var t := Next(env, s, e);
    assert t.stop == s.stop && t.vms[s.stop.todo[k]].runner == Gone;
    assert StuckAhead(t, k);
  }

  // ---- Closing the server ----

  /** The server closes only with no job left. The entries it then leaves behind are exactly those of
      VMs whose runner was never scheduled or never created. */
  lemma ClosedOnlyWhenIdle(env: Env, s: State)
    requires GoodEnv(env) && Reachable(env, s) && s.fault.None? && !s.closed && Next(env, s, Close).closed
    ensures s.jobs == 0 && !s.accepting
    ensures forall i :: 0 <= i < |s.vms| ==>
              (s.vms[i].config.uuid in s.active && s.active[s.vms[i].config.uuid] == i <==>
                  s.vms[i].runner in {Queued, Missing})
  {
    ReachableIsSound(env, s);
    var events :| Run(env, Init(env), events) == s;
    WokenRefuses(env, Init(env), events);
    IdleEntries(s);
  }

  lemma IdleEntries(s: State)
    requires Shape(s) && s.jobs == 0
    ensures forall i :: 0 <= i < |s.vms| ==>
              (s.vms[i].config.uuid in s.active && s.active[s.vms[i].config.uuid] == i <==>
                  s.vms[i].runner in {Queued, Missing})
  {
    NoneUnfinished(s.vms);
  }

  lemma {:induction false} WokenRefuses(env: Env, s: State, events: seq<Event>)
    requires s.woken ==> !s.accepting
    ensures Run(env, s, events).woken ==> !Run(env, s, events).accepting
    decreases events
  {
    if events != [] {
      var t := Next(env, s, events[0]);
      if !s.accepting { EntriesOnlyLeave(env, s, events[0]); }
      WokenOnlyByWake(env, s, events[0]);
      WokenRefuses(env, t, events[1..]);
    }
  }

  lemma WokenOnlyByWake(env: Env, s: State, e: Event)
    ensures Next(env, s, e).woken ==> s.woken || !Next(env, s, e).accepting
  {
    if e.Start? || e.Timeout? || e.Expire? || e.TakeIP? || e.Answer? {
    } else if e.Callback? || e.Connectivity? || e.Ignition? {
    }
  }

  /** Such a run: a VM is admitted, the daemon is told to go, and closes before the VM's runner is
      scheduled; the VM stays behind. */
  lemma CloseCanMissAQueuedVm(env: Env, config: Config)
    requires config.name != RESERVED_HOST
    ensures var s := Run(env, Init(env), [Admit(config, 0, true)] + ([Oops] + ([Wake] + [Close])));
      s.closed && s.active == map[config.uuid := 0]
  {
    var s := Init(env);
    FirstAdmission(env, config);
    RunOfCons(env, s, Admit(config, 0, true), [Oops] + ([Wake] + [Close]));
    RunOfThree(env, Next(env, s, Admit(config, 0, true)), Oops, Wake, Close);
  }
}
