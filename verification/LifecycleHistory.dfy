/** The daemon told from the list of events alone: who got in and when, what started and ended, and
    which guests reported what. The state machine is proved to agree with this account in every run. */
module LifecycleHistory {
  import opened Text
  import opened Dns
  import opened Lifecycle
  import opened LifecycleInvariants
  import opened LifecycleTheorems
  import opened LifecycleStop

  /** What the events say of one VM: its settings and, unless it got no run directory, the time it was
      admitted at; how its process was started, and whether it has ended; the address of the guest's
      first report and of its last ignition request; and whether it has shown that it reaches outside. */
  datatype Entry = Entry(
    config: Config, now: Option<nat>, started: Option<Option<nat>>, ended: bool,
    caller: Option<string>, fetcher: Option<string>, checked: bool)

  /** An address the guest handlers obey: one on the VM network that is not loopback. */
  predicate FromNetwork(env: Env, addr: string) { addr in env.network && !("127." <= addr) }

  /** The request is for this VM, which has not ended, and from the VM network. */
  predicate Hears(env: Env, x: Entry, uuid: string, addr: string) {
    !x.ended && x.config.uuid == uuid && FromNetwork(env, addr)
  }

  /** No VM that has not ended has this name or this UUID, and the name is not the daemon's own. */
  ghost predicate IsFree(ledger: seq<Entry>, config: Config) {
    && config.name != "corectld"
    && forall i :: 0 <= i < |ledger| && !ledger[i].ended ==>
        ledger[i].config.name != config.name && ledger[i].config.uuid != config.uuid
  }

  /** What an event adds to the account of the i-th VM. */
  function Noted(env: Env, x: Entry, i: nat, e: Event): Entry {
    match e
    case Start(j, process) => if j == i && x.now.Some? && x.started.None? then x.(started := Some(process)) else x
    case Exit(j) => if j == i && x.started.Some? then x.(ended := true) else x
    case Callback(uuid, addr) => if Hears(env, x, uuid, addr) && x.caller.None? then x.(caller := Some(addr)) else x
    case Ignition(uuid, addr) => if Hears(env, x, uuid, addr) then x.(fetcher := Some(addr)) else x
    case Connectivity(uuid, addr) => if Hears(env, x, uuid, addr) then x.(checked := true) else x
    case _ => x
  }

  function NotedAll(env: Env, ledger: seq<Entry>, e: Event): (after: seq<Entry>)
    ensures |after| == |ledger| && forall i :: 0 <= i < |ledger| ==> after[i] == Noted(env, ledger[i], i, e)
  {
    seq(|ledger|, i requires 0 <= i < |ledger| => Noted(env, ledger[i], i, e))
  }

  function Admission(config: Config, now: nat, runDirOk: bool): Entry {
    Entry(config, if runDirOk then Some(now) else None, None, false, None, None, false)
  }

  /** One more event. Of the daemon's state it takes only whether requests are accepted. */
  ghost function Continued(env: Env, accepting: bool, ledger: seq<Entry>, e: Event): seq<Entry> {
    if e.Admit? then
      if accepting && IsFree(ledger, e.config) then ledger + [Admission(e.config, e.now, e.runDirOk)] else ledger
    else NotedAll(env, ledger, e)
  }

  ghost function Now(env: Env, events: seq<Event>): State { Run(env, Init(env), events) }

  /** The account of a run of the daemon, up to its crash or close. */
  ghost function Ledger(env: Env, events: seq<Event>): seq<Entry>
    decreases |events|
  {
    if events == [] then []
    else
      var past, e := events[..|events| - 1], events[|events| - 1];
      if DaemonIsUp(Now(env, past)) then Continued(env, Now(env, past).accepting, Ledger(env, past), e)
      else Ledger(env, past)
  }

  // ---- The state agrees with the account ----

  function RunnerOf(x: Entry): Runner {
    if x.now.None? then Missing
    else if x.started.None? then Queued
    else if x.ended then Gone
    else if x.started.value.Some? then Up
    else Unstarted
  }

  ghost predicate Agrees(v: Vm, x: Entry) {
    && v.config == x.config
    && v.created == (if x.now.Some? then x.now.value else 0)
    && v.runner == RunnerOf(x) && (x.ended ==> x.started.Some? && x.now.Some?)
    && v.process == (if x.started.Some? then x.started.value else None)
    && v.pid == (if v.watcher in {Waiting, Absent} then None else v.process)
    && v.callBackUsed == x.caller.Some?
    && (x.caller.None? ==> v.publicIPCh.queue == [] && v.publicIP == "")
    && (x.caller.Some? && !v.done ==> v.publicIPCh.queue == [x.caller.value] && v.publicIP == "")
    && (x.caller.Some? && v.done ==> v.publicIPCh.queue == [] && v.publicIP == x.caller.value)
    && v.announced == x.fetcher
    && v.isolationUsed == v.notIsolated == x.checked
    && (x.now.None? ==> x.started.None?)
  }

  ghost predicate AllAgree(vms: seq<Vm>, ledger: seq<Entry>) {
    |vms| == |ledger| && forall i :: 0 <= i < |vms| ==> Agrees(vms[i], ledger[i])
  }

  lemma {:induction false} RunOfConcat(env: Env, s: State, first: seq<Event>, rest: seq<Event>)
    ensures Run(env, s, first + rest) == Run(env, Run(env, s, first), rest)
    decreases first
  {
    if first == [] {
      assert first + rest == rest;
    } else {
      assert (first + rest)[0] == first[0] && (first + rest)[1..] == first[1..] + rest;
      RunOfConcat(env, Next(env, s, first[0]), first[1..], rest);
    }
  }

  lemma RunOfSnoc(env: Env, s: State, past: seq<Event>, e: Event)
    ensures Run(env, s, past + [e]) == Next(env, Run(env, s, past), e)
  {
    RunOfConcat(env, s, past, [e]);
    RunOfOne(env, Run(env, s, past), e);
  }

  lemma NowOfSnoc(env: Env, events: seq<Event>)
    requires events != []
    ensures Now(env, events) == Next(env, Now(env, events[..|events| - 1]), events[|events| - 1])
  {
    var past, e, start := events[..|events| - 1], events[|events| - 1], Init(env);
    assert events == past + [e];
    RunOfSnoc(env, start, past, e);
  }

  lemma NowIsSound(env: Env, events: seq<Event>)
    requires GoodEnv(env)
    ensures RegistryInv(Now(env, events)) && OnlyNilProcess(Now(env, events))
  {
    assert Reachable(env, Now(env, events));
    ReachableIsSound(env, Now(env, events));
  }

  // One VM.

  /** An event of one VM reaches the VM it names, or the registered VM with the UUID it names. */
  predicate Reaches(env: Env, x: Entry, i: nat, e: Event)
    requires OfOneVm(e)
  {
    if e.Callback? || e.Connectivity? then Hears(env, x, e.uuid, e.addr) else e.i == i
  }

  ghost predicate AgreesAfter(v: Vm, outcome: Outcome, x: Entry) {
    Agrees(if outcome.Changed? then outcome.vm else v, x)
  }

  lemma ReportAgrees(env: Env, v: Vm, x: Entry, i: nat, e: Event)
    requires GoodEnv(env) && Sound(v) && Agrees(v, x) && (e.Callback? || e.Connectivity?) && Reaches(env, x, i, e)
    ensures AgreesAfter(v, OutcomeOf(v, e), Noted(env, x, i, e))
  {
  }

  lemma OutcomeAgrees(env: Env, v: Vm, x: Entry, i: nat, e: Event)
    requires GoodEnv(env) && Sound(v) && Agrees(v, x) && OfOneVm(e) && Reaches(env, x, i, e)
    ensures AgreesAfter(v, OutcomeOf(v, e), Noted(env, x, i, e))
  {
    if e.Callback? || e.Connectivity? { ReportAgrees(env, v, x, i, e); }
  }

  lemma OthersAreNotNoted(env: Env, x: Entry, i: nat, e: Event)
    requires OfOneVm(e) && !Reaches(env, x, i, e)
    ensures Noted(env, x, i, e) == x
  {
  }

  lemma AppliedAgrees(s: State, j: nat, outcome: Outcome, i: nat, x: Entry)
    requires i < |s.vms| && j < |s.vms|
    requires if i == j then AgreesAfter(s.vms[i], outcome, x) else Agrees(s.vms[i], x)
    ensures var t := Apply(s, j, outcome); i < |t.vms| && Agrees(t.vms[i], x)
  {
  }

  lemma ReachedIsConcerned(env: Env, s: State, ledger: seq<Entry>, e: Event, i: nat)
    requires Shape(s) && AllAgree(s.vms, ledger) && OfOneVm(e) && i < |s.vms|
    ensures Reaches(env, ledger[i], i, e) <==> Concerned(env, s, e) == i
  {
    assert Agrees(s.vms[i], ledger[i]);
    if e.Callback? || e.Connectivity? {
      var uuid := s.vms[i].config.uuid;
      assert s.vms[i].runner != Gone ==> uuid in s.active && s.active[uuid] == i;
    }
  }

  lemma VmEventAgreesAt(env: Env, s: State, ledger: seq<Entry>, e: Event, i: nat)
    requires GoodEnv(env) && RegistryInv(s) && DaemonIsUp(s) && AllAgree(s.vms, ledger) && OfOneVm(e) && i < |s.vms|
    ensures var t := Next(env, s, e); i < |t.vms| && Agrees(t.vms[i], Noted(env, ledger[i], i, e))
  {
    var x, j := Noted(env, ledger[i], i, e), Concerned(env, s, e);
    assert Sound(s.vms[i]) && Agrees(s.vms[i], ledger[i]);
    ReachedIsConcerned(env, s, ledger, e, i);
    if i == j { OutcomeAgrees(env, s.vms[i], ledger[i], i, e); } else { OthersAreNotNoted(env, ledger[i], i, e); }
    VmEventDoes(env, s, e);
    if j < |s.vms| { AppliedAgrees(s, j, OutcomeOf(s.vms[j], e), i, x); }
  }

  lemma VmEventAgrees(env: Env, s: State, ledger: seq<Entry>, e: Event)
    requires GoodEnv(env) && RegistryInv(s) && DaemonIsUp(s) && AllAgree(s.vms, ledger) && OfOneVm(e)
    ensures AllAgree(Next(env, s, e).vms, NotedAll(env, ledger, e))
  {
    VmEventFrame(env, s, e);
    forall i | 0 <= i < |s.vms| ensures Agrees(Next(env, s, e).vms[i], NotedAll(env, ledger, e)[i]) {
      VmEventAgreesAt(env, s, ledger, e, i);
    }
  }

  lemma HeardIsFromGuest(env: Env, s: State, ledger: seq<Entry>, uuid: string, addr: string, i: nat)
    requires Shape(s) && AllAgree(s.vms, ledger) && i < |s.vms|
    ensures Hears(env, ledger[i], uuid, addr) <==> FromGuest(env, s, uuid, addr) && s.active[uuid] == i
  {
    assert Agrees(s.vms[i], ledger[i]);
  }

  lemma OneUpdateAgrees(vms: seq<Vm>, ledger: seq<Entry>, j: nat, v: Vm, x: Entry)
    requires AllAgree(vms, ledger) && j < |vms| && Agrees(v, x)
    ensures AllAgree(vms[j := v], ledger[j := x])
  {
  }

  lemma IgnitedAgrees(env: Env, s: State, ledger: seq<Entry>, uuid: string, addr: string)
    requires AllAgree(s.vms, ledger) && DaemonIsUp(s) && FromGuest(env, s, uuid, addr) && s.active[uuid] < |s.vms|
    ensures var j := s.active[uuid];
      AllAgree(Next(env, s, Ignition(uuid, addr)).vms, ledger[j := ledger[j].(fetcher := Some(addr))])
  {
    var j := s.active[uuid];
    var v, x := s.vms[j].(announced := Some(addr)), ledger[j].(fetcher := Some(addr));
    assert Agrees(s.vms[j], ledger[j]);
    assert Next(env, s, Ignition(uuid, addr)) == Ignited(env, s, uuid, addr);
    OneUpdateAgrees(s.vms, ledger, j, v, x);
  }

  lemma IgnitionAgrees(env: Env, s: State, ledger: seq<Entry>, uuid: string, addr: string)
    requires RegistryInv(s) && DaemonIsUp(s) && AllAgree(s.vms, ledger)
    ensures AllAgree(Next(env, s, Ignition(uuid, addr)).vms, NotedAll(env, ledger, Ignition(uuid, addr)))
  {
    var after := NotedAll(env, ledger, Ignition(uuid, addr));
    forall i | 0 <= i < |s.vms|
      ensures Hears(env, ledger[i], uuid, addr) <==> FromGuest(env, s, uuid, addr) && s.active[uuid] == i
    {
      HeardIsFromGuest(env, s, ledger, uuid, addr, i);
    }
    if FromGuest(env, s, uuid, addr) {
      assert after == ledger[s.active[uuid] := ledger[s.active[uuid]].(fetcher := Some(addr))];
      IgnitedAgrees(env, s, ledger, uuid, addr);
    } else {
      assert after == ledger;
    }
  }

  lemma ExitAgrees(env: Env, s: State, ledger: seq<Entry>, i: nat)
    requires RegistryInv(s) && DaemonIsUp(s) && AllAgree(s.vms, ledger)
    ensures AllAgree(Next(env, s, Exit(i)).vms, NotedAll(env, ledger, Exit(i)))
  {
    var after := NotedAll(env, ledger, Exit(i));
    if i < |s.vms| {
      var v, x := s.vms[i], ledger[i];
      assert Agrees(v, x);
      if v.runner in {Up, Unstarted} {
        OwnEntry(s, i);
        assert after == ledger[i := x.(ended := true)];
        assert Next(env, s, Exit(i)).vms == s.vms[i := v.(runner := Gone)];
        OneUpdateAgrees(s.vms, ledger, i, v.(runner := Gone), x.(ended := true));
      } else {
        assert after == ledger;
      }
    } else {
      assert after == ledger;
    }
  }

  /** A VM is let in exactly if requests are accepted and, by the account, its name and UUID are free. */
  lemma FreeIsUnrefused(s: State, ledger: seq<Entry>, config: Config)
    requires Shape(s) && AllAgree(s.vms, ledger)
    ensures RefusalOf(s, config).None? <==> s.accepting && IsFree(ledger, config)
  {
    forall i | 0 <= i < |s.vms|
      ensures !ledger[i].ended <==> s.vms[i].config.uuid in s.active && s.active[s.vms[i].config.uuid] == i
      ensures s.vms[i].config == ledger[i].config
    {
      assert Agrees(s.vms[i], ledger[i]);
    }
    if Taken(s, config) {
      if config.uuid in s.active {
        assert !ledger[s.active[config.uuid]].ended;
      } else {
        var u :| u in s.active && s.active[u] < |s.vms| && s.vms[s.active[u]].config.name == config.name;
        assert !ledger[s.active[u]].ended;
      }
    }
  }

  /** Which refusal it is: shutting down before a reserved name before a name or UUID in use. */
  lemma RefusedAsDeserved(s: State, ledger: seq<Entry>, config: Config)
    requires Shape(s) && AllAgree(s.vms, ledger)
    ensures RefusalOf(s, config) ==
            if !s.accepting then Some(ShuttingDown)
            else if config.name == "corectld" then Some(ReservedName)
            else if IsFree(ledger, config) then None else Some(AlreadyRunning)
  {
    FreeIsUnrefused(s, ledger, config);
  }

  lemma AdmitAgrees(env: Env, s: State, ledger: seq<Entry>, e: Event)
    requires RegistryInv(s) && DaemonIsUp(s) && AllAgree(s.vms, ledger) && e.Admit?
    ensures AllAgree(Next(env, s, e).vms, Continued(env, s.accepting, ledger, e))
  {
    FreeIsUnrefused(s, ledger, e.config);
  }

  lemma NextAgrees(env: Env, s: State, ledger: seq<Entry>, e: Event)
    requires GoodEnv(env) && RegistryInv(s) && DaemonIsUp(s) && AllAgree(s.vms, ledger)
    ensures AllAgree(Next(env, s, e).vms, Continued(env, s.accepting, ledger, e))
  {
    if e.Admit? {
      AdmitAgrees(env, s, ledger, e);
    } else if OfOneVm(e) {
      VmEventAgrees(env, s, ledger, e);
    } else if e.Ignition? {
      IgnitionAgrees(env, s, ledger, e.uuid, e.addr);
    } else if e.Exit? {
      ExitAgrees(env, s, ledger, e.i);
    } else {
      DaemonEventEvolves(env, s, e);
      assert NotedAll(env, ledger, e) == ledger;
    }
  }

  /** In every run the state is as the events tell. */
  lemma {:induction false} StateAgreesWithLedger(env: Env, events: seq<Event>)
    requires GoodEnv(env)
    ensures AllAgree(Now(env, events).vms, Ledger(env, events))
    decreases |events|
  {
    if events != [] {
      var past, e := events[..|events| - 1], events[|events| - 1];
      StateAgreesWithLedger(env, past);
      NowIsSound(env, past);
      NowOfSnoc(env, events);
      if DaemonIsUp(Now(env, past)) { NextAgrees(env, Now(env, past), Ledger(env, past), e); }
    }
  }

  // ---- Who called ----

  /** The state before the k-th event. */
  ghost function Before(env: Env, events: seq<Event>, k: nat): State
    requires k <= |events|
  {
    Now(env, events[..k])
  }

  /** A guest on the VM network reports in under the entry of VM `i`. */
  ghost predicate ReportsTo(env: Env, s: State, e: Event, i: nat) {
    e.Callback? && DaemonIsUp(s) && e.uuid in s.active && s.active[e.uuid] == i && FromNetwork(env, e.addr)
  }

  /** No event before the n-th is a report for VM `i`. */
  ghost predicate Unreported(env: Env, events: seq<Event>, i: nat, n: nat)
    requires n <= |events|
  {
    forall j :: 0 <= j < n ==> !ReportsTo(env, Before(env, events, j), events[j], i)
  }

  /** The k-th event is the first report for VM `i`, under the VM's own UUID and from this address. */
  ghost predicate IsFirstReport(env: Env, events: seq<Event>, k: nat, i: nat, ip: string) {
    && k < |events| && i < |Before(env, events, k).vms|
    && events[k] == Callback(Before(env, events, k).vms[i].config.uuid, ip)
    && ReportsTo(env, Before(env, events, k), events[k], i)
    && Unreported(env, events, i, k)
  }

  lemma ReportIsHeard(env: Env, s: State, ledger: seq<Entry>, e: Event, i: nat)
    requires Shape(s) && AllAgree(s.vms, ledger) && e.Callback? && DaemonIsUp(s)
    ensures ReportsTo(env, s, e, i) <==> i < |ledger| && Hears(env, ledger[i], e.uuid, e.addr)
    ensures ReportsTo(env, s, e, i) ==> s.vms[i].config.uuid == e.uuid
  {
    if i < |ledger| { assert Agrees(s.vms[i], ledger[i]); }
  }

  lemma SamePast(env: Env, past: seq<Event>, e: Event, k: nat)
    requires k <= |past|
    ensures Before(env, past + [e], k) == Before(env, past, k)
    ensures Before(env, past + [e], |past|) == Now(env, past)
  {
    assert (past + [e])[..k] == past[..k] && (past + [e])[..|past|] == past && past[..|past|] == past;
  }

  lemma UnreportedStays(env: Env, past: seq<Event>, e: Event, i: nat, n: nat)
    requires n <= |past| && Unreported(env, past, i, n)
    ensures Unreported(env, past + [e], i, n)
  {
    forall j | 0 <= j < n ensures !ReportsTo(env, Before(env, past + [e], j), (past + [e])[j], i) {
      SamePast(env, past, e, j);
    }
  }

  lemma FirstReportStays(env: Env, past: seq<Event>, e: Event, k: nat, i: nat, ip: string)
    requires IsFirstReport(env, past, k, i, ip)
    ensures IsFirstReport(env, past + [e], k, i, ip)
  {
    SamePast(env, past, e, k);
    UnreportedStays(env, past, e, i, k);
  }

  lemma ReportedNow(env: Env, past: seq<Event>, e: Event, i: nat)
    requires GoodEnv(env) && Unreported(env, past, i, |past|)
    ensures if ReportsTo(env, Now(env, past), e, i) then IsFirstReport(env, past + [e], |past|, i, e.addr)
            else Unreported(env, past + [e], i, |past| + 1)
  {
    SamePast(env, past, e, |past|);
    UnreportedStays(env, past, e, i, |past|);
    NowIsSound(env, past);
    StateAgreesWithLedger(env, past);
    if e.Callback? && DaemonIsUp(Now(env, past)) { ReportIsHeard(env, Now(env, past), Ledger(env, past), e, i); }
  }

  /** The account knows of no caller of VM `i`. */
  ghost predicate Uncalled(ledger: seq<Entry>, i: nat) { i < |ledger| ==> ledger[i].caller.None? }

  lemma LedgerOfSnoc(env: Env, past: seq<Event>, e: Event)
    ensures Ledger(env, past + [e]) ==
            if DaemonIsUp(Now(env, past)) then Continued(env, Now(env, past).accepting, Ledger(env, past), e)
            else Ledger(env, past)
  {
    assert (past + [e])[..|past|] == past;
  }

  lemma OnlyCallsAddCallers(env: Env, accepting: bool, ledger: seq<Entry>, e: Event, i: nat)
    requires !e.Callback?
    ensures var after := Continued(env, accepting, ledger, e);
      |ledger| <= |after| && (i < |ledger| ==> after[i].caller == ledger[i].caller)
      && (i >= |ledger| ==> Uncalled(after, i))
  {
  }

  lemma CallsAddCallers(env: Env, s: State, ledger: seq<Entry>, e: Event, i: nat)
    requires Shape(s) && AllAgree(s.vms, ledger) && e.Callback? && DaemonIsUp(s)
    ensures var after := Continued(env, s.accepting, ledger, e);
      if !Uncalled(ledger, i) then after[i].caller == ledger[i].caller
      else if ReportsTo(env, s, e, i) then i < |after| && after[i].caller == Some(e.addr)
      else Uncalled(after, i)
  {
    ReportIsHeard(env, s, ledger, e, i);
  }

  lemma CallerAfter(env: Env, past: seq<Event>, e: Event, i: nat)
    requires GoodEnv(env)
    ensures var before, after := Ledger(env, past), Ledger(env, past + [e]);
      if !Uncalled(before, i) then i < |after| && after[i].caller == before[i].caller
      else if ReportsTo(env, Now(env, past), e, i) then i < |after| && after[i].caller == Some(e.addr)
      else Uncalled(after, i)
  {
    var s, ledger := Now(env, past), Ledger(env, past);
    LedgerOfSnoc(env, past, e);
    NowIsSound(env, past);
    StateAgreesWithLedger(env, past);
    if DaemonIsUp(s) {
      if e.Callback? {
        CallsAddCallers(env, s, ledger, e, i);
      } else {
        OnlyCallsAddCallers(env, s.accepting, ledger, e, i);
      }
    }
  }

  /** What the account calls the first caller's address is that of the first report, and while it knows
      of no caller there has been no report. */
  lemma {:induction false} CallerIsFirstReport(env: Env, events: seq<Event>, i: nat) returns (k: nat)
    requires GoodEnv(env)
    ensures var ledger := Ledger(env, events);
      if Uncalled(ledger, i) then Unreported(env, events, i, |events|)
      else IsFirstReport(env, events, k, i, ledger[i].caller.value)
    decreases |events|
  {
    k := 0;
    if events != [] {
      var past, e := events[..|events| - 1], events[|events| - 1];
      assert events == past + [e];
      k := CallerIsFirstReport(env, past, i);
      CallerAfter(env, past, e, i);
      if Uncalled(Ledger(env, past), i) {
        ReportedNow(env, past, e, i);
        k := |past|;
      } else {
        FirstReportStays(env, past, e, k, i, Ledger(env, past)[i].caller.value);
      }
    }
  }

  /** A VM's address, and with it the address replied to its Run request, is the one its guest first
      reported from: the run has a report under the VM's own UUID and entry, from the VM network, that is
      from this address, and none before it. */
  lemma AddressIsTheFirstCallers(env: Env, events: seq<Event>, i: nat) returns (k: nat)
    requires GoodEnv(env) && i < |Now(env, events).vms|
    requires var v := Now(env, events).vms[i]; v.publicIP != "" || (v.reply.Some? && v.reply.value.Booted?)
    ensures IsFirstReport(env, events, k, i, Now(env, events).vms[i].publicIP)
    ensures var v := Now(env, events).vms[i];
      v.publicIP in env.network && (v.reply.Some? && v.reply.value.Booted? ==> v.reply.value.ip == v.publicIP)
  {
    NowIsSound(env, events);
    StateAgreesWithLedger(env, events);
    assert Sound(Now(env, events).vms[i]) && Agrees(Now(env, events).vms[i], Ledger(env, events)[i]);
    k := CallerIsFirstReport(env, events, i);
  }

  // ---- Who got in, and when ----

  /** The k-th event is the admission that enters VM `i`. */
  ghost predicate Enters(env: Env, events: seq<Event>, k: nat, i: nat) {
    && k < |events| && events[k].Admit?
    && |Before(env, events, k).vms| == i && |Before(env, events, k + 1).vms| == i + 1
  }

  lemma BeforeNext(env: Env, events: seq<Event>, k: nat)
    requires k < |events|
    ensures Before(env, events, k + 1) == Next(env, Before(env, events, k), events[k])
  {
    assert events[..k + 1] == events[..k] + [events[k]];
    RunOfSnoc(env, Init(env), events[..k], events[k]);
  }

  /** Every VM was entered by an admission. */
  lemma {:induction false} SomeAdmissionEnters(env: Env, events: seq<Event>, i: nat) returns (k: nat)
    requires i < |Now(env, events).vms|
    ensures Enters(env, events, k, i)
    decreases |events|
  {
    k := 0;
    if events != [] {
      var past, e := events[..|events| - 1], events[|events| - 1];
      assert events == past + [e];
      NowOfSnoc(env, events);
      if i < |Now(env, past).vms| {
        k := SomeAdmissionEnters(env, past, i);
        EntersStays(env, past, e, k, i);
      } else {
        k := |past|;
        NewcomerIsAdmitted(env, Now(env, past), e);
        SamePast(env, past, e, |past|);
        assert events[..|events|] == events;
      }
    }
  }

  lemma EntersStays(env: Env, past: seq<Event>, e: Event, k: nat, i: nat)
    requires Enters(env, past, k, i)
    ensures Enters(env, past + [e], k, i)
  {
    SamePast(env, past, e, k);
    SamePast(env, past, e, k + 1);
  }

  lemma NewcomerIsAdmitted(env: Env, s: State, e: Event)
    ensures |s.vms| <= |Next(env, s, e).vms| <= |s.vms| + 1
    ensures |Next(env, s, e).vms| > |s.vms| ==> e.Admit?
  {
    if OfOneVm(e) { VmEventFrame(env, s, e); }
  }

  /** An admission that enters a VM gives it its settings and, unless there is no run directory, the time. */
  lemma EnteredAsTold(env: Env, s: State, ledger: seq<Entry>, e: Event)
    requires RegistryInv(s) && AllAgree(s.vms, ledger) && e.Admit? && |Next(env, s, e).vms| > |s.vms|
    ensures AsAdmitted(Next(env, s, e), |s.vms|, e)
  {
    AdmitAgrees(env, s, ledger, e);
  }

  lemma LaterRun(env: Env, events: seq<Event>, k: nat)
    requires k <= |events|
    ensures Now(env, events) == Run(env, Before(env, events, k), events[k..])
  {
    assert events == events[..k] + events[k..];
    RunOfConcat(env, Init(env), events[..k], events[k..]);
  }

  lemma JustEntered(env: Env, events: seq<Event>, k: nat, i: nat)
    requires GoodEnv(env) && Enters(env, events, k, i)
    ensures AsAdmitted(Before(env, events, k + 1), i, events[k])
  {
    NowIsSound(env, events[..k]);
    StateAgreesWithLedger(env, events[..k]);
    BeforeNext(env, events, k);
    EnteredAsTold(env, Before(env, events, k), Ledger(env, events[..k]), events[k]);
  }

  /** The VM has the settings and the time of that admission. */
  ghost predicate AsAdmitted(s: State, i: nat, e: Event) {
    && e.Admit? && i < |s.vms| && s.vms[i].config == e.config
    && (if e.runDirOk then s.vms[i].created == e.now else s.vms[i].runner == Missing)
  }

  /** Whatever happened since, a VM has the settings and the time of the admission that entered it. */
  lemma CreatedWhenAdmitted(env: Env, events: seq<Event>, k: nat, i: nat)
    requires GoodEnv(env) && Enters(env, events, k, i)
    ensures AsAdmitted(Now(env, events), i, events[k])
  {
    var t := Before(env, events, k + 1);
    JustEntered(env, events, k, i);
    NowIsSound(env, events[..k + 1]);
    LaterRun(env, events, k + 1);
    RunEvolves(env, t, events[k + 1..]);
    assert VmEvolves(t.vms[i], Now(env, events).vms[i]);
  }

  // ---- The order of signals ----

  /** The VMs Stop has signalled. */
  function Signalled(s: State): seq<nat> {
    match s.stop
    case Stopping(_, _, log) => log
    case Stopped(log) => log
    case _ => []
  }

  lemma SignalledWasStarted(env: Env, s: State, p: nat)
    requires GoodEnv(env) && Reachable(env, s) && p < |Signalled(s)|
    ensures Signalled(s)[p] < |s.vms| && s.vms[Signalled(s)[p]].runner != Missing
  {
    ReachableStop(env, s);
    StopSignalsOneByOneNewestFirst(env, s);
    ReachableIsSound(env, s);
    StartedIfSignalled(s, p);
  }

  lemma StartedIfSignalled(s: State, p: nat)
    requires AllSound(s) && StopInv(s) && p < |Signalled(s)| && AllIndices(s.vms, Signalled(s))
    ensures s.vms[Signalled(s)[p]].runner != Missing
  {
    var log := Signalled(s);
    assert Sound(s.vms[log[p]]);
    if s.stop.Stopping? && p < |Finished(s.stop)| { assert s.vms[Finished(s.stop)[p]].runner == Gone; }
  }

  /** In every run Stop signals VMs in the order of their admissions, the last first, by the clock as it
      was read then. */
  lemma SignalsFollowAdmissions(env: Env, events: seq<Event>, p: nat, q: nat, a: nat, b: nat)
    requires GoodEnv(env) && p < q < |Signalled(Now(env, events))|
    requires Enters(env, events, a, Signalled(Now(env, events))[p])
    requires Enters(env, events, b, Signalled(Now(env, events))[q])
    ensures events[a].runDirOk && events[b].runDirOk && events[a].now >= events[b].now
  {
    var s := Now(env, events);
    assert Reachable(env, s);
    StopSignalsOneByOneNewestFirst(env, s);
    SignalledWasStarted(env, s, p);
    SignalledWasStarted(env, s, q);
    CreatedWhenAdmitted(env, events, a, Signalled(s)[p]);
    CreatedWhenAdmitted(env, events, b, Signalled(s)[q]);
  }

  // ---- Whom the handlers obey ----

  /** A request from outside the VM network and not from the host itself is refused whatever it asks
      for, and one from there is granted exactly if the UUID is registered. */
  lemma RequestIsJudged(env: Env, s: State, uuid: string, addr: string)
    ensures var status := RequestStatus(env, s, uuid, addr);
      && (status == Unauthorized <==> addr !in env.network && !("127." <= addr))
      && (status == Accepted <==> (addr in env.network || "127." <= addr) && uuid in s.active)
  {
  }

  /** What comes from elsewhere than the VM network, the host itself included, changes nothing. */
  lemma StrangersChangeNothing(env: Env, s: State, e: Event)
    requires (e.Callback? || e.Ignition? || e.Connectivity?) && !FromNetwork(env, e.addr)
    ensures Next(env, s, e) == s
  {
  }

  /** In every run the addresses known of a VM are on the VM network. */
  lemma AddressesAreOnTheNetwork(env: Env, events: seq<Event>, i: nat)
    requires GoodEnv(env) && i < |Now(env, events).vms|
    ensures var v := Now(env, events).vms[i];
      && (v.publicIP != "" ==> FromNetwork(env, v.publicIP))
      && (v.announced.Some? ==> FromNetwork(env, v.announced.value))
      && forall ip :: ip in v.publicIPCh.queue ==> FromNetwork(env, ip)
  {
    StateAgreesWithLedger(env, events);
    LedgerIsOnTheNetwork(env, events);
    assert Agrees(Now(env, events).vms[i], Ledger(env, events)[i]);
  }

  ghost predicate KnownFromNetwork(env: Env, x: Entry) {
    (x.caller.Some? ==> FromNetwork(env, x.caller.value)) && (x.fetcher.Some? ==> FromNetwork(env, x.fetcher.value))
  }

  lemma NotedFromNetwork(env: Env, x: Entry, i: nat, e: Event)
    requires KnownFromNetwork(env, x)
    ensures KnownFromNetwork(env, Noted(env, x, i, e))
  {
  }

  lemma {:induction false} LedgerIsOnTheNetwork(env: Env, events: seq<Event>)
    ensures forall i :: 0 <= i < |Ledger(env, events)| ==> KnownFromNetwork(env, Ledger(env, events)[i])
    decreases |events|
  {
    if events != [] {
      var past, e := events[..|events| - 1], events[|events| - 1];
      LedgerIsOnTheNetwork(env, past);
      var ledger := Ledger(env, past);
      forall i | 0 <= i < |ledger| ensures KnownFromNetwork(env, Noted(env, ledger[i], i, e)) {
        NotedFromNetwork(env, ledger[i], i, e);
      }
    }
  }

  // ---- The registry and its records ----

  lemma RegisteredIsLeft(s: State, ledger: seq<Entry>, i: nat)
    requires Shape(s) && AllAgree(s.vms, ledger) && i < |ledger|
    ensures !ledger[i].ended <==> ledger[i].config.uuid in s.active && s.active[ledger[i].config.uuid] == i
  {
    assert Agrees(s.vms[i], ledger[i]);
    var uuid := s.vms[i].config.uuid;
    assert s.vms[i].runner != Gone ==> uuid in s.active && s.active[uuid] == i;
  }

  /** The registry has exactly the VMs that got in and have not ended, each under its own UUID. */
  lemma RegistryIsWhoIsLeft(env: Env, events: seq<Event>, i: nat)
    requires GoodEnv(env) && i < |Ledger(env, events)|
    ensures var s, x := Now(env, events), Ledger(env, events)[i];
      !x.ended <==> x.config.uuid in s.active && s.active[x.config.uuid] == i
    ensures forall u :: u in Now(env, events).active ==>
              Now(env, events).active[u] < |Ledger(env, events)| &&
                  Ledger(env, events)[Now(env, events).active[u]].config.uuid == u
  {
    var s, ledger := Now(env, events), Ledger(env, events);
    NowIsSound(env, events);
    StateAgreesWithLedger(env, events);
    RegisteredIsLeft(s, ledger, i);
    forall u | u in s.active ensures s.active[u] < |ledger| && ledger[s.active[u]].config.uuid == u {
      assert Agrees(s.vms[s.active[u]], ledger[s.active[u]]);
    }
  }

  /** A VM that ends takes its record along and, if that was there, the reverse record of its address,
      which is the one its guest first reported from, or empty. */
  lemma DepartureTakesBothRecords(env: Env, s: State, i: nat)
    requires Shape(s) && DaemonIsUp(s) && i < |s.vms| && s.vms[i].runner in {Up, Unstarted}
    ensures var key := ForwardKey(env.domain, s.vms[i].config.name);
      Next(env, s, Exit(i)).store ==
      if key in s.store then s.store - {key, ReverseKey(s.vms[i].publicIP)} else s.store
  {
    OwnEntry(s, i);
  }
}
