/** Several clients at once: each checks what the daemon reports and sends its request later, so up to
    `k` VMs can have been checked and not be registered yet. What holds however many there are is proved
    here, what then fails in module Overbooking. */
module Clients {
  import opened Text
  import opened Lifecycle
  import opened LifecycleInvariants
  import opened Admission

  /** The daemon, and the VMs that have been checked but not sent yet. */
  datatype Crowd = Crowd(s: State, pending: seq<Config>)

  /** What a client makes of the running VMs and the settings of a new one. */
  type Check = (map<string, Config>, Args) -> BootResult

  ghost function Checks(host: Host): Check {
    (running: map<string, Config>, args: Args) => Bootstrapped(host, running, args)
  }

  datatype CrowdEvent = Otherwise(e: Event) | Enter(args: Args) | Send(n: nat, now: nat, runDirOk: bool)

  function Without<T>(list: seq<T>, n: nat): seq<T>
    requires n < |list|
  {
    list[..n] + list[n + 1..]
  }

  ghost function CrowdNext(env: Env, check: Check, k: nat, c: Crowd, e: CrowdEvent): Crowd {
    match e
    case Otherwise(e) => if e.Admit? then c else c.(s := Next(env, c.s, e))
    case Enter(args) =>
      if |c.pending| >= k || !c.s.accepting || c.s.closed || c.s.fault.Some? then c
      else (match check(Snapshot(c.s), args)
            case Ready(config) => c.(pending := c.pending + [config])
            case Refused(_) => c)
    case Send(n, now, runDirOk) =>
      if n >= |c.pending| then c
      else Crowd(Next(env, c.s, Admit(c.pending[n], now, runDirOk)), Without(c.pending, n))
  }

  ghost function CrowdRun(env: Env, check: Check, k: nat, c: Crowd, events: seq<CrowdEvent>): Crowd
    decreases events
  {
    if events == [] then c else CrowdRun(env, check, k, CrowdNext(env, check, k, c, events[0]), events[1..])
  }

  function Sum(pending: seq<Config>): nat {
    if pending == [] then 0 else pending[0].memory + Sum(pending[1..])
  }

  lemma {:induction false} SumOfConcat(a: seq<Config>, b: seq<Config>)
    ensures Sum(a + b) == Sum(a) + Sum(b)
  {
    if a == [] {
      assert a + b == b;
    } else {
      assert (a + b)[1..] == a[1..] + b;
      SumOfConcat(a[1..], b);
    }
  }

  lemma SumOfOne(x: Config)
    ensures Sum([x]) == x.memory
  {
    assert [x][1..] == [];
  }

  lemma SumAround(front: seq<Config>, x: Config, back: seq<Config>)
    ensures Sum(front + [x] + back) == x.memory + Sum(front + back)
  {
    SumOfOne(x);
    SumOfConcat(front + [x], back);
    SumOfConcat(front, [x]);
    SumOfConcat(front, back);
  }

  lemma SumWithout(pending: seq<Config>, n: nat)
    requires n < |pending|
    ensures Sum(pending) == pending[n].memory + Sum(Without(pending, n))
  {
    SumAround(pending[..n], pending[n], pending[n + 1..]);
    assert pending == pending[..n] + [pending[n]] + pending[n + 1..];
  }

  lemma {:induction false} SumIsAtMost(pending: seq<Config>)
    requires forall i :: 0 <= i < |pending| ==> pending[i].memory <= 8192
    ensures Sum(pending) <= 8192 * |pending|
  {
    if pending != [] { SumIsAtMost(pending[1..]); }
  }

  // ---- How far k clients can go ----

  ghost predicate Bounded(cap: nat, k: nat, running: map<string, Config>, pending: seq<Config>) {
    && |pending| <= k
    && (forall i :: 0 <= i < |pending| ==> pending[i].memory <= 8192)
    && k > 0 && Total(running) + Sum(pending) <= cap + 8192 * (k - 1)
  }

  /** A check that lets a VM through only if its memory fits beside what runs. */
  ghost predicate Careful(check: Check, cap: nat) {
    forall running, args :: check(running, args).Ready? ==>
      var memory := check(running, args).config.memory; memory <= 8192 && Total(running) + memory <= cap
  }

  lemma ClientsAreCareful(host: Host)
    ensures Careful(Checks(host), Cap(host.memory))
  {
    forall running, args | Checks(host)(running, args).Ready?
      ensures var memory := Checks(host)(running, args).config.memory;
        memory <= 8192 && Total(running) + memory <= Cap(host.memory)
    {
      assert Checks(host)(running, args) == Bootstrapped(host, running, args);
    }
  }

  ghost predicate CrowdInv(cap: nat, k: nat, c: Crowd) {
    RegistryInv(c.s) && OnlyNilProcess(c.s) && Bounded(cap, k, Snapshot(c.s), c.pending)
  }

  lemma EnteredIsBounded(cap: nat, k: nat, running: map<string, Config>, pending: seq<Config>, config: Config)
    requires Bounded(cap, k, running, pending) && |pending| < k
    requires config.memory <= 8192 && Total(running) + config.memory <= cap
    ensures Bounded(cap, k, running, pending + [config])
  {
    SumOfConcat(pending, [config]);
    SumOfOne(config);
    SumIsAtMost(pending);
    assert 8192 * |pending| <= 8192 * (k - 1);
  }

  lemma ShrunkIsBounded(cap: nat, k: nat, running: map<string, Config>, part: map<string, Config>, pending: seq<Config>)
    requires Bounded(cap, k, running, pending) && forall u :: u in part ==> u in running && running[u] == part[u]
    ensures Bounded(cap, k, part, pending)
  {
    TotalOfPart(part, running);
  }

  lemma SentIsBounded(cap: nat, k: nat, running: map<string, Config>, pending: seq<Config>, n: nat)
    requires Bounded(cap, k, running, pending) && n < |pending|
    ensures Bounded(cap, k, running, Without(pending, n))
    ensures pending[n].uuid !in running ==> Bounded(cap, k, running[pending[n].uuid := pending[n]], Without(pending, n))
  {
    SumWithout(pending, n);
    if pending[n].uuid !in running { TotalOfInsert(running, pending[n].uuid, pending[n]); }
  }

  /** Sending leaves the registry as it was, or adds the VM under a UUID that was free. */
  lemma SentIsSeen(env: Env, check: Check, k: nat, c: Crowd, n: nat, now: nat, runDirOk: bool)
    requires EntriesAreOwn(c.s) && n < |c.pending|
    ensures var d, config := CrowdNext(env, check, k, c, Send(n, now, runDirOk)), c.pending[n];
      && d.pending == Without(c.pending, n)
      && (Snapshot(d.s) == Snapshot(c.s) ||
          (config.uuid !in Snapshot(c.s) && Snapshot(d.s) == Snapshot(c.s)[config.uuid := config]))
  {
    if !c.s.closed && c.s.fault.None? && RefusalOf(c.s, c.pending[n]).None? {
      SnapshotOfAdmission(c.s, c.pending[n], now, runDirOk);
    }
  }

  lemma SendKeepsRegistry(env: Env, check: Check, k: nat, c: Crowd, n: nat, now: nat, runDirOk: bool)
    requires GoodEnv(env) && RegistryInv(c.s) && OnlyNilProcess(c.s) && n < |c.pending|
    ensures var d := CrowdNext(env, check, k, c, Send(n, now, runDirOk)); RegistryInv(d.s) && OnlyNilProcess(d.s)
  {
    RunEventKeepsRegistry(env, c.s, Admit(c.pending[n], now, runDirOk));
  }

  lemma SendKeeps(env: Env, check: Check, cap: nat, k: nat, c: Crowd, n: nat, now: nat, runDirOk: bool)
    requires GoodEnv(env) && Careful(check, cap) && CrowdInv(cap, k, c) && n < |c.pending|
    ensures CrowdInv(cap, k, CrowdNext(env, check, k, c, Send(n, now, runDirOk)))
  {
    SendKeepsRegistry(env, check, k, c, n, now, runDirOk);
    SentIsSeen(env, check, k, c, n, now, runDirOk);
    SentIsBounded(cap, k, Snapshot(c.s), c.pending, n);
  }

  lemma CrowdNextKeeps(env: Env, check: Check, cap: nat, k: nat, c: Crowd, e: CrowdEvent)
    requires GoodEnv(env) && Careful(check, cap) && CrowdInv(cap, k, c)
    ensures CrowdInv(cap, k, CrowdNext(env, check, k, c, e))
  {
    match e {
      case Otherwise(e) =>
        if !e.Admit? {
          NextKeepsRegistry(env, c.s, e);
          SnapshotShrinks(env, c.s, e);
          ShrunkIsBounded(cap, k, Snapshot(c.s), Snapshot(Next(env, c.s, e)), c.pending);
        }
      case Enter(args) =>
        if |c.pending| < k && check(Snapshot(c.s), args).Ready? {
          EnteredIsBounded(cap, k, Snapshot(c.s), c.pending, check(Snapshot(c.s), args).config);
        }
      case Send(n, now, runDirOk) => if n < |c.pending| { SendKeeps(env, check, cap, k, c, n, now, runDirOk); }
    }
  }

  lemma {:induction false} CrowdRunKeeps(env: Env, check: Check, cap: nat, k: nat, c: Crowd, events: seq<CrowdEvent>)
    requires GoodEnv(env) && Careful(check, cap) && CrowdInv(cap, k, c)
    ensures CrowdInv(cap, k, CrowdRun(env, check, k, c, events))
    decreases events
  {
    if events != [] {
      CrowdNextKeeps(env, check, cap, k, c, events[0]);
      CrowdRunKeeps(env, check, cap, k, CrowdNext(env, check, k, c, events[0]), events[1..]);
    }
  }

  lemma StartIsBounded(env: Env, cap: nat, k: nat)
    requires k > 0
    ensures CrowdInv(cap, k, Crowd(Init(env), []))
  {
    assert Snapshot(Init(env)) == map[];
    assert 8192 * (k - 1) >= 0;
  }

  /** In every run in which at most k VMs are checked and not yet sent, memory exceeds the limit by at
      most 8192 MB for every client but one; with one client it never does. */
  lemma ClientsStayWithin(env: Env, host: Host, k: nat, events: seq<CrowdEvent>)
    requires GoodEnv(env) && k > 0
    ensures Total(Snapshot(CrowdRun(env, Checks(host), k, Crowd(Init(env), []), events).s)) <=
            Cap(host.memory) + 8192 * (k - 1)
  {
    ClientsAreCareful(host);
    StartIsBounded(env, Cap(host.memory), k);
    CrowdRunKeeps(env, Checks(host), Cap(host.memory), k, Crowd(Init(env), []), events);
  }

  // ---- One client ----

  /** A crowd of one, seen as the client of module Admission. */
  function OnlyClient(c: Crowd): ClientState {
    ClientState(c.s, if c.pending == [] then None else Some(c.pending[0]))
  }

  /** Sending a request that is not there changes nothing, and neither does an admission elsewhere. */
  function OnlyEvent(e: CrowdEvent): ClientEvent {
    match e
    case Otherwise(e) => Elsewhere(e)
    case Enter(args) => ClientEvent.Check(args)
    case Send(n, now, runDirOk) =>
      if n == 0 then Submit(now, runDirOk) else Elsewhere(Admit(Config("", "", 0, []), now, runDirOk))
  }

  function OnlyEvents(events: seq<CrowdEvent>): (only: seq<ClientEvent>)
    ensures |only| == |events| && forall i :: 0 <= i < |events| ==> only[i] == OnlyEvent(events[i])
  {
    seq(|events|, i requires 0 <= i < |events| => OnlyEvent(events[i]))
  }

  lemma OneStepAlone(env: Env, host: Host, c: Crowd, e: CrowdEvent)
    requires |c.pending| <= 1
    ensures var d := CrowdNext(env, Checks(host), 1, c, e);
      |d.pending| <= 1 && OnlyClient(d) == ClientNext(env, host, OnlyClient(c), OnlyEvent(e))
  {
    if e.Enter? { assert Checks(host)(Snapshot(c.s), e.args) == Bootstrapped(host, Snapshot(c.s), e.args); }
  }

  /** A crowd of one behaves as that client in every run, so all that is proved of it holds. */
  lemma {:induction false} OneClientIsSequential(env: Env, host: Host, c: Crowd, events: seq<CrowdEvent>)
    requires |c.pending| <= 1
    ensures OnlyClient(CrowdRun(env, Checks(host), 1, c, events)) ==
            ClientRun(env, host, OnlyClient(c), OnlyEvents(events))
    decreases events
  {
    if events != [] {
      OneStepAlone(env, host, c, events[0]);
      OneClientIsSequential(env, host, CrowdNext(env, Checks(host), 1, c, events[0]), events[1..]);
      assert OnlyEvents(events)[1..] == OnlyEvents(events[1..]);
    }
  }
}
