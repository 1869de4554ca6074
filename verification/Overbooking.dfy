/** What fails with several clients: exactly when their VMs can exceed the memory limit, or share a
    volume. */
module Overbooking {
  import opened Lifecycle
  import opened LifecycleInvariants
  import opened Admission
  import opened Clients
  import Dns
  import Flags
  import Volumes

  // ---- A batch: all check, then all send ----

  function Enters(all: seq<Args>): (events: seq<CrowdEvent>)
    ensures |events| == |all| && forall i :: 0 <= i < |all| ==> events[i] == Enter(all[i])
  {
    seq(|all|, i requires 0 <= i < |all| => Enter(all[i]))
  }

  function Sends(n: nat): (events: seq<CrowdEvent>)
    ensures |events| == n && forall i :: 0 <= i < n ==> events[i] == Send(0, 0, true)
  {
    seq(n, _ => Send(0, 0, true))
  }

  function Batch(all: seq<Args>): seq<CrowdEvent> { Enters(all) + Sends(|all|) }

  lemma {:induction false} RunOfConcat(env: Env, check: Check, k: nat, c: Crowd, first: seq<CrowdEvent>,
                                       rest: seq<CrowdEvent>)
    ensures CrowdRun(env, check, k, c, first + rest) == CrowdRun(env, check, k, CrowdRun(env, check, k, c, first), rest)
    decreases first
  {
    if first == [] {
      assert first + rest == rest;
    } else {
      assert (first + rest)[1..] == first[1..] + rest;
      RunOfConcat(env, check, k, CrowdNext(env, check, k, c, first[0]), first[1..], rest);
    }
  }

  /** Every one of these requests gets through its check, and comes out as the VM beside it. */
  ghost predicate AllReady(check: Check, running: map<string, Config>, all: seq<Args>, ready: seq<Config>) {
    |ready| == |all| && forall i :: 0 <= i < |all| ==> check(running, all[i]) == Ready(ready[i])
  }

  lemma {:induction false} AllEnter(env: Env, check: Check, k: nat, c: Crowd, all: seq<Args>, ready: seq<Config>)
    requires |c.pending| + |all| <= k && c.s.accepting && c.s.fault.None? && !c.s.closed
    requires AllReady(check, Snapshot(c.s), all, ready)
    ensures CrowdRun(env, check, k, c, Enters(all)) == Crowd(c.s, c.pending + ready)
    decreases all
  {
    if all == [] {
      assert c.pending + ready == c.pending;
    } else {
      var d := c.(pending := c.pending + [ready[0]]);
      assert CrowdNext(env, check, k, c, Enter(all[0])) == d;
      AllEnter(env, check, k, d, all[1..], ready[1..]);
      assert Enters(all)[1..] == Enters(all[1..]);
      assert d.pending + ready[1..] == c.pending + ready;
    }
  }

  /** Requests that the daemon takes for different VMs. */
  ghost predicate Different(all: seq<Config>) {
    forall i, j :: 0 <= i < j < |all| ==> all[i].name != all[j].name && all[i].uuid != all[j].uuid
  }

  ghost predicate Open(s: State) { RegistryInv(s) && s.accepting && s.fault.None? && !s.closed }

  /** None of the VMs waiting is taken, and they are different from each other. */
  ghost predicate Welcome(s: State, pending: seq<Config>) {
    && Different(pending)
    && forall i :: 0 <= i < |pending| ==> pending[i].name != Dns.RESERVED_HOST && !Taken(s, pending[i])
  }

  /** What runs once they are all admitted. */
  function Extended(running: map<string, Config>, more: seq<Config>): map<string, Config>
    decreases more
  {
    if more == [] then running else Extended(running[more[0].uuid := more[0]], more[1..])
  }

  lemma FirstIsWelcome(s: State, pending: seq<Config>)
    requires Open(s) && Welcome(s, pending) && pending != []
    ensures RefusalOf(s, pending[0]).None? && Welcome(Admitted(s, pending[0], 0, true), pending[1..])
  {
    var t := Admitted(s, pending[0], 0, true);
    forall i | 0 <= i < |pending[1..]| ensures !Taken(t, pending[1..][i]) {
      assert pending[1..][i] == pending[i + 1];
      assert pending[0].uuid != pending[i + 1].uuid && pending[0].name != pending[i + 1].name;
      assert !Taken(s, pending[i + 1]);
    }
  }

  /** One request is sent, and is granted. */
  lemma FirstIsSent(env: Env, check: Check, k: nat, c: Crowd)
    requires GoodEnv(env) && Open(c.s) && Welcome(c.s, c.pending) && c.pending != []
    ensures var d := CrowdNext(env, check, k, c, Send(0, 0, true)); var config := c.pending[0];
      && Open(d.s) && Welcome(d.s, d.pending) && d.pending == c.pending[1..]
      && config.uuid !in Snapshot(c.s) && Snapshot(d.s) == Snapshot(c.s)[config.uuid := config]
  {
    var config := c.pending[0];
    FirstIsWelcome(c.s, c.pending);
    AdmittedKeepsRegistry(c.s, config, 0, true);
    SnapshotOfAdmission(c.s, config, 0, true);
    assert Without(c.pending, 0) == c.pending[1..];
  }

  /** They have all been let in. */
  ghost predicate Granted(c: Crowd, d: Crowd) {
    Open(d.s) && d.pending == [] && Snapshot(d.s) == Extended(Snapshot(c.s), c.pending)
  }

  lemma GrantedByFirst(c: Crowd, d: Crowd, e: Crowd)
    requires c.pending != [] && d.pending == c.pending[1..] && Granted(d, e)
    requires Snapshot(d.s) == Snapshot(c.s)[c.pending[0].uuid := c.pending[0]]
    ensures Granted(c, e)
  {
    ExtendedByFirst(Snapshot(c.s), c.pending);
  }

  /** The first is sent and granted, and the rest remains to be sent. */
  lemma OneIsSent(env: Env, check: Check, k: nat, c: Crowd, n: nat) returns (d: Crowd)
    requires GoodEnv(env) && Open(c.s) && Welcome(c.s, c.pending) && |c.pending| == n + 1
    ensures Open(d.s) && Welcome(d.s, d.pending) && d.pending == c.pending[1..]
    ensures Snapshot(d.s) == Snapshot(c.s)[c.pending[0].uuid := c.pending[0]]
    ensures CrowdRun(env, check, k, c, Sends(n + 1)) == CrowdRun(env, check, k, d, Sends(n))
  {
    d := CrowdNext(env, check, k, c, Send(0, 0, true));
    FirstIsSent(env, check, k, c);
    RestIsSent(env, check, k, c, n);
  }

  lemma {:induction false} AllAreAdmitted(env: Env, check: Check, k: nat, c: Crowd, n: nat)
    requires GoodEnv(env) && Open(c.s) && Welcome(c.s, c.pending) && |c.pending| == n
    ensures Granted(c, CrowdRun(env, check, k, c, Sends(n)))
    decreases n
  {
    if n > 0 {
      var d := OneIsSent(env, check, k, c, n - 1);
      AllAreAdmitted(env, check, k, d, n - 1);
      GrantedByFirst(c, d, CrowdRun(env, check, k, d, Sends(n - 1)));
    }
  }

  lemma ExtendedByFirst(running: map<string, Config>, more: seq<Config>)
    requires more != []
    ensures Extended(running, more) == Extended(running[more[0].uuid := more[0]], more[1..])
  {
  }

  lemma {:induction false} TotalOfExtended(running: map<string, Config>, more: seq<Config>)
    requires Different(more) && forall i :: 0 <= i < |more| ==> more[i].uuid !in running
    ensures Total(Extended(running, more)) == Total(running) + Sum(more)
    decreases more
  {
    if more != [] {
      TotalOfInsert(running, more[0].uuid, more[0]);
      TotalOfExtended(running[more[0].uuid := more[0]], more[1..]);
    }
  }

  lemma RestIsSent(env: Env, check: Check, k: nat, c: Crowd, n: nat)
    ensures CrowdRun(env, check, k, c, Sends(n + 1)) ==
            CrowdRun(env, check, k, CrowdNext(env, check, k, c, Send(0, 0, true)), Sends(n))
  {
    assert Sends(n + 1)[0] == Send(0, 0, true) && Sends(n + 1)[1..] == Sends(n);
  }

  /** All of a batch get in: each was checked against what ran before any of them. */
  lemma BatchIsAdmitted(env: Env, check: Check, k: nat, s: State, all: seq<Args>, ready: seq<Config>)
    requires GoodEnv(env) && Open(s) && Welcome(s, ready) && |all| <= k && AllReady(check, Snapshot(s), all, ready)
    ensures var d := CrowdRun(env, check, k, Crowd(s, []), Batch(all));
      && Open(d.s) && d.pending == [] && Snapshot(d.s) == Extended(Snapshot(s), ready)
      && Total(Snapshot(d.s)) == Total(Snapshot(s)) + Sum(ready)
  {
    AllEnter(env, check, k, Crowd(s, []), all, ready);
    assert [] + ready == ready;
    RunOfConcat(env, check, k, Crowd(s, []), Enters(all), Sends(|all|));
    AllAreAdmitted(env, check, k, Crowd(s, ready), |ready|);
    forall i | 0 <= i < |ready| ensures ready[i].uuid !in Snapshot(s) { assert !Taken(s, ready[i]); }
    TotalOfExtended(Snapshot(s), ready);
  }

  // ---- Filling a host ----

  /** A request without volumes. */
  ghost predicate Plain(args: Args) {
    args.root == "" && args.volumes == [] && args.name != Dns.RESERVED_HOST
  }

  function PlainVm(args: Args): Config { Config(args.name, args.uuid, Clamped(args.memory), []) }

  function PlainVms(all: seq<Args>): (ready: seq<Config>)
    ensures |ready| == |all| && forall i :: 0 <= i < |all| ==> ready[i] == PlainVm(all[i])
  {
    seq(|all|, i requires 0 <= i < |all| => PlainVm(all[i]))
  }

  lemma PlainIsReady(host: Host, running: map<string, Config>, args: Args)
    requires Plain(args) && Total(running) + Clamped(args.memory) <= Cap(host.memory)
    ensures Checks(host)(running, args) == Ready(PlainVm(args))
  {
    assert Flags.Sliced([]) == [];
    assert [""][1..] == [];
    assert Checks(host)(running, args) == Bootstrapped(host, running, args);
  }

  /** All names and UUIDs in use are longer than `low` and no longer than `high`. */
  ghost predicate NamedBetween(low: nat, running: map<string, Config>, high: nat) {
    forall u :: u in running ==> low < |u| <= high && low < |running[u].name| <= high
  }

  /** A VM whose name and UUID have other lengths than all in use is not taken for one that runs. */
  lemma OtherLengthsAreFree(low: nat, s: State, high: nat, config: Config)
    requires EntriesAreOwn(s) && NamedBetween(low, Snapshot(s), high)
    requires |config.name| <= low || |config.name| > high
    requires |config.uuid| <= low || |config.uuid| > high
    ensures !Taken(s, config)
  {
    forall u | u in s.active && s.active[u] < |s.vms|
      ensures u != config.uuid && s.vms[s.active[u]].config.name != config.name
    {
      assert u in Snapshot(s) && Snapshot(s)[u] == s.vms[s.active[u]].config;
    }
  }

  function Name(n: nat): (name: string)
    ensures |name| == n && name != Dns.RESERVED_HOST
  {
    var name := seq(n, _ => 'v');
    assert n > 0 ==> name[0] != Dns.RESERVED_HOST[0];
    name
  }

  function Filler(n: nat, memory: nat): Args { Args(Name(n), Name(n), memory, "", []) }

  lemma NamedOneLonger(low: nat, running: map<string, Config>, high: nat, config: Config)
    requires low <= high && NamedBetween(low, running, high) && |config.name| == |config.uuid| == high + 1
    ensures NamedBetween(low, Extended(running, [config]), high + 1)
  {
    assert [config][1..] == [];
    assert Extended(running, [config]) == running[config.uuid := config];
  }

  /** The host runs VMs of this total, and nobody has a request under way. */
  ghost predicate Filled(low: nat, c: Crowd, high: nat, total: nat) {
    && low <= high && c.pending == [] && Open(c.s)
    && NamedBetween(low, Snapshot(c.s), high) && Total(Snapshot(c.s)) == total
  }

  /** One VM more, by a client that is alone. */
  lemma OneMore(env: Env, host: Host, k: nat, low: nat, c: Crowd, high: nat, total: nat, memory: nat)
    requires GoodEnv(env) && k > 0 && Filled(low, c, high, total)
    requires 1024 <= memory <= 8192 && total + memory <= Cap(host.memory)
    ensures Filled(low, CrowdRun(env, Checks(host), k, c, Batch([Filler(high + 1, memory)])), high + 1, total + memory)
  {
    var args := Filler(high + 1, memory);
    PlainIsReady(host, Snapshot(c.s), args);
    OtherLengthsAreFree(low, c.s, high, PlainVm(args));
    BatchIsAdmitted(env, Checks(host), k, c.s, [args], [PlainVm(args)]);
    SumOfOne(PlainVm(args));
    NamedOneLonger(low, Snapshot(c.s), high, PlainVm(args));
    assert c == Crowd(c.s, []);
  }

  function Start(env: Env): Crowd { Crowd(Init(env), []) }

  /** Clients that come one by one can fill a host up to any amount they are allowed to, but for less
      than one VM takes, under names longer than given. */
  lemma {:induction false} CanFill(env: Env, host: Host, k: nat, low: nat, total: nat)
    returns (events: seq<CrowdEvent>, high: nat)
    requires GoodEnv(env) && k > 0 && total <= Cap(host.memory) && (total == 0 || total >= 1024)
    ensures Filled(low, CrowdRun(env, Checks(host), k, Start(env), events), high, total)
    decreases total
  {
    if total == 0 {
      StartIsFilled(env, low);
      events, high := [], low;
    } else {
      var last := if total < 2048 then total else 1024;
      var first;
      first, high := CanFill(env, host, k, low, total - last);
      OneMore(env, host, k, low, CrowdRun(env, Checks(host), k, Start(env), first), high, total - last, last);
      RunOfConcat(env, Checks(host), k, Start(env), first, Batch([Filler(high + 1, last)]));
      events, high := first + Batch([Filler(high + 1, last)]), high + 1;
    }
  }

  lemma StartIsEmpty(env: Env)
    ensures Open(Init(env)) && Snapshot(Init(env)) == map[]
  {
  }

  lemma StartIsFilled(env: Env, low: nat)
    ensures Filled(low, Start(env), low, 0)
  {
    StartIsEmpty(env);
  }

  // ---- Memory ----

  /** Requests that fit one by one on a host filled so far, for VMs not there yet, all get in. */
  lemma PlainAreAdmitted(env: Env, host: Host, k: nat, c: Crowd, all: seq<Args>)
    requires GoodEnv(env) && Open(c.s) && c.pending == [] && |all| <= k && Welcome(c.s, PlainVms(all))
    requires forall i :: 0 <= i < |all| ==>
               Plain(all[i]) && Total(Snapshot(c.s)) + Clamped(all[i].memory) <= Cap(host.memory)
    ensures Total(Snapshot(CrowdRun(env, Checks(host), k, c, Batch(all)).s)) ==
            Total(Snapshot(c.s)) + Sum(PlainVms(all))
  {
    forall i | 0 <= i < |all| ensures Checks(host)(Snapshot(c.s), all[i]) == Ready(PlainVm(all[i])) {
      PlainIsReady(host, Snapshot(c.s), all[i]);
    }
    assert c == Crowd(c.s, []);
    BatchIsAdmitted(env, Checks(host), k, c.s, all, PlainVms(all));
  }

  /** The requests' names are none that fill the host, and different from each other. */
  ghost predicate Newcomers(low: nat, all: seq<Args>, high: nat) {
    && (forall i :: 0 <= i < |all| ==>
          && Plain(all[i]) && (|all[i].name| <= low || |all[i].name| > high)
          && (|all[i].uuid| <= low || |all[i].uuid| > high))
    && forall i, j :: 0 <= i < j < |all| ==> all[i].name != all[j].name && all[i].uuid != all[j].uuid
  }

  lemma NewcomersAreWelcome(low: nat, c: Crowd, high: nat, total: nat, all: seq<Args>)
    requires Filled(low, c, high, total) && Newcomers(low, all, high)
    ensures Welcome(c.s, PlainVms(all))
  {
    forall i | 0 <= i < |all| ensures !Taken(c.s, PlainVms(all)[i]) {
      OtherLengthsAreFree(low, c.s, high, PlainVms(all)[i]);
    }
  }

  /** Clients that all check on a filled host before any of them sends go over it all together. */
  lemma OverFilled(env: Env, host: Host, low: nat, first: seq<CrowdEvent>, high: nat, total: nat, k: nat,
                   all: seq<Args>, memory: nat)
    requires GoodEnv(env) && Filled(low, CrowdRun(env, Checks(host), k, Start(env), first), high, total)
    requires Newcomers(low, all, high) && |all| <= k && total + memory <= Cap(host.memory)
    requires forall i :: 0 <= i < |all| ==> Clamped(all[i].memory) == memory
    ensures Total(Snapshot(CrowdRun(env, Checks(host), k, Start(env), first + Batch(all)).s)) ==
            total + memory * |all|
  {
    var c := CrowdRun(env, Checks(host), k, Start(env), first);
    NewcomersAreWelcome(low, c, high, total, all);
    SumOfEqual(PlainVms(all), memory);
    PlainAreAdmitted(env, host, k, c, all);
    RunOfConcat(env, Checks(host), k, Start(env), first, Batch(all));
  }

  lemma {:induction false} SumOfEqual(pending: seq<Config>, memory: nat)
    requires forall i :: 0 <= i < |pending| ==> pending[i].memory == memory
    ensures Sum(pending) == memory * |pending|
  {
    if pending != [] {
      SumOfEqual(pending[1..], memory);
      assert memory * |pending| == memory + memory * |pending[1..]|;
    }
  }

  lemma {:induction false} LongestName(all: seq<Args>) returns (low: nat)
    ensures forall i :: 0 <= i < |all| ==> |all[i].name| <= low && |all[i].uuid| <= low
  {
    low := 0;
    if all != [] {
      var rest := LongestName(all[1..]);
      low := rest + |all[0].name| + |all[0].uuid|;
      assert forall i :: 0 < i < |all| ==> all[i] == all[1..][i - 1];
    }
  }

  /** Requests for the largest VMs. */
  ghost predicate Greedy(all: seq<Args>) {
    && (forall i :: 0 <= i < |all| ==> Plain(all[i]) && all[i].memory >= 8192)
    && forall i, j :: 0 <= i < j < |all| ==> all[i].name != all[j].name && all[i].uuid != all[j].uuid
  }

  /** Any number of clients with different large VMs reach the bound of module Clients, on every host on
      which the room left by other VMs can be just enough for one of them: after a run that fills the
      host so far, they all check, then they all send. */
  lemma ConcurrentClientsReachTheBound(env: Env, host: Host, all: seq<Args>) returns (events: seq<CrowdEvent>)
    requires GoodEnv(env) && (Cap(host.memory) == 8192 || Cap(host.memory) >= 9216) && all != [] && Greedy(all)
    ensures Total(Snapshot(CrowdRun(env, Checks(host), |all|, Start(env), events + Batch(all)).s)) ==
            Cap(host.memory) + 8192 * (|all| - 1)
  {
    var low := LongestName(all);
    var high;
    events, high := CanFill(env, host, |all|, low, Cap(host.memory) - 8192);
    OverFilled(env, host, low, events, high, Cap(host.memory) - 8192, |all|, all, 8192);
  }

  function TwoFillers(high: nat): seq<Args> { [Filler(high + 1, 1024), Filler(high + 2, 1024)] }

  lemma FillersAreNew(high: nat)
    ensures Newcomers(0, TwoFillers(high), high) && |TwoFillers(high)| == 2
    ensures forall i :: 0 <= i < 2 ==> Clamped(TwoFillers(high)[i].memory) == 1024
  {
    assert |Name(high + 1)| != |Name(high + 2)|;
  }

  /** Two clients with the smallest VMs are enough, wherever one such VM is let through at all. */
  lemma TwoClientsExceedTheLimit(env: Env, host: Host, k: nat) returns (events: seq<CrowdEvent>)
    requires GoodEnv(env) && k > 1 && Cap(host.memory) >= 1024
    ensures Total(Snapshot(CrowdRun(env, Checks(host), k, Start(env), events).s)) > Cap(host.memory)
  {
    var total := if Cap(host.memory) < 2048 then 0 else Cap(host.memory) - 1024;
    var first, high := CanFill(env, host, k, 0, total);
    FillersAreNew(high);
    OverFilled(env, host, 0, first, high, total, k, TwoFillers(high), 1024);
    events := first + Batch(TwoFillers(high));
  }

  // ---- What is never let through never runs ----

  ghost predicate Only(check: Check, p: Config -> bool) {
    forall running, args :: check(running, args).Ready? ==> p(check(running, args).config)
  }

  ghost predicate AllAre(c: Crowd, p: Config -> bool) {
    && (forall u :: u in Snapshot(c.s) ==> p(Snapshot(c.s)[u]))
    && forall i :: 0 <= i < |c.pending| ==> p(c.pending[i])
  }

  lemma SendKeepsAll(env: Env, check: Check, k: nat, c: Crowd, n: nat, now: nat, runDirOk: bool, p: Config -> bool)
    requires RegistryInv(c.s) && AllAre(c, p) && n < |c.pending|
    ensures AllAre(CrowdNext(env, check, k, c, Send(n, now, runDirOk)), p)
  {
    var d, config := CrowdNext(env, check, k, c, Send(n, now, runDirOk)), c.pending[n];
    SentIsSeen(env, check, k, c, n, now, runDirOk);
    InsertedAre(Snapshot(c.s), config, p);
    WithoutAre(c.pending, n, p);
  }

  lemma InsertedAre(running: map<string, Config>, config: Config, p: Config -> bool)
    requires p(config) && forall u :: u in running ==> p(running[u])
    ensures var more := running[config.uuid := config]; forall u :: u in more ==> p(more[u])
  {
  }

  lemma WithoutAre(pending: seq<Config>, n: nat, p: Config -> bool)
    requires n < |pending| && forall i :: 0 <= i < |pending| ==> p(pending[i])
    ensures var rest := Without(pending, n); forall i :: 0 <= i < |rest| ==> p(rest[i])
  {
  }

  lemma NextAllAre(env: Env, check: Check, k: nat, c: Crowd, e: CrowdEvent, p: Config -> bool)
    requires Only(check, p) && RegistryInv(c.s) && AllAre(c, p)
    ensures AllAre(CrowdNext(env, check, k, c, e), p)
  {
    match e {
      case Otherwise(e) => if !e.Admit? { SnapshotShrinks(env, c.s, e); }
      case Enter(args) =>
      case Send(n, now, runDirOk) => if n < |c.pending| { SendKeepsAll(env, check, k, c, n, now, runDirOk, p); }
    }
  }

  lemma CrowdNextKeepsRegistry(env: Env, check: Check, k: nat, c: Crowd, e: CrowdEvent)
    requires GoodEnv(env) && RegistryInv(c.s) && OnlyNilProcess(c.s)
    ensures var d := CrowdNext(env, check, k, c, e); RegistryInv(d.s) && OnlyNilProcess(d.s)
  {
    match e {
      case Otherwise(e) => NextKeepsRegistry(env, c.s, e);
      case Enter(args) =>
      case Send(n, now, runDirOk) =>
        if n < |c.pending| { SendKeepsRegistry(env, check, k, c, n, now, runDirOk); }
    }
  }

  lemma {:induction false} RunAllAre(env: Env, check: Check, k: nat, c: Crowd, events: seq<CrowdEvent>,
                                     p: Config -> bool)
    requires GoodEnv(env) && Only(check, p) && RegistryInv(c.s) && OnlyNilProcess(c.s) && AllAre(c, p)
    ensures AllAre(CrowdRun(env, check, k, c, events), p)
    decreases events
  {
    if events != [] {
      CrowdNextKeepsRegistry(env, check, k, c, events[0]);
      NextAllAre(env, check, k, c, events[0], p);
      RunAllAre(env, check, k, CrowdNext(env, check, k, c, events[0]), events[1..], p);
    }
  }

  /** A host with too little memory for the smallest VM runs none. */
  lemma NothingRuns(env: Env, host: Host, k: nat, events: seq<CrowdEvent>)
    requires GoodEnv(env) && Cap(host.memory) < 1024
    ensures Snapshot(CrowdRun(env, Checks(host), k, Start(env), events).s) == map[]
  {
    assert Snapshot(Init(env)) == map[];
    var none := (config: Config) => false;
    assert Only(Checks(host), none);
    RunAllAre(env, Checks(host), k, Start(env), events, none);
  }

  /** Memory stays within the limit in all runs of k clients exactly if there is only one, or the host
      is too small for any VM. */
  lemma MemoryLimitHoldsIff(env: Env, host: Host, k: nat)
    requires GoodEnv(env) && k > 0
    ensures (forall events :: Total(Snapshot(CrowdRun(env, Checks(host), k, Start(env), events).s)) <=
                              Cap(host.memory))
            <==> k == 1 || Cap(host.memory) < 1024
  {
    if k == 1 || Cap(host.memory) < 1024 {
      forall events
        ensures Total(Snapshot(CrowdRun(env, Checks(host), k, Start(env), events).s)) <= Cap(host.memory)
      {
        if k == 1 { ClientsStayWithin(env, host, k, events); } else { NothingRuns(env, host, k, events); }
      }
    } else {
      var events := TwoClientsExceedTheLimit(env, host, k);
    }
  }

  // ---- Volumes ----

  /** A request for one file as the root volume, and the VM it is for. */
  function Rooted(name: string, path: string): Args { Args(name, name, 1024, path, []) }

  function RootedVm(name: string, volume: string): Config { Config(name, name, 1024, [volume]) }

  lemma RootedIsReady(host: Host, name: string, path: string)
    requires Cap(host.memory) >= 1024 && Volumes.Bootable(host.files, path)
    ensures Checks(host)(map[], Rooted(name, path)) == Ready(RootedVm(name, host.files[path].abs))
  {
    Volumes.BootsAlone(host.files, path);
    assert Flags.Sliced([]) == [];
    assert Checks(host)(map[], Rooted(name, path)) == Bootstrapped(host, map[], Rooted(name, path));
  }

  lemma BothAreAdmitted(env: Env, check: Check, k: nat, a: Args, b: Args, x: Config, y: Config)
    requires GoodEnv(env) && k > 1 && check(map[], a) == Ready(x) && check(map[], b) == Ready(y)
    requires x.name != y.name && x.uuid != y.uuid && x.name != Dns.RESERVED_HOST && y.name != Dns.RESERVED_HOST
    ensures Snapshot(CrowdRun(env, check, k, Start(env), Batch([a, b])).s) == map[x.uuid := x, y.uuid := y]
  {
    StartIsEmpty(env);
    BatchIsAdmitted(env, check, k, Init(env), [a, b], [x, y]);
    BothExtend(x, y);
  }

  /** Two clients that were both given one volume. */
  lemma TwoClientsShareAVolume(env: Env, host: Host, k: nat, path: string) returns (events: seq<CrowdEvent>)
    requires GoodEnv(env) && k > 1 && Cap(host.memory) >= 1024 && Volumes.Bootable(host.files, path)
    ensures !VolumesApart(Snapshot(CrowdRun(env, Checks(host), k, Start(env), events).s))
  {
    var a, b, volume := Name(1), Name(2), host.files[path].abs;
    RootedIsReady(host, a, path);
    RootedIsReady(host, b, path);
    events := Batch([Rooted(a, path), Rooted(b, path)]);
    BothAreAdmitted(env, Checks(host), k, Rooted(a, path), Rooted(b, path), RootedVm(a, volume), RootedVm(b, volume));
    BothShare(RootedVm(a, volume), RootedVm(b, volume), volume);
  }

  lemma BothShare(x: Config, y: Config, volume: string)
    requires x.uuid != y.uuid && volume in x.volumes && volume in y.volumes
    ensures !VolumesApart(map[x.uuid := x, y.uuid := y])
  {
    var running := map[x.uuid := x, y.uuid := y];
    assert running[x.uuid] == x && running[y.uuid] == y && !Apart(x, y);
  }

  lemma BothExtend(x: Config, y: Config)
    requires x.uuid != y.uuid
    ensures Extended(map[], [x, y]) == map[x.uuid := x, y.uuid := y]
  {
    var none: map<string, Config> := map[];
    var one := none[x.uuid := x];
    assert [x, y][1..] == [y] && [y][1..] == [];
    assert Extended(one, [y]) == one[y.uuid := y];
    assert Extended(none, [x, y]) == Extended(one, [y]);
  }

  lemma NoVolumesRun(env: Env, host: Host, k: nat, events: seq<CrowdEvent>)
    requires GoodEnv(env) && !Volumes.SomeBootable(host.files)
    ensures VolumesApart(Snapshot(CrowdRun(env, Checks(host), k, Start(env), events).s))
  {
    assert Snapshot(Init(env)) == map[];
    var none := (config: Config) => config.volumes == [];
    forall running, args | Checks(host)(running, args).Ready?
      ensures Checks(host)(running, args).config.volumes == []
    {
      assert Checks(host)(running, args) == Bootstrapped(host, running, args);
      Volumes.FirstIsBootable(host.files, running, args.root, Flags.Sliced(args.volumes));
    }
    assert Only(Checks(host), none);
    RunAllAre(env, Checks(host), k, Start(env), events, none);
  }

  lemma OneClientKeepsVolumesApart(env: Env, host: Host, events: seq<CrowdEvent>)
    requires GoodEnv(env)
    ensures VolumesApart(Snapshot(CrowdRun(env, Checks(host), 1, Start(env), events).s))
  {
    OneClientIsSequential(env, host, Start(env), events);
    SequentialClientsStayWithinLimits(env, host, OnlyEvents(events));
  }

  /** No two VMs share a volume in all runs of k clients exactly if there is only one client, or the host
      is too small for any VM, or none of its files can be a volume. */
  lemma VolumesStayApartIff(env: Env, host: Host, k: nat)
    requires GoodEnv(env) && k > 0
    ensures (forall events :: VolumesApart(Snapshot(CrowdRun(env, Checks(host), k, Start(env), events).s)))
            <==> k == 1 || Cap(host.memory) < 1024 ||
                 !Volumes.SomeBootable(host.files)
  {
    if k == 1 || Cap(host.memory) < 1024 || !Volumes.SomeBootable(host.files) {
      forall events
        ensures VolumesApart(Snapshot(CrowdRun(env, Checks(host), k, Start(env), events).s))
      {
        if k == 1 {
          OneClientKeepsVolumesApart(env, host, events);
        } else if Cap(host.memory) < 1024 {
          NothingRuns(env, host, k, events);
        } else {
          NoVolumesRun(env, host, k, events);
        }
      }
    } else {
      var path :| path in host.files && Volumes.Bootable(host.files, path);
      var events := TwoClientsShareAVolume(env, host, k, path);
    }
  }
}
