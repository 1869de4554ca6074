/** The name records agree with the registry in every run. Only forward records are spoken of: reverse
    records are deleted by the address a VM reported, which need not be the one it was announced under. */
module LifecycleDns {
  import opened Text
  import opened Dns
  import opened Lifecycle
  import opened LifecycleInvariants
  import opened LifecycleTheorems

  function KeyOf(env: Env, s: State, i: nat): string
    requires i < |s.vms|
  {
    ForwardKey(env.domain, s.vms[i].config.name)
  }

  /** VM `i` is registered and has been announced under `key`. */
  ghost predicate Announcer(env: Env, s: State, i: nat, key: string) {
    i < |s.vms| && s.vms[i].runner != Gone && s.vms[i].announced.Some? && KeyOf(env, s, i) == key
  }

  /** Every forward record belongs to one of the daemon's own names or to a registered VM. */
  ghost predicate RecordsAreOwned(env: Env, s: State) {
    forall host: string :: ForwardKey(env.domain, host) in s.store ==>
      var key := ForwardKey(env.domain, host);
      || key == ForwardKey(env.domain, RESERVED_HOST)
      || key == ForwardKey(env.domain, NAMESERVER_HOST)
      || exists i: nat :: Announcer(env, s, i, key)
  }

  ghost predicate HasRecord(env: Env, s: State, host: string, ip: string) {
    ForwardKey(env.domain, host) in s.store && s.store[ForwardKey(env.domain, host)] == HostRecord(ip)
  }

  /** The daemon's own name resolves to the host until the server is closed. */
  ghost predicate ReservedStands(env: Env, s: State) {
    !s.closed ==> HasRecord(env, s, RESERVED_HOST, env.hostIP)
  }

  ghost predicate NoVmIsNameserver(env: Env, s: State) {
    forall i :: 0 <= i < |s.vms| ==> KeyOf(env, s, i) != ForwardKey(env.domain, NAMESERVER_HOST)
  }

  /** The name server's name does so as long as no VM has taken it. */
  ghost predicate NameserverStands(env: Env, s: State) {
    NoVmIsNameserver(env, s) ==> HasRecord(env, s, NAMESERVER_HOST, env.hostIP)
  }

  ghost predicate SlashFree(s: State) {
    forall i :: 0 <= i < |s.vms| ==> '/' !in s.vms[i].config.name
  }

  predicate Registered(s: State, i: nat) { i < |s.vms| && s.vms[i].runner != Gone }

  /** A registered VM that was announced has its record, with the address of its last announcement. */
  ghost predicate AnnouncedStand(env: Env, s: State) {
    forall i: nat :: Registered(s, i) && s.vms[i].announced.Some? ==>
      HasRecord(env, s, s.vms[i].config.name, s.vms[i].announced.value)
  }

  /** Registered VMs do not share keys. */
  ghost predicate KeysDiffer(env: Env, s: State) {
    forall i: nat, j: nat :: Registered(s, i) && Registered(s, j) && i != j ==> KeyOf(env, s, i) != KeyOf(env, s, j)
  }

  ghost predicate DnsInv(env: Env, s: State) {
    RecordsAreOwned(env, s) && ReservedStands(env, s) && NameserverStands(env, s)
  }

  lemma InitDns(env: Env)
    requires GoodDomain(env.domain)
    ensures DnsInv(env, Init(env))
  {
    var empty: map<string, string> := map[];
    var one := Added(empty, env.domain, RESERVED_HOST, env.hostIP);
    ReservedKeysDiffer(env.domain);
    forall host ensures
      ForwardKey(env.domain, host) in Init(env).store ==>
        ForwardKey(env.domain, host) == ForwardKey(env.domain, RESERVED_HOST) ||
        ForwardKey(env.domain, host) == ForwardKey(env.domain, NAMESERVER_HOST)
    {
      AddedForward(empty, env.domain, RESERVED_HOST, env.hostIP, host);
      AddedForward(one, env.domain, NAMESERVER_HOST, env.hostIP, host);
    }
    AddedForward(empty, env.domain, RESERVED_HOST, env.hostIP, RESERVED_HOST);
    AddedForward(one, env.domain, NAMESERVER_HOST, env.hostIP, RESERVED_HOST);
    AddedForward(one, env.domain, NAMESERVER_HOST, env.hostIP, NAMESERVER_HOST);
  }

  lemma ReservedKeysDiffer(domain: string)
    ensures ForwardKey(domain, RESERVED_HOST) != ForwardKey(domain, NAMESERVER_HOST)
  {
    if ForwardKey(domain, RESERVED_HOST) == ForwardKey(domain, NAMESERVER_HOST) {
      SingleLabelKeyIsUnique(domain, RESERVED_HOST, NAMESERVER_HOST);
    }
  }

  lemma VmKeyIsNotReserved(env: Env, s: State, i: nat)
    requires i < |s.vms| && s.vms[i].config.name != RESERVED_HOST
    ensures KeyOf(env, s, i) != ForwardKey(env.domain, RESERVED_HOST)
  {
    if KeyOf(env, s, i) == ForwardKey(env.domain, RESERVED_HOST) {
      SingleLabelKeyIsUnique(env.domain, RESERVED_HOST, s.vms[i].config.name);
    }
  }

  /** Registered VMs do not share keys when their names have no slashes. */
  lemma SlashFreeKeysDiffer(env: Env, s: State)
    requires NamesDiffer(s) && SlashFree(s)
    ensures KeysDiffer(env, s)
  {
    forall i: nat, j: nat | Registered(s, i) && Registered(s, j) && i != j
      ensures KeyOf(env, s, i) != KeyOf(env, s, j)
    {
      if KeyOf(env, s, i) == KeyOf(env, s, j) {
        ForwardKeyIsInjective(env.domain, s.vms[i].config.name, s.vms[j].config.name);
      }
    }
  }

  // ---- Preservation ----

  /** VMs keep their configuration, and those still registered were so before. */
  ghost predicate SameNames(s: State, t: State) {
    |s.vms| <= |t.vms| && forall i :: 0 <= i < |s.vms| ==> t.vms[i].config == s.vms[i].config
  }

  lemma NamesStay(s: State, t: State)
    requires Evolves(s, t)
    ensures SameNames(s, t)
  {
    forall i | 0 <= i < |s.vms| ensures t.vms[i].config == s.vms[i].config { assert VmEvolves(s.vms[i], t.vms[i]); }
  }

  lemma SameKey(env: Env, s: State, t: State, i: nat)
    requires SameNames(s, t) && i < |s.vms|
    ensures KeyOf(env, t, i) == KeyOf(env, s, i)
  {
  }

  lemma SlashFreeBefore(s: State, t: State)
    requires SameNames(s, t) && SlashFree(t)
    ensures SlashFree(s)
  {
    forall i | 0 <= i < |s.vms| ensures '/' !in s.vms[i].config.name {
      assert t.vms[i].config == s.vms[i].config;
    }
  }

  lemma NoNameserverBefore(env: Env, s: State, t: State)
    requires SameNames(s, t) && NoVmIsNameserver(env, t)
    ensures NoVmIsNameserver(env, s)
  {
    forall i | 0 <= i < |s.vms| ensures KeyOf(env, s, i) != ForwardKey(env.domain, NAMESERVER_HOST) {
      SameKey(env, s, t, i);
      assert KeyOf(env, t, i) != ForwardKey(env.domain, NAMESERVER_HOST);
    }
  }

  /** An event that leaves the records alone, and every VM's name, announcement and registration. */
  ghost predicate SameAnnouncements(s: State, t: State) {
    && SameNames(s, t) && t.store == s.store && t.closed == s.closed
    && (forall i :: 0 <= i < |s.vms| ==>
          t.vms[i].announced == s.vms[i].announced && (t.vms[i].runner == Gone <==> s.vms[i].runner == Gone))
    && (forall i :: |s.vms| <= i < |t.vms| ==> t.vms[i].announced.None?)
  }

  lemma SameKeepsOwned(env: Env, s: State, t: State)
    requires RecordsAreOwned(env, s) && SameAnnouncements(s, t)
    ensures RecordsAreOwned(env, t)
  {
    forall i: nat, key | Announcer(env, s, i, key) ensures Announcer(env, t, i, key) {
      SameKey(env, s, t, i);
    }
  }

  // An announcement.

  lemma IgnitedKeepsOwned(env: Env, s: State, uuid: string, addr: string)
    requires GoodDomain(env.domain) && RecordsAreOwned(env, s) && EntriesAreOwn(s) && FromGuest(env, s, uuid, addr)
    ensures RecordsAreOwned(env, Ignited(env, s, uuid, addr))
  {
    var t, i := Ignited(env, s, uuid, addr), s.active[uuid];
    forall j: nat, key | Announcer(env, s, j, key) ensures Announcer(env, t, j, key) {
      SameKey(env, s, t, j);
    }
    SameKey(env, s, t, i);
    assert Announcer(env, t, i, KeyOf(env, s, i));
    forall host: string | ForwardKey(env.domain, host) in t.store && ForwardKey(env.domain, host) != KeyOf(env, s, i)
      ensures ForwardKey(env.domain, host) in s.store
    {
      AddedForward(s.store, env.domain, s.vms[i].config.name, addr, host);
    }
  }

  // A departure.

  /** VM `i` has left the registry and its record the store. */
  ghost predicate Departed(env: Env, s: State, t: State, i: nat) {
    && SameNames(s, t) && i < |s.vms| == |t.vms| && t.closed == s.closed && s.vms[i].runner != Gone
    && t.vms == s.vms[i := s.vms[i].(runner := Gone)]
    && t.store == Removed(s.store, env.domain, s.vms[i].config.name, s.vms[i].publicIP)
  }

  lemma DepartureKeepsOwned(env: Env, s: State, t: State, i: nat)
    requires GoodDomain(env.domain) && RecordsAreOwned(env, s) && Departed(env, s, t, i)
    ensures RecordsAreOwned(env, t)
  {
    forall j: nat, key | Announcer(env, s, j, key) && key != KeyOf(env, s, i) ensures Announcer(env, t, j, key) {
      SameKey(env, s, t, j);
    }
    forall host: string | ForwardKey(env.domain, host) in t.store
      ensures ForwardKey(env.domain, host) in s.store && ForwardKey(env.domain, host) != KeyOf(env, s, i)
    {
      RemovedForward(s.store, env.domain, s.vms[i].config.name, s.vms[i].publicIP, host);
    }
  }

  // The close.

  ghost predicate TornDown(env: Env, s: State, t: State) {
    t == s.(closed := true, store := Removed(s.store, env.domain, RESERVED_HOST, env.hostIP))
  }

  lemma CloseKeepsOwned(env: Env, s: State, t: State)
    requires GoodDomain(env.domain) && RecordsAreOwned(env, s) && TornDown(env, s, t)
    ensures RecordsAreOwned(env, t)
  {
    forall j: nat, key | Announcer(env, s, j, key) ensures Announcer(env, t, j, key) {
      SameKey(env, s, t, j);
    }
    forall host: string | ForwardKey(env.domain, host) in t.store ensures ForwardKey(env.domain, host) in s.store {
      RemovedForward(s.store, env.domain, RESERVED_HOST, env.hostIP, host);
    }
  }

  lemma ExitKeepsOwned(env: Env, s: State, i: nat)
    requires GoodDomain(env.domain) && Shape(s) && RecordsAreOwned(env, s) && i < |s.vms|
    ensures RecordsAreOwned(env, RunnerExited(env, s, i))
  {
    if s.vms[i].runner in {Up, Unstarted} {
      OwnEntry(s, i);
      DepartureKeepsOwned(env, s, RunnerExited(env, s, i), i);
    }
  }

  lemma VmEventKeepsAnnouncements(env: Env, s: State, e: Event)
    requires AllSound(s) && OfOneVm(e)
    ensures SameAnnouncements(s, Next(env, s, e))
  {
    VmEventFrame(env, s, e);
    forall i | 0 <= i < |s.vms| ensures VmSteps(s.vms[i], Next(env, s, e).vms[i]) { VmEventSteps(env, s, e, i); }
  }

  lemma AdmissionKeepsAnnouncements(env: Env, s: State, e: Event)
    requires e.Admit?
    ensures SameAnnouncements(s, Next(env, s, e))
  {
  }

  lemma OtherEventKeepsAnnouncements(env: Env, s: State, e: Event)
    requires AllSound(s) && !e.Ignition? && !e.Exit? && !e.Close?
    ensures SameAnnouncements(s, Next(env, s, e))
  {
    if OfOneVm(e) {
      VmEventKeepsAnnouncements(env, s, e);
    } else if e.Admit? {
      AdmissionKeepsAnnouncements(env, s, e);
    } else {
      assert Next(env, s, e).vms == s.vms;
    }
  }

  lemma NextKeepsOwned(env: Env, s: State, e: Event)
    requires GoodEnv(env) && RegistryInv(s) && RecordsAreOwned(env, s)
    ensures RecordsAreOwned(env, Next(env, s, e))
  {
    if s.closed || s.fault.Some? {
    } else if e.Ignition? {
      if FromGuest(env, s, e.uuid, e.addr) { IgnitedKeepsOwned(env, s, e.uuid, e.addr); }
    } else if e.Exit? {
      if e.i < |s.vms| { ExitKeepsOwned(env, s, e.i); }
    } else if e.Close? {
      if s.woken && s.jobs == 0 { CloseKeepsOwned(env, s, Next(env, s, e)); }
    } else {
      OtherEventKeepsAnnouncements(env, s, e);
      SameKeepsOwned(env, s, Next(env, s, e));
    }
  }

  // ---- What changes a record ----

  /** VM `i` ends at this event. */
  predicate Ends(s: State, e: Event, i: nat) {
    e == Exit(i) && i < |s.vms| && s.vms[i].runner in {Up, Unstarted}
  }

  /** VM `i` is announced at this event. */
  predicate Announces(env: Env, s: State, e: Event, i: nat) {
    e.Ignition? && FromGuest(env, s, e.uuid, e.addr) && s.active[e.uuid] == i < |s.vms|
  }

  /** This event takes away or rewrites the record that `host` has for `ip`. */
  ghost predicate Disturbs(env: Env, s: State, e: Event, host: string, ip: string) {
    || (exists i: nat :: Ends(s, e, i) && KeyOf(env, s, i) == ForwardKey(env.domain, host))
    || (exists i: nat :: Announces(env, s, e, i) && KeyOf(env, s, i) == ForwardKey(env.domain, host) && e.addr != ip)
    || (e.Close? && s.woken && s.jobs == 0 && ForwardKey(env.domain, host) == ForwardKey(env.domain, RESERVED_HOST))
  }

  lemma RecordsDiffer(a: string, b: string)
    ensures HostRecord(a) == HostRecord(b) <==> a == b
  {
    var front, back := "{\"host\":\"", "\", \"TTL\": 20 }";
    SameInside(front, a, b, back);
  }

  lemma SameInside(front: string, a: string, b: string, back: string)
    ensures front + a + back == front + b + back <==> a == b
  {
    var x, y := front + a + back, front + b + back;
    if x == y {
      assert |a| == |b|;
      assert x[|front|..|front| + |a|] == a && y[|front|..|front| + |b|] == b;
    }
  }

  lemma ExitLosesIff(env: Env, s: State, i: nat, host: string, ip: string)
    requires GoodDomain(env.domain) && Shape(s) && i < |s.vms| && HasRecord(env, s, host, ip)
    ensures HasRecord(env, RunnerExited(env, s, i), host, ip) <==> !Disturbs(env, s, Exit(i), host, ip)
  {
    assert Disturbs(env, s, Exit(i), host, ip) <==>
           Ends(s, Exit(i), i) && KeyOf(env, s, i) == ForwardKey(env.domain, host);
    if s.vms[i].runner in {Up, Unstarted} {
      OwnEntry(s, i);
      RemovedForward(s.store, env.domain, s.vms[i].config.name, s.vms[i].publicIP, host);
    }
  }

  lemma IgnitionLosesIff(env: Env, s: State, uuid: string, addr: string, host: string, ip: string)
    requires GoodDomain(env.domain) && FromGuest(env, s, uuid, addr) && s.active[uuid] < |s.vms|
    requires HasRecord(env, s, host, ip)
    ensures HasRecord(env, Ignited(env, s, uuid, addr), host, ip) <==> !Disturbs(env, s, Ignition(uuid, addr), host, ip)
  {
    var e, i := Ignition(uuid, addr), s.active[uuid];
    assert Announces(env, s, e, i);
    assert Disturbs(env, s, e, host, ip) <==> KeyOf(env, s, i) == ForwardKey(env.domain, host) && addr != ip;
    AddedForward(s.store, env.domain, s.vms[i].config.name, addr, host);
    RecordsDiffer(addr, ip);
  }

  lemma CloseLosesIff(env: Env, s: State, host: string, ip: string)
    requires GoodDomain(env.domain) && DaemonIsUp(s) && HasRecord(env, s, host, ip)
    ensures HasRecord(env, Next(env, s, Close), host, ip) <==> !Disturbs(env, s, Close, host, ip)
  {
    RemovedForward(s.store, env.domain, RESERVED_HOST, env.hostIP, host);
  }

  lemma GuestEventLosesIff(env: Env, s: State, e: Event, host: string, ip: string)
    requires GoodEnv(env) && Shape(s) && DaemonIsUp(s) && HasRecord(env, s, host, ip) && (e.Exit? || e.Ignition?)
    ensures HasRecord(env, Next(env, s, e), host, ip) <==> !Disturbs(env, s, e, host, ip)
  {
    if e.Exit? {
      if e.i < |s.vms| { ExitLosesIff(env, s, e.i, host, ip); }
    } else {
      if FromGuest(env, s, e.uuid, e.addr) { IgnitionLosesIff(env, s, e.uuid, e.addr, host, ip); }
    }
  }

  lemma OtherEventKeepsStore(env: Env, s: State, e: Event)
    requires AllSound(s) && !e.Ignition? && !e.Exit? && !e.Close?
    ensures Next(env, s, e).store == s.store
  {
    OtherEventKeepsAnnouncements(env, s, e);
  }

  /** A record that stands is lost exactly at the end of a VM with its key, at the announcement of one
      from another address, or, if it is the daemon's own, at the close. */
  lemma RecordIsLostIff(env: Env, s: State, e: Event, host: string, ip: string)
    requires GoodEnv(env) && RegistryInv(s) && DaemonIsUp(s) && HasRecord(env, s, host, ip)
    ensures HasRecord(env, Next(env, s, e), host, ip) <==> !Disturbs(env, s, e, host, ip)
  {
    if e.Exit? || e.Ignition? {
      GuestEventLosesIff(env, s, e, host, ip);
    } else if e.Close? {
      CloseLosesIff(env, s, host, ip);
    } else {
      OtherEventKeepsStore(env, s, e);
    }
  }

  ghost predicate StandsThroughout(env: Env, s: State, events: seq<Event>, host: string, ip: string)
    decreases events
  {
    HasRecord(env, s, host, ip) &&
    (events == [] || StandsThroughout(env, Next(env, s, events[0]), events[1..], host, ip))
  }

  ghost predicate Undisturbed(env: Env, s: State, events: seq<Event>, host: string, ip: string)
    decreases events
  {
    events == [] ||
    (!(DaemonIsUp(s) && Disturbs(env, s, events[0], host, ip)) &&
     Undisturbed(env, Next(env, s, events[0]), events[1..], host, ip))
  }

  /** The same over whole runs. */
  lemma {:induction false} RecordStandsThroughoutIff(env: Env, s: State, events: seq<Event>, host: string, ip: string)
    requires GoodEnv(env) && RegistryInv(s) && OnlyNilProcess(s) && HasRecord(env, s, host, ip)
    ensures StandsThroughout(env, s, events, host, ip) <==> Undisturbed(env, s, events, host, ip)
    decreases events
  {
    if events != [] {
      var t := Next(env, s, events[0]);
      NextKeepsRegistry(env, s, events[0]);
      if DaemonIsUp(s) { RecordIsLostIff(env, s, events[0], host, ip); }
      if HasRecord(env, t, host, ip) { RecordStandsThroughoutIff(env, t, events[1..], host, ip); }
    }
  }

  lemma NextKeepsReserved(env: Env, s: State, e: Event)
    requires GoodEnv(env) && RegistryInv(s) && ReservedStands(env, s)
    ensures ReservedStands(env, Next(env, s, e))
  {
    if DaemonIsUp(s) {
      NamesAreNotReserved(s.vms);
      RecordIsLostIff(env, s, e, RESERVED_HOST, env.hostIP);
      forall i: nat | i < |s.vms| ensures KeyOf(env, s, i) != ForwardKey(env.domain, RESERVED_HOST) {
        VmKeyIsNotReserved(env, s, i);
      }
    }
  }

  lemma NextKeepsNameserver(env: Env, s: State, e: Event)
    requires GoodEnv(env) && RegistryInv(s) && NameserverStands(env, s)
    ensures NameserverStands(env, Next(env, s, e))
  {
    NextEvolves(env, s, e);
    NamesStay(s, Next(env, s, e));
    if NoVmIsNameserver(env, Next(env, s, e)) {
      NoNameserverBefore(env, s, Next(env, s, e));
      if DaemonIsUp(s) {
        RecordIsLostIff(env, s, e, NAMESERVER_HOST, env.hostIP);
        NothingDisturbsNameserver(env, s, e);
      }
    }
  }

  lemma NothingDisturbsNameserver(env: Env, s: State, e: Event)
    requires NoVmIsNameserver(env, s)
    ensures !Disturbs(env, s, e, NAMESERVER_HOST, env.hostIP)
  {
    ReservedKeysDiffer(env.domain);
  }

  lemma NextKeepsDns(env: Env, s: State, e: Event)
    requires GoodEnv(env) && RegistryInv(s) && DnsInv(env, s)
    ensures DnsInv(env, Next(env, s, e))
  {
    NextKeepsOwned(env, s, e);
    NextKeepsReserved(env, s, e);
    NextKeepsNameserver(env, s, e);
  }

  lemma {:induction false} RunKeepsDns(env: Env, s: State, events: seq<Event>)
    requires GoodEnv(env) && RegistryInv(s) && OnlyNilProcess(s) && DnsInv(env, s)
    ensures DnsInv(env, Run(env, s, events))
    decreases events
  {
    if events != [] {
      NextKeepsRegistry(env, s, events[0]);
      NextKeepsDns(env, s, events[0]);
      RunKeepsDns(env, Next(env, s, events[0]), events[1..]);
    }
  }

  lemma ReachableDns(env: Env, s: State)
    requires GoodEnv(env) && Reachable(env, s)
    ensures RegistryInv(s) && DnsInv(env, s)
  {
    ReachableIsSound(env, s);
    var events :| Run(env, Init(env), events) == s;
    InitDns(env);
    RunKeepsDns(env, Init(env), events);
  }

  // ---- What takes a VM's record ----

  /** Another VM with the same key ends, or is announced from another address, at this event. */
  ghost predicate Takes(env: Env, s: State, e: Event, i: nat) {
    && Registered(s, i) && s.vms[i].announced.Some?
    && exists j: nat :: j != i && j < |s.vms| && KeyOf(env, s, j) == KeyOf(env, s, i) &&
         (Ends(s, e, j) || (Announces(env, s, e, j) && e.addr != s.vms[i].announced.value))
  }

  lemma TakingIsDisturbing(env: Env, s: State, e: Event, i: nat)
    requires Registered(s, i) && s.vms[i].announced.Some? && s.vms[i].config.name != RESERVED_HOST
    requires !Ends(s, e, i) && !Announces(env, s, e, i)
    ensures Takes(env, s, e, i) <==> Disturbs(env, s, e, s.vms[i].config.name, s.vms[i].announced.value)
  {
    VmKeyIsNotReserved(env, s, i);
  }

  lemma AnnouncedHasRecord(env: Env, s: State, e: Event, i: nat)
    requires GoodDomain(env.domain) && DaemonIsUp(s) && Announces(env, s, e, i)
    ensures HasRecord(env, Next(env, s, e), s.vms[i].config.name, e.addr) && !Takes(env, s, e, i)
  {
    var name, domain := s.vms[i].config.name, env.domain;
    assert Next(env, s, e).store == Added(s.store, domain, name, e.addr);
    AddedForward(s.store, domain, name, e.addr, name);
  }

  /** A registered VM's current record is lost, at any event but the VM's own end, exactly if another VM
      with the same key takes it. */
  lemma RecordIsTakenIff(env: Env, s: State, e: Event, i: nat)
    requires GoodEnv(env) && RegistryInv(s) && DaemonIsUp(s) && Registered(s, i) && s.vms[i].announced.Some?
    requires HasRecord(env, s, s.vms[i].config.name, s.vms[i].announced.value) && !Ends(s, e, i)
    ensures var t := Next(env, s, e);
      && Registered(t, i) && t.vms[i].config == s.vms[i].config && t.vms[i].announced.Some?
      && (HasRecord(env, t, t.vms[i].config.name, t.vms[i].announced.value) <==> !Takes(env, s, e, i))
  {
    AnnouncementsAfter(env, s, e, i);
    NamesAreNotReserved(s.vms);
    if Announces(env, s, e, i) {
      AnnouncedHasRecord(env, s, e, i);
    } else {
      TakingIsDisturbing(env, s, e, i);
      RecordIsLostIff(env, s, e, s.vms[i].config.name, s.vms[i].announced.value);
    }
  }

  /** What an event leaves of a VM's registration and announcement. */
  ghost predicate AnnouncedAfter(env: Env, s: State, e: Event, t: State, i: nat)
    requires i < |s.vms|
  {
    && i < |t.vms| && t.vms[i].config == s.vms[i].config
    && (Registered(t, i) <==> Registered(s, i) && !Ends(s, e, i))
    && t.vms[i].announced == if Announces(env, s, e, i) then Some(e.addr) else s.vms[i].announced
  }

  lemma AnnouncedAfterExit(env: Env, s: State, j: nat, i: nat)
    requires Shape(s) && i < |s.vms| && j < |s.vms|
    ensures AnnouncedAfter(env, s, Exit(j), RunnerExited(env, s, j), i)
  {
    if s.vms[j].runner in {Up, Unstarted} { OwnEntry(s, j); }
  }

  lemma AnnouncedAfterIgnition(env: Env, s: State, uuid: string, addr: string, i: nat)
    requires i < |s.vms| && FromGuest(env, s, uuid, addr) && s.active[uuid] < |s.vms|
    ensures AnnouncedAfter(env, s, Ignition(uuid, addr), Ignited(env, s, uuid, addr), i)
  {
  }

  lemma AnnouncementsAfter(env: Env, s: State, e: Event, i: nat)
    requires RegistryInv(s) && DaemonIsUp(s) && i < |s.vms|
    ensures AnnouncedAfter(env, s, e, Next(env, s, e), i)
  {
    if e.Exit? {
      if e.i < |s.vms| { AnnouncedAfterExit(env, s, e.i, i); }
    } else if e.Ignition? {
      if FromGuest(env, s, e.uuid, e.addr) { AnnouncedAfterIgnition(env, s, e.uuid, e.addr, i); }
    } else if !e.Close? {
      OtherEventKeepsAnnouncements(env, s, e);
    }
  }

  /** If all records of announced VMs stand, they still do after an event exactly if it takes none. */
  lemma AnnouncedStillStandIff(env: Env, s: State, e: Event)
    requires GoodEnv(env) && RegistryInv(s) && DaemonIsUp(s) && AnnouncedStand(env, s)
    ensures AnnouncedStand(env, Next(env, s, e)) <==> forall i: nat :: !Takes(env, s, e, i)
  {
    var t := Next(env, s, e);
    forall i: nat | Registered(t, i) && t.vms[i].announced.Some?
      ensures HasRecord(env, t, t.vms[i].config.name, t.vms[i].announced.value) <==> !Takes(env, s, e, i)
    {
      StandsUnlessTaken(env, s, e, i);
    }
    forall i: nat | Takes(env, s, e, i) ensures Registered(t, i) && t.vms[i].announced.Some? {
      AnnouncementsAfter(env, s, e, i);
    }
  }

  lemma NewcomersAreUnannounced(env: Env, s: State, e: Event, i: nat)
    requires AllSound(s) && |s.vms| <= i < |Next(env, s, e).vms|
    ensures Next(env, s, e).vms[i].announced.None?
  {
    if !e.Ignition? && !e.Exit? && !e.Close? { OtherEventKeepsAnnouncements(env, s, e); }
  }

  lemma StandsUnlessTaken(env: Env, s: State, e: Event, i: nat)
    requires GoodEnv(env) && RegistryInv(s) && DaemonIsUp(s) && AnnouncedStand(env, s)
    requires var t := Next(env, s, e); Registered(t, i) && t.vms[i].announced.Some?
    ensures var t := Next(env, s, e);
      HasRecord(env, t, t.vms[i].config.name, t.vms[i].announced.value) <==> !Takes(env, s, e, i)
  {
    if i >= |s.vms| {
      NewcomersAreUnannounced(env, s, e, i);
    } else {
      AnnouncementsAfter(env, s, e, i);
      if s.vms[i].announced.Some? {
        RecordIsTakenIff(env, s, e, i);
      } else {
        AnnouncedHasRecord(env, s, e, i);
      }
    }
  }

  ghost predicate AllStandThroughout(env: Env, s: State, events: seq<Event>)
    decreases events
  {
    AnnouncedStand(env, s) && (events == [] || AllStandThroughout(env, Next(env, s, events[0]), events[1..]))
  }

  ghost predicate NoneTaken(env: Env, s: State, events: seq<Event>)
    decreases events
  {
    events == [] ||
    ((DaemonIsUp(s) ==> forall i: nat :: !Takes(env, s, events[0], i)) &&
        NoneTaken(env, Next(env, s, events[0]), events[1..]))
  }

  /** Over whole runs: announced VMs keep their current records exactly if no VM's end or announcement
      ever takes another's. */
  lemma {:induction false} AllStandThroughoutIff(env: Env, s: State, events: seq<Event>)
    requires GoodEnv(env) && RegistryInv(s) && OnlyNilProcess(s) && AnnouncedStand(env, s)
    ensures AllStandThroughout(env, s, events) <==> NoneTaken(env, s, events)
    decreases events
  {
    if events != [] {
      var t := Next(env, s, events[0]);
      NextKeepsRegistry(env, s, events[0]);
      if DaemonIsUp(s) { AnnouncedStillStandIff(env, s, events[0]); }
      if AnnouncedStand(env, t) { AllStandThroughoutIff(env, t, events[1..]); }
    }
  }

  ghost predicate KeysDifferThroughout(env: Env, s: State, events: seq<Event>)
    decreases events
  {
    KeysDiffer(env, s) && (events == [] || KeysDifferThroughout(env, Next(env, s, events[0]), events[1..]))
  }

  /** So they do in every run in which registered VMs never share a key. */
  lemma {:induction false} KeysDifferMeansAllStand(env: Env, s: State, events: seq<Event>)
    requires GoodEnv(env) && RegistryInv(s) && OnlyNilProcess(s) && AnnouncedStand(env, s)
    requires KeysDifferThroughout(env, s, events)
    ensures AnnouncedStand(env, Run(env, s, events)) && NoneTaken(env, s, events)
    decreases events
  {
    if events != [] {
      NextKeepsRegistry(env, s, events[0]);
      if DaemonIsUp(s) {
        AnnouncedStillStandIff(env, s, events[0]);
        forall i: nat ensures !Takes(env, s, events[0], i) { NoKeyNoTaking(env, s, events[0], i); }
      }
      KeysDifferMeansAllStand(env, Next(env, s, events[0]), events[1..]);
    }
  }

  lemma NoKeyNoTaking(env: Env, s: State, e: Event, i: nat)
    requires Shape(s) && KeysDiffer(env, s)
    ensures !Takes(env, s, e, i)
  {
    forall j: nat | Ends(s, e, j) || Announces(env, s, e, j) ensures Registered(s, j) { }
  }

  /** In particular if no name has a slash. */
  lemma {:induction false} SlashFreeMeansKeysDiffer(env: Env, s: State, events: seq<Event>)
    requires GoodEnv(env) && RegistryInv(s) && OnlyNilProcess(s) && SlashFree(Run(env, s, events))
    ensures SlashFree(s) && KeysDifferThroughout(env, s, events)
    decreases events
  {
    if events != [] {
      var t := Next(env, s, events[0]);
      NextKeepsRegistry(env, s, events[0]);
      SlashFreeMeansKeysDiffer(env, t, events[1..]);
      NextEvolves(env, s, events[0]);
      NamesStay(s, t);
      SlashFreeBefore(s, t);
    }
    SlashFreeKeysDiffer(env, s);
  }

  lemma ReachableAnnouncedStand(env: Env, s: State)
    requires GoodEnv(env) && Reachable(env, s) && SlashFree(s)
    ensures AnnouncedStand(env, s)
  {
    var events :| Run(env, Init(env), events) == s;
    SlashFreeMeansKeysDiffer(env, Init(env), events);
    KeysDifferMeansAllStand(env, Init(env), events);
  }

  // ---- Theorems ----

  /** Whatever VMs come and go under whatever names, the daemon's own record stands until the close. */
  lemma ReservedRecordSurvives(env: Env, s: State)
    requires GoodEnv(env) && Reachable(env, s) && !s.closed
    ensures HasRecord(env, s, RESERVED_HOST, env.hostIP)
  {
    ReachableDns(env, s);
  }

  /** With slash-free VM names, none of them the name server's, the forward records are exactly the
      daemon's two and those of the registered VMs that were announced. */
  lemma RecordsAgreeWithRegistry(env: Env, s: State, host: string)
    requires GoodEnv(env) && Reachable(env, s) && !s.closed && SlashFree(s) && '/' !in host
    requires forall i :: 0 <= i < |s.vms| ==> s.vms[i].config.name != NAMESERVER_HOST
    ensures ForwardKey(env.domain, host) in s.store <==>
            || host == RESERVED_HOST || host == NAMESERVER_HOST
            || exists u :: u in s.active && s.active[u] < |s.vms| &&
                           s.vms[s.active[u]].config.name == host && s.vms[s.active[u]].announced.Some?
  {
    ReachableDns(env, s);
    ReachableAnnouncedStand(env, s);
    var key := ForwardKey(env.domain, host);
    forall i | 0 <= i < |s.vms| ensures KeyOf(env, s, i) != ForwardKey(env.domain, NAMESERVER_HOST) {
      if KeyOf(env, s, i) == ForwardKey(env.domain, NAMESERVER_HOST) {
        ForwardKeyIsInjective(env.domain, s.vms[i].config.name, NAMESERVER_HOST);
      }
    }
    if key in s.store && host != RESERVED_HOST && host != NAMESERVER_HOST {
      if key == ForwardKey(env.domain, RESERVED_HOST) { ForwardKeyIsInjective(env.domain, host, RESERVED_HOST); }
      if key == ForwardKey(env.domain, NAMESERVER_HOST) { ForwardKeyIsInjective(env.domain, host, NAMESERVER_HOST); }
      var i: nat :| Announcer(env, s, i, key);
      ForwardKeyIsInjective(env.domain, host, s.vms[i].config.name);
      assert s.active[s.vms[i].config.uuid] == i;
    }
    if u :| u in s.active && s.active[u] < |s.vms|
            && s.vms[s.active[u]].config.name == host && s.vms[s.active[u]].announced.Some?
    {
      assert HasRecord(env, s, s.vms[s.active[u]].config.name, s.vms[s.active[u]].announced.value);
    }
  }

  /** Every record of an announced VM carries the address of its last announcement. */
  lemma RecordsAreCurrent(env: Env, s: State, u: string)
    requires GoodEnv(env) && Reachable(env, s) && SlashFree(s)
    requires u in s.active && s.active[u] < |s.vms| && s.vms[s.active[u]].announced.Some?
    ensures HasRecord(env, s, s.vms[s.active[u]].config.name, s.vms[s.active[u]].announced.value)
  {
    ReachableDns(env, s);
    ReachableAnnouncedStand(env, s);
    assert Registered(s, s.active[u]);
  }

  /** The name server's record is lost exactly when a VM with its key ends, or is announced from an
      address other than the host's. */
  lemma NameserverRecordIsLostIff(env: Env, s: State, e: Event)
    requires GoodEnv(env) && RegistryInv(s) && DaemonIsUp(s) && HasRecord(env, s, NAMESERVER_HOST, env.hostIP)
    ensures !HasRecord(env, Next(env, s, e), NAMESERVER_HOST, env.hostIP) <==>
            exists i: nat :: i < |s.vms| && KeyOf(env, s, i) == ForwardKey(env.domain, NAMESERVER_HOST) &&
              (Ends(s, e, i) || (Announces(env, s, e, i) && e.addr != env.hostIP))
  {
    RecordIsLostIff(env, s, e, NAMESERVER_HOST, env.hostIP);
    ReservedKeysDiffer(env.domain);
  }

  /** Over every run of the daemon. */
  lemma NameserverStandsThroughoutIff(env: Env, events: seq<Event>)
    requires GoodEnv(env)
    ensures StandsThroughout(env, Init(env), events, NAMESERVER_HOST, env.hostIP) <==>
            Undisturbed(env, Init(env), events, NAMESERVER_HOST, env.hostIP)
  {
    InitDns(env);
    RecordStandsThroughoutIff(env, Init(env), events, NAMESERVER_HOST, env.hostIP);
  }

  /** The name server's name is not reserved: a VM called so takes the record with it when it ends. */
  lemma NameserverRecordCanBeLost(env: Env, uuid: string, s: State)
    requires GoodEnv(env)
    requires s == Run(env, Init(env),
      [Admit(Config(NAMESERVER_HOST, uuid, 1024, []), 0, true)] + ([Start(0, Some(7))] + [Exit(0)]))
    ensures s.active == map[] && ForwardKey(env.domain, NAMESERVER_HOST) !in s.store
  {
    var config := Config(NAMESERVER_HOST, uuid, 1024, []);
    assert NAMESERVER_HOST != RESERVED_HOST by { assert |NAMESERVER_HOST| != |RESERVED_HOST|; }
    FirstAdmission(env, config);
    var s2 := Next(env, Next(env, Init(env), Admit(config, 0, true)), Start(0, Some(7)));
    RunOfThree(env, Init(env), Admit(config, 0, true), Start(0, Some(7)), Exit(0));
    RemovedForward(s2.store, env.domain, NAMESERVER_HOST, "", NAMESERVER_HOST);
  }

  /** If two registered VMs' names share a key, the one's exit takes the other's record. */
  lemma SharedKeyLosesRecord(env: Env, s: State, i: nat, j: nat)
    requires GoodEnv(env) && Reachable(env, s) && s.fault.None? && !s.closed && i < |s.vms| && j < |s.vms|
    requires ForwardKey(env.domain, s.vms[i].config.name) == ForwardKey(env.domain, s.vms[j].config.name)
    requires s.vms[i].config.name != s.vms[j].config.name && s.vms[i].runner != Gone && s.vms[j].runner == Up
    ensures var t := Next(env, s, Exit(j));
      && t.vms[i] == s.vms[i] && s.vms[i].config.uuid in t.active
      && ForwardKey(env.domain, s.vms[i].config.name) !in t.store
  {
    ReachableIsSound(env, s);
    ExitTakesSharedKey(env, s, i, j);
    ExitEventIs(env, s, j);
  }

  lemma ExitEventIs(env: Env, s: State, j: nat)
    requires DaemonIsUp(s) && j < |s.vms|
    ensures Next(env, s, Exit(j)) == RunnerExited(env, s, j)
  {
  }

  lemma ExitTakesSharedKey(env: Env, s: State, i: nat, j: nat)
    requires GoodDomain(env.domain) && Shape(s) && i < |s.vms| && j < |s.vms| && i != j
    requires KeyOf(env, s, i) == KeyOf(env, s, j) && s.vms[i].runner != Gone && s.vms[j].runner == Up
    ensures var t := RunnerExited(env, s, j);
      t.vms[i] == s.vms[i] && s.vms[i].config.uuid in t.active && KeyOf(env, s, i) !in t.store
  {
    OwnEntry(s, j);
    assert s.active[s.vms[i].config.uuid] == i;
    RemovedForward(s.store, env.domain, s.vms[j].config.name, s.vms[j].publicIP, s.vms[i].config.name);
  }

  /** With slashes the agreement fails: once "b.a" ends, the still registered "a/b" has no record. */
  lemma SlashNamesLoseRecords(env: Env, s: State, i: nat, j: nat)
    requires GoodEnv(env) && Reachable(env, s) && s.fault.None? && !s.closed && i < |s.vms| && j < |s.vms|
    requires s.vms[i].config.name == "a/b" && s.vms[i].runner != Gone && s.vms[i].announced.Some?
    requires s.vms[j].config.name == "b.a" && s.vms[j].runner == Up
    ensures var t := Next(env, s, Exit(j));
      t.vms[i] == s.vms[i] && s.vms[i].config.uuid in t.active && ForwardKey(env.domain, "a/b") !in t.store
  {
    SlashesMakeKeysCollide(env.domain);
    assert "a/b"[1] != "b.a"[1];
    SharedKeyLosesRecord(env, s, i, j);
  }

  /** Such a state is reached by admitting the two, announcing the first and starting the second. */
  lemma SlashNamesRun(env: Env, u1: string, u2: string, addr: string, s: State)
    requires u1 != u2 && addr in env.network && !IsLoopback(addr)
    requires s == Run(env, Init(env),
      [Admit(Config("a/b", u1, 1024, []), 0, true)] + ([Admit(Config("b.a", u2, 1024, []), 0, true)] +
      ([Ignition(u1, addr)] + [Start(1, Some(7))])))
    ensures s.fault.None? && !s.closed && |s.vms| == 2
    ensures s.vms[0].config.name == "a/b" && s.vms[0].runner != Gone && s.vms[0].announced.Some?
    ensures s.vms[1].config.name == "b.a" && s.vms[1].runner == Up
  {
    var a, b := Config("a/b", u1, 1024, []), Config("b.a", u2, 1024, []);
    assert a.name[1] != b.name[1] && |a.name| != |RESERVED_HOST| && |b.name| != |RESERVED_HOST|;
    TwoAdmitted(env, a, b, addr, s);
  }

  /** Two VMs are admitted, the first is announced and the second started. */
  lemma TwoAdmitted(env: Env, a: Config, b: Config, addr: string, s: State)
    requires a.uuid != b.uuid && a.name != b.name && a.name != RESERVED_HOST && b.name != RESERVED_HOST
    requires addr in env.network && !IsLoopback(addr)
    requires s == Run(env, Init(env),
      [Admit(a, 0, true)] + ([Admit(b, 0, true)] + ([Ignition(a.uuid, addr)] + [Start(1, Some(7))])))
    ensures s.fault.None? && !s.closed && |s.vms| == 2
    ensures s.vms[0].config == a && s.vms[0].runner != Gone && s.vms[0].announced.Some?
    ensures s.vms[1].config == b && s.vms[1].runner == Up
  {
    var first, second, third, last := Admit(a, 0, true), Admit(b, 0, true), Ignition(a.uuid, addr), Start(1, Some(7));
    var s0 := Init(env);
    var s1 := Next(env, s0, first);
    FirstAdmission(env, a);
    SecondAdmission(env, a, b);
    var s2 := Next(env, s1, second);
    RunOfCons(env, s0, first, [second] + ([third] + [last]));
    RunOfCons(env, s1, second, [third] + [last]);
    AnnouncedAndStarted(env, s2, a, b, addr);
  }

  lemma AnnouncedAndStarted(env: Env, s: State, a: Config, b: Config, addr: string)
    requires s.vms == [Fresh(a, 0, true), Fresh(b, 0, true)] && a.uuid in s.active && s.active[a.uuid] == 0
    requires s.fault.None? && !s.closed && addr in env.network && !IsLoopback(addr)
    ensures var t := Run(env, s, [Ignition(a.uuid, addr)] + [Start(1, Some(7))]);
      && t.fault.None? && !t.closed && |t.vms| == 2
      && t.vms[0].config == a && t.vms[0].runner != Gone && t.vms[0].announced.Some?
      && t.vms[1].config == b && t.vms[1].runner == Up
  {
    var third, last := Ignition(a.uuid, addr), Start(1, Some(7));
    var t := Ignited(env, s, a.uuid, addr);
    assert Next(env, s, third) == t && t.vms[1] == Fresh(b, 0, true);
    RunOfCons(env, s, third, [last]);
    RunOfOne(env, t, last);
  }
}
