/** Admission as the code's lock really covers it: the lookup is one step and the insertion another,
    with anything in between. It shows what module Lifecycle assumes away, and that this is exactly
    what keeps the registry in shape. */
module SplitAdmission {
  import Dns
  import opened Lifecycle
  import opened LifecycleInvariants
  import opened LifecycleTheorems

  /** The daemon, and the requests that have looked and found their name and UUID free. */
  datatype Race = Race(s: State, looked: seq<Config>)

  datatype SplitEvent = Look(config: Config) | Insert(n: nat, now: nat, runDirOk: bool) | Other(e: Event)

  /** The insertion by itself. */
  function Inserted(s: State, config: Config, now: nat, runDirOk: bool): State {
    s.(vms := s.vms + [Fresh(config, now, runDirOk)], active := s.active[config.uuid := |s.vms|])
  }

  ghost function SplitNext(env: Env, c: Race, e: SplitEvent): Race {
    if !DaemonIsUp(c.s) then c
    else match e
      case Look(config) => if RefusalOf(c.s, config).None? then c.(looked := c.looked + [config]) else c
      case Insert(n, now, runDirOk) =>
        if n < |c.looked| then Race(Inserted(c.s, c.looked[n], now, runDirOk), c.looked[..n] + c.looked[n + 1..])
        else c
      case Other(e) => if e.Admit? then c else c.(s := Next(env, c.s, e))
  }

  ghost function SplitRun(env: Env, c: Race, events: seq<SplitEvent>): Race
    decreases events
  {
    if events == [] then c else SplitRun(env, SplitNext(env, c, events[0]), events[1..])
  }

  // ---- One insertion ----

  lemma InsertedIntoFree(s: State, config: Config, now: nat, runDirOk: bool)
    requires Shape(s) && !Taken(s, config)
    ensures Shape(Inserted(s, config, now, runDirOk))
  {
    forall i | 0 <= i < |s.vms| && s.vms[i].runner != Gone
      ensures s.vms[i].config.name != config.name && s.vms[i].config.uuid != config.uuid
    {
      var u := s.vms[i].config.uuid;
      assert u in s.active && s.active[u] == i;
    }
    EnteredKeepsShape(s.vms, s.active, s.jobs, Fresh(config, now, runDirOk));
  }

  lemma InsertedIntoTaken(s: State, config: Config, now: nat, runDirOk: bool)
    requires Shape(s) && Taken(s, config)
    ensures !Shape(Inserted(s, config, now, runDirOk))
  {
    var t := Inserted(s, config, now, runDirOk);
    if config.uuid in s.active {
      var i := s.active[config.uuid];
      assert t.vms[i] == s.vms[i] && t.active[config.uuid] != i;
      assert !VmsAreEntered(t);
    } else {
      var u :| u in s.active && s.active[u] < |s.vms| && s.vms[s.active[u]].config.name == config.name;
      var i := s.active[u];
      assert t.vms[i] == s.vms[i] && t.vms[|s.vms|].config.name == config.name;
      assert !NamesDiffer(t);
    }
  }

  /** Whatever happened since the lookup, the insertion leaves the registry in shape exactly if name and
      UUID are free when it happens. */
  lemma InsertionKeepsShapeIff(s: State, config: Config, now: nat, runDirOk: bool)
    requires Shape(s)
    ensures Shape(Inserted(s, config, now, runDirOk)) <==> !Taken(s, config)
  {
    if Taken(s, config) {
      InsertedIntoTaken(s, config, now, runDirOk);
    } else {
      InsertedIntoFree(s, config, now, runDirOk);
    }
  }

  // ---- Whole runs ----

  /** Nobody has looked for the name that is refused to everyone. */
  ghost predicate NoneReserved(looked: seq<Config>) {
    forall i :: 0 <= i < |looked| ==> looked[i].name != Dns.RESERVED_HOST
  }

  /** The event is an insertion of a VM whose name or UUID has been taken since it looked. */
  ghost predicate InsertsTaken(c: Race, e: SplitEvent) {
    DaemonIsUp(c.s) && e.Insert? && e.n < |c.looked| && Taken(c.s, c.looked[e.n])
  }

  ghost predicate InShapeThroughout(env: Env, c: Race, events: seq<SplitEvent>)
    decreases events
  {
    Shape(c.s) && (events == [] || InShapeThroughout(env, SplitNext(env, c, events[0]), events[1..]))
  }

  ghost predicate NoneInsertsTaken(env: Env, c: Race, events: seq<SplitEvent>)
    decreases events
  {
    events == [] ||
    (!InsertsTaken(c, events[0]) && NoneInsertsTaken(env, SplitNext(env, c, events[0]), events[1..]))
  }

  lemma InsertedKeepsSound(s: State, config: Config, now: nat, runDirOk: bool)
    requires AllSound(s) && config.name != Dns.RESERVED_HOST
    ensures AllSound(Inserted(s, config, now, runDirOk))
  {
    FreshIsSound(config, now, runDirOk);
    EnteredKeepsSound(s.vms, Fresh(config, now, runDirOk));
  }

  lemma WithoutKeepsUnreserved(looked: seq<Config>, n: nat)
    requires NoneReserved(looked) && n < |looked|
    ensures NoneReserved(looked[..n] + looked[n + 1..])
  {
  }

  lemma InsertKeepsShapeIff(env: Env, c: Race, e: SplitEvent)
    requires RegistryInv(c.s) && OnlyNilProcess(c.s) && NoneReserved(c.looked) && e.Insert?
    ensures var d := SplitNext(env, c, e);
      && AllSound(d.s) && OnlyNilProcess(d.s) && NoneReserved(d.looked)
      && (Shape(d.s) <==> !InsertsTaken(c, e))
  {
    if DaemonIsUp(c.s) && e.n < |c.looked| {
      var config, t := c.looked[e.n], Inserted(c.s, c.looked[e.n], e.now, e.runDirOk);
      InsertionKeepsShapeIff(c.s, config, e.now, e.runDirOk);
      InsertedKeepsSound(c.s, config, e.now, e.runDirOk);
      WithoutKeepsUnreserved(c.looked, e.n);
      assert SplitNext(env, c, e) == Race(t, c.looked[..e.n] + c.looked[e.n + 1..]);
      assert t.fault == c.s.fault;
    }
  }

  lemma SplitNextKeepsShapeIff(env: Env, c: Race, e: SplitEvent)
    requires GoodEnv(env) && RegistryInv(c.s) && OnlyNilProcess(c.s) && NoneReserved(c.looked)
    ensures var d := SplitNext(env, c, e);
      && AllSound(d.s) && OnlyNilProcess(d.s) && NoneReserved(d.looked)
      && (Shape(d.s) <==> !InsertsTaken(c, e))
  {
    match e {
      case Look(config) =>
      case Insert(n, now, runDirOk) => InsertKeepsShapeIff(env, c, e);
      case Other(e) => NextKeepsRegistry(env, c.s, e);
    }
  }

  /** In every run, with whatever else happens in between, the registry stays in shape throughout exactly
      if no VM is inserted whose name or UUID has been taken since it looked. */
  lemma {:induction false} InShapeThroughoutIff(env: Env, c: Race, events: seq<SplitEvent>)
    requires GoodEnv(env) && RegistryInv(c.s) && OnlyNilProcess(c.s) && NoneReserved(c.looked)
    ensures InShapeThroughout(env, c, events) <==> NoneInsertsTaken(env, c, events)
    decreases events
  {
    if events != [] {
      SplitNextKeepsShapeIff(env, c, events[0]);
      var d := SplitNext(env, c, events[0]);
      if Shape(d.s) { InShapeThroughoutIff(env, d, events[1..]); }
    }
  }

  lemma OnlyAdmissionsAdd(env: Env, s: State, e: Event)
    requires !e.Admit?
    ensures |Next(env, s, e).vms| == |s.vms|
  {
    if OfOneVm(e) { VmEventFrame(env, s, e); }
  }

  lemma RefusedStep(env: Env, c: Race, e: SplitEvent)
    requires !c.s.accepting
    ensures var d := SplitNext(env, c, e); !d.s.accepting && |d.s.vms| + |d.looked| == |c.s.vms| + |c.looked|
  {
    if e.Other? && !e.e.Admit? {
      OnlyAdmissionsAdd(env, c.s, e.e);
      EntriesOnlyLeave(env, c.s, e.e);
    }
  }

  /** Once requests are refused, the VMs that still get in are some of those that had looked before. */
  lemma {:induction false} RefusedOnlyDrains(env: Env, c: Race, events: seq<SplitEvent>)
    requires !c.s.accepting
    ensures var d := SplitRun(env, c, events);
      !d.s.accepting && |d.s.vms| + |d.looked| == |c.s.vms| + |c.looked|
    decreases events
  {
    if events != [] {
      RefusedStep(env, c, events[0]);
      RefusedOnlyDrains(env, SplitNext(env, c, events[0]), events[1..]);
    }
  }

  // ---- With and without anything in between ----

  lemma Unfold(env: Env, c: Race, e: SplitEvent, rest: seq<SplitEvent>)
    ensures SplitRun(env, c, [e] + rest) == SplitRun(env, SplitNext(env, c, e), rest)
  {
    assert ([e] + rest)[1..] == rest;
  }

  lemma UnfoldLast(env: Env, c: Race, e: SplitEvent)
    ensures SplitRun(env, c, [e]) == SplitNext(env, c, e)
  {
    assert [e][1..] == [];
  }

  /** With nothing in between the two steps are the admission of module Lifecycle. */
  lemma LookThenInsertIsAdmission(env: Env, s: State, config: Config, now: nat, runDirOk: bool)
    ensures SplitRun(env, Race(s, []), [Look(config)] + [Insert(0, now, runDirOk)]) ==
            Race(Next(env, s, Admit(config, now, runDirOk)), [])
  {
    var c := SplitNext(env, Race(s, []), Look(config));
    Unfold(env, Race(s, []), Look(config), [Insert(0, now, runDirOk)]);
    UnfoldLast(env, c, Insert(0, now, runDirOk));
    if DaemonIsUp(s) && RefusalOf(s, config).None? {
      assert c.looked == [config] && [config][..0] + [config][1..] == [];
    }
  }

  /** Two requests for VMs of one name that both look before either inserts get both VMs in. */
  lemma SeparateLookupAndInsertClash(env: Env, a: Config, b: Config)
    requires a.name == b.name && a.name != Dns.RESERVED_HOST && a.uuid != b.uuid
    ensures var insert := Insert(0, 0, true);
      var c := SplitRun(env, Race(Init(env), []), [Look(a)] + ([Look(b)] + ([insert] + [insert])));
      && a.uuid in c.s.active && b.uuid in c.s.active && !NamesDiffer(c.s)
  {
    var s, insert := Init(env), Insert(0, 0, true);
    var looks := Race(s, [a, b]);
    assert SplitNext(env, SplitNext(env, Race(s, []), Look(a)), Look(b)) == looks;
    var one := SplitNext(env, looks, insert);
    assert one.looked == [b];
    var two := SplitNext(env, one, insert);
    assert two.s.vms == [Fresh(a, 0, true), Fresh(b, 0, true)];
    assert two.s.vms[0].config.name == two.s.vms[1].config.name;
    Unfold(env, Race(s, []), Look(a), [Look(b)] + ([insert] + [insert]));
    Unfold(env, SplitNext(env, Race(s, []), Look(a)), Look(b), [insert] + [insert]);
    Unfold(env, looks, insert, [insert]);
    UnfoldLast(env, one, insert);
  }
}
