/** The `load` command: boots the VMs of a profile one after the other, in the order of their names,
    and stops at the first that fails. */
module Load {
  import opened Lifecycle
  import opened LifecycleInvariants
  import opened Names
  import opened Admission

  /** The names of a profile's VMs in boot order. */
  method BootOrder(vmDefs: map<string, Args>) returns (ordered: seq<string>)
    ensures Ascending(ordered) && forall name :: name in ordered <==> name in vmDefs
    ensures forall i, j :: 0 <= i < j < |ordered| ==> TextBefore(ordered[i], ordered[j])
  {
    ordered := SortedNames(vmDefs.Keys);
    forall i, j | 0 <= i < j < |ordered| ensures TextBefore(ordered[i], ordered[j]) {
      ComparesText(ordered[i], ordered[j]);
    }
  }

  /** What goes on elsewhere while one VM is booted: events between its check and its request, those
      after it until its reply, and whether the reply is good. */
  datatype Meanwhile = Meanwhile(before: seq<Event>, now: nat, runDirOk: bool, after: seq<Event>, answered: bool)

  datatype Outcome = Outcome(c: ClientState, booted: nat)

  ghost function Elsewheres(events: seq<Event>): seq<ClientEvent> {
    seq(|events|, i requires 0 <= i < |events| => Elsewhere(events[i]))
  }

  /** The boot loop. */
  ghost function Loaded(env: Env, host: Host, c: ClientState, names: seq<string>, vmDefs: map<string, Args>,
                        gaps: seq<Meanwhile>): Outcome
    requires |gaps| == |names| && forall name :: name in names ==> name in vmDefs
    decreases names
  {
    if names == [] then Outcome(c, 0)
    else
      var checked := ClientNext(env, host, c, Check(vmDefs[names[0]]));
      if checked.pending.None? then Outcome(checked, 0)
      else
        var waited := ClientRun(env, host, checked, Elsewheres(gaps[0].before));
        var sent := ClientNext(env, host, waited, Submit(gaps[0].now, gaps[0].runDirOk));
        var replied := ClientRun(env, host, sent, Elsewheres(gaps[0].after));
        if !gaps[0].answered then Outcome(replied, 0)
        else
          var rest := Loaded(env, host, replied, names[1..], vmDefs, gaps[1..]);
          Outcome(rest.c, 1 + rest.booted)
  }

  /** However it ends, a load is a run of a client that boots one VM at a time. */
  lemma {:induction false} LoadKeepsLimits(env: Env, host: Host, c: ClientState, names: seq<string>,
                                           vmDefs: map<string, Args>,
                                           gaps: seq<Meanwhile>)
    requires GoodEnv(env) && ClientInv(host, c)
    requires |gaps| == |names| && forall name :: name in names ==> name in vmDefs
    ensures var out := Loaded(env, host, c, names, vmDefs, gaps);
      && ClientInv(host, out.c) && out.booted <= |names|
      && Total(Snapshot(out.c.s)) <= Cap(host.memory) && VolumesApart(Snapshot(out.c.s))
    decreases names
  {
    if names != [] {
      var checked := ClientNext(env, host, c, Check(vmDefs[names[0]]));
      ClientNextKeeps(env, host, c, Check(vmDefs[names[0]]));
      if checked.pending.Some? {
        var waited := ClientRun(env, host, checked, Elsewheres(gaps[0].before));
        ClientRunKeeps(env, host, checked, Elsewheres(gaps[0].before));
        var sent := ClientNext(env, host, waited, Submit(gaps[0].now, gaps[0].runDirOk));
        ClientNextKeeps(env, host, waited, Submit(gaps[0].now, gaps[0].runDirOk));
        ClientRunKeeps(env, host, sent, Elsewheres(gaps[0].after));
        if gaps[0].answered {
          LoadKeepsLimits(env, host, ClientRun(env, host, sent, Elsewheres(gaps[0].after)), names[1..], vmDefs,
              gaps[1..]);
        }
      }
    }
  }

  /** A load stops at the first VM that is not booted: with the profile cut off behind it, the load comes
      to the same. */
  lemma {:induction false} StopsAtFirstFailure(env: Env, host: Host, c: ClientState, names: seq<string>,
                                               vmDefs: map<string, Args>, gaps: seq<Meanwhile>)
    requires |gaps| == |names| && forall name :: name in names ==> name in vmDefs
    ensures var out := Loaded(env, host, c, names, vmDefs, gaps);
      && out.booted <= |names|
      && (out.booted < |names| ==>
            out == Loaded(env, host, c, names[..out.booted + 1], vmDefs, gaps[..out.booted + 1]))
    decreases names
  {
    if names != [] {
      var checked := ClientNext(env, host, c, Check(vmDefs[names[0]]));
      if checked.pending.Some? && gaps[0].answered {
        var waited := ClientRun(env, host, checked, Elsewheres(gaps[0].before));
        var sent := ClientNext(env, host, waited, Submit(gaps[0].now, gaps[0].runDirOk));
        var replied := ClientRun(env, host, sent, Elsewheres(gaps[0].after));
        StopsAtFirstFailure(env, host, replied, names[1..], vmDefs, gaps[1..]);
        var n := Loaded(env, host, c, names, vmDefs, gaps).booted;
        if n < |names| {
          assert names[..n + 1][1..] == names[1..][..n] && gaps[..n + 1][1..] == gaps[1..][..n];
        }
      }
    }
  }
}
