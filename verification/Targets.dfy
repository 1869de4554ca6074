/** Which VMs a StopVMs request is for. */
module Targets {
  import opened Text
  import opened Sorting
  import opened Lifecycle
  import opened LifecycleInvariants
  import opened LifecycleTheorems
  import Admission
  import Dns

  predicate Names(running: map<string, Config>, u: string, id: string)
    requires u in running
  {
    running[u].name == id || running[u].uuid == id
  }

  /** Some registered VM goes by the name or UUID given. */
  ghost predicate Resolves(running: map<string, Config>, id: string) {
    exists u :: u in running && Names(running, u, id)
  }

  /** The VMs meant by one id, in whatever order the map gives them. */
  ghost predicate Matches(running: map<string, Config>, id: string, found: seq<string>) {
    && Distinct(found)
    && (forall u :: u in found <==> u in running && Names(running, u, id))
  }

  ghost predicate Collected(running: map<string, Config>, input: seq<string>, lists: seq<seq<string>>) {
    |lists| == |input| && forall i :: 0 <= i < |input| ==> Matches(running, input[i], lists[i])
  }

  /** The nested loop and the count test: all ids are taken to be known if there are as many targets. */
  method FindTargets(running: map<string, Config>, input: seq<string>)
    returns (targets: seq<string>, known: bool, ghost lists: seq<seq<string>>)
    ensures Collected(running, input, lists) && targets == Flatten(lists)
    ensures known <==> |targets| == |input|
    ensures forall i, u :: 0 <= i < |input| ==>
              (u in lists[i] <==> u in running && (running[u].name == input[i] || running[u].uuid == input[i]))
  {
    targets, lists := [], [];
    for n := 0 to |input|
      invariant Collected(running, input[..n], lists) && targets == Flatten(lists)
    {
      var t := input[n];
      ghost var before := targets;
      ghost var found: seq<string> := [];
      var rest := running.Keys;
      while rest != {}
        invariant rest <= running.Keys && Distinct(found) && targets == before + found
        invariant forall u :: u in found <==> u in running && u !in rest && Names(running, u, t)
      {
        var v :| v in rest;
        if running[v].name == t || running[v].uuid == t {
          targets := targets + [v];
          ghost var sofar := found;
          found := found + [v];
          forall u ensures u in found <==> u in sofar || u == v { }
        }
        rest := rest - {v};
      }
      FlattenOfConcat(lists, [found]);
      assert Flatten([found]) == found by { assert [found][1..] == []; }
      lists := lists + [found];
    }
    assert input[..|input|] == input;
    known := |targets| == |input|;
  }

  /** No VM's name is another VM's UUID. */
  ghost predicate NamesAreNoOthersUuids(running: map<string, Config>) {
    forall u, w :: u in running && w in running && u != w ==> running[u].name != running[w].uuid
  }

  /** What the registry guarantees of its VMs. */
  ghost predicate Registered(running: map<string, Config>) {
    && (forall u :: u in running ==> running[u].uuid == u)
    && (forall u, w :: u in running && w in running && u != w ==> running[u].name != running[w].name)
  }

  lemma RegistryIsRegistered(env: Env, s: State)
    requires GoodEnv(env) && Reachable(env, s)
    ensures Registered(Admission.Snapshot(s))
  {
    RegistryIsOwned(env, s);
  }

  lemma AtMostOneMatch(running: map<string, Config>, id: string, found: seq<string>)
    requires Registered(running) && NamesAreNoOthersUuids(running) && Matches(running, id, found)
    ensures |found| <= 1
  {
    if found != [] {
      var first := found[0];
      assert first in found;
      DistinctFitInSet(found, {first});
    }
  }

  /** Lists of at most one element have as many elements in all as there are lists only if each has one. */
  lemma {:induction false} CountTest(lists: seq<seq<string>>)
    requires forall i :: 0 <= i < |lists| ==> |lists[i]| <= 1
    ensures |Flatten(lists)| <= |lists|
    ensures |Flatten(lists)| == |lists| <==> forall i :: 0 <= i < |lists| ==> |lists[i]| == 1
    ensures |Flatten(lists)| == |lists| ==> forall i :: 0 <= i < |lists| ==> Flatten(lists)[i] == lists[i][0]
  {
    if lists != [] {
      CountTest(lists[1..]);
      assert forall i :: 0 < i < |lists| ==> lists[i] == lists[1..][i - 1];
      if forall i :: 0 <= i < |lists| ==> |lists[i]| == 1 {
        assert forall i :: 0 <= i < |lists[1..]| ==> |lists[1..][i]| == |lists[i + 1]| == 1;
      }
      if |Flatten(lists)| == |lists| {
        assert |lists[0]| == 1;
        forall i | 0 <= i < |lists| ensures Flatten(lists)[i] == lists[i][0] {
          if i > 0 { assert Flatten(lists)[i] == Flatten(lists[1..])[i - 1]; }
        }
      }
    }
  }

  /** If no VM's name is another's UUID, the request is accepted exactly when every id resolves, and
      then the i-th target is the one VM the i-th id means, repeated ids included. */
  lemma TargetsAreResolved(running: map<string, Config>, input: seq<string>, lists: seq<seq<string>>)
    requires Registered(running) && NamesAreNoOthersUuids(running) && Collected(running, input, lists)
    ensures var targets := Flatten(lists);
      && (|targets| == |input| <==> forall i :: 0 <= i < |input| ==> Resolves(running, input[i]))
      && (|targets| == |input| ==> forall i :: 0 <= i < |input| ==>
            targets[i] in running && Names(running, targets[i], input[i]) &&
            forall u :: u in running && Names(running, u, input[i]) ==> u == targets[i])
  {
    forall i | 0 <= i < |lists| ensures |lists[i]| <= 1 && (|lists[i]| == 1 <==> Resolves(running, input[i])) {
      AtMostOneMatch(running, input[i], lists[i]);
      if u :| u in running && Names(running, u, input[i]) { assert u in lists[i]; }
      if |lists[i]| == 1 { assert lists[i][0] in lists[i]; }
    }
    CountTest(lists);
    var targets := Flatten(lists);
    if |targets| == |input| {
      forall i | 0 <= i < |input|
        ensures targets[i] in running && Names(running, targets[i], input[i])
        ensures forall u :: u in running && Names(running, u, input[i]) ==> u == targets[i]
      {
        assert targets[i] == lists[i][0] && lists[i][0] in lists[i];
        forall u | u in running && Names(running, u, input[i]) ensures u == targets[i] {
          assert u in lists[i];
        }
      }
    }
  }

  /** A request is judged wrongly if it is accepted without all its ids resolving, or refused with. */
  ghost predicate Misjudged(running: map<string, Config>, input: seq<string>, lists: seq<seq<string>>) {
    Collected(running, input, lists) &&
    ((|Flatten(lists)| == |input|) != (forall i :: 0 <= i < |input| ==> Resolves(running, input[i])))
  }

  lemma {:induction false} ListOf(running: map<string, Config>, id: string, among: set<string>)
    returns (found: seq<string>)
    requires among <= running.Keys
    ensures Distinct(found) && forall u :: u in found <==> u in among && Names(running, u, id)
    decreases among
  {
    if among == {} {
      found := [];
    } else {
      var u :| u in among;
      var rest := ListOf(running, id, among - {u});
      found := if Names(running, u, id) then rest + [u] else rest;
      forall w ensures w in found <==> w in among && Names(running, w, id) { }
    }
  }

  /** The count test judges every request rightly exactly when no VM's name is another VM's UUID: an id
      that means two VMs is refused although it resolves. */
  lemma CountTestIsRightIff(running: map<string, Config>)
    requires Registered(running)
    ensures NamesAreNoOthersUuids(running) <==> forall input, lists :: !Misjudged(running, input, lists)
  {
    if NamesAreNoOthersUuids(running) {
      forall input, lists ensures !Misjudged(running, input, lists) {
        if Collected(running, input, lists) { TargetsAreResolved(running, input, lists); }
      }
    } else {
      var u, w :| u in running && w in running && u != w && running[u].name == running[w].uuid;
      var found := TwoForOne(running, u, w);
    }
  }

  /** One VM's UUID as the only id, where it also is another's name. */
  lemma TwoForOne(running: map<string, Config>, u: string, w: string) returns (found: seq<string>)
    requires Registered(running) && u in running && w in running && u != w && running[u].name == running[w].uuid
    ensures Misjudged(running, [w], [found])
  {
    found := ListOf(running, w, running.Keys);
    assert u in found && w in found;
    assert |found| >= 2;
    assert Resolves(running, w) by { assert Names(running, w, w); }
    assert Flatten([found]) == found by { assert [found][1..] == []; }
  }

  /** Worse, with such a VM a request is accepted although one of its ids means nothing. */
  lemma UnknownIdAccepted(running: map<string, Config>, u: string, w: string, unknown: string)
    returns (lists: seq<seq<string>>)
    requires Registered(running) && u in running && w in running && u != w && running[u].name == running[w].uuid
    requires !Resolves(running, unknown)
    ensures Collected(running, [w, unknown], lists) && multiset(Flatten(lists)) == multiset([u, w])
    ensures |Flatten(lists)| == 2
  {
    var found := ListOf(running, w, running.Keys);
    assert u in found && w in found;
    forall x | x in found ensures x == u || x == w {
      assert Names(running, x, w);
    }
    DistinctFitInSet(found, {u, w});
    var none: seq<string> := [];
    lists := [found, none];
    FlattenOfConcat([found], [none]);
    assert lists == [found] + [none] && [found][1..] == [] && [none][1..] == [];
    assert Flatten(lists) == found;
    TheTwoFound(found, u, w);
  }

  lemma TheTwoFound(found: seq<string>, u: string, w: string)
    requires Distinct(found) && u != w && forall x :: x in found <==> x == u || x == w
    ensures |found| == 2 && multiset(found) == multiset([u, w])
  {
    assert u in found && w in found;
    var i :| 0 <= i < |found| && found[i] == u;
    var j :| 0 <= j < |found| && found[j] == w;
    DistinctFitInSet(found, {u, w});
    assert found == [found[0], found[1]];
  }

  // ---- The request as a whole ----

  datatype Request = Closing | NothingToShutdown | UnknownVM | Gracefully(targets: seq<string>) | Kill(target: string)

  /** All VMs, each once, in whatever order the map gives them. */
  ghost predicate ListsAll(running: map<string, Config>, targets: seq<string>) {
    Distinct(targets) && forall u :: u in targets <==> u in running
  }

  method Active(running: map<string, Config>) returns (targets: seq<string>)
    ensures ListsAll(running, targets)
  {
    targets := [];
    var rest := running.Keys;
    while rest != {}
      invariant rest <= running.Keys && Distinct(targets)
      invariant forall u :: u in targets <==> u in running && u !in rest
    {
      var u :| u in rest;
      ghost var sofar := targets;
      targets := targets + [u];
      forall w ensures w in targets <==> w in sofar || w == u { }
      rest := rest - {u};
    }
  }

  /** What a StopVMs request comes to; `pick` is the random choice. Forced, it is about one VM only,
      however many are named. */
  method StopVMs(accepting: bool, running: map<string, Config>, input: seq<string>, forced: bool, pick: nat)
    returns (r: Request, ghost lists: seq<seq<string>>)
    ensures r == Closing <==> !accepting
    ensures accepting && input == [] ==>
              if running == map[] then r == NothingToShutdown
              else if forced then r.Kill? && r.target in running
              else r.Gracefully? && ListsAll(running, r.targets)
    ensures accepting && input != [] ==>
              && Collected(running, input, lists)
              && r == if |Flatten(lists)| != |input| then UnknownVM
                      else if forced then Kill(Flatten(lists)[0]) else Gracefully(Flatten(lists))
  {
    lists := [];
    if !accepting {
      return Closing, lists;
    }
    var targets;
    if |input| == 0 {
      var active := Active(running);
      if |active| == 0 {
        assert running.Keys == {};
        return NothingToShutdown, lists;
      }
      assert active[0] in active;
      if !forced {
        targets := active;
      } else {
        assert active[pick % |active|] in active;
        targets := [active[pick % |active|]];
      }
    } else {
      var known;
      targets, known, lists := FindTargets(running, input);
      if !known {
        return UnknownVM, lists;
      }
    }
    r := if !forced then Gracefully(targets) else Kill(targets[0]);
  }

  /** The shutdown loop on a list while no VM comes or goes but those it signals: it finds each VM's
      entry, signals it and waits until it is gone. Without an entry it dereferences nil. */
  predicate Finishes(active: set<string>, order: seq<string>) {
    order == [] || (order[0] in active && Finishes(active - {order[0]}, order[1..]))
  }

  lemma {:induction false} FinishesIff(active: set<string>, order: seq<string>)
    ensures Finishes(active, order) <==> Distinct(order) && forall u :: u in order ==> u in active
  {
    if order != [] {
      var first, rest := order[0], order[1..];
      assert order == [first] + rest;
      FinishesIff(active - {first}, rest);
      if first in rest {
        var k :| 0 <= k < |rest| && rest[k] == first;
        assert order[k + 1] == order[0];
      } else {
        DistinctCons(first, rest);
      }
    }
  }

  lemma {:induction false} FlattenHas(lists: seq<seq<string>>, u: string)
    ensures u in Flatten(lists) <==> exists i :: 0 <= i < |lists| && u in lists[i]
  {
    if lists != [] {
      FlattenHas(lists[1..], u);
      if i :| 0 <= i < |lists[1..]| && u in lists[1..][i] { assert u in lists[i + 1]; }
      if i :| 0 < i < |lists| && u in lists[i] { assert u in lists[1..][i - 1]; }
    }
  }

  ghost predicate Apart(lists: seq<seq<string>>) {
    forall i, j, u :: 0 <= i < j < |lists| && u in lists[i] ==> u !in lists[j]
  }

  lemma {:induction false} FlattenIsDistinctIff(lists: seq<seq<string>>)
    requires forall i :: 0 <= i < |lists| ==> Distinct(lists[i])
    ensures Distinct(Flatten(lists)) <==> Apart(lists)
  {
    if lists != [] {
      var first, rest := lists[0], lists[1..];
      FlattenIsDistinctIff(rest);
      DistinctOfConcat(first, Flatten(rest));
      forall u ensures u in Flatten(rest) <==> exists i :: 0 <= i < |rest| && u in rest[i] { FlattenHas(rest, u); }
      ApartOfCons(first, rest);
      assert lists == [first] + rest;
    }
  }

  lemma ApartOfCons(first: seq<string>, rest: seq<seq<string>>)
    ensures Apart([first] + rest) <==>
            Apart(rest) && forall i, u :: 0 <= i < |rest| && u in first ==> u !in rest[i]
  {
    var lists := [first] + rest;
    if Apart(lists) {
      forall i, u | 0 <= i < |rest| && u in first ensures u !in rest[i] {
        assert u in lists[0] && lists[i + 1] == rest[i];
      }
      forall i, j, u | 0 <= i < j < |rest| && u in rest[i] ensures u !in rest[j] {
        assert u in lists[i + 1] && lists[j + 1] == rest[j];
      }
    }
  }

  /** Whatever the registry, and whether or not the count test lets the request pass: the loop on its
      targets finishes, in whatever order they are taken, exactly if no VM is named by two of the ids. */
  lemma StopFinishesIff(running: map<string, Config>, input: seq<string>, lists: seq<seq<string>>, order: seq<string>)
    requires Collected(running, input, lists) && multiset(order) == multiset(Flatten(lists))
    ensures Finishes(running.Keys, order) <==>
            forall i, j, u :: 0 <= i < j < |input| && u in running && Names(running, u, input[i]) ==>
                !Names(running, u, input[j])
  {
    var targets := Flatten(lists);
    FinishesIff(running.Keys, order);
    SameMultisetSameElements(order, targets);
    forall u | u in targets ensures u in running { FlattenHas(lists, u); }
    if Distinct(order) { PermutationKeepsDistinct(order, targets); }
    if Distinct(targets) { PermutationKeepsDistinct(targets, order); }
    FlattenIsDistinctIff(lists);
    ApartIsNoVmNamedTwice(running, input, lists);
  }

  lemma ApartIsNoVmNamedTwice(running: map<string, Config>, input: seq<string>, lists: seq<seq<string>>)
    requires Collected(running, input, lists)
    ensures Apart(lists) <==>
            forall i, j, u :: 0 <= i < j < |input| && u in running && Names(running, u, input[i]) ==>
                !Names(running, u, input[j])
  {
    assert forall i, u :: 0 <= i < |input| ==> (u in lists[i] <==> u in running && Names(running, u, input[i]));
  }

  /** One VM named twice, say by its name and by its UUID: the request is accepted, and panics. */
  lemma NamingTwicePanics(running: map<string, Config>, u: string, a: string, b: string, order: seq<string>)
    requires Registered(running) && NamesAreNoOthersUuids(running) && u in running
    requires Names(running, u, a) && Names(running, u, b) && multiset(order) == multiset([u, u])
    ensures Collected(running, [a, b], [[u], [u]]) && |Flatten([[u], [u]])| == 2 && !Finishes(running.Keys, order)
  {
    var input, lists := [a, b], [[u], [u]];
    OnlyThisVm(running, u, a);
    OnlyThisVm(running, u, b);
    FlattenOfConcat([[u]], [[u]]);
    assert lists == [[u]] + [[u]] && [[u]][1..] == [];
    StopFinishesIff(running, input, lists, order);
    assert Names(running, u, input[0]) && Names(running, u, input[1]);
  }

  lemma OnlyThisVm(running: map<string, Config>, u: string, id: string)
    requires Registered(running) && NamesAreNoOthersUuids(running) && u in running && Names(running, u, id)
    ensures Matches(running, id, [u])
  {
  }

  // ---- Names that are UUIDs ----

  /** The daemon refuses neither a name that is a registered VM's UUID nor a UUID that is a registered
      VM's name. */
  lemma NameOfAnothersUuidRun(env: Env, a: Config, b: Config, s: State)
    requires a.name == b.uuid && a.name != b.name && a.uuid != b.uuid
    requires a.name != Dns.RESERVED_HOST && b.name != Dns.RESERVED_HOST
    requires s == Run(env, Init(env), [Admit(a, 0, true)] + [Admit(b, 0, true)])
    ensures Admission.Snapshot(s) == map[a.uuid := a, b.uuid := b]
    ensures !NamesAreNoOthersUuids(Admission.Snapshot(s))
  {
    TwoAdmissions(env, a, b);
    var running := Admission.Snapshot(s);
    assert running[a.uuid] == a && running[b.uuid] == b;
  }

  /** In the registry that run leads to, a request with an unknown id is accepted, and stops both VMs. */
  lemma UnknownIdStopsBoth(a: Config, b: Config, unknown: string, order: seq<string>)
    returns (lists: seq<seq<string>>)
    requires a.name == b.uuid && a.name != b.name && a.uuid != b.uuid
    requires unknown !in {a.name, a.uuid, b.name} && multiset(order) == multiset([a.uuid, b.uuid])
    ensures var running := map[a.uuid := a, b.uuid := b];
      && Collected(running, [b.uuid, unknown], lists) && |Flatten(lists)| == 2
      && multiset(Flatten(lists)) == multiset(order) && Finishes(running.Keys, order)
  {
    var running := map[a.uuid := a, b.uuid := b];
    lists := UnknownIdAccepted(running, a.uuid, b.uuid, unknown);
    var both := [a.uuid, b.uuid];
    assert Distinct(both);
    PermutationKeepsDistinct(both, order);
    SameMultisetSameElements(both, order);
    FinishesIff(running.Keys, order);
  }
}
