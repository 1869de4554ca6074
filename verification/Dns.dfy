/** The records the daemon keeps for its name server: etcd keys built from host names and addresses. */
module Dns {
  import opened Text

  const DEFAULT_DOMAIN := "coreos.local"
  const RESERVED_HOST := "corectld"
  const NAMESERVER_HOST := "corectld.ns.dns"

  // ---- Keys ----

  function Inverted(name: string): string {
    Join(Reverse(Split(name, '.')), '/')
  }

  /** The mirrored function: from path components back to a dotted name. */
  function Restored(path: string): string {
    Join(Reverse(Split(path, '/')), '.')
  }

  /** The labels from `x` on, last first, each followed by a slash. */
  function Inside(s: seq<string>, x: nat): string
    requires x <= |s|
  {
    if x == |s| then "" else Join(Reverse(s[x..]), '/') + "/"
  }

  lemma OneMoreLabel(s: seq<string>, x: nat)
    requires x < |s|
    ensures Inside(s, x) == Inside(s, x + 1) + (s[x] + "/")
  {
    var done := s[x + 1..];
    assert s[x..] == [s[x]] + done && s[x..][1..] == done;
    if x < |s| - 1 {
      JoinOfConcat(Reverse(done), [s[x]], '/');
      assert Join(Reverse(s[x..]), '/') == Join(Reverse(done), '/') + ['/'] + s[x];
    }
  }

  method InvertDomain(name: string) returns (out: string)
    ensures out == Inverted(name)
  {
    var s := Split(name, '.');
    out := "";
    var x := |s| - 1;
    while x >= 0
      invariant -1 <= x < |s|
      invariant out == Inside(s, x + 1)
    {
      OneMoreLabel(s, x);
      out := out + (s[x] + "/");
      x := x - 1;
    }
    assert s[0..] == s;
    out := TrimSuffix(out, "/");
  }

  lemma LabelsAreFree(name: string)
    requires '/' !in name
    ensures AllFree(Reverse(Split(name, '.')), '/') && AllFree(Reverse(Split(name, '.')), '.')
  {
    SplitIsFree(name, '.');
  }

  lemma InvertedIsUndone(name: string)
    requires '/' !in name
    ensures Restored(Inverted(name)) == name
  {
    var labels := Split(name, '.');
    LabelsAreFree(name);
    SplitOfFreeJoin(Reverse(labels), '/');
    ReverseTwice(labels);
    JoinOfSplit(name, '.');
  }

  lemma InvertedIsInjective(a: string, b: string)
    requires '/' !in a && '/' !in b && Inverted(a) == Inverted(b)
    ensures a == b
  {
    InvertedIsUndone(a);
    InvertedIsUndone(b);
  }

  lemma InvertedHasNoDots(name: string)
    ensures '.' !in Inverted(name)
    ensures Replace(Inverted(name), ".", "/") == Inverted(name)
  {
    SplitIsFree(name, '.');
    JoinIsFree(Reverse(Split(name, '.')), '/', '.');
    ReplaceAbsent(Inverted(name), '.', "/");
  }

  lemma InvertedOfDotted(name: string, domain: string)
    ensures Inverted(name + "." + domain) == Inverted(domain) + "/" + Inverted(name)
  {
    SplitOfConcat(name, '.', domain);
    ReverseOfConcat(Split(name, '.'), Split(domain, '.'));
    JoinOfConcat(Reverse(Split(domain, '.')), Reverse(Split(name, '.')), '/');
  }

  lemma InvertedOfOneLabel(a: string)
    requires '.' !in a
    ensures Inverted(a) == a
  {
    SplitWithout(a, '.');
    assert Reverse([a]) == [a];
  }

  lemma InvertedOfTwoLabels(a: string, b: string)
    requires '.' !in a && '.' !in b
    ensures Inverted(a + "." + b) == b + "/" + a
    ensures Split(a + "." + b, '.') == [a, b]
  {
    InvertedOfOneLabel(a);
    InvertedOfOneLabel(b);
    InvertedOfDotted(a, b);
    SplitOfConcat(a, '.', b);
    SplitWithout(a, '.');
    SplitWithout(b, '.');
  }

  function ForwardKey(domain: string, host: string): string {
    "/skydns/" + Replace(Inverted(host + "." + domain), ".", "/")
  }

  function ReverseKey(ip: string): string {
    "/skydns/arpa/in-addr/" + Replace(ip, ".", "/")
  }

  lemma ForwardKeyForm(domain: string, host: string)
    ensures ForwardKey(domain, host) == "/skydns/" + Inverted(domain) + "/" + Inverted(host)
  {
    InvertedHasNoDots(host + "." + domain);
    InvertedOfDotted(host, domain);
  }

  /** Two host names without slashes share a key only if they are the same name. */
  lemma ForwardKeyIsInjective(domain: string, a: string, b: string)
    requires '/' !in a && '/' !in b && ForwardKey(domain, a) == ForwardKey(domain, b)
    ensures a == b
  {
    ForwardKeyForm(domain, a);
    ForwardKeyForm(domain, b);
    var front := "/skydns/" + Inverted(domain) + "/";
    assert Inverted(a) == ForwardKey(domain, a)[|front|..];
    assert Inverted(b) == ForwardKey(domain, b)[|front|..];
    InvertedIsInjective(a, b);
  }

  /** Slashes break that: "a/b" and "b.a" share a key in every domain. */
  lemma SlashesMakeKeysCollide(domain: string)
    ensures ForwardKey(domain, "a/b") == ForwardKey(domain, "b.a")
  {
    ForwardKeyForm(domain, "a/b");
    ForwardKeyForm(domain, "b.a");
    InvertedOfOneLabel("a/b");
    InvertedOfTwoLabels("b", "a");
  }

  /** A single-label host shares its key with no other name, with or without slashes. */
  lemma SingleLabelKeyIsUnique(domain: string, host: string, other: string)
    requires '.' !in host && '/' !in host
    requires ForwardKey(domain, host) == ForwardKey(domain, other)
    ensures other == host
  {
    ForwardKeyForm(domain, host);
    ForwardKeyForm(domain, other);
    var front := "/skydns/" + Inverted(domain) + "/";
    assert Inverted(host) == ForwardKey(domain, host)[|front|..];
    assert Inverted(other) == ForwardKey(domain, other)[|front|..];
    InvertedOfOneLabel(host);
    InvertedHasSlashes(other);
    if '.' !in other { InvertedOfOneLabel(other); }
  }

  lemma InvertedHasSlashes(name: string)
    ensures '.' in name ==> '/' in Inverted(name)
  {
    var labels := Split(name, '.');
    if |labels| == 1 {
      JoinOfSplit(name, '.');
      SplitIsFree(name, '.');
    } else {
      var r := Reverse(labels);
      JoinOfConcat(r[..1], r[1..], '/');
      assert r == r[..1] + r[1..];
      assert '/' in Inverted(name);
    }
  }

  /** The IN-ADDR.ARPA name of an address (section 3.5 of RFC 1035). */
  function ArpaName(ip: string): string {
    Join(Reverse(Split(ip, '.')), '.') + ".in-addr.arpa"
  }

  lemma InvertedMirrorsBack(ip: string)
    ensures Inverted(Join(Reverse(Split(ip, '.')), '.')) == Replace(ip, ".", "/")
  {
    var octets := Split(ip, '.');
    SplitIsFree(ip, '.');
    SplitOfFreeJoin(Reverse(octets), '.');
    ReverseTwice(octets);
    ReplaceIsRejoin(ip, '.', '/');
  }

  lemma InvertedUnderTwoLabels(front: string, a: string, b: string)
    requires '.' !in a && '.' !in b
    ensures Inverted(front + "." + (a + "." + b)) == b + "/" + a + "/" + Inverted(front)
    ensures "/skydns/" + Inverted(front + "." + (a + "." + b)) == "/skydns/" + b + "/" + a + "/" + Inverted(front)
  {
    InvertedOfDotted(front, a + "." + b);
    InvertedOfTwoLabels(a, b);
  }

  lemma Literals()
    ensures "." + ("in-addr" + "." + "arpa") == ".in-addr.arpa"
    ensures "/skydns/" + "arpa" + "/" + "in-addr" + "/" == "/skydns/arpa/in-addr/"
  {
  }

  /** The reverse key is the one the name server looks up for the address's IN-ADDR.ARPA name. */
  lemma ReverseKeyIsArpaKey(ip: string)
    ensures ReverseKey(ip) == "/skydns/" + Inverted(ArpaName(ip))
  {
    var front := Join(Reverse(Split(ip, '.')), '.');
    InvertedMirrorsBack(ip);
    InvertedUnderTwoLabels(front, "in-addr", "arpa");
    Literals();
    Associative(front, ".", "in-addr" + "." + "arpa");
  }

  lemma Associative(a: string, b: string, c: string)
    ensures (a + b) + c == a + (b + c)
  {
  }

  /** A domain the daemon can serve: no slashes, and not below the tree of the reverse records. */
  predicate GoodDomain(domain: string) {
    '/' !in domain && Reverse(Split(domain, '.'))[0] != "arpa"
  }

  lemma TwoLabelDomainIsGood(a: string, b: string)
    requires '.' !in a && '.' !in b && '/' !in a && '/' !in b && b != "arpa"
    ensures GoodDomain(a + "." + b)
  {
    InvertedOfTwoLabels(a, b);
    assert Reverse([a, b])[0] == b;
  }

  lemma DefaultDomainIsGood()
    ensures GoodDomain(DEFAULT_DOMAIN)
  {
    assert "local"[0] != "arpa"[0];
    TwoLabelDomainIsGood("coreos", "local");
    assert "coreos" + "." + "local" == DEFAULT_DOMAIN;
  }

  lemma FirstComponentsDiffer(parts: seq<string>, tail: string, first: string, rest: string)
    requires parts != [] && AllFree(parts, '/') && '/' !in first && parts[0] != first
    ensures Join(parts, '/') + ['/'] + tail != first + ['/'] + rest
  {
    SplitOfConcat(Join(parts, '/'), '/', tail);
    SplitOfFreeJoin(parts, '/');
    SplitOfConcat(first, '/', rest);
    SplitWithout(first, '/');
    assert Split(Join(parts, '/') + ['/'] + tail, '/')[0] == parts[0];
    assert Split(first + ['/'] + rest, '/')[0] == first;
  }

  lemma SameAfterFront(front: string, x: string, y: string)
    ensures front + x == front + y <==> x == y
  {
    assert (front + x)[|front|..] == x && (front + y)[|front|..] == y;
  }

  lemma ArpaKeyForm(ip: string)
    ensures ReverseKey(ip) == "/skydns/" + ("arpa" + ['/'] + ("in-addr/" + Replace(ip, ".", "/")))
  {
    var tail := Replace(ip, ".", "/");
    assert "/skydns/arpa/in-addr/" == "/skydns/" + ("arpa" + ['/'] + "in-addr/");
    Associative("arpa" + ['/'], "in-addr/", tail);
    Associative("/skydns/", "arpa" + ['/'] + "in-addr/", tail);
  }

  /** Forward and reverse records never share a key. */
  lemma ForwardIsNotReverse(domain: string, host: string, ip: string)
    requires GoodDomain(domain)
    ensures ForwardKey(domain, host) != ReverseKey(ip)
  {
    var labels, rest := Reverse(Split(domain, '.')), "in-addr/" + Replace(ip, ".", "/");
    var forward := Inverted(domain) + ['/'] + Inverted(host);
    ForwardKeyForm(domain, host);
    Associative("/skydns/", Inverted(domain), "/");
    Associative("/skydns/", Inverted(domain) + "/", Inverted(host));
    ArpaKeyForm(ip);
    LabelsAreFree(domain);
    FirstComponentsDiffer(labels, Inverted(host), "arpa", rest);
    SameAfterFront("/skydns/", forward, "arpa" + ['/'] + rest);
  }

  // ---- The store ----

  /** The value of a record. */
  function HostRecord(host: string): string {
    "{\"host\":\"" + host + "\", \"TTL\": 20 }"
  }

  function Added(store: map<string, string>, domain: string, host: string, ip: string): map<string, string> {
    store[ForwardKey(domain, host) := HostRecord(ip)][ReverseKey(ip) := HostRecord(host + "." + domain)]
  }

  /** Deleting a missing key is an error, and the reverse record is only tried after the forward one. */
  function Removed(store: map<string, string>, domain: string, host: string, ip: string): map<string, string> {
    if ForwardKey(domain, host) !in store then store
    else store - {ForwardKey(domain, host)} - {ReverseKey(ip)}
  }

  /** What a removal does to forward records: exactly the host's own goes. */
  lemma RemovedForward(store: map<string, string>, domain: string, host: string, ip: string, other: string)
    requires GoodDomain(domain)
    ensures var after, key := Removed(store, domain, host, ip), ForwardKey(domain, other);
            && (key in after <==> key in store && key != ForwardKey(domain, host))
            && (key in after ==> after[key] == store[key])
  {
    ForwardIsNotReverse(domain, other, ip);
  }

  /** What an addition does to forward records: exactly the host's own is written. */
  lemma AddedForward(store: map<string, string>, domain: string, host: string, ip: string, other: string)
    requires GoodDomain(domain)
    ensures var after, key := Added(store, domain, host, ip), ForwardKey(domain, other);
            && (key in after <==> key in store || key == ForwardKey(domain, host))
            && (key in after ==> after[key] == if key == ForwardKey(domain, host) then HostRecord(ip) else store[key])
  {
    ForwardIsNotReverse(domain, other, ip);
  }

  /** A host that is added resolves both ways, and removing it under the same address takes out exactly
      what adding it wrote. */
  lemma AddedResolvesBothWays(store: map<string, string>, domain: string, host: string, ip: string)
    requires GoodDomain(domain)
    ensures var after, forward, back := Added(store, domain, host, ip), ForwardKey(domain, host), ReverseKey(ip);
      && forward in after && after[forward] == "{\"host\":\"" + ip + "\", \"TTL\": 20 }"
      && back in after && after[back] == "{\"host\":\"" + (host + "." + domain) + "\", \"TTL\": 20 }"
      && Removed(after, domain, host, ip) == store - {forward, back}
  {
    ForwardIsNotReverse(domain, host, ip);
  }

  class DNSServer {
    const domain: string
    var store: map<string, string>

    /** A fresh server knows the daemon's own two names. */
    constructor (domain: string, hostIP: string)
      ensures this.domain == domain
      ensures store == Added(Added(map[], domain, RESERVED_HOST, hostIP), domain, NAMESERVER_HOST, hostIP)
    {
      this.domain := domain;
      store := map[];
      new;
      AddRecord(RESERVED_HOST, hostIP);
      AddRecord(NAMESERVER_HOST, hostIP);
    }

    method AddRecord(host: string, ip: string)
      modifies this
      ensures store == Added(old(store), domain, host, ip)
    {
      var fqdn := host + "." + domain;
      var inverted := InvertDomain(fqdn);
      store := store["/skydns/" + Replace(inverted, ".", "/") := HostRecord(ip)];
      store := store["/skydns/arpa/in-addr/" + Replace(ip, ".", "/") := HostRecord(fqdn)];
    }

    method RmRecord(host: string, ip: string) returns (ok: bool)
      modifies this
      ensures store == Removed(old(store), domain, host, ip)
      ensures ok <==> ForwardKey(domain, host) in old(store) &&
                      ReverseKey(ip) in old(store) - {ForwardKey(domain, host)}
    {
      var fqdn := host + "." + domain;
      var inverted := InvertDomain(fqdn);
      var path := "/skydns/" + Replace(inverted, ".", "/");
      if path !in store {
        return false;
      }
      store := store - {path};
      var reverse := "/skydns/arpa/in-addr/" + Replace(ip, ".", "/");
      ok := reverse in store;
      store := store - {reverse};
    }
  }
}
