/** Which address the DHCP server leased to a MAC address, read from its lease file. */
module Leases {
  import opened Text

  // ---- One line of the file ----

  /** strings.TrimRight(l, "\r") */
  function TrimReturns(l: string): (t: string)
    ensures t <= l && (t != "" ==> t[|t| - 1] != '\r')
    ensures forall i :: |t| <= i < |l| ==> l[i] == '\r'
  {
    if l != "" && l[|l| - 1] == '\r' then TrimReturns(l[..|l| - 1]) else l
  }

  /** `key` starts at `j` with something after it. */
  predicate KeyAt(l: string, key: string, j: int) {
    0 <= j && j + |key| < |l| && key <= l[j..]
  }

  function LastKey(l: string, key: string, j: int): (k: int)
    requires -1 <= j <= |l|
    ensures -1 <= k <= j
    ensures k >= 0 ==> KeyAt(l, key, k)
    ensures forall i :: k < i <= j ==> !KeyAt(l, key, i)
    decreases j + 1
  {
    if j < 0 then -1 else if KeyAt(l, key, j) then j else LastKey(l, key, j - 1)
  }

  /** The group of `^.*key(.+?)$`: what follows the last occurrence of the key that anything follows. */
  function Capture(l: string, key: string): (c: Option<string>)
    ensures c.Some? <==> exists j :: KeyAt(l, key, j)
    ensures c.Some? ==> c.value != "" && |key| + |c.value| <= |l|
    ensures c.Some? ==> key + c.value == l[|l| - |key| - |c.value|..]
    ensures c.Some? ==> forall j :: |l| - |key| - |c.value| < j ==> !KeyAt(l, key, j)
  {
    var k := LastKey(l, key, |l|);
    if k < 0 then None
    else
      assert l[k..][..|key|] == key;
      Some(l[k + |key|..])
  }

  /** What a line is read as; one with an IP address is not looked at for a hardware address. */
  datatype Reading = Ip(value: string) | Hw(value: string) | Other

  function ReadBy(l: string, ipKey: string, hwKey: string): Reading {
    match Capture(l, ipKey)
    case Some(ip) => Ip(ip)
    case None =>
      match Capture(l, hwKey)
      case Some(hw) => Hw(hw)
      case None => Other
  }

  function Read(line: string): Reading { ReadBy(TrimReturns(line), "ip_address=", "hw_address=1,") }

  function Readings(lines: seq<string>): (readings: seq<Reading>)
    ensures |readings| == |lines| && forall i :: 0 <= i < |lines| ==> readings[i] == Read(lines[i])
  {
    seq(|lines|, i requires 0 <= i < |lines| => Read(lines[i]))
  }

  /** A field is read back: the key's last `=` being the line's last one, no later key can match. */
  lemma CaptureOfField(pre: string, key: string, p: nat, value: string)
    requires p < |key| && key[p] == '=' && '=' !in key[p + 1..] && '=' !in value && value != ""
    ensures Capture(pre + key + value, key) == Some(value)
  {
    var l := pre + key + value;
    assert l[|pre|..] == key + value;
    assert KeyAt(l, key, |pre|);
    forall i | |pre| + p < i < |l| ensures l[i] != '=' {
      if i < |pre| + |key| {
        assert l[i] == key[p + 1..][i - |pre| - p - 1];
      } else {
        assert l[i] == value[i - |pre| - |key|];
      }
    }
    forall j | KeyAt(l, key, j) ensures j <= |pre| {
      assert l[j..][p] == key[p] && l[j + p] == '=';
    }
    var c := Capture(l, key).value;
    assert |l| - |key| - |c| == |pre|;
    assert l[|l| - |key| - |c|..][|key|..] == c && (key + value)[|key|..] == value;
  }

  lemma ReadsAddress(pre: string, ip: string)
    requires ip != "" && '=' !in ip && ip[|ip| - 1] != '\r'
    ensures Read(pre + "ip_address=" + ip) == Ip(ip)
  {
    var key := "ip_address=";
    assert key[10] == '=' && key[11..] == "";
    CaptureOfField(pre, key, 10, ip);
    NothingToTrim(pre + key, ip);
  }

  lemma NothingToTrim(front: string, value: string)
    requires value != "" && value[|value| - 1] != '\r'
    ensures TrimReturns(front + value) == front + value
  {
    assert (front + value)[|front + value| - 1] == value[|value| - 1];
  }

  lemma ReadsHardware(pre: string, hw: string)
    requires hw != "" && '=' !in pre && '=' !in hw && hw[|hw| - 1] != '\r'
    ensures Read(pre + "hw_address=1," + hw) == Hw(hw)
  {
    var key, other := "hw_address=1,", "ip_address=";
    assert key[10] == '=' && key[11..] == "1," && '=' !in key[..10];
    assert other[10] == '=' && other[0] != key[0];
    ReadsByHardware(pre, key, hw, other);
    NothingToTrim(pre + key, hw);
  }

  lemma ReadsByHardware(pre: string, key: string, hw: string, other: string)
    requires '=' !in pre && '=' !in hw && hw != "" && |key| > 10 && key[10] == '=' && '=' !in key[..10] &&
            '=' !in key[11..]
    requires |other| == 11 && other[10] == '=' && other[0] != key[0]
    ensures ReadBy(pre + key + hw, other, key) == Hw(hw)
  {
    CaptureOfField(pre, key, 10, hw);
    NoOtherKey(pre, key, hw, other);
  }

  lemma PrefixEnds(l: string, j: nat, key: string)
    requires |key| == 11 && j + 10 < |l|
    ensures key <= l[j..] ==> l[j] == key[0] && l[j + 10] == key[10]
  {
    assert l[j..][0] == l[j] && l[j..][10] == l[j + 10];
  }

  lemma NoOtherKey(pre: string, key: string, value: string, other: string)
    requires '=' !in pre && '=' !in value && |key| > 10 && key[10] == '=' && '=' !in key[..10] && '=' !in key[11..]
    requires |other| == 11 && other[10] == '=' && other[0] != key[0]
    ensures Capture(pre + key + value, other) == None
  {
    var l := pre + key + value;
    assert l[|pre|] == key[0] != other[0];
    forall j ensures !KeyAt(l, other, j) {
      if 0 <= j && j + 10 < |l| {
        OnlyEquals(pre, key, value, j + 10);
        PrefixEnds(l, j, other);
      }
    }
  }

  lemma OnlyEquals(pre: string, key: string, value: string, i: nat)
    requires '=' !in pre && '=' !in value && |key| > 10 && '=' !in key[..10] && '=' !in key[11..]
    requires i < |pre + key + value|
    ensures (pre + key + value)[i] == '=' ==> i == |pre| + 10
  {
    var l := pre + key + value;
    if i < |pre| {
      assert l[i] == pre[i];
    } else if i < |pre| + 10 {
      assert l[i] == key[..10][i - |pre|];
    } else if |pre| + 10 < i < |pre| + |key| {
      assert l[i] == key[11..][i - |pre| - 11];
    } else if i >= |pre| + |key| {
      assert l[i] == value[i - |pre| - |key|];
    }
  }

  // ---- Comparing hardware addresses ----

  /** Folds the case of ASCII letters: all the folding the comparison does, as one side is hexadecimal. */
  function FoldChar(c: char): char {
    if 'A' <= c <= 'Z' then c + 32 as char else c
  }

  function Fold(s: string): (f: string)
    ensures |f| == |s| && forall i :: 0 <= i < |s| ==> f[i] == FoldChar(s[i])
  {
    seq(|s|, i requires 0 <= i < |s| => FoldChar(s[i]))
  }

  function Stripped(mac: string): string { TrimPrefix(Replace(mac, ":0", ":"), "0") }

  predicate SameAddress(hw: string, mac: string) { Fold(hw) == Fold(Stripped(mac)) }

  // ---- The scan ----

  /** What the scan answers if `last` is the latest IP address seen before these lines. */
  function Scan(readings: seq<Reading>, hit: string -> bool, last: string): Option<string> {
    if readings == [] then None
    else if readings[0].Ip? then Scan(readings[1..], hit, readings[0].value)
    else if readings[0].Hw? && hit(readings[0].value) then Some(last)
    else Scan(readings[1..], hit, last)
  }

  method GuestIPfromMAC(allLeases: string, mac: string) returns (ip: Option<string>)
    ensures ip == Scan(Readings(Split(allLeases, '\n')), hw => SameAddress(hw, mac), "")
  {
    var lines := Split(allLeases, '\n');
    ghost var readings, hit := Readings(lines), hw => SameAddress(hw, mac);
    var lastFound := "";
    for n := 0 to |lines|
      invariant Scan(readings, hit, "") == Scan(readings[n..], hit, lastFound)
    {
      var l := TrimReturns(lines[n]);
      assert readings[n..][0] == Read(lines[n]) && readings[n..][1..] == readings[n + 1..];
      var matches := Capture(l, "ip_address=");
      if matches != None {
        lastFound := matches.value;
        continue;
      }
      matches := Capture(l, "hw_address=1,");
      if matches != None && Fold(matches.value) == Fold(TrimPrefix(Replace(mac, ":0", ":"), "0")) {
        return Some(lastFound);
      }
    }
    return None;
  }

  predicate Hits(r: Reading, hit: string -> bool) { r.Hw? && hit(r.value) }

  ghost predicate FirstHit(readings: seq<Reading>, hit: string -> bool, k: int) {
    0 <= k < |readings| && Hits(readings[k], hit) && forall i :: 0 <= i < k ==> !Hits(readings[i], hit)
  }

  /** The address of the last line with one, or `none` if there is no such line. */
  function Latest(readings: seq<Reading>, none: string): string {
    if readings == [] then none
    else
      var n := |readings| - 1;
      if readings[n].Ip? then readings[n].value else Latest(readings[..n], none)
  }

  lemma {:induction false} LatestIs(readings: seq<Reading>, none: string, i: int)
    requires -1 <= i < |readings| && (i >= 0 ==> readings[i].Ip?) && forall j :: i < j < |readings| ==> !readings[j].Ip?
    ensures Latest(readings, none) == if i >= 0 then readings[i].value else none
  {
    var n := |readings| - 1;
    if i < n { LatestIs(readings[..n], none, i); }
  }

  lemma {:induction false} LatestOfCons(r: Reading, rest: seq<Reading>, none: string)
    ensures Latest([r] + rest, none) == Latest(rest, if r.Ip? then r.value else none)
  {
    var all, n := [r] + rest, |rest|;
    if rest != [] {
      assert all[n] == rest[n - 1] && all[..n] == [r] + rest[..n - 1];
      LatestOfCons(r, rest[..n - 1], none);
    }
  }

  /** The scan fails exactly when no line has the hardware address; otherwise it answers with the most
      recent IP address before the first line that has. */
  lemma {:induction false} ScanFindsFirst(readings: seq<Reading>, hit: string -> bool, last: string)
    ensures Scan(readings, hit, last) == None <==> forall i :: 0 <= i < |readings| ==> !Hits(readings[i], hit)
    ensures forall k :: FirstHit(readings, hit, k) ==> Scan(readings, hit, last) == Some(Latest(readings[..k], last))
  {
    if readings != [] {
      var r, rest := readings[0], readings[1..];
      var before := if r.Ip? then r.value else last;
      if !Hits(r, hit) {
        ScanFindsFirst(rest, hit, before);
        if Scan(readings, hit, last) == None {
          forall i | 0 <= i < |readings| ensures !Hits(readings[i], hit) {
            if i > 0 { assert readings[i] == rest[i - 1]; }
          }
        } else {
          var i :| 0 <= i < |rest| && Hits(rest[i], hit);
          assert Hits(readings[i + 1], hit);
        }
        forall k | FirstHit(readings, hit, k) ensures Scan(readings, hit, last) == Some(Latest(readings[..k], last)) {
          assert k > 0;
          assert forall i :: 0 <= i < k ==> rest[i] == readings[i + 1];
          assert FirstHit(rest, hit, k - 1);
          LatestOfCons(r, rest[..k - 1], last);
          assert readings[..k] == [r] + rest[..k - 1];
        }
      }
    }
  }

  // ---- A whole lease file ----

  /** An entry of the file: an IP address and a hardware address, in either order, with lines that have
      neither around and between them. */
  datatype Lease = Lease(head: nat, ip: string, middle: nat, hw: string, foot: nat, ipFirst: bool)

  function Quiet(n: nat): seq<Reading> { if n == 0 then [] else [Other] + Quiet(n - 1) }

  function ReadingsOf(leases: seq<Lease>): seq<Reading> {
    if leases == [] then []
    else
      var e := leases[0];
      var first, second := if e.ipFirst then Ip(e.ip) else Hw(e.hw), if e.ipFirst then Hw(e.hw) else Ip(e.ip);
      Quiet(e.head) + ([first] + (Quiet(e.middle) + ([second] + (Quiet(e.foot) + ReadingsOf(leases[1..])))))
  }

  /** The m-th lease is the first with the hardware address. */
  predicate FirstFor(leases: seq<Lease>, hit: string -> bool, m: nat) {
    m < |leases| && hit(leases[m].hw) && forall i :: 0 <= i < m ==> !hit(leases[i].hw)
  }

  lemma {:induction false} ScanPastQuiet(n: nat, rest: seq<Reading>, hit: string -> bool, last: string)
    ensures Scan(Quiet(n) + rest, hit, last) == Scan(rest, hit, last)
  {
    if n == 0 {
      assert Quiet(n) + rest == rest;
    } else {
      assert (Quiet(n) + rest)[1..] == Quiet(n - 1) + rest;
      ScanPastQuiet(n - 1, rest, hit, last);
    }
  }

  /** Two readings with quiet lines around them. */
  lemma ScanPastTwo(head: nat, first: Reading, middle: nat, second: Reading, foot: nat, rest: seq<Reading>,
                    hit: string -> bool, last: string)
    ensures Scan(Quiet(head) + ([first] + (Quiet(middle) + ([second] + (Quiet(foot) + rest)))), hit, last) ==
            if Hits(first, hit) then Some(last)
            else
              var seen := if first.Ip? then first.value else last;
              if Hits(second, hit) then Some(seen) else Scan(rest, hit, if second.Ip? then second.value else seen)
  {
    var fromSecond := [second] + (Quiet(foot) + rest);
    var fromFirst := [first] + (Quiet(middle) + fromSecond);
    ScanPastQuiet(head, fromFirst, hit, last);
    assert fromFirst[1..] == Quiet(middle) + fromSecond;
    var seen := if first.Ip? then first.value else last;
    ScanPastQuiet(middle, fromSecond, hit, seen);
    assert fromSecond[1..] == Quiet(foot) + rest;
    ScanPastQuiet(foot, rest, hit, if second.Ip? then second.value else seen);
  }

  lemma ScanPastLease(leases: seq<Lease>, hit: string -> bool, last: string)
    requires leases != []
    ensures Scan(ReadingsOf(leases), hit, last) ==
            if !hit(leases[0].hw) then Scan(ReadingsOf(leases[1..]), hit, leases[0].ip)
            else Some(if leases[0].ipFirst then leases[0].ip else last)
  {
    var e, rest := leases[0], ReadingsOf(leases[1..]);
    if e.ipFirst {
      ScanPastTwo(e.head, Ip(e.ip), e.middle, Hw(e.hw), e.foot, rest, hit, last);
    } else {
      ScanPastTwo(e.head, Hw(e.hw), e.middle, Ip(e.ip), e.foot, rest, hit, last);
    }
  }

  /** A file without a lease for the MAC gives no answer. */
  lemma {:induction false} NoLeaseNoAnswer(leases: seq<Lease>, hit: string -> bool, last: string)
    requires forall i :: 0 <= i < |leases| ==> !hit(leases[i].hw)
    ensures Scan(ReadingsOf(leases), hit, last) == None
  {
    if leases != [] {
      ScanPastLease(leases, hit, last);
      NoLeaseNoAnswer(leases[1..], hit, leases[0].ip);
    }
  }

  /** Whatever the orders inside the leases, the first lease for the MAC is answered with its own address
      if that comes first, and otherwise with the one of the lease before it. */
  lemma {:induction false} LeaseIsAnswered(leases: seq<Lease>, hit: string -> bool, last: string, m: nat)
    requires FirstFor(leases, hit, m)
    ensures Scan(ReadingsOf(leases), hit, last) ==
            Some(if leases[m].ipFirst then leases[m].ip else if m == 0 then last else leases[m - 1].ip)
  {
    ScanPastLease(leases, hit, last);
    if m > 0 {
      assert forall i :: 0 <= i < m ==> leases[1..][i] == leases[i + 1];
      assert !hit(leases[0].hw);
      LeaseIsAnswered(leases[1..], hit, leases[0].ip, m - 1);
    }
  }

  /** So the answer is the lease's own address exactly if that comes first in the lease, or happens to be
      the one of the lease before. */
  lemma LeaseGivesItsOwnAddressIff(leases: seq<Lease>, hit: string -> bool, m: nat)
    requires FirstFor(leases, hit, m)
    ensures Scan(ReadingsOf(leases), hit, "") == Some(leases[m].ip) <==>
            leases[m].ipFirst || leases[m].ip == (if m == 0 then "" else leases[m - 1].ip)
  {
    LeaseIsAnswered(leases, hit, "", m);
  }

  /** Such a file: a lease with its addresses the other way round, after one for another MAC. */
  lemma LateAddressIsMissed(other: Lease, late: Lease, hit: string -> bool)
    requires !hit(other.hw) && hit(late.hw) && !late.ipFirst && late.ip != other.ip
    ensures Scan(ReadingsOf([other, late]), hit, "") == Some(other.ip) != Some(late.ip)
    ensures Scan(ReadingsOf([late, other]), hit, "") == Some("")
  {
    LeaseIsAnswered([other, late], hit, "", 1);
    LeaseIsAnswered([late, other], hit, "", 0);
  }

  // ---- MAC addresses ----

  predicate IsHex(c: char) { '0' <= c <= '9' || 'a' <= c <= 'f' || 'A' <= c <= 'F' }

  function HexDigit(c: char): (d: nat)
    requires IsHex(c)
    ensures d < 16
  {
    if c <= '9' then (c - '0') as int else if c <= 'F' then (c - 'A') as int + 10 else (c - 'a') as int + 10
  }

  predicate AllHex(s: string) { forall i :: 0 <= i < |s| ==> IsHex(s[i]) }

  /** One or two hexadecimal digits. */
  predicate Octet(s: string) { 1 <= |s| <= 2 && AllHex(s) }

  function OctetValue(s: string): (v: nat)
    requires Octet(s)
    ensures v < 256
  {
    if |s| == 1 then HexDigit(s[0]) else 16 * HexDigit(s[0]) + HexDigit(s[1])
  }

  /** As the DHCP server writes an octet: no leading zero. */
  predicate Minimal(s: string) { Octet(s) && (|s| == 2 ==> s[0] != '0') }

  /** Two hexadecimal digits each, as Go's net package prints a MAC address. */
  ghost predicate FullOctets(octets: seq<string>) {
    octets != [] && forall i :: 0 <= i < |octets| ==> Octet(octets[i]) && |octets[i]| == 2
  }

  function WithoutZero(octet: string): string {
    if HasPrefix(octet, "0") then octet[1..] else octet
  }

  function EachWithoutZero(octets: seq<string>): (minimal: seq<string>)
    ensures |minimal| == |octets| && forall i :: 0 <= i < |octets| ==> minimal[i] == WithoutZero(octets[i])
  {
    seq(|octets|, i requires 0 <= i < |octets| => WithoutZero(octets[i]))
  }

  lemma ReplacePastOne(c: char, rest: string)
    requires c != ':'
    ensures Replace([c] + rest, ":0", ":") == [c] + Replace(rest, ":0", ":")
  {
    var s := [c] + rest;
    assert s[1..] == rest && ":0"[0] != s[0];
    if rest == "" { assert Replace(rest, ":0", ":") == ""; }
  }

  lemma {:induction false} ReplacePast(free: string, rest: string)
    requires ':' !in free
    ensures Replace(free + rest, ":0", ":") == free + Replace(rest, ":0", ":")
  {
    var s := free + rest;
    if free == "" {
      assert s == rest;
    } else {
      assert s[1..] == free[1..] + rest;
      ReplacePast(free[1..], rest);
      ReplacePastOne(free[0], s[1..]);
      assert s == [free[0]] + s[1..];
    }
  }

  /** The octets after the first, each with its colon. */
  function Tail(octets: seq<string>): string {
    if octets == [] then "" else ":" + (octets[0] + Tail(octets[1..]))
  }

  lemma {:induction false} JoinIsTail(octets: seq<string>)
    requires octets != []
    ensures Join(octets, ':') == octets[0] + Tail(octets[1..])
  {
    if |octets| > 1 {
      JoinIsTail(octets[1..]);
    } else {
      assert octets[1..] == [] && octets[0] + "" == octets[0];
    }
  }

  lemma ReplaceAtZero(rest: string)
    ensures Replace([':', '0'] + rest, ":0", ":") == [':'] + Replace(rest, ":0", ":")
  {
    var s := [':', '0'] + rest;
    assert ":0" <= s && s[2..] == rest;
  }

  lemma ReplaceAtOther(c: char, rest: string)
    requires c != '0'
    ensures Replace([':', c] + rest, ":0", ":") == [':'] + Replace([c] + rest, ":0", ":")
  {
    var s := [':', c] + rest;
    assert s[1] != ":0"[1] && s[1..] == [c] + rest;
  }

  lemma {:induction false} ReplaceInTail(octets: seq<string>)
    requires forall i :: 0 <= i < |octets| ==> Octet(octets[i]) && |octets[i]| == 2
    ensures Replace(Tail(octets), ":0", ":") == Tail(EachWithoutZero(octets))
  {
    if octets != [] {
      ReplaceInTail(octets[1..]);
      assert EachWithoutZero(octets)[1..] == EachWithoutZero(octets[1..]);
      ReplaceInOctet(octets[0], Tail(octets[1..]));
    }
  }

  lemma ReplaceInOctet(o: string, rest: string)
    requires Octet(o) && |o| == 2
    ensures Replace(":" + (o + rest), ":0", ":") == ":" + (WithoutZero(o) + Replace(rest, ":0", ":"))
  {
    var c, d := o[0], o[1..];
    assert o == [c] + d;
    assert ":" + (o + rest) == [':', c] + (d + rest);
    if c == '0' {
      ReplaceAtZero(d + rest);
      ReplacePast(d, rest);
    } else {
      ReplaceAtOther(c, d + rest);
      assert [c] + (d + rest) == o + rest;
      ReplacePast(o, rest);
    }
  }

  lemma TrimOneZero(octet: string, tail: string)
    requires octet != ""
    ensures TrimPrefix(octet + tail, "0") == WithoutZero(octet) + tail
  {
    var s := octet + tail;
    assert s[0] == octet[0] && s[1..] == octet[1..] + tail;
  }

  /** The global replacement and the trimmed prefix take one leading zero off every octet. */
  lemma StrippedIsOctetwise(octets: seq<string>)
    requires FullOctets(octets)
    ensures Stripped(Join(octets, ':')) == Join(EachWithoutZero(octets), ':')
  {
    var o, rest := octets[0], octets[1..];
    JoinIsTail(octets);
    JoinIsTail(EachWithoutZero(octets));
    ReplaceFirstAndTail(o, rest);
    TrimOneZero(o, Tail(EachWithoutZero(rest)));
    assert EachWithoutZero(octets)[1..] == EachWithoutZero(rest);
  }

  lemma ReplaceFirstAndTail(o: string, rest: seq<string>)
    requires Octet(o) && forall i :: 0 <= i < |rest| ==> Octet(rest[i]) && |rest[i]| == 2
    ensures Replace(o + Tail(rest), ":0", ":") == o + Tail(EachWithoutZero(rest))
  {
    ReplacePast(o, Tail(rest));
    ReplaceInTail(rest);
  }

  lemma FoldKeepsHex(c: char, d: char)
    requires IsHex(d)
    ensures FoldChar(c) == FoldChar(d) <==> IsHex(c) && HexDigit(c) == HexDigit(d)
  {
  }

  lemma FoldIsPointwise(s: string, t: string)
    requires |s| == |t|
    ensures Fold(s) == Fold(t) <==> forall i :: 0 <= i < |s| ==> FoldChar(s[i]) == FoldChar(t[i])
  {
    if Fold(s) == Fold(t) {
      forall i | 0 <= i < |s| ensures FoldChar(s[i]) == FoldChar(t[i]) { assert Fold(s)[i] == Fold(t)[i]; }
    }
  }

  /** Minimal octets have the same value only if they have the same digits. */
  lemma MinimalDigits(a: string, b: string)
    requires Minimal(a) && Minimal(b)
    ensures OctetValue(a) == OctetValue(b) <==> |a| == |b| && forall i :: 0 <= i < |a| ==>
            HexDigit(a[i]) == HexDigit(b[i])
  {
    assert |a| == 2 ==> HexDigit(a[0]) > 0;
    assert |b| == 2 ==> HexDigit(b[0]) > 0;
    if |a| == |b| == 2 {
      SameTwoDigits(HexDigit(a[0]), HexDigit(a[1]), HexDigit(b[0]), HexDigit(b[1]));
    }
  }

  lemma SameTwoDigits(a: nat, b: nat, c: nat, d: nat)
    requires b < 16 && d < 16
    ensures 16 * a + b == 16 * c + d <==> a == c && b == d
  {
  }

  lemma FoldedOctet(part: string, octet: string)
    requires Octet(octet) && |octet| == 2
    ensures Fold(part) == Fold(WithoutZero(octet)) <==> Minimal(part) && OctetValue(part) == OctetValue(octet)
  {
    var w := WithoutZero(octet);
    assert Minimal(w) && OctetValue(w) == OctetValue(octet);
    if Minimal(part) { MinimalDigits(part, w); }
    if |part| == |w| {
      FoldIsPointwise(part, w);
      forall i | 0 <= i < |w|
        ensures FoldChar(part[i]) == FoldChar(w[i]) <==> IsHex(part[i]) && HexDigit(part[i]) == HexDigit(w[i])
      {
        FoldKeepsHex(part[i], w[i]);
      }
      if Fold(part) == Fold(w) { SameDigitsAreMinimal(part, w); }
    } else {
      assert |Fold(part)| == |part|;
    }
  }

  lemma SameDigitsAreMinimal(part: string, w: string)
    requires Minimal(w) && |part| == |w| && forall i :: 0 <= i < |w| ==>
            IsHex(part[i]) && HexDigit(part[i]) == HexDigit(w[i])
    ensures Minimal(part)
  {
  }

  lemma SplitOfCons(c: char, s: string, sep: char)
    ensures Split([c] + s, sep) ==
            if c == sep then [""] + Split(s, sep) else [[c] + Split(s, sep)[0]] + Split(s, sep)[1..]
  {
    assert ([c] + s)[1..] == s;
  }

  lemma FoldOfCons(c: char, s: string)
    ensures Fold([c] + s) == [FoldChar(c)] + Fold(s)
  {
  }

  lemma {:induction false} SplitOfFold(s: string)
    ensures |Split(Fold(s), ':')| == |Split(s, ':')|
    ensures forall i :: 0 <= i < |Split(s, ':')| ==> Split(Fold(s), ':')[i] == Fold(Split(s, ':')[i])
  {
    if s == "" {
      assert Fold(s) == "";
    } else {
      var c, tail := s[0], s[1..];
      assert s == [c] + tail;
      SplitOfFold(tail);
      FoldOfCons(c, tail);
      SplitOfCons(c, tail, ':');
      SplitOfCons(FoldChar(c), Fold(tail), ':');
      FoldOfCons(c, Split(tail, ':')[0]);
      assert Fold("") == "";
    }
  }

  lemma FoldedAlike(s: string, t: string)
    ensures Fold(s) == Fold(t) <==>
      |Split(s, ':')| == |Split(t, ':')| &&
      forall i :: 0 <= i < |Split(s, ':')| ==> Fold(Split(s, ':')[i]) == Fold(Split(t, ':')[i])
  {
    SplitOfFold(s);
    SplitOfFold(t);
    JoinOfSplit(Fold(s), ':');
    JoinOfSplit(Fold(t), ':');
    if |Split(s, ':')| == |Split(t, ':')| &&
       forall i :: 0 <= i < |Split(s, ':')| ==> Fold(Split(s, ':')[i]) == Fold(Split(t, ':')[i]) {
      assert Split(Fold(s), ':') == Split(Fold(t), ':');
    }
  }

  /** A hardware address of the file matches a MAC address exactly when it is written octet by octet
      without leading zeros and every octet has the same value. */
  lemma SameAddressIff(hw: string, octets: seq<string>)
    requires FullOctets(octets)
    ensures var parts := Split(hw, ':');
      SameAddress(hw, Join(octets, ':')) <==>
      |parts| == |octets| &&
      forall i :: 0 <= i < |octets| ==> Minimal(parts[i]) && OctetValue(parts[i]) == OctetValue(octets[i])
  {
    var minimal := EachWithoutZero(octets);
    StrippedIsOctetwise(octets);
    MinimalForms(octets);
    SplitOfFreeJoin(minimal, ':');
    FoldedAlike(hw, Join(minimal, ':'));
    var parts := Split(hw, ':');
    if |parts| == |octets| {
      forall i | 0 <= i < |octets|
        ensures Fold(parts[i]) == Fold(minimal[i]) <==>
                Minimal(parts[i]) && OctetValue(parts[i]) == OctetValue(octets[i])
      {
        FoldedOctet(parts[i], octets[i]);
      }
    }
  }

  lemma MinimalForms(octets: seq<string>)
    requires FullOctets(octets)
    ensures var minimal := EachWithoutZero(octets);
      && AllFree(minimal, ':')
      && forall i :: 0 <= i < |octets| ==> Minimal(minimal[i]) && OctetValue(minimal[i]) == OctetValue(octets[i])
  {
    forall i | 0 <= i < |octets|
      ensures var w := WithoutZero(octets[i]); ':' !in w && Minimal(w) && OctetValue(w) == OctetValue(octets[i])
    {
      assert Octet(octets[i]) && |octets[i]| == 2;
    }
  }

  /** Stripping loses nothing but letter case: two MAC addresses strip to the same text, case aside,
      exactly when they have the same octets. */
  lemma StrippedIsInjective(a: seq<string>, b: seq<string>)
    requires FullOctets(a) && FullOctets(b)
    ensures SameAddress(Stripped(Join(a, ':')), Join(b, ':')) <==>
            |a| == |b| && forall i :: 0 <= i < |a| ==> OctetValue(a[i]) == OctetValue(b[i])
  {
    var minimal := EachWithoutZero(a);
    MinimalForms(a);
    StrippedIsOctetwise(a);
    SplitOfFreeJoin(minimal, ':');
    SameAddressIff(Join(minimal, ':'), b);
  }
}
