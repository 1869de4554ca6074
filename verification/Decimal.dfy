/** Decimal numerals, as strconv.Itoa / FormatUint print them and ParseUint(s, 10, 64) reads them. */
module Decimal {
  import opened Text

  const MAX_UINT64 := 0xFFFF_FFFF_FFFF_FFFF

  predicate IsDigit(c: char) { '0' <= c <= '9' }

  predicate AllDigits(s: string) { forall i :: 0 <= i < |s| ==> IsDigit(s[i]) }

  /** A numeral as Itoa writes it: at least one digit, no leading zero unless it is "0". */
  predicate Canonical(s: string) { s != "" && AllDigits(s) && (|s| > 1 ==> s[0] != '0') }

  function Digit(n: nat): char
    requires n < 10
  {
    '0' + n as char
  }

  function Itoa(n: nat): string {
    if n < 10 then [Digit(n)] else Itoa(n / 10) + [Digit(n % 10)]
  }

  function Value(s: string): nat
    requires AllDigits(s)
  {
    if s == "" then 0 else 10 * Value(s[..|s| - 1]) + (s[|s| - 1] - '0') as nat
  }

  function ParseUint(s: string): Option<nat> {
    if s == "" || !AllDigits(s) || Value(s) > MAX_UINT64 then None else Some(Value(s))
  }

  lemma {:induction false} ItoaIsCanonical(n: nat)
    ensures Canonical(Itoa(n)) && Value(Itoa(n)) == n
    ensures n > 0 ==> Itoa(n)[0] != '0'
  {
    if n >= 10 {
      ItoaIsCanonical(n / 10);
      assert Itoa(n)[..|Itoa(n)| - 1] == Itoa(n / 10);
    }
  }

  lemma LastDigit(n: nat, d: nat)
    requires d < 10
    ensures (10 * n + d) / 10 == n && (10 * n + d) % 10 == d
    ensures n > 0 ==> Itoa(10 * n + d) == Itoa(n) + [Digit(d)]
    ensures n == 0 ==> Itoa(10 * n + d) == [Digit(d)]
  {
  }

  lemma {:induction false} ItoaOfValue(s: string)
    requires Canonical(s)
    ensures Itoa(Value(s)) == s
    ensures s[0] != '0' ==> Value(s) > 0
  {
    var front, last := s[..|s| - 1], s[|s| - 1];
    LastDigit(Value(front), (last - '0') as nat);
    assert s == front + [last];
    if |s| > 1 { ItoaOfValue(front); } else { assert Value(front) == 0; }
  }

  lemma ItoaIsInjective(m: nat, n: nat)
    requires Itoa(m) == Itoa(n)
    ensures m == n
  {
    ItoaIsCanonical(m);
    ItoaIsCanonical(n);
  }

  lemma ItoaWithout(n: nat, c: char)
    requires !IsDigit(c)
    ensures c !in Itoa(n)
  {
    ItoaIsCanonical(n);
  }
}
