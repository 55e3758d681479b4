/** Decimal rendering of naturals, as Python's f"{n}" writes them and int(...) reads them. */
module Decimal {
  predicate IsDigit(c: char) {
    '0' <= c <= '9'
  }

  predicate AllDigits(s: string) {
    forall c :: c in s ==> IsDigit(c)
  }

  function Dec(n: nat): (s: string)
    ensures s != [] && AllDigits(s)
  {
    if n < 10 then [('0' as int + n) as char]
    else Dec(n / 10) + [('0' as int + n % 10) as char]
  }

  function Value(s: string): nat
    requires AllDigits(s)
  {
    if s == [] then 0
    else
      var last := s[|s| - 1];
      assert last in s;
      10 * Value(s[..|s| - 1]) + (last as int - '0' as int)
  }

  lemma {:induction false} DecRoundTrip(n: nat)
    ensures Value(Dec(n)) == n
  {
    if n >= 10 {
      DecRoundTrip(n / 10);
      var s := Dec(n);
      assert s[..|s| - 1] == Dec(n / 10);
    }
  }

  lemma DecInjective(m: nat, n: nat)
    requires Dec(m) == Dec(n)
    ensures m == n
  {
    DecRoundTrip(m);
    DecRoundTrip(n);
  }

  /** How many digits a string starts with. */
  function Span(s: string): (n: nat)
    ensures n <= |s| && AllDigits(s[..n])
    ensures n < |s| ==> !IsDigit(s[n])
  {
    if s == [] || !IsDigit(s[0]) then 0
    else
      var n := 1 + Span(s[1..]);
      assert s[..n] == [s[0]] + s[1..][..n - 1];
      n
  }

  lemma {:induction false} SpanOf(digits: string, rest: string)
    requires AllDigits(digits) && (rest == [] || !IsDigit(rest[0]))
    ensures Span(digits + rest) == |digits|
  {
    if digits == [] {
      assert digits + rest == rest;
    } else {
      assert digits[0] in digits;
      assert (digits + rest)[1..] == digits[1..] + rest;
      SpanOf(digits[1..], rest);
    }
  }

  /** Two decimals, each followed by a dash: one text is a prefix of the other only if the
      numbers agree. This is why "…-1-…" never matches "…-11-…". */
  lemma DashedPrefix(m: nat, a: string, n: nat, b: string)
    requires Dec(m) + "-" + a <= Dec(n) + "-" + b
    ensures m == n
  {
    var s, t := Dec(m) + "-" + a, Dec(n) + "-" + b;
    var k := |Dec(m)|;
    assert s == Dec(m) + ("-" + a) && t == Dec(n) + ("-" + b);
    SpanOf(Dec(n), "-" + b);
    assert t[..k] == s[..k] == Dec(m);
    assert t == Dec(m) + t[k..] && t[k] == s[k] == '-';
    SpanOf(Dec(m), t[k..]);
    assert t[..k] == Dec(n);
    DecInjective(m, n);
  }
}
