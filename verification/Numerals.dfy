/** Positional numerals, as the programs print counters, process ids and timestamps. */
module Numerals {
  import opened Outcomes

  /** Bases up to sixteen, with lower-case digits above nine. */
  type Base = b: int | 2 <= b <= 16 witness 10

  function Digit(d: nat): char
    requires d < 16
  {
    if d < 10 then '0' + d as char else 'a' + (d - 10) as char
  }

  function DigitValue(c: char, base: Base): Option<nat> {
    var d := if '0' <= c <= '9' then c as int - '0' as int
             else if 'a' <= c <= 'f' then c as int - 'a' as int + 10
             else base;
    if d < base then Some(d) else None
  }

  predicate Digits(s: string, base: Base) {
    s != [] && forall i | 0 <= i < |s| :: DigitValue(s[i], base).Some?
  }

  lemma QuotientShrinks(n: nat, base: Base)
    requires n >= base
    ensures n / base * base + n % base == n
    ensures 0 < n / base < n
  {
  }

  function Numeral(n: nat, base: Base): (s: string)
    ensures Digits(s, base)
  {
    if n < base then [Digit(n)] else Numeral(n / base, base) + [Digit(n % base)]
  }

  function Decimal(n: nat): string {
    Numeral(n, 10)
  }

  function Value(s: string, base: Base): nat
    requires Digits(s, base)
  {
    var last := DigitValue(s[|s| - 1], base).value;
    if |s| == 1 then last else Value(s[..|s| - 1], base) * base + last
  }

  lemma DigitRoundTrip(d: nat, base: Base)
    requires d < base
    ensures DigitValue(Digit(d), base) == Some(d)
  {
  }

  lemma ValueOfLast(s: string, d: nat, base: Base)
    requires Digits(s, base) && d < base
    ensures Digits(s + [Digit(d)], base)
    ensures Value(s + [Digit(d)], base) == Value(s, base) * base + d
  {
    DigitRoundTrip(d, base);
    var t := s + [Digit(d)];
    assert t[..|t| - 1] == s;
  }

  /** A numeral determines its number. */
  lemma {:induction false} NumeralValue(n: nat, base: Base)
    ensures Value(Numeral(n, base), base) == n
  {
    if n < base {
      DigitRoundTrip(n, base);
    } else {
      var q, d := n / base, n % base;
      QuotientShrinks(n, base);
      NumeralValue(q, base);
      ValueOfLast(Numeral(q, base), d, base);
    }
  }

  lemma NumeralInjective(m: nat, n: nat, base: Base)
    requires Numeral(m, base) == Numeral(n, base)
    ensures m == n
  {
    NumeralValue(m, base);
    NumeralValue(n, base);
  }

  /** Separators such as '-', '.' and '/' never occur inside a numeral. */
  lemma NumeralAvoids(n: nat, base: Base, c: char)
    requires DigitValue(c, base) == None
    ensures c !in Numeral(n, base)
  {
  }

  function Power(base: Base, k: nat): nat {
    if k == 0 then 1 else base * Power(base, k - 1)
  }

  lemma {:induction false} NumeralLength(n: nat, base: Base, k: nat)
    requires k > 0 && n < Power(base, k)
    ensures |Numeral(n, base)| <= k
  {
    if n >= base {
      var q := n / base;
      QuotientShrinks(n, base);
      assert Power(base, 1) == base * Power(base, 0) == base;
      QuotientBound(q, base, Power(base, k - 1));
      NumeralLength(q, base, k - 1);
    }
  }

  lemma QuotientBound(q: nat, base: Base, p: nat)
    requires q * base < base * p
    ensures q < p
  {
    assert (p - q) * base == base * p - q * base;
  }

  /** A string splits uniquely at the last occurrence of a separator. */
  lemma SplitAtLast(a: string, x: string, b: string, y: string, c: char)
    requires a + [c] + x == b + [c] + y
    requires c !in x && c !in y
    ensures a == b && x == y
  {
    var s := a + [c] + x;
    assert forall i | |a| < i < |s| :: s[i] == x[i - |a| - 1] && s[i] in x;
    assert forall i | |b| < i < |s| :: s[i] == y[i - |b| - 1] && s[i] in y;
    assert s[|a|] == c && s[|b|] == c;
    assert |a| == |b|;
    assert s[..|a|] == a && s[..|a|] == b;
    assert s[|a| + 1..] == x && s[|a| + 1..] == y;
  }
}
