/** Decimal digits: printing natural numbers and reading digit strings. */
module Digits {

  predicate IsDigit(c: char)
  {
    '0' <= c <= '9'
  }

  predicate IsDigits(s: string)
  {
    forall i | 0 <= i < |s| :: IsDigit(s[i])
  }

  function DigitOf(d: nat): (c: char)
    requires d < 10
  {
    ('0' as int + d) as char
  }

  function DigitValue(c: char): (d: nat)
    requires IsDigit(c)
  {
    c as int - '0' as int
  }

  /** The number a digit string denotes; the empty string denotes zero. */
  function Read(s: string): nat
    requires IsDigits(s)
  {
    if s == "" then 0 else Read(s[..|s| - 1]) * 10 + DigitValue(s[|s| - 1])
  }

  /** The usual decimal text of a natural number. */
  function NatText(n: nat): string
  {
    if n < 10 then [DigitOf(n)] else NatText(n / 10) + [DigitOf(n % 10)]
  }

  /** Printed without superfluous leading zeros. */
  predicate Canonical(s: string)
  {
    s != "" && IsDigits(s) && (s[0] == '0' ==> s == "0")
  }

  lemma {:induction false} NatTextIsCanonical(n: nat)
    ensures Canonical(NatText(n))
    ensures Read(NatText(n)) == n
    ensures n > 0 ==> NatText(n)[0] != '0'
  {
    if n >= 10 {
      NatTextIsCanonical(n / 10);
      var s := NatText(n);
      assert s[..|s| - 1] == NatText(n / 10);
    } else {
      var s := NatText(n);
      assert s[..0] == "";
      assert Read(s) == Read(s[..0]) * 10 + DigitValue(s[0]);
    }
  }

  lemma {:induction false} ReadIsPositive(s: string)
    requires IsDigits(s) && s != "" && s[0] != '0'
    ensures Read(s) > 0
  {
    if |s| > 1 { ReadIsPositive(s[..|s| - 1]); }
  }

  lemma {:induction false} CanonicalTextIsPrinted(s: string)
    requires Canonical(s)
    ensures NatText(Read(s)) == s
  {
    var init := s[..|s| - 1];
    if init == "" {
      assert s == [s[0]];
      assert Read(init) == 0;
    } else {
      assert init[0] == s[0] != '0';
      ReadIsPositive(init);
      CanonicalTextIsPrinted(init);
      assert s == init + [s[|s| - 1]];
    }
  }

  lemma NatTextIsInjective(m: nat, n: nat)
    requires NatText(m) == NatText(n)
    ensures m == n
  {
    NatTextIsCanonical(m);
    NatTextIsCanonical(n);
  }

  function Zeros(n: nat): (s: string)
    ensures IsDigits(s)
  {
    seq(n, _ => '0')
  }

  lemma {:induction false} ReadZeros(n: nat)
    ensures Read(Zeros(n)) == 0
  {
    if n > 0 {
      assert Zeros(n)[..n - 1] == Zeros(n - 1);
      ReadZeros(n - 1);
    }
  }

  function Pow10(n: nat): (p: nat)
    ensures p > 0
  {
    if n == 0 then 1 else 10 * Pow10(n - 1)
  }

  lemma {:induction false} Pow10Adds(m: nat, n: nat)
    ensures Pow10(m + n) == Pow10(m) * Pow10(n)
  {
    if m > 0 {
      Pow10Adds(m - 1, n);
      assert m - 1 + n == m + n - 1;
    }
  }

  lemma {:induction false} ReadConcat(a: string, b: string)
    requires IsDigits(a) && IsDigits(b)
    ensures IsDigits(a + b) && Read(a + b) == Read(a) * Pow10(|b|) + Read(b)
  {
    if b == "" {
      assert a + b == a;
    } else {
      var init := b[..|b| - 1];
      ReadConcat(a, init);
      var d := DigitValue(b[|b| - 1]);
      assert (a + b)[..|a + b| - 1] == a + init;
      assert Read(a + b) == Read(a + init) * 10 + d && Read(b) == Read(init) * 10 + d;
      assert Pow10(|b|) == 10 * Pow10(|init|);
      hide Read, Pow10;
      OneMoreDigit(Read(a), Pow10(|init|), Read(init), d);
    }
  }

  lemma OneMoreDigit(x: nat, p: nat, r: nat, d: nat)
    ensures (x * p + r) * 10 + d == x * (10 * p) + (r * 10 + d)
  {
    assert x * (10 * p) == 10 * (x * p);
  }

  /** Zeros in front do not change the number. */
  lemma ZerosInFront(n: nat, s: string)
    requires IsDigits(s)
    ensures IsDigits(Zeros(n) + s) && Read(Zeros(n) + s) == Read(s)
  {
    hide Zeros, Read, Pow10;
    ReadZeros(n);
    ReadConcat(Zeros(n), s);
    assert Read(Zeros(n)) * Pow10(|s|) == 0;
  }

  lemma {:induction false} ReadBound(s: string)
    requires IsDigits(s)
    ensures Read(s) < Pow10(|s|)
  {
    if s != "" { ReadBound(s[..|s| - 1]); }
  }
}
