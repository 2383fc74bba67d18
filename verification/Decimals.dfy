/** Exact decimals of observation reconciliation: reading, printing and unit conversion. */
module Decimals {
  import opened Outcomes
  import opened Digits

  /** The number coefficient / 10^scale. */
  datatype Decimal = Decimal(coefficient: int, scale: nat)

  /** A field as a record holds it: text, a number with its JavaScript text, or something else. An
      unusable number is not finite, or an integer beyond the safe range. */
  datatype Field = Text(text: string) | Number(text: string, usable: bool) | Other

  // --- Reading -----------------------------------------------------------------------------------

  function FirstIndex(s: string, p: char -> bool): (i: nat)
    ensures i <= |s| && (forall k | 0 <= k < i :: !p(s[k])) && (i < |s| ==> p(s[i]))
  {
    if s == "" || p(s[0]) then 0 else 1 + FirstIndex(s[1..], p)
  }

  const IsE: char -> bool := (c: char) => c == 'e' || c == 'E'

  const IsPoint: char -> bool := (c: char) => c == '.'

  predicate IsSign(c: char)
  {
    c == '+' || c == '-'
  }

  function Unsigned(s: string): string
  {
    if s != "" && IsSign(s[0]) then s[1..] else s
  }

  predicate Negative(s: string)
  {
    s != "" && s[0] == '-'
  }

  /** An exponent: an optional sign and one to three digits. */
  function ExponentOf(s: string): Option<int>
  {
    var digits := Unsigned(s);
    if !IsDigits(digits) || !(1 <= |digits| <= 3) then None
    else Some(if Negative(s) then 0 - Read(digits) else Read(digits))
  }

  datatype Parts = Parts(negative: bool, whole: string, fraction: string, exponent: int)

  /** The digits before and after the first point. */
  function SplitAtPoint(mantissa: string): (string, string)
  {
    var point := FirstIndex(mantissa, IsPoint);
    (mantissa[..point], if point < |mantissa| then mantissa[point + 1..] else "")
  }

  function ExponentPart(s: string): Option<int>
  {
    if s == "" then Some(0) else ExponentOf(s[1..])
  }

  /** The parts of a decimal text, if it is one. */
  function PartsOf(s: string): (r: Option<Parts>)
    ensures r.Some? ==> IsDigits(r.value.whole) && IsDigits(r.value.fraction) && r.value.whole + r.value.fraction != ""
  {
    var body := Unsigned(s);
    var e := FirstIndex(body, IsE);
    var (whole, fraction) := SplitAtPoint(body[..e]);
    var exponent := ExponentPart(body[e..]);
    if !IsDigits(whole) || !IsDigits(fraction) || whole + fraction == "" || exponent.None? then None
    else Some(Parts(Negative(s), whole, fraction, exponent.value))
  }

  lemma ReadConcatIsDigits(a: string, b: string)
    requires IsDigits(a) && IsDigits(b)
    ensures IsDigits(a + b)
  {
  }

  /** A scale below zero is multiplied out. */
  function Shifted(coefficient: int, scale: int): Decimal
  {
    if scale < 0 then Decimal(coefficient * Pow10(-scale), 0) else Decimal(coefficient, scale)
  }

  function DecimalOfParts(p: Parts): Decimal
    requires IsDigits(p.whole) && IsDigits(p.fraction)
  {
    ReadConcatIsDigits(p.whole, p.fraction);
    var magnitude := Read(p.whole + p.fraction);
    var coefficient := if p.negative then 0 - magnitude else magnitude;
    Shifted(coefficient, |p.fraction| - p.exponent)
  }

  function ReadDecimal(field: Field): Option<Decimal>
  {
    match field
    case Other => None
    case Number(text, usable) => if usable then ReadDecimalText(text) else None
    case Text(text) => ReadDecimalText(text)
  }

  function ReadDecimalText(text: string): Option<Decimal>
  {
    if |text| > 128 then None
    else match PartsOf(text)
      case None => None
      case Some(parts) => if parts.exponent < -100 || parts.exponent > 100 then None else Some(DecimalOfParts(parts))
  }

  // --- What the grammar accepts ------------------------------------------------------------------

  /** How a decimal text is composed: a sign, digits with at most one point and at least one digit, and
      an exponent of one to three digits. */
  datatype Composition = Composition(sign: string, whole: string, point: bool, fraction: string,
                                     exponentMark: string, exponentSign: string, exponentDigits: string)
  {
    predicate Legal()
    {
      && sign in {"", "+", "-"} && IsDigits(whole) && IsDigits(fraction) && whole + fraction != ""
      && (!point ==> fraction == "")
      && exponentMark in {"", "e", "E"} && exponentSign in {"", "+", "-"} && IsDigits(exponentDigits)
      && (if exponentMark == "" then exponentSign == "" && exponentDigits == "" else 1 <= |exponentDigits| <= 3)
    }

    function Mantissa(): string
    {
      whole + (if point then "." + fraction else "")
    }

    function Exponent(): string
    {
      exponentMark + exponentSign + exponentDigits
    }

    function Compose(): string
    {
      sign + (Mantissa() + Exponent())
    }

    function Meaning(): Parts
      requires Legal()
    {
      Parts(sign == "-", whole, fraction,
            if exponentMark == "" then 0
            else if exponentSign == "-" then 0 - Read(exponentDigits) else Read(exponentDigits))
    }
  }

  lemma {:induction false} FirstIndexAfter(a: string, b: string, p: char -> bool)
    requires forall i | 0 <= i < |a| :: !p(a[i])
    requires b != "" ==> p(b[0])
    ensures FirstIndex(a + b, p) == |a|
  {
    if a == "" {
      assert a + b == b;
    } else {
      assert (a + b)[1..] == a[1..] + b;
      FirstIndexAfter(a[1..], b, p);
    }
  }

  lemma UnsignedOf(sign: string, rest: string)
    requires sign in {"", "+", "-"} && (rest != "" ==> !IsSign(rest[0]))
    ensures Unsigned(sign + rest) == rest && Negative(sign + rest) == (sign == "-")
  {
    assert sign == "" ==> sign + rest == rest;
  }

  lemma SplitAtPointOf(c: Composition)
    requires c.Legal()
    ensures SplitAtPoint(c.Mantissa()) == (c.whole, c.fraction)
  {
    var tail := if c.point then "." + c.fraction else "";
    FirstIndexAfter(c.whole, tail, IsPoint);
    assert c.Mantissa()[..|c.whole|] == c.whole;
    assert c.point ==> c.Mantissa()[|c.whole| + 1..] == c.fraction;
  }

  lemma ExponentPartOf(c: Composition)
    requires c.Legal()
    ensures ExponentPart(c.Exponent()) == Some(c.Meaning().exponent)
  {
    hide Read;
    if c.exponentMark != "" {
      assert c.Exponent()[1..] == c.exponentSign + c.exponentDigits;
      UnsignedOf(c.exponentSign, c.exponentDigits);
    }
  }

  lemma MantissaHasNoMark(c: Composition)
    requires c.Legal()
    ensures c.Mantissa() != "" && !IsSign(c.Mantissa()[0])
    ensures forall i | 0 <= i < |c.Mantissa()| :: !IsE(c.Mantissa()[i])
  {
  }

  /** Every composition is read back into its parts. */
  lemma CompositionIsRead(c: Composition)
    requires c.Legal()
    ensures PartsOf(c.Compose()) == Some(c.Meaning())
  {
    var mantissa, exponent := c.Mantissa(), c.Exponent();
    var body := mantissa + exponent;
    MantissaHasNoMark(c);
    SplitAtPointOf(c);
    ExponentPartOf(c);
    hide SplitAtPoint, ExponentPart, Composition.Mantissa;
    UnsignedOf(c.sign, body);
    FirstIndexAfter(mantissa, exponent, IsE);
    hide FirstIndex, Unsigned;
    assert body[..|mantissa|] == mantissa && body[|mantissa|..] == exponent;
  }

  lemma SignIsSplit(s: string) returns (sign: string)
    ensures sign in {"", "+", "-"} && s == sign + Unsigned(s) && (sign == "-" <==> Negative(s))
  {
    sign := if s != "" && IsSign(s[0]) then [s[0]] else "";
  }

  lemma MantissaIsSplit(m: string) returns (point: bool)
    ensures m == SplitAtPoint(m).0 + (if point then "." + SplitAtPoint(m).1 else "")
    ensures !point ==> SplitAtPoint(m).1 == ""
  {
    point := FirstIndex(m, IsPoint) < |m|;
  }

  lemma ExponentIsSplit(s: string) returns (mark: string, sign: string, digits: string)
    requires ExponentPart(s).Some? && (s != "" ==> IsE(s[0]))
    ensures mark in {"", "e", "E"} && sign in {"", "+", "-"} && IsDigits(digits) && s == mark + sign + digits
    ensures if mark == "" then sign == "" && digits == "" else 1 <= |digits| <= 3
    ensures ExponentPart(s).value == if mark == "" then 0 else if sign == "-" then 0 - Read(digits) else Read(digits)
  {
    hide ExponentOf, Read, IsDigits;
    if s == "" {
      mark, sign, digits := "", "", "";
      assert IsDigits("") by { NoDigits(); }
    } else {
      mark := [s[0]];
      assert s == mark + s[1..];
      sign, digits := ExponentDigits(s[1..]);
      assert mark + (sign + digits) == mark + sign + digits;
    }
  }

  lemma NoDigits()
    ensures IsDigits("")
  {
  }

  lemma ExponentDigits(s: string) returns (sign: string, digits: string)
    requires ExponentOf(s).Some?
    ensures sign in {"", "+", "-"} && IsDigits(digits) && s == sign + digits && 1 <= |digits| <= 3
    ensures ExponentOf(s).value == if sign == "-" then 0 - Read(digits) else Read(digits)
  {
    hide Read, Unsigned, Negative;
    sign := SignIsSplit(s);
    digits := Unsigned(s);
  }

  /** Whatever is read is a composition of its parts. */
  lemma ReadIsComposition(s: string) returns (c: Composition)
    requires PartsOf(s).Some?
    ensures c.Legal() && c.Compose() == s && c.Meaning() == PartsOf(s).value
  {
    hide FirstIndex, Unsigned, SplitAtPoint, ExponentPart, Read, Negative;
    var body := Unsigned(s);
    var e := FirstIndex(body, IsE);
    var parts := PartsOf(s).value;
    var sign := SignIsSplit(s);
    var point := MantissaIsSplit(body[..e]);
    var mark, exponentSign, digits := ExponentIsSplit(body[e..]);
    c := Composition(sign, parts.whole, point, parts.fraction, mark, exponentSign, digits);
    assert body == body[..e] + body[e..];
  }

  // --- Printing --------------------------------------------------------------------------------------

  /** Without trailing zeros after the point; zero has scale zero. */
  function Normal(d: Decimal): Decimal
    decreases d.scale
  {
    if d.coefficient == 0 then Decimal(0, 0)
    else if d.scale > 0 && d.coefficient % 10 == 0 then Normal(Decimal(d.coefficient / 10, d.scale - 1))
    else d
  }

  predicate IsNormal(d: Decimal)
  {
    d.scale == 0 || d.coefficient % 10 != 0
  }

  /** The digits of a number, padded with zeros in front to at least `width`. */
  function Padded(n: nat, width: nat): string
  {
    var digits := NatText(n);
    if |digits| >= width then digits else Zeros(width - |digits|) + digits
  }

  function Magnitude(c: int): nat
  {
    if c < 0 then -c else c
  }

  function PrintNormal(d: Decimal): string
  {
    var digits := Padded(Magnitude(d.coefficient), d.scale + 1);
    (if d.coefficient < 0 then "-" else "")
    + (if d.scale > 0 then digits[..|digits| - d.scale] + ("." + digits[|digits| - d.scale..]) else digits)
  }

  /** The canonical text of a decimal. */
  function DecimalText(d: Decimal): string
  {
    PrintNormal(Normal(d))
  }

  /** Printing as the code does it: strip zeros in a loop, then pad and place the point. */
  method PrintDecimal(value: Decimal) returns (text: string)
    ensures text == DecimalText(value)
  {
    if value.coefficient == 0 { return "0"; }
    hide NatText, Zeros;
    var coefficient, scale := value.coefficient, value.scale;
    while scale > 0 && coefficient % 10 == 0
      invariant coefficient != 0 && scale >= 0
      invariant Normal(Decimal(coefficient, scale)) == Normal(value)
      decreases scale
    {
      coefficient := coefficient / 10;
      scale := scale - 1;
    }
    var sign := if coefficient < 0 then "-" else "";
    var digits := NatText(if coefficient < 0 then -coefficient else coefficient);
    if |digits| < scale + 1 { digits := Zeros(scale + 1 - |digits|) + digits; }
    text := sign + (if scale > 0 then digits[..|digits| - scale] + ("." + digits[|digits| - scale..]) else digits);
  }

  // --- Numbers ------------------------------------------------------------------------------------------

  /** The number a decimal denotes. */
  ghost function Amount(d: Decimal): real
  {
    d.coefficient as real / Pow10(d.scale) as real
  }

  lemma EqualRatios(a: int, b: int, p: int, q: int)
    requires p > 0 && q > 0
    ensures a as real / p as real == b as real / q as real <==> a * q == b * p
  {
    var x, y := a as real / p as real, b as real / q as real;
    assert x * p as real == a as real && y * q as real == b as real;
    if x == y {
      assert (a * q) as real == x * p as real * q as real == y * q as real * p as real == (b * p) as real;
    }
    if a * q == b * p {
      assert (x - y) * (p as real * q as real) == (a * q) as real - (b * p) as real == 0.0;
      assert p as real * q as real > 0.0;
    }
  }

  /** Two decimals denote the same number iff they agree on a common scale. */
  lemma AmountsAgree(a: Decimal, b: Decimal)
    ensures Amount(a) == Amount(b) <==> a.coefficient * Pow10(b.scale) == b.coefficient * Pow10(a.scale)
  {
    EqualRatios(a.coefficient, b.coefficient, Pow10(a.scale), Pow10(b.scale));
  }

  lemma {:induction false} NormalKeepsAmount(d: Decimal)
    ensures IsNormal(Normal(d)) && Amount(Normal(d)) == Amount(d)
    decreases d.scale
  {
    if d.coefficient == 0 {
      AmountsAgree(d, Decimal(0, 0));
    } else if d.scale > 0 && d.coefficient % 10 == 0 {
      var next := Decimal(d.coefficient / 10, d.scale - 1);
      NormalKeepsAmount(next);
      AmountsAgree(d, next);
      var p := Pow10(d.scale - 1);
      assert d.coefficient == 10 * next.coefficient && Pow10(d.scale) == 10 * p;
      assert d.coefficient * p == next.coefficient * (10 * p);
    }
  }

  lemma NormalIsUnique(a: Decimal, b: Decimal)
    requires IsNormal(a) && IsNormal(b) && Amount(a) == Amount(b)
    ensures a == b
  {
    AmountsAgree(a, b);
    if a.scale < b.scale { LowerScaleIsNotNormal(a, b); }
    if b.scale < a.scale { LowerScaleIsNotNormal(b, a); }
    Pow10Cancels(a.coefficient, b.coefficient, Pow10(a.scale));
  }

  lemma Pow10Cancels(x: int, y: int, p: int)
    requires p > 0
    ensures x * p == y * p ==> x == y
  {
    if x * p == y * p { assert (x - y) * p == 0; }
  }

  lemma LowerScaleIsNotNormal(a: Decimal, b: Decimal)
    requires a.scale < b.scale && a.coefficient * Pow10(b.scale) == b.coefficient * Pow10(a.scale)
    ensures b.coefficient % 10 == 0
  {
    var k := b.scale - a.scale;
    Pow10Adds(k, a.scale);
    var p, q := Pow10(a.scale), Pow10(k);
    assert a.coefficient * (q * p) == (a.coefficient * q) * p;
    Pow10Cancels(a.coefficient * q, b.coefficient, p);
    var r := Pow10(k - 1);
    assert q == 10 * r;
    assert a.coefficient * (10 * r) == 10 * (a.coefficient * r);
  }

  /** Ten to a power that may be negative. */
  ghost function Power10(e: int): real
  {
    if e >= 0 then Pow10(e) as real else 1.0 / Pow10(-e) as real
  }

  ghost function Times(x: real, y: real): real
  {
    x * y
  }

  /** The number a composition is meant to denote. */
  ghost function Denoted(c: Composition): real
    requires c.Legal()
  {
    var magnitude: int := Read(c.whole + c.fraction);
    Times(Amount(Decimal(if c.sign == "-" then -magnitude else magnitude, |c.fraction|)),
          Power10(c.Meaning().exponent))
  }

  lemma RatioTimesRatio(m: int, p: int, q: int)
    requires p > 0 && q > 0
    ensures (m as real / (p * q) as real) * q as real == m as real / p as real
    ensures (m as real / p as real) * (1.0 / q as real) == m as real / (p * q) as real
    ensures (m as real / p as real) * (p * q) as real == (m * q) as real
  {
    var x := m as real / p as real;
    assert x * p as real == m as real && p * q > 0;
    var y := m as real / (p * q) as real;
    assert y * (p * q) as real == m as real;
    assert y * q as real * p as real == m as real;
    assert (y * q as real - x) * p as real == 0.0;
    assert x == y * q as real;
    assert (1.0 / q as real) * q as real == 1.0;
    assert x * (1.0 / q as real) == y * ((1.0 / q as real) * q as real);
    assert x * (p * q) as real == (x * p as real) * q as real;
  }

  lemma OverOne(m: int)
    ensures Amount(Decimal(m, 0)) == m as real
  {
  }

  lemma ScaledUp(m: int, f: nat, e: nat)
    requires f < e
    ensures Amount(Decimal(m * Pow10(e - f), 0)) == Times(Amount(Decimal(m, f)), Pow10(e) as real)
  {
    OverOne(m * Pow10(e - f));
    hide Pow10;
    Pow10Adds(f, e - f);
    RatioTimesRatio(m, Pow10(f), Pow10(e - f));
  }

  lemma ScaledLess(m: int, f: nat, e: nat)
    requires e <= f
    ensures Amount(Decimal(m, f - e)) == Times(Amount(Decimal(m, f)), Pow10(e) as real)
  {
    hide Pow10;
    Pow10Adds(f - e, e);
    RatioTimesRatio(m, Pow10(f - e), Pow10(e));
  }

  lemma ScaledMore(m: int, f: nat, e: nat)
    ensures Amount(Decimal(m, f + e)) == Times(Amount(Decimal(m, f)), 1.0 / Pow10(e) as real)
  {
    hide Pow10;
    Pow10Adds(f, e);
    RatioTimesRatio(m, Pow10(f), Pow10(e));
  }

  lemma ShiftedRatio(m: int, f: nat, e: int)
    ensures Amount(Shifted(m, f - e)) == Times(Amount(Decimal(m, f)), Power10(e))
  {
    hide Amount, Times, Pow10;
    if f < e {
      ScaledUp(m, f, e);
    } else if e >= 0 {
      ScaledLess(m, f, e);
    } else {
      ScaledMore(m, f, -e);
    }
  }

  /** A text is read iff it fits the limit and is a composition whose exponent is at most 100 in size;
      what is read is the number the composition denotes. */
  lemma ReadsExactlyCompositions(s: string)
    ensures ReadDecimalText(s).Some?
       <==> |s| <= 128 && exists c: Composition :: IsTextOf(c, s) && -100 <= c.Meaning().exponent <= 100
    ensures forall c: Composition | IsTextOf(c, s) && ReadDecimalText(s).Some? ::
              Amount(ReadDecimalText(s).value) == Denoted(c)
  {
    hide PartsOf, Amount, Denoted, Composition.Legal, Composition.Compose, Composition.Meaning;
    if PartsOf(s).Some? {
      var c := ReadIsComposition(s);
      assert IsTextOf(c, s);
    }
    forall c: Composition | IsTextOf(c, s)
      ensures PartsOf(s) == Some(c.Meaning()) && Amount(DecimalOfParts(PartsOf(s).value)) == Denoted(c)
    {
      CompositionIsRead(c);
      PartsDenote(c);
    }
  }

  ghost predicate IsTextOf(c: Composition, s: string)
  {
    c.Legal() && c.Compose() == s
  }

  lemma PartsDenote(c: Composition)
    requires c.Legal()
    ensures Amount(DecimalOfParts(c.Meaning())) == Denoted(c)
  {
    hide Amount, Power10, Times, Shifted;
    var magnitude: int := Read(c.whole + c.fraction);
    ShiftedRatio(if c.sign == "-" then -magnitude else magnitude, |c.fraction|, c.Meaning().exponent);
  }

  // --- Printing and reading back ----------------------------------------------------------------------------

  lemma PaddedReads(n: nat, width: nat)
    ensures IsDigits(Padded(n, width)) && Read(Padded(n, width)) == n && |Padded(n, width)| >= width
  {
    NatTextIsCanonical(n);
    var digits := NatText(n);
    if |digits| < width { ZerosInFront(width - |digits|, digits); }
  }

  /** The composition of a printed normal decimal. */
  lemma PrintedComposition(d: Decimal) returns (c: Composition)
    requires IsNormal(d)
    ensures c.Legal() && c.Compose() == PrintNormal(d)
    ensures c.Meaning().exponent == 0 && c.sign == (if d.coefficient < 0 then "-" else "")
    ensures |c.fraction| == d.scale && Read(c.whole + c.fraction) == Magnitude(d.coefficient)
  {
    hide Read, Padded;
    var digits := Padded(Magnitude(d.coefficient), d.scale + 1);
    PaddedReads(Magnitude(d.coefficient), d.scale + 1);
    var k := |digits| - d.scale;
    c := Composition(if d.coefficient < 0 then "-" else "", digits[..k], d.scale > 0, digits[k..], "", "", "");
    assert digits == digits[..k] + digits[k..];
    assert c.Mantissa() + c.Exponent() == c.Mantissa();
    assert d.scale == 0 ==> digits[..k] == digits;
  }

  /** The printed text of a normal decimal reads back as exactly that decimal. */
  lemma PrintedIsRead(d: Decimal)
    requires IsNormal(d)
    ensures PartsOf(PrintNormal(d)).Some? && PartsOf(PrintNormal(d)).value.exponent == 0
    ensures DecimalOfParts(PartsOf(PrintNormal(d)).value) == d
  {
    hide PartsOf, PrintNormal, Read;
    var c := PrintedComposition(d);
    CompositionIsRead(c);
    assert Pow10(0) == 1;
  }

  /** Reading a printed text gives the number back, as long as the text fits the 128-character limit;
      a longer text is refused. */
  lemma ReadOfPrinted(d: Decimal)
    ensures ReadDecimalText(DecimalText(d))
         == if |DecimalText(d)| <= 128 then Some(Normal(d)) else None
    ensures Amount(Normal(d)) == Amount(d)
  {
    NormalKeepsAmount(d);
    PrintedIsRead(Normal(d));
  }

  /** Two decimals print the same text iff they denote the same number. */
  lemma SameTextIffSameNumber(a: Decimal, b: Decimal)
    ensures DecimalText(a) == DecimalText(b) <==> Amount(a) == Amount(b)
  {
    NormalKeepsAmount(a);
    NormalKeepsAmount(b);
    PrintedIsRead(Normal(a));
    PrintedIsRead(Normal(b));
    if Amount(a) == Amount(b) { NormalIsUnique(Normal(a), Normal(b)); }
  }

  // --- Conversion ---------------------------------------------------------------------------------------------

  function Greater(a: nat, b: nat): nat
  {
    if a >= b then a else b
  }

  function Convert(value: Decimal, factor: Decimal, offset: Decimal): Decimal
  {
    var scale := Greater(value.scale + factor.scale, offset.scale);
    Decimal(value.coefficient * factor.coefficient * Pow10(scale - value.scale - factor.scale)
            + offset.coefficient * Pow10(scale - offset.scale), scale)
  }

  lemma Rescaled(c: int, s: nat, t: nat)
    requires s <= t
    ensures Amount(Decimal(c * Pow10(t - s), t)) == Amount(Decimal(c, s))
  {
    Pow10Adds(s, t - s);
    hide Pow10;
    SameRatio(c, Pow10(s), Pow10(t - s));
  }

  lemma SameRatio(c: int, p: int, q: int)
    requires p > 0 && q > 0
    ensures (c * q) as real / (p * q) as real == c as real / p as real
  {
    assert p * q > 0;
    assert (c * q) * p == c * (p * q);
    EqualRatios(c * q, c, p * q, p);
  }

  lemma ProductOfRatios(a: int, b: int, p: int, q: int)
    requires p > 0 && q > 0
    ensures (a * b) as real / (p * q) as real == (a as real / p as real) * (b as real / q as real)
  {
    ProductOfQuotients(a as real, b as real, p as real, q as real);
    assert (a * b) as real == a as real * b as real;
    assert (p * q) as real == p as real * q as real;
  }

  lemma ProductOfQuotients(a: real, b: real, p: real, q: real)
    requires p > 0.0 && q > 0.0
    ensures p * q > 0.0 && (a * b) / (p * q) == (a / p) * (b / q)
  {
    var x, y := a / p, b / q;
    assert x * p == a && y * q == b;
    assert p * q > 0.0;
    assert (x * y) * (p * q) == (x * p) * (y * q);
  }

  lemma ProductOfAmounts(a: Decimal, b: Decimal)
    ensures Amount(Decimal(a.coefficient * b.coefficient, a.scale + b.scale)) == Times(Amount(a), Amount(b))
  {
    Pow10Adds(a.scale, b.scale);
    hide Pow10;
    ProductOfRatios(a.coefficient, b.coefficient, Pow10(a.scale), Pow10(b.scale));
  }

  lemma SumOfAmounts(a: int, b: int, scale: nat)
    ensures Amount(Decimal(a + b, scale)) == Amount(Decimal(a, scale)) + Amount(Decimal(b, scale))
  {
    hide Pow10;
    SumOfQuotients(a as real, b as real, Pow10(scale) as real);
  }

  lemma SumOfQuotients(a: real, b: real, p: real)
    requires p > 0.0
    ensures (a + b) / p == a / p + b / p
  {
  }

  /** Conversion is exact: value times factor plus offset. */
  lemma ConvertIsExact(value: Decimal, factor: Decimal, offset: Decimal)
    ensures Amount(Convert(value, factor, offset)) == Times(Amount(value), Amount(factor)) + Amount(offset)
  {
    hide Amount, Pow10, Times;
    var vf := value.scale + factor.scale;
    var t := Greater(vf, offset.scale);
    var product := value.coefficient * factor.coefficient;
    var a, b := product * Pow10(t - vf), offset.coefficient * Pow10(t - offset.scale);
    assert Convert(value, factor, offset) == Decimal(a + b, t) by { ConvertParts(value, factor, offset); }
    hide Convert;
    SumOfAmounts(a, b, t);
    Rescaled(product, vf, t);
    Rescaled(offset.coefficient, offset.scale, t);
    ProductOfAmounts(value, factor);
  }

  lemma ConvertParts(value: Decimal, factor: Decimal, offset: Decimal)
    ensures var vf := value.scale + factor.scale;
      var t := Greater(vf, offset.scale);
      Convert(value, factor, offset)
      == Decimal(value.coefficient * factor.coefficient * Pow10(t - vf) + offset.coefficient * Pow10(t - offset.scale), t)
  {
    var vf := value.scale + factor.scale;
    var t := Greater(vf, offset.scale);
    hide Pow10;
    assert t - value.scale - factor.scale == t - vf;
  }

  lemma PositiveAmount(d: Decimal)
    requires d.coefficient > 0
    ensures Amount(d) > 0.0
  {
    hide Pow10;
    PositiveQuotient(d.coefficient as real, Pow10(d.scale) as real);
  }

  lemma PositiveQuotient(a: real, p: real)
    requires a > 0.0 && p > 0.0
    ensures a / p > 0.0
  {
    assert (a / p) * p == a;
  }

  lemma TimesIsMonotone(x: real, y: real, f: real)
    requires f > 0.0
    ensures x < y <==> Times(x, f) < Times(y, f)
  {
    if x < y { assert (y - x) * f > 0.0; }
    if x > y { assert (x - y) * f > 0.0; }
  }

  /** With a positive factor, conversion keeps the strict order of values. */
  lemma ConvertIsMonotone(v: Decimal, w: Decimal, factor: Decimal, offset: Decimal)
    requires factor.coefficient > 0
    ensures Amount(v) < Amount(w) <==> Amount(Convert(v, factor, offset)) < Amount(Convert(w, factor, offset))
  {
    hide Amount, Convert, Times, Pow10;
    ConvertIsExact(v, factor, offset);
    ConvertIsExact(w, factor, offset);
    PositiveAmount(factor);
    TimesIsMonotone(Amount(v), Amount(w), Amount(factor));
  }

  /** So converted values print the same text only if the originals do. */
  lemma ConvertNeverMerges(v: Decimal, w: Decimal, factor: Decimal, offset: Decimal)
    requires factor.coefficient > 0
    ensures DecimalText(Convert(v, factor, offset)) == DecimalText(Convert(w, factor, offset))
       <==> DecimalText(v) == DecimalText(w)
  {
    hide Amount, Convert, DecimalText, Pow10;
    SameTextIffSameNumber(v, w);
    SameTextIffSameNumber(Convert(v, factor, offset), Convert(w, factor, offset));
    ConvertIsMonotone(v, w, factor, offset);
    ConvertIsMonotone(w, v, factor, offset);
  }
}
