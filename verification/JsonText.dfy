/** JSON text of string arrays, as a key: different arrays never have the same text. */
module JsonText {

  function HexDigit(n: nat): char
    requires n < 16
  {
    if n < 10 then ('0' as int + n) as char else ('a' as int + n - 10) as char
  }

  /** One character inside quotes: the quote, the backslash and control characters are escaped. */
  function Escape(c: char): (s: string)
    ensures s != "" && s[0] != '"'
  {
    if c == '"' then "\\\""
    else if c == '\\' then "\\\\"
    else if c == '\n' then "\\n"
    else if c == '\r' then "\\r"
    else if c == '\t' then "\\t"
    else if c as int == 8 then "\\b"
    else if c as int == 12 then "\\f"
    else if c as int < 32 then "\\u00" + [HexDigit(c as int / 16), HexDigit(c as int % 16)]
    else [c]
  }

  function Escaped(s: string): string
  {
    if s == "" then "" else Escape(s[0]) + Escaped(s[1..])
  }

  function Quote(s: string): string
  {
    "\"" + (Escaped(s) + "\"")
  }

  /** The text of an array of three strings. */
  function Triple(a: string, b: string, c: string): string
  {
    "[" + (Quote(a) + ("," + (Quote(b) + ("," + (Quote(c) + "]")))))
  }

  /** An escaped character holds no control character, a plain one is itself, and codes are hexadecimal. */
  lemma EscapeIsPlain(c: char)
    ensures forall i | 0 <= i < |Escape(c)| :: Escape(c)[i] as int >= 32
    ensures c as int >= 32 && c != '"' && c != '\\' ==> Escape(c) == [c]
    ensures |Escape(c)| == 6 ==>
      && Escape(c)[..4] == "\\u00" && Escape(c)[4] == "0123456789abcdef"[c as int / 16] && Escape(c)[5] == "0123456789abcdef"[c as int % 16]
  {
  }

  lemma HexDigitsDiffer(m: nat, n: nat)
    requires m < 16 && n < 16 && HexDigit(m) == HexDigit(n)
    ensures m == n
  {
  }

  lemma EscapeIsPrefixFree(a: char, b: char, x: string, y: string)
    requires Escape(a) + x == Escape(b) + y
    ensures a == b && x == y
  {
    var s, t := Escape(a) + x, Escape(b) + y;
    assert s[0] == Escape(a)[0] && t[0] == Escape(b)[0];
    if |Escape(a)| >= 2 && |Escape(b)| >= 2 {
      assert s[1] == Escape(a)[1] && t[1] == Escape(b)[1];
      if |Escape(a)| == 6 && |Escape(b)| == 6 {
        assert s[4] == Escape(a)[4] && t[4] == Escape(b)[4] && s[5] == Escape(a)[5] && t[5] == Escape(b)[5];
        HexDigitsDiffer(a as int / 16, b as int / 16);
        HexDigitsDiffer(a as int % 16, b as int % 16);
      }
    }
    assert a == b;
    assert x == s[|Escape(a)|..] && y == t[|Escape(b)|..];
  }

  lemma {:induction false} EscapedIsPrefixFree(a: string, b: string, x: string, y: string)
    requires Escaped(a) + ("\"" + x) == Escaped(b) + ("\"" + y)
    ensures a == b && x == y
  {
    hide Escape;
    if a == "" && b == "" {
      assert "" + ("\"" + x) == "\"" + x && "" + ("\"" + y) == "\"" + y;
      assert x == ("\"" + x)[1..] && y == ("\"" + y)[1..];
    } else if a == "" {
      StartsWithoutQuote(b, "\"" + y);
    } else if b == "" {
      StartsWithoutQuote(a, "\"" + x);
    } else {
      Regroup(a, "\"" + x);
      Regroup(b, "\"" + y);
      EscapeIsPrefixFree(a[0], b[0], Escaped(a[1..]) + ("\"" + x), Escaped(b[1..]) + ("\"" + y));
      EscapedIsPrefixFree(a[1..], b[1..], x, y);
      assert a == [a[0]] + a[1..] && b == [b[0]] + b[1..];
    }
  }

  lemma StartsWithoutQuote(a: string, rest: string)
    requires a != ""
    ensures (Escaped(a) + rest)[0] != '"'
  {
  }

  lemma Regroup(a: string, rest: string)
    requires a != ""
    ensures Escaped(a) + rest == Escape(a[0]) + (Escaped(a[1..]) + rest)
  {
    hide Escape;
  }

  lemma QuoteIsPrefixFree(a: string, b: string, x: string, y: string)
    requires Quote(a) + x == Quote(b) + y
    ensures a == b && x == y
  {
    assert Quote(a) + x == "\"" + (Escaped(a) + ("\"" + x));
    assert Quote(b) + y == "\"" + (Escaped(b) + ("\"" + y));
    assert (Quote(a) + x)[1..] == (Quote(b) + y)[1..];
    EscapedIsPrefixFree(a, b, x, y);
  }

  /** Different triples have different texts. */
  lemma TripleIsInjective(a: string, b: string, c: string, a': string, b': string, c': string)
    requires Triple(a, b, c) == Triple(a', b', c')
    ensures a == a' && b == b' && c == c'
  {
    hide Quote;
    var x, y := "," + (Quote(b) + ("," + (Quote(c) + "]"))), "," + (Quote(b') + ("," + (Quote(c') + "]")));
    assert Triple(a, b, c)[1..] == Quote(a) + x && Triple(a', b', c')[1..] == Quote(a') + y;
    QuoteIsPrefixFree(a, a', x, y);
    assert x[1..] == Quote(b) + ("," + (Quote(c) + "]")) && y[1..] == Quote(b') + ("," + (Quote(c') + "]"));
    QuoteIsPrefixFree(b, b', "," + (Quote(c) + "]"), "," + (Quote(c') + "]"));
    assert ("," + (Quote(c) + "]"))[1..] == Quote(c) + "]" && ("," + (Quote(c') + "]"))[1..] == Quote(c') + "]";
    QuoteIsPrefixFree(c, c', "]", "]");
  }
}
