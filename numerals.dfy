/** Python's `int(token)` and `int(token, 16)` on the tokens the parser's patterns
    capture, with the decimal and hexadecimal renderings they invert. */
module Numerals {
  import opened Outcomes
  import opened Text

  predicate IsDash(c: char) {
    c == '-'
  }

  /** `[abcdef\d]`: a hexadecimal digit in lower case only. */
  predicate IsHexDigit(c: char) {
    IsDigit(c) || ('a' <= c <= 'f')
  }

  /** The value of a digit `0-9a-f`; other characters, which no captured token
      holds, count as 0. */
  function DigitValue(c: char): (v: nat)
    ensures IsHexDigit(c) ==> v < 16 && (IsDigit(c) <==> v < 10)
  {
    if IsDigit(c) then c as int - '0' as int
    else if 'a' <= c <= 'f' then c as int - 'a' as int + 10
    else 0
  }

  function DigitChar(v: nat): (c: char)
    requires v < 16
    ensures IsHexDigit(c) && DigitValue(c) == v
  {
    if v < 10 then (v + '0' as int) as char else (v - 10 + 'a' as int) as char
  }

  /** The value of a string of digits in the given base, most significant first.
      The parser only ever reads runs of digits, and this is the value Python's
      `int` gives them. */
  function ValueIn(base: nat, ds: string): nat
    decreases |ds|
  {
    if |ds| == 0 then 0 else base * ValueIn(base, ds[..|ds| - 1]) + DigitValue(ds[|ds| - 1])
  }

  /** `n` written in the given base without leading zeros (digits `0-9a-f`). */
  function Render(base: nat, n: nat): (ds: string)
    requires base == 10 || base == 16
    ensures |ds| > 0 && AllOf(ds, if base == 10 then IsDigit else IsHexDigit)
  {
    if n < base then [DigitChar(n)] else Render(base, n / base) + [DigitChar(n % base)]
  }

  /** Rendering then reading back gives the number. */
  lemma {:induction false} RenderValue(base: nat, n: nat)
    requires base == 10 || base == 16
    ensures ValueIn(base, Render(base, n)) == n
    decreases n
  {
    if n >= base {
      var ds := Render(base, n);
      var hi := Render(base, n / base);
      assert ds == hi + [DigitChar(n % base)];
      assert ds[..|ds| - 1] == hi;
      RenderValue(base, n / base);
    }
  }

  /** A Python integer literal as `-*\d+` can capture it: an optional minus sign and
      decimal digits; `str(v)` produces it. */
  function IntToken(v: int): (t: string)
    ensures |t| > 0
  {
    if v < 0 then "-" + Render(10, -v) else Render(10, v)
  }

  /** Python's `int(t)` for a token of minus signs followed by digits: a single
      leading minus sign is accepted, two or more raise `ValueError` (None). */
  function PyInt(t: string): (r: Option<int>)
    ensures r.Some? <==> IsIntLiteral(t)
    ensures r.Some? && r.value < 0 ==> t[0] == '-'
  {
    var d := Span(t, 0, IsDash);
    SpanAll(t, 0, IsDash);
    var digits := t[d..];
    assert d == 0 ==> t == digits;
    assert d == 1 ==> t[0] == '-' && t[1..] == digits;
    assert d > 1 ==> t[0] == '-' && t[1..][0] == '-';
    if d > 1 || |digits| == 0 || !AllOf(digits, IsDigit) then None
    else
      var v: int := ValueIn(10, digits);
      if d == 1 then Some(-v) else Some(v)
  }

  /** What `int()` accepts among `-*\d+` tokens: digits, after at most one minus sign. */
  predicate IsIntLiteral(t: string) {
    (|t| > 0 && AllOf(t, IsDigit)) || (|t| > 1 && t[0] == '-' && AllOf(t[1..], IsDigit))
  }

  /** `int(str(v)) == v` */
  lemma IntTokenRoundTrip(v: int)
    ensures PyInt(IntToken(v)) == Some(v)
  {
    var t := IntToken(v);
    var ds := Render(10, if v < 0 then -v else v);
    RenderValue(10, if v < 0 then -v else v);
    if v < 0 {
      assert t == "-" + ds;
      assert !IsDash(t[1]);
      assert Span(t, 0, IsDash) == 1 by {
        assert Span(t, 1, IsDash) == 1;
      }
      assert t[1..] == ds;
    } else {
      assert !IsDash(t[0]);
      assert t[0..] == ds;
    }
  }

  /** `int("--5")` and the like raise: more than one minus sign is rejected. */
  lemma DoubleMinusRejected(t: string)
    requires |t| >= 2 && t[0] == '-' && t[1] == '-'
    ensures PyInt(t) == None
  {
  }

  /** Python's `int(h, 16)` for a non-empty run of `[abcdef\d]`. */
  function PyHexInt(h: string): nat
    requires AllOf(h, IsHexDigit)
  {
    ValueIn(16, h)
  }
}
