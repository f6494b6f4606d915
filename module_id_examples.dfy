/** What `parse_module_id` makes of the id written in each of its shapes, and of
    two shapes it does not accept as one might expect. */
module ModuleIdExamples {
  import opened Outcomes
  import opened Text
  import opened Numerals
  import opened Schema
  import opened Patterns
  import opened ModuleId


  /** One or more digits. */
  predicate Digits(t: string) {
    |t| > 0 && IsDigit(t[0]) && (|t| == 1 || Digits(t[1..]))
  }

  /** The shape of a decimal token: an optional minus sign, then digits. */
  predicate DecimalShape(t: string) {
    |t| > 0 && if t[0] == '-' then Digits(t[1..]) else Digits(t)
  }

  lemma {:induction false} DigitsAll(t: string)
    requires Digits(t)
    ensures forall i | 0 <= i < |t| :: IsDigit(t[i])
  {
    if |t| > 1 {
      DigitsAll(t[1..]);
      forall i | 1 <= i < |t| ensures IsDigit(t[i]) {
        assert t[i] == t[1..][i - 1];
      }
    }
  }

  lemma {:induction false} AllDigits(t: string)
    requires |t| > 0 && forall i | 0 <= i < |t| :: IsDigit(t[i])
    ensures Digits(t)
  {
    if |t| > 1 {
      AllDigits(t[1..]);
    }
  }

  /** Every rendered integer has the decimal shape and holds no `p`; its second
      character, if any, is no `x`. */
  lemma TokenShape(v: int)
    ensures DecimalShape(IntToken(v)) && 'p' !in IntToken(v)
    ensures |IntToken(v)| == 1 || IntToken(v)[1] != 'x'
  {
    var t := IntToken(v);
    var ds := Render(10, if v < 0 then -v else v);
    assert AllOf(ds, IsDigit);
    AllDigits(ds);
    if v < 0 {
      assert t == "-" + ds;
      assert t[1..] == ds;
    } else {
      assert t == ds;
    }
  }

  /** Where a decimal token `t` sits in `s` followed by a character that is no
      digit, the `-*\d+` group read from there ends right after it. */
  lemma TokenEndsAt(s: string, p: nat, t: string)
    requires DecimalShape(t) && LitAt(s, p, t) && p + |t| < |s| && !IsDigit(s[p + |t|])
    ensures IntTokenEnd(s, p) == Some(p + |t|)
  {
    var m := if t[0] == '-' then p + 1 else p;
    DigitsAll(if t[0] == '-' then t[1..] else t);
    forall j | m <= j < p + |t| ensures IsDigit(s[j]) {
      assert s[j] == t[j - p];
      if t[0] == '-' {
        assert t[j - p] == t[1..][j - m];
      }
    }
    assert s[p] == t[0];
    assert !IsDash(s[m]);
    SpanExact(s, p, m, IsDash);
    SpanExact(s, m, p + |t|, IsDigit);
  }

  /** A decimal token `t` at `p` followed by the literal `lit`, which does not
      start with a digit. */
  lemma TokenBefore(line: string, p: nat, t: string, lit: string)
    requires DecimalShape(t) && LitAt(line, p, t) && LitAt(line, p + |t|, lit) && |lit| > 0 && !IsDigit(lit[0])
    ensures IntTokenEnd(line, p) == Some(p + |t|)
  {
    assert line[p + |t|] == lit[0];
    TokenEndsAt(line, p, t);
  }

  /** A decimal token `t` at `p`, then `lit`, then `rest`: the group read from `p`
      is `t`, and reading resumes at `rest`. */
  lemma TokenThenAt(line: string, p: nat, t: string, lit: string, rest: string)
    requires DecimalShape(t) && |lit| > 0 && !IsDigit(lit[0])
    requires LitAt(line, p, t + (lit + rest))
    ensures TokenThen(line, p, lit) == Some(p + |t|) && line[p..p + |t|] == t
    ensures LitAt(line, p + |t| + |lit|, rest)
  {
    LitSplit(line, p, t, lit + rest);
    LitSplit(line, p + |t|, lit, rest);
    TokenBefore(line, p, t, lit);
    assert line[p..p + |t|] == t;
  }

  /** `<t>)` at `q`: the last group of a call. */
  lemma LastFactor(line: string, q: nat, t: string)
    requires DecimalShape(t) && LitAt(line, q, t + ")")
    ensures TokenThen(line, q, ")") == Some(q + |t|) && line[q..q + |t|] == t
  {
    assert t + ")" == t + (")" + "");
    TokenThenAt(line, q, t, ")", "");
  }

  /** Where a group at `p` is followed by `lit`, it is not followed by a literal
      that starts differently. */
  lemma TokenThenOther(line: string, p: nat, lit: string, other: string)
    requires TokenThen(line, p, lit).Some? && |lit| > 0 && |other| > 0 && lit[0] != other[0]
    ensures TokenThen(line, p, other).None?
  {
    var d := TokenThen(line, p, lit).value;
    assert line[d] == lit[0];
  }

  /** A call `param1.writeShort(<rest>` at `k`. */
  lemma CallHead(line: string, k: nat, rest: string)
    requires LitAt(line, k, "param1.writeShort(" + rest)
    ensures WildAt(line, k, "param1.writeShort(") && LitAt(line, k + 18, rest)
  {
    LitSplit(line, k, "param1.writeShort(", rest);
    LitIsWild(line, k, "param1.writeShort(");
  }

  /** A token whose second character is no `x`, at `k + 18` and followed by
      `rest`, which starts with a space: the character at `k + 19` is no `x`. */
  lemma SecondCharNotX(line: string, k: nat, t: string, rest: string)
    requires |t| > 0 && (|t| == 1 || t[1] != 'x') && |rest| > 0 && rest[0] == ' '
    requires LitAt(line, k + 18, t + rest)
    ensures k + 19 < |line| && line[k + 19] != 'x'
  {
    assert line[k + 19] == (t + rest)[1];
  }

  /** Without an `x` at `k + 19` the hexadecimal shape does not apply. */
  lemma NotHexAt(line: string, k: nat)
    requires k + 19 < |line| && line[k + 19] != 'x'
    ensures ShortHexIdAt(line, k).None?
  {
    assert "param1.writeShort(0x"[19] == 'x';
  }

  /** `writeShort(<v>)` in decimal, after any indentation, gives `v`. */
  lemma DecimalId(pre: string, v: int, post: string)
    requires AllOf(pre, IsSpace)
    ensures ModuleIdOfLine(pre + ("param1.writeShort(" + (IntToken(v) + ")")) + post) == Some(Ok(v))
  {
    var t := IntToken(v);
    TokenShape(v);
    var call := "param1.writeShort(" + (t + ")");
    var line := pre + call + post;
    var k := |pre|;
    forall j | 0 <= j < k ensures ShortIdAt(line, j).None? {
      assert line[j] == pre[j];
    }
    CallIn(pre, call, post);
    DecimalCallAt(line, k, t);
    FirstMatchAt(line, ShortIdAt, k);
    IntTokenRoundTrip(v);
  }

  /** The decimal call `param1.writeShort(<t>)` at `k`. */
  lemma DecimalCallAt(line: string, k: nat, t: string)
    requires DecimalShape(t) && LitAt(line, k, "param1.writeShort(" + (t + ")"))
    ensures ShortIdAt(line, k) == Some(t)
  {
    CallHead(line, k, t + ")");
    LastFactor(line, k + 18, t);
  }

  /** The middle of a line occurs in it. */
  lemma CallIn(pre: string, call: string, post: string)
    ensures LitAt(pre + call + post, |pre|, call)
  {
    var line := pre + call + post;
    forall j | 0 <= j < |call| ensures line[|pre| + j] == call[j] {
    }
  }

  /** The line is `pre`, then `call` starting with `param1.writeShort(`, then
      `post`: no id call starts anywhere but at the end of `pre`, so each shape's
      leftmost match is the one there, if any. */
  lemma CallLine(pre: string, call: string, post: string)
    requires AllOf(pre, IsSpace) && 'p' !in post
    requires |call| > 18 && 'p' !in call[1..]
    ensures var line := pre + call + post;
      LitAt(line, |pre|, call) &&
      FirstMatch(line, ShortIdAt) == ShortIdAt(line, |pre|) &&
      FirstMatch(line, ShortHexIdAt) == ShortHexIdAt(line, |pre|) &&
      FirstMatch(line, ShortProductIdAt) == ShortProductIdAt(line, |pre|) &&
      FirstMatch(line, ShortTripleProductIdAt) == ShortTripleProductIdAt(line, |pre|)
  {
    var line := pre + call + post;
    var k := |pre|;
    CallIn(pre, call, post);
    NoPOutsideCall(pre, call, post);
    OnlyCallStart(line, ShortIdAt, k);
    OnlyCallStart(line, ShortHexIdAt, k);
    OnlyCallStart(line, ShortProductIdAt, k);
    OnlyCallStart(line, ShortTripleProductIdAt, k);
  }

  /** Only the call itself starts with a `p`. */
  lemma NoPOutsideCall(pre: string, call: string, post: string)
    requires AllOf(pre, IsSpace) && 'p' !in post
    requires |call| > 0 && 'p' !in call[1..]
    ensures forall j | 0 <= j < |pre + call + post| && j != |pre| :: (pre + call + post)[j] != 'p'
  {
    var line := pre + call + post;
    var k := |pre|;
    forall j | 0 <= j < |line| && j != k ensures line[j] != 'p' {
      if j < k {
        assert line[j] == pre[j];
      } else if j < k + |call| {
        assert line[j] == call[1..][j - k - 1];
      } else {
        assert line[j] == post[j - k - |call|];
      }
    }
  }

  /** A matcher that only matches at a `p` has its leftmost match at the only `p`. */
  lemma OnlyCallStart<T>(line: string, m: (string, nat) -> Option<T>, k: nat)
    requires k <= |line|
    requires forall j | 0 <= j < |line| && j != k :: line[j] != 'p'
    requires forall j | 0 <= j <= |line| :: m(line, j).Some? ==> j < |line| && line[j] == 'p'
    ensures FirstMatch(line, m) == m(line, k)
  {
    OnlyCandidate(line, m, k);
  }

  /** After its first character a call `param1.writeShort(<rest>` holds a `p`
      only where `rest` does. */
  lemma CallTailNoP(rest: string)
    requires 'p' !in rest
    ensures 'p' !in ("param1.writeShort(" + rest)[1..]
  {
    var call := "param1.writeShort(" + rest;
    assert "param1.writeShort(" == ['p'] + "aram1.writeShort(";
    assert call == ['p'] + ("aram1.writeShort(" + rest);
    assert call[1..] == "aram1.writeShort(" + rest;
  }

  /** `writeShort(0x<h>)` with lower-case hexadecimal digits gives their value. */
  lemma HexId(pre: string, n: nat, post: string)
    requires AllOf(pre, IsSpace) && 'p' !in post
    ensures ModuleIdOfLine(pre + ("param1.writeShort(" + ("0x" + (Render(16, n) + ")"))) + post) == Some(Ok(n))
  {
    var h := Render(16, n);
    assert AllOf(h, IsHexDigit);
    assert 'p' !in "0x" + (h + ")") by {
      forall i | 0 <= i < |h| ensures h[i] != 'p' {
        assert IsHexDigit(h[i]);
      }
    }
    CallTailNoP("0x" + (h + ")"));
    var call := "param1.writeShort(" + ("0x" + (h + ")"));
    CallLine(pre, call, post);
    var line := pre + call + post;
    HexCallAt(line, |pre|, h);
    HexLine(line, h);
    RenderValue(16, n);
  }

  /** A line whose first id shape is the hexadecimal one. */
  lemma HexLine(line: string, h: string)
    requires |h| > 0 && AllOf(h, IsHexDigit)
    requires FirstMatch(line, ShortIdAt).None?
    requires FirstMatch(line, ShortHexIdAt) == Some(h)
    ensures ModuleIdOfLine(line) == Some(Ok(PyHexInt(h)))
  {
  }

  /** A `0x` prefix at `p` is read as the one-digit group `0`, which `x` follows,
      so none of the literals the decimal and product shapes expect follows it. */
  lemma ZeroXNoToken(line: string, p: nat)
    requires LitAt(line, p, "0x")
    ensures TokenThen(line, p, ")").None? && TokenThen(line, p, " * ").None?
  {
    assert line[p] == "0x"[0] && line[p + 1] == "0x"[1];
    SpanExact(line, p, p, IsDash);
    SpanExact(line, p, p + 1, IsDigit);
    assert ")"[0] == ')' && " * "[0] == ' ';
  }

  /** The hexadecimal call `param1.writeShort(0x<h>)` at `k`. */
  lemma HexCallAt(line: string, k: nat, h: string)
    requires |h| > 0 && AllOf(h, IsHexDigit)
    requires LitAt(line, k, "param1.writeShort(" + ("0x" + (h + ")")))
    ensures ShortIdAt(line, k).None? && ShortHexIdAt(line, k) == Some(h)
  {
    CallHead(line, k, "0x" + (h + ")"));
    LitSplit(line, k + 18, "0x", h + ")");
    ZeroXNoToken(line, k + 18);
    HexRunAt(line, k + 20, h);
    HexHead(line, k);
  }

  /** `param1.writeShort(` then `0x`: the head of the hexadecimal shape. */
  lemma HexHead(line: string, k: nat)
    requires WildAt(line, k, "param1.writeShort(") && LitAt(line, k + 18, "0x")
    ensures WildAt(line, k, "param1.writeShort(0x")
  {
    assert line[k + 18] == "0x"[0] && line[k + 19] == "0x"[1];
    forall j | 0 <= j < 18 ensures "param1.writeShort(0x"[j] == "param1.writeShort("[j] {
    }
  }

  /** A run `h` of hexadecimal digits at `p`, closed by `)`. */
  lemma HexRunAt(line: string, p: nat, h: string)
    requires |h| > 0 && AllOf(h, IsHexDigit) && LitAt(line, p, h + ")")
    ensures Span(line, p, IsHexDigit) == p + |h| && line[p..p + |h|] == h && LitAt(line, p + |h|, ")")
  {
    LitSplit(line, p, h, ")");
    forall j | p <= j < p + |h| ensures IsHexDigit(line[j]) {
      assert line[j] == h[j - p];
    }
    assert line[p + |h|] == ")"[0];
    SpanExact(line, p, p + |h|, IsHexDigit);
    assert line[p..p + |h|] == h;
  }

  /** `writeShort(<a> * <b>)` gives the product, e.g. `7 * 3` gives 21. */
  lemma ProductId(pre: string, a: int, b: int, post: string)
    requires AllOf(pre, IsSpace) && 'p' !in post
    ensures ModuleIdOfLine(pre + ("param1.writeShort(" + (IntToken(a) + (" * " + (IntToken(b) + ")")))) + post) ==
      Some(Ok(a * b))
  {
    var ta, tb := IntToken(a), IntToken(b);
    TokenShape(a);
    TokenShape(b);
    var rest := ta + (" * " + (tb + ")"));
    assert 'p' !in rest;
    CallTailNoP(rest);
    var call := "param1.writeShort(" + rest;
    CallLine(pre, call, post);
    var line := pre + call + post;
    ProductCallAt(line, |pre|, ta, tb);
    IntTokenRoundTrip(a);
    IntTokenRoundTrip(b);
    ProductLine(line, ta, tb);
  }

  /** A line whose first id shape is the two-factor product. */
  lemma ProductLine(line: string, ta: string, tb: string)
    requires FirstMatch(line, ShortIdAt).None? && FirstMatch(line, ShortHexIdAt).None?
    requires FirstMatch(line, ShortProductIdAt) == Some((ta, tb))
    ensures ModuleIdOfLine(line) == Some(var x :- IntOf(ta); var y :- IntOf(tb); Ok(x * y))
  {
  }

  /** The product call `param1.writeShort(<ta> * <tb>)` at `k`. */
  lemma ProductCallAt(line: string, k: nat, ta: string, tb: string)
    requires DecimalShape(ta) && DecimalShape(tb) && (|ta| == 1 || ta[1] != 'x')
    requires LitAt(line, k, "param1.writeShort(" + (ta + (" * " + (tb + ")"))))
    ensures ShortIdAt(line, k).None? && ShortHexIdAt(line, k).None?
    ensures ShortProductIdAt(line, k) == Some((ta, tb))
  {
    CallHead(line, k, ta + (" * " + (tb + ")")));
    SecondCharNotX(line, k, ta, " * " + (tb + ")"));
    NotHexAt(line, k);
    TwoTokens(line, k + 18, ta, tb);
    NotDecimalAt(line, k);
    ProductAt(line, k, k + 18 + |ta|, k + 18 + |ta| + 3 + |tb|);
  }

  /** The two groups of the two-factor shape at `k`. */
  lemma ProductAt(line: string, k: nat, d1: nat, d2: nat)
    requires WildAt(line, k, "param1.writeShort(")
    requires TokenThen(line, k + 18, " * ") == Some(d1)
    requires TokenThen(line, d1 + 3, ")") == Some(d2)
    ensures ShortProductIdAt(line, k) == Some((line[k + 18..d1], line[d1 + 3..d2]))
  {
  }

  /** `writeShort(<a> * <b> * <c>)` gives the product, e.g. `2 * 3 * 5` gives 30. */
  lemma TripleProductId(pre: string, a: int, b: int, c: int, post: string)
    requires AllOf(pre, IsSpace) && 'p' !in post
    ensures ModuleIdOfLine(pre + ("param1.writeShort(" + (IntToken(a) + (" * " + (IntToken(b) + (" * " + (IntToken(c) + ")")))))) + post) ==
      Some(Ok(a * b * c))
  {
    var ta, tb, tc := IntToken(a), IntToken(b), IntToken(c);
    TokenShape(a);
    TokenShape(b);
    TokenShape(c);
    var rest := ta + (" * " + (tb + (" * " + (tc + ")"))));
    assert 'p' !in rest;
    CallTailNoP(rest);
    var call := "param1.writeShort(" + rest;
    CallLine(pre, call, post);
    var line := pre + call + post;
    TripleProductCallAt(line, |pre|, ta, tb, tc);
    IntTokenRoundTrip(a);
    IntTokenRoundTrip(b);
    IntTokenRoundTrip(c);
    TripleProductLine(line, ta, tb, tc);
  }

  /** A line whose first id shape is the three-factor product. */
  lemma TripleProductLine(line: string, ta: string, tb: string, tc: string)
    requires FirstMatch(line, ShortIdAt).None? && FirstMatch(line, ShortHexIdAt).None?
    requires FirstMatch(line, ShortProductIdAt).None?
    requires FirstMatch(line, ShortTripleProductIdAt) == Some((ta, tb, tc))
    ensures ModuleIdOfLine(line) == Some(var x :- IntOf(ta); var y :- IntOf(tb); var z :- IntOf(tc); Ok(x * y * z))
  {
  }

  /** The three-factor call `param1.writeShort(<ta> * <tb> * <tc>)` at `k`. */
  lemma TripleProductCallAt(line: string, k: nat, ta: string, tb: string, tc: string)
    requires DecimalShape(ta) && DecimalShape(tb) && DecimalShape(tc) && (|ta| == 1 || ta[1] != 'x')
    requires LitAt(line, k, "param1.writeShort(" + (ta + (" * " + (tb + (" * " + (tc + ")"))))))
    ensures ShortIdAt(line, k).None? && ShortHexIdAt(line, k).None? && ShortProductIdAt(line, k).None?
    ensures ShortTripleProductIdAt(line, k) == Some((ta, tb, tc))
  {
    TripleHead(line, k, ta, tb, tc);
    TripleShapesAt(line, k, k + 18 + |ta|, k + 18 + |ta| + 3 + |tb|, k + 18 + |ta| + 3 + |tb| + 3 + |tc|, ta, tb, tc);
  }

  /** The call `param1.writeShort(<ta> * <tb> * <tc>)` at `k`, read group by group. */
  lemma TripleHead(line: string, k: nat, ta: string, tb: string, tc: string)
    requires DecimalShape(ta) && DecimalShape(tb) && DecimalShape(tc) && (|ta| == 1 || ta[1] != 'x')
    requires LitAt(line, k, "param1.writeShort(" + (ta + (" * " + (tb + (" * " + (tc + ")"))))))
    ensures WildAt(line, k, "param1.writeShort(") && k + 19 < |line| && line[k + 19] != 'x'
    ensures TokenThen(line, k + 18, " * ") == Some(k + 18 + |ta|) && line[k + 18..k + 18 + |ta|] == ta
    ensures TokenThen(line, k + 18 + |ta| + 3, " * ") == Some(k + 18 + |ta| + 3 + |tb|)
    ensures line[k + 18 + |ta| + 3..k + 18 + |ta| + 3 + |tb|] == tb
    ensures TokenThen(line, k + 18 + |ta| + 3 + |tb| + 3, ")") == Some(k + 18 + |ta| + 3 + |tb| + 3 + |tc|)
    ensures line[k + 18 + |ta| + 3 + |tb| + 3..k + 18 + |ta| + 3 + |tb| + 3 + |tc|] == tc
  {
    CallHead(line, k, ta + (" * " + (tb + (" * " + (tc + ")")))));
    SecondCharNotX(line, k, ta, " * " + (tb + (" * " + (tc + ")"))));
    TripleTokens(line, k + 18, ta, tb, tc);
  }

  /** `<ta> * <tb> * <tc>)` at `p`: the three groups and where each one ends. */
  lemma TripleTokens(line: string, p: nat, ta: string, tb: string, tc: string)
    requires DecimalShape(ta) && DecimalShape(tb) && DecimalShape(tc)
    requires LitAt(line, p, ta + (" * " + (tb + (" * " + (tc + ")")))))
    ensures TokenThen(line, p, " * ") == Some(p + |ta|) && line[p..p + |ta|] == ta
    ensures TokenThen(line, p + |ta| + 3, " * ") == Some(p + |ta| + 3 + |tb|)
    ensures line[p + |ta| + 3..p + |ta| + 3 + |tb|] == tb
    ensures TokenThen(line, p + |ta| + 3 + |tb| + 3, ")") == Some(p + |ta| + 3 + |tb| + 3 + |tc|)
    ensures line[p + |ta| + 3 + |tb| + 3..p + |ta| + 3 + |tb| + 3 + |tc|] == tc
  {
    TokenThenAt(line, p, ta, " * ", tb + (" * " + (tc + ")")));
    TwoTokens(line, p + |ta| + 3, tb, tc);
  }

  /** `<ta> * <tb>)` at `p`: the two groups and where each one ends. */
  lemma TwoTokens(line: string, p: nat, ta: string, tb: string)
    requires DecimalShape(ta) && DecimalShape(tb)
    requires LitAt(line, p, ta + (" * " + (tb + ")")))
    ensures TokenThen(line, p, " * ") == Some(p + |ta|) && line[p..p + |ta|] == ta
    ensures TokenThen(line, p + |ta| + 3, ")") == Some(p + |ta| + 3 + |tb|)
    ensures line[p + |ta| + 3..p + |ta| + 3 + |tb|] == tb
  {
    TokenThenAt(line, p, ta, " * ", tb + ")");
    LastFactor(line, p + |ta| + 3, tb);
  }

  /** The three groups `ta`, `tb` and `tc` of the three-factor shape, read at
      `k` and closed at `d1`, `d2` and `d3`; no shorter shape matches there. */
  lemma TripleShapesAt(line: string, k: nat, d1: nat, d2: nat, d3: nat, ta: string, tb: string, tc: string)
    requires WildAt(line, k, "param1.writeShort(") && k + 19 < |line| && line[k + 19] != 'x'
    requires TokenThen(line, k + 18, " * ") == Some(d1) && k + 18 <= d1 && line[k + 18..d1] == ta
    requires TokenThen(line, d1 + 3, " * ") == Some(d2) && d1 + 3 <= d2 && line[d1 + 3..d2] == tb
    requires TokenThen(line, d2 + 3, ")") == Some(d3) && d2 + 3 <= d3 <= |line| && line[d2 + 3..d3] == tc
    ensures ShortIdAt(line, k).None? && ShortHexIdAt(line, k).None? && ShortProductIdAt(line, k).None?
    ensures ShortTripleProductIdAt(line, k) == Some((ta, tb, tc))
  {
    NotHexAt(line, k);
    NotDecimalAt(line, k);
    NotProductAt(line, k, d1);
    TripleAt(line, k, d1, d2, d3);
  }

  /** The three groups of the three-factor shape at `k`. */
  lemma TripleAt(line: string, k: nat, d1: nat, d2: nat, d3: nat)
    requires WildAt(line, k, "param1.writeShort(")
    requires TokenThen(line, k + 18, " * ") == Some(d1)
    requires TokenThen(line, d1 + 3, " * ") == Some(d2)
    requires TokenThen(line, d2 + 3, ")") == Some(d3)
    ensures ShortTripleProductIdAt(line, k) == Some((line[k + 18..d1], line[d1 + 3..d2], line[d2 + 3..d3]))
  {
  }

  /** A first group followed by ` * ` is no decimal id. */
  lemma NotDecimalAt(line: string, k: nat)
    requires k + 18 <= |line| && TokenThen(line, k + 18, " * ").Some?
    ensures ShortIdAt(line, k).None?
  {
    TokenThenOther(line, k + 18, " * ", ")");
  }

  /** A second group followed by ` * ` is no two-factor product. */
  lemma NotProductAt(line: string, k: nat, d1: nat)
    requires TokenThen(line, k + 18, " * ") == Some(d1) && TokenThen(line, d1 + 3, " * ").Some?
    ensures ShortProductIdAt(line, k).None?
  {
    TokenThenOther(line, d1 + 3, " * ", ")");
  }

  /** Upper-case hexadecimal digits are not recognised: `writeShort(0x1F)` gives no id. */
  lemma UpperHexNotRecognised(pre: string, post: string)
    requires AllOf(pre, IsSpace) && 'p' !in post
    ensures ModuleIdOfLine(pre + ("param1.writeShort(" + ("0x" + "1F)")) + post).None?
  {
    var call := "param1.writeShort(" + ("0x" + "1F)");
    CallTailNoP("0x" + "1F)");
    CallLine(pre, call, post);
    var line := pre + call + post;
    UpperHexCallAt(line, |pre|);
  }

  /** No id shape matches `param1.writeShort(0x1F)` at `k`. */
  lemma UpperHexCallAt(line: string, k: nat)
    requires LitAt(line, k, "param1.writeShort(" + ("0x" + "1F)"))
    ensures ShortIdAt(line, k).None? && ShortHexIdAt(line, k).None?
    ensures ShortProductIdAt(line, k).None? && ShortTripleProductIdAt(line, k).None?
  {
    CallHead(line, k, "0x" + "1F)");
    LitSplit(line, k + 18, "0x", "1F)");
    ZeroXNoToken(line, k + 18);
    UpperHexRun(line, k + 20);
  }

  /** `1F)` at `p`: the run of lower-case hexadecimal digits stops before the `F`. */
  lemma UpperHexRun(line: string, p: nat)
    requires LitAt(line, p, "1F)")
    ensures Span(line, p, IsHexDigit) == p + 1 && !LitAt(line, p + 1, ")")
  {
    assert line[p] == "1F)"[0] && line[p + 1] == "1F)"[1];
    SpanExact(line, p, p + 1, IsHexDigit);
    assert ")"[0] == ')';
  }

  /** A literal with two minus signs makes `int()` raise: `writeShort(--5)` is an error. */
  lemma DoubleMinusId(pre: string, n: nat, post: string)
    requires AllOf(pre, IsSpace) && 'p' !in post
    ensures ModuleIdOfLine(pre + ("param1.writeShort(" + ("--" + (Render(10, n) + ")"))) + post) ==
      Some(Err(IntLiteralInvalid("--" + Render(10, n))))
  {
    var ds := Render(10, n);
    assert AllOf(ds, IsDigit);
    assert 'p' !in "--" + (ds + ")") by {
      forall i | 0 <= i < |ds| ensures ds[i] != 'p' {
        assert IsDigit(ds[i]);
      }
    }
    CallTailNoP("--" + (ds + ")"));
    var call := "param1.writeShort(" + ("--" + (ds + ")"));
    CallLine(pre, call, post);
    var line := pre + call + post;
    DoubleMinusCallAt(line, |pre|, ds);
    DoubleMinusRejected("--" + ds);
  }

  /** The call `param1.writeShort(--<ds>)` at `k` matches the decimal shape. */
  lemma DoubleMinusCallAt(line: string, k: nat, ds: string)
    requires |ds| > 0 && AllOf(ds, IsDigit)
    requires LitAt(line, k, "param1.writeShort(" + ("--" + (ds + ")")))
    ensures ShortIdAt(line, k) == Some("--" + ds)
  {
    CallHead(line, k, "--" + (ds + ")"));
    DashesThenDigits(line, k + 18, ds);
  }

  /** `--<ds>)` at `p`: the group read from `p` is `--<ds>`, and `)` follows it. */
  lemma DashesThenDigits(line: string, p: nat, ds: string)
    requires |ds| > 0 && AllOf(ds, IsDigit)
    requires LitAt(line, p, "--" + (ds + ")"))
    ensures TokenThen(line, p, ")") == Some(p + 2 + |ds|) && line[p..p + 2 + |ds|] == "--" + ds
  {
    var e := p + 2 + |ds|;
    LitSplit(line, p, "--", ds + ")");
    LitSplit(line, p + 2, ds, ")");
    assert line[p] == "--"[0] && line[p + 1] == "--"[1];
    forall j | p + 2 <= j < e ensures IsDigit(line[j]) {
      assert line[j] == ds[j - p - 2];
    }
    assert line[e] == ")"[0];
    SpanExact(line, p, p + 2, IsDash);
    SpanExact(line, p + 2, e, IsDigit);
    assert line[p..e] == "--" + ds by {
      forall j | 0 <= j < e - p ensures line[p..e][j] == ("--" + ds)[j] {
        if j < 2 {
          assert line[p + j] == "--"[j];
        } else {
          assert line[p + j] == ds[j - 2];
        }
      }
    }
  }
}
