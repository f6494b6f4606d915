/** What `parse_field_definition` makes of a rotated write, for the shapes the
    client emits: `this.<name>` (then a space for an `int`, `) ` for any other
    type) or an array element `_locN_` (then any closing parentheses and a
    space), the operator, the amount, optionally `% <m>`, and ` |`. */
module ShiftExamples {
  import opened Outcomes
  import opened Text
  import opened Numerals
  import opened Schema
  import opened Patterns
  import opened FieldDefinitions

  /** `count` closing parentheses. */
  function Closers(count: nat): (r: string)
    ensures |r| == count && forall i | 0 <= i < count :: r[i] == ')'
  {
    if count == 0 then "" else Closers(count - 1) + ")"
  }

  /** The array element variable `_loc<i>_`. */
  function LocName(i: nat): string {
    "_loc" + (Render(10, i) + "_")
  }

  /** Where the amount of a rotation written at `p` ends. */
  function AmountEnd(p: nat, d: Direction, n: nat): nat {
    p + |OperatorText(d)| + |Render(10, n)|
  }

  /** The rotation `<op><n> |`, or `<op><n> % <m> |` when `modulus` holds `m`,
      written at `p`. */
  predicate RotationAt(s: string, p: nat, d: Direction, n: nat, modulus: Option<nat>) {
    LitAt(s, p, OperatorText(d)) && LitAt(s, p + |OperatorText(d)|, Render(10, n)) &&
    match modulus
    case None => LitAt(s, AmountEnd(p, d, n), " |")
    case Some(m) =>
      LitAt(s, AmountEnd(p, d, n), " % ") && LitAt(s, AmountEnd(p, d, n) + 3, Render(10, m)) &&
      LitAt(s, AmountEnd(p, d, n) + 3 + |Render(10, m)|, " |")
  }

  /** The decimal rendering of `n` at `a`, then a character that is no digit:
      the run of digits from `a` is that rendering, and its value is `n`. */
  lemma NumberAt(s: string, a: nat, n: nat, after: string)
    requires LitAt(s, a, Render(10, n)) && LitAt(s, a + |Render(10, n)|, after)
    requires |after| > 0 && !IsDigit(after[0])
    ensures Span(s, a, IsDigit) == a + |Render(10, n)| && ValueIn(10, s[a..a + |Render(10, n)|]) == n
  {
    DigitRun(s, a, Render(10, n), after);
    RenderValue(10, n);
  }

  /** `<op><n> |` at `p` reads as the plain rotation by `n`. */
  lemma PlainReads(s: string, p: nat, d: Direction, n: nat)
    requires RotationAt(s, p, d, n, None)
    ensures ShiftTailAt(s, p, false) == Some(Shift(d, n))
  {
    OperatorAt(s, p, d);
    var a := p + |OperatorText(d)|;
    NumberAt(s, a, n, " |");
    PlainTailReads(s, p, d, a, AmountEnd(p, d, n), s[a..AmountEnd(p, d, n)]);
  }

  /** `<op><n> % <m> |` at `p` reads as the rotation by `n`: the modulus is
      matched but not kept. */
  lemma CalculatedReads(s: string, p: nat, d: Direction, n: nat, m: nat)
    requires RotationAt(s, p, d, n, Some(m))
    ensures ShiftTailAt(s, p, true) == Some(Shift(d, n))
  {
    OperatorAt(s, p, d);
    var a := p + |OperatorText(d)|;
    var e := AmountEnd(p, d, n);
    NumberAt(s, a, n, " % ");
    NumberAt(s, e + 3, m, " |");
    CalculatedTailReads(s, p, d, a, e, e + 3 + |Render(10, m)|, s[a..e]);
  }

  /** The rotation written at `p` reads as its direction and amount, the
      pattern tried being the one for a calculated amount exactly when there
      is a modulus. */
  lemma {:induction false} RotationReads(s: string, p: nat, d: Direction, n: nat, modulus: Option<nat>)
    requires RotationAt(s, p, d, n, modulus)
    ensures ShiftTailAt(s, p, modulus.Some?) == Some(Shift(d, n))
  {
    match modulus
    case None => PlainReads(s, p, d, n);
    case Some(m) => CalculatedReads(s, p, d, n, m);
  }

  /** A character of an occurrence is a character of the text. */
  lemma CharOfOccurrence(s: string, k: nat, p: string, c: char)
    requires LitAt(s, k, p) && c in p
    ensures c in s
  {
    var t :| 0 <= t < |p| && p[t] == c;
    assert s[k + t] == c;
  }

  /** A line holding a rotation holds a `|`, and a `%` when there is a modulus. */
  lemma RotationChars(s: string, p: nat, d: Direction, n: nat, modulus: Option<nat>)
    requires RotationAt(s, p, d, n, modulus)
    ensures '|' in s && (modulus.Some? ==> '%' in s)
  {
    match modulus
    case None =>
      assert " |"[1] == '|';
      CharOfOccurrence(s, AmountEnd(p, d, n), " |", '|');
    case Some(m) =>
      assert " % "[1] == '%' && " |"[1] == '|';
      CharOfOccurrence(s, AmountEnd(p, d, n), " % ", '%');
      CharOfOccurrence(s, AmountEnd(p, d, n) + 3 + |Render(10, m)|, " |", '|');
  }

  // ------------------------------------------------------------ this.<name>

  /** `this.<name><close>` at `k`, then the rotation. */
  predicate FieldCallAt(s: string, k: nat, name: string, close: string, d: Direction, n: nat, modulus: Option<nat>) {
    LitAt(s, k, "this.") && LitAt(s, k + 5, name) && LitAt(s, k + 5 + |name|, close) &&
    RotationAt(s, k + 5 + |name| + |close|, d, n, modulus)
  }

  /** With no `th` before `k` and a `t` at `k`, the `this.` pattern matches
      nowhere before `k`. */
  lemma NoThisBefore(line: string, k: nat, close: string, calculated: bool)
    requires k < |line| && line[k] == 't'
    requires forall j | 0 <= j < k :: !LitAt(line, j, "th")
    ensures forall j | 0 <= j < k :: ThisShiftAt(close, calculated, line, j).None?
  {
    forall j | 0 <= j < k ensures ThisShiftAt(close, calculated, line, j).None? {
      if WildAt(line, j, "this.") {
        assert line[j] == "this."[0] && line[j + 1] == "this."[1];
        assert LitAt(line, j, "th");
      }
    }
  }

  /** The `this.` pattern, tried where the call starts, reads the name and the rotation. */
  lemma FieldCallReads(line: string, k: nat, name: string, close: string, d: Direction, n: nat, modulus: Option<nat>)
    requires IsWord(name) && (close == " " || close == ") ")
    requires FieldCallAt(line, k, name, close, d, n, modulus)
    ensures ThisShiftAt(close, modulus.Some?, line, k) == Some((name, Shift(d, n)))
  {
    RotationReads(line, k + 5 + |name| + |close|, d, n, modulus);
    assert close[0] == ' ' || close[0] == ')';
    ThisShiftReads(line, k, name, close, modulus.Some?, Shift(d, n));
  }

  /** A line holding a rotated `this.` call holds a `|`, and a `%` when there is a modulus. */
  lemma FieldCallChars(line: string, k: nat, name: string, close: string, d: Direction, n: nat, modulus: Option<nat>)
    requires FieldCallAt(line, k, name, close, d, n, modulus)
    ensures '|' in line && (modulus.Some? ==> '%' in line) && line[k] == 't'
  {
    RotationChars(line, k + 5 + |name| + |close|, d, n, modulus);
    assert line[k] == "this."[0];
  }

  /** The `this.` pattern for `fieldType` matching at `k` and nowhere before:
      the line reads as that name and rotation, when its `%` agrees with the
      pattern tried. */
  lemma FieldMatchRead(line: string, k: nat, fieldType: string, calculated: bool, name: string, sh: Shift)
    requires fieldType !in UnshiftableTypes && fieldType != "arrayOfPrimitives"
    requires k <= |line| && ShiftMatcher(fieldType, calculated)(line, k) == Some((name, sh))
    requires forall j | 0 <= j < k :: ShiftMatcher(fieldType, calculated)(line, j).None?
    requires ('%' in line) == calculated && '|' in line
    ensures ParseFieldDefinition(line, fieldType) == Ok(FieldDefinition(name, fieldType, Some(sh)))
  {
    FirstMatchAt(line, ShiftMatcher(fieldType, calculated), k);
  }

  /** A rotated `this.<name>` write reads as that name, the operator's
      direction (`>>>` right, `<<` left) and the literal amount right after the
      operator, whether or not a `% <m>` follows it; the type is kept. Any type
      but `boolean`, `double`, `float`, `utf` and `arrayOfPrimitives` is read
      this way, with a space after the name for an `int` and `) ` otherwise. */
  lemma {:induction false} FieldRotationRead(
    line: string, k: nat, fieldType: string, name: string, d: Direction, n: nat, modulus: Option<nat>)
    requires fieldType !in UnshiftableTypes && fieldType != "arrayOfPrimitives"
    requires IsWord(name) && FieldCallAt(line, k, name, if fieldType == "int" then " " else ") ", d, n, modulus)
    requires forall j | 0 <= j < k :: !LitAt(line, j, "th")
    requires modulus.None? ==> '%' !in line
    ensures ParseFieldDefinition(line, fieldType) == Ok(FieldDefinition(name, fieldType, Some(Shift(d, n))))
  {
    var close := if fieldType == "int" then " " else ") ";
    FieldCallReads(line, k, name, close, d, n, modulus);
    FieldCallChars(line, k, name, close, d, n, modulus);
    NoThisBefore(line, k, close, modulus.Some?);
    FieldMatchRead(line, k, fieldType, modulus.Some?, name, Shift(d, n));
  }

  // ------------------------------------------------------------ _loc<i>_

  /** Where the `_` that closes a variable `_loc<i>_` written at `k` sits. */
  function LocEnd(k: nat, i: nat): nat {
    k + 4 + |Render(10, i)|
  }

  /** `_loc<i>_` at `k`, `parens` closing parentheses, a space, then the rotation. */
  predicate ElementCallAt(s: string, k: nat, i: nat, parens: nat, d: Direction, n: nat, modulus: Option<nat>) {
    LitAt(s, k, "_loc") && LitAt(s, k + 4, Render(10, i)) && LitAt(s, LocEnd(k, i), "_") &&
    LitAt(s, LocEnd(k, i) + 1, Closers(parens)) && LitAt(s, LocEnd(k, i) + 1 + parens, " ") &&
    RotationAt(s, LocEnd(k, i) + 1 + parens + 1, d, n, modulus)
  }

  /** The pieces of the element pattern, found: the variable `_loc<digits>_`
      ending at `e`, closing parentheses up to `r`, a space and the rotation. */
  lemma LocShiftFrom(line: string, k: nat, e: nat, r: nat, calculated: bool, sh: Shift)
    requires LitAt(line, k, "_loc") && k + 4 < e && Span(line, k + 4, IsDigit) == e && LitAt(line, e, "_")
    requires Span(line, e + 1, IsCloseParen) == r && LitAt(line, r, " ")
    requires ShiftTailAt(line, r + 1, calculated) == Some(sh)
    ensures LocShiftAt(calculated, line, k) == Some((line[k..e + 1], sh))
  {
  }

  /** `parens` closing parentheses at `p`, then a space: the run of them ends at the space. */
  lemma ParensRun(line: string, p: nat, parens: nat)
    requires LitAt(line, p, Closers(parens)) && LitAt(line, p + parens, " ")
    ensures Span(line, p, IsCloseParen) == p + parens
  {
    var ps := Closers(parens);
    forall j | p <= j < p + parens ensures IsCloseParen(line[j]) {
      assert line[j] == ps[j - p];
    }
    assert line[p + parens] == " "[0];
    SpanExact(line, p, p + parens, IsCloseParen);
  }

  /** The variable `_loc<i>_` written at `k` is the text from `k` to its closing `_`. */
  lemma LocText(line: string, k: nat, i: nat)
    requires LitAt(line, k, "_loc") && LitAt(line, k + 4, Render(10, i)) && LitAt(line, LocEnd(k, i), "_")
    ensures line[k..LocEnd(k, i) + 1] == LocName(i)
  {
    var loc := LocName(i);
    forall t | 0 <= t < |loc| ensures line[k + t] == loc[t] {
      if t < 4 {
        assert loc[t] == "_loc"[t];
      } else if t < 4 + |Render(10, i)| {
        assert loc[t] == Render(10, i)[t - 4];
      } else {
        assert loc[t] == "_"[0];
      }
    }
  }

  /** The variable of an element call: its digits run to the `_` that closes it. */
  lemma ElementHead(line: string, k: nat, i: nat, parens: nat, d: Direction, n: nat, modulus: Option<nat>)
    requires ElementCallAt(line, k, i, parens, d, n, modulus)
    ensures k + 4 < LocEnd(k, i) && Span(line, k + 4, IsDigit) == LocEnd(k, i)
    ensures line[k..LocEnd(k, i) + 1] == LocName(i)
  {
    NumberAt(line, k + 4, i, "_");
    LocText(line, k, i);
  }

  /** What follows the variable of an element call: the closing parentheses
      run to the space, and the rotation after it reads as written. */
  lemma ElementTail(line: string, k: nat, i: nat, parens: nat, d: Direction, n: nat, modulus: Option<nat>)
    requires ElementCallAt(line, k, i, parens, d, n, modulus)
    ensures Span(line, LocEnd(k, i) + 1, IsCloseParen) == LocEnd(k, i) + 1 + parens
    ensures ShiftTailAt(line, LocEnd(k, i) + 1 + parens + 1, modulus.Some?) == Some(Shift(d, n))
  {
    ParensRun(line, LocEnd(k, i) + 1, parens);
    RotationReads(line, LocEnd(k, i) + 1 + parens + 1, d, n, modulus);
  }

  /** The element pattern, tried where the element call starts, reads the
      variable and the rotation. */
  lemma ElementCallReads(line: string, k: nat, i: nat, parens: nat, d: Direction, n: nat, modulus: Option<nat>)
    requires ElementCallAt(line, k, i, parens, d, n, modulus)
    ensures LocShiftAt(modulus.Some?, line, k) == Some((LocName(i), Shift(d, n)))
  {
    ElementHead(line, k, i, parens, d, n, modulus);
    ElementTail(line, k, i, parens, d, n, modulus);
    LocShiftFrom(line, k, LocEnd(k, i), LocEnd(k, i) + 1 + parens, modulus.Some?, Shift(d, n));
  }

  /** Without a `_` before `k`, the element pattern matches nowhere before `k`. */
  lemma NoLocBefore(line: string, k: nat, calculated: bool)
    requires k <= |line| && forall j | 0 <= j < k :: line[j] != '_'
    ensures forall j | 0 <= j < k :: LocShiftAt(calculated, line, j).None?
  {
    forall j | 0 <= j < k ensures LocShiftAt(calculated, line, j).None? {
      assert !LitAt(line, j, "_loc") by {
        assert "_loc"[0] == '_';
      }
    }
  }

  /** The element pattern matching at `k` and nowhere before: the line reads as
      that variable and rotation, when its `%` agrees with the pattern tried. */
  lemma ElementMatchRead(line: string, k: nat, calculated: bool, loc: string, sh: Shift)
    requires LocShiftAt(calculated, line, k) == Some((loc, sh))
    requires forall j | 0 <= j < k :: line[j] != '_'
    requires ('%' in line) == calculated && '|' in line
    ensures ParseFieldDefinition(line, "arrayOfPrimitives") == Ok(FieldDefinition(loc, "arrayOfPrimitives", Some(sh)))
  {
    NoLocBefore(line, k, calculated);
    FirstMatchAt(line, ShiftMatcher("arrayOfPrimitives", calculated), k);
  }

  /** A rotated element of an array of primitives, `_loc<i>_` followed by
      `parens` closing parentheses, reads as that variable, the operator's
      direction and the literal amount right after the operator, provided no
      `_` comes before it and, for a plain amount, the line holds no `%`. */
  lemma {:induction false} ElementRotationRead(
    line: string, k: nat, i: nat, parens: nat, d: Direction, n: nat, modulus: Option<nat>)
    requires ElementCallAt(line, k, i, parens, d, n, modulus)
    requires forall j | 0 <= j < k :: line[j] != '_'
    requires modulus.None? ==> '%' !in line
    ensures ParseFieldDefinition(line, "arrayOfPrimitives") ==
      Ok(FieldDefinition(LocName(i), "arrayOfPrimitives", Some(Shift(d, n))))
  {
    ElementCallReads(line, k, i, parens, d, n, modulus);
    RotationChars(line, LocEnd(k, i) + 1 + parens + 1, d, n, modulus);
    ElementMatchRead(line, k, modulus.Some?, LocName(i), Shift(d, n));
  }
}
