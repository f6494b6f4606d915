/** `parse_field_definition` and its three helpers: the name a write call
    writes and, for a rotated value, the rotation the client applies to it. */
module FieldDefinitions {
  import opened Outcomes
  import opened Text
  import opened Numerals
  import opened Schema
  import opened Patterns

  /** `KNOWN_TYPES`: the writer suffixes, lower-cased, that a single-line write may use. */
  const KnownTypes: seq<string> := ["boolean", "byte", "double", "float", "int", "short", "utf"]

  /** `UNSHIFTABLE_TYPES`: the types that are never read as rotated. */
  const UnshiftableTypes: seq<string> := ["boolean", "double", "float", "utf"]

  /** The pattern `parse_field_definition_shifted` looks for: after `this.<name>`
      an `int` is followed by a space and any other type by `) `; an array
      element is a `_locN_` followed by closing parentheses. A `short` has a
      branch of its own in the parser, with the same pattern as the default. */
  function ShiftMatcher(fieldType: string, calculated: bool): (string, nat) -> Option<(string, Shift)> {
    if fieldType == "int" then (s: string, k: nat) => ThisShiftAt(" ", calculated, s, k)
    else if fieldType == "arrayOfPrimitives" then (s: string, k: nat) => LocShiftAt(calculated, s, k)
    else (s: string, k: nat) => ThisShiftAt(") ", calculated, s, k)
  }

  /** `parse_field_definition_shifted(line, field_type)`: the amount is calculated
      when the line holds a `%`, and then a `% <n>` sits between the amount and the `|`. */
  function ParseFieldDefinitionShifted(line: string, fieldType: string): (r: Result<FieldDefinition, ParseError>)
    ensures r.Ok? ==> r.value.fieldType == fieldType && r.value.shift.Some?
    ensures r.Err? <==> FirstMatch(line, ShiftMatcher(fieldType, '%' in line)).None?
    ensures r.Err? ==> r.error == ShiftNotFound(line)
  {
    match FirstMatch<(string, Shift)>(line, ShiftMatcher(fieldType, '%' in line))
    case None => Err(ShiftNotFound(line))
    case Some((name, shift)) => Ok(FieldDefinition(name, fieldType, Some(shift)))
  }

  /** The pattern `parse_field_definition_unshifted` looks for: `param1.write<T>(_locN_)`
      for an array element and `param1.write<T>(this.<name>)` for any other type. */
  function NameMatcher(fieldType: string): (string, nat) -> Option<string> {
    if fieldType == "arrayOfPrimitives" then LocWriteAt else ThisWriteAt
  }

  /** `parse_field_definition_unshifted(line, field_type)`: the name is what the
      leftmost match of the type's pattern captures. */
  function ParseFieldDefinitionUnshifted(line: string, fieldType: string): (r: Result<FieldDefinition, ParseError>)
    ensures r.Ok? ==> r.value.fieldType == fieldType && r.value.shift.None?
    ensures r.Ok? ==> FirstMatch(line, NameMatcher(fieldType)) == Some(r.value.name)
    ensures r.Ok? && fieldType != "arrayOfPrimitives" ==> IsWord(r.value.name)
    ensures r.Err? <==> FirstMatch(line, NameMatcher(fieldType)).None?
    ensures r.Err? ==> r.error == NameNotFound(line)
  {
    match FirstMatch(line, NameMatcher(fieldType))
    case None => Err(NameNotFound(line))
    case Some(n) =>
      assert fieldType != "arrayOfPrimitives" ==> IsWord(n) by {
        if fieldType != "arrayOfPrimitives" {
          var f := Search(line, 0, ThisWriteAt).value;
          ThisWriteWord(line, f.at);
        }
      }
      Ok(FieldDefinition(n, fieldType, None))
  }

  /** What `param1.write\w+\(this.(\w+)\)` captures is a word. */
  lemma ThisWriteWord(s: string, k: nat)
    requires ThisWriteAt(s, k).Some?
    ensures IsWord(ThisWriteAt(s, k).value)
  {
    var e := Span(s, k + 12, IsWordChar);
    var w := Span(s, e + 6, IsWordChar);
    SpanAll(s, e + 6, IsWordChar);
    assert ThisWriteAt(s, k).value == s[e + 6..w];
  }

  /** A line without `|`, `<` or `>` whose first `param1` starts
      `param1.write<T>(this.<name>)` is read as an unrotated value named `<name>`,
      whatever field type other than an array element it is given. */
  lemma PlainWriteReads(pre: string, writer: string, name: string, post: string, fieldType: string)
    requires IsWord(writer) && IsWord(name) && fieldType != "arrayOfPrimitives"
    requires !HasShiftChar(pre + "param1.write" + writer + "(this." + name + ")" + post)
    requires forall j | 0 <= j < |pre| :: !LitAt(pre + "param1.write" + writer + "(this." + name + ")" + post, j, "param1")
    ensures ParseFieldDefinition(pre + "param1.write" + writer + "(this." + name + ")" + post, fieldType) ==
      Ok(FieldDefinition(name, fieldType, None))
  {
    var line := pre + "param1.write" + writer + "(this." + name + ")" + post;
    WritePieces(pre, writer, name, post);
    ThisWriteReads(line, |pre|, writer, name);
    NoWriteBefore(line, |pre|);
    FirstMatchAt(line, ThisWriteAt, |pre|);
  }

  /** Where each piece of a plain write line sits. */
  lemma WritePieces(pre: string, writer: string, name: string, post: string)
    ensures var line := pre + "param1.write" + writer + "(this." + name + ")" + post;
      var e := |pre| + 12 + |writer|;
      LitAt(line, |pre|, "param1.write") && LitAt(line, |pre| + 12, writer) && LitAt(line, e, "(this.") &&
      LitAt(line, e + 6, name) && LitAt(line, e + 6 + |name|, ")")
  {
    var line := pre + "param1.write" + writer + "(this." + name + ")" + post;
    assert line == pre + ("param1.write" + (writer + ("(this." + (name + (")" + post)))));
    var e := |pre| + 12 + |writer|;
    forall j | 0 <= j < 12 ensures line[|pre| + j] == "param1.write"[j] { }
    forall j | 0 <= j < |writer| ensures line[|pre| + 12 + j] == writer[j] { }
    forall j | 0 <= j < 6 ensures line[e + j] == "(this."[j] { }
    forall j | 0 <= j < |name| ensures line[e + 6 + j] == name[j] { }
    assert line[e + 6 + |name|] == ')';
  }

  /** The plain `this.` pattern reads the name written at `k`. */
  lemma ThisWriteReads(line: string, k: nat, writer: string, name: string)
    requires IsWord(writer) && IsWord(name)
    requires var e := k + 12 + |writer|;
      LitAt(line, k, "param1.write") && LitAt(line, k + 12, writer) && LitAt(line, e, "(this.") &&
      LitAt(line, e + 6, name) && LitAt(line, e + 6 + |name|, ")")
    ensures ThisWriteAt(line, k) == Some(name)
  {
    var e := k + 12 + |writer|;
    LitIsWild(line, k, "param1.write");
    LitIsWild(line, e, "(this.");
    assert line[e] == "(this."[0];
    assert line[e + 6 + |name|] == ")"[0];
    SpanOver(line, k + 12, writer, IsWordChar);
    SpanOver(line, e + 6, name, IsWordChar);
  }

  /** The plain write pattern cannot start before the first `param1`. */
  lemma NoWriteBefore(line: string, k: nat)
    requires forall j | 0 <= j < k :: !LitAt(line, j, "param1")
    ensures forall j | 0 <= j < k :: ThisWriteAt(line, j).None?
  {
    forall j | 0 <= j < k ensures ThisWriteAt(line, j).None? {
      NotWild(line, j);
    }
  }

  /** Where `param1` is not written, the write patterns cannot start. */
  lemma NotWild(line: string, j: nat)
    requires !LitAt(line, j, "param1")
    ensures !WildAt(line, j, "param1.write")
  {
    if WildAt(line, j, "param1.write") {
      forall t | 0 <= t < 6 ensures line[j + t] == "param1"[t] {
        assert "param1.write"[t] == "param1"[t] && "param1.write"[t] != '.';
      }
      assert false;
    }
  }

  /** `parse_field_definition_shiftable(line, field_type)`: a line with one of
      `|`, `<`, `>` is read as rotated. */
  function ParseFieldDefinitionShiftable(line: string, fieldType: string): (r: Result<FieldDefinition, ParseError>)
    ensures r.Ok? ==> r.value.fieldType == fieldType
    ensures r.Ok? ==> (r.value.shift.Some? <==> HasShiftChar(line))
    ensures r.Err? ==> r.error == (if HasShiftChar(line) then ShiftNotFound(line) else NameNotFound(line))
  {
    if HasShiftChar(line) then ParseFieldDefinitionShifted(line, fieldType)
    else ParseFieldDefinitionUnshifted(line, fieldType)
  }

  /** `parse_field_definition(line, field_type)`: the type is kept; only a type
      outside `UNSHIFTABLE_TYPES` on a line with `|`, `<` or `>` gets a rotation,
      and which error a refused line gives follows the same split. */
  function ParseFieldDefinition(line: string, fieldType: string): (r: Result<FieldDefinition, ParseError>)
    ensures r.Ok? ==> r.value.fieldType == fieldType
    ensures r.Ok? ==> (r.value.shift.Some? <==> fieldType !in UnshiftableTypes && HasShiftChar(line))
    ensures r.Err? ==>
      r.error == (if fieldType !in UnshiftableTypes && HasShiftChar(line) then ShiftNotFound(line) else NameNotFound(line))
  {
    if fieldType in UnshiftableTypes then ParseFieldDefinitionUnshifted(line, fieldType)
    else ParseFieldDefinitionShiftable(line, fieldType)
  }

  /** `boolean`, `double`, `float` and `utf` values are never rotated, whatever the line holds. */
  lemma UnshiftableNeverRotated(line: string, fieldType: string)
    requires fieldType in ["boolean", "double", "float", "utf"]
    ensures ParseFieldDefinition(line, fieldType) == ParseFieldDefinitionUnshifted(line, fieldType)
    ensures ParseFieldDefinition(line, fieldType).Ok? ==> ParseFieldDefinition(line, fieldType).value.shift.None?
  {
  }

  // ------------------------------------------------------------ the rotation

  /** How the parser's output names each operator. */
  function OperatorText(d: Direction): string {
    match d
    case Right => ">>> "
    case Left => "<< "
  }

  /** `>>> ` reads as right and `<< ` as left. */
  lemma OperatorAt(s: string, p: nat, d: Direction)
    requires LitAt(s, p, OperatorText(d))
    ensures ShiftOpAt(s, p) == Some((d, p + |OperatorText(d)|))
  {
    if d == Left {
      assert s[p] == "<< "[0];
      assert ">>> "[0] == '>';
    }
  }

  /** Digits `ds` at `a` followed by `after`, which starts with a non-digit: the
      run of digits from `a` is exactly `ds`. */
  lemma DigitRun(s: string, a: nat, ds: string, after: string)
    requires AllOf(ds, IsDigit) && LitAt(s, a, ds)
    requires LitAt(s, a + |ds|, after) && |after| > 0 && !IsDigit(after[0])
    ensures Span(s, a, IsDigit) == a + |ds| && s[a..a + |ds|] == ds && AllOf(s[a..a + |ds|], IsDigit)
  {
    assert s[a + |ds|] == after[0];
    SpanOver(s, a, ds, IsDigit);
  }

  /** Once the operator, the digits and the ` |` after them are known, the
      plain rotation is the direction and the value of those digits. */
  lemma PlainTailReads(s: string, p: nat, d: Direction, a: nat, e: nat, ds: string)
    requires ShiftOpAt(s, p) == Some((d, a)) && a < e <= |s| && Span(s, a, IsDigit) == e
    requires s[a..e] == ds && LitAt(s, e, " |")
    ensures ShiftTailAt(s, p, false) == Some(Shift(d, ValueIn(10, ds)))
  {
  }

  /** Once the operator, the digits, the ` % ` and the modulus digits ending at
      `m` before a ` |` are known, the calculated rotation is the direction and
      the value of the first digits. */
  lemma CalculatedTailReads(s: string, p: nat, d: Direction, a: nat, e: nat, m: nat, ds: string)
    requires ShiftOpAt(s, p) == Some((d, a)) && a < e <= |s| && Span(s, a, IsDigit) == e
    requires s[a..e] == ds
    requires LitAt(s, e, " % ") && Span(s, e + 3, IsDigit) == m && m > e + 3 && LitAt(s, m, " |")
    ensures ShiftTailAt(s, p, true) == Some(Shift(d, ValueIn(10, ds)))
  {
  }

  /** `this.<name><close>` at `k` with a rotation `sh` right after it: the
      pattern with `close` after the name reads the name and that rotation. */
  lemma ThisShiftReads(line: string, k: nat, name: string, close: string, calculated: bool, sh: Shift)
    requires IsWord(name) && |close| > 0 && !IsWordChar(close[0])
    requires LitAt(line, k, "this.") && LitAt(line, k + 5, name) && LitAt(line, k + 5 + |name|, close)
    requires ShiftTailAt(line, k + 5 + |name| + |close|, calculated) == Some(sh)
    ensures ThisShiftAt(close, calculated, line, k) == Some((name, sh))
  {
    LitIsWild(line, k, "this.");
    assert line[k + 5 + |name|] == close[0];
    SpanOver(line, k + 5, name, IsWordChar);
  }

  /** Whatever rotation the tail pattern reads at `p`, its direction is the
      operator written at `p`: `>>> ` for right and `<< ` for left. */
  lemma TailDirection(s: string, p: nat, calculated: bool)
    requires ShiftTailAt(s, p, calculated).Some?
    ensures LitAt(s, p, OperatorText(ShiftTailAt(s, p, calculated).value.direction))
  {
  }

  /** The direction the `this.` pattern reports is that of the operator written
      right after `this.<name>` and `close`. */
  lemma ThisDirection(close: string, calculated: bool, s: string, k: nat)
    requires ThisShiftAt(close, calculated, s, k).Some?
    ensures var (name, sh) := ThisShiftAt(close, calculated, s, k).value;
      LitAt(s, k + 5 + |name| + |close|, OperatorText(sh.direction))
  {
    var e := Span(s, k + 5, IsWordChar);
    var name := s[k + 5..e];
    var sh := ShiftTailAt(s, e + |close|, calculated).value;
    assert ThisShiftAt(close, calculated, s, k) == Some((name, sh));
    assert k + 5 + |name| + |close| == e + |close|;
    TailDirection(s, e + |close|, calculated);
  }

  /** The direction the `_locN_` pattern reports is that of the operator written
      after the variable's digits, its closing `_`, its run of `)` and a space. */
  lemma LocDirection(calculated: bool, s: string, k: nat)
    requires LocShiftAt(calculated, s, k).Some?
    ensures k + 4 <= |s| &&
      LitAt(s, Span(s, Span(s, k + 4, IsDigit) + 1, IsCloseParen) + 1, OperatorText(LocShiftAt(calculated, s, k).value.1.direction))
  {
    TailDirection(s, Span(s, Span(s, k + 4, IsDigit) + 1, IsCloseParen) + 1, calculated);
  }

  /** A rotated parse maps `>>>` to right and `<<` to left: the direction it
      reports is an operator the line holds. */
  lemma ShiftedDirection(line: string, fieldType: string)
    requires ParseFieldDefinitionShifted(line, fieldType).Ok?
    ensures exists p: nat :: LitAt(line, p, OperatorText(ParseFieldDefinitionShifted(line, fieldType).value.shift.value.direction))
  {
    var calculated := '%' in line;
    var f := Search(line, 0, ShiftMatcher(fieldType, calculated)).value;
    if fieldType == "int" {
      ThisDirection(" ", calculated, line, f.at);
    } else if fieldType == "arrayOfPrimitives" {
      LocDirection(calculated, line, f.at);
    } else {
      ThisDirection(") ", calculated, line, f.at);
    }
  }
}
