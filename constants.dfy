/** `parse_constants`: the `const const_N:int = V` declarations of a class. */
module Constants {
  import opened Outcomes
  import opened Text
  import opened Schema
  import opened Patterns

  /** A line that declares a constant: it holds `const const`. */
  predicate IsConstantLine(line: string) {
    Contains(line, "const const")
  }

  /** What one line contributes: nothing, one `int` constant, or the reason it is refused. */
  function ConstantOfLine(line: string): (r: Result<Option<Constant>, ParseError>)
    ensures r == Ok(None) <==> !IsConstantLine(line)
    ensures r.Ok? && r.value.Some? ==>
      r.value.value.valueType == "int" && IsWord(r.value.value.name) && IsWord(r.value.value.value)
    ensures r == Err(ConstantMalformed(line)) <==> IsConstantLine(line) && FirstMatch(line, ConstDeclAt).None?
    ensures r.Err? ==> r.error == ConstantMalformed(line) || r.error.ConstantTypeUnknown?
    ensures r.Ok? && r.value.Some? ==>
      var (name, valueType, value) := FirstMatch(line, ConstDeclAt).value;
      r.value.value == Constant(name, valueType, value)
    ensures r.Err? && r.error.ConstantTypeUnknown? <==>
      IsConstantLine(line) && FirstMatch(line, ConstDeclAt).Some? && FirstMatch(line, ConstDeclAt).value.1 != "int"
    ensures r.Err? && r.error.ConstantTypeUnknown? ==>
      r.error == ConstantTypeUnknown(FirstMatch(line, ConstDeclAt).value.1, line)
  {
    if !IsConstantLine(line) then Ok(None)
    else
      match FirstMatch<(string, string, string)>(line, ConstDeclAt)
      case None => Err(ConstantMalformed(line))
      case Some((name, valueType, value)) =>
        if valueType != "int" then Err(ConstantTypeUnknown(valueType, line))
        else Ok(Some(Constant(name, valueType, value)))
  }

  /** A `const const` line whose first ` const ` starts `<name>:<type> = <value>`
      gives that constant when the type is `int`, with the value kept as the
      token written, and is refused naming the type otherwise. */
  lemma ConstantLineReads(pre: string, name: string, valueType: string, value: string, post: string)
    requires IsWord(name) && IsWord(valueType) && IsWord(value)
    requires post == "" || !IsWordChar(post[0])
    requires IsConstantLine(pre + " const " + name + ":" + valueType + " = " + value + post)
    requires forall j | 0 <= j < |pre| :: !LitAt(pre + " const " + name + ":" + valueType + " = " + value + post, j, " const ")
    ensures ConstantOfLine(pre + " const " + name + ":" + valueType + " = " + value + post) ==
      if valueType == "int" then Ok(Some(Constant(name, "int", value)))
      else Err(ConstantTypeUnknown(valueType, pre + " const " + name + ":" + valueType + " = " + value + post))
  {
    var line := pre + " const " + name + ":" + valueType + " = " + value + post;
    DeclPieces(pre, name, valueType, value, post);
    DeclAt(line, |pre|, name, valueType, value);
    NoDeclBefore(line, |pre|);
    FirstMatchAt(line, ConstDeclAt, |pre|);
  }

  /** The declaration pattern cannot start where ` const ` is not written. */
  lemma NoDeclBefore(line: string, k: nat)
    requires forall j | 0 <= j < k :: !LitAt(line, j, " const ")
    ensures forall j | 0 <= j < k :: ConstDeclAt(line, j).None?
  {
  }

  /** The declaration pattern reads the three words written at `k`. */
  lemma DeclAt(line: string, k: nat, name: string, valueType: string, value: string)
    requires IsWord(name) && IsWord(valueType) && IsWord(value)
    requires var a := k + 7; var b := a + |name| + 1; var c := b + |valueType| + 3;
      LitAt(line, k, " const ") && LitAt(line, a, name) && LitAt(line, a + |name|, ":") &&
      LitAt(line, b, valueType) && LitAt(line, b + |valueType|, " = ") && LitAt(line, c, value) &&
      (c + |value| == |line| || !IsWordChar(line[c + |value|]))
    ensures ConstDeclAt(line, k) == Some((name, valueType, value))
  {
    var a := k + 7;
    var b := a + |name| + 1;
    var c := b + |valueType| + 3;
    assert line[a + |name|] == ":"[0];
    assert line[b + |valueType|] == " = "[0];
    SpanOver(line, a, name, IsWordChar);
    SpanOver(line, b, valueType, IsWordChar);
    SpanOver(line, c, value, IsWordChar);
  }

  /** Where each piece of a constant declaration line sits. */
  lemma DeclPieces(pre: string, name: string, valueType: string, value: string, post: string)
    requires |name| > 0 && |valueType| > 0 && |value| > 0
    ensures var line := pre + " const " + name + ":" + valueType + " = " + value + post;
      var a := |pre| + 7;
      var b := a + |name| + 1;
      var c := b + |valueType| + 3;
      LitAt(line, |pre|, " const ") && LitAt(line, a, name) && LitAt(line, a + |name|, ":") &&
      LitAt(line, b, valueType) && LitAt(line, b + |valueType|, " = ") && LitAt(line, c, value) &&
      |line| == c + |value| + |post| && (post != "" ==> line[c + |value|] == post[0])
  {
    var line := pre + " const " + name + ":" + valueType + " = " + value + post;
    assert line == pre + (" const " + (name + (":" + (valueType + (" = " + (value + post))))));
    var a := |pre| + 7;
    var b := a + |name| + 1;
    var c := b + |valueType| + 3;
    forall j | 0 <= j < 7 ensures line[|pre| + j] == " const "[j] { }
    forall j | 0 <= j < |name| ensures line[a + j] == name[j] { }
    forall j | 0 <= j < |valueType| ensures line[b + j] == valueType[j] { }
    forall j | 0 <= j < 3 ensures line[b + |valueType| + j] == " = "[j] { }
    forall j | 0 <= j < |value| ensures line[c + j] == value[j] { }
  }

  /** The constants of `lines` in line order, or the error of the first line that is refused. */
  function Constants(lines: seq<string>): (r: Result<seq<Constant>, ParseError>)
    ensures r.Ok? ==> forall c | c in r.value :: c.valueType == "int" && IsWord(c.name) && IsWord(c.value)
    ensures r.Ok? ==> |r.value| <= |lines|
  {
    if |lines| == 0 then Ok([])
    else
      match ConstantOfLine(lines[0])
      case Err(e) => Err(e)
      case Ok(None) => Constants(lines[1..])
      case Ok(Some(c)) => Prepend([c], Constants(lines[1..]))
  }

  lemma ConstantsUnfold(lines: seq<string>)
    requires |lines| > 0
    ensures Constants(lines) ==
      match ConstantOfLine(lines[0])
      case Err(e) => Err(e)
      case Ok(None) => Constants(lines[1..])
      case Ok(Some(c)) => Prepend([c], Constants(lines[1..]))
  {
  }

  /** `parse_constants`: one pass over the lines, appending each constant. */
  method ParseConstants(body: seq<string>) returns (r: Result<seq<Constant>, ParseError>)
    ensures r == Constants(body)
  {
    var constants: seq<Constant> := [];
    var i := 0;
    assert body[0..] == body;
    PrependNothing(Constants(body));
    while i < |body|
      invariant 0 <= i <= |body|
      invariant Constants(body) == Prepend(constants, Constants(body[i..]))
    {
      var line := body[i];
      ConstantsUnfold(body[i..]);
      assert body[i..][0] == line && body[i..][1..] == body[i + 1..];
      if Contains(line, "const const") {
        var res := FirstMatch(line, ConstDeclAt);
        if res.None? {
          return Err(ConstantMalformed(line));
        }
        if res.value.1 != "int" {
          return Err(ConstantTypeUnknown(res.value.1, line));
        }
        var constant := Constant(res.value.0, res.value.1, res.value.2);
        assert ConstantOfLine(line) == Ok(Some(constant));
        PrependTwice(constants, [constant], Constants(body[i + 1..]));
        constants := constants + [constant];
      } else {
        assert ConstantOfLine(line) == Ok(None);
      }
      i := i + 1;
    }
    assert body[i..] == [];
    assert constants + [] == constants;
    return Ok(constants);
  }

  /** How many lines declare a constant. */
  function CountConstantLines(lines: seq<string>): nat {
    if |lines| == 0 then 0
    else (if IsConstantLine(lines[0]) then 1 else 0) + CountConstantLines(lines[1..])
  }

  /** On success there is exactly one constant per `const const` line. */
  lemma {:induction false} ConstantsCount(lines: seq<string>)
    requires Constants(lines).Ok?
    ensures |Constants(lines).value| == CountConstantLines(lines)
  {
    if |lines| > 0 {
      ConstantsCount(lines[1..]);
    }
  }

  /** A body in which no line is refused parses. */
  lemma {:induction false} ConstantsNoRefusal(lines: seq<string>)
    requires forall i | 0 <= i < |lines| :: ConstantOfLine(lines[i]).Ok?
    ensures Constants(lines).Ok?
  {
    if |lines| > 0 {
      assert forall i | 1 <= i < |lines| :: lines[1..][i - 1] == lines[i];
      ConstantsNoRefusal(lines[1..]);
    }
  }

  /** The parse fails with the error of the first refused line. */
  lemma {:induction false} ConstantsFirstRefusal(lines: seq<string>, i: nat)
    requires i < |lines| && ConstantOfLine(lines[i]).Err?
    requires forall j | 0 <= j < i :: ConstantOfLine(lines[j]).Ok?
    ensures Constants(lines) == Err(ConstantOfLine(lines[i]).error)
  {
    if i > 0 {
      var rest := lines[1..];
      forall j | 0 <= j < i - 1 ensures ConstantOfLine(rest[j]).Ok? {
        assert rest[j] == lines[j + 1];
      }
      assert rest[i - 1] == lines[i];
      ConstantsFirstRefusal(rest, i - 1);
      assert ConstantOfLine(lines[0]).Ok?;
    }
  }

  /** Lines are read independently: the constants of two blocks of lines are
      those of the first block followed by those of the second. */
  lemma {:induction false} ConstantsAppend(a: seq<string>, b: seq<string>)
    requires Constants(a).Ok?
    ensures Constants(a + b) == Prepend(Constants(a).value, Constants(b))
  {
    if |a| == 0 {
      assert a + b == b;
      PrependNothing(Constants(b));
    } else {
      ConstantsAppend(a[1..], b);
      ConstantsAppendStep(a, b);
    }
  }

  /** The step of `ConstantsAppend`: once it holds for the lines after the
      first, it holds with the first line put back. */
  lemma ConstantsAppendStep(a: seq<string>, b: seq<string>)
    requires |a| > 0 && Constants(a).Ok? && Constants(a[1..]).Ok?
    requires Constants(a[1..] + b) == Prepend(Constants(a[1..]).value, Constants(b))
    ensures Constants(a + b) == Prepend(Constants(a).value, Constants(b))
  {
    var ab := a + b;
    TailOfAppend(a, b);
    ConstantsUnfold(ab);
    ConstantsUnfold(a);
    AddLineAppend(ConstantOfLine(a[0]), Constants(a[1..]), Constants(b), Constants(a), Constants(ab));
  }

  /** The same step for whatever the first line gives: `whole` is the parse of
      the lines and `joined` that of the lines followed by more. */
  lemma AddLineAppend(
    first: Result<Option<Constant>, ParseError>, rest: Result<seq<Constant>, ParseError>,
    more: Result<seq<Constant>, ParseError>, whole: Result<seq<Constant>, ParseError>,
    joined: Result<seq<Constant>, ParseError>)
    requires rest.Ok? && whole.Ok?
    requires whole == match first
      case Err(e) => Err(e)
      case Ok(None) => rest
      case Ok(Some(c)) => Prepend([c], rest)
    requires joined == match first
      case Err(e) => Err(e)
      case Ok(None) => Prepend(rest.value, more)
      case Ok(Some(c)) => Prepend([c], Prepend(rest.value, more))
    ensures joined == Prepend(whole.value, more)
  {
    if first.Ok? && first.value.Some? {
      PrependTwice([first.value.value], rest.value, more);
    }
  }
}
