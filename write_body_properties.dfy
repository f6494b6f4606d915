/** What `parse_write_body` promises about the list it builds and about the
    lines it refuses, stated over whole bodies. */
module WriteBodyProperties {
  import opened Outcomes
  import opened Text
  import opened Schema
  import opened Patterns
  import opened FieldDefinitions
  import opened WriteBodyParser

  /** One more line the parser accepts: the walk over `body[..i + 1]` is the
      walk over `body[..i]` followed by that line's step. */
  lemma WalkOk(body: seq<string>, i: nat, m: Machine, defs: seq<WriteStep>, m': Machine, out: seq<WriteStep>)
    requires i < |body| && Walk(body[..i]) == Ok((m, defs))
    requires Step(m, body[i]) == Ok((m', out))
    ensures Walk(body[..i + 1]) == Ok((m', defs + out))
  {
    assert body[..i + 1][..i] == body[..i];
  }

  /** A line the parser refuses ends the whole parse with that error. */
  lemma Refused(body: seq<string>, i: nat, m: Machine, defs: seq<WriteStep>, e: ParseError)
    requires i < |body| && Walk(body[..i]) == Ok((m, defs))
    requires Step(m, body[i]) == Err(e)
    ensures WriteBody(body) == Err(e)
  {
    assert body[..i + 1][..i] == body[..i];
    WalkStops(body, i + 1);
  }

  // ------------------------------------------------------------ one line, by state

  lemma BodyStartStep(m: Machine, line: string)
    requires m.state == BodyStart
    ensures Step(m, line) ==
      if Contains(line, "{") then Ok((m.(state := FindPacketId), [])) else Err(UnhandledState("BODY_START"))
  {
  }

  lemma FindPacketIdStep(m: Machine, line: string)
    requires m.state == FindPacketId
    ensures Step(m, line) ==
      if StartsWith(Strip(line), "param1.writeShort") then Ok((m.(state := Body), []))
      else if FirstMatch(Strip(line), LocalVarDeclAt).Some? then Ok((m, []))
      else Err(UnknownText(Strip(line)))
  {
  }

  lemma SkipStep(m: Machine, line: string)
    requires m.state == SkipIfElse
    ensures Step(m, line) == Ok((m.(state := if Find(line, "}") > 0 then Body else SkipIfElse), []))
  {
  }

  lemma ArrayStepIs(m: Machine, line: string)
    requires m.state == ArrayDefinition
    ensures Step(m, line) == ArrayStep(m, Strip(line))
  {
  }

  lemma ForEachStep(m: Machine, line: string)
    requires m.state == Body && Contains(Strip(line), "for each")
    ensures Step(m, line) ==
      if FirstMatch(Strip(line), ForEachFieldAt).None? then Err(ForEachFieldNotFound(Strip(line)))
      else Ok((m.(state := ForEach), []))
  {
  }

  lemma ForEachStays(m: Machine, line: string)
    requires m.state == ForEach
    ensures Step(m, line) == Err(UnhandledState("BODY_FOREACH"))
  {
  }

  lemma BodyStepIs(m: Machine, line: string)
    requires m.state == Body
    ensures Step(m, line) == BodyStep(m, Strip(line))
  {
  }

  // ------------------------------------------------------------ the list

  /** Until a line mentions `public function write` the parser stays in
      `SEARCH` and lists nothing. */
  lemma {:induction false} SearchIsSilent(body: seq<string>, i: nat)
    requires i <= |body|
    requires forall j | 0 <= j < i :: !Contains(body[j], "public function write")
    ensures Walk(body[..i]) == Ok((Start, []))
  {
    if i > 0 {
      SearchIsSilent(body, i - 1);
      assert Step(Start, body[i - 1]) == Ok((Start, []));
      WalkOk(body, i - 1, Start, [], Start, []);
      var none: seq<WriteStep> := [];
      assert none + none == none;
    } else {
      assert body[..i] == [];
    }
  }

  /** A class without a `write` function has an empty write body. */
  lemma NoWriteFunctionEmpty(body: seq<string>)
    requires forall j | 0 <= j < |body| :: !Contains(body[j], "public function write")
    ensures WriteBody(body) == Ok([])
  {
    SearchIsSilent(body, |body|);
    assert body[..|body|] == body;
  }

  lemma {:induction false} WalkAppendOnly(body: seq<string>, j: nat, i: nat)
    requires j <= i <= |body|
    ensures Walk(body[..i]).Ok? ==> Walk(body[..j]).Ok? && Walk(body[..j]).value.1 <= Walk(body[..i]).value.1
    decreases i - j
  {
    if j < i && Walk(body[..i]).Ok? {
      WalkBack(body[..i]);
      assert body[..i][..i - 1] == body[..i - 1];
      WalkAppendOnly(body, j, i - 1);
    }
  }

  /** Dropping the last line of a walk that succeeds leaves one that succeeds
      with a prefix of its list. */
  lemma WalkBack(lines: seq<string>)
    requires |lines| > 0 && Walk(lines).Ok?
    ensures Walk(lines[..|lines| - 1]).Ok? && Walk(lines[..|lines| - 1]).value.1 <= Walk(lines).value.1
  {
  }

  /** The list only ever grows at its end, and the lines run out in whatever
      state the parser is in: cutting a body that parses after any line
      still parses, to a prefix of the full list. */
  lemma AppendOnly(body: seq<string>, j: nat)
    requires j <= |body|
    ensures WriteBody(body).Ok? ==> WriteBody(body[..j]).Ok? && WriteBody(body[..j]).value <= WriteBody(body).value
  {
    assert body[..|body|] == body;
    WalkAppendOnly(body, j, |body|);
  }

  lemma {:induction false} WalkLength(lines: seq<string>)
    ensures Walk(lines).Ok? ==> |Walk(lines).value.1| <= |lines|
  {
    if |lines| > 0 {
      WalkLength(lines[..|lines| - 1]);
    }
  }

  /** Every line adds at most one entry. */
  lemma OutputBound(body: seq<string>)
    ensures WriteBody(body).Ok? ==> |WriteBody(body).value| <= |body|
  {
    WalkLength(body);
  }

  /** What every listed entry satisfies: a single value has one of the known
      types and is rotated only when its type can be; an array's element type is
      lower-case. */
  predicate WellFormedEntry(e: WriteStep) {
    match e
    case Scalar(d) => d.fieldType in KnownTypes && (d.shift.Some? ==> d.fieldType !in UnshiftableTypes)
    case ArrayOfPrimitives(_, _, subType, _) => forall k | 0 <= k < |subType| :: !IsUpper(subType[k])
    case _ => true
  }

  lemma BodyEntries(m: Machine, l: string)
    ensures BodyStep(m, l).Ok? ==> forall e | e in BodyStep(m, l).value.1 :: WellFormedEntry(e)
  {
  }

  lemma ArrayEntries(m: Machine, l: string)
    ensures ArrayStep(m, l).Ok? ==> forall e | e in ArrayStep(m, l).value.1 :: WellFormedEntry(e)
  {
  }

  lemma StepEntries(m: Machine, line: string)
    ensures Step(m, line).Ok? ==> forall e | e in Step(m, line).value.1 :: WellFormedEntry(e)
  {
    if m.state == Body {
      BodyStepIs(m, line);
      BodyEntries(m, Strip(line));
    } else if m.state == ArrayDefinition {
      ArrayStepIs(m, line);
      ArrayEntries(m, Strip(line));
    }
  }

  lemma {:induction false} WalkEntries(lines: seq<string>)
    ensures Walk(lines).Ok? ==> forall e | e in Walk(lines).value.1 :: WellFormedEntry(e)
  {
    if |lines| > 0 {
      var before := lines[..|lines| - 1];
      WalkEntries(before);
      if Walk(before).Ok? {
        StepEntries(Walk(before).value.0, lines[|lines| - 1]);
      }
    }
  }

  /** Every entry of a parsed write body is well formed. */
  lemma EntriesWellFormed(body: seq<string>)
    ensures WriteBody(body).Ok? ==> forall e | e in WriteBody(body).value :: WellFormedEntry(e)
  {
    WalkEntries(body);
  }

  // ------------------------------------------------------------ before the body

  /** `BODY_START` accepts only a line holding `{`; any other line reaches the end
      of the loop and is reported as an unhandled state. */
  lemma BodyStartNeedsBrace(body: seq<string>, i: nat, m: Machine, defs: seq<WriteStep>)
    requires i < |body| && Walk(body[..i]) == Ok((m, defs)) && m.state == BodyStart
    ensures Contains(body[i], "{") ==> Walk(body[..i + 1]) == Ok((m.(state := FindPacketId), defs))
    ensures !Contains(body[i], "{") ==> WriteBody(body) == Err(UnhandledState("BODY_START"))
  {
    BodyStartStep(m, body[i]);
    if Contains(body[i], "{") {
      WalkOk(body, i, m, defs, m.(state := FindPacketId), []);
      assert defs + [] == defs;
    } else {
      Refused(body, i, m, defs, UnhandledState("BODY_START"));
    }
  }

  /** Before the packet id only local variable declarations may appear: the
      `param1.writeShort` line moves to `BODY`, a declaration is passed over, and
      any other stripped line is refused. */
  lemma FindPacketIdRefuses(body: seq<string>, i: nat, m: Machine, defs: seq<WriteStep>)
    requires i < |body| && Walk(body[..i]) == Ok((m, defs)) && m.state == FindPacketId
    ensures StartsWith(Strip(body[i]), "param1.writeShort") ==> Walk(body[..i + 1]) == Ok((m.(state := Body), defs))
    ensures !StartsWith(Strip(body[i]), "param1.writeShort") && FirstMatch(Strip(body[i]), LocalVarDeclAt).Some? ==>
      Walk(body[..i + 1]) == Ok((m, defs))
    ensures !StartsWith(Strip(body[i]), "param1.writeShort") && FirstMatch(Strip(body[i]), LocalVarDeclAt).None? ==>
      WriteBody(body) == Err(UnknownText(Strip(body[i])))
  {
    var l := Strip(body[i]);
    FindPacketIdStep(m, body[i]);
    assert defs + [] == defs;
    if StartsWith(l, "param1.writeShort") {
      WalkOk(body, i, m, defs, m.(state := Body), []);
    } else if FirstMatch(l, LocalVarDeclAt).Some? {
      WalkOk(body, i, m, defs, m, []);
    } else {
      Refused(body, i, m, defs, UnknownText(l));
    }
  }

  /** Even a blank line between the header and the packet id is refused. */
  lemma BlankLineRefused(body: seq<string>, i: nat, m: Machine, defs: seq<WriteStep>)
    requires i < |body| && Walk(body[..i]) == Ok((m, defs)) && m.state == FindPacketId
    requires Strip(body[i]) == ""
    ensures WriteBody(body) == Err(UnknownText(""))
  {
    NoMatch(Strip(body[i]), LocalVarDeclAt);
    FindPacketIdRefuses(body, i, m, defs);
  }

  // ------------------------------------------------------------ skipping a guard

  /** `BODY_SKIP_IF_ELSE` lists nothing and returns to `BODY` exactly when the
      unstripped line's first `}` is not its first character. */
  lemma SkipExit(body: seq<string>, i: nat, m: Machine, defs: seq<WriteStep>)
    requires i < |body| && Walk(body[..i]) == Ok((m, defs)) && m.state == SkipIfElse
    ensures Walk(body[..i + 1]) == Ok((m.(state := if Find(body[i], "}") > 0 then Body else SkipIfElse), defs))
  {
    SkipStep(m, body[i]);
    WalkOk(body, i, m, defs, m.(state := if Find(body[i], "}") > 0 then Body else SkipIfElse), []);
    assert defs + [] == defs;
  }

  /** A `}` in the first column does not end the skip (`find` returns 0). */
  lemma LeadingBraceStays(body: seq<string>, i: nat, m: Machine, defs: seq<WriteStep>)
    requires i < |body| && Walk(body[..i]) == Ok((m, defs)) && m.state == SkipIfElse
    requires |body[i]| > 0 && body[i][0] == '}'
    ensures Walk(body[..i + 1]) == Ok((m, defs))
  {
    assert LitAt(body[i], 0, "}");
    SkipExit(body, i, m, defs);
  }

  // ------------------------------------------------------------ arrays

  /** In `BODY_ARRAY_DEFINITION` a line with `for` or a brace adds nothing; any
      other line adds exactly one entry, named after the array with its length
      type, of modules exactly when it calls `write(`; a primitive entry's
      element type is the line's writer suffix lower-cased and its rotation is
      the one the element parse reads. The array's name and length type are kept. */
  lemma ArrayLineEntry(body: seq<string>, i: nat, m: Machine, defs: seq<WriteStep>)
    requires i < |body| && Walk(body[..i]) == Ok((m, defs)) && m.state == ArrayDefinition
    requires Walk(body[..i + 1]).Ok?
    ensures var (m', out) := Walk(body[..i + 1]).value;
      m'.currentField == m.currentField && m'.lengthType == m.lengthType &&
      (HasLoopOrBrace(Strip(body[i])) ==> out == defs) &&
      (!HasLoopOrBrace(Strip(body[i])) ==>
        |out| == |defs| + 1 && out[..|defs|] == defs &&
        (out[|defs|].ArrayOfModules? || out[|defs|].ArrayOfPrimitives?) &&
        (out[|defs|].ArrayOfModules? <==> Contains(Strip(body[i]), "write(")) &&
        out[|defs|].name == m.currentField && out[|defs|].lengthType == m.lengthType &&
        (out[|defs|].ArrayOfPrimitives? ==>
          var l := Strip(body[i]);
          FirstMatch(l, WriteSuffixAt).Some? && ParseFieldDefinition(l, "arrayOfPrimitives").Ok? &&
          out[|defs|].subType == Lower(FirstMatch(l, WriteSuffixAt).value) &&
          out[|defs|].shift == ParseFieldDefinition(l, "arrayOfPrimitives").value.shift))
  {
    ArrayStepIs(m, body[i]);
    assert body[..i + 1][..i] == body[..i];
    var r := ArrayStep(m, Strip(body[i]));
    assert r.Ok?;
    WalkOk(body, i, m, defs, r.value.0, r.value.1);
  }

  /** An element line without `write(` must name its element type (`write<T>`). */
  lemma ArraySubtypeMissing(body: seq<string>, i: nat, m: Machine, defs: seq<WriteStep>)
    requires i < |body| && Walk(body[..i]) == Ok((m, defs)) && m.state == ArrayDefinition
    requires !HasLoopOrBrace(Strip(body[i])) && !Contains(Strip(body[i]), "write(")
    requires FirstMatch(Strip(body[i]), WriteSuffixAt).None?
    ensures WriteBody(body) == Err(ArraySubtypeNotFound(Strip(body[i])))
  {
    ArrayStepIs(m, body[i]);
    Refused(body, i, m, defs, ArraySubtypeNotFound(Strip(body[i])));
  }

  /** An element line of primitives whose element the field-definition parse
      refuses fails the whole parse with that parse's error. */
  lemma ArrayElementRefused(body: seq<string>, i: nat, m: Machine, defs: seq<WriteStep>)
    requires i < |body| && Walk(body[..i]) == Ok((m, defs)) && m.state == ArrayDefinition
    requires !HasLoopOrBrace(Strip(body[i])) && !Contains(Strip(body[i]), "write(")
    requires FirstMatch(Strip(body[i]), WriteSuffixAt).Some?
    requires ParseFieldDefinition(Strip(body[i]), "arrayOfPrimitives").Err?
    ensures WriteBody(body) == Err(ParseFieldDefinition(Strip(body[i]), "arrayOfPrimitives").error)
  {
    ArrayStepIs(m, body[i]);
    Refused(body, i, m, defs, ParseFieldDefinition(Strip(body[i]), "arrayOfPrimitives").error);
  }

  /** The array ends at a line that strips to `}`, which adds nothing. */
  lemma ArrayClose(body: seq<string>, i: nat, m: Machine, defs: seq<WriteStep>)
    requires i < |body| && Walk(body[..i]) == Ok((m, defs)) && m.state == ArrayDefinition
    requires Strip(body[i]) == "}"
    ensures Walk(body[..i + 1]) == Ok((m.(state := Body), defs))
  {
    assert Strip("}") == "}";
    assert '}' in Strip(body[i]);
    ArrayStepIs(m, body[i]);
    WalkOk(body, i, m, defs, m.(state := Body), []);
    assert defs + [] == defs;
  }

  // ------------------------------------------------------------ the body proper

  /** A `for each` line is the last one the parser can take: it checks the
      loop header and moves to `BODY_FOREACH`, where any further line is an
      unhandled state; when the lines end there the list is returned. */
  lemma ForEachIsLast(body: seq<string>, i: nat, m: Machine, defs: seq<WriteStep>)
    requires i < |body| && Walk(body[..i]) == Ok((m, defs)) && m.state == Body
    requires Contains(Strip(body[i]), "for each")
    ensures FirstMatch(Strip(body[i]), ForEachFieldAt).None? ==> WriteBody(body) == Err(ForEachFieldNotFound(Strip(body[i])))
    ensures FirstMatch(Strip(body[i]), ForEachFieldAt).Some? && i + 1 < |body| ==>
      WriteBody(body) == Err(UnhandledState("BODY_FOREACH"))
    ensures FirstMatch(Strip(body[i]), ForEachFieldAt).Some? && i + 1 == |body| ==> WriteBody(body) == Ok(defs)
  {
    var l := Strip(body[i]);
    ForEachStep(m, body[i]);
    if FirstMatch(l, ForEachFieldAt).None? {
      Refused(body, i, m, defs, ForEachFieldNotFound(l));
    } else {
      var m' := m.(state := ForEach);
      WalkOk(body, i, m, defs, m', []);
      assert defs + [] == defs;
      if i + 1 < |body| {
        ForEachStays(m', body[i + 1]);
        Refused(body, i + 1, m', defs, UnhandledState("BODY_FOREACH"));
      } else {
        assert body[..i + 1] == body;
      }
    }
  }

  /** `super.write` is recognised before a length, a guard, an `else` or a
      plain write on the same line, and lists the base class's fields. */
  lemma SuperCallFirst(body: seq<string>, i: nat, m: Machine, defs: seq<WriteStep>)
    requires i < |body| && Walk(body[..i]) == Ok((m, defs)) && m.state == Body
    requires !Contains(Strip(body[i]), "for each") && Contains(Strip(body[i]), "super.write")
    ensures Walk(body[..i + 1]) == Ok((m, defs + [SuperCall]))
  {
    BodyStepIs(m, body[i]);
    WalkOk(body, i, m, defs, m, [SuperCall]);
  }

  /** A `this.X.length` line starts an array: its writer suffix becomes the
      length type and its field the array's name; without them the line is refused. */
  lemma LengthLine(body: seq<string>, i: nat, m: Machine, defs: seq<WriteStep>)
    requires i < |body| && Walk(body[..i]) == Ok((m, defs)) && m.state == Body
    requires !Contains(Strip(body[i]), "for each") && !Contains(Strip(body[i]), "super.write")
    requires FirstMatch(Strip(body[i]), ThisLengthAt).Some?
    ensures FirstMatch(Strip(body[i]), LengthWriteAt).None? ==> WriteBody(body) == Err(ArrayFieldNotFound(Strip(body[i])))
    ensures FirstMatch(Strip(body[i]), LengthWriteAt).Some? ==>
      var (w, f) := FirstMatch(Strip(body[i]), LengthWriteAt).value;
      Walk(body[..i + 1]) == Ok((Machine(ArrayDefinition, f, w), defs))
  {
    var l := Strip(body[i]);
    BodyStepIs(m, body[i]);
    match FirstMatch<(string, string)>(l, LengthWriteAt)
    case None =>
      Refused(body, i, m, defs, ArrayFieldNotFound(l));
    case Some((w, f)) =>
      WalkOk(body, i, m, defs, Machine(ArrayDefinition, f, w), []);
      assert defs + [] == defs;
  }

  /** An `if(` guard lists the guarded field as a submodule and skips its block. */
  lemma GuardLine(body: seq<string>, i: nat, m: Machine, defs: seq<WriteStep>)
    requires i < |body| && Walk(body[..i]) == Ok((m, defs)) && m.state == Body
    requires !Contains(Strip(body[i]), "for each") && !Contains(Strip(body[i]), "super.write")
    requires FirstMatch(Strip(body[i]), ThisLengthAt).None? && Contains(Strip(body[i]), "if(")
    ensures FirstMatch(Strip(body[i]), IfFieldAt).None? ==> WriteBody(body) == Err(IfFieldNotFound(Strip(body[i])))
    ensures FirstMatch(Strip(body[i]), IfFieldAt).Some? ==>
      var f := FirstMatch(Strip(body[i]), IfFieldAt).value;
      Walk(body[..i + 1]) == Ok((Machine(SkipIfElse, f, m.lengthType), defs + [Submodule(f)]))
  {
    var l := Strip(body[i]);
    BodyStepIs(m, body[i]);
    match FirstMatch(l, IfFieldAt)
    case None =>
      Refused(body, i, m, defs, IfFieldNotFound(l));
    case Some(f) =>
      WalkOk(body, i, m, defs, Machine(SkipIfElse, f, m.lengthType), [Submodule(f)]);
  }

  /** An `else` skips its block without listing anything. */
  lemma ElseLine(body: seq<string>, i: nat, m: Machine, defs: seq<WriteStep>)
    requires i < |body| && Walk(body[..i]) == Ok((m, defs)) && m.state == Body
    requires !Contains(Strip(body[i]), "for each") && !Contains(Strip(body[i]), "super.write")
    requires FirstMatch(Strip(body[i]), ThisLengthAt).None? && !Contains(Strip(body[i]), "if(")
    requires Contains(Strip(body[i]), "else")
    ensures Walk(body[..i + 1]) == Ok((m.(state := SkipIfElse), defs))
  {
    BodyStepIs(m, body[i]);
    WalkOk(body, i, m, defs, m.(state := SkipIfElse), []);
    assert defs + [] == defs;
  }

  /** A remaining `param1` line is one value: its writer suffix, lower-cased,
      must be a known type, and the value is listed with that type. */
  lemma ScalarLine(body: seq<string>, i: nat, m: Machine, defs: seq<WriteStep>)
    requires i < |body| && Walk(body[..i]) == Ok((m, defs)) && m.state == Body
    requires !Contains(Strip(body[i]), "for each") && !Contains(Strip(body[i]), "super.write")
    requires FirstMatch(Strip(body[i]), ThisLengthAt).None? && !Contains(Strip(body[i]), "if(")
    requires !Contains(Strip(body[i]), "else") && Contains(Strip(body[i]), "param1")
    ensures FirstMatch(Strip(body[i]), WriteSuffixAt).None? ==> WriteBody(body) == Err(TypeNotIdentified(Strip(body[i])))
    ensures FirstMatch(Strip(body[i]), WriteSuffixAt).Some? && Lower(FirstMatch(Strip(body[i]), WriteSuffixAt).value) !in KnownTypes ==>
      WriteBody(body) == Err(UnknownType(Lower(FirstMatch(Strip(body[i]), WriteSuffixAt).value)))
    ensures FirstMatch(Strip(body[i]), WriteSuffixAt).Some? && Walk(body[..i + 1]).Ok? ==>
      var t := Lower(FirstMatch(Strip(body[i]), WriteSuffixAt).value);
      t in KnownTypes && ParseFieldDefinition(Strip(body[i]), t).Ok? &&
      Walk(body[..i + 1]) == Ok((m, defs + [Scalar(ParseFieldDefinition(Strip(body[i]), t).value)]))
  {
    var l := Strip(body[i]);
    BodyStepIs(m, body[i]);
    assert body[..i + 1][..i] == body[..i];
    match FirstMatch(l, WriteSuffixAt)
    case None =>
      Refused(body, i, m, defs, TypeNotIdentified(l));
    case Some(w) =>
      var t := Lower(w);
      if t !in KnownTypes {
        Refused(body, i, m, defs, UnknownType(t));
      } else if ParseFieldDefinition(l, t).Err? {
        Refused(body, i, m, defs, ParseFieldDefinition(l, t).error);
      } else {
        WalkOk(body, i, m, defs, m, [Scalar(ParseFieldDefinition(l, t).value)]);
      }
  }

  /** Any other line in `BODY` is passed over. */
  lemma OtherLine(body: seq<string>, i: nat, m: Machine, defs: seq<WriteStep>)
    requires i < |body| && Walk(body[..i]) == Ok((m, defs)) && m.state == Body
    requires !Contains(Strip(body[i]), "for each") && !Contains(Strip(body[i]), "super.write")
    requires FirstMatch(Strip(body[i]), ThisLengthAt).None? && !Contains(Strip(body[i]), "if(")
    requires !Contains(Strip(body[i]), "else") && !Contains(Strip(body[i]), "param1")
    ensures Walk(body[..i + 1]) == Ok((m, defs))
  {
    BodyStepIs(m, body[i]);
    WalkOk(body, i, m, defs, m, []);
    assert defs + [] == defs;
  }
}
