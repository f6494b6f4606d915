/** `parse_write_body`: the string-state machine that walks a class body line by
    line and lists, in order, what the client's `write` function writes. */
module WriteBodyParser {
  import opened Outcomes
  import opened Text
  import opened Schema
  import opened Patterns
  import opened FieldDefinitions

  /** The values the parser's `state` variable takes. */
  datatype State = Search | BodyStart | FindPacketId | Body | ArrayDefinition | SkipIfElse | ForEach

  /** How the parser spells each state (it reports the state by name when it gives up). */
  function StateName(s: State): string {
    match s
    case Search => "SEARCH"
    case BodyStart => "BODY_START"
    case FindPacketId => "BODY_FIND_PACKET_ID"
    case Body => "BODY"
    case ArrayDefinition => "BODY_ARRAY_DEFINITION"
    case SkipIfElse => "BODY_SKIP_IF_ELSE"
    case ForEach => "BODY_FOREACH"
  }

  /** Everything the loop carries besides the list: the state, `current_field`
      and `current_field_length_type` (Python's initial `None` is the empty string;
      neither is read before a length line sets it). */
  datatype Machine = Machine(state: State, currentField: string, lengthType: string)

  const Start := Machine(Search, "", "")

  // ------------------------------------------------------------ one line

  /** What one line does in `BODY`, tried in the parser's order: `for each`,
      `super.write`, `this.X.length`, `if(`, `else`, then a single `param1` write. */
  function BodyStep(m: Machine, l: string): (r: Result<(Machine, seq<WriteStep>), ParseError>)
    ensures r.Ok? ==> |r.value.1| <= 1
  {
    if Contains(l, "for each") then
      if FirstMatch(l, ForEachFieldAt).None? then Err(ForEachFieldNotFound(l))
      else Ok((m.(state := ForEach), []))
    else if Contains(l, "super.write") then Ok((m, [SuperCall]))
    else if FirstMatch(l, ThisLengthAt).Some? then
      match FirstMatch<(string, string)>(l, LengthWriteAt)
      case None => Err(ArrayFieldNotFound(l))
      case Some((w, f)) => Ok((Machine(ArrayDefinition, f, w), []))
    else if Contains(l, "if(") then
      match FirstMatch(l, IfFieldAt)
      case None => Err(IfFieldNotFound(l))
      case Some(f) => Ok((Machine(SkipIfElse, f, m.lengthType), [Submodule(f)]))
    else if Contains(l, "else") then Ok((m.(state := SkipIfElse), []))
    else if Contains(l, "param1") then
      match FirstMatch(l, WriteSuffixAt)
      case None => Err(TypeNotIdentified(l))
      case Some(w) =>
        var t := Lower(w);
        if t !in KnownTypes then Err(UnknownType(t))
        else
          match ParseFieldDefinition(l, t)
          case Err(e) => Err(e)
          case Ok(d) => Ok((m, [Scalar(d)]))
    else Ok((m, []))
  }

  /** The entry an element line of an array adds: modules when the line calls
      `write(`, otherwise primitives of the lower-cased writer suffix, with the
      element's rotation when there is one. */
  function ArrayEntry(m: Machine, l: string): Result<WriteStep, ParseError> {
    if Contains(l, "write(") then Ok(ArrayOfModules(m.currentField, m.lengthType))
    else
      match FirstMatch(l, WriteSuffixAt)
      case None => Err(ArraySubtypeNotFound(l))
      case Some(w) =>
        match ParseFieldDefinition(l, "arrayOfPrimitives")
        case Err(e) => Err(e)
        case Ok(d) => Ok(ArrayOfPrimitives(m.currentField, m.lengthType, Lower(w), d.shift))
  }

  /** What one line does in `BODY_ARRAY_DEFINITION`: a line with `for` or a brace
      adds nothing, any other adds one entry, and a line that is just `}` ends the array. */
  function ArrayStep(m: Machine, l: string): (r: Result<(Machine, seq<WriteStep>), ParseError>)
    ensures r.Ok? ==> |r.value.1| <= 1
  {
    var next := if Strip(l) == "}" then m.(state := Body) else m;
    if HasLoopOrBrace(l) then Ok((next, []))
    else
      match ArrayEntry(m, l)
      case Err(e) => Err(e)
      case Ok(entry) => Ok((next, [entry]))
  }

  /** One iteration of the parser's loop: the machine after `line` and the entries
      it appends, or the error it raises. */
  function Step(m: Machine, line: string): (r: Result<(Machine, seq<WriteStep>), ParseError>)
    ensures r.Ok? ==> |r.value.1| <= 1
  {
    match m.state
    case Search =>
      Ok((if Contains(line, "public function write") then m.(state := BodyStart) else m, []))
    case BodyStart =>
      if Contains(line, "{") then Ok((m.(state := FindPacketId), []))
      else Err(UnhandledState(StateName(BodyStart)))
    case FindPacketId =>
      var l := Strip(line);
      if StartsWith(l, "param1.writeShort") then Ok((m.(state := Body), []))
      else if FirstMatch(l, LocalVarDeclAt).Some? then Ok((m, []))
      else Err(UnknownText(l))
    case ArrayDefinition => ArrayStep(m, Strip(line))
    case SkipIfElse =>
      Ok((if Find(line, "}") > 0 then m.(state := Body) else m, []))
    case Body => BodyStep(m, Strip(line))
    case ForEach => Err(UnhandledState(StateName(ForEach)))
  }

  // ------------------------------------------------------------ the whole body

  /** The machine and the list after the lines of `lines`, taken left to right;
      the first error ends the walk. */
  function Walk(lines: seq<string>): Result<(Machine, seq<WriteStep>), ParseError> {
    if |lines| == 0 then Ok((Start, []))
    else
      match Walk(lines[..|lines| - 1])
      case Err(e) => Err(e)
      case Ok((m, defs)) =>
        match Step(m, lines[|lines| - 1])
        case Err(e) => Err(e)
        case Ok((m', out)) => Ok((m', defs + out))
  }

  /** `parse_write_body(body)`: the list built when the lines run out, whatever
      state the machine is in then. */
  function WriteBody(body: seq<string>): Result<seq<WriteStep>, ParseError> {
    match Walk(body)
    case Err(e) => Err(e)
    case Ok((_, defs)) => Ok(defs)
  }

  /** `parse_write_body`, as the parser runs it: one pass that updates the state
      variables and appends to the list. */
  method ParseWriteBody(body: seq<string>) returns (r: Result<seq<WriteStep>, ParseError>)
    ensures r == WriteBody(body)
  {
    var definitions: seq<WriteStep> := [];
    var state := Search;
    var currentFieldLengthType := "";
    var currentField := "";
    for i := 0 to |body|
      invariant Walk(body[..i]) == Ok((Machine(state, currentField, currentFieldLengthType), definitions))
    {
      assert body[..i + 1][..i] == body[..i];
      var res := LineStep(Machine(state, currentField, currentFieldLengthType), body[i]);
      if res.Err? {
        WalkStops(body, i + 1);
        return Err(res.error);
      }
      state, currentField, currentFieldLengthType := res.value.0.state, res.value.0.currentField, res.value.0.lengthType;
      definitions := definitions + res.value.1;
    }
    assert body[..|body|] == body;
    return Ok(definitions);
  }

  /** One iteration of the loop of `parse_write_body`: the branch for the
      current state, which may move to another state and append an entry, or
      raise. A `BODY_START` line without `{` falls through every branch. */
  method LineStep(m: Machine, line: string) returns (r: Result<(Machine, seq<WriteStep>), ParseError>)
    ensures r == Step(m, line)
  {
    var state := m.state;
    if state == Search {
      if Contains(line, "public function write") {
        state := BodyStart;
      }
      return Ok((m.(state := state), []));
    }
    if state == BodyStart {
      if Contains(line, "{") {
        state := FindPacketId;
        return Ok((m.(state := state), []));
      }
    }
    if state == FindPacketId {
      var stripped := Strip(line);
      if StartsWith(stripped, "param1.writeShort") {
        state := Body;
        return Ok((m.(state := state), []));
      }
      if FirstMatch(stripped, LocalVarDeclAt).Some? {
        return Ok((m, []));
      }
      return Err(UnknownText(stripped));
    }
    if state == ArrayDefinition {
      r := ArrayLine(m, Strip(line));
      return;
    }
    if state == SkipIfElse {
      if Find(line, "}") > 0 {
        state := Body;
      }
      return Ok((m.(state := state), []));
    }
    if state == Body {
      r := BodyLine(m, Strip(line));
      return;
    }
    return Err(UnhandledState(StateName(state)));
  }

  /** The `BODY_ARRAY_DEFINITION` branch of the loop, on the stripped line. */
  method ArrayLine(m: Machine, line: string) returns (r: Result<(Machine, seq<WriteStep>), ParseError>)
    ensures r == ArrayStep(m, line)
  {
    var entry: seq<WriteStep> := [];
    if !HasLoopOrBrace(line) {
      var definition;
      if Contains(line, "write(") {
        definition := ArrayOfModules(m.currentField, m.lengthType);
      } else {
        var resWriteType := FirstMatch(line, WriteSuffixAt);
        if resWriteType.None? {
          return Err(ArraySubtypeNotFound(line));
        }
        var res := ParseFieldDefinition(line, "arrayOfPrimitives");
        if res.Err? {
          return Err(res.error);
        }
        definition := ArrayOfPrimitives(m.currentField, m.lengthType, Lower(resWriteType.value), res.value.shift);
      }
      entry := [definition];
    }
    var state := m.state;
    if Strip(line) == "}" {
      state := Body;
    }
    return Ok((m.(state := state), entry));
  }

  /** The `BODY` branch of the loop, on the stripped line. */
  method BodyLine(m: Machine, line: string) returns (r: Result<(Machine, seq<WriteStep>), ParseError>)
    ensures r == BodyStep(m, line)
  {
    if Contains(line, "for each") {
      if FirstMatch(line, ForEachFieldAt).None? {
        return Err(ForEachFieldNotFound(line));
      }
      return Ok((m.(state := ForEach), []));
    }
    if Contains(line, "super.write") {
      return Ok((m, [SuperCall]));
    }
    if FirstMatch(line, ThisLengthAt).Some? {
      var res := FirstMatch(line, LengthWriteAt);
      if res.None? {
        return Err(ArrayFieldNotFound(line));
      }
      return Ok((Machine(ArrayDefinition, res.value.1, res.value.0), []));
    }
    if Contains(line, "if(") {
      var resField := FirstMatch(line, IfFieldAt);
      if resField.None? {
        return Err(IfFieldNotFound(line));
      }
      return Ok((Machine(SkipIfElse, resField.value, m.lengthType), [Submodule(resField.value)]));
    }
    if Contains(line, "else") {
      return Ok((m.(state := SkipIfElse), []));
    }
    if Contains(line, "param1") {
      var fieldType := FirstMatch(line, WriteSuffixAt);
      if fieldType.None? {
        return Err(TypeNotIdentified(line));
      }
      var t := Lower(fieldType.value);
      if t !in KnownTypes {
        return Err(UnknownType(t));
      }
      var definition := ParseFieldDefinition(line, t);
      if definition.Err? {
        return Err(definition.error);
      }
      return Ok((m, [Scalar(definition.value)]));
    }
    return Ok((m, []));
  }

  /** Once a prefix of the body fails, the whole body fails the same way. */
  lemma {:induction false} WalkStops(body: seq<string>, j: nat)
    requires j <= |body|
    ensures Walk(body[..j]).Err? ==> WriteBody(body) == Err(Walk(body[..j]).error)
    decreases |body| - j
  {
    if j < |body| && Walk(body[..j]).Err? {
      assert body[..j + 1][..j] == body[..j];
      WalkStops(body, j + 1);
    } else if j == |body| {
      assert body[..j] == body;
    }
  }
}
