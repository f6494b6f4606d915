/** `parse_fields` and `find_field_type_from_write_call_for_field_name`: the
    `public var` declarations of a class, with the width of `int` fields taken
    from the call that writes them. */
module Fields {
  import opened Outcomes
  import opened Text
  import opened Schema
  import opened Patterns

  /** `param1.write<T>...<name>` on one line: the leftmost `<T>`. */
  function WriteTypeIn(line: string, name: string): Option<string> {
    FirstMatch(line, (s, k) => WriteTypeForFieldAt(name, s, k))
  }

  /** The writer suffix of the first line that writes `name`. */
  function FindFieldTypeFromWriteCall(body: seq<string>, name: string): (r: Result<string, ParseError>)
    ensures r.Err? <==> forall i | 0 <= i < |body| :: WriteTypeIn(body[i], name).None?
    ensures r.Err? ==> r.error == WriteCallNotFound(name)
    ensures r.Ok? ==>
      exists i | 0 <= i < |body| ::
        WriteTypeIn(body[i], name) == Some(r.value) &&
        forall j | 0 <= j < i :: WriteTypeIn(body[j], name).None?
  {
    match FirstLine(body, line => WriteTypeIn(line, name))
    case None => Err(WriteCallNotFound(name))
    case Some(t) => Ok(t)
  }


  /** The field a line declares, if it declares one; `body` is searched for the
      width of an `int`. */
  function FieldOfLine(body: seq<string>, line: string): (r: Result<Option<Field>, ParseError>)
    ensures FirstMatch(line, FieldDeclAt).None? ==> r == Ok(None)
    ensures FirstMatch(line, FieldDeclAt).Some? ==> r != Ok(None)
    ensures r.Ok? && r.value.Some? ==>
      var decl := FirstMatch(line, FieldDeclAt).value;
      var f := r.value.value;
      f.name == decl.0 && f.initialName == f.name &&
      (decl.1 != "int" ==> f.fieldType == Lower(decl.1)) &&
      (decl.1 == "int" ==>
        FindFieldTypeFromWriteCall(body, f.name).Ok? &&
        f.fieldType == Lower(FindFieldTypeFromWriteCall(body, f.name).value))
    ensures r.Err? <==>
      FirstMatch(line, FieldDeclAt).Some? && FirstMatch(line, FieldDeclAt).value.1 == "int" &&
      FindFieldTypeFromWriteCall(body, FirstMatch(line, FieldDeclAt).value.0).Err?
    ensures r.Err? ==> r.error == WriteCallNotFound(FirstMatch(line, FieldDeclAt).value.0)
  {
    match FirstMatch<(string, string)>(line, FieldDeclAt)
    case None => Ok(None)
    case Some((name, declared)) =>
      if declared == "int" then
        var written :- FindFieldTypeFromWriteCall(body, name);
        Ok(Some(Field(name, name, Lower(written))))
      else Ok(Some(Field(name, name, Lower(declared))))
  }

  /** The fields declared in `lines`, in order; `body` is the whole class. */
  function FieldsIn(body: seq<string>, lines: seq<string>): (r: Result<seq<Field>, ParseError>)
    ensures r.Ok? ==>
      forall f | f in r.value ::
        f.initialName == f.name && IsWord(f.name) && |f.fieldType| > 0 &&
        forall i | 0 <= i < |f.fieldType| :: !IsUpper(f.fieldType[i])
  {
    if |lines| == 0 then Ok([])
    else
      match FieldOfLine(body, lines[0])
      case Err(e) => Err(e)
      case Ok(None) => FieldsIn(body, lines[1..])
      case Ok(Some(f)) =>
        assert IsWord(f.name) && |f.fieldType| > 0 by {
          var decl := FirstMatch(lines[0], FieldDeclAt).value;
          if decl.1 == "int" {
            var t := FindFieldTypeFromWriteCall(body, f.name).value;
            var i :| 0 <= i < |body| && WriteTypeIn(body[i], f.name) == Some(t);
          }
        }
        Prepend([f], FieldsIn(body, lines[1..]))
  }

  /** `parse_fields(body)` */
  function Fields(body: seq<string>): Result<seq<Field>, ParseError> {
    FieldsIn(body, body)
  }

  lemma FieldsInUnfold(body: seq<string>, lines: seq<string>)
    requires |lines| > 0
    ensures FieldsIn(body, lines) ==
      match FieldOfLine(body, lines[0])
      case Err(e) => Err(e)
      case Ok(None) => FieldsIn(body, lines[1..])
      case Ok(Some(f)) => Prepend([f], FieldsIn(body, lines[1..]))
  {
  }

  /** `parse_fields`: one pass over the lines, appending each declared field. */
  method ParseFields(body: seq<string>) returns (r: Result<seq<Field>, ParseError>)
    ensures r == Fields(body)
  {
    var fields: seq<Field> := [];
    var i := 0;
    assert body[0..] == body;
    PrependNothing(Fields(body));
    while i < |body|
      invariant 0 <= i <= |body|
      invariant Fields(body) == Prepend(fields, FieldsIn(body, body[i..]))
    {
      var line := body[i];
      FieldsInUnfold(body, body[i..]);
      assert body[i..][0] == line && body[i..][1..] == body[i + 1..];
      var res := FirstMatch(line, FieldDeclAt);
      if res.Some? {
        var name := res.value.0;
        var fieldType := res.value.1;
        if fieldType == "int" {
          var written := FindFieldTypeFromWriteCall(body, name);
          if written.Err? {
            return Err(written.error);
          }
          fieldType := written.value;
        }
        var field := Field(name, name, Lower(fieldType));
        assert FieldOfLine(body, line) == Ok(Some(field));
        PrependTwice(fields, [field], FieldsIn(body, body[i + 1..]));
        fields := fields + [field];
      } else {
        assert FieldOfLine(body, line) == Ok(None);
      }
      i := i + 1;
    }
    assert body[i..] == [];
    assert fields + [] == fields;
    return Ok(fields);
  }
  /** How many lines declare a field. */
  function CountFieldLines(lines: seq<string>): nat {
    if |lines| == 0 then 0
    else (if FirstMatch(lines[0], FieldDeclAt).Some? then 1 else 0) + CountFieldLines(lines[1..])
  }

  /** On success there is exactly one field per declaring line. */
  lemma {:induction false} FieldsCount(body: seq<string>, lines: seq<string>)
    requires FieldsIn(body, lines).Ok?
    ensures |FieldsIn(body, lines).value| == CountFieldLines(lines)
  {
    if |lines| > 0 {
      FieldsCount(body, lines[1..]);
    }
  }

  /** Lines no line of which is refused parse. */
  lemma {:induction false} FieldsNoRefusal(body: seq<string>, lines: seq<string>)
    requires forall i | 0 <= i < |lines| :: FieldOfLine(body, lines[i]).Ok?
    ensures FieldsIn(body, lines).Ok?
  {
    if |lines| > 0 {
      assert forall i | 1 <= i < |lines| :: lines[1..][i - 1] == lines[i];
      FieldsNoRefusal(body, lines[1..]);
    }
  }

  /** The parse fails with the error of the first refused line. */
  lemma {:induction false} FieldsFirstRefusal(body: seq<string>, lines: seq<string>, i: nat)
    requires i < |lines| && FieldOfLine(body, lines[i]).Err?
    requires forall j | 0 <= j < i :: FieldOfLine(body, lines[j]).Ok?
    ensures FieldsIn(body, lines) == Err(FieldOfLine(body, lines[i]).error)
  {
    if i > 0 {
      var rest := lines[1..];
      forall j | 0 <= j < i - 1 ensures FieldOfLine(body, rest[j]).Ok? {
        assert rest[j] == lines[j + 1];
      }
      assert rest[i - 1] == lines[i];
      FieldsFirstRefusal(body, rest, i - 1);
      assert FieldOfLine(body, lines[0]).Ok?;
    }
  }

  /** A single line gives its own field, or nothing, or its refusal. */
  lemma FieldsOfOneLine(body: seq<string>, line: string)
    ensures FieldsIn(body, [line]) ==
      match FieldOfLine(body, line)
      case Err(e) => Err(e)
      case Ok(None) => Ok([])
      case Ok(Some(f)) => Ok([f])
  {
    FieldsInUnfold(body, [line]);
    assert [line][1..] == [];
    var first := FieldOfLine(body, line);
    if first.Ok? && first.value.Some? {
      assert [first.value.value] + [] == [first.value.value];
    }
  }

  /** Lines are read independently, in order: the fields of two blocks of lines
      are those of the first block followed by those of the second. */
  lemma {:induction false} FieldsAppend(body: seq<string>, a: seq<string>, b: seq<string>)
    requires FieldsIn(body, a).Ok?
    ensures FieldsIn(body, a + b) == Prepend(FieldsIn(body, a).value, FieldsIn(body, b))
  {
    if |a| == 0 {
      assert a + b == b;
      PrependNothing(FieldsIn(body, b));
    } else {
      FieldsAppend(body, a[1..], b);
      FieldsAppendStep(body, a, b);
    }
  }

  /** The step of `FieldsAppend`: once it holds for the lines after the first,
      it holds with the first line put back. */
  lemma FieldsAppendStep(body: seq<string>, a: seq<string>, b: seq<string>)
    requires |a| > 0 && FieldsIn(body, a).Ok? && FieldsIn(body, a[1..]).Ok?
    requires FieldsIn(body, a[1..] + b) == Prepend(FieldsIn(body, a[1..]).value, FieldsIn(body, b))
    ensures FieldsIn(body, a + b) == Prepend(FieldsIn(body, a).value, FieldsIn(body, b))
  {
    var ab := a + b;
    TailOfAppend(a, b);
    FieldsInUnfold(body, ab);
    FieldsInUnfold(body, a);
    var first := FieldOfLine(body, a[0]);
    if first.Ok? && first.value.Some? {
      PrependTwice([first.value.value], FieldsIn(body, a[1..]).value, FieldsIn(body, b));
    }
  }
}
