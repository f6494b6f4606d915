/** `parse_module_id`: the packet id the write function sends first, written as a
    decimal literal, a lower-case hexadecimal literal, or a product of two or
    three decimal literals. */
module ModuleId {
  import opened Outcomes
  import opened Text
  import opened Numerals
  import opened Schema
  import opened Patterns

  /** `int(t)`, with the error the parser would raise. */
  function IntOf(t: string): (r: Result<int, ParseError>)
    ensures r.Ok? <==> IsIntLiteral(t)
    ensures r.Err? ==> r.error == IntLiteralInvalid(t)
  {
    match PyInt(t)
    case Some(v) => Ok(v)
    case None => Err(IntLiteralInvalid(t))
  }

  /** What one line says about the id: None when no shape matches it; otherwise
      the value of the first shape that does, in the order decimal, hexadecimal,
      two-factor product, three-factor product. */
  function ModuleIdOfLine(line: string): (r: Option<Result<int, ParseError>>)
    ensures r.None? <==>
      FirstMatch(line, ShortIdAt).None? && FirstMatch(line, ShortHexIdAt).None? &&
      FirstMatch(line, ShortProductIdAt).None? && FirstMatch(line, ShortTripleProductIdAt).None?
    ensures FirstMatch(line, ShortIdAt).Some? ==> r == Some(IntOf(FirstMatch(line, ShortIdAt).value))
    ensures r.Some? && r.value.Err? ==> r.value.error.IntLiteralInvalid?
  {
    match FirstMatch(line, ShortIdAt)
    case Some(t) => Some(IntOf(t))
    case None =>
      match FirstMatch(line, ShortHexIdAt)
      case Some(h) => Some(Ok(PyHexInt(h)))
      case None =>
        match FirstMatch<(string, string)>(line, ShortProductIdAt)
        case Some((a, b)) =>
          Some(var x :- IntOf(a); var y :- IntOf(b); Ok(x * y))
        case None =>
          match FirstMatch<(string, string, string)>(line, ShortTripleProductIdAt)
          case Some((a, b, c)) =>
            Some(var x :- IntOf(a); var y :- IntOf(b); var z :- IntOf(c); Ok(x * y * z))
          case None => None
  }

  /** `parse_module_id(body)`: the id of the first line that has one. */
  function ParseModuleId(body: seq<string>): (r: Result<int, ParseError>)
    ensures r == Err(ModuleIdNotFound) <==> forall i | 0 <= i < |body| :: ModuleIdOfLine(body[i]).None?
    ensures r != Err(ModuleIdNotFound) ==>
      exists i | 0 <= i < |body| ::
        ModuleIdOfLine(body[i]) == Some(r) &&
        forall j | 0 <= j < i :: ModuleIdOfLine(body[j]).None?
  {
    match FirstLine(body, ModuleIdOfLine)
    case None => Err(ModuleIdNotFound)
    case Some(r) => r
  }

}
