/** `parse_constructor_definition`: the constructor's parameters, each with the
    place its value is stored. */
module Constructor {
  import opened Outcomes
  import opened Text
  import opened Schema
  import opened Patterns

  /** The first line holding `function <moduleName>`, the constructor's signature. */
  function FindConstructorLine(body: seq<string>, moduleName: string): (r: Option<string>)
    ensures r.None? <==> forall i | 0 <= i < |body| :: !Contains(body[i], "function " + moduleName)
    ensures r.Some? ==>
      exists i | 0 <= i < |body| ::
        r.value == body[i] && Contains(body[i], "function " + moduleName) &&
        forall j | 0 <= j < i :: !Contains(body[j], "function " + moduleName)
  {
    FirstLine(body, line => if Contains(line, "function " + moduleName) then Some(line) else None)
  }


  /** What one line says about where `param` goes: the field it is assigned to
      (`this.F = <param>`), or else its position in a `super(...)` argument list,
      or nothing. */
  function FieldRefOfLine(param: string, line: string): (r: Option<FieldRef>)
    ensures r.Some? && r.value.Owned? ==>
      FirstMatch(line, (s, k) => FieldAssignAt(param, s, k)) == Some(r.value.field)
    ensures r.Some? && r.value.SuperSlot? ==>
      FirstMatch(line, (s, k) => FieldAssignAt(param, s, k)).None? &&
      FirstMatch(line, SuperArgsAt).Some? &&
      var parts := Split(FirstMatch(line, SuperArgsAt).value, ',');
      r.value.index < |parts| && parts[r.value.index] == param && param !in parts[..r.value.index]
    ensures r.None? ==>
      FirstMatch(line, (s, k) => FieldAssignAt(param, s, k)).None? &&
      (FirstMatch(line, SuperArgsAt).None? || param !in Split(FirstMatch(line, SuperArgsAt).value, ','))
  {
    match FirstMatch(line, (s, k) => FieldAssignAt(param, s, k))
    case Some(field) => Some(Owned(field))
    case None =>
      match FirstMatch(line, SuperArgsAt)
      case None => None
      case Some(args) =>
        var parts := Split(args, ',');
        if param in parts then Some(SuperSlot(IndexOf(parts, param))) else None
  }

  /** The field reference of `param` given by the first line that has one. */
  function ResolveFieldRef(lines: seq<string>, param: string): Result<FieldRef, ParseError> {
    match FirstLine(lines, line => FieldRefOfLine(param, line))
    case None => Err(FieldRefNotFound(param))
    case Some(ref) => Ok(ref)
  }

  /** The reference comes from the first line that has one, and it is missing
      exactly when no line has one. */
  lemma ResolveFieldRefMeaning(lines: seq<string>, param: string)
    ensures ResolveFieldRef(lines, param).Err? <==>
      forall i | 0 <= i < |lines| :: FieldRefOfLine(param, lines[i]).None?
    ensures ResolveFieldRef(lines, param).Err? ==> ResolveFieldRef(lines, param).error == FieldRefNotFound(param)
    ensures ResolveFieldRef(lines, param).Ok? ==>
      exists i | 0 <= i < |lines| ::
        FieldRefOfLine(param, lines[i]) == Some(ResolveFieldRef(lines, param).value) &&
        forall j | 0 <= j < i :: FieldRefOfLine(param, lines[j]).None?
  {
    var f := line => FieldRefOfLine(param, line);
    var r := FirstLine(lines, f);
    forall i | 0 <= i < |lines| ensures f(lines[i]) == FieldRefOfLine(param, lines[i]) {
    }
  }


  /** One declared parameter with its resolved field reference. */
  function ParamOf(body: seq<string>, decl: (string, string)): Result<ConstructorParam, ParseError> {
    match ResolveFieldRef(body, decl.0)
    case Err(e) => Err(e)
    case Ok(ref) => Ok(ConstructorParam(decl.0, decl.1, ref))
  }

  function Resolver(body: seq<string>): ((string, string)) -> Result<ConstructorParam, ParseError> {
    decl => ParamOf(body, decl)
  }

  /** The declared parameters, in order, each with its resolved field reference. */
  function ResolveParams(body: seq<string>, params: seq<(string, string)>): (r: Result<seq<ConstructorParam>, ParseError>)
    ensures r.Ok? ==> |r.value| == |params|
  {
    MapResult(params, Resolver(body))
  }

  /** The resolver applied to a declared parameter is `ParamOf`. */
  lemma ResolverAt(body: seq<string>, params: seq<(string, string)>)
    ensures forall i | 0 <= i < |params| :: Resolver(body)(params[i]) == ParamOf(body, params[i])
  {
  }

  /** On success, parameters keep their declaration order, name and type, and each
      gets the field reference of the first line that places it. */
  lemma ResolveParamsOk(body: seq<string>, params: seq<(string, string)>)
    ensures ResolveParams(body, params).Ok? ==>
      forall i | 0 <= i < |params| ::
        var c := ResolveParams(body, params).value[i];
        c.name == params[i].0 && c.paramType == params[i].1 && ResolveFieldRef(body, params[i].0) == Ok(c.fieldRef)
  {
    MapResultMeaning(params, Resolver(body));
    ResolverAt(body, params);
  }

  /** The whole fails exactly when some parameter is placed nowhere, with the
      error of the first such one. */
  lemma ResolveParamsErr(body: seq<string>, params: seq<(string, string)>)
    ensures ResolveParams(body, params).Err? <==>
      exists i | 0 <= i < |params| :: ResolveFieldRef(body, params[i].0).Err?
    ensures ResolveParams(body, params).Err? ==>
      exists i | 0 <= i < |params| ::
        ResolveParams(body, params).error == FieldRefNotFound(params[i].0) &&
        forall j | 0 <= j < i :: ResolveFieldRef(body, params[j].0).Ok?
  {
    MapResultMeaning(params, Resolver(body));
    ResolverAt(body, params);
  }

  /** `parse_constructor_definition(body, moduleName)` */
  function ConstructorDefinition(body: seq<string>, moduleName: string): (r: Result<seq<ConstructorParam>, ParseError>)
    ensures FindConstructorLine(body, moduleName).None? ==> r == Ok([])
    ensures FindConstructorLine(body, moduleName).Some? ==>
      r == ResolveParams(body, ParamDecls(FindConstructorLine(body, moduleName).value, 0))
  {
    match FindConstructorLine(body, moduleName)
    case None => Ok([])
    case Some(line) => ResolveParams(body, ParamDecls(line, 0))
  }

  lemma ResolveParamsUnfold(body: seq<string>, params: seq<(string, string)>)
    requires |params| > 0
    ensures ResolveParams(body, params) ==
      match ResolveFieldRef(body, params[0].0)
      case Err(e) => Err(e)
      case Ok(ref) => Prepend([ConstructorParam(params[0].0, params[0].1, ref)], ResolveParams(body, params[1..]))
  {
    assert Resolver(body)(params[0]) == ParamOf(body, params[0]);
  }

  /** The inner scan of `parse_constructor_definition` for one parameter: the
      first line that assigns it to a field or lists it in a `super(...)` call.
      None stands for the source's empty `field_ref`. */
  method FindFieldRef(body: seq<string>, paramName: string) returns (fieldRef: Option<FieldRef>)
    ensures fieldRef.None? <==> ResolveFieldRef(body, paramName).Err?
    ensures fieldRef.Some? ==> ResolveFieldRef(body, paramName) == Ok(fieldRef.value)
  {
    fieldRef := None;
    var j := 0;
    assert body[0..] == body;
    while j < |body|
      invariant 0 <= j <= |body|
      invariant fieldRef.None? ==> ResolveFieldRef(body[j..], paramName) == ResolveFieldRef(body, paramName)
      invariant fieldRef.Some? ==> ResolveFieldRef(body, paramName) == Ok(fieldRef.value)
    {
      var innerLine := body[j];
      assert body[j..][0] == innerLine && body[j..][1..] == body[j + 1..];
      var fieldMatch := FirstMatch(innerLine, (s, k) => FieldAssignAt(paramName, s, k));
      if fieldMatch.Some? {
        fieldRef := Some(Owned(fieldMatch.value));
        assert FieldRefOfLine(paramName, innerLine) == fieldRef;
        break;
      } else {
        var superArgs := FirstMatch(innerLine, SuperArgsAt);
        if superArgs.None? {
          assert FieldRefOfLine(paramName, innerLine).None?;
          j := j + 1;
          continue;
        }
        var paramsSplit := Split(superArgs.value, ',');
        if paramName in paramsSplit {
          var idx := IndexOf(paramsSplit, paramName);
          fieldRef := Some(SuperSlot(idx));
          assert FieldRefOfLine(paramName, innerLine) == fieldRef;
          break;
        }
        assert FieldRefOfLine(paramName, innerLine).None?;
      }
      j := j + 1;
    }
    if fieldRef.None? {
      assert body[j..] == [];
    }
  }

  /** `parse_constructor_definition`: find the signature, then for each parameter
      scan the body for the first line that places it. */
  method ParseConstructorDefinition(body: seq<string>, moduleName: string)
    returns (r: Result<seq<ConstructorParam>, ParseError>)
    ensures r == ConstructorDefinition(body, moduleName)
  {
    var i := 0;
    while i < |body|
      invariant 0 <= i <= |body|
      invariant forall j | 0 <= j < i :: !Contains(body[j], "function " + moduleName)
    {
      var line := body[i];
      if Contains(line, "function " + moduleName) {
        assert FindConstructorLine(body, moduleName) == Some(line) by {
          var found := FindConstructorLine(body, moduleName);
          if found.Some? {
            var w :| 0 <= w < |body| && found.value == body[w] && Contains(body[w], "function " + moduleName) &&
              forall j | 0 <= j < w :: !Contains(body[j], "function " + moduleName);
            assert w == i;
          }
        }
        var res := ParamDecls(line, 0);
        var constructorDefinition: seq<ConstructorParam> := [];
        var p := 0;
        assert res[0..] == res;
        PrependNothing(ResolveParams(body, res));
        while p < |res|
          invariant 0 <= p <= |res|
          invariant ResolveParams(body, res) == Prepend(constructorDefinition, ResolveParams(body, res[p..]))
        {
          var paramName := res[p].0;
          var paramType := res[p].1;
          ResolveParamsUnfold(body, res[p..]);
          assert res[p..][0] == res[p] && res[p..][1..] == res[p + 1..];
          var fieldRef := FindFieldRef(body, paramName);
          if fieldRef.None? {
            return Err(FieldRefNotFound(paramName));
          }
          var param := ConstructorParam(paramName, paramType, fieldRef.value);
          PrependTwice(constructorDefinition, [param], ResolveParams(body, res[p + 1..]));
          constructorDefinition := constructorDefinition + [param];
          p := p + 1;
        }
        assert res[p..] == [];
        assert constructorDefinition + [] == constructorDefinition;
        return Ok(constructorDefinition);
      }
      i := i + 1;
    }
    return Ok([]);
  }
}
