/** The regular expressions of the parser, one recogniser each.

    For a pattern P, `PAt(s, k)` is what P matches when the match starts exactly
    at position `k` of `s`, with the groups Python's backtracking settles on; and
    `FirstMatch(s, PAt)` is the leftmost such match, i.e. `re.findall(P, s)[0]`.
    Every greedy run in these patterns is followed by a character outside its
    class, so the run is always taken as long as it goes (`Span`), and a start
    position admits at most one match. */
module Patterns {
  import opened Outcomes
  import opened Text
  import opened Numerals
  import opened Schema

  predicate IsCloseParen(c: char) { c == ')' }

  /** `[\w<>.]` and `[\w.<>]` */
  predicate IsTypeChar(c: char) { IsWordChar(c) || c == '<' || c == '>' || c == '.' }

  /** `[\w.<>,]` */
  predicate IsArgChar(c: char) { IsTypeChar(c) || c == ',' }

  /** `[\w!= .]` */
  predicate IsGuardChar(c: char) { IsWordChar(c) || c == '!' || c == '=' || c == ' ' || c == '.' }

  /** `[_\w ]` */
  predicate IsWordOrSpace(c: char) { IsWordChar(c) || c == ' ' }

  // ---------------------------------------------------------------- class header

  /** `(?<=public class )\w+` */
  function ClassNameAt(s: string, k: nat): (r: Option<string>)
    ensures r.Some? ==> IsWord(r.value)
  {
    if 13 <= k < |s| && LitAt(s, k - 13, "public class ") && IsWordChar(s[k]) then Some(WordFrom(s, k)) else None
  }

  /** `(implements|extends) (\w+)`, group 2 */
  function ClassBaseAt(s: string, k: nat): (r: Option<string>)
    ensures r.Some? ==> IsWord(r.value)
  {
    if LitAt(s, k, "implements ") && k + 11 < |s| && IsWordChar(s[k + 11]) then Some(WordFrom(s, k + 11))
    else if LitAt(s, k, "extends ") && k + 8 < |s| && IsWordChar(s[k + 8]) then Some(WordFrom(s, k + 8))
    else None
  }

  // ---------------------------------------------------------------- declarations

  /** ` const (\w+):(\w+) = (\w+)` */
  function ConstDeclAt(s: string, k: nat): (r: Option<(string, string, string)>)
    ensures r.Some? ==> IsWord(r.value.0) && IsWord(r.value.1) && IsWord(r.value.2)
  {
    if !LitAt(s, k, " const ") then None
    else
      var a := k + 7;
      var a' := Span(s, a, IsWordChar);
      if a' == a || !LitAt(s, a', ":") then None
      else
        var b := a' + 1;
        var b' := Span(s, b, IsWordChar);
        if b' == b || !LitAt(s, b', " = ") then None
        else
          var c := b' + 3;
          var c' := Span(s, c, IsWordChar);
          SpanAll(s, a, IsWordChar);
          SpanAll(s, b, IsWordChar);
          SpanAll(s, c, IsWordChar);
          if c' == c then None else Some((s[a..a'], s[b..b'], s[c..c']))
  }

  /** `public var (\w+):([\w<>.]+)` */
  function FieldDeclAt(s: string, k: nat): (r: Option<(string, string)>)
    ensures r.Some? ==> IsWord(r.value.0) && |r.value.1| > 0
  {
    if !LitAt(s, k, "public var ") then None
    else
      var a := k + 11;
      var a' := Span(s, a, IsWordChar);
      if a' == a || !LitAt(s, a', ":") then None
      else
        var b := a' + 1;
        var b' := Span(s, b, IsTypeChar);
        SpanAll(s, a, IsWordChar);
        if b' == b then None else Some((s[a..a'], s[b..b']))
  }

  /** `.*<name>` can match from `j`: `name` occurs at or after `j` with no line feed before it. */
  predicate NameFollows(s: string, j: nat, name: string)
    requires j <= |s|
  {
    var q := FindFrom(s, j, name);
    q >= 0 && '\n' !in s[j..q]
  }

  /** The end of the `(\w+)` group of `write(\w+).*<name>` whose run of word
      characters spans `[p, j)`: greedy, so the longest one after which
      `.*<name>` still matches. */
  function GreedyWordBefore(s: string, p: nat, j: nat, name: string): (r: Option<nat>)
    requires p <= j <= |s|
    ensures r.Some? ==> p < r.value <= j && NameFollows(s, r.value, name)
    ensures r.Some? ==> forall i | r.value < i <= j :: !NameFollows(s, i, name)
    ensures r.None? ==> forall i | p < i <= j :: !NameFollows(s, i, name)
    decreases j - p
  {
    if j == p then None
    else if NameFollows(s, j, name) then Some(j)
    else GreedyWordBefore(s, p, j - 1, name)
  }

  /** `param1.write(\w+).*<name>`, with the field name put into the pattern as it is */
  function WriteTypeForFieldAt(name: string, s: string, k: nat): (r: Option<string>)
    ensures r.Some? ==> IsWord(r.value)
  {
    if !WildAt(s, k, "param1.write") then None
    else
      var p := k + 12;
      SpanAll(s, p, IsWordChar);
      match GreedyWordBefore(s, p, Span(s, p, IsWordChar), name)
      case None => None
      case Some(j) => Some(s[p..j])
  }

  /** `(param\d+):([\w.<>]+)`, with the position after the match */
  function ParamDeclAt(s: string, k: nat): Option<((string, string), nat)> {
    if !LitAt(s, k, "param") then None
    else
      var d := Span(s, k + 5, IsDigit);
      if d == k + 5 || !LitAt(s, d, ":") then None
      else
        var t := Span(s, d + 1, IsTypeChar);
        if t == d + 1 then None else Some(((s[k..d], s[d + 1..t]), t))
  }

  /** `re.findall(r"(param\d+):([\w.<>]+)", s[k..])`: every match, left to right,
      each search resuming where the previous match ended. */
  function ParamDecls(s: string, k: nat): (r: seq<(string, string)>)
    requires k <= |s|
    ensures forall i | 0 <= i < |r| :: |r[i].0| > 5 && r[i].0[..5] == "param" && |r[i].1| > 0
    decreases |s| - k
  {
    if k == |s| then []
    else
      match ParamDeclAt(s, k)
      case Some((decl, e)) =>
        assert LitAt(s, k, "param");
        [decl] + ParamDecls(s, e)
      case None => ParamDecls(s, k + 1)
  }

  /** `this\.(\w+) = <param>`, with the parameter name put into the pattern as it is */
  function FieldAssignAt(param: string, s: string, k: nat): Option<string> {
    if !LitAt(s, k, "this.") then None
    else
      var e := Span(s, k + 5, IsWordChar);
      if e == k + 5 || !LitAt(s, e, " = " + param) then None else Some(s[k + 5..e])
  }

  /** `super\(([\w.<>,]+)\)` */
  function SuperArgsAt(s: string, k: nat): Option<string> {
    if !LitAt(s, k, "super(") then None
    else
      var e := Span(s, k + 6, IsArgChar);
      if e == k + 6 || !LitAt(s, e, ")") then None else Some(s[k + 6..e])
  }

  // ---------------------------------------------------------------- module id

  /** The end of a `-*\d+` group starting at `p`. */
  function IntTokenEnd(s: string, p: nat): Option<nat>
    requires p <= |s|
  {
    var m := Span(s, p, IsDash);
    var d := Span(s, m, IsDigit);
    if d == m then None else Some(d)
  }

  /** The end of a `-*\d+` group at `p` that the literal `lit` follows. */
  function TokenThen(s: string, p: nat, lit: string): Option<nat> {
    if p > |s| then None
    else
      match IntTokenEnd(s, p)
      case None => None
      case Some(d) => if LitAt(s, d, lit) then Some(d) else None
  }

  /** `param1.writeShort\((-*\d+)\)` */
  function ShortIdAt(s: string, k: nat): (r: Option<string>)
    ensures r.Some? ==> k < |s| && s[k] == 'p'
  {
    if !WildAt(s, k, "param1.writeShort(") then None
    else
      assert s[k + 0] == "param1.writeShort("[0];
      match TokenThen(s, k + 18, ")")
      case None => None
      case Some(d) => Some(s[k + 18..d])
  }

  /** `param1.writeShort\(0x([abcdef\d]+)\)` */
  function ShortHexIdAt(s: string, k: nat): (r: Option<string>)
    ensures r.Some? ==> k < |s| && s[k] == 'p'
    ensures r.Some? ==> |r.value| > 0 && AllOf(r.value, IsHexDigit)
  {
    if !WildAt(s, k, "param1.writeShort(0x") then None
    else
      assert s[k + 0] == "param1.writeShort(0x"[0];
      var p := k + 20;
      var h := Span(s, p, IsHexDigit);
      SpanAll(s, p, IsHexDigit);
      if h == p || !LitAt(s, h, ")") then None else Some(s[p..h])
  }

  /** `param1.writeShort\((-*\d+) \* (-*\d+)\)` */
  function ShortProductIdAt(s: string, k: nat): (r: Option<(string, string)>)
    ensures r.Some? ==> k < |s| && s[k] == 'p'
  {
    if !WildAt(s, k, "param1.writeShort(") then None
    else
      assert s[k + 0] == "param1.writeShort("[0];
      match TokenThen(s, k + 18, " * ")
      case None => None
      case Some(d) =>
        match TokenThen(s, d + 3, ")")
        case None => None
        case Some(d') => Some((s[k + 18..d], s[d + 3..d']))
  }

  /** `param1.writeShort\((-*\d+) \* (-*\d+) \* (-*\d+)\)` */
  function ShortTripleProductIdAt(s: string, k: nat): (r: Option<(string, string, string)>)
    ensures r.Some? ==> k < |s| && s[k] == 'p'
  {
    if !WildAt(s, k, "param1.writeShort(") then None
    else
      assert s[k + 0] == "param1.writeShort("[0];
      match TokenThen(s, k + 18, " * ")
      case None => None
      case Some(d) =>
        match TokenThen(s, d + 3, " * ")
        case None => None
        case Some(d') =>
          match TokenThen(s, d' + 3, ")")
          case None => None
          case Some(d'') => Some((s[k + 18..d], s[d + 3..d'], s[d' + 3..d'']))
  }

  // ---------------------------------------------------------------- rotation

  /** `(>>>|<<) `: the direction and the position after the space. */
  function ShiftOpAt(s: string, p: nat): Option<(Direction, nat)> {
    if LitAt(s, p, ">>> ") then Some((Right, p + 4))
    else if LitAt(s, p, "<< ") then Some((Left, p + 3))
    else None
  }

  /** `(>>>|<<) (\d+) \|`, or `(>>>|<<) (\d+) \% \d+ \|` when the amount is calculated:
      the direction and the amount literal written right after the operator. */
  function ShiftTailAt(s: string, p: nat, calculated: bool): Option<Shift> {
    match ShiftOpAt(s, p)
    case None => None
    case Some((dir, a)) =>
      if a > |s| then None
      else
        var d := Span(s, a, IsDigit);
        SpanRun(s, a, IsDigit);
        if d == a then None
        else
          var tail :=
            if calculated then
              LitAt(s, d, " % ") && var m := Span(s, d + 3, IsDigit); m > d + 3 && LitAt(s, m, " |")
            else LitAt(s, d, " |");
          if !tail then None
          else Some(Shift(dir, ValueIn(10, s[a..d])))
  }

  /** `this.(\w+)` followed by `close` and the rotation: `close` is `" "` for an
      `int` and `") "` for a `short` or any other type. */
  function ThisShiftAt(close: string, calculated: bool, s: string, k: nat): Option<(string, Shift)> {
    if !WildAt(s, k, "this.") then None
    else
      var e := Span(s, k + 5, IsWordChar);
      if e == k + 5 || !LitAt(s, e, close) then None
      else
        match ShiftTailAt(s, e + |close|, calculated)
        case None => None
        case Some(sh) => Some((s[k + 5..e], sh))
  }

  /** `(_loc\d+_)\)* ` followed by the rotation: an array element. */
  function LocShiftAt(calculated: bool, s: string, k: nat): Option<(string, Shift)> {
    if !LitAt(s, k, "_loc") then None
    else
      var d := Span(s, k + 4, IsDigit);
      if d == k + 4 || !LitAt(s, d, "_") then None
      else
        var r := Span(s, d + 1, IsCloseParen);
        if !LitAt(s, r, " ") then None
        else
          match ShiftTailAt(s, r + 1, calculated)
          case None => None
          case Some(sh) => Some((s[k..d + 1], sh))
  }

  /** `param1.write\w+\((_loc\d+_)\)` */
  function LocWriteAt(s: string, k: nat): Option<string> {
    if !WildAt(s, k, "param1.write") then None
    else
      var e := Span(s, k + 12, IsWordChar);
      if e == k + 12 || !LitAt(s, e, "(_loc") then None
      else
        var d := Span(s, e + 5, IsDigit);
        if d == e + 5 || !LitAt(s, d, "_)") then None else Some(s[e + 1..d + 1])
  }

  /** `param1.write\w+\(this.(\w+)\)` */
  function ThisWriteAt(s: string, k: nat): Option<string> {
    if !WildAt(s, k, "param1.write") then None
    else
      var e := Span(s, k + 12, IsWordChar);
      if e == k + 12 || !WildAt(s, e, "(this.") then None
      else
        var w := Span(s, e + 6, IsWordChar);
        if w == e + 6 || !LitAt(s, w, ")") then None else Some(s[e + 6..w])
  }

  /** `[|<>]` */
  predicate HasShiftChar(s: string) {
    '|' in s || '<' in s || '>' in s
  }

  // ---------------------------------------------------------------- write body

  /** The alternatives `int|Number|String|class_\d+|[A-Z]\w+` for a whole run of
      word characters (the run is followed by a space, so no alternative may stop
      inside it); `Number` and `String` are instances of `[A-Z]\w+`. */
  predicate IsLocalTypeName(w: string) {
    w == "int"
    || (|w| > 6 && w[..6] == "class_" && AllOf(w[6..], IsDigit))
    || (|w| >= 2 && IsUpper(w[0]))
  }

  /** `var _loc\d+_:(\*|int|Number|String|class_\d+|[A-Z]\w+) = (null|0|NaN);`,
      giving the declared type */
  function LocalVarDeclAt(s: string, k: nat): Option<string> {
    if !LitAt(s, k, "var _loc") then None
    else
      var d := Span(s, k + 8, IsDigit);
      if d == k + 8 || !LitAt(s, d, "_:") then None
      else
        var p := d + 2;
        var t := if LitAt(s, p, "*") then p + 1 else Span(s, p, IsWordChar);
        if t == p || (!LitAt(s, p, "*") && !IsLocalTypeName(s[p..t])) || !LitAt(s, t, " = ") then None
        else if LitAt(s, t + 3, "null;") || LitAt(s, t + 3, "0;") || LitAt(s, t + 3, "NaN;") then Some(s[p..t])
        else None
  }

  /** `write(\w+)` */
  function WriteSuffixAt(s: string, k: nat): Option<string> {
    if LitAt(s, k, "write") && k + 5 < |s| && IsWordChar(s[k + 5]) then Some(WordFrom(s, k + 5)) else None
  }

  /** `for each\([_\w ]+this\.([_\w]+)\)`. The dot after `this` is outside `[_\w ]`,
      so the run before it must end exactly at that dot. */
  function ForEachFieldAt(s: string, k: nat): Option<string> {
    if !LitAt(s, k, "for each(") then None
    else
      var p := k + 9;
      var r := Span(s, p, IsWordOrSpace);
      if r < p + 5 || !LitAt(s, r - 4, "this.") then None
      else
        var w := Span(s, r + 1, IsWordChar);
        if w == r + 1 || !LitAt(s, w, ")") then None else Some(s[r + 1..w])
  }

  /** `this\.\w+\.length` */
  function ThisLengthAt(s: string, k: nat): Option<string> {
    if !LitAt(s, k, "this.") then None
    else
      var e := Span(s, k + 5, IsWordChar);
      if e == k + 5 || !LitAt(s, e, ".length") then None else Some(s[k + 5..e])
  }

  /** `param1\.write(\w+)\(this.(\w+)\.length`: the length's writer suffix and the array field */
  function LengthWriteAt(s: string, k: nat): Option<(string, string)> {
    if !LitAt(s, k, "param1.write") then None
    else
      var e := Span(s, k + 12, IsWordChar);
      if e == k + 12 || !WildAt(s, e, "(this.") then None
      else
        var w := Span(s, e + 6, IsWordChar);
        if w == e + 6 || !LitAt(s, w, ".length") then None else Some((s[k + 12..e], s[e + 6..w]))
  }

  /** The group of `this\.(\w+)` at the last `this.` at or before `t` (and at or
      after `p`) that is followed by a word character: the leading `[\w!= .]*` is
      greedy, so it gives back characters from the right until `this.` fits. */
  function LastGuardField(s: string, p: nat, e: nat, t: nat): (r: Option<string>)
    requires p <= t && e <= |s|
    ensures r.Some? ==> IsWord(r.value)
    decreases t - p
  {
    if t + 5 < e && LitAt(s, t, "this.") && IsWordChar(s[t + 5]) then Some(WordFrom(s, t + 5))
    else if t == p then None
    else LastGuardField(s, p, e, t - 1)
  }

  /** `if\([\w!= .]*this\.(\w+)[\w!= .]*\)`. Every character of the match between
      `if(` and the closing parenthesis is in `[\w!= .]`, so that parenthesis is
      the first character after `if(` outside the class. */
  function IfFieldAt(s: string, k: nat): Option<string> {
    if !LitAt(s, k, "if(") then None
    else
      var p := k + 3;
      var e := Span(s, p, IsGuardChar);
      if e == |s| || s[e] != ')' then None else LastGuardField(s, p, e, e)
  }

  /** `for|[{}]` */
  predicate HasLoopOrBrace(s: string) {
    Contains(s, "for") || '{' in s || '}' in s
  }
}
