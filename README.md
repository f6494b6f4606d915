# DarkOrbit netcode parser, modelled in Dafny

The netcode parser reads the decompiled ActionScript source of one packet class
and turns it into a schema record, given the class as a list of lines.
It parses these parts of the record:

- the class name and the class it extends or implements;
- the integer constants;
- the public fields, with the width of `int` fields corrected from the call that writes them;
- the constructor parameters, each resolved to the field it is stored in or to its position in a `super(...)` call;
- the packet id, written as a decimal, lower-case hexadecimal, or product literal;
- the write body: the ordered list of values the client's `write` function sends, with each value's type and any bit rotation applied to it.

This project models `src/netcode_parser/DONetcodeParser.py` and proves properties of that model.

How the model is laid out:

- **Python `str` and `re`.** `str.find`, `strip`, `lower`, `split`, `list.index` and the leftmost match that `re.findall(...)[0]` returns are defined once, in `Text`.
- **Integer literals.** Python's `int()` on the captured tokens is modelled in `Numerals`.
- **Regular expressions.** Each pattern becomes a hand-written recogniser in `Patterns`. The recogniser returns what the pattern matches when the match starts at a given position, with the groups Python's backtracking picks. There is no general regex engine.
- **Errors.** Each `raise` of the parser is one constructor of `Schema.ParseError`, returned in a `Result`.
- **Loops that build lists.** The list-building loops are methods, each proved equal to a recursive specification function. These are `parse_constants`, `parse_fields`, `parse_constructor_definition` with its inner scan, and the state machine `parse_write_body`.
- **Search loops and assembly.** The search loops with early return and the record assembly are functions.

Properties proved:

- **Module id.** The id comes from the first line, in source order, that has one. Within a line the four shapes are tried in a fixed order. The proofs cover:
  - each shape evaluated;
  - `0x1F` not being accepted;
  - `--5` being refused.
- **Rotations.** `boolean`, `double`, `float` and `utf` values are never rotated. Any other value is rotated exactly when its line holds `|`, `<` or `>`. `>>>` reads as right and `<<` as left. The amount is the literal directly after the operator, also when a `% n` follows it. This is what the test at `tests/test_DONetcodeParser.py:15-26` asserts case by case.
- **Write body.** The proofs cover:
  - the list only grows at its end, at most one entry per line;
  - a class without a `write` function has an empty body;
  - the list is returned when the lines end, whatever the state;
  - each refusal: a stray line before the packet id, a `BODY_START` line without `{`, any line after `for each`, and an unknown writer type;
  - the order in which a `BODY` line is dispatched;
  - the entries an array adds.
- **Fields.** Every field has `initialName == name` and a lower-case type. There is one field per declaring line, in order, and the first refused line decides the error.
- **Constructor parameters.** Parameters keep their declaration order. Each resolves through the first line that places it. The first parameter nobody places is the one that fails the parse.
- **Constants.** There is one constant per `const const` line, made of the three groups the pattern captures. The first refused line decides the error.
- **Assembly.** The record is None exactly when the class is skipped. The full record is the base record plus the write body. The parts are parsed in a fixed order, and the first refusal is the result.

## Model

| member | source | states |
|---|---|---|
| Text.FindFrom | src/netcode_parser/DONetcodeParser.py:14 | `str.find`: the result is -1 exactly when the pattern occurs nowhere from `k`; otherwise it is an occurrence with none before it |
| Text.FirstLine | src/netcode_parser/DONetcodeParser.py:13-15 | the value for the first line that has one; None exactly when no line has one |
| Text.Search | src/netcode_parser/DONetcodeParser.py:19-22 | `re.findall(...)[0]`: a match at the reported position, and no match at any earlier position; None only when no position matches |
| Text.Strip | src/netcode_parser/DONetcodeParser.py:15 | `str.strip()`: the result is a slice of the line with only whitespace before and after it, and it neither starts nor ends with whitespace |
| Text.Lower | src/netcode_parser/DONetcodeParser.py:91 | `str.lower()`: same length, each upper-case letter replaced by its lower-case letter, every other character unchanged |
| Text.SplitJoin | src/netcode_parser/DONetcodeParser.py:117 | `str.split(",")` loses nothing: joining the pieces with the separator gives the string back |
| Text.SplitPieces | src/netcode_parser/DONetcodeParser.py:117 | no piece of a split holds the separator |
| Text.IndexOf | src/netcode_parser/DONetcodeParser.py:119 | `list.index`: the first position holding the element; -1 exactly when it is absent |
| Numerals.PyInt | src/netcode_parser/DONetcodeParser.py:135 | `int()` on a `-*\d+` token accepts exactly digits after at most one minus sign; a negative value comes from a leading minus |
| Numerals.IntTokenRoundTrip | src/netcode_parser/DONetcodeParser.py:135 | `int(str(v)) == v` for every integer |
| Numerals.DoubleMinusRejected | src/netcode_parser/DONetcodeParser.py:135 | a token starting with two minus signs is refused |
| Numerals.RenderValue | src/netcode_parser/DONetcodeParser.py:139 | reading back the decimal or hexadecimal rendering of `n` gives `n` |
| Patterns.ClassNameAt | src/netcode_parser/DONetcodeParser.py:19 | what `(?<=public class )\w+` captures is a non-empty word |
| Patterns.ClassBaseAt | src/netcode_parser/DONetcodeParser.py:27 | the word after `implements ` or `extends ` that the base pattern captures is non-empty |
| Patterns.ConstDeclAt | src/netcode_parser/DONetcodeParser.py:50 | the three groups of ` const (\w+):(\w+) = (\w+)` are non-empty words |
| Patterns.FieldDeclAt | src/netcode_parser/DONetcodeParser.py:82 | `public var (\w+):([\w<>.]+)` captures a word and a non-empty type |
| Patterns.GreedyWordBefore | src/netcode_parser/DONetcodeParser.py:73 | the greedy `(\w+)` of `write(\w+).*<name>` ends at the last position after which `.*<name>` still matches, and is None when there is no such position |
| Patterns.WriteTypeForFieldAt | src/netcode_parser/DONetcodeParser.py:73 | the writer suffix found for a field is a non-empty word |
| Patterns.ParamDecls | src/netcode_parser/DONetcodeParser.py:100 | every `(param\d+):([\w.<>]+)` match names a `paramN` and a non-empty type |
| Patterns.ShortIdAt | src/netcode_parser/DONetcodeParser.py:132 | the decimal id pattern can only start at the `p` of `param1` |
| Patterns.ShortHexIdAt | src/netcode_parser/DONetcodeParser.py:137 | the hex id pattern starts at a `p`, and its group is a non-empty run of `0-9a-f` |
| Patterns.ShortProductIdAt | src/netcode_parser/DONetcodeParser.py:141 | the two-factor id pattern can only start at a `p` |
| Patterns.ShortTripleProductIdAt | src/netcode_parser/DONetcodeParser.py:147 | the three-factor id pattern can only start at a `p` |
| Patterns.LastGuardField | src/netcode_parser/DONetcodeParser.py:355 | the field the `if(` guard pattern captures is a non-empty word |
| Header.FindClassDefLine | src/netcode_parser/DONetcodeParser.py:12-15 | the stripped first line containing `public class`; None exactly when no line contains it |
| Header.ParseClassName | src/netcode_parser/DONetcodeParser.py:18-23 | fails, with the line, exactly when the name pattern matches nowhere; otherwise gives what its leftmost match captures |
| Header.ParseClassBase | src/netcode_parser/DONetcodeParser.py:26-33 | fails, with the line, exactly when `implements`/`extends` followed by a word occurs nowhere; otherwise gives group 2 of the leftmost match |
| Header.ParseClassDefinition | src/netcode_parser/DONetcodeParser.py:36-43 | succeeds exactly when the class line exists and both its name and base parse, and then gives that line's name and base; a missing class line is its own error |
| Header.ClassNameOf | src/netcode_parser/DONetcodeParser.py:18-23 | a word written after the first `public class `, and not followed by a word character, is the class name |
| Header.ClassBaseOf | src/netcode_parser/DONetcodeParser.py:26-33 | a word written after the first `implements ` or `extends `, and not followed by a word character, is the base |
| Header.ShouldSkipClass | src/netcode_parser/DONetcodeParser.py:61-68 | true exactly when some line contains `Not decompiled` or `createInstance(param1:int) : IModule` |
| Constants.ConstantOfLine | src/netcode_parser/DONetcodeParser.py:49-57 | a line without `const const` adds nothing; one the pattern does not decompose is refused as malformed; it is refused with the captured type exactly when that type is not `int`; otherwise the constant is the three captured groups, the value kept as the token |
| Constants.ConstantLineReads | src/netcode_parser/DONetcodeParser.py:49-57 | ` const <name>:<type> = <value>` gives `Constant(name, "int", value)` when the type is `int`, and otherwise the unknown-type error naming the type |
| Constants.Constants | src/netcode_parser/DONetcodeParser.py:46-58 | every constant returned is an `int` of word parts; at most one per line |
| Constants.ParseConstants | src/netcode_parser/DONetcodeParser.py:46-58 | the appending loop returns exactly `Constants(body)` |
| Constants.ConstantsCount | src/netcode_parser/DONetcodeParser.py:49-57 | on success there is exactly one constant per `const const` line |
| Constants.ConstantsNoRefusal | src/netcode_parser/DONetcodeParser.py:46-58 | a body in which no line is refused parses |
| Constants.ConstantsFirstRefusal | src/netcode_parser/DONetcodeParser.py:51-55 | the parse fails with the error of the first refused line |
| Constants.ConstantsAppend | src/netcode_parser/DONetcodeParser.py:48-57 | lines are read independently: the constants of `a + b` are those of `a` followed by those of `b` |
| Fields.FindFieldTypeFromWriteCall | src/netcode_parser/DONetcodeParser.py:71-76 | the writer suffix of the first line with `param1.write<T>...<name>`; fails, naming the field, exactly when no line has one |
| Fields.FieldOfLine | src/netcode_parser/DONetcodeParser.py:81-93 | a line without a declaration adds nothing; a field gets `initialName == name` and its lower-cased declared type, or for `int` the lower-cased writer suffix; it fails exactly when an `int` field is never written |
| Fields.FieldsIn | src/netcode_parser/DONetcodeParser.py:79-94 | every field returned has `initialName == name`, a word as name and a non-empty lower-case type; FieldsCount, FieldsFirstRefusal and FieldsAppend fix the list |
| Fields.ParseFields | src/netcode_parser/DONetcodeParser.py:79-94 | the appending loop returns exactly `Fields(body)` |
| Fields.FieldsCount | src/netcode_parser/DONetcodeParser.py:79-94 | on success there is exactly one field per line that declares one |
| Fields.FieldsNoRefusal | src/netcode_parser/DONetcodeParser.py:79-94 | lines none of which is refused parse |
| Fields.FieldsFirstRefusal | src/netcode_parser/DONetcodeParser.py:87-89 | the parse fails with the error of the first refused line |
| Fields.FieldsOfOneLine | src/netcode_parser/DONetcodeParser.py:82-93 | one line gives its own field, nothing, or its refusal |
| Fields.FieldsAppend | src/netcode_parser/DONetcodeParser.py:80-93 | lines are read independently and in order: the fields of `a + b` are those of `a` followed by those of `b` |
| Constructor.FindConstructorLine | src/netcode_parser/DONetcodeParser.py:98-99 | the first line containing `function <moduleName>`; None exactly when there is none |
| Constructor.FieldRefOfLine | src/netcode_parser/DONetcodeParser.py:108-121 | `this.F = <param>` wins and gives `Owned(F)`; otherwise the first position of the parameter in the comma-split `super(...)` arguments; None when neither applies |
| Constructor.ResolveFieldRefMeaning | src/netcode_parser/DONetcodeParser.py:105-124 | the reference comes from the first line that places the parameter; it fails, naming the parameter, exactly when no line does |
| Constructor.ResolveParams | src/netcode_parser/DONetcodeParser.py:102-126 | on success there is one resolved parameter per declared one |
| Constructor.ResolveParamsOk | src/netcode_parser/DONetcodeParser.py:102-126 | on success each parameter keeps its declared position, name and type, with the reference of the first line that places it |
| Constructor.ResolveParamsErr | src/netcode_parser/DONetcodeParser.py:123-124 | fails exactly when some parameter is placed nowhere, with the error of the first such parameter |
| Constructor.ConstructorDefinition | src/netcode_parser/DONetcodeParser.py:97-127 | `[]` when there is no constructor line; otherwise the declared parameters of that line, resolved |
| Constructor.FindFieldRef | src/netcode_parser/DONetcodeParser.py:105-121 | the inner loop with `break` finds a reference exactly when `ResolveFieldRef` does, and the same one |
| Constructor.ParseConstructorDefinition | src/netcode_parser/DONetcodeParser.py:97-127 | the nested loops return exactly `ConstructorDefinition(body, moduleName)` |
| ModuleId.IntOf | src/netcode_parser/DONetcodeParser.py:135 | `int(t)` succeeds exactly on integer literals and otherwise names the token |
| ModuleId.ModuleIdOfLine | src/netcode_parser/DONetcodeParser.py:131-152 | None exactly when none of the four shapes matches; a decimal match wins and gives `int` of its token; the only error is an invalid integer |
| ModuleId.ParseModuleId | src/netcode_parser/DONetcodeParser.py:130-153 | the value of the first line that has an id; not found exactly when no line has one |
| ModuleIdExamples.DecimalId | src/netcode_parser/DONetcodeParser.py:132-135 | `param1.writeShort(<v>)` after indentation gives `v`, negative values included |
| ModuleIdExamples.HexId | src/netcode_parser/DONetcodeParser.py:137-139 | `param1.writeShort(0x<lower-case hex of n>)` gives `n` |
| ModuleIdExamples.ProductId | src/netcode_parser/DONetcodeParser.py:141-145 | `param1.writeShort(<a> * <b>)` gives `a * b` |
| ModuleIdExamples.TripleProductId | src/netcode_parser/DONetcodeParser.py:147-152 | `param1.writeShort(<a> * <b> * <c>)` gives `a * b * c` |
| ModuleIdExamples.UpperHexNotRecognised | src/netcode_parser/DONetcodeParser.py:137 | `param1.writeShort(0x1F)` matches none of the four shapes |
| ModuleIdExamples.DoubleMinusId | src/netcode_parser/DONetcodeParser.py:132-135 | `param1.writeShort(--<n>)` is matched by the decimal shape, and `int()` refuses its token |
| ModuleIdExamples.TripleProductCallAt | src/netcode_parser/DONetcodeParser.py:132-152 | a three-factor call matches none of the three earlier shapes, and the three-factor shape captures its tokens |
| ModuleIdExamples.ProductCallAt | src/netcode_parser/DONetcodeParser.py:132-145 | a two-factor call matches neither the decimal nor the hex shape, and the product shape captures its tokens |
| FieldDefinitions.ParseFieldDefinitionShifted | src/netcode_parser/DONetcodeParser.py:186-226 | fails exactly when the pattern for the type matches nowhere, calculated when the line holds `%`; otherwise keeps the type and has a rotation |
| FieldDefinitions.ParseFieldDefinitionUnshifted | src/netcode_parser/DONetcodeParser.py:229-240 | fails, naming the line, exactly when the type's pattern (`_locN_` for array elements, `this.<name>` otherwise) matches nowhere; otherwise the name is what its leftmost match captures, the type is kept and there is no rotation |
| FieldDefinitions.ThisWriteWord | src/netcode_parser/DONetcodeParser.py:233 | the name `param1.write\w+\(this.(\w+)\)` captures is a word |
| FieldDefinitions.PlainWriteReads | src/netcode_parser/DONetcodeParser.py:229-255 | a line without a bar, `<` or `>` whose first `param1` starts `param1.write<T>(this.<name>)` reads as `<name>` with the type kept and no rotation |
| FieldDefinitions.ParseFieldDefinitionShiftable | src/netcode_parser/DONetcodeParser.py:243-248 | the result has a rotation exactly when the line holds a bar, `<` or `>`; the error follows the same split |
| FieldDefinitions.ParseFieldDefinition | src/netcode_parser/DONetcodeParser.py:251-255 | keeps the type; rotated exactly when the type is not unshiftable and the line holds a bar, `<` or `>`; the error follows the same split |
| FieldDefinitions.UnshiftableNeverRotated | src/netcode_parser/DONetcodeParser.py:183 | `boolean`, `double`, `float` and `utf` go to the unshifted parser and never get a rotation |
| FieldDefinitions.OperatorAt | src/netcode_parser/DONetcodeParser.py:215 | `>>> ` reads as right and `<< ` as left |
| FieldDefinitions.PlainTailReads | src/netcode_parser/DONetcodeParser.py:192 | an operator, digits, a space and a bar give the operator's direction and the value of the digits |
| FieldDefinitions.CalculatedTailReads | src/netcode_parser/DONetcodeParser.py:193 | an operator, digits, ` % `, a modulus, a space and a bar give the operator's direction and the value of the first digits; the modulus is not kept |
| FieldDefinitions.ThisShiftReads | src/netcode_parser/DONetcodeParser.py:200-211 | `this.<name><close>` followed by a rotation reads as that name and rotation |
| FieldDefinitions.TailDirection | src/netcode_parser/DONetcodeParser.py:214-215 | the direction read is that of the operator written where the rotation starts |
| FieldDefinitions.ThisDirection | src/netcode_parser/DONetcodeParser.py:200-215 | the direction a `this.` pattern reports is that of the operator written right after `this.<name>` and its closing text |
| FieldDefinitions.LocDirection | src/netcode_parser/DONetcodeParser.py:208-215 | the direction the `_locN_` pattern reports is that of the operator written after the variable's digits, its closing `_`, its run of `)` and a space |
| FieldDefinitions.ShiftedDirection | src/netcode_parser/DONetcodeParser.py:214-215 | the direction of a rotated parse is an operator the line holds (`>>>` right, `<<` left) |
| ShiftExamples.RotationReads | src/netcode_parser/DONetcodeParser.py:188-195 | an operator and `<n>` then a bar, or `<n> % <m>` then a bar when there is a modulus, read as the operator's direction and amount `n` |
| ShiftExamples.PlainReads | src/netcode_parser/DONetcodeParser.py:192 | an operator, `<n>` and a bar read as the rotation by `n` |
| ShiftExamples.CalculatedReads | src/netcode_parser/DONetcodeParser.py:193 | an operator, `<n> % <m>` and a bar read as the rotation by `n`, not `m` |
| ShiftExamples.RotationChars | src/netcode_parser/DONetcodeParser.py:188 | a line holding a rotation holds a bar, and a `%` when there is a modulus |
| ShiftExamples.FieldCallReads | src/netcode_parser/DONetcodeParser.py:200-211 | the `this.` pattern, tried where a rotated call starts, reads its name and rotation |
| ShiftExamples.FieldRotationRead | src/netcode_parser/DONetcodeParser.py:197-226 | a rotated `this.<name>` write of any shiftable non-array type reads as that name, the operator's direction and the literal amount after it, with or without `% <m>`; the type is kept |
| ShiftExamples.ElementCallReads | src/netcode_parser/DONetcodeParser.py:208 | the element pattern, tried where a rotated `_loc<i>_` starts, reads the variable and the rotation |
| ShiftExamples.ElementRotationRead | src/netcode_parser/DONetcodeParser.py:205-226 | a rotated array element `_loc<i>_` with any number of `)` reads as that variable, direction and literal amount |
| WriteBodyParser.BodyStep | src/netcode_parser/DONetcodeParser.py:321-382 | a `BODY` line adds at most one entry |
| WriteBodyParser.ArrayStep | src/netcode_parser/DONetcodeParser.py:288-316 | an array line adds at most one entry |
| WriteBodyParser.Step | src/netcode_parser/DONetcodeParser.py:265-383 | one loop iteration adds at most one entry |
| WriteBodyParser.ParseWriteBody | src/netcode_parser/DONetcodeParser.py:258-384 | the loop over the lines, with its state variables, returns exactly `WriteBody(body)` |
| WriteBodyParser.LineStep | src/netcode_parser/DONetcodeParser.py:267-383 | one pass of the loop body, branch by state, computes exactly `Step`: the next state and the entries appended, or the error raised |
| WriteBodyParser.ArrayLine | src/netcode_parser/DONetcodeParser.py:288-316 | the `BODY_ARRAY_DEFINITION` branch computes exactly `ArrayStep` |
| WriteBodyParser.BodyLine | src/netcode_parser/DONetcodeParser.py:321-382 | the `BODY` branch computes exactly `BodyStep` |
| WriteBodyParser.WalkStops | src/netcode_parser/DONetcodeParser.py:287 | once some line raises, the whole parse fails with that error |
| WriteBodyProperties.SearchIsSilent | src/netcode_parser/DONetcodeParser.py:267-271 | until a line mentions `public function write`, the parser stays in `SEARCH` with an empty list |
| WriteBodyProperties.NoWriteFunctionEmpty | src/netcode_parser/DONetcodeParser.py:259-271 | a class without `public function write` has an empty write body |
| WriteBodyProperties.AppendOnly | src/netcode_parser/DONetcodeParser.py:259-384 | if a body parses, every prefix of it parses, to a prefix of the full list; the list is returned whatever the final state |
| WriteBodyProperties.OutputBound | src/netcode_parser/DONetcodeParser.py:259-384 | the list has at most one entry per line |
| WriteBodyProperties.BodyEntries | src/netcode_parser/DONetcodeParser.py:371-380 | a `BODY` line adds only well-formed entries: a value's type is known, and it is rotated only when shiftable |
| WriteBodyProperties.ArrayEntries | src/netcode_parser/DONetcodeParser.py:293-312 | an array line adds only well-formed entries: the element type is lower-case |
| WriteBodyProperties.EntriesWellFormed | src/netcode_parser/DONetcodeParser.py:258-384 | every entry of a parsed write body is well formed |
| WriteBodyProperties.BodyStartNeedsBrace | src/netcode_parser/DONetcodeParser.py:272-276 | a `BODY_START` line with `{` moves to `BODY_FIND_PACKET_ID`; a line without it fails the parse as an unhandled state |
| WriteBodyProperties.FindPacketIdRefuses | src/netcode_parser/DONetcodeParser.py:277-287 | before the id, the `param1.writeShort` line moves to `BODY`, a local declaration is passed over, and any other line fails the parse |
| WriteBodyProperties.BlankLineRefused | src/netcode_parser/DONetcodeParser.py:278-287 | a blank line before the id fails the parse as unknown text |
| WriteBodyProperties.SkipExit | src/netcode_parser/DONetcodeParser.py:317-320 | the skip state lists nothing and returns to `BODY` exactly when the unstripped line's first `}` is found at an index greater than 0 |
| WriteBodyProperties.LeadingBraceStays | src/netcode_parser/DONetcodeParser.py:318 | a `}` in the first column does not end the skip |
| WriteBodyProperties.ArrayLineEntry | src/netcode_parser/DONetcodeParser.py:290-312 | a line with `for` or a brace adds nothing; any other adds exactly one entry, named after the array with its length type, of modules exactly when it calls `write(`; a primitive entry's `subType` is the lower-cased writer suffix and its rotation that of the element parse |
| WriteBodyProperties.ArraySubtypeMissing | src/netcode_parser/DONetcodeParser.py:303-305 | an element line without `write(` and without a `write<T>` fails the parse |
| WriteBodyProperties.ArrayElementRefused | src/netcode_parser/DONetcodeParser.py:307-310 | an element line of primitives that the field-definition parse refuses fails the whole parse with that error |
| WriteBodyProperties.ArrayClose | src/netcode_parser/DONetcodeParser.py:313-315 | a line that strips to `}` ends the array without adding anything |
| WriteBodyProperties.ForEachIsLast | src/netcode_parser/DONetcodeParser.py:325-330 | after a valid `for each` line, any further line fails the parse as an unhandled state; at the end of the lines the list is returned |
| WriteBodyProperties.SuperCallFirst | src/netcode_parser/DONetcodeParser.py:333-341 | `super.write` is recognised before a length, a guard, `else` or a plain write, and appends the super-call marker |
| WriteBodyProperties.LengthLine | src/netcode_parser/DONetcodeParser.py:343-353 | a `this.X.length` line records the writer suffix as length type and `X` as the array, or fails the parse |
| WriteBodyProperties.GuardLine | src/netcode_parser/DONetcodeParser.py:354-366 | an `if(` line appends a submodule marker naming the guarded field and enters skip, or fails the parse |
| WriteBodyProperties.ElseLine | src/netcode_parser/DONetcodeParser.py:367-369 | an `else` line enters skip and adds nothing |
| WriteBodyProperties.ScalarLine | src/netcode_parser/DONetcodeParser.py:371-381 | a `param1` line needs a writer suffix whose lower-cased form is a known type, and appends the value parsed with that type |
| WriteBodyProperties.OtherLine | src/netcode_parser/DONetcodeParser.py:382 | any other `BODY` line is passed over |
| Packets.SerializePacketBase | src/netcode_parser/DONetcodeParser.py:156-178 | None exactly when the class is skipped; otherwise `initialName == name`, and name, base, constants, constructor definition, fields and id are the parsed parts |
| Packets.SerializePacketConfig | src/netcode_parser/DONetcodeParser.py:387-413 | None exactly when the class is skipped; otherwise `initialName == name`, and name, base, constants, constructor definition, fields, id and write body are the parsed parts |
| Packets.ConfigExtendsBase | src/netcode_parser/DONetcodeParser.py:395-412 | the full record is the base record plus the write body; the two agree on skipping and on every failure before the write body |
| Packets.ConfigFailsFast | src/netcode_parser/DONetcodeParser.py:395-400 | the parts are parsed in the order class, constants, constructor, fields, id, and the first refusal is the result |
| Packets.PacketWriteBody | src/netcode_parser/DONetcodeParser.py:401-412 | the write body of a record has at most one entry per line, all well formed, and is empty without a `write` function |

## Left out

- `read_body` and the file handles of `serialize_packet_base` and `serialize_packet_config` are file I/O. The entry points take the lines directly, after `read_body` would have removed `\r` and `\n`.
- The `print` of the skip message and every `log_*` call are console output. They have no effect on the results.
- `src/netcode_parser/Log.py` holds debug switches and printing only. It is not part of this model.
- `src/darkorbit-netcode-parser/DONetcodeParser.py` is an earlier, superseded copy of the same extractors. It is not part of this model.
- The CSV fixture that `tests/test_DONetcodeParser.py` reads is not part of this model. The rotation lemmas state the property that test asserts, for every line of the shapes the client writes.
- Regular expressions in general are not modelled. Each pattern the parser uses has its own recogniser.
- `\w`, `\d` and `str.lower()` are taken in their ASCII sense. Python's Unicode classes for non-ASCII letters and digits are not modelled.
- Dicts are modelled as datatypes, and their key spellings are not modelled. The super-call and submodule entries, whose type key is spelled `"type:"`, are the separate constructors `SuperCall` and `Submodule`.
- Python's `None` for `current_field` and `current_field_length_type` is the empty string. Neither is read before a length line sets it.
- ModuleId.ModuleIdOfLine: its contract gives the value only for the decimal shape. The hexadecimal and product shapes are stated for whole id lines by `ModuleIdExamples.HexId`, `ProductId` and `TripleProductId`.
- FieldDefinitions.ShiftedDirection: states that the direction reported is that of an operator the line holds, not which occurrence. `FieldRotationRead` and `ElementRotationRead` pin down the occurrence for the shapes the client writes.
- ShiftExamples.FieldRotationRead: stated for lines with no `th` before the call, so that the call is the leftmost match of the pattern.
- ShiftExamples.ElementRotationRead: stated for lines with no `_` before the call, for the same reason.
- ShiftExamples.FieldRotationRead: stated for lines whose `%`, if any, belongs to the modulus. A `%` elsewhere on a line makes the parser try the calculated pattern.
- ModuleIdExamples.DecimalId: stated for an id call that follows only whitespace.
- ModuleIdExamples.HexId: stated for an id call that follows only whitespace and is followed by no `p`, so that no other call can match first.
- ModuleIdExamples.ProductId: stated for an id call that follows only whitespace and is followed by no `p`.
- ModuleIdExamples.TripleProductId: stated for an id call that follows only whitespace and is followed by no `p`.

The model follows the code where it behaves otherwise than one might expect of the parser:

- A hexadecimal id is accepted only in lower case, so `param1.writeShort(0x1F)` gives no id (`ModuleIdExamples.UpperHexNotRecognised`).
- The write body is returned when the lines end in any state, not only in `BODY`.
- A constant's value is kept as the token string. It is not converted to an integer.
- `super(param2, param1)` with a space after the comma does not match `super\(([\w.<>,]+)\)`, so it resolves no parameter.
- An `int` field takes its width from the first line matching `param1.write<T>...<name>`, whatever `T` is. This is not limited to `short`.
