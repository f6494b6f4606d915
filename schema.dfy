/** The records the parser builds from one decompiled packet class, and the
    reasons it gives up on one. */
module Schema {
  import opened Outcomes

  /** `shiftOperationFromClientToServer.direction`: `>>>` is "right", `<<` is "left". */
  datatype Direction = Left | Right

  /** The rotation the client applies before sending a value. */
  datatype Shift = Shift(direction: Direction, amount: nat)

  /** What `parse_field_definition` returns: the written name, its type and,
      for a rotated value, the rotation. */
  datatype FieldDefinition = FieldDefinition(name: string, fieldType: string, shift: Option<Shift>)

  /** One entry of `writeBody`, in the order the client writes it. */
  datatype WriteStep =
      /** `param1.write<T>(this.x)`, possibly rotated */
    | Scalar(definition: FieldDefinition)
      /** `{"name", "length_type", "type": "arrayOfModules"}` */
    | ArrayOfModules(name: string, lengthType: string)
      /** `{"name", "length_type", "type": "arrayOfPrimitives", "subType"}` and the
          element rotation when there is one */
    | ArrayOfPrimitives(name: string, lengthType: string, subType: string, shift: Option<Shift>)
      /** `{"name": "super_call", "type:": "super_call"}` (the key is spelled `type:`) */
    | SuperCall
      /** `{"name": <field>, "type:": "submodule"}` for an `if(...)` guard
          (the key is spelled `type:`) */
    | Submodule(name: string)

  /** `{"name", "type", "value"}`; the value is the token as written. */
  datatype Constant = Constant(name: string, valueType: string, value: string)

  /** `{"name", "initialName", "type"}` */
  datatype Field = Field(name: string, initialName: string, fieldType: string)

  /** `fieldRef`: the field a constructor parameter is stored in, or `super$<index>`
      when it is passed on to the base class's constructor. */
  datatype FieldRef = Owned(field: string) | SuperSlot(index: nat)

  datatype ConstructorParam = ConstructorParam(name: string, paramType: string, fieldRef: FieldRef)

  /** What `serialize_packet_config` returns for a class it does not skip. */
  datatype PacketSchema = PacketSchema(
    id: int,
    initialName: string,
    name: string,
    base: string,
    constants: seq<Constant>,
    constructorDefinition: seq<ConstructorParam>,
    fields: seq<Field>,
    writeBody: seq<WriteStep>)

  /** What `serialize_packet_base` returns: the same record without `writeBody`. */
  datatype PacketBase = PacketBase(
    id: int,
    initialName: string,
    name: string,
    base: string,
    constants: seq<Constant>,
    constructorDefinition: seq<ConstructorParam>,
    fields: seq<Field>)

  /** One constructor per `raise` of the parser (and per Python error it runs into). */
  datatype ParseError =
      /** no line contains `public class` (the parser then fails on `None`) */
    | ClassLineMissing
    | ClassNameNotFound(line: string)
    | BaseClassNotFound(line: string)
    | ConstantMalformed(line: string)
    | ConstantTypeUnknown(typeName: string, line: string)
    | WriteCallNotFound(field: string)
    | FieldRefNotFound(param: string)
      /** `int()` refused a token such as `--5` */
    | IntLiteralInvalid(token: string)
    | ModuleIdNotFound
    | ShiftNotFound(line: string)
    | NameNotFound(line: string)
    | UnknownText(line: string)
    | ArraySubtypeNotFound(line: string)
    | ForEachFieldNotFound(line: string)
    | ArrayFieldNotFound(line: string)
    | IfFieldNotFound(line: string)
    | TypeNotIdentified(line: string)
    | UnknownType(typeName: string)
    | UnhandledState(state: string)
}
