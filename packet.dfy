/** `serialize_packet_config` and `serialize_packet_base`: one packet class in,
    one record out, with each part parsed in a fixed order and the first
    refusal reported. */
module Packets {
  import opened Outcomes
  import opened Text
  import opened Schema
  import opened Header
  import C = Constants
  import F = Fields
  import Constructor
  import ModuleId
  import opened WriteBodyParser
  import opened WriteBodyProperties

  /** `serialize_packet_base(handle)` on the lines of the class: None for a
      class that carries no packet, otherwise the record without `writeBody`. */
  function SerializePacketBase(body: seq<string>): (r: Result<Option<PacketBase>, ParseError>)
    ensures r == Ok(None) <==> ShouldSkipClass(body)
    ensures r.Ok? && r.value.Some? ==>
      var b := r.value.value;
      b.initialName == b.name && IsWord(b.name) && IsWord(b.base) &&
      ParseClassDefinition(body) == Ok((b.name, b.base)) && ModuleId.ParseModuleId(body) == Ok(b.id) &&
      C.Constants(body) == Ok(b.constants) && F.Fields(body) == Ok(b.fields) &&
      Constructor.ConstructorDefinition(body, b.name) == Ok(b.constructorDefinition)
  {
    if ShouldSkipClass(body) then Ok(None)
    else
      var header :- ParseClassDefinition(body);
      var constants :- C.Constants(body);
      var constructorDefinition :- Constructor.ConstructorDefinition(body, header.0);
      var fields :- F.Fields(body);
      var id :- ModuleId.ParseModuleId(body);
      Ok(Some(PacketBase(id, header.0, header.0, header.1, constants, constructorDefinition, fields)))
  }

  /** `serialize_packet_config(handle)`: the same record as the base, with the
      parsed write body last. */
  function SerializePacketConfig(body: seq<string>): (r: Result<Option<PacketSchema>, ParseError>)
    ensures r == Ok(None) <==> ShouldSkipClass(body)
    ensures r.Ok? && r.value.Some? ==>
      var p := r.value.value;
      p.initialName == p.name && IsWord(p.name) && IsWord(p.base) &&
      ParseClassDefinition(body) == Ok((p.name, p.base)) && ModuleId.ParseModuleId(body) == Ok(p.id) &&
      C.Constants(body) == Ok(p.constants) && F.Fields(body) == Ok(p.fields) &&
      Constructor.ConstructorDefinition(body, p.name) == Ok(p.constructorDefinition) &&
      WriteBody(body) == Ok(p.writeBody)
  {
    if ShouldSkipClass(body) then Ok(None)
    else
      var header :- ParseClassDefinition(body);
      var constants :- C.Constants(body);
      var constructorDefinition :- Constructor.ConstructorDefinition(body, header.0);
      var fields :- F.Fields(body);
      var id :- ModuleId.ParseModuleId(body);
      var writeBody :- WriteBody(body);
      Ok(Some(PacketSchema(id, header.0, header.0, header.1, constants, constructorDefinition, fields, writeBody)))
  }

  /** The base record of a full record: every key but `writeBody`. */
  function BaseOf(p: PacketSchema): PacketBase {
    PacketBase(p.id, p.initialName, p.name, p.base, p.constants, p.constructorDefinition, p.fields)
  }

  /** The two serializers agree: the full record is the base record plus the
      write body, a failure of the base is the full record's failure, and the
      full record fails beyond the base only in its write body. */
  lemma ConfigExtendsBase(body: seq<string>)
    ensures SerializePacketBase(body).Err? ==> SerializePacketConfig(body) == Err(SerializePacketBase(body).error)
    ensures SerializePacketBase(body) == Ok(None) <==> SerializePacketConfig(body) == Ok(None)
    ensures SerializePacketBase(body).Ok? && SerializePacketBase(body).value.Some? ==>
      match WriteBody(body)
      case Err(e) => SerializePacketConfig(body) == Err(e)
      case Ok(w) => SerializePacketConfig(body) == Ok(Some(WithWriteBody(SerializePacketBase(body).value.value, w)))
  {
    if !ShouldSkipClass(body) {
      var header := ParseClassDefinition(body);
      if header.Ok? {
        var constants := C.Constants(body);
        if constants.Ok? {
          var constructorDefinition := Constructor.ConstructorDefinition(body, header.value.0);
          if constructorDefinition.Ok? {
            var fields := F.Fields(body);
            if fields.Ok? {
              var id := ModuleId.ParseModuleId(body);
              if id.Ok? {
                assert SerializePacketBase(body) == Ok(Some(PacketBase(id.value, header.value.0, header.value.0,
                  header.value.1, constants.value, constructorDefinition.value, fields.value)));
              }
            }
          }
        }
      }
    }
  }

  /** The full record made of a base record and a write body. */
  function WithWriteBody(b: PacketBase, w: seq<WriteStep>): (p: PacketSchema)
    ensures BaseOf(p) == b && p.writeBody == w
  {
    PacketSchema(b.id, b.initialName, b.name, b.base, b.constants, b.constructorDefinition, b.fields, w)
  }

  /** The parts are parsed in a fixed order and the first one refused decides
      the error: class declaration, constants, constructor, fields, module id,
      then the write body. */
  lemma ConfigFailsFast(body: seq<string>)
    requires !ShouldSkipClass(body)
    ensures ParseClassDefinition(body).Err? ==> SerializePacketConfig(body) == Err(ParseClassDefinition(body).error)
    ensures ParseClassDefinition(body).Ok? && C.Constants(body).Err? ==>
      SerializePacketConfig(body) == Err(C.Constants(body).error)
    ensures ParseClassDefinition(body).Ok? && C.Constants(body).Ok? ==>
      var constructorDefinition := Constructor.ConstructorDefinition(body, ParseClassDefinition(body).value.0);
      (constructorDefinition.Err? ==> SerializePacketConfig(body) == Err(constructorDefinition.error)) &&
      (constructorDefinition.Ok? && F.Fields(body).Err? ==> SerializePacketConfig(body) == Err(F.Fields(body).error)) &&
      (constructorDefinition.Ok? && F.Fields(body).Ok? && ModuleId.ParseModuleId(body).Err? ==>
        SerializePacketConfig(body) == Err(ModuleId.ParseModuleId(body).error))
  {
  }

  /** The write body of a serialized class holds at most one entry per line,
      each of them well formed, and is empty when the class has no `write`
      function. */
  lemma PacketWriteBody(body: seq<string>)
    requires SerializePacketConfig(body).Ok? && SerializePacketConfig(body).value.Some?
    ensures |SerializePacketConfig(body).value.value.writeBody| <= |body|
    ensures forall e | e in SerializePacketConfig(body).value.value.writeBody :: WellFormedEntry(e)
    ensures (forall j | 0 <= j < |body| :: !Contains(body[j], "public function write")) ==>
      SerializePacketConfig(body).value.value.writeBody == []
  {
    OutputBound(body);
    EntriesWellFormed(body);
    if forall j | 0 <= j < |body| :: !Contains(body[j], "public function write") {
      NoWriteFunctionEmpty(body);
    }
  }
}
