/** The registry client as one caller uses it, and the serializer and deserializer built on it. */
module SchemaClient {
  import opened Bytes
  import opened Text
  import opened SchemaCache
  import opened WireFormat

  /** The registry server. It answers a known registration with its id and a new one with a new id. */
  class Server {
    var state: Remote

    constructor (state: Remote)
      ensures this.state == state
    {
      this.state := state;
    }

    method Post(reg: Registration, freshId: int) returns (id: int)
      requires Consistent(state) && freshId !in state.schemas
      modifies this
      ensures Consistent(state) && Extends(state, old(state)) && HasId(state, reg, id)
    {
      if KeyOf(reg) in state.ids {
        return state.ids[KeyOf(reg)];
      }
      state := state.(schemas := state.schemas[freshId := reg.schema], ids := state.ids[KeyOf(reg) := freshId]);
      return freshId;
    }
  }

  class Client {
    const server: Server
    var schemaCache: map<int, string>
    var idCache: map<string, int>
    ghost var plain: bool

    function Both(): Caches
      reads this
    {
      Caches(schemaCache, idCache)
    }

    ghost predicate Valid()
      reads this, server
    {
      && Consistent(server.state)
      && SchemasAgree(Both(), server.state)
      && (plain ==> IdsAgree(Both(), server.state))
      && IdsKnown(Both(), server.state)
    }

    /** Every cached id is one of the registry's. */
    static ghost predicate IdsKnown(c: Caches, r: Remote) {
      forall key :: key in c.ids ==> c.ids[key] in r.schemas
    }

    static lemma StillKnown(c: Caches, older: Remote, r: Remote)
      requires IdsKnown(c, older) && Extends(r, older)
      ensures IdsKnown(c, r)
    {
      forall key | key in c.ids ensures c.ids[key] in r.schemas {
        var id := c.ids[key];
        assert id in older.schemas;
      }
    }

    constructor (server: Server)
      requires Consistent(server.state)
      ensures Valid() && this.server == server && plain && Both() == Caches(map[], map[])
    {
      this.server := server;
      schemaCache, idCache, plain := map[], map[], true;
    }

    /** `up` says whether a request succeeds. */
    method GetSchemaByID(id: int, up: bool) returns (r: Option<string>)
      requires Valid()
      modifies this
      ensures Valid() && idCache == old(idCache) && plain == old(plain)
      ensures r.Some? <==> id in old(schemaCache) || (up && id in server.state.schemas)
      ensures r.Some? ==> HasSchema(server.state, id, r.value) && schemaCache == old(schemaCache)[id := r.value]
      ensures r.None? ==> schemaCache == old(schemaCache)
    {
      if id in schemaCache {
        assert schemaCache == schemaCache[id := schemaCache[id]];
        return Some(schemaCache[id]);
      }
      if !up || id !in server.state.schemas {
        return None;
      }
      var schema := server.state.schemas[id];
      schemaCache := schemaCache[id := schema];
      return Some(schema);
    }

    /** The latest version is always requested; its schema is cached under its id. */
    method GetLatestSchema(subject: string, up: bool) returns (r: Option<Metadata>)
      requires Valid()
      modifies this
      ensures Valid() && idCache == old(idCache) && plain == old(plain)
      ensures r.Some? <==> up && subject in server.state.latest
      ensures r.Some? ==>
        && r.value == server.state.latest[subject].(subject := subject)
        && HasSchema(server.state, r.value.id, r.value.schema)
        && schemaCache == old(schemaCache)[r.value.id := r.value.schema]
      ensures r.None? ==> schemaCache == old(schemaCache)
    {
      if !up || subject !in server.state.latest {
        return None;
      }
      var metadata := server.state.latest[subject].(subject := subject);
      schemaCache := schemaCache[metadata.id := metadata.schema];
      return Some(metadata);
    }

    /** A cached answer is returned without a request. Every answer is an id of the registry; as long as
        no subject or type had a colon, it is the id the registry holds for this registration. */
    method RegisterSchema(reg: Registration, up: bool, freshId: int) returns (r: Option<int>)
      requires Valid() && freshId !in server.state.schemas
      modifies this, server
      ensures Valid() && Extends(server.state, old(server.state)) && schemaCache == old(schemaCache)
      ensures plain == (old(plain) && Plain(reg))
      ensures CacheKey(reg) in old(idCache) ==>
        r == Some(old(idCache)[CacheKey(reg)]) && server.state == old(server.state) && idCache == old(idCache)
      ensures CacheKey(reg) !in old(idCache) ==>
        && r.Some? == up
        && (r.Some? ==> HasId(server.state, reg, r.value) && idCache == old(idCache)[CacheKey(reg) := r.value])
        && (r.None? ==> server.state == old(server.state) && idCache == old(idCache))
      ensures r.Some? ==> r.value in server.state.schemas
      ensures r.Some? && plain ==> HasId(server.state, reg, r.value)
    {
      plain := plain && Plain(reg);
      var cacheKey := reg.subject + ":" + reg.kind + ":" + reg.schema;
      if cacheKey in idCache {
        return Some(idCache[cacheKey]);
      }
      if !up {
        return None;
      }
      ghost var before := Both();
      ghost var older := server.state;
      var id := server.Post(reg, freshId);
      StillKnown(before, older, server.state);
      assert SchemasAgree(before, server.state) && IdsKnown(before, server.state) && (plain ==>
          IdsAgree(before, server.state));
      assert KeyOf(reg) in server.state.ids && id in server.state.schemas;
      idCache := idCache[cacheKey := id];
      assert Both() == CacheId(before, reg, id);
      if plain {
        StoreIdAgrees(before, server.state, reg, id);
      }
      return Some(id);
    }
  }

  datatype Data<+V> = Raw(bytes: seq<byte>) | Typed(value: V)

  datatype SerializeError = InnerFailed | NoInner | RegisterFailed | DecodeFailed | SchemaFailed

  datatype SerializeResult = Ok(message: seq<byte>) | Err(error: SerializeError)

  class WrapperSerializer<V> {
    const registry: Client
    const reg: Registration
    const inner: Option<V -> Option<seq<byte>>>

    constructor (registry: Client, reg: Registration, inner: Option<V -> Option<seq<byte>>>)
      ensures this.registry == registry && this.inner == inner && this.reg == reg
    {
      this.registry, this.inner, this.reg := registry, inner, reg;
    }

    /** The bytes to send: raw bytes as they are, anything else through the inner serializer. */
    function Payload(data: Data<V>): Option<seq<byte>> {
      match data
      case Raw(b) => Some(b)
      case Typed(v) => if inner.Some? then inner.value(v) else None
    }

    method Serialize(data: Data<V>, up: bool, freshId: int) returns (r: SerializeResult, ghost id: int)
      requires registry.Valid() && freshId !in registry.server.state.schemas
      modifies registry, registry.server
      ensures registry.Valid() && Extends(registry.server.state, old(registry.server.state))
      ensures r == Err(NoInner) <==> data.Typed? && inner.None?
      ensures r == Err(InnerFailed) <==> data.Typed? && inner.Some? && inner.value(data.value).None?
      ensures r == Err(RegisterFailed) <==> Payload(data).Some? && !up && CacheKey(reg) !in old(registry.idCache)
      ensures r.Err? ==> r.error in {NoInner, InnerFailed, RegisterFailed}
      ensures r.Ok? ==> Payload(data).Some? && r.message == Header(id) + Payload(data).value
      ensures registry.plain == (old(registry.plain) && (Payload(data).Some? ==> Plain(reg)))
      ensures r.Ok? ==> id in registry.server.state.schemas
      ensures r.Ok? && registry.plain ==> HasId(registry.server.state, reg, id)
    {
      id := 0;
      var encoded: seq<byte>;
      if data.Raw? {
        encoded := data.bytes;
      } else if inner.Some? {
        var e := inner.value(data.value);
        if e.None? {
          return Err(InnerFailed), id;
        }
        encoded := e.value;
      } else {
        return Err(NoInner), id;
      }
      var schemaID := registry.RegisterSchema(reg, up, freshId);
      if schemaID.None? {
        return Err(RegisterFailed), id;
      }
      id := schemaID.value;
      var header := EncodeSchemaID(schemaID.value);
      return Ok(header[..] + encoded), id;
    }
  }

  datatype ConfigError = NoRegistry | NoSubject | NoSchema

  /** NewWrapperSerializer: the first thing missing is the error; the type defaults to AVRO, as it does
      in the registry, so the registration is the one asked for. */
  method NewWrapperSerializer<V>(registry: Client?, subject: string, schemaType: string, schema: string,
                                 inner: Option<V -> Option<seq<byte>>>)
    returns (s: WrapperSerializer?<V>, err: Option<ConfigError>)
    ensures err == if registry == null then Some(NoRegistry) else if subject == "" then Some(NoSubject)
      else if schema == "" then Some(NoSchema) else None
    ensures s == null <==> err.Some?
    ensures s != null ==>
      && fresh(s) && s.registry == registry && s.inner == inner
      && s.reg == Registration(subject, schema, if schemaType == "" then "AVRO" else schemaType)
      && KeyOf(s.reg) == KeyOf(Registration(subject, schema, schemaType))
  {
    if registry == null {
      return null, Some(NoRegistry);
    }
    if subject == "" {
      return null, Some(NoSubject);
    }
    if schema == "" {
      return null, Some(NoSchema);
    }
    var kind := schemaType;
    if kind == "" {
      kind := "AVRO";
    }
    s := new WrapperSerializer(registry, Registration(subject, schema, kind), inner);
    err := None;
  }

  /** What Deserialize is asked to fill: a byte slice, or something else through the inner deserializer. */
  class Target<V> {
    const isBytes: bool
    var bytes: seq<byte>
    var value: Option<V>

    constructor (isBytes: bool)
      ensures this.isBytes == isBytes && bytes == [] && value == None
    {
      this.isBytes, bytes, value := isBytes, [], None;
    }
  }

  /** What an inner deserializer does: what it writes to the target, and whether it reports success. It may
      have written before it fails. */
  datatype Filled<+V> = Filled(bytes: Option<seq<byte>>, value: Option<V>, ok: bool)

  class WrapperDeserializer<V> {
    const registry: Client
    const inner: Option<seq<byte> -> Filled<V>>

    constructor (registry: Client, inner: Option<seq<byte> -> Filled<V>>)
      ensures this.registry == registry && this.inner == inner
    {
      this.registry, this.inner := registry, inner;
    }

    method Deserialize(data: seq<byte>, target: Target<V>, up: bool) returns (err: Option<SerializeError>)
      requires registry.Valid()
      modifies registry, target
      ensures registry.Valid() && registry.idCache == old(registry.idCache) && registry.plain == old(registry.plain)
      ensures
        var m := DecodeSchemaID(data);
        err == if !m.Message? then Some(DecodeFailed)
          else if m.id !in old(registry.schemaCache) && !(up && m.id in registry.server.state.schemas)
            then Some(SchemaFailed)
          else if inner.Some? then (if inner.value(m.payload).ok then None else Some(InnerFailed))
          else if target.isBytes then None else Some(NoInner)
      ensures err.None? && inner.None? ==>
        target.bytes == DecodeSchemaID(data).payload && target.value == old(target.value)
      ensures inner.Some? && (err.None? || err == Some(InnerFailed)) ==>
        var f := inner.value(DecodeSchemaID(data).payload);
        && target.value == (if f.value.Some? then f.value else old(target.value))
        && target.bytes == (if f.bytes.Some? then f.bytes.value else old(target.bytes))
      ensures err.Some? && err != Some(InnerFailed) ==>
        target.value == old(target.value) && target.bytes == old(target.bytes)
    {
      var m := DecodeSchemaID(data);
      if !m.Message? {
        return Some(DecodeFailed);
      }
      var schema := registry.GetSchemaByID(m.id, up);
      if schema.None? {
        return Some(SchemaFailed);
      }
      if inner.Some? {
        var f := inner.value(m.payload);
        if f.value.Some? {
          target.value := f.value;
        }
        if f.bytes.Some? {
          target.bytes := f.bytes.value;
        }
        return if f.ok then None else Some(InnerFailed);
      }
      if target.isBytes {
        target.bytes := m.payload;
        return None;
      }
      return Some(NoInner);
    }
  }

  /** What Serialize wrote, Deserialize accepts on the same registry, however it has grown since, and
      the payload comes back: the id decodes to itself and names the schema that was registered. This
      needs the id to fit the four bytes of the header. */
  lemma WrapperRoundTrip(before: Remote, now: Remote, reg: Registration, id: int, payload: seq<byte>)
    requires Consistent(before) && Extends(now, before) && HasId(before, reg, id) && 0 <= id < UINT32_END
    ensures DecodeSchemaID(Header(id) + payload) == Message(id, payload)
    ensures HasSchema(now, id, reg.schema)
  {
    EncodeThenDecode(id, payload);
    assert before.ids[KeyOf(reg)] in before.schemas;
  }

  /** The two wrappers on one registry that answers: raw bytes written by the one are what the other
      puts into a byte slice, for every payload and every registered id of 32 bits; without colons the
      id is the one registered for the serializer's schema. */
  method SerializeThenDeserialize<V>(s: WrapperSerializer<V>, d: WrapperDeserializer<V>, payload: seq<byte>,
                                     target: Target<V>, freshId: int)
    returns (err: Option<SerializeError>, ghost id: int)
    requires s.registry == d.registry && s.registry.Valid()
    requires freshId !in s.registry.server.state.schemas
    requires d.inner.None? && target.isBytes
    modifies s.registry, s.registry.server, target
    ensures s.registry.plain ==> HasId(s.registry.server.state, s.reg, id)
    ensures 0 <= id < UINT32_END ==> err == None && target.bytes == payload
  {
    var r;
    r, id := s.Serialize(Raw(payload), true, freshId);
    EncodeThenDecode(id, payload);
    err := d.Deserialize(r.message, target, true);
  }
}
