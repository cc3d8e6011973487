/**
 * The Swagger 2.0 document of one service (src/SwaggerWcf/Models/Service.cs)
 * and the JSON writer it serializes into.
 *
 * The writer is modelled by the tokens it has received.  `Info.Serialize`,
 * `Path.Serialize` and `Definition.Serialize` are collaborators whose output
 * this model does not look into: each writes one opaque block token.
 */
module Models {
  import opened Wrappers
  import opened Ordering

  // ---------------------------------------------------------------------------
  // Values
  // ---------------------------------------------------------------------------

  /** A route of the document; `body` stands for everything `Path.Serialize` writes besides its key. */
  datatype Path = Path(id: string, body: string)

  datatype Schema = Schema(name: string, body: string)

  /** A named schema of the document's `definitions`. */
  datatype Definition = Definition(schema: Schema)

  function PathKey(p: Path): string { p.id }

  function DefinitionKey(d: Definition): string { d.schema.name }

  datatype ContactValue = ContactValue(name: Option<string>, url: Option<string>, email: Option<string>)

  datatype LicenseValue = LicenseValue(url: Option<string>, name: Option<string>)

  /** The state of an `Info` object and of the containers it points to. */
  datatype InfoValue = InfoValue(
    title: Option<string>,
    description: Option<string>,
    version: Option<string>,
    termsOfService: Option<string>,
    contact: Option<ContactValue>,
    license: Option<LicenseValue>)

  /** The state of a `Service` object, its `Info` included. */
  datatype ServiceValue = ServiceValue(
    swagger: Option<string>,
    info: Option<InfoValue>,
    host: Option<string>,
    basePath: Option<string>,
    schemes: Option<seq<string>>,
    paths: Option<seq<Path>>,
    definitions: Option<seq<Definition>>,
    name: Option<string>)

  /** What a JSON writer receives. */
  datatype Token =
    | StartObject
    | EndObject
    | StartArray
    | EndArray
    | PropertyName(name: string)
    | StringValue(s: string)
    | NullValue
    | InfoBlock(info: InfoValue)
    | PathBlock(path: Path)
    | DefinitionBlock(definition: Definition)
  {
    /** The output of a collaborator's serializer. */
    predicate IsBlock()
    {
      InfoBlock? || PathBlock? || DefinitionBlock?
    }
  }

  /** `writer.WriteValue(s)` for a string that may be null. */
  function ValueToken(s: Option<string>): Token
  {
    match s
    case Some(v) => StringValue(v)
    case None => NullValue
  }

  /** The list is present and holds at least one element. */
  predicate HasAny<T>(list: Option<seq<T>>)
  {
    list.Some? && |list.value| > 0
  }

  function SchemeTokens(schemes: seq<string>): (r: seq<Token>)
    ensures |r| == |schemes|
  {
    seq(|schemes|, i requires 0 <= i < |schemes| => StringValue(schemes[i]))
  }

  function PathTokens(paths: seq<Path>): (r: seq<Token>)
    ensures |r| == |paths|
  {
    seq(|paths|, i requires 0 <= i < |paths| => PathBlock(paths[i]))
  }

  function DefinitionTokens(definitions: seq<Definition>): (r: seq<Token>)
    ensures |r| == |definitions|
  {
    seq(|definitions|, i requires 0 <= i < |definitions| => DefinitionBlock(definitions[i]))
  }

  /** The state of a freshly constructed `Service`. */
  function NewServiceValue(): ServiceValue
  {
    ServiceValue(Some("2.0"), None, None, None, Some([]), Some([]), Some([]), None)
  }

  /** The tokens `Service.Serialize` writes for a service in state `v`. */
  function SerializeSpec(v: ServiceValue): seq<Token>
  {
    [StartObject, PropertyName("swagger"), ValueToken(v.swagger)]
    + InfoSection(v.info)
    + StringSection("host", v.host)
    + StringSection("basePath", v.basePath)
    + SchemesSection(v.schemes)
    + PathsSection(v.paths)
    + DefinitionsSection(v.definitions)
    + [EndObject]
  }

  lemma Append(a: seq<Token>, b: seq<Token>, c: seq<Token>)
    ensures a + (b + c) == a + b + c
  {
  }

  function InfoSection(info: Option<InfoValue>): seq<Token>
  {
    if info.Some? then [PropertyName("info"), InfoBlock(info.value)] else []
  }

  function StringSection(key: string, s: Option<string>): seq<Token>
  {
    if s.Some? then [PropertyName(key), StringValue(s.value)] else []
  }

  function SchemesSection(schemes: Option<seq<string>>): seq<Token>
  {
    if HasAny(schemes) then [PropertyName("schemes")] + SchemesArray(schemes.value) else []
  }

  /** What `WriteSchemes` writes. */
  function SchemesArray(schemes: seq<string>): seq<Token>
  {
    [StartArray] + SchemeTokens(schemes) + [EndArray]
  }

  function PathsSection(paths: Option<seq<Path>>): seq<Token>
  {
    if HasAny(paths) then [PropertyName("paths")] + PathsObject(paths.value) else []
  }

  /** What `WritePaths` writes: the paths in ascending order of `Id`. */
  function PathsObject(paths: seq<Path>): seq<Token>
  {
    [StartObject] + PathTokens(OrderBy(paths, PathKey)) + [EndObject]
  }

  function DefinitionsSection(definitions: Option<seq<Definition>>): seq<Token>
  {
    if HasAny(definitions) then [PropertyName("definitions")] + DefinitionsObject(definitions.value) else []
  }

  /** What `WriteDefinitions` writes: the definitions in ascending order of `Schema.Name`. */
  function DefinitionsObject(definitions: seq<Definition>): seq<Token>
  {
    [StartObject] + DefinitionTokens(OrderBy(definitions, DefinitionKey)) + [EndObject]
  }

  // ---------------------------------------------------------------------------
  // The JSON writer
  // ---------------------------------------------------------------------------

  class JsonWriter {
    /** Everything written so far. */
    var tokens: seq<Token>

    constructor ()
      ensures tokens == []
    {
      tokens := [];
    }

    method WriteStartObject()
      modifies this
      ensures tokens == old(tokens) + [StartObject]
    {
      tokens := tokens + [StartObject];
    }

    method WriteEndObject()
      modifies this
      ensures tokens == old(tokens) + [EndObject]
    {
      tokens := tokens + [EndObject];
    }

    method WriteStartArray()
      modifies this
      ensures tokens == old(tokens) + [StartArray]
    {
      tokens := tokens + [StartArray];
    }

    method WriteEndArray()
      modifies this
      ensures tokens == old(tokens) + [EndArray]
    {
      tokens := tokens + [EndArray];
    }

    method WritePropertyName(name: string)
      modifies this
      ensures tokens == old(tokens) + [PropertyName(name)]
    {
      tokens := tokens + [PropertyName(name)];
    }

    method WriteValue(s: Option<string>)
      modifies this
      ensures tokens == old(tokens) + [ValueToken(s)]
    {
      tokens := tokens + [ValueToken(s)];
    }

    /** What a collaborator's own `Serialize(writer)` contributes. */
    method WriteBlock(t: Token)
      requires t.IsBlock()
      modifies this
      ensures tokens == old(tokens) + [t]
    {
      tokens := tokens + [t];
    }
  }

  // ---------------------------------------------------------------------------
  // The mutable objects
  // ---------------------------------------------------------------------------

  class InfoContact {
    var name: Option<string>
    var url: Option<string>
    var email: Option<string>

    constructor ()
      ensures name.None? && url.None? && email.None?
    {
      name, url, email := None, None, None;
    }

    function Value(): ContactValue
      reads this
    {
      ContactValue(name, url, email)
    }
  }

  class InfoLicense {
    var url: Option<string>
    var name: Option<string>

    constructor ()
      ensures url.None? && name.None?
    {
      url, name := None, None;
    }

    function Value(): LicenseValue
      reads this
    {
      LicenseValue(url, name)
    }
  }

  class Info {
    var title: Option<string>
    var description: Option<string>
    var version: Option<string>
    var termsOfService: Option<string>
    var contact: InfoContact?
    var license: InfoLicense?

    constructor ()
      ensures Value() == InfoValue(None, None, None, None, None, None)
    {
      title, description, version, termsOfService := None, None, None, None;
      contact, license := null, null;
    }

    function Value(): InfoValue
      reads this, contact, license
    {
      InfoValue(title, description, version, termsOfService,
                if contact == null then None else Some(contact.Value()),
                if license == null then None else Some(license.Value()))
    }

    /** `Info.Serialize(writer)`, a collaborator: one opaque block. */
    method Serialize(writer: JsonWriter)
      modifies writer
      ensures writer.tokens == old(writer.tokens) + [InfoBlock(Value())]
    {
      writer.WriteBlock(InfoBlock(Value()));
    }
  }

  class Service {
    var swagger: Option<string>
    var info: Info?
    var host: Option<string>
    var basePath: Option<string>
    var schemes: Option<seq<string>>
    var paths: Option<seq<Path>>
    var definitions: Option<seq<Definition>>
    /** Tells documents apart; never serialized. */
    var name: Option<string>

    /** `new Service()`. */
    constructor ()
      ensures info == null
      ensures Value() == NewServiceValue()
    {
      swagger := Some("2.0");
      info := null;
      host, basePath := None, None;
      schemes, paths, definitions := Some([]), Some([]), Some([]);
      name := None;
    }

    function Value(): ServiceValue
      reads this, info, if info == null then {} else {info.contact, info.license}
    {
      ServiceValue(swagger, if info == null then None else Some(info.Value()),
                   host, basePath, schemes, paths, definitions, name)
    }

    /**
     * `Service.Serialize(writer)`.  Each conditional block of the source is one
     * helper method below, in the source's order.
     */
    method Serialize(writer: JsonWriter)
      modifies writer
      ensures writer.tokens == old(writer.tokens) + SerializeSpec(old(Value()))
    {
      ghost var v := Value();
      ghost var before := writer.tokens;
      writer.WriteStartObject();

      writer.WritePropertyName("swagger");
      writer.WriteValue(swagger);
      // `spec` is the part of SerializeSpec(v) written so far.
      ghost var spec: seq<Token> := [StartObject, PropertyName("swagger"), ValueToken(v.swagger)];
      assert writer.tokens == before + spec;

      WriteInfoProperty(writer);
      Append(before, spec, InfoSection(v.info));
      spec := spec + InfoSection(v.info);
      assert writer.tokens == before + spec;

      WriteStringProperty(writer, "host", host);
      Append(before, spec, StringSection("host", v.host));
      spec := spec + StringSection("host", v.host);
      assert writer.tokens == before + spec;

      WriteStringProperty(writer, "basePath", basePath);
      Append(before, spec, StringSection("basePath", v.basePath));
      spec := spec + StringSection("basePath", v.basePath);
      assert writer.tokens == before + spec;

      WriteSchemesProperty(writer);
      Append(before, spec, SchemesSection(v.schemes));
      spec := spec + SchemesSection(v.schemes);
      assert writer.tokens == before + spec;

      WritePathsProperty(writer);
      Append(before, spec, PathsSection(v.paths));
      spec := spec + PathsSection(v.paths);
      assert writer.tokens == before + spec;

      WriteDefinitionsProperty(writer);
      Append(before, spec, DefinitionsSection(v.definitions));
      spec := spec + DefinitionsSection(v.definitions);
      assert writer.tokens == before + spec;

      writer.WriteEndObject();
      Append(before, spec, [EndObject]);
    }

    /** The `info` block: the key and the collaborator's output, when `Info` is set. */
    method WriteInfoProperty(writer: JsonWriter)
      modifies writer
      ensures writer.tokens == old(writer.tokens) + InfoSection(Value().info)
    {
      if info != null {
        writer.WritePropertyName("info");
        info.Serialize(writer);
      }
    }

    /** The `host` and `basePath` blocks: written when the value is not null, even when empty. */
    method WriteStringProperty(writer: JsonWriter, key: string, value: Option<string>)
      modifies writer
      ensures writer.tokens == old(writer.tokens) + StringSection(key, value)
    {
      if value.Some? {
        writer.WritePropertyName(key);
        writer.WriteValue(value);
      }
    }

    /** The `schemes` block: written only when the list is non-null and non-empty. */
    method WriteSchemesProperty(writer: JsonWriter)
      modifies writer
      ensures writer.tokens == old(writer.tokens) + SchemesSection(schemes)
    {
      if schemes.Some? && |schemes.value| > 0 {
        ghost var at := writer.tokens;
        writer.WritePropertyName("schemes");
        WriteSchemes(writer);
        Append(at, [PropertyName("schemes")], SchemesArray(schemes.value));
      }
    }

    /** The `paths` block: written only when the list is non-null and non-empty. */
    method WritePathsProperty(writer: JsonWriter)
      modifies writer
      ensures writer.tokens == old(writer.tokens) + PathsSection(paths)
    {
      if paths.Some? && |paths.value| > 0 {
        ghost var at := writer.tokens;
        writer.WritePropertyName("paths");
        WritePaths(writer);
        Append(at, [PropertyName("paths")], PathsObject(paths.value));
      }
    }

    /** The `definitions` block: written only when the list is non-null and non-empty. */
    method WriteDefinitionsProperty(writer: JsonWriter)
      modifies writer
      ensures writer.tokens == old(writer.tokens) + DefinitionsSection(definitions)
    {
      if definitions.Some? && |definitions.value| > 0 {
        ghost var at := writer.tokens;
        writer.WritePropertyName("definitions");
        WriteDefinitions(writer);
        Append(at, [PropertyName("definitions")], DefinitionsObject(definitions.value));
      }
    }

    method WritePaths(writer: JsonWriter)
      requires paths.Some?
      modifies writer
      ensures writer.tokens == old(writer.tokens) + PathsObject(paths.value)
    {
      writer.WriteStartObject();
      WritePathBlocks(writer, OrderBy(paths.value, PathKey));
      writer.WriteEndObject();
    }

    /** The loop over the sorted paths: one block per path, in order. */
    static method WritePathBlocks(writer: JsonWriter, sorted: seq<Path>)
      modifies writer
      ensures writer.tokens == old(writer.tokens) + PathTokens(sorted)
    {
      for i := 0 to |sorted|
        invariant writer.tokens == old(writer.tokens) + PathTokens(sorted[..i])
      {
        assert PathTokens(sorted[..i + 1]) == PathTokens(sorted[..i]) + [PathBlock(sorted[i])];
        writer.WriteBlock(PathBlock(sorted[i]));
      }
      assert sorted[..|sorted|] == sorted;
    }

    method WriteDefinitions(writer: JsonWriter)
      requires definitions.Some?
      modifies writer
      ensures writer.tokens == old(writer.tokens) + DefinitionsObject(definitions.value)
    {
      writer.WriteStartObject();
      WriteDefinitionBlocks(writer, OrderBy(definitions.value, DefinitionKey));
      writer.WriteEndObject();
    }

    /** The loop over the sorted definitions: one block per definition, in order. */
    static method WriteDefinitionBlocks(writer: JsonWriter, sorted: seq<Definition>)
      modifies writer
      ensures writer.tokens == old(writer.tokens) + DefinitionTokens(sorted)
    {
      for i := 0 to |sorted|
        invariant writer.tokens == old(writer.tokens) + DefinitionTokens(sorted[..i])
      {
        assert DefinitionTokens(sorted[..i + 1])
            == DefinitionTokens(sorted[..i]) + [DefinitionBlock(sorted[i])];
        writer.WriteBlock(DefinitionBlock(sorted[i]));
      }
      assert sorted[..|sorted|] == sorted;
    }

    method WriteSchemes(writer: JsonWriter)
      requires schemes.Some?
      modifies writer
      ensures writer.tokens == old(writer.tokens) + SchemesArray(schemes.value)
    {
      writer.WriteStartArray();
      var list := schemes.value;
      for i := 0 to |list|
        invariant writer.tokens == old(writer.tokens) + [StartArray] + SchemeTokens(list[..i])
      {
        assert SchemeTokens(list[..i + 1]) == SchemeTokens(list[..i]) + [StringValue(list[i])];
        writer.WriteValue(Some(list[i]));
      }
      assert list[..|list|] == list;
      writer.WriteEndArray();
    }
  }
}
