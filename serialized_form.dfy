/**
 * What a JSON reader sees in the output of `Service.Serialize`: reading the
 * token stream back as one JSON object gives its members in order.  The
 * lemmas here state the layout of the Swagger 2.0 document in those terms.
 */
module SerializedForm {
  import opened Wrappers
  import opened Ordering
  import opened Models

  datatype JsonValue =
    | Scalar(token: Token)
    | Array(items: seq<Token>)
    | Object(items: seq<Token>)

  datatype Member = Member(key: string, value: JsonValue)

  /** A token that is a whole value on its own. */
  predicate IsAtom(t: Token)
  {
    t.StringValue? || t.NullValue? || t.IsBlock()
  }

  // ---------------------------------------------------------------------------
  // Reading tokens back
  // ---------------------------------------------------------------------------

  /** Reads atoms up to `close`; gives them and what follows `close`. */
  function ParseItems(ts: seq<Token>, close: Token): (r: Option<(seq<Token>, seq<Token>)>)
    ensures r.Some? ==> |r.value.1| < |ts|
    decreases |ts|
  {
    if ts == [] then None
    else if ts[0] == close then Some(([], ts[1..]))
    else if IsAtom(ts[0]) then
      match ParseItems(ts[1..], close)
      case None => None
      case Some((items, rest)) => Some(([ts[0]] + items, rest))
    else None
  }

  function ParseValue(ts: seq<Token>): (r: Option<(JsonValue, seq<Token>)>)
    ensures r.Some? ==> |r.value.1| < |ts|
  {
    if ts == [] then None
    else if ts[0] == StartArray then
      match ParseItems(ts[1..], EndArray)
      case None => None
      case Some((items, rest)) => Some((Array(items), rest))
    else if ts[0] == StartObject then
      match ParseItems(ts[1..], EndObject)
      case None => None
      case Some((items, rest)) => Some((Object(items), rest))
    else if IsAtom(ts[0]) then Some((Scalar(ts[0]), ts[1..]))
    else None
  }

  /** Reads `name value` pairs up to the `EndObject` that must end the stream. */
  function ParseMembers(ts: seq<Token>): Option<seq<Member>>
    decreases |ts|
  {
    if ts == [EndObject] then Some([])
    else if ts != [] && ts[0].PropertyName? then
      match ParseValue(ts[1..])
      case None => None
      case Some((value, rest)) =>
        match ParseMembers(rest)
        case None => None
        case Some(members) => Some([Member(ts[0].name, value)] + members)
    else None
  }

  /** The members of the JSON object that `ts` holds, if it holds one. */
  function Parse(ts: seq<Token>): Option<seq<Member>>
  {
    if ts != [] && ts[0] == StartObject then ParseMembers(ts[1..]) else None
  }

  /** The value of the first member named `key`. */
  function Find(members: seq<Member>, key: string): Option<JsonValue>
  {
    if members == [] then None
    else if members[0].key == key then Some(members[0].value)
    else Find(members[1..], key)
  }

  // ---------------------------------------------------------------------------
  // Writing members, the other direction
  // ---------------------------------------------------------------------------

  predicate WellFormed(v: JsonValue)
  {
    match v
    case Scalar(t) => IsAtom(t)
    case Array(items) => forall i :: 0 <= i < |items| ==> IsAtom(items[i])
    case Object(items) => forall i :: 0 <= i < |items| ==> IsAtom(items[i])
  }

  function EncodeValue(v: JsonValue): seq<Token>
  {
    match v
    case Scalar(t) => [t]
    case Array(items) => [StartArray] + items + [EndArray]
    case Object(items) => [StartObject] + items + [EndObject]
  }

  function EncodeMembers(members: seq<Member>): seq<Token>
  {
    if members == [] then []
    else [PropertyName(members[0].key)] + EncodeValue(members[0].value) + EncodeMembers(members[1..])
  }

  lemma {:induction false} ParseItemsEncoded(items: seq<Token>, close: Token, rest: seq<Token>)
    requires forall i :: 0 <= i < |items| ==> IsAtom(items[i])
    requires !IsAtom(close)
    ensures ParseItems(items + [close] + rest, close) == Some((items, rest))
  {
    var ts := items + [close] + rest;
    if items == [] {
      assert ts[1..] == rest;
    } else {
      ParseItemsEncoded(items[1..], close, rest);
      assert ts[1..] == items[1..] + [close] + rest;
      assert [items[0]] + items[1..] == items;
    }
  }

  lemma ParseValueEncoded(v: JsonValue, rest: seq<Token>)
    requires WellFormed(v)
    ensures ParseValue(EncodeValue(v) + rest) == Some((v, rest))
  {
    var ts := EncodeValue(v) + rest;
    match v
    case Scalar(t) =>
      assert ts[1..] == rest;
    case Array(items) =>
      assert ts[1..] == items + [EndArray] + rest;
      ParseItemsEncoded(items, EndArray, rest);
    case Object(items) =>
      assert ts[1..] == items + [EndObject] + rest;
      ParseItemsEncoded(items, EndObject, rest);
  }

  /** Reading back what `EncodeMembers` writes gives the members again. */
  lemma {:induction false} ParseMembersEncoded(members: seq<Member>)
    requires forall i :: 0 <= i < |members| ==> WellFormed(members[i].value)
    ensures ParseMembers(EncodeMembers(members) + [EndObject]) == Some(members)
  {
    if members != [] {
      var m := members[0];
      var rest := EncodeMembers(members[1..]) + [EndObject];
      var ts := EncodeMembers(members) + [EndObject];
      assert ts == [PropertyName(m.key)] + (EncodeValue(m.value) + rest);
      assert ts[1..] == EncodeValue(m.value) + rest;
      ParseValueEncoded(m.value, rest);
      ParseMembersEncoded(members[1..]);
      assert [m] + members[1..] == members;
    }
  }

  lemma {:induction false} EncodeMembersAppend(a: seq<Member>, b: seq<Member>)
    ensures EncodeMembers(a + b) == EncodeMembers(a) + EncodeMembers(b)
  {
    if a != [] {
      assert (a + b)[1..] == a[1..] + b;
      EncodeMembersAppend(a[1..], b);
    } else {
      assert a + b == b;
    }
  }

  // ---------------------------------------------------------------------------
  // The document a service serializes to
  // ---------------------------------------------------------------------------

  /** The top-level keys of a Swagger 2.0 document, in the order they are written. */
  const KeyOrder: seq<string> := ["swagger", "info", "host", "basePath", "schemes", "paths", "definitions"]

  /** The position of a key in KeyOrder; 7 for every other name. */
  function Rank(key: string): nat
  {
    if key == "swagger" then 0
    else if key == "info" then 1
    else if key == "host" then 2
    else if key == "basePath" then 3
    else if key == "schemes" then 4
    else if key == "paths" then 5
    else if key == "definitions" then 6
    else 7
  }

  /** The value written for the key at position `r` of KeyOrder, or `None` if it is omitted. */
  function ValueAt(v: ServiceValue, r: nat): Option<JsonValue>
  {
    if r == 0 then Some(Scalar(ValueToken(v.swagger)))
    else if r == 1 then (if v.info.Some? then Some(Scalar(InfoBlock(v.info.value))) else None)
    else if r == 2 then (if v.host.Some? then Some(Scalar(StringValue(v.host.value))) else None)
    else if r == 3 then (if v.basePath.Some? then Some(Scalar(StringValue(v.basePath.value))) else None)
    else if r == 4 then (if HasAny(v.schemes) then Some(Array(SchemeTokens(v.schemes.value))) else None)
    else if r == 5 then
      (if HasAny(v.paths) then Some(Object(PathTokens(OrderBy(v.paths.value, PathKey)))) else None)
    else if r == 6 then
      (if HasAny(v.definitions)
       then Some(Object(DefinitionTokens(OrderBy(v.definitions.value, DefinitionKey)))) else None)
    else None
  }

  /** The members for the keys from position `r` of KeyOrder on. */
  function DocumentFrom(v: ServiceValue, r: nat): seq<Member>
    decreases 7 - r
  {
    if r >= 7 then []
    else (if ValueAt(v, r).Some? then [Member(KeyOrder[r], ValueAt(v, r).value)] else [])
         + DocumentFrom(v, r + 1)
  }

  lemma RankOfKeyOrder(r: nat)
    requires r < 7
    ensures Rank(KeyOrder[r]) == r
  {
  }

  lemma {:induction false} DocumentFromRanks(v: ServiceValue, r: nat)
    ensures forall i :: 0 <= i < |DocumentFrom(v, r)| ==> r <= Rank(DocumentFrom(v, r)[i].key) < 7
    ensures forall i, j :: 0 <= i < j < |DocumentFrom(v, r)|
              ==> Rank(DocumentFrom(v, r)[i].key) < Rank(DocumentFrom(v, r)[j].key)
    decreases 7 - r
  {
    if r < 7 {
      DocumentFromRanks(v, r + 1);
      RankOfKeyOrder(r);
    }
  }

  lemma {:induction false} DocumentFromFind(v: ServiceValue, r: nat, key: string)
    requires r <= Rank(key) < 7
    ensures Find(DocumentFrom(v, r), key) == ValueAt(v, Rank(key))
    decreases 7 - r
  {
    var d := DocumentFrom(v, r);
    RankOfKeyOrder(r);
    if ValueAt(v, r).Some? {
      assert d[0].key == KeyOrder[r];
      assert d[1..] == DocumentFrom(v, r + 1);
    }
    if r < Rank(key) {
      DocumentFromFind(v, r + 1, key);
      if ValueAt(v, r).Some? {
        assert d[0].key != key;
      } else {
        assert d == DocumentFrom(v, r + 1);
      }
    } else {
      assert KeyOrder[r] == key;
      if ValueAt(v, r).None? {
        assert d == DocumentFrom(v, r + 1);
        DocumentFromMissing(v, r + 1, key);
      }
    }
  }

  lemma {:induction false} DocumentFromMissing(v: ServiceValue, r: nat, key: string)
    requires Rank(key) < r
    ensures Find(DocumentFrom(v, r), key) == None
    decreases 7 - r
  {
    if r < 7 {
      RankOfKeyOrder(r);
      var d := DocumentFrom(v, r);
      if ValueAt(v, r).Some? {
        assert d[0].key == KeyOrder[r] != key;
        assert d[1..] == DocumentFrom(v, r + 1);
      } else {
        assert d == DocumentFrom(v, r + 1);
      }
      DocumentFromMissing(v, r + 1, key);
    }
  }

  lemma {:induction false} DocumentWellFormed(v: ServiceValue, r: nat)
    ensures forall i :: 0 <= i < |DocumentFrom(v, r)| ==> WellFormed(DocumentFrom(v, r)[i].value)
    decreases 7 - r
  {
    if r < 7 {
      DocumentWellFormed(v, r + 1);
      ValueAtWellFormed(v, r);
      var d := DocumentFrom(v, r);
      if ValueAt(v, r).Some? {
        assert d[0].value == ValueAt(v, r).value;
        assert d[1..] == DocumentFrom(v, r + 1);
      } else {
        assert d == DocumentFrom(v, r + 1);
      }
    }
  }

  lemma ValueAtWellFormed(v: ServiceValue, r: nat)
    ensures ValueAt(v, r).Some? ==> WellFormed(ValueAt(v, r).value)
  {
  }

  /** The tokens for the key at position `r` of KeyOrder: its name and its value, if written. */
  function Section(v: ServiceValue, r: nat): seq<Token>
  {
    if r < 7 && ValueAt(v, r).Some? then [PropertyName(KeyOrder[r])] + EncodeValue(ValueAt(v, r).value) else []
  }

  /** Section agrees with the blocks of SerializeSpec. */
  lemma SectionsOfSerializeSpec(v: ServiceValue)
    ensures Section(v, 0) == [PropertyName("swagger"), ValueToken(v.swagger)]
    ensures Section(v, 1) == InfoSection(v.info)
    ensures Section(v, 2) == StringSection("host", v.host)
    ensures Section(v, 3) == StringSection("basePath", v.basePath)
    ensures Section(v, 4) == SchemesSection(v.schemes)
    ensures Section(v, 5) == PathsSection(v.paths)
    ensures Section(v, 6) == DefinitionsSection(v.definitions)
  {
  }

  /** The sections from position `r` on, one after another. */
  function SectionsFrom(v: ServiceValue, r: nat): seq<Token>
    decreases 7 - r
  {
    if r >= 7 then [] else Section(v, r) + SectionsFrom(v, r + 1)
  }

  lemma {:induction false} DocumentFromEncoded(v: ServiceValue, r: nat)
    ensures EncodeMembers(DocumentFrom(v, r)) == SectionsFrom(v, r)
    decreases 7 - r
  {
    if r < 7 {
      var head := if ValueAt(v, r).Some? then [Member(KeyOrder[r], ValueAt(v, r).value)] else [];
      EncodeMembersAppend(head, DocumentFrom(v, r + 1));
      DocumentFromEncoded(v, r + 1);
    }
  }

  lemma SerializeSpecLeftNested(v: ServiceValue)
    ensures SerializeSpec(v) == [StartObject] + Section(v, 0) + Section(v, 1) + Section(v, 2) + Section(v, 3)
      + Section(v, 4) + Section(v, 5) + Section(v, 6) + [EndObject]
  {
    SectionsOfSerializeSpec(v);
    assert [StartObject, PropertyName("swagger"), ValueToken(v.swagger)] == [StartObject] + Section(v, 0);
    SameConcat([StartObject, PropertyName("swagger"), ValueToken(v.swagger)], InfoSection(v.info),
      StringSection("host", v.host), StringSection("basePath", v.basePath), SchemesSection(v.schemes),
      PathsSection(v.paths), DefinitionsSection(v.definitions),
      [StartObject] + Section(v, 0), Section(v, 1), Section(v, 2), Section(v, 3),
      Section(v, 4), Section(v, 5), Section(v, 6));
  }

  /** Concatenation respects equality of its parts (stated on plain sequences to keep the proof small). */
  lemma SameConcat(a0: seq<Token>, a1: seq<Token>, a2: seq<Token>, a3: seq<Token>, a4: seq<Token>,
                   a5: seq<Token>, a6: seq<Token>,
                   b0: seq<Token>, b1: seq<Token>, b2: seq<Token>, b3: seq<Token>, b4: seq<Token>,
                   b5: seq<Token>, b6: seq<Token>)
    requires a0 == b0 && a1 == b1 && a2 == b2 && a3 == b3 && a4 == b4 && a5 == b5 && a6 == b6
    ensures a0 + a1 + a2 + a3 + a4 + a5 + a6 + [EndObject] == b0 + b1 + b2 + b3 + b4 + b5 + b6 + [EndObject]
  {
  }

  /** `SerializeSpec` writes exactly the members of `DocumentFrom(v, 0)` inside one object. */
  lemma SerializeSpecLayout(v: ServiceValue)
    ensures SerializeSpec(v) == [StartObject] + EncodeMembers(DocumentFrom(v, 0)) + [EndObject]
  {
    DocumentFromEncoded(v, 0);
    SectionsOfSerializeSpec(v);
    var t := SectionsFrom(v, 0);
    var l0 := [StartObject] + Section(v, 0);
    var l1 := l0 + Section(v, 1);
    var l2 := l1 + Section(v, 2);
    var l3 := l2 + Section(v, 3);
    var l4 := l3 + Section(v, 4);
    var l5 := l4 + Section(v, 5);
    var l6 := l5 + Section(v, 6);
    SerializeSpecLeftNested(v);
    calc {
      [StartObject] + t;
      { Append([StartObject], Section(v, 0), SectionsFrom(v, 1)); }
      l0 + SectionsFrom(v, 1);
      { Append(l0, Section(v, 1), SectionsFrom(v, 2)); }
      l1 + SectionsFrom(v, 2);
      { Append(l1, Section(v, 2), SectionsFrom(v, 3)); }
      l2 + SectionsFrom(v, 3);
      { Append(l2, Section(v, 3), SectionsFrom(v, 4)); }
      l3 + SectionsFrom(v, 4);
      { Append(l3, Section(v, 4), SectionsFrom(v, 5)); }
      l4 + SectionsFrom(v, 5);
      { Append(l4, Section(v, 5), SectionsFrom(v, 6)); }
      l5 + SectionsFrom(v, 6);
      { Append(l5, Section(v, 6), SectionsFrom(v, 7)); }
      l6 + SectionsFrom(v, 7);
      { assert SectionsFrom(v, 7) == []; }
      l6;
    }
  }

  // ---------------------------------------------------------------------------
  // What a reader of the document finds
  // ---------------------------------------------------------------------------

  /** The output of `Serialize` reads back as one JSON object whose members are `DocumentFrom(v, 0)`. */
  lemma SerializedDocument(v: ServiceValue)
    ensures Parse(SerializeSpec(v)) == Some(DocumentFrom(v, 0))
  {
    SerializeSpecLayout(v);
    DocumentWellFormed(v, 0);
    ParseObjectEncoded(DocumentFrom(v, 0));
  }

  /** An object written from well-formed members reads back as those members. */
  lemma {:induction false} ParseObjectEncoded(members: seq<Member>)
    requires forall i :: 0 <= i < |members| ==> WellFormed(members[i].value)
    ensures Parse([StartObject] + EncodeMembers(members) + [EndObject]) == Some(members)
  {
    var ts := [StartObject] + EncodeMembers(members) + [EndObject];
    assert ts[0] == StartObject;
    assert ts[1..] == EncodeMembers(members) + [EndObject];
    ParseMembersEncoded(members);
  }

  /**
   * The document starts with `swagger`; every key it holds is one of KeyOrder, and the
   * keys come in the order of KeyOrder, each at most once.
   */
  lemma SerializedKeyOrder(v: ServiceValue)
    ensures Parse(SerializeSpec(v)).Some?
    ensures var d := Parse(SerializeSpec(v)).value;
      && |d| > 0
      && d[0] == Member("swagger", Scalar(ValueToken(v.swagger)))
      && (forall i :: 0 <= i < |d| ==> Rank(d[i].key) < 7 && KeyOrder[Rank(d[i].key)] == d[i].key)
      && (forall i, j :: 0 <= i < j < |d| ==> Rank(d[i].key) < Rank(d[j].key))
  {
    SerializedDocument(v);
    DocumentFromRanks(v, 0);
    var d := DocumentFrom(v, 0);
    assert d[0] == Member("swagger", Scalar(ValueToken(v.swagger)));
    forall i | 0 <= i < |d| ensures KeyOrder[Rank(d[i].key)] == d[i].key {
      RankInKeyOrder(d[i].key);
    }
  }

  lemma RankInKeyOrder(key: string)
    requires Rank(key) < 7
    ensures KeyOrder[Rank(key)] == key
  {
  }

  /**
   * Each key of the document and the condition under which it is written: `swagger`
   * always (null included), `info` when set, `host` and `basePath` when not null (an
   * empty string included), `schemes`, `paths` and `definitions` when they hold at
   * least one entry; no other key (the service's `name` in particular) is written.
   */
  lemma SerializedMembers(v: ServiceValue)
    ensures Parse(SerializeSpec(v)).Some?
    ensures Find(Parse(SerializeSpec(v)).value, "swagger") == Some(Scalar(ValueToken(v.swagger)))
    ensures Find(Parse(SerializeSpec(v)).value, "info")
            == (if v.info.Some? then Some(Scalar(InfoBlock(v.info.value))) else None)
    ensures Find(Parse(SerializeSpec(v)).value, "host")
            == (if v.host.Some? then Some(Scalar(StringValue(v.host.value))) else None)
    ensures Find(Parse(SerializeSpec(v)).value, "basePath")
            == (if v.basePath.Some? then Some(Scalar(StringValue(v.basePath.value))) else None)
    ensures Find(Parse(SerializeSpec(v)).value, "schemes").Some? <==> HasAny(v.schemes)
    ensures Find(Parse(SerializeSpec(v)).value, "paths").Some? <==> HasAny(v.paths)
    ensures Find(Parse(SerializeSpec(v)).value, "definitions").Some? <==> HasAny(v.definitions)
    ensures Find(Parse(SerializeSpec(v)).value, "name") == None
    ensures forall key :: Rank(key) == 7 ==> Find(Parse(SerializeSpec(v)).value, key) == None
  {
    SerializedDocument(v);
    DocumentScalars(v);
    DocumentCollections(v);
    DocumentOtherKeys(v);
  }

  /** `SerializedMembers` for the single-valued keys, stated on the document before it is written. */
  lemma DocumentScalars(v: ServiceValue)
    ensures Find(DocumentFrom(v, 0), "swagger") == Some(Scalar(ValueToken(v.swagger)))
    ensures Find(DocumentFrom(v, 0), "info") == (if v.info.Some? then Some(Scalar(InfoBlock(v.info.value))) else None)
    ensures Find(DocumentFrom(v, 0), "host") == (if v.host.Some? then Some(Scalar(StringValue(v.host.value))) else None)
    ensures Find(DocumentFrom(v, 0), "basePath")
            == (if v.basePath.Some? then Some(Scalar(StringValue(v.basePath.value))) else None)
  {
    assert Rank("swagger") == 0 && Rank("info") == 1 && Rank("host") == 2 && Rank("basePath") == 3;
    DocumentFromFind(v, 0, "swagger");
    DocumentFromFind(v, 0, "info");
    DocumentFromFind(v, 0, "host");
    DocumentFromFind(v, 0, "basePath");
  }

  /** `SerializedMembers` for the collections, stated on the document before it is written. */
  lemma DocumentCollections(v: ServiceValue)
    ensures Find(DocumentFrom(v, 0), "schemes").Some? <==> HasAny(v.schemes)
    ensures Find(DocumentFrom(v, 0), "paths").Some? <==> HasAny(v.paths)
    ensures Find(DocumentFrom(v, 0), "definitions").Some? <==> HasAny(v.definitions)
  {
    assert Rank("schemes") == 4 && Rank("paths") == 5 && Rank("definitions") == 6;
    DocumentFromFind(v, 0, "schemes");
    DocumentFromFind(v, 0, "paths");
    DocumentFromFind(v, 0, "definitions");
  }

  /** No key outside the seven, `name` among them, is in the document. */
  lemma DocumentOtherKeys(v: ServiceValue)
    ensures Find(DocumentFrom(v, 0), "name") == None
    ensures forall key :: Rank(key) == 7 ==> Find(DocumentFrom(v, 0), key) == None
  {
    forall key | Rank(key) == 7 ensures Find(DocumentFrom(v, 0), key) == None {
      DocumentFromAbsent(v, 0, key);
    }
    assert Rank("name") == 7;
  }

  lemma {:induction false} DocumentFromAbsent(v: ServiceValue, r: nat, key: string)
    requires Rank(key) == 7
    ensures Find(DocumentFrom(v, r), key) == None
    decreases 7 - r
  {
    if r < 7 {
      RankOfKeyOrder(r);
      var d := DocumentFrom(v, r);
      if ValueAt(v, r).Some? {
        assert d[0].key == KeyOrder[r] != key;
        assert d[1..] == DocumentFrom(v, r + 1);
      } else {
        assert d == DocumentFrom(v, r + 1);
      }
      DocumentFromAbsent(v, r + 1, key);
    }
  }

  /** The service's `Name` plays no part in what is written. */
  lemma NameNotSerialized(v: ServiceValue, name: Option<string>)
    ensures SerializeSpec(v.(name := name)) == SerializeSpec(v)
  {
  }

  /** `schemes` is an array of the schemes, in the order the list holds them. */
  lemma SerializedSchemes(v: ServiceValue)
    requires HasAny(v.schemes)
    ensures Parse(SerializeSpec(v)).Some?
    ensures Find(Parse(SerializeSpec(v)).value, "schemes").Some?
    ensures var s := Find(Parse(SerializeSpec(v)).value, "schemes").value;
      && s.Array?
      && |s.items| == |v.schemes.value|
      && (forall i :: 0 <= i < |s.items| ==> s.items[i] == StringValue(v.schemes.value[i]))
  {
    SerializedDocument(v);
    DocumentFromFind(v, 0, "schemes");
  }

  /** The routes held by the path blocks among `items`, in order. */
  function BlockPaths(items: seq<Token>): seq<Path>
  {
    if items == [] then []
    else (if items[0].PathBlock? then [items[0].path] else []) + BlockPaths(items[1..])
  }

  /** The schemas held by the definition blocks among `items`, in order. */
  function BlockDefinitions(items: seq<Token>): seq<Definition>
  {
    if items == [] then []
    else (if items[0].DefinitionBlock? then [items[0].definition] else []) + BlockDefinitions(items[1..])
  }

  lemma {:induction false} BlockPathsOfPathTokens(paths: seq<Path>)
    ensures BlockPaths(PathTokens(paths)) == paths
  {
    if paths != [] {
      assert PathTokens(paths)[1..] == PathTokens(paths[1..]);
      BlockPathsOfPathTokens(paths[1..]);
    }
  }

  lemma {:induction false} BlockDefinitionsOfDefinitionTokens(definitions: seq<Definition>)
    ensures BlockDefinitions(DefinitionTokens(definitions)) == definitions
  {
    if definitions != [] {
      assert DefinitionTokens(definitions)[1..] == DefinitionTokens(definitions[1..]);
      BlockDefinitionsOfDefinitionTokens(definitions[1..]);
    }
  }

  /**
   * `paths` is an object holding every route of the service, each once, ordered by
   * route key (ordinal comparison), routes with equal keys in their original order.
   */
  lemma SerializedPaths(v: ServiceValue)
    requires HasAny(v.paths)
    ensures Parse(SerializeSpec(v)).Some?
    ensures Find(Parse(SerializeSpec(v)).value, "paths").Some?
    ensures var p := Find(Parse(SerializeSpec(v)).value, "paths").value;
      && p.Object?
      && |p.items| == |v.paths.value|
      && SortedBy(BlockPaths(p.items), PathKey)
      && multiset(BlockPaths(p.items)) == multiset(v.paths.value)
      && (forall k :: WithKey(BlockPaths(p.items), PathKey, k) == WithKey(v.paths.value, PathKey, k))
  {
    SerializedDocument(v);
    DocumentFromFind(v, 0, "paths");
    var sorted := OrderBy(v.paths.value, PathKey);
    BlockPathsOfPathTokens(sorted);
    forall k ensures WithKey(sorted, PathKey, k) == WithKey(v.paths.value, PathKey, k) {
      OrderByStable(v.paths.value, PathKey, k);
    }
  }

  /**
   * `definitions` is an object holding every schema of the service, each once, ordered
   * by schema name, schemas with equal names in their original order.
   */
  lemma SerializedDefinitions(v: ServiceValue)
    requires HasAny(v.definitions)
    ensures Parse(SerializeSpec(v)).Some?
    ensures Find(Parse(SerializeSpec(v)).value, "definitions").Some?
    ensures var p := Find(Parse(SerializeSpec(v)).value, "definitions").value;
      && p.Object?
      && |p.items| == |v.definitions.value|
      && SortedBy(BlockDefinitions(p.items), DefinitionKey)
      && multiset(BlockDefinitions(p.items)) == multiset(v.definitions.value)
      && (forall k :: WithKey(BlockDefinitions(p.items), DefinitionKey, k)
                      == WithKey(v.definitions.value, DefinitionKey, k))
  {
    SerializedDocument(v);
    DocumentFromFind(v, 0, "definitions");
    var sorted := OrderBy(v.definitions.value, DefinitionKey);
    BlockDefinitionsOfDefinitionTokens(sorted);
    forall k ensures WithKey(sorted, DefinitionKey, k) == WithKey(v.definitions.value, DefinitionKey, k) {
      OrderByStable(v.definitions.value, DefinitionKey, k);
    }
  }
}
