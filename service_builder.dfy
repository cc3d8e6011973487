/**
 * Building the documents (src/SwaggerWcf/Support/ServiceBuilder.cs): the tags
 * and settings of the `swaggerwcf` configuration section, the settings applied to a
 * new `Service`, the scan of the loaded assemblies for service types, and one
 * `Service` per service type found.
 *
 * The configuration section and the assemblies are inputs.  Reflection is replaced
 * by descriptors: an assembly lists its types or fails to, a type carries its
 * simple name and its `SwaggerWcfAttribute` if it has one.  `Mapper.FindMethods`
 * and `DefinitionsBuilder.Process` are function parameters.
 */
module ServiceBuilder {
  import opened Wrappers
  import opened Text
  import opened Models

  /** The exceptions the build can raise. */
  datatype BuildError =
    | DuplicateSetting(name: string)  // `ToDictionary` meets a setting name twice
    | DuplicateType(key: TypeDesc)    // `Dictionary.Add` meets a type twice

  // ---------------------------------------------------------------------------
  // Tags
  // ---------------------------------------------------------------------------

  /** A `<tag name=".." visible=".."/>` element of the configuration. */
  datatype TagElement = TagElement(name: string, visible: bool)

  /** The names of the tags whose visibility flag is `visible`, in order. */
  function TagNames(tags: seq<TagElement>, visible: bool): (r: seq<string>)
    ensures |r| <= |tags|
    ensures forall i :: 0 <= i < |tags| && tags[i].visible == visible ==> tags[i].name in r
  {
    if tags == [] then []
    else
      var rest := TagNames(tags[1..], visible);
      assert forall i :: 1 <= i < |tags| ==> tags[i] == tags[1..][i - 1];
      (if tags[0].visible == visible then [tags[0].name] else []) + rest
  }

  /** `GetHiddenTags`: the names of the tags marked invisible; none when the collection is null. */
  function HiddenTags(tags: Option<seq<TagElement>>): (r: seq<string>)
    ensures tags.None? ==> r == []
    ensures tags.Some? ==> |r| <= |tags.value|
    ensures tags.Some? ==> forall i :: 0 <= i < |tags.value| && !tags.value[i].visible ==> tags.value[i].name in r
  {
    if tags.None? then [] else TagNames(tags.value, false)
  }

  /** `GetVisibleTags`: the names of the tags marked visible; none when the collection is null. */
  function VisibleTags(tags: Option<seq<TagElement>>): (r: seq<string>)
    ensures tags.None? ==> r == []
    ensures tags.Some? ==> |r| <= |tags.value|
    ensures tags.Some? ==> forall i :: 0 <= i < |tags.value| && tags.value[i].visible ==> tags.value[i].name in r
  {
    if tags.None? then [] else TagNames(tags.value, true)
  }

  /** One tag contributes its name exactly when its flag is the requested one. */
  lemma TagNamesSingle(t: TagElement, visible: bool)
    ensures TagNames([t], visible) == if t.visible == visible then [t.name] else []
  {
    assert [t][1..] == [];
  }

  /**
   * The filter keeps the tags' order: the names of `a + b` are those of `a` followed
   * by those of `b`.  With `TagNamesSingle` this fixes the list completely: one name
   * per matching tag, in the tags' order.
   */
  lemma {:induction false} TagNamesAppend(a: seq<TagElement>, b: seq<TagElement>, visible: bool)
    ensures TagNames(a + b, visible) == TagNames(a, visible) + TagNames(b, visible)
  {
    if a == [] {
      assert a + b == b;
    } else {
      assert (a + b)[1..] == a[1..] + b;
      TagNamesAppend(a[1..], b, visible);
    }
  }

  /** A name is listed exactly when some tag with that name has the flag. */
  lemma {:induction false} TagNamesMember(tags: seq<TagElement>, visible: bool, name: string)
    ensures name in TagNames(tags, visible)
            <==> exists i :: 0 <= i < |tags| && tags[i].visible == visible && tags[i].name == name
  {
    if tags != [] {
      TagNamesMember(tags[1..], visible, name);
      if name in TagNames(tags[1..], visible) {
        var i :| 0 <= i < |tags[1..]| && tags[1..][i].visible == visible && tags[1..][i].name == name;
        assert tags[i + 1] == tags[1..][i];
      }
      if exists i :: 0 <= i < |tags| && tags[i].visible == visible && tags[i].name == name {
        var i :| 0 <= i < |tags| && tags[i].visible == visible && tags[i].name == name;
        if i > 0 { assert tags[1..][i - 1] == tags[i]; }
      }
    }
  }

  function AllNames(tags: seq<TagElement>): seq<string>
  {
    seq(|tags|, i requires 0 <= i < |tags| => tags[i].name)
  }

  /** Hidden and visible tags split the tag names between them: every name in exactly one. */
  lemma TagsPartition(tags: seq<TagElement>)
    ensures multiset(HiddenTags(Some(tags))) + multiset(VisibleTags(Some(tags))) == multiset(AllNames(tags))
    ensures |HiddenTags(Some(tags))| + |VisibleTags(Some(tags))| == |tags|
  {
    TagNamesPartition(tags);
    assert |multiset(TagNames(tags, false))| == |TagNames(tags, false)|;
    assert |multiset(TagNames(tags, true))| == |TagNames(tags, true)|;
    assert |multiset(AllNames(tags))| == |tags|;
  }

  lemma {:induction false} TagNamesPartition(tags: seq<TagElement>)
    ensures multiset(TagNames(tags, false)) + multiset(TagNames(tags, true)) == multiset(AllNames(tags))
  {
    if tags != [] {
      var t := tags[0];
      TagNamesPartition(tags[1..]);
      assert AllNames(tags) == [t.name] + AllNames(tags[1..]);
      var h := TagNames(tags[1..], false);
      var v := TagNames(tags[1..], true);
      if t.visible {
        assert TagNames(tags, true) == [t.name] + v;
        assert TagNames(tags, false) == h;
      } else {
        assert TagNames(tags, false) == [t.name] + h;
        assert TagNames(tags, true) == v;
      }
    }
  }

  // ---------------------------------------------------------------------------
  // Settings
  // ---------------------------------------------------------------------------

  /** A `<setting name=".." value=".."/>` element of the configuration. */
  datatype SettingElement = SettingElement(name: string, value: string)

  /** `ToDictionary(se => se.Name, se => se.Value)`: adds the elements in order, failing on a repeated name. */
  function ToDictionary(elements: seq<SettingElement>): (r: Result<map<string, string>, BuildError>)
    ensures r.Success? ==> |r.value| == |elements|
    ensures r.Failure? ==> r.error.DuplicateSetting?
    decreases |elements|
  {
    if elements == [] then Success(map[])
    else
      var last := elements[|elements| - 1];
      match ToDictionary(elements[..|elements| - 1])
      case Failure(e) => Failure(e)
      case Success(m) => if last.name in m then Failure(DuplicateSetting(last.name)) else Success(m[last.name := last.value])
  }

  /** `GetSettings`: the settings as a dictionary; empty when the collection is null. */
  function Settings(elements: Option<seq<SettingElement>>): (r: Result<map<string, string>, BuildError>)
    ensures elements.None? ==> r == Success(map[])
  {
    if elements.None? then Success(map[]) else ToDictionary(elements.value)
  }

  predicate DistinctNames(elements: seq<SettingElement>)
  {
    forall i, j :: 0 <= i < j < |elements| ==> elements[i].name != elements[j].name
  }

  /** A built dictionary holds the names of the elements and no other key. */
  lemma {:induction false} ToDictionaryKeys(elements: seq<SettingElement>)
    requires ToDictionary(elements).Success?
    ensures forall name :: name in ToDictionary(elements).value
                           <==> exists i :: 0 <= i < |elements| && elements[i].name == name
    decreases |elements|
  {
    if elements != [] {
      var n := |elements| - 1;
      var init := elements[..n];
      ToDictionaryKeys(init);
      var m := ToDictionary(init).value;
      assert ToDictionary(elements).value == m[elements[n].name := elements[n].value];
      forall name | name in m ensures exists i :: 0 <= i < |elements| && elements[i].name == name {
        var i :| 0 <= i < n && init[i].name == name;
        assert elements[i] == init[i];
      }
      forall i | 0 <= i < n ensures elements[i].name in m {
        assert elements[i] == init[i];
      }
    }
  }

  /** A built dictionary maps every name to its element's value. */
  lemma {:induction false} ToDictionaryValues(elements: seq<SettingElement>)
    requires ToDictionary(elements).Success?
    ensures forall i :: 0 <= i < |elements| ==>
      elements[i].name in ToDictionary(elements).value && ToDictionary(elements).value[elements[i].name] == elements[i].value
    decreases |elements|
  {
    if elements != [] {
      var n := |elements| - 1;
      var init := elements[..n];
      ToDictionaryKeys(init);
      ToDictionaryValues(init);
      var m := ToDictionary(init).value;
      var last := elements[n];
      assert last.name !in m;
      forall i | 0 <= i < n ensures m[last.name := last.value][elements[i].name] == elements[i].value {
        assert elements[i] == init[i];
        assert elements[i].name in m;
      }
    }
  }

  /** The dictionary is built exactly when no name repeats. */
  lemma {:induction false} ToDictionarySucceeds(elements: seq<SettingElement>)
    ensures ToDictionary(elements).Success? <==> DistinctNames(elements)
    decreases |elements|
  {
    if elements != [] {
      var n := |elements| - 1;
      var init := elements[..n];
      var last := elements[n];
      ToDictionarySucceeds(init);
      assert forall i :: 0 <= i < n ==> init[i] == elements[i];
      if ToDictionary(init).Success? {
        ToDictionaryKeys(init);
        if last.name in ToDictionary(init).value {
          var i :| 0 <= i < n && init[i].name == last.name;
          assert elements[i].name == elements[n].name;
        } else {
          forall i | 0 <= i < n ensures elements[i].name != last.name {
            assert init[i].name in ToDictionary(init).value;
          }
        }
      }
    }
  }

  /** On failure the error names the first element whose name occurred before it. */
  lemma {:induction false} ToDictionaryFails(elements: seq<SettingElement>)
    ensures ToDictionary(elements).Failure? ==>
      exists i, j :: 0 <= i < j < |elements| && elements[i].name == elements[j].name
        && DistinctNames(elements[..j]) && ToDictionary(elements).error == DuplicateSetting(elements[j].name)
    decreases |elements|
  {
    if elements != [] {
      var n := |elements| - 1;
      var init := elements[..n];
      ToDictionaryFails(init);
      ToDictionarySucceeds(init);
      if ToDictionary(init).Success? { ToDictionaryKeys(init); }
      if ToDictionary(init).Failure? {
        var i, j :| 0 <= i < j < |init| && init[i].name == init[j].name
          && DistinctNames(init[..j]) && ToDictionary(init).error == DuplicateSetting(init[j].name);
        assert init[..j] == elements[..j];
        assert init[i] == elements[i] && init[j] == elements[j];
      } else if elements[n].name in ToDictionary(init).value {
        var i :| 0 <= i < n && init[i].name == elements[n].name;
        assert init[i] == elements[i];
      }
    }
  }

  // ---------------------------------------------------------------------------
  // ProcessSettings
  // ---------------------------------------------------------------------------

  /** The setting for `key`, if there is one. */
  function Setting(settings: map<string, string>, key: string): Option<string>
  {
    if key in settings then Some(settings[key]) else None
  }

  predicate AnyKeyStartsWith(settings: map<string, string>, prefix: string)
  {
    exists k :: k in settings && StartsWith(k, prefix)
  }

  /** The `Info` that `ProcessSettings` builds when some key starts with "Info". */
  function InfoFromSettings(settings: map<string, string>): (r: InfoValue)
    ensures !AnyKeyStartsWith(settings, "Info") ==> r == InfoValue(None, None, None, None, None, None)
    ensures r.contact.Some? || r.license.Some? ==> AnyKeyStartsWith(settings, "Info")
  {
    InfoKeysAllocate(settings);
    ContactKeysAllocate(settings);
    LicenseKeysAllocate(settings);
    InfoValue(
      Setting(settings, "InfoTitle"),
      Setting(settings, "InfoDescription"),
      Setting(settings, "InfoVersion"),
      Setting(settings, "InfoTermsOfService"),
      if AnyKeyStartsWith(settings, "InfoContact") then
        Some(ContactValue(
          Setting(settings, "InfoContactName"), Setting(settings, "InfoContactUrl"),
          Setting(settings, "InfoContactEmail")))
      else None,
      if AnyKeyStartsWith(settings, "InfoLicense") then
        Some(LicenseValue(Setting(settings, "InfoLicenseUrl"), Setting(settings, "InfoLicenseName")))
      else None)
  }

  /**
   * The state of a service in state `v` after `ProcessSettings(service, settings)`:
   * `BasePath` and `Host` take their setting when the key is present and stay as they
   * were otherwise; `Info` is a new one built from the settings when some key starts
   * with "Info"; nothing else changes, and settings with neither key and no key
   * starting with "Info" change nothing.
   */
  function SettingsApplied(v: ServiceValue, settings: map<string, string>): (r: ServiceValue)
    ensures r.basePath == if "BasePath" in settings then Some(settings["BasePath"]) else v.basePath
    ensures r.host == if "Host" in settings then Some(settings["Host"]) else v.host
    ensures r.info == if AnyKeyStartsWith(settings, "Info") then Some(InfoFromSettings(settings)) else v.info
    ensures r.(basePath := v.basePath, host := v.host, info := v.info) == v
    ensures "BasePath" !in settings && "Host" !in settings && !AnyKeyStartsWith(settings, "Info") ==> r == v
  {
    v.(basePath := if "BasePath" in settings then Some(settings["BasePath"]) else v.basePath,
       host := if "Host" in settings then Some(settings["Host"]) else v.host,
       info := if AnyKeyStartsWith(settings, "Info") then Some(InfoFromSettings(settings)) else v.info)
  }

  /**
   * Every key an `Info` field is read from starts with "Info", so `Info` is
   * allocated before the field is set; likewise for the other two lemmas below.
   */
  lemma InfoKeysAllocate(settings: map<string, string>)
    ensures ("InfoDescription" in settings || "InfoVersion" in settings || "InfoTermsOfService" in settings
             || "InfoTitle" in settings) ==> AnyKeyStartsWith(settings, "Info")
  {
  }

  /** The keys of the `Contact` fields start with "InfoContact", and so with "Info". */
  lemma ContactKeysAllocate(settings: map<string, string>)
    ensures ("InfoContactName" in settings || "InfoContactUrl" in settings || "InfoContactEmail" in settings)
            ==> AnyKeyStartsWith(settings, "Info") && AnyKeyStartsWith(settings, "InfoContact")
    ensures AnyKeyStartsWith(settings, "InfoContact") ==> AnyKeyStartsWith(settings, "Info")
  {
  }

  /** The keys of the `License` fields start with "InfoLicense", and so with "Info". */
  lemma LicenseKeysAllocate(settings: map<string, string>)
    ensures ("InfoLicenseUrl" in settings || "InfoLicenseName" in settings)
            ==> AnyKeyStartsWith(settings, "Info") && AnyKeyStartsWith(settings, "InfoLicense")
    ensures AnyKeyStartsWith(settings, "InfoLicense") ==> AnyKeyStartsWith(settings, "Info")
  {
  }

  /**
   * On a new service, `Info` is allocated exactly when some key starts with "Info",
   * and `Contact` / `License` exactly when some key starts with "InfoContact" /
   * "InfoLicense"; each of the nine field keys, when present, puts its value into its
   * field (with every container above it allocated), and a field whose key is absent
   * stays null.
   */
  lemma SettingsAppliedFields(settings: map<string, string>)
    ensures var info := SettingsApplied(NewServiceValue(), settings).info;
      && (info.Some? <==> AnyKeyStartsWith(settings, "Info"))
      && (info.Some? ==>
            && (info.value.contact.Some? <==> AnyKeyStartsWith(settings, "InfoContact"))
            && (info.value.license.Some? <==> AnyKeyStartsWith(settings, "InfoLicense")))
      && (("InfoTitle" in settings || "InfoDescription" in settings || "InfoVersion" in settings
           || "InfoTermsOfService" in settings) ==> info.Some?)
      && (("InfoContactName" in settings || "InfoContactUrl" in settings || "InfoContactEmail" in settings)
          ==> info.Some? && info.value.contact.Some?)
      && (("InfoLicenseUrl" in settings || "InfoLicenseName" in settings)
          ==> info.Some? && info.value.license.Some?)
      && (info.Some? ==>
            && info.value.title == Setting(settings, "InfoTitle")
            && info.value.description == Setting(settings, "InfoDescription")
            && info.value.version == Setting(settings, "InfoVersion")
            && info.value.termsOfService == Setting(settings, "InfoTermsOfService"))
      && (info.Some? && info.value.contact.Some? ==>
            && info.value.contact.value.name == Setting(settings, "InfoContactName")
            && info.value.contact.value.url == Setting(settings, "InfoContactUrl")
            && info.value.contact.value.email == Setting(settings, "InfoContactEmail"))
      && (info.Some? && info.value.license.Some? ==>
            && info.value.license.value.url == Setting(settings, "InfoLicenseUrl")
            && info.value.license.value.name == Setting(settings, "InfoLicenseName"))
  {
    InfoKeysAllocate(settings);
    ContactKeysAllocate(settings);
    LicenseKeysAllocate(settings);
  }

  /**
   * `ProcessSettings`: `BasePath` and `Host` from their keys; a new `Info` when some
   * key starts with "Info", then its fields; a new `Contact` / `License` under it when
   * some key starts with "InfoContact" / "InfoLicense", then their fields.  The source's
   * blocks after the first are the helper methods below, in order; each field is set
   * through `service.Info` (and `Contact` / `License`) without a null test, as in the
   * source, so that these are allocated by then is part of what is proved.
   */
  method ProcessSettings(service: Service, settings: map<string, string>)
    modifies service
    ensures service.Value() == SettingsApplied(old(service.Value()), settings)
  {
    if "BasePath" in settings {
      service.basePath := Some(settings["BasePath"]);
    }
    if "Host" in settings {
      service.host := Some(settings["Host"]);
    }

    if AnyKeyStartsWith(settings, "Info") {
      service.info := new Info();
    }
    SetInfoFields(service, settings);
    SetContactFields(service, settings);
    SetLicenseFields(service, settings);
  }

  /** The `InfoDescription`, `InfoVersion`, `InfoTermsOfService` and `InfoTitle` assignments. */
  method SetInfoFields(service: Service, settings: map<string, string>)
    requires AnyKeyStartsWith(settings, "Info") ==>
      service.info != null && service.info.Value() == InfoValue(None, None, None, None, None, None)
    modifies if AnyKeyStartsWith(settings, "Info") then {service.info} else {}
    ensures AnyKeyStartsWith(settings, "Info") ==>
      service.info.Value() == InfoFromSettings(settings).(contact := None, license := None)
  {
    InfoKeysAllocate(settings);
    if "InfoDescription" in settings {
      service.info.description := Some(settings["InfoDescription"]);
    }
    if "InfoVersion" in settings {
      service.info.version := Some(settings["InfoVersion"]);
    }
    if "InfoTermsOfService" in settings {
      service.info.termsOfService := Some(settings["InfoTermsOfService"]);
    }
    if "InfoTitle" in settings {
      service.info.title := Some(settings["InfoTitle"]);
    }
  }

  /** The `InfoContact` block: a new `Contact`, then its `Name`, `Url` and `Email`. */
  method SetContactFields(service: Service, settings: map<string, string>)
    requires AnyKeyStartsWith(settings, "Info") ==>
      service.info != null && service.info.Value() == InfoFromSettings(settings).(contact := None, license := None)
    modifies if AnyKeyStartsWith(settings, "Info") then {service.info} else {}
    ensures AnyKeyStartsWith(settings, "Info") ==>
      service.info.Value() == InfoFromSettings(settings).(license := None) && service.info.license == null
  {
    ContactKeysAllocate(settings);
    if AnyKeyStartsWith(settings, "InfoContact") {
      service.info.contact := new InfoContact();
    }
    if "InfoContactName" in settings {
      service.info.contact.name := Some(settings["InfoContactName"]);
    }
    if "InfoContactUrl" in settings {
      service.info.contact.url := Some(settings["InfoContactUrl"]);
    }
    if "InfoContactEmail" in settings {
      service.info.contact.email := Some(settings["InfoContactEmail"]);
    }
  }

  /** The `InfoLicense` block: a new `License`, then its `Url` and `Name`. */
  method SetLicenseFields(service: Service, settings: map<string, string>)
    requires AnyKeyStartsWith(settings, "Info") ==>
      service.info != null && service.info.license == null
      && service.info.Value() == InfoFromSettings(settings).(license := None)
    modifies if AnyKeyStartsWith(settings, "Info") then {service.info} else {}
    ensures AnyKeyStartsWith(settings, "Info") ==> service.info.Value() == InfoFromSettings(settings)
  {
    LicenseKeysAllocate(settings);
    if AnyKeyStartsWith(settings, "InfoLicense") {
      service.info.license := new InfoLicense();
    }
    if "InfoLicenseUrl" in settings {
      service.info.license.url := Some(settings["InfoLicenseUrl"]);
    }
    if "InfoLicenseName" in settings {
      service.info.license.name := Some(settings["InfoLicenseName"]);
    }
  }

  // ---------------------------------------------------------------------------
  // BuildPaths: the scan for service types
  // ---------------------------------------------------------------------------

  /** `SwaggerWcfAttribute(servicePath, name)` on a service class or interface. */
  datatype SwaggerWcfAttribute = SwaggerWcfAttribute(servicePath: string, name: Option<string>)

  /**
   * A type an assembly defines: `identity` tells types apart (as the reflection
   * `TypeInfo` does), `simpleName` is `Type.Name`, `attribute` its `SwaggerWcfAttribute`.
   */
  datatype TypeDesc = TypeDesc(identity: string, simpleName: string, attribute: Option<SwaggerWcfAttribute>)

  /** A loaded assembly; `definedTypes` is None when reading `DefinedTypes` throws. */
  datatype Assembly = Assembly(definedTypes: Option<seq<TypeDesc>>)

  /** What `new Mapper(hiddenTags).FindMethods(servicePath, type, definitionsTypesList)` yields. */
  datatype Mapped = Mapped(paths: seq<Path>, definitionTypes: seq<TypeDesc>)

  /** `Mapper.FindMethods`, a collaborator: hidden tags, service path and type to paths and types. */
  type FindMethods = (seq<string>, string, TypeDesc) -> Mapped

  /** `DefinitionsBuilder.Process`, a collaborator: hidden tags, visible tags and types to schemas. */
  type ProcessDefinitions = (seq<string>, seq<string>, seq<TypeDesc>) -> seq<Definition>

  /** A `ServiceBuildInfo`. */
  datatype BuildRecord = BuildRecord(name: Option<string>, paths: seq<Path>, definitionTypes: seq<TypeDesc>)

  /** An entry of the dictionary `BuildPaths` returns, in the order entries were added. */
  datatype BuildEntry = BuildEntry(key: TypeDesc, record: BuildRecord)

  /** The types of an assembly as the scan sees them: none when they cannot be listed. */
  function ListedTypes(assembly: Assembly): seq<TypeDesc>
  {
    if assembly.definedTypes.Some? then assembly.definedTypes.value else []
  }

  /** The types of the assemblies, in scan order. */
  function ScannedTypes(assemblies: seq<Assembly>): seq<TypeDesc>
    decreases |assemblies|
  {
    if assemblies == [] then []
    else ScannedTypes(assemblies[..|assemblies| - 1]) + ListedTypes(assemblies[|assemblies| - 1])
  }

  /** A type becomes a service when it has the attribute and its simple name is not a hidden tag. */
  predicate Qualifies(t: TypeDesc, hiddenTags: seq<string>)
  {
    t.attribute.Some? && t.simpleName !in hiddenTags
  }

  function RecordFor(t: TypeDesc, hiddenTags: seq<string>, findMethods: FindMethods): BuildRecord
    requires t.attribute.Some?
  {
    var mapped := findMethods(hiddenTags, t.attribute.value.servicePath, t);
    BuildRecord(t.attribute.value.name, mapped.paths, mapped.definitionTypes)
  }

  /** The entries for the qualifying types among `types`, in order. */
  function Entries(types: seq<TypeDesc>, hiddenTags: seq<string>, findMethods: FindMethods): seq<BuildEntry>
    decreases |types|
  {
    if types == [] then []
    else
      var t := types[|types| - 1];
      Entries(types[..|types| - 1], hiddenTags, findMethods)
      + (if Qualifies(t, hiddenTags) then [BuildEntry(t, RecordFor(t, hiddenTags, findMethods))] else [])
  }

  /** `Dictionary.Add` of each entry in turn: the first key added twice is an error. */
  function Register(entries: seq<BuildEntry>): Result<seq<BuildEntry>, BuildError>
    decreases |entries|
  {
    if entries == [] then Success([])
    else
      var last := entries[|entries| - 1];
      match Register(entries[..|entries| - 1])
      case Failure(e) => Failure(e)
      case Success(d) =>
        if exists k :: 0 <= k < |d| && d[k].key == last.key then Failure(DuplicateType(last.key))
        else Success(d + [last])
  }

  /** What `BuildPaths` returns (or throws) for the loaded assemblies. */
  function BuildPathsSpec(assemblies: seq<Assembly>, hiddenTags: seq<string>, findMethods: FindMethods)
    : Result<seq<BuildEntry>, BuildError>
  {
    Register(Entries(ScannedTypes(assemblies), hiddenTags, findMethods))
  }

  lemma {:induction false} ScannedTypesAppend(a: seq<Assembly>, b: seq<Assembly>)
    ensures ScannedTypes(a + b) == ScannedTypes(a) + ScannedTypes(b)
    decreases |b|
  {
    if b == [] {
      assert a + b == a;
    } else {
      var n := |b| - 1;
      assert (a + b)[..|a + b| - 1] == a + b[..n];
      ScannedTypesAppend(a, b[..n]);
    }
  }

  lemma {:induction false} EntriesAppend(a: seq<TypeDesc>, b: seq<TypeDesc>, hiddenTags: seq<string>,
                                          findMethods: FindMethods)
    ensures Entries(a + b, hiddenTags, findMethods) == Entries(a, hiddenTags, findMethods) + Entries(b, hiddenTags, findMethods)
    decreases |b|
  {
    if b == [] {
      assert a + b == a;
    } else {
      var n := |b| - 1;
      assert (a + b)[..|a + b| - 1] == a + b[..n];
      EntriesAppend(a, b[..n], hiddenTags, findMethods);
    }
  }

  /** Once `Add` has thrown, later entries do not matter. */
  lemma {:induction false} RegisterFailureSticks(a: seq<BuildEntry>, b: seq<BuildEntry>)
    requires Register(a).Failure?
    ensures Register(a + b) == Register(a)
    decreases |b|
  {
    if b == [] {
      assert a + b == a;
    } else {
      var n := |b| - 1;
      assert (a + b)[..|a + b| - 1] == a + b[..n];
      RegisterFailureSticks(a, b[..n]);
    }
  }

  /** `Register` succeeds exactly when no key repeats, and then keeps every entry in order. */
  lemma {:induction false} RegisterSucceeds(entries: seq<BuildEntry>)
    ensures Register(entries).Success? <==> DistinctKeys(entries)
    ensures Register(entries).Success? ==> Register(entries).value == entries
    decreases |entries|
  {
    if entries != [] {
      var n := |entries| - 1;
      var init := entries[..n];
      RegisterSucceeds(init);
      assert forall i :: 0 <= i < n ==> init[i] == entries[i];
      assert init + [entries[n]] == entries;
    }
  }

  /** The entries are the qualifying types, and each carries the record built for it. */
  lemma {:induction false} EntriesMembers(types: seq<TypeDesc>, hiddenTags: seq<string>, findMethods: FindMethods,
                                           t: TypeDesc)
    ensures (exists k :: 0 <= k < |Entries(types, hiddenTags, findMethods)|
                         && Entries(types, hiddenTags, findMethods)[k].key == t)
            <==> t in types && Qualifies(t, hiddenTags)
    ensures forall k :: 0 <= k < |Entries(types, hiddenTags, findMethods)| ==>
              var e := Entries(types, hiddenTags, findMethods)[k];
              e.key in types && Qualifies(e.key, hiddenTags) && e.record == RecordFor(e.key, hiddenTags, findMethods)
    decreases |types|
  {
    if types != [] {
      var n := |types| - 1;
      var init := types[..n];
      EntriesMembers(init, hiddenTags, findMethods, t);
      assert types == init + [types[n]];
      var es := Entries(types, hiddenTags, findMethods);
      var ei := Entries(init, hiddenTags, findMethods);
      assert forall k :: 0 <= k < |ei| ==> es[k] == ei[k];
      if t in types && Qualifies(t, hiddenTags) && t !in init {
        assert t == types[n];
        assert es[|es| - 1].key == t;
      }
    }
  }

  /**
   * `BuildPaths`: every type of every assembly is looked at, an assembly whose types
   * cannot be listed is skipped, and each qualifying type adds its record.
   */
  method BuildPaths(assemblies: seq<Assembly>, hiddenTags: seq<string>, findMethods: FindMethods)
    returns (r: Result<seq<BuildEntry>, BuildError>)
    ensures r == BuildPathsSpec(assemblies, hiddenTags, findMethods)
  {
    var result: seq<BuildEntry> := [];
    for i := 0 to |assemblies|
      invariant result == Entries(ScannedTypes(assemblies[..i]), hiddenTags, findMethods)
      invariant DistinctKeys(result)
    {
      ScannedTypesStep(assemblies, i);
      if assemblies[i].definedTypes.None? {
        // the assembly is ignored and the scan goes on
        assert ScannedTypes(assemblies[..i]) + [] == ScannedTypes(assemblies[..i]);
        continue;
      }
      var added := AddTypes(ScannedTypes(assemblies[..i]), assemblies[i].definedTypes.value, result,
                            hiddenTags, findMethods);
      if added.Failure? {
        BuildPathsFails(assemblies, i, hiddenTags, findMethods);
        return added;
      }
      result := added.value;
    }
    assert assemblies[..|assemblies|] == assemblies;
    RegisterSucceeds(result);
    r := Success(result);
  }

  /**
   * The inner loop of `BuildPaths`: the types of one assembly, each qualifying type
   * added to `entries` (the entries for the types `scanned` before it), and the
   * exception of `Add` on a type already present.
   */
  method AddTypes(scanned: seq<TypeDesc>, types: seq<TypeDesc>, entries: seq<BuildEntry>,
                  hiddenTags: seq<string>, findMethods: FindMethods)
    returns (r: Result<seq<BuildEntry>, BuildError>)
    requires entries == Entries(scanned, hiddenTags, findMethods) && DistinctKeys(entries)
    ensures r.Success? ==> r.value == Entries(scanned + types, hiddenTags, findMethods) && DistinctKeys(r.value)
    ensures r.Failure? ==> r == Register(Entries(scanned + types, hiddenTags, findMethods))
  {
    var result := entries;
    assert scanned + types[..0] == scanned;
    for j := 0 to |types|
      invariant result == Entries(scanned + types[..j], hiddenTags, findMethods)
      invariant DistinctKeys(result)
    {
      var t := types[j];
      TakeOneMore(scanned, types, j);
      EntriesStep(scanned + types[..j], t, hiddenTags, findMethods);
      if t.attribute.None? || t.simpleName in hiddenTags {
        assert result + [] == result;
        continue;
      }
      if exists k :: 0 <= k < |result| && result[k].key == t {
        DuplicateFails(scanned, types, j, result, hiddenTags, findMethods);
        return Failure(DuplicateType(t));
      }
      result := result + [BuildEntry(t, RecordFor(t, hiddenTags, findMethods))];
    }
    assert types[..|types|] == types;
    r := Success(result);
  }

  /** A qualifying type `j` that is already registered makes the whole assembly's registration fail. */
  lemma DuplicateFails(scanned: seq<TypeDesc>, types: seq<TypeDesc>, j: nat, entries: seq<BuildEntry>,
                       hiddenTags: seq<string>, findMethods: FindMethods)
    requires j < |types| && Qualifies(types[j], hiddenTags)
    requires entries == Entries(scanned + types[..j], hiddenTags, findMethods) && DistinctKeys(entries)
    requires exists k :: 0 <= k < |entries| && entries[k].key == types[j]
    ensures Register(Entries(scanned + types, hiddenTags, findMethods)) == Failure(DuplicateType(types[j]))
  {
    var t := types[j];
    var entry := BuildEntry(t, RecordFor(t, hiddenTags, findMethods));
    var front := scanned + types[..j + 1];
    RegisterSucceeds(entries);
    RegisterStep(entries, entry);
    assert Register(entries + [entry]) == Failure(DuplicateType(t));
    TakeOneMore(scanned, types, j);
    EntriesStep(scanned + types[..j], t, hiddenTags, findMethods);
    assert Entries(front, hiddenTags, findMethods) == entries + [entry];
    SplitTail(scanned, types, j + 1);
    EntriesFailureSticks(front, types[j + 1..], hiddenTags, findMethods);
  }

  lemma SplitTail<T>(a: seq<T>, b: seq<T>, k: nat)
    requires k <= |b|
    ensures a + b == (a + b[..k]) + b[k..]
  {
    assert b == b[..k] + b[k..];
  }

  /** Once registering the entries of `front` fails, the entries of the types after it change nothing. */
  lemma EntriesFailureSticks(front: seq<TypeDesc>, back: seq<TypeDesc>, hiddenTags: seq<string>,
                             findMethods: FindMethods)
    requires Register(Entries(front, hiddenTags, findMethods)).Failure?
    ensures Register(Entries(front + back, hiddenTags, findMethods)) == Register(Entries(front, hiddenTags, findMethods))
  {
    EntriesAppend(front, back, hiddenTags, findMethods);
    RegisterFailureSticks(Entries(front, hiddenTags, findMethods), Entries(back, hiddenTags, findMethods));
  }

  lemma TakeOneMore<T>(a: seq<T>, b: seq<T>, j: nat)
    requires j < |b|
    ensures a + b[..j + 1] == (a + b[..j]) + [b[j]]
  {
    assert b[..j + 1] == b[..j] + [b[j]];
  }

  predicate DistinctKeys(entries: seq<BuildEntry>)
  {
    forall i, j :: 0 <= i < j < |entries| ==> entries[i].key != entries[j].key
  }

  lemma ScannedTypesStep(assemblies: seq<Assembly>, i: nat)
    requires i < |assemblies|
    ensures ScannedTypes(assemblies[..i + 1]) == ScannedTypes(assemblies[..i]) + ListedTypes(assemblies[i])
  {
    assert assemblies[..i + 1][..i] == assemblies[..i];
  }

  lemma EntriesStep(seen: seq<TypeDesc>, t: TypeDesc, hiddenTags: seq<string>, findMethods: FindMethods)
    ensures Entries(seen + [t], hiddenTags, findMethods)
            == Entries(seen, hiddenTags, findMethods)
               + (if Qualifies(t, hiddenTags) then [BuildEntry(t, RecordFor(t, hiddenTags, findMethods))] else [])
  {
    assert (seen + [t])[..|seen|] == seen;
  }

  lemma RegisterStep(entries: seq<BuildEntry>, e: BuildEntry)
    ensures Register(entries + [e])
            == match Register(entries)
               case Failure(err) => Failure(err)
               case Success(d) =>
                 if exists k :: 0 <= k < |d| && d[k].key == e.key then Failure(DuplicateType(e.key)) else Success(d + [e])
  {
    assert (entries + [e])[..|entries|] == entries;
  }

  /** The whole scan fails as soon as registering the types of assembly `i` fails. */
  lemma BuildPathsFails(assemblies: seq<Assembly>, i: nat, hiddenTags: seq<string>, findMethods: FindMethods)
    requires i < |assemblies|
    requires Register(Entries(ScannedTypes(assemblies[..i + 1]), hiddenTags, findMethods)).Failure?
    ensures BuildPathsSpec(assemblies, hiddenTags, findMethods)
            == Register(Entries(ScannedTypes(assemblies[..i + 1]), hiddenTags, findMethods))
  {
    assert assemblies == assemblies[..i + 1] + assemblies[i + 1..];
    ScannedTypesAppend(assemblies[..i + 1], assemblies[i + 1..]);
    EntriesFailureSticks(ScannedTypes(assemblies[..i + 1]), ScannedTypes(assemblies[i + 1..]), hiddenTags, findMethods);
  }

  /**
   * After a successful scan, a type has an entry exactly when some assembly lists it
   * and it qualifies; each entry holds that type's record.
   */
  lemma BuildPathsQualification(assemblies: seq<Assembly>, hiddenTags: seq<string>, findMethods: FindMethods,
                                t: TypeDesc)
    requires BuildPathsSpec(assemblies, hiddenTags, findMethods).Success?
    ensures var d := BuildPathsSpec(assemblies, hiddenTags, findMethods).value;
      && ((exists k :: 0 <= k < |d| && d[k].key == t) <==> t in ScannedTypes(assemblies) && Qualifies(t, hiddenTags))
      && (forall k :: 0 <= k < |d| ==>
            Qualifies(d[k].key, hiddenTags) && d[k].record == RecordFor(d[k].key, hiddenTags, findMethods))
  {
    RegisterSucceeds(Entries(ScannedTypes(assemblies), hiddenTags, findMethods));
    EntriesMembers(ScannedTypes(assemblies), hiddenTags, findMethods, t);
  }

  /** A type is looked at exactly when an assembly whose types can be listed lists it. */
  lemma {:induction false} ScannedTypesMembers(assemblies: seq<Assembly>, t: TypeDesc)
    ensures t in ScannedTypes(assemblies)
            <==> exists i :: 0 <= i < |assemblies| && assemblies[i].definedTypes.Some?
                             && t in assemblies[i].definedTypes.value
    decreases |assemblies|
  {
    if assemblies != [] {
      var n := |assemblies| - 1;
      ScannedTypesMembers(assemblies[..n], t);
      assert forall i :: 0 <= i < n ==> assemblies[..n][i] == assemblies[i];
    }
  }

  /** An assembly whose types cannot be listed changes nothing about the scan. */
  lemma UnreadableAssemblySkipped(before: seq<Assembly>, assembly: Assembly, after: seq<Assembly>,
                                  hiddenTags: seq<string>, findMethods: FindMethods)
    requires assembly.definedTypes.None?
    ensures BuildPathsSpec(before + [assembly] + after, hiddenTags, findMethods)
            == BuildPathsSpec(before + after, hiddenTags, findMethods)
  {
    ScannedTypesAppend(before + [assembly], after);
    ScannedTypesAppend(before, [assembly]);
    ScannedTypesAppend(before, after);
    assert ScannedTypes([assembly]) == [];
    assert ScannedTypes(before) + [] == ScannedTypes(before);
  }

  // ---------------------------------------------------------------------------
  // BuildService: one Service per entry
  // ---------------------------------------------------------------------------

  /** The `swaggerwcf` configuration section; a null collection is None. */
  datatype SwaggerWcfSection = SwaggerWcfSection(tags: Option<seq<TagElement>>, settings: Option<seq<SettingElement>>)

  /** The state of the `Service` built for `record`. */
  function BuiltService(record: BuildRecord, settings: map<string, string>, hiddenTags: seq<string>,
                        visibleTags: seq<string>, process: ProcessDefinitions): ServiceValue
  {
    SettingsApplied(NewServiceValue(), settings).(
      paths := Some(record.paths),
      definitions := Some(process(hiddenTags, visibleTags, record.definitionTypes)),
      name := Some(if record.name.Some? then record.name.value else ""))
  }

  /** The documents `BuildService` returns for the configuration and assemblies, or the error it throws. */
  function BuildSpec(config: SwaggerWcfSection, assemblies: seq<Assembly>, findMethods: FindMethods,
                     process: ProcessDefinitions): Result<seq<ServiceValue>, BuildError>
  {
    var hiddenTags := HiddenTags(config.tags);
    var visibleTags := VisibleTags(config.tags);
    match Settings(config.settings)
    case Failure(e) => Failure(e)
    case Success(settings) =>
      match BuildPathsSpec(assemblies, hiddenTags, findMethods)
      case Failure(e) => Failure(e)
      case Success(entries) =>
        Success(seq(|entries|, i requires 0 <= i < |entries| =>
          BuiltService(entries[i].record, settings, hiddenTags, visibleTags, process)))
  }

  /**
   * The build fails exactly when a setting name repeats or the scan meets a type
   * twice; otherwise it yields one document per qualifying type in scan order, each
   * with swagger "2.0", no schemes, the paths found for that type, and the name of
   * its attribute ("" when the attribute has none).
   */
  lemma BuildSpecDocuments(config: SwaggerWcfSection, assemblies: seq<Assembly>, findMethods: FindMethods,
                           process: ProcessDefinitions)
    ensures var entries := Entries(ScannedTypes(assemblies), HiddenTags(config.tags), findMethods);
      && (BuildSpec(config, assemblies, findMethods, process).Success?
          <==> Settings(config.settings).Success? && DistinctKeys(entries))
      && (BuildSpec(config, assemblies, findMethods, process).Success? ==>
            var docs := BuildSpec(config, assemblies, findMethods, process).value;
            && |docs| == |entries|
            && forall i :: 0 <= i < |docs| ==>
                 && Qualifies(entries[i].key, HiddenTags(config.tags))
                 && docs[i].swagger == Some("2.0") && docs[i].schemes == Some([])
                 && docs[i].paths == Some(entries[i].record.paths)
                 && docs[i].name == Some(entries[i].record.name.GetOr("")))
  {
    var entries := Entries(ScannedTypes(assemblies), HiddenTags(config.tags), findMethods);
    RegisterSucceeds(entries);
    if entries != [] {
      EntriesMembers(ScannedTypes(assemblies), HiddenTags(config.tags), findMethods, entries[0].key);
    }
  }

  /**
   * `BuildService` (and `Build`, which only calls it): the tags and settings of the
   * configuration, the scan, then one new `Service` per entry, in entry order.
   */
  method BuildService(config: SwaggerWcfSection, assemblies: seq<Assembly>, findMethods: FindMethods,
                      process: ProcessDefinitions)
    returns (r: Result<seq<Service>, BuildError>)
    ensures r.Success? <==> BuildSpec(config, assemblies, findMethods, process).Success?
    ensures r.Failure? ==> r.error == BuildSpec(config, assemblies, findMethods, process).error
    ensures r.Success? ==>
      var spec := BuildSpec(config, assemblies, findMethods, process).value;
      && |r.value| == |spec|
      && (forall i :: 0 <= i < |r.value| ==> fresh(r.value[i]) && r.value[i].Value() == spec[i])
      && (forall i, j :: 0 <= i < j < |r.value| ==> r.value[i] != r.value[j])
  {
    var hiddenTags := HiddenTags(config.tags);
    var visibleTags := VisibleTags(config.tags);
    var settingsResult := Settings(config.settings);
    if settingsResult.Failure? {
      return Failure(settingsResult.error);
    }
    var settings := settingsResult.value;

    var serviceInfos := BuildPaths(assemblies, hiddenTags, findMethods);
    if serviceInfos.Failure? {
      return Failure(serviceInfos.error);
    }
    var entries := serviceInfos.value;
    ghost var spec := BuildSpec(config, assemblies, findMethods, process).value;
    assert |spec| == |entries|;
    assert forall k :: 0 <= k < |entries| ==>
      spec[k] == BuiltService(entries[k].record, settings, hiddenTags, visibleTags, process);
    var result: seq<Service> := [];

    for i := 0 to |entries|
      invariant |result| == i
      invariant forall k :: 0 <= k < i ==> fresh(result[k]) && result[k].Value() == spec[k]
      invariant forall k, l :: 0 <= k < l < i ==> result[k] != result[l]
    {
      var service := NewService(entries[i].record, settings, hiddenTags, visibleTags, process);
      result := result + [service];
    }

    r := Success(result);
  }

  /** The body of the `BuildService` loop: a new `Service` with the settings, then the record's data. */
  method NewService(record: BuildRecord, settings: map<string, string>, hiddenTags: seq<string>,
                    visibleTags: seq<string>, process: ProcessDefinitions)
    returns (service: Service)
    ensures fresh(service)
    ensures service.Value() == BuiltService(record, settings, hiddenTags, visibleTags, process)
  {
    service := new Service();
    ProcessSettings(service, settings);
    service.paths := Some(record.paths);
    service.definitions := Some(process(hiddenTags, visibleTags, record.definitionTypes));
    service.name := Some(if record.name.Some? then record.name.value else "");
  }
}
