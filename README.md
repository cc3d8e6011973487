# SwaggerWcf core, modelled in Dafny

SwaggerWcf builds Swagger 2.0 documents for the WCF services of a running program and
serves them over HTTP. When a request first reaches the `SwaggerWcfEndpoint`, the endpoint:
1. reads the `swaggerwcf` configuration section (tags and settings);
2. scans the loaded assemblies for types that carry a `SwaggerWcfAttribute`;
3. builds one `Service` document per such type.

It then serves the chosen document as JSON, plus the files of the bundled viewer.

This project models three parts of that core:

- **`Service`** (`models.dfy`, `serialized_form.dfy`).
  - Its defaults, and `Serialize` with its `WritePaths`, `WriteDefinitions` and `WriteSchemes` helpers.
  - The JSON writer is a class that records the tokens it receives.
  - `SerializeSpec` gives the tokens written for a service state.
  - A decoder reads those tokens back as a JSON object. The lemmas prove the key order, the omission rules, and the sorted, stable and complete `paths`/`definitions` objects through that decoder.
  - The project's stable sort is `Ordering.OrderBy`.
- **`ServiceBuilder`** (`service_builder.dfy`).
  - Hidden and visible tags; the settings dictionary.
  - `ProcessSettings` on the `Service`/`Info`/`InfoContact`/`InfoLicense` objects.
  - The assembly scan `BuildPaths`, and `BuildService`.
  - Reflection is replaced by descriptors:
    - an assembly either lists its types or fails to;
    - a type has an identity, a simple name and an optional attribute.
  - `Mapper.FindMethods` and `DefinitionsBuilder.Process` are function parameters.
- **`SwaggerWcfEndpoint`** (`endpoint.dfy`).
  - The static state is a `Registry` object: the once-flag, the service list and the build's inputs.
  - On top of it: `Init`, `Configure`, `GetSwaggerFile` and `StaticContent`.
  - The choice of document (`SelectService`) and the routing of a static request (`Route`) are pure functions with lemmas.

`text.dfy` holds the .NET string operations the core relies on, and `wrappers.dfy` holds `Option`/`Result`. A null reference is `C?`; a nullable string or list is `Option`.

Notes on what the code does, which the model follows:

- Empty values are still written:
  - `host` and `basePath` are written whenever they are non-null, even when they are empty;
  - `swagger` is always written;
  - `info` is written whenever it is allocated, even when all its fields are null.
- Build failures are not surfaced:
  - an assembly whose types cannot be listed is skipped silently;
  - a qualifying type met twice throws from `Dictionary.Add` and ends the whole build;
  - a build that throws leaves `Services` null with the once-flag already set, so every later request for a document fails.
- `paths` and `definitions` are sorted by a stable sort:
  - keys are "strictly ascending" only where they differ;
  - equal keys keep their list order.
- The list of documents follows the order of the assembly scan.

## Model

| member | source | states |
|---|---|---|
| Models.Service.constructor | src/SwaggerWcf/Models/Service.cs:9-15 | a new service has swagger "2.0", empty schemes, paths and definitions lists, and null info, host, basePath and name |
| Models.Service.Serialize | src/SwaggerWcf/Models/Service.cs:36-76 | the writer receives exactly `SerializeSpec` of the service's state before the call, appended to what it already held; only the writer changes |
| Models.Service.WriteSchemes | src/SwaggerWcf/Models/Service.cs:98-106 | writes an array holding the schemes in list order |
| Models.Service.WritePaths | src/SwaggerWcf/Models/Service.cs:78-86 | writes an object holding each path's block, in the order `OrderBy(Id)` gives |
| Models.Service.WriteDefinitions | src/SwaggerWcf/Models/Service.cs:88-96 | writes an object holding each definition's block, in the order `OrderBy(Schema.Name)` gives |
| SerializedForm.SerializedDocument | src/SwaggerWcf/Models/Service.cs:36-76 | the written tokens decode as exactly one JSON object, whose members are those `DocumentFrom` lists for the service |
| SerializedForm.SerializedKeyOrder | src/SwaggerWcf/Models/Service.cs:38-75 | the first member is `swagger`; member keys come in strictly increasing rank in the order swagger, info, host, basePath, schemes, paths, definitions |
| SerializedForm.SerializedMembers | src/SwaggerWcf/Models/Service.cs:40-74 | `swagger` is always present; `info`, `host`, `basePath` are present exactly when non-null, with their values; `schemes`, `paths`, `definitions` exactly when non-null and non-empty; `name` and every other key never |
| SerializedForm.NameNotSerialized | src/SwaggerWcf/Models/Service.cs:31-34 | changing `Name` does not change the output |
| SerializedForm.SerializedSchemes | src/SwaggerWcf/Models/Service.cs:58-62 | the `schemes` value is an array whose item i is scheme i |
| SerializedForm.SerializedPaths | src/SwaggerWcf/Models/Service.cs:64-68 | the `paths` object holds the paths sorted by `Id`, as a permutation of the list, with paths of equal `Id` in list order |
| SerializedForm.SerializedDefinitions | src/SwaggerWcf/Models/Service.cs:70-74 | the `definitions` object holds the definitions sorted by schema name, as a permutation of the list, with equal names in list order |
| Ordering.OrderBy | src/SwaggerWcf/Models/Service.cs:81 | `OrderBy` returns a permutation of its input, ordered by key |
| Ordering.OrderByStable | src/SwaggerWcf/Models/Service.cs:91 | for every key, the elements with that key keep their relative order |
| Ordering.OrderByStrictlyAscending | src/SwaggerWcf/Models/Service.cs:81 | of two sorted elements with different keys, the earlier has the strictly smaller key |
| Text.LessEqTotal | src/SwaggerWcf/Models/Service.cs:91 | the key order compares any two strings |
| Text.LessEqTransitive | src/SwaggerWcf/Models/Service.cs:91 | the key order is transitive |
| Text.LessEqAntisymmetric | src/SwaggerWcf/Models/Service.cs:91 | two strings that are each at most the other are equal |
| ServiceBuilder.HiddenTags | src/SwaggerWcf/Support/ServiceBuilder.cs:58-66 | a null tag collection gives no hidden tags; otherwise the names of the tags marked invisible, every one of them listed and never more names than tags (order and multiplicity: `TagNamesAppend`, `TagNamesSingle`) |
| ServiceBuilder.VisibleTags | src/SwaggerWcf/Support/ServiceBuilder.cs:68-76 | a null tag collection gives no visible tags; otherwise the names of the tags marked visible, every one of them listed and never more names than tags (order and multiplicity: `TagNamesAppend`, `TagNamesSingle`) |
| ServiceBuilder.TagNames | src/SwaggerWcf/Support/ServiceBuilder.cs:62-64 | at most one name per tag, and the name of every tag with the requested flag is listed |
| ServiceBuilder.TagNamesSingle | src/SwaggerWcf/Support/ServiceBuilder.cs:62-64 | a single tag gives its name when its flag matches and nothing otherwise |
| ServiceBuilder.TagNamesAppend | src/SwaggerWcf/Support/ServiceBuilder.cs:62-64 | the names of two tag lists joined are the names of the first followed by those of the second, so the names keep the tags' order, one per matching tag |
| ServiceBuilder.TagNamesMember | src/SwaggerWcf/Support/ServiceBuilder.cs:62-64 | a name is listed exactly when some tag with that name has the requested visibility flag |
| ServiceBuilder.TagsPartition | src/SwaggerWcf/Support/ServiceBuilder.cs:58-76 | hidden and visible names together are the multiset of all tag names, and their counts add up to the number of tags |
| ServiceBuilder.Settings | src/SwaggerWcf/Support/ServiceBuilder.cs:78-83 | a null settings collection gives the empty dictionary |
| ServiceBuilder.ToDictionary | src/SwaggerWcf/Support/ServiceBuilder.cs:82 | a built dictionary has one key per element; a failure is the duplicate-key error of `ToDictionary` |
| ServiceBuilder.ToDictionarySucceeds | src/SwaggerWcf/Support/ServiceBuilder.cs:82 | building the dictionary succeeds exactly when no setting name repeats |
| ServiceBuilder.ToDictionaryKeys | src/SwaggerWcf/Support/ServiceBuilder.cs:82 | the dictionary's keys are exactly the setting names |
| ServiceBuilder.ToDictionaryValues | src/SwaggerWcf/Support/ServiceBuilder.cs:82 | every setting name maps to its element's value |
| ServiceBuilder.ToDictionaryFails | src/SwaggerWcf/Support/ServiceBuilder.cs:82 | on failure, the error names the first element whose name repeats an earlier one |
| ServiceBuilder.ProcessSettings | src/SwaggerWcf/Support/ServiceBuilder.cs:85-118 | the new state is `SettingsApplied` of the old one; every dereference of `Info`, `Contact` and `License` is proved non-null |
| ServiceBuilder.SetInfoFields | src/SwaggerWcf/Support/ServiceBuilder.cs:94-101 | on the new `Info`, each of the four fields is its setting, or null when the key is absent |
| ServiceBuilder.SetContactFields | src/SwaggerWcf/Support/ServiceBuilder.cs:103-110 | a `Contact` is allocated exactly when a key starts with "InfoContact", and its fields are their settings or null |
| ServiceBuilder.SetLicenseFields | src/SwaggerWcf/Support/ServiceBuilder.cs:112-117 | a `License` is allocated exactly when a key starts with "InfoLicense", and its fields are their settings or null |
| ServiceBuilder.InfoKeysAllocate | src/SwaggerWcf/Support/ServiceBuilder.cs:92-101 | every `Info` field key starts with "Info", so `Info` exists before any of its fields is set |
| ServiceBuilder.ContactKeysAllocate | src/SwaggerWcf/Support/ServiceBuilder.cs:103-110 | every contact key starts with "InfoContact" and "Info", so `Contact` and `Info` exist before a contact field is set |
| ServiceBuilder.LicenseKeysAllocate | src/SwaggerWcf/Support/ServiceBuilder.cs:112-117 | every license key starts with "InfoLicense" and "Info", so `License` and `Info` exist before a license field is set |
| ServiceBuilder.InfoFromSettings | src/SwaggerWcf/Support/ServiceBuilder.cs:92-117 | with no key starting with "Info" every field is null; a `Contact` or `License` is only built when some key starts with "Info", so it always hangs under an allocated `Info` |
| ServiceBuilder.SettingsApplied | src/SwaggerWcf/Support/ServiceBuilder.cs:85-118 | `BasePath` and `Host` become their setting's value when the key is present and stay as they were otherwise; `Info` is replaced by the one built from the settings exactly when a key starts with "Info"; no other field changes, and settings with neither key and no "Info" prefix change nothing |
| ServiceBuilder.SettingsAppliedFields | src/SwaggerWcf/Support/ServiceBuilder.cs:92-117 | on a new service, `Info` exists exactly when a key starts with "Info", and `Contact` / `License` exactly when a key starts with "InfoContact" / "InfoLicense"; each of the nine field keys puts its value into its field, with the containers above it present, and a missing key leaves its field null |
| ServiceBuilder.BuildPaths | src/SwaggerWcf/Support/ServiceBuilder.cs:132-164 | the result is `BuildPathsSpec`: a scan of every listable assembly's types in order, one entry per qualifying type, and a failure on a qualifying type met twice |
| ServiceBuilder.AddTypes | src/SwaggerWcf/Support/ServiceBuilder.cs:147-161 | one assembly's types extend the entries exactly as `Entries` does, or the registration fails as `Register` does |
| ServiceBuilder.RegisterSucceeds | src/SwaggerWcf/Support/ServiceBuilder.cs:160 | registering succeeds exactly when no type repeats, and then keeps every entry in order |
| ServiceBuilder.BuildPathsFails | src/SwaggerWcf/Support/ServiceBuilder.cs:160 | once registering the types of one assembly fails, the whole scan fails with that error |
| ServiceBuilder.BuildPathsQualification | src/SwaggerWcf/Support/ServiceBuilder.cs:149-158 | after a successful scan, a type has an entry exactly when it was scanned, has the attribute and its simple name is not hidden; each entry holds that type's record |
| ServiceBuilder.EntriesMembers | src/SwaggerWcf/Support/ServiceBuilder.cs:147-161 | the entries are exactly the qualifying scanned types, each with the record built for it |
| ServiceBuilder.ScannedTypesMembers | src/SwaggerWcf/Support/ServiceBuilder.cs:134-147 | a type is scanned exactly when some assembly whose types can be listed lists it |
| ServiceBuilder.UnreadableAssemblySkipped | src/SwaggerWcf/Support/ServiceBuilder.cs:137-145 | inserting an assembly whose types cannot be listed does not change the scan's result |
| ServiceBuilder.BuildService | src/SwaggerWcf/Support/ServiceBuilder.cs:29-56 | succeeds exactly when `BuildSpec` does, with its error otherwise; returns one distinct new `Service` per entry whose state is the corresponding document |
| ServiceBuilder.NewService | src/SwaggerWcf/Support/ServiceBuilder.cs:44-50 | a new service with the settings applied, then the record's paths, the processed definitions and the record's name or "" |
| ServiceBuilder.BuildSpecDocuments | src/SwaggerWcf/Support/ServiceBuilder.cs:39-53 | the build fails exactly on a repeated setting name or a repeated qualifying type; otherwise it yields one document per qualifying type in scan order, with swagger "2.0", no schemes, that type's paths and its attribute name or "" |
| Endpoint.Registry.constructor | src/SwaggerWcf/SwaggerWcfEndpoint.cs:21-22 | the static state starts with the flag at 0 and no service list |
| Endpoint.Registry.Init | src/SwaggerWcf/SwaggerWcfEndpoint.cs:31-39 | the first call turns the flag from 0 to 1 and stores the built services (or reports the build's exception, leaving the list as it was); later calls change nothing |
| Endpoint.Registry.Configure | src/SwaggerWcf/SwaggerWcfEndpoint.cs:52-59 | runs `Init` first: on the first call the flag becomes 1, and a failed build is reported with the list left as it was; then every service's `Info` is the given one and every other field and the list are unchanged; a null list is an exception |
| Endpoint.FirstMatch | src/SwaggerWcf/SwaggerWcfEndpoint.cs:79-80 | the first position whose name equals the target ignoring case; none exactly when no name matches |
| Endpoint.SelectService | src/SwaggerWcf/SwaggerWcfEndpoint.cs:71-87 | no name selects the first service, and an empty list is the `First()` exception; a name selects the first case-insensitive match of its name without extension, or not-found, never the exception |
| Endpoint.SelectByFileName | src/SwaggerWcf/SwaggerWcfEndpoint.cs:77-80 | asking for `<name>.json` selects the first service named `<name>` in any case |
| Endpoint.Registry.GetSwaggerFile | src/SwaggerWcf/SwaggerWcfEndpoint.cs:66-94 | the serialized document of the selected service; with a name, not-found when no service matches (an empty list included); with no name, the `First()` exception on an empty list; an exception on a null list |
| Endpoint.Registry.GetFirstSwaggerFile | src/SwaggerWcf/SwaggerWcfEndpoint.cs:61-64 | the first service's serialized document, or the exception of a null or empty list |
| Endpoint.Registry.Process | src/SwaggerWcf/SwaggerWcfEndpoint.cs:93 | serializing into a new writer yields exactly `SerializeSpec` of the service |
| Endpoint.RequestFileName | src/SwaggerWcf/SwaggerWcfEndpoint.cs:111-113 | the file name is the prefix of the request up to its first '?', holds no '?', and is the whole request when it has none |
| Endpoint.QueryStringIgnored | src/SwaggerWcf/SwaggerWcfEndpoint.cs:111-113 | a query string after '?' never reaches the file lookup |
| Endpoint.Route | src/SwaggerWcf/SwaggerWcfEndpoint.cs:96-135 | no context gives the null stream; blank content gives the redirect to `index.html?url=<base path>/swagger.json`; otherwise a file name ending in ".json" in any case asks for a document, any other name is served when the file exists and is not-found otherwise |
| Endpoint.Registry.StaticContent | src/SwaggerWcf/SwaggerWcfEndpoint.cs:96-135 | carries out the routing decision: the null stream, the redirect, the `GetSwaggerFile` answer for the file name, the file, or not-found |
| Text.IndexOf | src/SwaggerWcf/SwaggerWcfEndpoint.cs:112 | the first position of the character, or none exactly when it does not occur |
| Text.FileNameWithoutExtension | src/SwaggerWcf/SwaggerWcfEndpoint.cs:77 | the result is the part of the path after its last separator (all of it when there is none), cut at its last '.' (kept whole when it has none), and holds no separator |
| Text.FileNameCutUnique | src/SwaggerWcf/SwaggerWcfEndpoint.cs:77 | that description of the result fixes where it starts and ends, so it determines the result |
| Text.PathFileName | src/SwaggerWcf/SwaggerWcfEndpoint.cs:77 | `<dir><separator><name>.<ext>` gives `<name>`, whatever the directory part holds |
| Text.StripExtension | src/SwaggerWcf/SwaggerWcfEndpoint.cs:77 | a plain name followed by an extension becomes the name again |

## Left out

- Reflection is not modelled: `AppDomain.GetAssemblies`, `DefinedTypes`, `GetCustomAttribute` and `AsType().Name`. Assemblies and types are descriptors given as input.
- The GAC and reference filter on the assemblies (ServiceBuilder.cs:126-130) is not modelled. The scan starts from the assemblies that pass it. That predicate also does not do what its comment says: it tests `a.Name != wcfAssembly`.
- `ConfigurationManager.GetSection` is not modelled. The configuration section is an input.
- `OfType<TagElement>()` and `OfType<SettingElement>()` are not modelled. The collections hold only elements of the right kind.
- Null elements and null keys are not modelled: the model's lists hold values, and the elements of `Schemes`, `Path.Id` and `Schema.Name` are non-null strings. So the model does not capture:
  - a null element in the service list, the tag collection or the settings collection, and the `NullReferenceException` it would raise;
  - a null element of `Schemes`, which `WriteValue` writes as JSON null (Service.cs:101-104);
  - a null element of `Paths` or `Definitions`, or a null `Definition.Schema`, which throws `NullReferenceException` in the `OrderBy` key selector (Service.cs:81, 91);
  - a null `Path.Id` or `Schema.Name` key, which `OrderBy` sorts before every string.
- `Serializer.Process` is not part of this model. `Endpoint.Registry.Process` takes it to serialize the service into a fresh writer and return the tokens; the text output and its formatting are not modelled.
- `Mapper.FindMethods`, `DefinitionsBuilder.Process`, and what `Info`, `Path` and `Definition` write are collaborators.
  - They are opaque function parameters and opaque tokens.
  - Their exceptions are not modelled.
  - Info.cs is not part of this model: `new Info()` is taken to leave every field null.
- The string operations in `text.dfy` stand in for .NET's:
  - `CurrentCultureIgnoreCase` comparisons use ASCII case folding;
  - the culture-sensitive `OrderBy` string comparison is an ordinal lexicographic order;
  - `GetFileNameWithoutExtension` does not raise the invalid-path-character exception;
  - `StartsWith("Info")` and the other prefix tests are ordinal, where `String.StartsWith(string)` in .NET is culture-sensitive.
- Dictionaries are enumerated in insertion order. `seq` of entries models the `Dictionary` that `BuildPaths` returns and `BuildService` enumerates.
- `Serialize` and `ProcessSettings` are split into helper methods, one per block of the source. The inner loop of `BuildPaths` is `AddTypes`, and the loops of `WritePaths` and `WriteDefinitions` are `WritePathBlocks` and `WriteDefinitionBlocks`. Each helper is specified on its own.
- There is no concurrency model:
  - the atomicity of `Interlocked.CompareExchange` is not modelled;
  - the `OnGenerationCompleted` event is not modelled.
- `SetCustomZip`, `SetCustomGetFile`, and the viewer's static files (`Support.StaticContent`) are not modelled. The file lookup is a function parameter.
- HTTP plumbing is reduced to the response a request ends with:
  - headers, status codes and content types are not modelled;
  - UTF-8 encoding and `MemoryStream` are not modelled;
  - the null `WebOperationContext` in `GetSwaggerFile` is not modelled.
- The endpoint's instance constructor, which only calls `Init`, is not a separate member. `Build()` only calls `BuildService` and is modelled by it.
