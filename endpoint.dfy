/**
 * The endpoint (src/SwaggerWcf/SwaggerWcfEndpoint.cs): the documents built once and
 * kept for every later request, the choice of document for `GetSwaggerFile`, and the
 * routing of `StaticContent`.
 *
 * The static state of the endpoint is one `Registry` object; what the build reads
 * (the configuration section, the loaded assemblies and the two collaborators) are
 * constants of it.  HTTP plumbing is reduced to the response a request ends with.
 */
module Endpoint {
  import opened Wrappers
  import opened Text
  import opened Models
  import opened ServiceBuilder

  /** Why a request ends with an exception instead of an answer. */
  datatype Fault =
    | ServicesNull             // `Services` is null (the build never produced a list)
    | NoServices               // `First()` on an empty list
    | BuildFailed(error: BuildError)

  /** A file of the viewer, as `Support.StaticContent.GetFile` finds it. */
  datatype StaticFile = StaticFile(contentType: string, contentLength: int)

  /** The part of the WCF operation context the routing reads. */
  datatype RequestContext = RequestContext(baseLocalPath: string)

  /** What a request gets back. */
  datatype Response =
    | NullStream                   // `Stream.Null`
    | Redirect(location: string)   // status 302 with this Location
    | Document(tokens: seq<Token>)  // status 200, the serialized document
    | NotFound                     // status 404, no body
    | File(file: StaticFile)       // status 200, the file
    | Thrown(fault: Fault)

  // ---------------------------------------------------------------------------
  // Choosing a document
  // ---------------------------------------------------------------------------

  /** The service's name is set and equals `serviceName` up to case (ASCII case folding). */
  predicate NameMatches(name: Option<string>, serviceName: string)
  {
    name.Some? && EqualsIgnoreCase(name.value, serviceName)
  }

  /** `FirstOrDefault` on the names: the first position whose name matches. */
  function FirstMatch(names: seq<Option<string>>, serviceName: string): (r: Option<nat>)
    ensures r.Some? ==>
      && r.value < |names|
      && NameMatches(names[r.value], serviceName)
      && forall k :: 0 <= k < r.value ==> !NameMatches(names[k], serviceName)
    ensures r.None? <==> forall k :: 0 <= k < |names| ==> !NameMatches(names[k], serviceName)
  {
    if names == [] then None
    else if NameMatches(names[0], serviceName) then Some(0)
    else match FirstMatch(names[1..], serviceName)
      case None => None
      case Some(k) => Some(k + 1)
  }

  datatype Selection = Selected(index: nat) | NoMatch | EmptyList

  /**
   * Which of the services named `names` `GetSwaggerFile(name)` serializes.  With no
   * name the first service is chosen, and an empty list is the `First()` exception.
   * With a name, the choice is the first service whose name equals the name without
   * its directory and extension, ignoring case; no such service is not-found.
   */
  function SelectService(names: seq<Option<string>>, name: Option<string>): (r: Selection)
    ensures IsNullOrEmpty(name) ==> r == (if |names| == 0 then EmptyList else Selected(0))
    ensures !IsNullOrEmpty(name) ==>
      var target := FileNameWithoutExtension(name.value);
      && !r.EmptyList?
      && (r.Selected? ==>
            r.index < |names| && NameMatches(names[r.index], target)
            && forall k :: 0 <= k < r.index ==> !NameMatches(names[k], target))
      && (r == NoMatch <==> forall k :: 0 <= k < |names| ==> !NameMatches(names[k], target))
  {
    if IsNullOrEmpty(name) then (if names == [] then EmptyList else Selected(0))
    else match FirstMatch(names, FileNameWithoutExtension(name.value))
      case Some(i) => Selected(i)
      case None => NoMatch
  }

  /** Asking for `<name>.json` finds the service called `<name>`, whatever the case of either. */
  lemma SelectByFileName(names: seq<Option<string>>, i: nat, file: string)
    requires i < |names| && names[i].Some?
    requires forall j :: 0 <= j < |file| ==> file[j] !in PathSeparators && file[j] != '.'
    requires EqualsIgnoreCase(names[i].value, file)
    requires forall k :: 0 <= k < i ==> !NameMatches(names[k], file)
    ensures SelectService(names, Some(file + ".json")) == Selected(i)
  {
    StripExtension(file, "json");
    assert FileNameWithoutExtension(file + "." + "json") == file;
    assert file + ".json" == file + "." + "json";
    assert NameMatches(names[i], file);
    assert FirstMatch(names, file) == Some(i);
  }

  function NamesOf(services: seq<Service>): (r: seq<Option<string>>)
    reads set s | s in services
    ensures |r| == |services|
  {
    seq(|services|, i requires 0 <= i < |services| reads set s | s in services => services[i].name)
  }

  // ---------------------------------------------------------------------------
  // Routing a static-content request
  // ---------------------------------------------------------------------------

  /** The part of the request before its first '?'. */
  function RequestFileName(content: string): (r: string)
    ensures '?' !in r
    ensures r <= content
    ensures |r| < |content| ==> content[|r|] == '?'
    ensures '?' !in content ==> r == content
  {
    match IndexOf(content, '?')
    case Some(k) => content[..k]
    case None => content
  }

  /** What `StaticContent` decides before any document or file is read. */
  datatype Decision =
    | NoContext                    // no operation context: `Stream.Null`
    | RedirectTo(location: string)
    | SwaggerJson(filename: string)  // handed to `GetSwaggerFile`
    | Serve(file: StaticFile)
    | Missing                      // not found: 404

  const SwaggerJsonFile := "/swagger.json"

  /**
   * `StaticContent(content)`; `getFile` is `Support.StaticContent.GetFile`, None for
   * `Stream.Null`.  No context gives the null stream; blank content the redirect to
   * the viewer with the document's address; otherwise the file name is the content up
   * to its first '?', a name ending in ".json" (any case) asks for a document, and any
   * other name is served from the static files or not found.
   */
  function Route(context: Option<RequestContext>, content: Option<string>,
                 getFile: string -> Option<StaticFile>): (r: Decision)
    ensures r.NoContext? <==> context.None?
    ensures r.RedirectTo? <==> context.Some? && IsNullOrWhiteSpace(content)
    ensures r.RedirectTo? ==> r.location == "index.html?url=" + context.value.baseLocalPath + "/swagger.json"
    ensures context.Some? && !IsNullOrWhiteSpace(content) ==>
      var filename := RequestFileName(content.value);
      && filename <= content.value && '?' !in filename
      && (r.SwaggerJson? <==> EndsWithIgnoreCase(filename, ".json"))
      && (r.SwaggerJson? ==> r.filename == filename)
      && (r.Serve? <==> !EndsWithIgnoreCase(filename, ".json") && getFile(filename).Some?)
      && (r.Serve? ==> getFile(filename) == Some(r.file))
      && (r.Missing? <==> !EndsWithIgnoreCase(filename, ".json") && getFile(filename).None?)
  {
    if context.None? then NoContext
    else if IsNullOrWhiteSpace(content) then
      RedirectTo("index.html?url=" + context.value.baseLocalPath + SwaggerJsonFile)
    else
      var filename := RequestFileName(content.value);
      if EndsWithIgnoreCase(filename, ".json") then SwaggerJson(filename)
      else match getFile(filename)
        case Some(f) => Serve(f)
        case None => Missing
  }

  /** The query string never reaches the file lookup. */
  lemma QueryStringIgnored(path: string, query: string)
    requires '?' !in path
    ensures RequestFileName(path + "?" + query) == path
  {
    var s := path + "?" + query;
    assert s[|path|] == '?';
    assert s[..|path|] == path;
  }

  // ---------------------------------------------------------------------------
  // The endpoint's state
  // ---------------------------------------------------------------------------

  class Registry {
    /** `_initialized`: 0 until the first `Init`, 1 after. */
    var initialized: int
    /** `Services`: None while null. */
    var services: Option<seq<Service>>

    const config: SwaggerWcfSection
    const assemblies: seq<Assembly>
    const findMethods: FindMethods
    const process: ProcessDefinitions

    constructor (config: SwaggerWcfSection, assemblies: seq<Assembly>, findMethods: FindMethods,
                 process: ProcessDefinitions)
      ensures initialized == 0 && services.None?
      ensures this.config == config && this.assemblies == assemblies
      ensures this.findMethods == findMethods && this.process == process
    {
      initialized := 0;
      services := None;
      this.config := config;
      this.assemblies := assemblies;
      this.findMethods := findMethods;
      this.process := process;
    }

    /**
     * `Init`: the first call turns the flag from 0 to 1 and builds the documents;
     * every later call changes nothing.  A build that throws leaves `Services` as it
     * was, with the flag already set.
     */
    method Init() returns (fault: Option<Fault>)
      modifies this
      ensures old(initialized) != 0 ==> initialized == old(initialized) && services == old(services) && fault.None?
      ensures old(initialized) == 0 ==> initialized == 1
      ensures old(initialized) == 0 ==>
        match BuildSpec(config, assemblies, findMethods, process)
        case Failure(e) => services == old(services) && fault == Some(BuildFailed(e))
        case Success(docs) =>
          && fault.None? && services.Some? && |services.value| == |docs|
          && (forall i :: 0 <= i < |docs| ==> fresh(services.value[i]) && services.value[i].Value() == docs[i])
          && (forall i, j :: 0 <= i < j < |docs| ==> services.value[i] != services.value[j])
    {
      if initialized != 0 {
        return None;
      }
      initialized := 1;
      var built := BuildService(config, assemblies, findMethods, process);
      if built.Failure? {
        return Some(BuildFailed(built.error));
      }
      services := Some(built.value);
      fault := None;
    }

    /** The fields of service `s` other than `Info`. */
    function Fields(s: Service): ServiceValue
      reads s
    {
      ServiceValue(s.swagger, None, s.host, s.basePath, s.schemes, s.paths, s.definitions, s.name)
    }

    /**
     * `Configure(info)`: `Init`, then `info` becomes the `Info` of every service; the
     * list and every other field stay as they were.  A null list is the
     * `NullReferenceException` of the loop.
     */
    method Configure(info: Info?) returns (fault: Option<Fault>)
      modifies this, if services.Some? then set s | s in services.value else {}
      ensures old(initialized) == 0 ==> initialized == 1
      ensures old(initialized) != 0 ==> initialized == old(initialized) && services == old(services)
      ensures old(initialized) != 0 && services.Some? ==>
        forall i :: 0 <= i < |services.value| ==> Fields(services.value[i]) == old(Fields(services.value[i]))
      ensures old(initialized) == 0 && BuildSpec(config, assemblies, findMethods, process).Success? ==>
        var docs := BuildSpec(config, assemblies, findMethods, process).value;
        && fault.None? && services.Some? && |services.value| == |docs|
        && forall i :: 0 <= i < |docs| ==> Fields(services.value[i]) == docs[i].(info := None)
      ensures old(initialized) == 0 && BuildSpec(config, assemblies, findMethods, process).Failure? ==>
        fault == Some(BuildFailed(BuildSpec(config, assemblies, findMethods, process).error))
        && services == old(services)
      ensures old(initialized) != 0 ==> (fault.None? <==> services.Some?)
      ensures old(initialized) != 0 && services.None? ==> fault == Some(ServicesNull)
      ensures fault.None? ==> services.Some? && forall i :: 0 <= i < |services.value| ==> services.value[i].info == info
    {
      fault := Init();
      if fault.Some? {
        return;
      }
      if services.None? {
        return Some(ServicesNull);
      }
      var list := services.value;
      ghost var before := seq(|list|, i requires 0 <= i < |list| reads set s | s in list => Fields(list[i]));
      ghost var flag := initialized;
      for i := 0 to |list|
        invariant initialized == flag
        invariant services == Some(list)
        invariant forall k :: 0 <= k < i ==> list[k].info == info
        invariant forall k :: 0 <= k < |list| ==> Fields(list[k]) == before[k]
      {
        list[i].info := info;
      }
    }

    /**
     * `GetSwaggerFile(name)`: the serialized document of the service `SelectService`
     * chooses, not-found when none matches, the `First()` exception on an empty list.
     */
    method GetSwaggerFile(name: Option<string>) returns (response: Response)
      ensures services.None? ==> response == Thrown(ServicesNull)
      ensures services.Some? ==>
        match SelectService(NamesOf(services.value), name)
        case Selected(i) => i < |services.value| && response == Document(SerializeSpec(services.value[i].Value()))
        case NoMatch => response == NotFound
        case EmptyList => response == Thrown(NoServices)
    {
      if services.None? {
        return Thrown(ServicesNull);
      }
      var list := services.value;
      var selection := SelectService(NamesOf(list), name);
      match selection
      case EmptyList =>
        response := Thrown(NoServices);
      case NoMatch =>
        response := NotFound;
      case Selected(i) =>
        var tokens := Process(list[i]);
        response := Document(tokens);
    }

    /** `Serializer.Process(service)`: the service written to a new writer. */
    static method Process(service: Service) returns (tokens: seq<Token>)
      ensures tokens == SerializeSpec(service.Value())
    {
      var writer := new JsonWriter();
      service.Serialize(writer);
      tokens := writer.tokens;
    }

    /** `GetSwaggerFile()`: the first document. */
    method GetFirstSwaggerFile() returns (response: Response)
      ensures services.None? ==> response == Thrown(ServicesNull)
      ensures services.Some? && |services.value| == 0 ==> response == Thrown(NoServices)
      ensures services.Some? && |services.value| > 0 ==> response == Document(SerializeSpec(services.value[0].Value()))
    {
      response := GetSwaggerFile(None);
    }

    /** `StaticContent(content)`: the routing decision, carried out. */
    method StaticContent(context: Option<RequestContext>, content: Option<string>,
                         getFile: string -> Option<StaticFile>)
      returns (response: Response)
      ensures Route(context, content, getFile) == NoContext ==> response == NullStream
      ensures Route(context, content, getFile).RedirectTo? ==>
        response == Redirect(Route(context, content, getFile).location)
      ensures Route(context, content, getFile).Serve? ==> response == File(Route(context, content, getFile).file)
      ensures Route(context, content, getFile) == Missing ==> response == NotFound
      ensures Route(context, content, getFile).SwaggerJson? ==>
        var name := Some(Route(context, content, getFile).filename);
        && (services.None? ==> response == Thrown(ServicesNull))
        && (services.Some? ==>
              match SelectService(NamesOf(services.value), name)
              case Selected(i) => i < |services.value| && response == Document(SerializeSpec(services.value[i].Value()))
              case NoMatch => response == NotFound
              case EmptyList => response == Thrown(NoServices))
    {
      var decision := Route(context, content, getFile);
      match decision
      case NoContext =>
        response := NullStream;
      case RedirectTo(location) =>
        response := Redirect(location);
      case SwaggerJson(filename) =>
        response := GetSwaggerFile(Some(filename));
      case Serve(file) =>
        response := File(file);
      case Missing =>
        response := NotFound;
    }
  }
}
