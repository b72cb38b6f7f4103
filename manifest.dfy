/** The fabric manifest reader: `Parser.ModMeta.FromModFile` and
    `Parser.ParseDict`. The archive and the JSON text parser are library
    calls; they enter the model as values (`archive`) and parameters
    (`parse`, `render`). */
module Manifest {
  import opened Wrappers
  import opened Json

  /** Every way reading a manifest can end in an exception. */
  datatype Error =
    | InvalidModPath          // the archive path is empty
    | ArchiveUnreadable       // the archive cannot be opened
    | ManifestNotFound        // the archive has no `fabric.mod.json` entry
    | ManifestEmpty           // the entry's text is empty
    | MalformedJson           // the entry's text is not a JSON object
    | MissingField(key: string)
    | CastFailed(key: string) // a field's token cannot be converted to what the code casts it to

  /** A string-to-string dictionary of the metadata record. */
  type Dict = map<string, string>

  const ManifestEntry: string := "fabric.mod.json"

  /** The keys validation demands, in the order it checks them. */
  const RequiredKeys: seq<string> :=
    ["schemaVersion", "name", "description", "authors", "contact", "environment"]

  /** The values of the fields of a `ModMeta`; `None` is a C# null. */
  datatype Meta = Meta(
    schemaVersion: Option<string>,
    name: Option<string>,
    version: Option<string>,
    description: Option<string>,
    authors: Option<seq<Option<string>>>,
    contact: Option<Dict>,
    icon: Option<string>,
    environment: Option<string>,
    depends: Option<Dict>,
    breaks: Option<Dict>)

  /** The fields of a freshly constructed `ModMeta`: all null. */
  const Unset: Meta := Meta(None, None, None, None, None, None, None, None, None, None)

  /** The record after a call, and the exception it threw, if any. */
  datatype Loaded = Loaded(meta: Meta, failure: Option<Error>)

  /** Opening the archive and reading its manifest entry. `archive` is what
      opening `modPath` gives: `None` when it cannot be opened, otherwise
      its entries by exact name. */
  function ExtractFabricJson(modPath: string, archive: Option<map<string, string>>): (r: Result<string, Error>)
    ensures r == Err(InvalidModPath) <==> modPath == ""
    ensures r == Err(ArchiveUnreadable) <==> modPath != "" && archive.None?
    ensures r == Err(ManifestNotFound) <==> modPath != "" && archive.Some? && ManifestEntry !in archive.value
    ensures r.Ok? <==> modPath != "" && archive.Some? && ManifestEntry in archive.value
    ensures r.Ok? ==> r.value == archive.value[ManifestEntry]
  {
    if modPath == "" then Err(InvalidModPath)
    else if archive.None? then Err(ArchiveUnreadable)
    else if ManifestEntry !in archive.value then Err(ManifestNotFound)
    else Ok(archive.value[ManifestEntry])
  }

  /** The manifest's top-level object: the entry's text, refused when empty,
      then given to the JSON parser (`parse` gives `None` where it throws). */
  function ReadManifest(modPath: string, archive: Option<map<string, string>>,
                        parse: string -> Option<JsonObject>): (r: Result<JsonObject, Error>)
    ensures ExtractFabricJson(modPath, archive).Err? ==> r == Err(ExtractFabricJson(modPath, archive).error)
    ensures r == Err(ManifestEmpty) <==> ExtractFabricJson(modPath, archive) == Ok("")
    ensures r == Err(MalformedJson) <==>
      exists text :: ExtractFabricJson(modPath, archive) == Ok(text) && text != "" && parse(text).None?
    ensures r.Ok? <==> exists text :: ExtractFabricJson(modPath, archive) == Ok(text) && text != "" && parse(text).Some?
    ensures r.Ok? ==> parse(ExtractFabricJson(modPath, archive).value) == Some(r.value)
  {
    match ExtractFabricJson(modPath, archive)
    case Err(e) => Err(e)
    case Ok(data) =>
      if data == "" then Err(ManifestEmpty)
      else match parse(data)
        case None => Err(MalformedJson)
        case Some(json) => Ok(json)
  }

  /** Key-presence validation: the first required key, in the checked order,
      that the object lacks, or `None` when it has them all. Presence is
      all that is checked, whatever the value is. */
  function Validate(obj: JsonObject): (missing: Option<string>)
    ensures missing.None? <==> forall i | 0 <= i < |RequiredKeys| :: RequiredKeys[i] in obj
    ensures missing.Some? ==>
      exists i | 0 <= i < |RequiredKeys| ::
        && RequiredKeys[i] == missing.value
        && missing.value !in obj
        && forall j | 0 <= j < i :: RequiredKeys[j] in obj
  {
    assert RequiredKeys[0] == "schemaVersion" && RequiredKeys[1] == "name" && RequiredKeys[2] == "description";
    assert RequiredKeys[3] == "authors" && RequiredKeys[4] == "contact" && RequiredKeys[5] == "environment";
    if "schemaVersion" !in obj then Some("schemaVersion")
    else if "name" !in obj then Some("name")
    else if "description" !in obj then Some("description")
    else if "authors" !in obj then Some("authors")
    else if "contact" !in obj then Some("contact")
    else if "environment" !in obj then Some("environment")
    else None
  }

  /** `ParseDict`: `None` unless the named value is an object; otherwise a
      dictionary with exactly that object's property names, each mapped to
      the text of its value. */
  function ParseDict(obj: JsonObject, valueName: string, render: Json -> string): (r: Option<Dict>)
    ensures r.None? <==> !(valueName in obj && obj[valueName].JObject?)
    ensures r.Some? ==> r.value.Keys == obj[valueName].props.Keys
    ensures r.Some? ==> forall k | k in r.value :: r.value[k] == TokenText(render, obj[valueName].props[k])
  {
    if valueName in obj && obj[valueName].JObject? then
      var props := obj[valueName].props;
      Some(map k | k in props :: TokenText(render, props[k]))
    else None
  }

  /** The number of leading author tokens that convert to a string: the
      foreach appends these and throws at the next one, if any. */
  function FirstUnconvertible(items: seq<Json>): (n: nat)
    ensures n <= |items|
    ensures forall j | 0 <= j < n :: Convertible(items[j])
    ensures n < |items| ==> !Convertible(items[n])
  {
    if items == [] then 0
    else if !Convertible(items[0]) then 0
    else 1 + FirstUnconvertible(items[1..])
  }

  /** The converted author tokens, in order, one per token. */
  function Converted(render: Json -> string, items: seq<Json>): (r: seq<Option<string>>)
    requires forall j | 0 <= j < |items| :: Convertible(items[j])
    ensures |r| == |items|
    ensures forall j | 0 <= j < |items| :: r[j] == CastValue(CastString(render, items[j]))
    decreases |items|
  {
    if items == [] then []
    else Converted(render, items[..|items| - 1]) + [CastValue(CastString(render, items[|items| - 1]))]
  }

  /** What `FromModFile` does to a record holding `prev` once the manifest
      is parsed: validation, then the fields assigned one by one, stopping at
      the first conversion that throws (the fields assigned before it keep
      their new values). */
  function Load(prev: Meta, obj: JsonObject, render: Json -> string): Loaded
  {
    match Validate(obj)
    case Some(k) => Loaded(prev, Some(MissingField(k)))
    case None => LoadFields(prev, obj, render)
  }

  /** The assignments, in source order, once validation has passed. */
  function LoadFields(prev: Meta, obj: JsonObject, render: Json -> string): Loaded
    requires Validate(obj).None?
  {
    var s := LoadScalars(prev, obj, render);
    if s.failure.Some? then s else
    var a := LoadAuthors(s.meta, obj["authors"], render);
    if a.failure.Some? then a else
    LoadRest(a.meta, obj, render)
  }

  /** `schemaVersion`, `name`, `version` and `description`, converted with
      `(string)`; a missing `version` gives null. */
  function LoadScalars(prev: Meta, obj: JsonObject, render: Json -> string): Loaded
    requires Validate(obj).None?
  {
    var sv := CastString(render, obj["schemaVersion"]);
    if sv.CastFails? then Loaded(prev, Some(CastFailed("schemaVersion"))) else
    var m1 := prev.(schemaVersion := CastValue(sv));
    var nm := CastString(render, obj["name"]);
    if nm.CastFails? then Loaded(m1, Some(CastFailed("name"))) else
    var m2 := m1.(name := CastValue(nm));
    var ver := CastField(render, obj, "version");
    if ver.CastFails? then Loaded(m2, Some(CastFailed("version"))) else
    var m3 := m2.(version := CastValue(ver));
    var ds := CastString(render, obj["description"]);
    if ds.CastFails? then Loaded(m3, Some(CastFailed("description"))) else
    Loaded(m3.(description := CastValue(ds)), None)
  }

  /** `Authors` becomes a new empty list; the token must be an array, and its
      elements are converted and appended in order until one fails. */
  function LoadAuthors(prev: Meta, token: Json, render: Json -> string): Loaded
  {
    if !token.JArray? then Loaded(prev.(authors := Some([])), Some(CastFailed("authors"))) else
    var n := FirstUnconvertible(token.items);
    var m := prev.(authors := Some(Converted(render, token.items[..n])));
    if n < |token.items| then Loaded(m, Some(CastFailed("authors"))) else Loaded(m, None)
  }

  /** `contact` through `ParseDict`; `icon` only when present; `environment`;
      `depends` and `breaks` only when present, through `ParseDict`. */
  function LoadRest(prev: Meta, obj: JsonObject, render: Json -> string): Loaded
    requires Validate(obj).None?
  {
    var m6 := prev.(contact := ParseDict(obj, "contact", render));
    var ic := CastField(render, obj, "icon");
    if ic.CastFails? then Loaded(m6, Some(CastFailed("icon"))) else
    var m7 := if "icon" in obj then m6.(icon := CastValue(ic)) else m6;
    var env := CastString(render, obj["environment"]);
    if env.CastFails? then Loaded(m7, Some(CastFailed("environment"))) else
    var m8 := m7.(environment := CastValue(env));
    var m9 := if "depends" in obj then m8.(depends := ParseDict(obj, "depends", render)) else m8;
    if "breaks" !in obj then Loaded(m9, None)
    else Loaded(m9.(breaks := ParseDict(obj, "breaks", render)), None)
  }

  /** The whole of `FromModFile` on a record holding `prev`. */
  function Run(prev: Meta, modPath: string, archive: Option<map<string, string>>,
               parse: string -> Option<JsonObject>, render: Json -> string): Loaded
  {
    match ReadManifest(modPath, archive, parse)
    case Err(e) => Loaded(prev, Some(e))
    case Ok(obj) => Load(prev, obj, render)
  }

  /** A `ModMeta` object. */
  class ModMeta {
    var schemaVersion: Option<string>
    var name: Option<string>
    var version: Option<string>
    var description: Option<string>
    var authors: Option<seq<Option<string>>>
    var contact: Option<Dict>
    var icon: Option<string>
    var environment: Option<string>
    var depends: Option<Dict>
    var breaks: Option<Dict>

    /** The current values of the fields. */
    function Snapshot(): Meta
      reads this
    {
      Meta(schemaVersion, name, version, description, authors, contact, icon, environment, depends, breaks)
    }

    constructor ()
      ensures Snapshot() == Unset
    {
      schemaVersion, name, version, description := None, None, None, None;
      authors, contact, icon, environment, depends, breaks := None, None, None, None, None, None;
    }

    /** Reads the manifest of the archive at `modPath` into this object and
        returns it; on an exception, the fields assigned before it keep
        their new values. */
    method FromModFile(modPath: string, archive: Option<map<string, string>>,
                       parse: string -> Option<JsonObject>, render: Json -> string)
      returns (r: Result<ModMeta, Error>)
      modifies this
      ensures Snapshot() == Run(old(Snapshot()), modPath, archive, parse, render).meta
      ensures r.Ok? <==> Run(old(Snapshot()), modPath, archive, parse, render).failure.None?
      ensures r.Ok? ==> r.value == this
      ensures r.Err? ==> Run(old(Snapshot()), modPath, archive, parse, render).failure == Some(r.error)
    {
      var extracted := ExtractFabricJson(modPath, archive);
      if extracted.Err? {
        return Err(extracted.error);
      }
      var data := extracted.value;
      if data == "" {
        return Err(ManifestEmpty);
      }
      var parsed := parse(data);
      if parsed.None? {
        return Err(MalformedJson);
      }
      var json := parsed.value;
      if "schemaVersion" !in json { return Err(MissingField("schemaVersion")); }
      if "name" !in json { return Err(MissingField("name")); }
      if "description" !in json { return Err(MissingField("description")); }
      if "authors" !in json { return Err(MissingField("authors")); }
      if "contact" !in json { return Err(MissingField("contact")); }
      if "environment" !in json { return Err(MissingField("environment")); }

      var failure := AssignScalars(json, render);
      if failure.Some? { return Err(failure.value); }
      failure := AssignAuthors(json["authors"], render);
      if failure.Some? { return Err(failure.value); }
      failure := AssignRest(json, render);
      if failure.Some? { return Err(failure.value); }
      return Ok(this);
    }

    /** The assignments of `schemaVersion`, `name`, `version` and `description`. */
    method AssignScalars(json: JsonObject, render: Json -> string) returns (failure: Option<Error>)
      requires Validate(json).None?
      modifies this
      ensures Loaded(Snapshot(), failure) == LoadScalars(old(Snapshot()), json, render)
    {
      var c := CastString(render, json["schemaVersion"]);
      if c.CastFails? { return Some(CastFailed("schemaVersion")); }
      schemaVersion := CastValue(c);
      c := CastString(render, json["name"]);
      if c.CastFails? { return Some(CastFailed("name")); }
      name := CastValue(c);
      c := CastField(render, json, "version");
      if c.CastFails? { return Some(CastFailed("version")); }
      version := CastValue(c);
      c := CastString(render, json["description"]);
      if c.CastFails? { return Some(CastFailed("description")); }
      description := CastValue(c);
      return None;
    }

    /** `Authors` becomes a new list, and the foreach over the authors array
        appends each converted element to it. */
    method AssignAuthors(token: Json, render: Json -> string) returns (failure: Option<Error>)
      modifies this
      ensures Loaded(Snapshot(), failure) == LoadAuthors(old(Snapshot()), token, render)
    {
      authors := Some([]);
      if !token.JArray? { return Some(CastFailed("authors")); }
      var items := token.items;
      ghost var before := Snapshot();
      var i := 0;
      while i < |items|
        invariant 0 <= i <= |items|
        invariant forall j | 0 <= j < i :: Convertible(items[j])
        invariant authors == Some(Converted(render, items[..i]))
        invariant Snapshot() == before.(authors := authors)
      {
        var c := CastString(render, items[i]);
        if c.CastFails? {
          assert FirstUnconvertible(items) == i;
          return Some(CastFailed("authors"));
        }
        assert items[..i + 1][..i] == items[..i];
        authors := Some(authors.value + [CastValue(c)]);
        i := i + 1;
      }
      assert FirstUnconvertible(items) == |items|;
      assert items[..|items|] == items;
      return None;
    }

    /** The assignments of `contact`, `icon`, `environment`, `depends` and `breaks`. */
    method AssignRest(json: JsonObject, render: Json -> string) returns (failure: Option<Error>)
      requires Validate(json).None?
      modifies this
      ensures Loaded(Snapshot(), failure) == LoadRest(old(Snapshot()), json, render)
    {
      contact := ParseDict(json, "contact", render);
      if "icon" in json {
        var c := CastString(render, json["icon"]);
        if c.CastFails? { return Some(CastFailed("icon")); }
        icon := CastValue(c);
      }
      var c := CastString(render, json["environment"]);
      if c.CastFails? { return Some(CastFailed("environment")); }
      environment := CastValue(c);
      if "depends" in json {
        depends := ParseDict(json, "depends", render);
      }
      if "breaks" !in json {
        return None;
      }
      breaks := ParseDict(json, "breaks", render);
      return None;
    }
  }
}
