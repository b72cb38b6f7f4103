/** What reading a manifest guarantees: the validation order, when it
    succeeds, what each field then holds, and the rules for optional and
    map-shaped fields. */
module ManifestProperties {
  import opened Wrappers
  import opened Json
  import opened Manifest

  /** The manifests the mapping accepts: every required key present, every
      field the code casts to a string convertible, and `authors` an array
      of convertible elements. `contact`, `depends` and `breaks` may hold
      anything. */
  predicate WellTyped(obj: JsonObject) {
    && "schemaVersion" in obj && Convertible(obj["schemaVersion"])
    && "name" in obj && Convertible(obj["name"])
    && ("version" in obj ==> Convertible(obj["version"]))
    && "description" in obj && Convertible(obj["description"])
    && "authors" in obj && obj["authors"].JArray?
    && (forall j | 0 <= j < |obj["authors"].items| :: Convertible(obj["authors"].items[j]))
    && "contact" in obj
    && ("icon" in obj ==> Convertible(obj["icon"]))
    && "environment" in obj && Convertible(obj["environment"])
  }

  /** The error names a missing field exactly when that field is the first
      required key, in the checked order, that the manifest lacks; then no
      field of the record has been assigned. */
  lemma MissingFieldIffFirstAbsent(prev: Meta, obj: JsonObject, render: Json -> string, k: string)
    ensures Load(prev, obj, render).failure == Some(MissingField(k)) <==> Validate(obj) == Some(k)
    ensures Validate(obj).Some? ==> Load(prev, obj, render).meta == prev
  {
    if Validate(obj).None? {
      var s := LoadScalars(prev, obj, render);
      if s.failure.None? {
        var a := LoadAuthors(s.meta, obj["authors"], render);
        assert a.failure != Some(MissingField(k));
      }
    }
  }

  /** Keys outside the required set, present or not and whatever their
      value, never change the outcome of validation. */
  lemma OptionalKeysDoNotAffectValidation(obj: JsonObject, k: string, v: Json)
    requires k !in RequiredKeys
    ensures Validate(obj[k := v]) == Validate(obj)
    ensures Validate(obj - {k}) == Validate(obj)
  {
    assert RequiredKeys == ["schemaVersion", "name", "description", "authors", "contact", "environment"];
  }

  /** Reading succeeds exactly on well-typed manifests, whatever the
      record held before and whatever text non-string tokens render to. */
  lemma LoadSucceedsIff(prev: Meta, obj: JsonObject, render: Json -> string)
    ensures Load(prev, obj, render).failure.None? <==> WellTyped(obj)
  {
    if Validate(obj).None? {
      var s := LoadScalars(prev, obj, render);
      if s.failure.None? {
        var items := obj["authors"];
        if items.JArray? {
          var n := FirstUnconvertible(items.items);
          if n < |items.items| {
            assert !Convertible(obj["authors"].items[n]);
          }
        }
      }
    }
  }

  /** On success every field comes from the manifest: the string fields are
      its tokens converted, `Authors` has one converted element per array
      element in the same order, the three dictionaries come from
      `ParseDict`, and `icon`, `depends` and `breaks` are left as they were
      when their key is absent. */
  lemma LoadedFields(prev: Meta, obj: JsonObject, render: Json -> string)
    requires WellTyped(obj)
    ensures Load(prev, obj, render).failure.None?
    ensures var m := Load(prev, obj, render).meta;
      && m.schemaVersion == CastValue(CastString(render, obj["schemaVersion"]))
      && m.name == CastValue(CastString(render, obj["name"]))
      && m.version == CastValue(CastField(render, obj, "version"))
      && m.description == CastValue(CastString(render, obj["description"]))
      && m.authors.Some? && |m.authors.value| == |obj["authors"].items|
      && (forall j | 0 <= j < |obj["authors"].items| ::
            m.authors.value[j] == CastValue(CastString(render, obj["authors"].items[j])))
      && m.contact == ParseDict(obj, "contact", render)
      && m.icon == (if "icon" in obj then CastValue(CastString(render, obj["icon"])) else prev.icon)
      && m.environment == CastValue(CastString(render, obj["environment"]))
      && m.depends == (if "depends" in obj then ParseDict(obj, "depends", render) else prev.depends)
      && m.breaks == (if "breaks" in obj then ParseDict(obj, "breaks", render) else prev.breaks)
  {
    var items := obj["authors"].items;
    assert FirstUnconvertible(items) == |items|;
    assert items[..|items|] == items;
  }

  /** An `authors` value that is not an array (JSON null included) always
      ends in an exception; when nothing before it failed, the exception is
      the authors cast and `Authors` is left as a new empty list. */
  lemma NonArrayAuthorsFail(prev: Meta, obj: JsonObject, render: Json -> string)
    requires "authors" in obj && !obj["authors"].JArray?
    ensures Load(prev, obj, render).failure.Some?
    ensures Validate(obj).None? && LoadScalars(prev, obj, render).failure.None? ==>
      && Load(prev, obj, render).failure == Some(CastFailed("authors"))
      && Load(prev, obj, render).meta.authors == Some([])
  {
    LoadSucceedsIff(prev, obj, render);
  }

  /** The value of `contact` never decides whether reading fails. */
  lemma ContactNeverFails(prev: Meta, obj: JsonObject, render: Json -> string, v: Json)
    requires "contact" in obj
    ensures Load(prev, obj["contact" := v], render).failure.None? <==> Load(prev, obj, render).failure.None?
  {
    LoadSucceedsIff(prev, obj, render);
    LoadSucceedsIff(prev, obj["contact" := v], render);
    assert WellTyped(obj["contact" := v]) <==> WellTyped(obj);
  }

  /** A present `contact` that is not an object gives a null `Contact`
      and the read still succeeds. */
  lemma NonObjectContactIsNull(prev: Meta, obj: JsonObject, render: Json -> string)
    requires WellTyped(obj) && !obj["contact"].JObject?
    ensures Load(prev, obj, render).failure.None?
    ensures Load(prev, obj, render).meta.contact.None?
  {
    LoadedFields(prev, obj, render);
  }

  /** On a freshly constructed record the optional fields are set only by
      their keys: `icon` and `version` only when present, and each of the
      three dictionaries exactly when its key holds an object. */
  lemma FreshRecordOptionalFields(obj: JsonObject, render: Json -> string)
    requires Load(Unset, obj, render).failure.None?
    ensures var m := Load(Unset, obj, render).meta;
      && (m.icon.Some? ==> "icon" in obj)
      && (m.version.Some? ==> "version" in obj)
      && (m.contact.Some? <==> obj["contact"].JObject?)
      && (m.depends.Some? <==> "depends" in obj && obj["depends"].JObject?)
      && (m.breaks.Some? <==> "breaks" in obj && obj["breaks"].JObject?)
  {
    LoadSucceedsIff(Unset, obj, render);
    LoadedFields(Unset, obj, render);
  }

  /** Reading the same manifest into the same record a second time changes
      nothing and ends the same way, on success and on failure alike. */
  lemma LoadIdempotent(prev: Meta, obj: JsonObject, render: Json -> string)
    ensures Load(Load(prev, obj, render).meta, obj, render) == Load(prev, obj, render)
  {
    if Validate(obj).None? {
      var s := LoadScalars(prev, obj, render);
      var s2 := LoadScalars(Load(prev, obj, render).meta, obj, render);
      if s.failure.None? {
        var a := LoadAuthors(s.meta, obj["authors"], render);
        if a.failure.None? {
          assert Load(prev, obj, render) == LoadRest(a.meta, obj, render);
        }
      }
    }
  }

  /** An archive without the manifest entry is reported as such, before any
      parsing, and leaves the record untouched. */
  lemma MissingEntryIsNotFound(prev: Meta, modPath: string, archive: Option<map<string, string>>,
                               parse: string -> Option<JsonObject>, render: Json -> string)
    requires modPath != "" && archive.Some? && ManifestEntry !in archive.value
    ensures Run(prev, modPath, archive, parse, render) == Loaded(prev, Some(ManifestNotFound))
  {
  }

  /** The token a C# string field is written as: null or a JSON string. */
  function TextToken(s: Option<string>): (t: Json)
    ensures Convertible(t)
  {
    if s.None? then JNull else JString(s.value)
  }

  /** A dictionary written as an object of JSON strings. */
  function DictToken(d: Dict): (t: Json)
    ensures t.JObject? && t.props.Keys == d.Keys
  {
    JObject(map k | k in d :: JString(d[k]))
  }

  /** The manifest a record is written back as: the required fields always
      (null where the record has null), `version`, `icon`, `depends` and
      `breaks` only when set. */
  function ToJson(m: Meta): (obj: JsonObject)
    requires m.authors.Some?
    ensures "authors" in obj && obj["authors"].JArray? && |obj["authors"].items| == |m.authors.value|
  {
    var a := m.authors.value;
    var required := map[
      "schemaVersion" := TextToken(m.schemaVersion),
      "name" := TextToken(m.name),
      "description" := TextToken(m.description),
      "authors" := JArray(seq(|a|, i requires 0 <= i < |a| => TextToken(a[i]))),
      "contact" := if m.contact.Some? then DictToken(m.contact.value) else JNull,
      "environment" := TextToken(m.environment)];
    var withVersion := if m.version.Some? then required["version" := TextToken(m.version)] else required;
    var withIcon := if m.icon.Some? then withVersion["icon" := TextToken(m.icon)] else withVersion;
    var withDepends := if m.depends.Some? then withIcon["depends" := DictToken(m.depends.value)] else withIcon;
    if m.breaks.Some? then withDepends["breaks" := DictToken(m.breaks.value)] else withDepends
  }

  /** Where each field of a record is in the manifest it is written as. */
  lemma ToJsonFields(m: Meta)
    requires m.authors.Some?
    ensures var obj := ToJson(m);
      && "schemaVersion" in obj && "name" in obj && "description" in obj
      && "authors" in obj && "contact" in obj && "environment" in obj
      && ("version" in obj <==> m.version.Some?)
      && ("icon" in obj <==> m.icon.Some?)
      && ("depends" in obj <==> m.depends.Some?)
      && ("breaks" in obj <==> m.breaks.Some?)
      && obj["schemaVersion"] == TextToken(m.schemaVersion)
      && obj["name"] == TextToken(m.name)
      && obj["description"] == TextToken(m.description)
      && (forall j | 0 <= j < |m.authors.value| :: obj["authors"].items[j] == TextToken(m.authors.value[j]))
      && obj["contact"] == (if m.contact.Some? then DictToken(m.contact.value) else JNull)
      && obj["environment"] == TextToken(m.environment)
      && (m.version.Some? ==> obj["version"] == TextToken(m.version))
      && (m.icon.Some? ==> obj["icon"] == TextToken(m.icon))
      && (m.depends.Some? ==> obj["depends"] == DictToken(m.depends.value))
      && (m.breaks.Some? ==> obj["breaks"] == DictToken(m.breaks.value))
  {
  }

  /** The manifest a record is written as is well typed. */
  lemma ToJsonWellTyped(m: Meta)
    requires m.authors.Some?
    ensures WellTyped(ToJson(m))
  {
    ToJsonFields(m);
    var items := ToJson(m)["authors"].items;
    assert forall j | 0 <= j < |items| :: items[j] == TextToken(m.authors.value[j]);
  }

  /** Reading back restores the string fields. */
  lemma RoundTripText(m: Meta, render: Json -> string)
    requires m.authors.Some?
    ensures Load(Unset, ToJson(m), render).failure.None?
    ensures var r := Load(Unset, ToJson(m), render).meta;
      && r.schemaVersion == m.schemaVersion && r.name == m.name && r.version == m.version
      && r.description == m.description && r.icon == m.icon && r.environment == m.environment
  {
    ToJsonFields(m);
    ToJsonWellTyped(m);
    LoadedFields(Unset, ToJson(m), render);
  }

  /** Reading back restores the authors list. */
  lemma RoundTripAuthors(m: Meta, render: Json -> string)
    requires m.authors.Some?
    ensures Load(Unset, ToJson(m), render).meta.authors == m.authors
  {
    ToJsonFields(m);
    ToJsonWellTyped(m);
    LoadedFields(Unset, ToJson(m), render);
    assert Load(Unset, ToJson(m), render).meta.authors.value == m.authors.value;
  }

  /** Reading back restores the three dictionaries. */
  lemma RoundTripDicts(m: Meta, render: Json -> string)
    requires m.authors.Some?
    ensures var r := Load(Unset, ToJson(m), render).meta;
      r.contact == m.contact && r.depends == m.depends && r.breaks == m.breaks
  {
    var obj := ToJson(m);
    ToJsonFields(m);
    ToJsonWellTyped(m);
    LoadedFields(Unset, obj, render);
    DictRoundTrip(obj, "contact", m.contact, render);
    DictRoundTrip(obj, "depends", m.depends, render);
    DictRoundTrip(obj, "breaks", m.breaks, render);
  }

  /** Writing a record back as a manifest and reading it into a fresh
      record gives the same record, field for field. */
  lemma RoundTrip(m: Meta, render: Json -> string)
    requires m.authors.Some?
    ensures Load(Unset, ToJson(m), render) == Loaded(m, None)
  {
    RoundTripText(m, render);
    RoundTripAuthors(m, render);
    RoundTripDicts(m, render);
  }

  /** Every record a successful read produces has its `Authors` set, so the
      round trip above covers it. */
  lemma SuccessfulReadSetsAuthors(prev: Meta, obj: JsonObject, render: Json -> string)
    requires Load(prev, obj, render).failure.None?
    ensures Load(prev, obj, render).meta.authors.Some?
    ensures Load(Unset, ToJson(Load(prev, obj, render).meta), render) == Loaded(Load(prev, obj, render).meta, None)
  {
    LoadSucceedsIff(prev, obj, render);
    LoadedFields(prev, obj, render);
    RoundTrip(Load(prev, obj, render).meta, render);
  }

  /** A dictionary written as an object of strings is read back by `ParseDict`. */
  lemma DictRoundTrip(obj: JsonObject, key: string, d: Option<Dict>, render: Json -> string)
    requires d.Some? ==> key in obj && obj[key] == DictToken(d.value)
    requires d.None? && key in obj ==> obj[key] == JNull
    ensures key in obj ==> ParseDict(obj, key, render) == d
  {
    if d.Some? {
      var r := ParseDict(obj, key, render).value;
      assert r.Keys == d.value.Keys;
      forall k | k in r ensures r[k] == d.value[k] {
      }
      assert r == d.value;
    }
  }
}
