# ModLib parser model

A Dafny model of `Parser.cs` in ModLib, a small library for reading Fabric
Minecraft mod files. Two parts are modelled, and they are independent.

**The manifest reader.** `ModMeta.FromModFile` opens a mod archive and
takes its `fabric.mod.json` entry. It parses the entry with Newtonsoft's
`JObject.Parse` and checks that six keys are present, in a fixed order:
`schemaVersion`, `name`, `description`, `authors`, `contact` and
`environment`. It then assigns the object's fields one by one:

- the string fields through the `(string)` conversion;
- `authors` through a loop that appends each converted array element;
- `contact`, `depends` and `breaks` through `ParseDict`, which turns a JSON
  object into a string-to-string dictionary.

`version`, `icon`, `depends` and `breaks` are optional.

**The key-value reader.** `Properties.FromString` reads `key=value` text
line by line into a private dictionary. It skips comment lines and lines
without `=`, splits a line at its first `=`, and trims both sides. It strips
one pair of matching quotes from the value, and the first line with a key
wins. `Get`, `Get(field, default)` and `Set` read and write that dictionary.

Modules:

- `Wrappers`: the `Option` and `Result` datatypes.
- `Json`: the parsed JSON tree. It also states which tokens `(string)`
  accepts and what text it gives.
- `Manifest`:
  - `ExtractFabricJson`, validation, `ParseDict`;
  - the staged specification `Load`/`Run` of what `FromModFile` does to a
    record;
  - the `ModMeta` class, whose methods are proved against that specification.
- `ManifestProperties`: what reading a manifest guarantees. This includes
  the validation order, exactly when reading succeeds, the value of every
  field, the rules for optional fields, idempotence, and a write-then-read
  round trip.
- `KeyValue`: line classification (`ShouldParse`, `Trim`, `StripQuotes`),
  the loop's specification `Scan`, and the `Properties` class with its
  `while` loop over the lines.
- `KeyValueProperties`: which lines become entries, that the first
  occurrence wins, exactly when reading throws, a worked example, and
  `Set`/`Get`.

Behaviour of the code a reader may not expect, which the model follows:

- **A JSON `null` in a required field.** It passes validation, because
  only key presence is checked. The field then becomes null, so required
  fields can be null after a successful read.
- **An exception does not roll back assignments.** `FromModFile` assigns
  into `this`. When a conversion throws, the fields assigned before it keep
  their new values; the model records this partial record exactly.
- **Absent `icon`, `depends` or `breaks`.** The field is not assigned, so it
  keeps its value from an earlier call on the same object. On a fresh object
  it stays null.
- **Null or empty text in `FromString`.** It returns null and leaves the
  old dictionary in place. It does not give an empty store.
- **A lone quote character as a value.** A value such as `"` or `'` counts
  as quoted. `Substring(1, -1)` then throws, leaving the lines already read
  in the new dictionary. On a line whose key is already present, the value
  is never looked at, so no exception is thrown.

Library behaviour enters the model as parameters:

- `archive` is the opened archive (`None` when it cannot be opened);
- `parse` is `JObject.Parse` (`None` where it throws);
- `render` is the library's text form of a non-string token;
- `splitLines` is the splitting done by `StringReader.ReadLine`.

## Model

| member | source | states |
|---|---|---|
| Manifest.ExtractFabricJson | Parser.cs:18-30 | Each of the three failures occurs exactly when its condition holds: an empty path, an archive that cannot be opened, a missing `fabric.mod.json` entry. The result is the entry's text exactly when none of them holds. |
| Manifest.ReadManifest | Parser.cs:52-56 | Errors of the archive read pass through. Empty entry text gives `ManifestEmpty`. Non-empty text the parser refuses gives `MalformedJson`, and nothing else does. The result is an object exactly when the text is non-empty and parses, and it is what the parser gives. |
| Manifest.Validate | Parser.cs:57-63 | No key is reported exactly when all six required keys are present. A reported key is absent, and every key checked before it is present. |
| Manifest.ParseDict | Parser.cs:91-102 | Null exactly when the named value is missing or not an object. Otherwise the keys are exactly the object's property names, and each value is the text of that property's token. |
| Manifest.FirstUnconvertible | Parser.cs:77 | The number of leading author tokens the loop converts before it throws: all tokens before it convert, and the token at it does not. |
| Manifest.Converted | Parser.cs:74-77 | One converted string per token, in the same order. |
| Manifest.ModMeta.constructor | Parser.cs:32-48 | A new record has every field null. |
| Manifest.ModMeta.FromModFile | Parser.cs:50-88 | The new fields are the staged specification `Run` applied to the old fields. Success is exactly when `Run` reports no exception, and then the result is `this`. Otherwise the result is the exception `Run` reports. |
| Manifest.ModMeta.AssignScalars | Parser.cs:69-72 | The fields and exception after the four string assignments are `LoadScalars` of the old fields. |
| Manifest.ModMeta.AssignAuthors | Parser.cs:74-77 | The loop leaves exactly `LoadAuthors` of the old fields: `Authors` holds the converted prefix of the array, and there is an exception when the token is not an array or an element does not convert. |
| Manifest.ModMeta.AssignRest | Parser.cs:79-87 | The fields and exception after the remaining assignments are `LoadRest` of the old fields. |
| ManifestProperties.MissingFieldIffFirstAbsent | Parser.cs:57-63 | Reading ends with a missing-field error for `k` exactly when `k` is the first absent required key. In that case no field has changed. |
| ManifestProperties.OptionalKeysDoNotAffectValidation | Parser.cs:57-63 | Adding, changing or removing a key outside the required six never changes validation. |
| ManifestProperties.LoadSucceedsIff | Parser.cs:57-87 | Reading succeeds exactly on well-typed manifests: all required keys present, the cast fields scalar, and `authors` an array of scalars. This holds whatever the record held before. |
| ManifestProperties.LoadedFields | Parser.cs:69-87 | On a well-typed manifest: every string field is its token converted; `Authors` has the array's length and converted elements in order; the three dictionaries come from `ParseDict`; absent `icon`, `depends` and `breaks` keep their previous values. |
| ManifestProperties.NonArrayAuthorsFail | Parser.cs:74-77 | An `authors` value that is not an array, JSON null included, always makes reading throw. When nothing failed before it, the exception is the authors cast and `Authors` is a new empty list. |
| ManifestProperties.ContactNeverFails | Parser.cs:61-79 | Replacing the `contact` value by any token never changes whether reading succeeds. |
| ManifestProperties.NonObjectContactIsNull | Parser.cs:79-99 | A present `contact` that is not an object gives a null `Contact` on a successful read. |
| ManifestProperties.FreshRecordOptionalFields | Parser.cs:71-87 | On a new record after a successful read: `icon` and `version` are set only when their keys are present; each dictionary is set exactly when its key holds an object. |
| ManifestProperties.LoadIdempotent | Parser.cs:50-88 | Reading the same manifest into the record a second time gives the same fields and the same outcome. |
| ManifestProperties.MissingEntryIsNotFound | Parser.cs:23-24 | An archive without the manifest entry gives `ManifestNotFound` and leaves the record untouched. |
| ManifestProperties.ToJsonWellTyped | Parser.cs:57-87 | A record whose `Authors` is set, as on every record a successful read produces, is written back as a manifest the reader accepts. |
| ManifestProperties.RoundTripAuthors | Parser.cs:74-77 | Reading the written manifest back restores the authors list exactly. |
| ManifestProperties.RoundTrip | Parser.cs:50-102 | Take any record whose `Authors` is set, as on every record a successful read produces. Writing it back as a manifest and reading that into a new record gives the same record, with no exception. |
| ManifestProperties.SuccessfulReadSetsAuthors | Parser.cs:74-87 | After any successful read, `Authors` is set, and writing that record back and reading it again gives the same record. |
| ManifestProperties.DictRoundTrip | Parser.cs:96-99 | A dictionary written as an object of strings is read back unchanged by `ParseDict`. |
| Json.TokenText | Parser.cs:98 | `ToString()` of a string token is the string itself. Any other token gives the library's text for it. |
| Json.CastString | Parser.cs:69-82 | The `(string)` conversion throws exactly on arrays and objects. JSON null gives null, a string token gives its string, and a number or boolean gives the library's text for it. |
| Json.CastField | Parser.cs:69-82 | `(string)json[key]` gives null for a missing key. For a present key it is the conversion of that key's token. |
| KeyValue.Trim | Parser.cs:127-129 | The result is no longer than the input, and it neither starts nor ends with a .NET white-space character. |
| KeyValue.TrimIsSlice | Parser.cs:127-129 | `Trim` gives a slice of its input that has only white space outside it. |
| KeyValue.ShouldParse | Parser.cs:137-141 | True exactly when the line is non-empty, does not start with `;`, `#` or `'`, and contains `=`. |
| KeyValue.IndexOf | Parser.cs:126 | The index of the first `=`: it holds `=`, and no earlier character does. |
| KeyValue.StripQuotes | Parser.cs:130 | Throws exactly on a lone quote character. A quoted value loses exactly its first and last character; any other value is kept. |
| KeyValue.Classify | Parser.cs:125-130 | A line is skipped exactly when `ShouldParse` is false. Otherwise its key is the trimmed text before the first `=`, and its stored value is the trimmed text after it with quotes stripped. |
| KeyValue.ScanFailureSticks | Parser.cs:130 | Once a line throws, the lines after it change nothing. |
| KeyValue.Properties.constructor | Parser.cs:106 | A new object has a null dictionary. |
| KeyValue.Properties.Get | Parser.cs:108 | A null dictionary throws. Otherwise the result is the stored value, or null when the key is absent. |
| KeyValue.Properties.GetOr | Parser.cs:109 | A null dictionary throws. A present key gives its stored value; an absent key gives the default. |
| KeyValue.Properties.Set | Parser.cs:110-114 | A null dictionary throws and nothing changes. Otherwise the dictionary becomes the old one with the key set to the value. |
| KeyValue.Properties.ReadLine | Parser.cs:125-131 | One pass of the loop body changes the dictionary as `Absorb` of the classified line says. When the line throws, the dictionary is unchanged. |
| KeyValue.Properties.FromString | Parser.cs:116-135 | Null or empty text gives null and leaves the dictionary alone. Otherwise the dictionary becomes the result of `Scan` over the classified lines. The object is returned when no line throws, and the quote exception is thrown otherwise. |
| KeyValueProperties.EntryLines | Parser.cs:125-141 | A line becomes an entry exactly when it is non-empty, does not start with `;`, `#` or `'`, and contains `=`. The key is the trimmed text before the first `=`, and the value the trimmed text after it. |
| KeyValueProperties.ScanKeys | Parser.cs:123-132 | When no line throws, the dictionary holds exactly the keys of the lines that are read. |
| KeyValueProperties.ScanValues | Parser.cs:128-131 | When no line throws, each key holds the value of its first line, with quotes stripped: the first occurrence wins. |
| KeyValueProperties.ScanContents | Parser.cs:123-132 | The two facts above together. |
| KeyValueProperties.ScanOkIff | Parser.cs:128-130 | Reading throws exactly when the first line of some key has a lone quote as its value. |
| KeyValueProperties.SkippedLineChangesNothing | Parser.cs:125 | A skipped line leaves the result unchanged. |
| KeyValueProperties.DuplicateKeyChangesNothing | Parser.cs:128 | A line whose key is already present leaves the result unchanged, whatever its value. |
| KeyValueProperties.NewKeyAdded | Parser.cs:129-131 | A line with a new key adds exactly that key with its stored value, or throws when the value is a lone quote. |
| KeyValueProperties.SampleText | Parser.cs:116-135 | The text `# comment`, `key1 = "v1"`, `key1=v2`, `key2=3` reads as `{key1: "v1", key2: "3"}`, with no exception. |
| KeyValueProperties.GetAfterSet | Parser.cs:108-114 | After `Set(k, v)` on a filled dictionary, `Get(k)` and `Get(k, d)` give `v`, and every other key gives what it gave before. |
| KeyValueProperties.GetOrIsGetWithDefault | Parser.cs:108-109 | `Get(k, d)` throws exactly when `Get(k)` does. It gives `d` where `Get(k)` gives null, and the stored value otherwise. |

## Left out

- Zip archive access is file I/O. `ZipFile.OpenRead` and the entry stream
  are replaced by a value of the archive's entries (`None` when it cannot
  be opened); disposal is not modelled.
- `JObject.Parse` is third-party syntax parsing, so it is a parameter
  `parse`. Duplicate JSON keys and other parser options are outside the model.
- The text form of non-string tokens is the uninterpreted parameter
  `render`. `(string)` uses the invariant culture and `JToken.ToString()`
  the current culture; both are taken as one function. Number tokens are
  `real` values, so the library's integer/float distinction and its other
  token kinds (dates, raw values, bytes) are not modelled.
- `StringReader.ReadLine` splitting at CR, LF and CRLF is library
  behaviour, so the text enters as the parameter `splitLines`.
- `StartsWith` and `EndsWith` with a string argument are culture-sensitive
  in .NET. That covers `StartsWith(";")`, `StartsWith("#")` and
  `StartsWith("'")` at Parser.cs:139, and the `StartsWith` and `EndsWith`
  calls on `"` and `'` at Parser.cs:130. All of them are modelled as ordinal
  comparison, and `Trim` uses the .NET white-space characters.
- The commented-out dynamic validation at Parser.cs:65-67 is dead code.
- The null check at Parser.cs:76 cannot fire: validation has already
  required the key, and a JSON `null` token is not an array, so the cast at
  line 75 throws first. The model reports that throw as `CastFailed("authors")`.
- `BadJsonException` and the .NET exception types are the `Error` and
  `Fault` datatypes, keyed by what went wrong; message texts are not modelled.
- KeyValue.Properties.Set: its `object` value is taken already converted
  to its string form; a null value, whose `ToString()` would throw, is not
  modelled.
- Null strings are modelled only where the code tests for them: the text
  given to `FromString` is an `Option`. Elsewhere, C# strings are Dafny
  strings, which cannot be null. So a null `modPath` is not modelled: the
  `IsNullOrEmpty` test at Parser.cs:20 is modelled for the empty path only.
  Null keys given to `Get` or `Set` are not modelled either.
