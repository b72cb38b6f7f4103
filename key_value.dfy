/** The line-oriented `key=value` reader `Parser.Properties`: a dictionary
    filled from text, first occurrence of a key winning, plus its accessors.
    Splitting the text into lines (`StringReader.ReadLine`) is a library
    call and enters as the parameter `splitLines`. */
module KeyValue {
  import opened Wrappers

  /** The exceptions the reader's code can throw. */
  datatype Fault =
    | NullDictionary        // `_data` is still null: no text was ever read
    | SubstringOutOfRange   // a value that is a single quote character

  /** `char.IsWhiteSpace`: the Unicode white-space characters, which
      `string.Trim()` removes. */
  predicate IsWhiteSpace(c: char) {
    var n := c as int;
    || (0x09 <= n <= 0x0D) || n == 0x20 || n == 0x85 || n == 0xA0 || n == 0x1680
    || (0x2000 <= n <= 0x200A) || n == 0x2028 || n == 0x2029 || n == 0x202F
    || n == 0x205F || n == 0x3000
  }

  /** The number of white-space characters `s` starts with. */
  function LeadingWhiteSpace(s: string): (n: nat)
    ensures n <= |s|
    ensures forall k | 0 <= k < n :: IsWhiteSpace(s[k])
    ensures n < |s| ==> !IsWhiteSpace(s[n])
  {
    if s == [] || !IsWhiteSpace(s[0]) then 0 else 1 + LeadingWhiteSpace(s[1..])
  }

  /** The number of white-space characters `s` ends with. */
  function TrailingWhiteSpace(s: string): (n: nat)
    ensures n <= |s|
    ensures forall k | |s| - n <= k < |s| :: IsWhiteSpace(s[k])
    ensures n < |s| ==> !IsWhiteSpace(s[|s| - n - 1])
  {
    if s == [] || !IsWhiteSpace(s[|s| - 1]) then 0 else 1 + TrailingWhiteSpace(s[..|s| - 1])
  }

  /** `string.Trim()`: `s` without its leading and trailing white space. */
  function Trim(s: string): (r: string)
    ensures |r| <= |s|
    ensures r == [] || (!IsWhiteSpace(r[0]) && !IsWhiteSpace(r[|r| - 1]))
  {
    var lead := LeadingWhiteSpace(s);
    if lead == |s| then []
    else
      var trail := TrailingWhiteSpace(s);
      s[lead..|s| - trail]
  }

  /** `Trim` removes white space only, and only at the two ends: the result
      is a slice of `s` with nothing but white space around it. */
  lemma TrimIsSlice(s: string)
    ensures exists i, j | 0 <= i <= j <= |s| ::
      && Trim(s) == s[i..j]
      && (forall k | 0 <= k < i :: IsWhiteSpace(s[k]))
      && (forall k | j <= k < |s| :: IsWhiteSpace(s[k]))
  {
    var lead := LeadingWhiteSpace(s);
    if lead == |s| {
      assert Trim(s) == s[|s|..|s|];
    } else {
      var trail := TrailingWhiteSpace(s);
      assert Trim(s) == s[lead..|s| - trail];
    }
  }

  /** `s.StartsWith(p)` and `s.EndsWith(p)`, compared character by character. */
  predicate StartsWith(s: string, p: string) {
    |p| <= |s| && s[..|p|] == p
  }

  predicate EndsWith(s: string, p: string) {
    |p| <= |s| && s[|s| - |p|..] == p
  }

  /** `ShouldParse`: a line is read only when it is not empty, is not a
      comment (first character `;`, `#` or `'`) and contains `=`. */
  function ShouldParse(line: string): (r: bool)
    ensures r <==> |line| > 0 && line[0] != ';' && line[0] != '#' && line[0] != '\'' && '=' in line
  {
    if line == "" || StartsWith(line, ";") || StartsWith(line, "#") || StartsWith(line, "'") then false
    else '=' in line
  }

  /** `line.IndexOf(c)` for a character the line contains: its first position. */
  function IndexOf(line: string, c: char): (i: nat)
    requires c in line
    ensures i < |line| && line[i] == c
    ensures forall k | 0 <= k < i :: line[k] != c
  {
    if line[0] == c then 0 else 1 + IndexOf(line[1..], c)
  }

  /** The key of a line that is read: the trimmed text before its first `=`. */
  function KeyOf(line: string): (key: string)
    requires ShouldParse(line)
  {
    Trim(line[..IndexOf(line, '=')])
  }

  /** The value text of a line that is read: the trimmed text after its first `=`. */
  function ValueText(line: string): (value: string)
    requires ShouldParse(line)
  {
    Trim(line[IndexOf(line, '=') + 1..])
  }

  /** Whether the value starts and ends with `"`, or starts and ends with `'`. */
  predicate IsQuoted(value: string) {
    (StartsWith(value, "\"") && EndsWith(value, "\"")) || (StartsWith(value, "'") && EndsWith(value, "'"))
  }

  /** A value that is one quote character: it counts as quoted, and
      `Substring(1, -1)` then throws. */
  predicate IsLoneQuote(value: string) {
    value == "\"" || value == "'"
  }

  /** The stored form of a value: a quoted value loses its first and last
      character, any other value is kept; `None` where `Substring` throws. */
  function StripQuotes(value: string): (r: Option<string>)
    ensures r.None? <==> IsLoneQuote(value)
    ensures r.Some? && IsQuoted(value) ==> |value| >= 2 && r.value == value[1..|value| - 1]
    ensures !IsQuoted(value) ==> r == Some(value)
  {
    if IsQuoted(value) then
      if |value| < 2 then None else Some(value[1..|value| - 1])
    else Some(value)
  }

  /** What the loop makes of one line: skipped, or read as a key and the
      stored form of its value (`None` where stripping the quotes throws). */
  datatype Line = Skipped | Entry(key: string, stored: Option<string>)

  /** The line as the loop reads it. */
  function Classify(line: string): (c: Line)
    ensures c.Skipped? <==> !ShouldParse(line)
    ensures c.Entry? ==> c.key == KeyOf(line) && c.stored == StripQuotes(ValueText(line))
  {
    if ShouldParse(line) then Entry(KeyOf(line), StripQuotes(ValueText(line))) else Skipped
  }

  /** Every line of the text, classified. */
  function Classified(lines: seq<string>): (cs: seq<Line>)
    ensures |cs| == |lines|
    ensures forall i | 0 <= i < |lines| :: cs[i] == Classify(lines[i])
  {
    seq(|lines|, i requires 0 <= i < |lines| => Classify(lines[i]))
  }

  /** One line of the loop applied to the dictionary `m`; `None` where the
      line throws. A line whose key is already present changes nothing. */
  function Absorb(m: map<string, string>, c: Line): Option<map<string, string>>
  {
    match c
    case Skipped => Some(m)
    case Entry(key, stored) =>
      if key in m then Some(m)
      else match stored
        case None => None
        case Some(v) => Some(m[key := v])
  }

  /** The dictionary after the loop, and whether it ran to the end. */
  datatype Scanned = Scanned(entries: map<string, string>, ok: bool)

  /** The loop over the classified lines, starting from an empty dictionary
      and stopping at the first line that throws. */
  function Scan(cs: seq<Line>): Scanned
    decreases |cs|
  {
    if cs == [] then Scanned(map[], true)
    else
      var s := Scan(cs[..|cs| - 1]);
      if !s.ok then s
      else match Absorb(s.entries, cs[|cs| - 1])
        case None => Scanned(s.entries, false)
        case Some(m) => Scanned(m, true)
  }

  /** One more line of the loop, as `Scan` takes it. */
  lemma ScanStep(cs: seq<Line>, i: nat)
    requires i < |cs| && Scan(cs[..i]).ok
    ensures Scan(cs[..i + 1]) == match Absorb(Scan(cs[..i]).entries, cs[i])
      case None => Scanned(Scan(cs[..i]).entries, false)
      case Some(m) => Scanned(m, true)
  {
    assert cs[..i + 1][..i] == cs[..i];
  }

  /** One pass of the loop body, in the code's own steps, is `Absorb` of
      the classified line. */
  lemma LineStep(m: map<string, string>, line: string)
    ensures !ShouldParse(line) ==> Absorb(m, Classify(line)) == Some(m)
    ensures ShouldParse(line) ==>
      var index := IndexOf(line, '=');
      var key := Trim(line[..index]);
      var value := Trim(line[index + 1..]);
      && (key in m ==> Absorb(m, Classify(line)) == Some(m))
      && (key !in m && IsQuoted(value) && |value| < 2 ==> Absorb(m, Classify(line)) == None)
      && (key !in m && IsQuoted(value) && |value| >= 2 ==>
            Absorb(m, Classify(line)) == Some(m[key := value[1..|value| - 1]]))
      && (key !in m && !IsQuoted(value) ==> Absorb(m, Classify(line)) == Some(m[key := value]))
  {
    if ShouldParse(line) {
      var index := IndexOf(line, '=');
      var key := Trim(line[..index]);
      var value := Trim(line[index + 1..]);
      assert Classify(line) == Entry(key, StripQuotes(value));
    }
  }

  /** Once a line has thrown, the lines after it are never read. */
  lemma {:induction false} ScanFailureSticks(cs: seq<Line>, i: nat)
    requires i <= |cs| && !Scan(cs[..i]).ok
    ensures Scan(cs) == Scan(cs[..i])
    decreases |cs| - i
  {
    if i == |cs| {
      assert cs[..i] == cs;
    } else {
      assert cs[..i + 1][..i] == cs[..i];
      ScanFailureSticks(cs, i + 1);
    }
  }

  /** Looking a key up in a dictionary; `None` is null. */
  function Lookup(m: map<string, string>, field: string): (r: Option<string>)
    ensures r.Some? <==> field in m
    ensures r.Some? ==> r.value == m[field]
  {
    if field in m then Some(m[field]) else None
  }

  /** A `Properties` object. `data` is the private dictionary `_data`,
      null (`None`) until text is read. */
  class Properties {
    var data: Option<map<string, string>>

    constructor ()
      ensures data.None?
    {
      data := None;
    }

    /** `Get(field)`: the stored value, or null when the key is absent. */
    function Get(field: string): (r: Result<Option<string>, Fault>)
      reads this
      ensures data.None? ==> r == Err(NullDictionary)
      ensures data.Some? ==> r == Ok(Lookup(data.value, field))
    {
      match data
      case None => Err(NullDictionary)
      case Some(m) => Ok(Lookup(m, field))
    }

    /** `Get(field, defaultValue)`: the stored value, or the default when the
        key is absent. */
    function GetOr(field: string, defaultValue: string): (r: Result<string, Fault>)
      reads this
      ensures data.None? ==> r == Err(NullDictionary)
      ensures data.Some? && field in data.value ==> r == Ok(data.value[field])
      ensures data.Some? && field !in data.value ==> r == Ok(defaultValue)
    {
      match Get(field)
      case Err(e) => Err(e)
      case Ok(v) => if v.None? then Ok(defaultValue) else Ok(v.value)
    }

    /** `Set(field, value)`: inserts the key or overwrites its value.
        `value` is the string form of the object the caller passes. */
    method Set(field: string, value: string) returns (fault: Option<Fault>)
      modifies this
      ensures old(data).None? ==> fault == Some(NullDictionary) && data == old(data)
      ensures old(data).Some? ==> fault.None? && data == Some(old(data).value[field := value])
    {
      if data.None? {
        return Some(NullDictionary);
      }
      data := Some(data.value[field := value]);
      return None;
    }

    /** The body of `FromString`'s loop for one line: the dictionary after
        the line, or `true` where the line throws. */
    method ReadLine(line: string) returns (thrown: bool)
      requires data.Some?
      modifies this
      ensures data.Some?
      ensures Absorb(old(data).value, Classify(line)) == if thrown then None else Some(data.value)
      ensures thrown ==> data == old(data)
    {
      LineStep(data.value, line);
      thrown := false;
      if ShouldParse(line) {
        var index := IndexOf(line, '=');
        var key := Trim(line[..index]);
        if key !in data.value {
          var value := Trim(line[index + 1..]);
          if IsQuoted(value) {
            if |value| < 2 {
              return true;
            }
            value := value[1..|value| - 1];
          }
          data := Some(data.value[key := value]);
        }
      }
    }

    /** `FromString(propData)`: null or empty text returns null and leaves the
        dictionary alone; otherwise the dictionary is replaced by a new one,
        filled line by line, and the object is returned. A line that throws
        leaves the lines before it in the new dictionary. */
    method FromString(propData: Option<string>, splitLines: string -> seq<string>)
      returns (r: Result<Option<Properties>, Fault>)
      modifies this
      ensures propData.None? || propData.value == "" ==> r == Ok(None) && data == old(data)
      ensures propData.Some? && propData.value != "" ==>
        var s := Scan(Classified(splitLines(propData.value)));
        && data == Some(s.entries)
        && (s.ok ==> r == Ok(Some(this)))
        && (!s.ok ==> r == Err(SubstringOutOfRange))
    {
      if propData.None? || propData.value == "" {
        return Ok(None);
      }
      data := Some(map[]);
      var lines := splitLines(propData.value);
      ghost var cs := Classified(lines);
      var i := 0;
      while i < |lines|
        invariant 0 <= i <= |lines|
        invariant data.Some? && Scan(cs[..i]) == Scanned(data.value, true)
      {
        ScanStep(cs, i);
        assert cs[i] == Classify(lines[i]);
        var thrown := ReadLine(lines[i]);
        if thrown {
          ScanFailureSticks(cs, i + 1);
          return Err(SubstringOutOfRange);
        }
        i := i + 1;
      }
      assert cs[..|lines|] == cs;
      return Ok(Some(this));
    }
  }
}
