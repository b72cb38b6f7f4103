/** What reading `key=value` text guarantees: which lines become entries,
    that the first occurrence of a key wins, exactly when reading throws,
    and how `Set` and `Get` relate. */
module KeyValueProperties {
  import opened Wrappers
  import opened KeyValue

  /** Line `i` is read and has key `key`. */
  predicate Defines(cs: seq<Line>, i: int, key: string) {
    0 <= i < |cs| && cs[i].Entry? && cs[i].key == key
  }

  /** Line `i` is read and no earlier line is read with the same key. */
  predicate FirstDefinition(cs: seq<Line>, i: int) {
    && 0 <= i < |cs| && cs[i].Entry?
    && forall j | 0 <= j < i :: !Defines(cs, j, cs[i].key)
  }

  /** The lines that become entries: exactly those that are not empty, do
      not start with `;`, `#` or `'`, and contain `=`; the key is the trimmed
      text before the first `=`, the value the trimmed text after it. */
  lemma EntryLines(line: string)
    ensures Classify(line).Entry? <==>
      |line| > 0 && line[0] != ';' && line[0] != '#' && line[0] != '\'' && '=' in line
    ensures Classify(line).Entry? ==>
      var i := IndexOf(line, '=');
      && (forall k | 0 <= k < i :: line[k] != '=')
      && Classify(line).key == Trim(line[..i])
      && Classify(line).stored == StripQuotes(Trim(line[i + 1..]))
  {
  }

  /** The lines of a prefix define what they define in the whole. */
  lemma PrefixDefinitions(cs: seq<Line>, n: nat)
    requires n <= |cs|
    ensures forall i, k :: Defines(cs[..n], i, k) <==> i < n && Defines(cs, i, k)
    ensures forall i | 0 <= i < n :: FirstDefinition(cs[..n], i) <==> FirstDefinition(cs, i)
  {
  }

  /** The last line of a text that does not throw: the lines before it do
      not throw either, and it adds its key only when the key is new. */
  lemma LastLine(cs: seq<Line>)
    requires cs != [] && Scan(cs).ok
    ensures Scan(cs[..|cs| - 1]).ok
    ensures
      var n := |cs| - 1;
      var e := Scan(cs[..n]).entries;
      Scan(cs).entries ==
        if cs[n].Entry? && cs[n].key !in e then e[cs[n].key := cs[n].stored.value] else e
    ensures cs[|cs| - 1].Entry? && cs[|cs| - 1].key !in Scan(cs[..|cs| - 1]).entries ==>
      cs[|cs| - 1].stored.Some?
  {
  }

  /** When no line throws, the dictionary holds exactly the keys of the lines
      that are read. */
  lemma {:induction false} ScanKeys(cs: seq<Line>)
    requires Scan(cs).ok
    ensures forall k :: k in Scan(cs).entries <==> exists i :: Defines(cs, i, k)
    decreases |cs|
  {
    if cs != [] {
      var n := |cs| - 1;
      var init := cs[..n];
      LastLine(cs);
      ScanKeys(init);
      PrefixDefinitions(cs, n);
      var e := Scan(init).entries;
      var out := Scan(cs).entries;
      forall k ensures k in out <==> exists i :: Defines(cs, i, k) {
        if k in e {
          var i :| Defines(init, i, k);
          assert Defines(cs, i, k);
        } else if k in out {
          assert Defines(cs, n, k);
        } else {
          assert forall i :: !Defines(init, i, k);
          assert !Defines(cs, n, k);
        }
      }
    }
  }

  /** When no line throws, each key holds the value of its first line, with
      its quotes stripped. */
  lemma {:induction false} ScanValues(cs: seq<Line>)
    requires Scan(cs).ok
    ensures forall i | FirstDefinition(cs, i) ::
      && cs[i].key in Scan(cs).entries
      && cs[i].stored == Some(Scan(cs).entries[cs[i].key])
    decreases |cs|
  {
    if cs != [] {
      var n := |cs| - 1;
      var init := cs[..n];
      LastLine(cs);
      ScanValues(init);
      ScanKeys(init);
      PrefixDefinitions(cs, n);
      var e := Scan(init).entries;
      var out := Scan(cs).entries;
      forall i | FirstDefinition(cs, i)
        ensures cs[i].key in out && cs[i].stored == Some(out[cs[i].key])
      {
        var key := cs[i].key;
        if i < n {
          assert FirstDefinition(init, i) && init[i] == cs[i];
          assert key in e && cs[i].stored == Some(e[key]);
          assert out[key] == e[key];
        } else {
          assert !exists j :: Defines(init, j, key);
          assert key !in e;
          assert out == e[key := cs[n].stored.value];
        }
      }
    }
  }

  /** When no line throws, the dictionary holds exactly the keys of the lines
      that are read, and each key holds the value of its first line, with its
      quotes stripped. */
  lemma ScanContents(cs: seq<Line>)
    requires Scan(cs).ok
    ensures forall k :: k in Scan(cs).entries <==> exists i :: Defines(cs, i, k)
    ensures forall i | FirstDefinition(cs, i) ::
      && cs[i].key in Scan(cs).entries
      && cs[i].stored == Some(Scan(cs).entries[cs[i].key])
  {
    ScanKeys(cs);
    ScanValues(cs);
  }

  /** Reading throws exactly when some key's first line has a value that is
      a single quote character; a lone quote on a later line of a key that is
      already present is skipped like any other duplicate. */
  lemma {:induction false} ScanOkIff(cs: seq<Line>)
    ensures Scan(cs).ok <==> forall i | FirstDefinition(cs, i) :: cs[i].stored.Some?
    decreases |cs|
  {
    if cs != [] {
      var n := |cs| - 1;
      var init := cs[..n];
      ScanOkIff(init);
      PrefixDefinitions(cs, n);
      if Scan(init).ok {
        ScanContents(init);
        var e := Scan(init).entries;
        assert FirstDefinition(cs, n) <==> cs[n].Entry? && cs[n].key !in e by {
          if cs[n].Entry? {
            assert (forall j :: !Defines(init, j, cs[n].key)) <==> cs[n].key !in e;
          }
        }
        assert Scan(cs).ok <==> !(FirstDefinition(cs, n) && cs[n].stored.None?);
        assert (forall i | FirstDefinition(cs, i) :: cs[i].stored.Some?) <==>
          (forall i | FirstDefinition(init, i) :: init[i].stored.Some?)
          && (FirstDefinition(cs, n) ==> cs[n].stored.Some?);
      } else {
        var i :| FirstDefinition(init, i) && init[i].stored.None?;
        assert FirstDefinition(cs, i);
      }
    }
  }

  /** A line the reader skips changes nothing. */
  lemma SkippedLineChangesNothing(cs: seq<Line>)
    ensures Scan(cs + [Skipped]) == Scan(cs)
  {
    assert (cs + [Skipped])[..|cs|] == cs;
  }

  /** A later line with a key that is already present changes nothing: the
      first occurrence wins. */
  lemma DuplicateKeyChangesNothing(cs: seq<Line>, stored: Option<string>, i: nat, key: string)
    requires Scan(cs).ok && Defines(cs, i, key)
    ensures Scan(cs + [Entry(key, stored)]) == Scan(cs)
  {
    ScanContents(cs);
    assert (cs + [Entry(key, stored)])[..|cs|] == cs;
  }

  /** A line with a new key adds exactly that key with its value's stored
      form, or throws when the value is a lone quote. */
  lemma NewKeyAdded(cs: seq<Line>, key: string, stored: Option<string>)
    requires Scan(cs).ok
    requires forall i :: !Defines(cs, i, key)
    ensures stored.Some? ==> Scan(cs + [Entry(key, stored)]) == Scanned(Scan(cs).entries[key := stored.value], true)
    ensures stored.None? ==> Scan(cs + [Entry(key, stored)]) == Scanned(Scan(cs).entries, false)
  {
    ScanContents(cs);
    assert (cs + [Entry(key, stored)])[..|cs|] == cs;
  }

  /** Text with white space only before `i` and from `j` on, and none at
      either end of `s[i..j]`, trims to `s[i..j]`. */
  lemma TrimOf(s: string, i: nat, j: nat)
    requires i < j <= |s|
    requires forall k | 0 <= k < i :: IsWhiteSpace(s[k])
    requires forall k | j <= k < |s| :: IsWhiteSpace(s[k])
    requires !IsWhiteSpace(s[i]) && !IsWhiteSpace(s[j - 1])
    ensures Trim(s) == s[i..j]
  {
    assert LeadingWhiteSpace(s) == i;
    assert TrailingWhiteSpace(s) == |s| - j;
  }

  /** The key half of the worked example's quoted line: `key ` trims to `key`. */
  lemma SampleQuotedKey(key: string)
    requires |key| == 4
    requires forall c | c in key :: c != '=' && !IsWhiteSpace(c)
    ensures Trim(key + " ") == key
  {
    var before := key + " ";
    assert before[0] == key[0] && key[0] in key;
    assert before[3] == key[3] && key[3] in key;
    TrimOf(before, 0, 4);
    assert before[0..4] == key;
  }

  /** The value half of the worked example's quoted line: ` "v"` trims to
      `"v"`, which loses its quotes. */
  lemma SampleQuotedValue(v: string)
    ensures Trim(" \"" + v + "\"") == "\"" + v + "\""
    ensures StripQuotes("\"" + v + "\"") == Some(v)
  {
    var after := " \"" + v + "\"";
    var quoted := "\"" + v + "\"";
    TrimOf(after, 1, |after|);
    assert after[1..|after|] == quoted;
    assert quoted[..1] == "\"" && quoted[|quoted| - 1..] == "\"";
    assert IsQuoted(quoted);
    assert quoted[1..|quoted| - 1] == v;
  }

  /** A `key = "value"` line of the worked example: spaces around `=` and a
      quoted value. */
  lemma SampleQuotedLine(line: string, key: string, v: string)
    requires |key| == 4 && line == key + " = \"" + v + "\""
    requires forall c | c in key :: c != '=' && !IsWhiteSpace(c)
    requires key[0] != ';' && key[0] != '#' && key[0] != '\''
    ensures Classify(line) == Entry(key, Some(v))
  {
    assert line[5] == '=';
    assert line[0] == key[0];
    assert ShouldParse(line);
    assert IndexOf(line, '=') == 5 by {
      forall k | 0 <= k < 5 ensures line[k] != '=' { if k < 4 { assert line[k] == key[k] && key[k] in key; } }
    }
    assert line[..5] == key + " " && line[6..] == " \"" + v + "\"";
    SampleQuotedKey(key);
    SampleQuotedValue(v);
  }

  /** A plain `key=value` line of the worked example. */
  lemma SamplePlainLine(line: string, key: string, value: string)
    requires |key| == 4 && |value| > 0 && line == key + "=" + value
    requires forall c | c in key :: c != '=' && !IsWhiteSpace(c)
    requires !IsWhiteSpace(value[0]) && !IsWhiteSpace(value[|value| - 1])
    requires value[0] != '"' && value[0] != '\'' && key[0] != ';' && key[0] != '#' && key[0] != '\''
    ensures Classify(line) == Entry(key, Some(value))
  {
    assert line[4] == '=';
    assert ShouldParse(line);
    assert IndexOf(line, '=') == 4 by {
      forall k | 0 <= k < 4 ensures line[k] != '=' { assert line[k] == key[k] && key[k] in key; }
    }
    assert line[..4] == key && line[5..] == value;
    assert LeadingWhiteSpace(key) == 0 && TrailingWhiteSpace(key) == 0;
    assert key[0..|key|] == key;
    assert LeadingWhiteSpace(value) == 0 && TrailingWhiteSpace(value) == 0;
    assert value[0..|value|] == value;
    assert !StartsWith(value, "\"") && !StartsWith(value, "'") by {
      assert value[..1] != "\"" && value[..1] != "'" by { assert value[..1][0] == value[0]; }
    }
  }

  lemma SampleCommentLine()
    ensures Classify("# comment") == Skipped
  {
  }

  lemma SampleFirstLine()
    ensures Classify("key1 = \"v1\"") == Entry("key1", Some("v1"))
  {
    SampleQuotedLine("key1 = \"v1\"", "key1", "v1");
  }

  lemma SampleDuplicateLine()
    ensures Classify("key1=v2") == Entry("key1", Some("v2"))
  {
    SamplePlainLine("key1=v2", "key1", "v2");
  }

  lemma SampleLastLine()
    ensures Classify("key2=3") == Entry("key2", Some("3"))
  {
    SamplePlainLine("key2=3", "key2", "3");
  }

  /** The loop over the worked example's classified lines. */
  lemma SampleScan(cs: seq<Line>, k1: string, k2: string, v1: string, v2: string, v3: string)
    requires k1 != k2
    requires cs == [Skipped, Entry(k1, Some(v1)), Entry(k1, Some(v2)), Entry(k2, Some(v3))]
    ensures Scan(cs) == Scanned(map[k1 := v1, k2 := v3], true)
  {
    assert cs[..0] == [];
    ScanStep(cs, 0);
    ScanStep(cs, 1);
    ScanStep(cs, 2);
    ScanStep(cs, 3);
    assert cs[..4] == cs;
  }

  /** Four lines, classified one by one. */
  lemma ClassifiedFour(lines: seq<string>, a: string, b: string, c: string, d: string)
    requires lines == [a, b, c, d]
    ensures Classified(lines) == [Classify(a), Classify(b), Classify(c), Classify(d)]
  {
  }

  /** The worked example: a comment, a quoted value with spaces around `=`,
      a duplicate key whose second value is ignored, and a plain value. */
  lemma SampleText(lines: seq<string>)
    requires lines == ["# comment", "key1 = \"v1\"", "key1=v2", "key2=3"]
    ensures Scan(Classified(lines)) == Scanned(map["key1" := "v1", "key2" := "3"], true)
  {
    ClassifiedFour(lines, "# comment", "key1 = \"v1\"", "key1=v2", "key2=3");
    SampleCommentLine();
    SampleFirstLine();
    SampleDuplicateLine();
    SampleLastLine();
    SampleScan(Classified(lines), "key1", "key2", "v1", "v2", "3");
  }

  /** After `Set(k, v)` on a filled object (its dictionary becomes
      `m[k := v]`), `Get(k)` gives `v`, every other key gives what it gave
      before, and `Get(k, d)` ignores the default. */
  lemma GetAfterSet(p: Properties, m: map<string, string>, k: string, v: string, other: string, d: string)
    requires p.data == Some(m[k := v])
    ensures p.Get(k) == Ok(Some(v)) && p.GetOr(k, d) == Ok(v)
    ensures other != k ==> p.Get(other) == Ok(Lookup(m, other))
  {
  }

  /** `Get(k, d)` is `Get(k)` with the default put in for a missing key. */
  lemma GetOrIsGetWithDefault(p: Properties, k: string, d: string)
    ensures p.Get(k).Err? <==> p.GetOr(k, d).Err?
    ensures p.Get(k) == Ok(None) ==> p.GetOr(k, d) == Ok(d)
    ensures p.Get(k).Ok? && p.Get(k).value.Some? ==> p.GetOr(k, d) == Ok(p.Get(k).value.value)
  {
  }
}
