/** Desktop entries: the mutable DesktopEntry record, its rendering as a `[Desktop Entry]`
    file, the key lookup that reads one back, and the factory that turns an application's
    entry into its sandboxed launcher entry. File reads become text parameters and file
    writes become the path and text a method returns. */
module Desktop {
  import opened Wrappers
  import opened Text

  const EXPORT_DIRECTORY := "/var/lib/pharaoh/export/"

  /** The file a desktop entry named `entryName` is read from and written to. */
  function EntryPath(entryName: string): string
  {
    EXPORT_DIRECTORY + "/applications/" + entryName
  }

  /** Python's truth value of an optional string: None and "" are false. */
  predicate Truthy(v: Option<string>)
  {
    v.Some? && v.value != ""
  }

  /** How an f-string formats an optional string. */
  function Show(v: Option<string>): string
  {
    if v.Some? then v.value else "None"
  }

  /** The text fields of an entry; every one may be None. */
  datatype EntryFields = EntryFields(
    name: Option<string>,
    exec: Option<string>,
    entryType: Option<string>,
    icon: Option<string>,
    terminal: Option<string>,
    genericName: Option<string>,
    startNotify: Option<string>,
    wmClass: Option<string>,
    mimeType: Option<string>,
    categories: Option<string>,
    actions: Option<string>,
    keywords: Option<string>,
    comment: Option<string>)

  const NO_FIELDS := EntryFields(None, None, None, None, None, None, None, None, None, None, None, None, None)

  const HEADER := "[Desktop Entry]"

  /** The rendered keys, in the order they are written. */
  const KEYS: seq<string> := ["Name", "Exec", "Type", "Icon", "Terminal", "GenericName",
    "StartupNotify", "StartupWMClass", "MimeType", "Categories", "Actions", "Keywords"]

  const NO_DISPLAY_LINE := "NoDisplay=true"

  /** The values rendered under KEYS, position by position (the comment is not among them). */
  function Values(f: EntryFields): (vs: seq<Option<string>>)
    ensures |vs| == |KEYS|
  {
    [f.name, f.exec, f.entryType, f.icon, f.terminal, f.genericName, f.startNotify,
     f.wmClass, f.mimeType, f.categories, f.actions, f.keywords]
  }

  /** The `key=value` line for a value, if the value is truthy. */
  function LineFor(key: string, v: Option<string>): seq<string>
  {
    if Truthy(v) then [key + "=" + v.value] else []
  }

  /** The `key=value` lines of the truthy values, in key order. */
  function EntryLines(keys: seq<string>, vals: seq<Option<string>>): seq<string>
    requires |keys| == |vals|
  {
    if keys == [] then [] else LineFor(keys[0], vals[0]) + EntryLines(keys[1..], vals[1..])
  }

  /** Each line followed by a newline. */
  function Terminated(lines: seq<string>): string
  {
    if lines == [] then "" else lines[0] + "\n" + Terminated(lines[1..])
  }

  /** The text of a desktop entry file: the header line, one line per truthy field in key
      order, and `NoDisplay=true` (without a newline) at the end when the entry is hidden. */
  function Rendered(f: EntryFields, noDisplay: bool): string
  {
    Terminated([HEADER] + EntryLines(KEYS, Values(f))) + (if noDisplay then NO_DISPLAY_LINE else "")
  }

  lemma {:induction false} TerminatedAppend(a: seq<string>, b: seq<string>)
    ensures Terminated(a + b) == Terminated(a) + Terminated(b)
  {
    if a != [] {
      TerminatedAppend(a[1..], b);
      assert (a + b)[0] == a[0] && (a + b)[1..] == a[1..] + b;
    } else {
      assert a + b == b;
    }
  }

  lemma {:induction false} EntryLinesSnoc(keys: seq<string>, vals: seq<Option<string>>, j: nat)
    requires j < |keys| == |vals|
    ensures EntryLines(keys[..j + 1], vals[..j + 1]) == EntryLines(keys[..j], vals[..j]) + LineFor(keys[j], vals[j])
  {
    if j > 0 {
      EntryLinesSnoc(keys[1..], vals[1..], j - 1);
      assert keys[..j + 1][1..] == keys[1..][..j];
      assert vals[..j + 1][1..] == vals[1..][..j];
      assert keys[..j][1..] == keys[1..][..j - 1];
      assert vals[..j][1..] == vals[1..][..j - 1];
    }
  }

  /** The text of the line for one value: `key=value` and a newline, or nothing. */
  function FieldLine(key: string, v: Option<string>): string
  {
    if Truthy(v) then key + "=" + v.value + "\n" else ""
  }

  /** The header line followed by the lines of the first j keys, one key at a time. */
  function RenderedPrefix(keys: seq<string>, vals: seq<Option<string>>, j: nat): string
    requires j <= |keys| == |vals|
  {
    if j == 0 then HEADER + "\n" else RenderedPrefix(keys, vals, j - 1) + FieldLine(keys[j - 1], vals[j - 1])
  }

  /** Adding the j-th key to the written keys appends that key's line to the text. */
  lemma FieldLinesStep(keys: seq<string>, vals: seq<Option<string>>, j: nat)
    requires 0 < j <= |keys| == |vals|
    ensures Terminated([HEADER] + EntryLines(keys[..j], vals[..j]))
         == Terminated([HEADER] + EntryLines(keys[..j - 1], vals[..j - 1])) + FieldLine(keys[j - 1], vals[j - 1])
  {
    EntryLinesSnoc(keys, vals, j - 1);
    var before := [HEADER] + EntryLines(keys[..j - 1], vals[..j - 1]);
    var line := LineFor(keys[j - 1], vals[j - 1]);
    assert [HEADER] + EntryLines(keys[..j], vals[..j]) == before + line;
    TerminatedAppend(before, line);
    assert Terminated(line) == FieldLine(keys[j - 1], vals[j - 1]) by {
      if line != [] { assert line[1..] == []; }
    }
  }

  /** With no keys written yet, the text is the header line alone. */
  lemma HeaderOnly(keys: seq<string>, vals: seq<Option<string>>)
    requires |keys| == |vals|
    ensures Terminated([HEADER] + EntryLines(keys[..0], vals[..0])) == HEADER + "\n"
  {
    assert keys[..0] == [] && vals[..0] == [];
    assert [HEADER] + EntryLines([], []) == [HEADER];
    assert Terminated([HEADER]) == HEADER + "\n" by { assert [HEADER][1..] == []; }
  }

  /** Writing the keys one at a time gives the header and the entry lines of those keys. */
  lemma {:induction false} RenderedPrefixLines(keys: seq<string>, vals: seq<Option<string>>, j: nat)
    requires j <= |keys| == |vals|
    ensures RenderedPrefix(keys, vals, j) == Terminated([HEADER] + EntryLines(keys[..j], vals[..j]))
  {
    if j == 0 {
      HeaderOnly(keys, vals);
    } else {
      RenderedPrefixLines(keys, vals, j - 1);
      FieldLinesStep(keys, vals, j);
    }
  }

  /** Twelve steps of `RenderedPrefix`, written out. */
  lemma RenderedPrefixTwelve(keys: seq<string>, vals: seq<Option<string>>)
    requires |keys| == |vals| == 12
    ensures RenderedPrefix(keys, vals, 12)
         == HEADER + "\n" + FieldLine(keys[0], vals[0]) + FieldLine(keys[1], vals[1])
            + FieldLine(keys[2], vals[2]) + FieldLine(keys[3], vals[3]) + FieldLine(keys[4], vals[4])
            + FieldLine(keys[5], vals[5]) + FieldLine(keys[6], vals[6]) + FieldLine(keys[7], vals[7])
            + FieldLine(keys[8], vals[8]) + FieldLine(keys[9], vals[9]) + FieldLine(keys[10], vals[10])
            + FieldLine(keys[11], vals[11])
  {
    assert RenderedPrefix(keys, vals, 1) == RenderedPrefix(keys, vals, 0) + FieldLine(keys[0], vals[0]);
    assert RenderedPrefix(keys, vals, 2) == RenderedPrefix(keys, vals, 1) + FieldLine(keys[1], vals[1]);
    assert RenderedPrefix(keys, vals, 3) == RenderedPrefix(keys, vals, 2) + FieldLine(keys[2], vals[2]);
    assert RenderedPrefix(keys, vals, 4) == RenderedPrefix(keys, vals, 3) + FieldLine(keys[3], vals[3]);
    assert RenderedPrefix(keys, vals, 5) == RenderedPrefix(keys, vals, 4) + FieldLine(keys[4], vals[4]);
    assert RenderedPrefix(keys, vals, 6) == RenderedPrefix(keys, vals, 5) + FieldLine(keys[5], vals[5]);
    assert RenderedPrefix(keys, vals, 7) == RenderedPrefix(keys, vals, 6) + FieldLine(keys[6], vals[6]);
    assert RenderedPrefix(keys, vals, 8) == RenderedPrefix(keys, vals, 7) + FieldLine(keys[7], vals[7]);
    assert RenderedPrefix(keys, vals, 9) == RenderedPrefix(keys, vals, 8) + FieldLine(keys[8], vals[8]);
    assert RenderedPrefix(keys, vals, 10) == RenderedPrefix(keys, vals, 9) + FieldLine(keys[9], vals[9]);
    assert RenderedPrefix(keys, vals, 11) == RenderedPrefix(keys, vals, 10) + FieldLine(keys[10], vals[10]);
    assert RenderedPrefix(keys, vals, 12) == RenderedPrefix(keys, vals, 11) + FieldLine(keys[11], vals[11]);
  }

  lemma HeaderLine()
    ensures HEADER + "\n" == "[Desktop Entry]\n"
  {
  }

  /** The header and field lines as `create_entry` builds them: the header, then one
      conditional append per key, in key order. */
  lemma FieldTextByAppends(f: EntryFields)
    ensures Terminated([HEADER] + EntryLines(KEYS, Values(f)))
         == "[Desktop Entry]\n" + FieldLine("Name", f.name) + FieldLine("Exec", f.exec)
            + FieldLine("Type", f.entryType) + FieldLine("Icon", f.icon) + FieldLine("Terminal", f.terminal)
            + FieldLine("GenericName", f.genericName) + FieldLine("StartupNotify", f.startNotify)
            + FieldLine("StartupWMClass", f.wmClass) + FieldLine("MimeType", f.mimeType)
            + FieldLine("Categories", f.categories) + FieldLine("Actions", f.actions)
            + FieldLine("Keywords", f.keywords)
  {
    var vals := Values(f);
    RenderedPrefixTwelve(KEYS, vals);
    RenderedPrefixLines(KEYS, vals, 12);
    HeaderLine();
    assert KEYS[..12] == KEYS && vals[..12] == vals;
  }

  /** Python's `s[:n]`. */
  function Take(s: string, n: nat): string
  {
    if n <= |s| then s[..n] else s
  }

  /** One step of the source's lookup loop: when `line` starts with `key=`, the text after
      it up to the next `key=` and the next newline. */
  function LineValue(line: string, key: string): Option<string>
  {
    var tag := key + "=";
    if Take(line, |tag|) == tag then
      assert Find(line, tag) == Some(0);
      Some(Split(Split(line, tag)[1], "\n")[0])
    else None
  }

  /** The value from the first of `lines` that starts with `key=`. */
  function FirstValue(lines: seq<string>, key: string): Option<string>
  {
    if lines == [] then None
    else if LineValue(lines[0], key).Some? then LineValue(lines[0], key)
    else FirstValue(lines[1..], key)
  }

  /** What iterating over a Python string yields: its characters, as one-character strings. */
  function Chars(data: string): (r: seq<string>)
    ensures |r| == |data|
    ensures forall i :: 0 <= i < |data| ==> r[i] == [data[i]]
  {
    seq(|data|, i requires 0 <= i < |data| => [data[i]])
  }

  /** The key lookup of `from_desktop_entry` as the source writes it: the loop runs over the
      characters of the file text, not over its lines. */
  method GetKeyValue(data: string, key: string) returns (r: Option<string>)
    ensures r == FirstValue(Chars(data), key)
  {
    var i := 0;
    while i < |data|
      invariant 0 <= i <= |data|
      invariant FirstValue(Chars(data), key) == FirstValue(Chars(data)[i..], key)
    {
      var line := [data[i]];
      var tag := key + "=";
      assert Chars(data)[i..][0] == line && Chars(data)[i..][1..] == Chars(data)[i + 1..];
      if Take(line, |tag|) == tag {
        var result := Split(line, tag);
        return Some(Split(result[1], "\n")[0]);
      }
      i := i + 1;
    }
    return None;
  }

  /** A character-by-character lookup never finds a non-empty key: a one-character string
      cannot start with `key=`. Only the empty key matches, on any '=' in the text. */
  lemma {:induction false} CharwiseLookup(data: string, key: string)
    ensures FirstValue(Chars(data), key) == (if key == "" && '=' in data then Some("") else None)
    decreases |data|
  {
    if data != [] {
      var line := [data[0]];
      assert Chars(data)[0] == line && Chars(data)[1..] == Chars(data[1..]);
      CharwiseLookup(data[1..], key);
      if key == "" && data[0] == '=' {
        assert Split(line, "=") == ["", ""] by {
          assert Find(line, "=") == Some(0);
          assert line[1..] == "";
          assert Find("", "=") == None;
        }
        assert Find("", "\n") == None;
        assert LineValue(line, key) == Some("");
      } else {
        var tag := key + "=";
        assert Take(line, |tag|) == line by {
          if |tag| == 1 { assert line[..1] == line; }
        }
        assert line != tag by {
          if key == "" { assert tag[0] == '=' && line[0] != '='; } else { assert |tag| > |line|; }
        }
        assert LineValue(line, key) == None;
      }
      assert '=' in data <==> data[0] == '=' || '=' in data[1..];
    }
  }

  /** The lookup the source evidently intends: over the lines of the text. */
  function KeyValueByLine(data: string, key: string): Option<string>
  {
    FirstValue(Split(data, "\n"), key)
  }

  lemma SplitAfterNewline(a: string, b: string)
    requires '\n' !in a
    ensures Split(a + "\n" + b, "\n") == [a] + Split(b, "\n")
  {
    var s := a + "\n" + b;
    assert OccursAt(s, "\n", |a|) by { assert s[|a|..|a| + 1] == "\n"; }
    forall j | 0 <= j < |a| ensures !OccursAt(s, "\n", j) {
      assert s[j..j + 1] == [a[j]];
    }
    FindFirst(s, "\n");
    assert Find(s, "\n") == Some(|a|);
    assert s[..|a|] == a && s[|a| + 1..] == b;
  }

  lemma NoNewlineSplit(s: string)
    requires '\n' !in s
    ensures Split(s, "\n") == [s]
  {
    forall i | 0 <= i < |s| ensures !OccursAt(s, "\n", i) {
      assert s[i..i + 1] == [s[i]];
    }
    assert Find(s, "\n") == None;
  }

  /** Splitting newline-terminated lines on newlines gives the lines back. */
  lemma {:induction false} SplitTerminated(lines: seq<string>, tail: string)
    requires forall k :: 0 <= k < |lines| ==> '\n' !in lines[k]
    requires '\n' !in tail
    ensures Split(Terminated(lines) + tail, "\n") == lines + [tail]
  {
    if lines == [] {
      NoNewlineSplit(tail);
      assert Terminated(lines) + tail == tail && lines + [tail] == [tail];
    } else {
      SplitTerminated(lines[1..], tail);
      assert Terminated(lines) + tail == lines[0] + "\n" + (Terminated(lines[1..]) + tail);
      SplitAfterNewline(lines[0], Terminated(lines[1..]) + tail);
      assert lines == [lines[0]] + lines[1..];
    }
  }

  /** A line can only match `key` if it starts with `key=`. */
  lemma LineValueNeedsTag(line: string, key: string)
    ensures LineValue(line, key).Some? ==> key + "=" <= line
  {
    var tag := key + "=";
    if Take(line, |tag|) == tag {
      assert |tag| <= |line|;
      assert line[..|tag|] == tag;
    }
  }

  /** A line without '=' holds no value for any key. */
  lemma NoTagNoValue(line: string, key: string)
    requires '=' !in line
    ensures LineValue(line, key) == None
  {
    LineValueNeedsTag(line, key);
    assert (key + "=")[|key|] == '=';
  }

  /** Of two '='-free keys, `b=` starts `a=...` only when a == b. */
  lemma TagMismatch(a: string, b: string, v: string)
    requires '=' !in a && '=' !in b && a != b
    ensures !(b + "=" <= a + "=" + v)
  {
    var line := a + "=" + v;
    if |b| < |a| {
      assert line[|b|] == a[|b|];
    } else if |b| > |a| {
      assert line[|a|] == '=' && (b + "=")[|a|] == b[|a|];
    } else {
      assert line[..|b|] == a;
    }
  }

  /** The rendered keys are distinct, hold no '=' and do not start the NoDisplay line. */
  lemma KeysWellFormed()
    ensures forall i :: 0 <= i < |KEYS| ==> '=' !in KEYS[i] && !(KEYS[i] + "=" <= NO_DISPLAY_LINE)
    ensures forall i, j :: 0 <= i < j < |KEYS| ==> KEYS[i] != KEYS[j]
  {
    forall i | 0 <= i < |KEYS| ensures '=' !in KEYS[i] && !(KEYS[i] + "=" <= NO_DISPLAY_LINE) {
      assert KEYS[i][1] != 'o' && (KEYS[i] + "=")[1] == KEYS[i][1];
    }
    forall i, j | 0 <= i < j < |KEYS| ensures KEYS[i] != KEYS[j] {
      assert KEYS[i][0] != KEYS[j][0] || |KEYS[i]| != |KEYS[j]|;
    }
  }

  /** Looking up key k in the lines of a list of distinct, '='-free keys finds value k when
      it is truthy and otherwise falls through to what follows. */
  lemma {:induction false} LookupEntryLines(keys: seq<string>, vals: seq<Option<string>>, rest: seq<string>, k: nat)
    requires k < |keys| == |vals|
    requires forall i :: 0 <= i < |keys| ==> '=' !in keys[i]
    requires forall i, j :: 0 <= i < j < |keys| ==> keys[i] != keys[j]
    requires vals[k].Some? ==> '\n' !in vals[k].value && !Contains(vals[k].value, keys[k] + "=")
    ensures FirstValue(EntryLines(keys, vals) + rest, keys[k])
         == if Truthy(vals[k]) then vals[k] else FirstValue(rest, keys[k])
  {
    var lines := EntryLines(keys, vals) + rest;
    var tail := EntryLines(keys[1..], vals[1..]) + rest;
    var tag := keys[k] + "=";
    if k == 0 {
      if Truthy(vals[0]) {
        var line := keys[0] + "=" + vals[0].value;
        assert lines[0] == line;
        assert Take(line, |tag|) == tag;
        assert Find(line, tag) == Some(0);
        assert line[|tag|..] == vals[0].value;
        assert Split(vals[0].value, tag) == [vals[0].value];
        assert Split(line, tag) == [""] + Split(vals[0].value, tag);
        NoNewlineSplit(vals[0].value);
        assert LineValue(line, keys[0]) == vals[0];
      } else {
        assert lines == tail;
        LookupAbsent(keys[1..], vals[1..], rest, keys[0]);
      }
    } else {
      if Truthy(vals[0]) {
        var line := keys[0] + "=" + vals[0].value;
        TagMismatch(keys[0], keys[k], vals[0].value);
        LineValueNeedsTag(line, keys[k]);
        assert lines[0] == line && lines[1..] == tail;
      } else {
        assert lines == tail;
      }
      LookupEntryLines(keys[1..], vals[1..], rest, k - 1);
    }
  }

  /** A line that holds no value for `key` is passed over. */
  lemma FirstValueSkip(line: string, lines: seq<string>, key: string)
    requires LineValue(line, key) == None
    ensures FirstValue([line] + lines, key) == FirstValue(lines, key)
  {
    assert ([line] + lines)[0] == line && ([line] + lines)[1..] == lines;
  }

  /** A key that is not among the keys is not found in their lines. */
  lemma {:induction false} LookupAbsent(keys: seq<string>, vals: seq<Option<string>>, rest: seq<string>, key: string)
    requires |keys| == |vals|
    requires forall i :: 0 <= i < |keys| ==> '=' !in keys[i] && keys[i] != key
    requires '=' !in key
    ensures FirstValue(EntryLines(keys, vals) + rest, key) == FirstValue(rest, key)
  {
    if keys != [] {
      var tail := EntryLines(keys[1..], vals[1..]) + rest;
      LookupAbsent(keys[1..], vals[1..], rest, key);
      assert EntryLines(keys, vals) + rest == LineFor(keys[0], vals[0]) + tail;
      if Truthy(vals[0]) {
        var line := keys[0] + "=" + vals[0].value;
        TagMismatch(keys[0], key, vals[0].value);
        LineValueNeedsTag(line, key);
        FirstValueSkip(line, tail, key);
      } else {
        assert LineFor(keys[0], vals[0]) + tail == tail;
      }
    } else {
      assert EntryLines(keys, vals) + rest == rest;
    }
  }

  /** The lines of a rendered entry: the header, the field lines, and the last line. */
  lemma SplitRendered(f: EntryFields, noDisplay: bool)
    requires forall j :: 0 <= j < |KEYS| && Values(f)[j].Some? ==> '\n' !in Values(f)[j].value
    ensures Split(Rendered(f, noDisplay), "\n")
         == [HEADER] + (EntryLines(KEYS, Values(f)) + [if noDisplay then NO_DISPLAY_LINE else ""])
  {
    var lines := EntryLines(KEYS, Values(f));
    EntryLinesNoNewline(KEYS, Values(f));
    SplitTerminated([HEADER] + lines, if noDisplay then NO_DISPLAY_LINE else "");
  }

  /** Read-back: looking up any rendered key, line by line, in a rendered entry gives the
      field's value when it is truthy and None otherwise, provided no field spans lines and
      a value does not itself contain its own `key=`. */
  lemma RenderedReadsBackByLine(f: EntryFields, noDisplay: bool, k: nat)
    requires k < |KEYS|
    requires forall j :: 0 <= j < |KEYS| && Values(f)[j].Some? ==> '\n' !in Values(f)[j].value
    requires Values(f)[k].Some? ==> !Contains(Values(f)[k].value, KEYS[k] + "=")
    ensures KeyValueByLine(Rendered(f, noDisplay), KEYS[k]) == if Truthy(Values(f)[k]) then Values(f)[k] else None
  {
    var vals := Values(f);
    var tail := if noDisplay then NO_DISPLAY_LINE else "";
    SplitRendered(f, noDisplay);
    KeysWellFormed();
    NoTagNoValue(HEADER, KEYS[k]);
    assert FirstValue([HEADER] + (EntryLines(KEYS, vals) + [tail]), KEYS[k])
        == FirstValue(EntryLines(KEYS, vals) + [tail], KEYS[k]);
    LookupEntryLines(KEYS, vals, [tail], k);
    LineValueNeedsTag(tail, KEYS[k]);
    assert FirstValue([tail], KEYS[k]) == None;
  }

  lemma {:induction false} EntryLinesNoNewline(keys: seq<string>, vals: seq<Option<string>>)
    requires |keys| == |vals|
    requires forall j :: 0 <= j < |keys| ==> '\n' !in keys[j]
    requires forall j :: 0 <= j < |vals| && vals[j].Some? ==> '\n' !in vals[j].value
    ensures forall j :: 0 <= j < |EntryLines(keys, vals)| ==> '\n' !in EntryLines(keys, vals)[j]
  {
    if keys != [] {
      EntryLinesNoNewline(keys[1..], vals[1..]);
    }
  }

  /** The rendered text ends in `NoDisplay=true` exactly when the entry is hidden. */
  lemma NoDisplayLast(f: EntryFields, noDisplay: bool)
    ensures var r := Rendered(f, noDisplay);
      noDisplay <==> |r| >= |NO_DISPLAY_LINE| && r[|r| - |NO_DISPLAY_LINE|..] == NO_DISPLAY_LINE
  {
    var r := Rendered(f, noDisplay);
    var t := Terminated([HEADER] + EntryLines(KEYS, Values(f)));
    TerminatedEndsWithNewline([HEADER] + EntryLines(KEYS, Values(f)));
    if noDisplay {
      assert r == t + NO_DISPLAY_LINE;
      assert r[|t|..] == NO_DISPLAY_LINE;
    } else {
      assert r == t;
      assert |r| >= |NO_DISPLAY_LINE| ==> r[|r| - |NO_DISPLAY_LINE|..][|NO_DISPLAY_LINE| - 1] == '\n';
    }
  }

  lemma {:induction false} TerminatedEndsWithNewline(lines: seq<string>)
    requires lines != []
    ensures |Terminated(lines)| > 0 && Terminated(lines)[|Terminated(lines)| - 1] == '\n'
  {
    if lines[1..] != [] {
      TerminatedEndsWithNewline(lines[1..]);
    }
  }

  /** The comment is never rendered. */
  lemma CommentNotRendered(f: EntryFields, noDisplay: bool, comment: Option<string>)
    ensures Rendered(f.(comment := comment), noDisplay) == Rendered(f, noDisplay)
  {
  }

  /** The corrected reader applied to every field that `from_desktop_entry` asks for. */
  function FieldsByLine(data: string): (f: EntryFields)
    ensures forall k :: 0 <= k < |KEYS| ==> Values(f)[k] == KeyValueByLine(data, KEYS[k])
    ensures f.comment == KeyValueByLine(data, "Comment")
  {
    EntryFields(KeyValueByLine(data, KEYS[0]), KeyValueByLine(data, KEYS[1]), KeyValueByLine(data, KEYS[2]),
                KeyValueByLine(data, KEYS[3]), KeyValueByLine(data, KEYS[4]), KeyValueByLine(data, KEYS[5]),
                KeyValueByLine(data, KEYS[6]), KeyValueByLine(data, KEYS[7]), KeyValueByLine(data, KEYS[8]),
                KeyValueByLine(data, KEYS[9]), KeyValueByLine(data, KEYS[10]), KeyValueByLine(data, KEYS[11]),
                KeyValueByLine(data, "Comment"))
  }

  /** Python truthiness as `create_entry` applies it: a falsy value is not written. */
  function Normalized(v: Option<string>): (r: Option<string>)
    ensures r == v || r == None
    ensures r.Some? <==> Truthy(v)
  {
    if Truthy(v) then v else None
  }

  /** The comment is never found in a rendered entry. */
  lemma RenderedHasNoComment(f: EntryFields, noDisplay: bool)
    requires forall j :: 0 <= j < |KEYS| && Values(f)[j].Some? ==> '\n' !in Values(f)[j].value
    ensures KeyValueByLine(Rendered(f, noDisplay), "Comment") == None
  {
    var vals := Values(f);
    var tail := if noDisplay then NO_DISPLAY_LINE else "";
    SplitRendered(f, noDisplay);
    KeysWellFormed();
    NoTagNoValue(HEADER, "Comment");
    FirstValueSkip(HEADER, EntryLines(KEYS, vals) + [tail], "Comment");
    CommentNotAKey();
    LookupAbsent(KEYS, vals, [tail], "Comment");
    TailHasNoComment(noDisplay);
  }

  /** The comment is not one of the rendered keys. */
  lemma CommentNotAKey()
    ensures forall i :: 0 <= i < |KEYS| ==> KEYS[i] != "Comment"
  {
    forall i | 0 <= i < |KEYS| ensures KEYS[i] != "Comment" {
      assert KEYS[i][0] != 'C' || |KEYS[i]| != 7;
    }
  }

  /** The closing line, empty or `NoDisplay=true`, holds no comment. */
  lemma TailHasNoComment(noDisplay: bool)
    ensures FirstValue([if noDisplay then NO_DISPLAY_LINE else ""], "Comment") == None
  {
    var tail := if noDisplay then NO_DISPLAY_LINE else "";
    LineValueNeedsTag(tail, "Comment");
    assert !("Comment=" <= tail) by {
      if noDisplay { assert tail[0] != 'C'; }
    }
    FirstValueSkip(tail, [], "Comment");
  }

  /** Round trip through the corrected reader: reading a rendered entry back gives every
      truthy field unchanged, None for every falsy one and for the comment. */
  lemma FieldsByLineRoundTrip(f: EntryFields, noDisplay: bool)
    requires forall j :: 0 <= j < |KEYS| && Values(f)[j].Some? ==>
      '\n' !in Values(f)[j].value && !Contains(Values(f)[j].value, KEYS[j] + "=")
    ensures FieldsByLine(Rendered(f, noDisplay))
         == EntryFields(Normalized(f.name), Normalized(f.exec), Normalized(f.entryType), Normalized(f.icon),
                        Normalized(f.terminal), Normalized(f.genericName), Normalized(f.startNotify),
                        Normalized(f.wmClass), Normalized(f.mimeType), Normalized(f.categories),
                        Normalized(f.actions), Normalized(f.keywords), None)
  {
    var g := FieldsByLine(Rendered(f, noDisplay));
    forall k | 0 <= k < |KEYS| ensures Values(g)[k] == Normalized(Values(f)[k]) {
      RenderedReadsBackByLine(f, noDisplay, k);
    }
    RenderedHasNoComment(f, noDisplay);
    assert Values(g)[0] == g.name && Values(g)[11] == g.keywords;
  }

  /** An application's desktop entry, updated in place by its setters. */
  class DesktopEntry {
    var filename: string
    var entry: string
    var name: Option<string>
    var exec: Option<string>
    var entryType: Option<string>
    var icon: Option<string>
    var terminal: Option<string>
    var genericName: Option<string>
    var startNotify: Option<string>
    var wmClass: Option<string>
    var mimeType: Option<string>
    var categories: Option<string>
    var actions: Option<string>
    var keywords: Option<string>
    var comment: Option<string>
    var noDisplay: bool
    var sandboxed: bool

    /** The current text fields. */
    function Fields(): EntryFields
      reads this
    {
      EntryFields(name, exec, entryType, icon, terminal, genericName, startNotify, wmClass,
                  mimeType, categories, actions, keywords, comment)
    }

    constructor (filename: string, name: Option<string>, exec: Option<string>, entryType: Option<string>,
                 icon: Option<string>, terminal: Option<string>, genericName: Option<string>,
                 startNotify: Option<string>, wmClass: Option<string>, mimeType: Option<string>,
                 categories: Option<string>, actions: Option<string>, keywords: Option<string>,
                 comment: Option<string>)
      ensures this.filename == filename && entry == Basename(filename)
      ensures Fields() == EntryFields(name, exec, entryType, icon, terminal, genericName, startNotify,
                                      wmClass, mimeType, categories, actions, keywords, comment)
      ensures !noDisplay && !sandboxed
    {
      this.filename := filename;
      this.entry := Basename(filename);
      this.name := name;
      this.entryType := entryType;
      this.exec := exec;
      this.icon := icon;
      this.terminal := terminal;
      this.genericName := genericName;
      this.startNotify := startNotify;
      this.wmClass := wmClass;
      this.mimeType := mimeType;
      this.categories := categories;
      this.actions := actions;
      this.keywords := keywords;
      this.comment := comment;
      this.noDisplay := false;
      this.sandboxed := false;
    }

    /** Prefixes the name with `Sandboxed-`; a missing name is formatted as `None`. */
    method SetSandboxName()
      modifies this
      ensures Fields() == old(Fields()).(name := Some("Sandboxed-" + Show(old(name))))
      ensures sandboxed
      ensures filename == old(filename) && entry == old(entry) && noDisplay == old(noDisplay)
    {
      name := Some("Sandboxed-" + Show(name));
      sandboxed := true;
    }

    method SetExec(command: string)
      modifies this
      ensures Fields() == old(Fields()).(exec := Some(command))
      ensures filename == old(filename) && entry == old(entry)
      ensures noDisplay == old(noDisplay) && sandboxed == old(sandboxed)
    {
      exec := Some(command);
    }

    method SetNoDisplay()
      modifies this
      ensures noDisplay
      ensures Fields() == old(Fields())
      ensures filename == old(filename) && entry == old(entry) && sandboxed == old(sandboxed)
    {
      noDisplay := true;
    }

    /** Appends `category;` to the categories; with no categories at all the source's `+=`
        raises a TypeError, reported here as `ok == false` with nothing changed. */
    method AddCategory(category: string) returns (ok: bool)
      modifies this
      ensures ok == old(categories).Some?
      ensures Fields() == if ok then old(Fields()).(categories := Some(old(categories).value + category + ";"))
                          else old(Fields())
      ensures filename == old(filename) && entry == old(entry)
      ensures noDisplay == old(noDisplay) && sandboxed == old(sandboxed)
    {
      if categories.None? {
        return false;
      }
      categories := Some(categories.value + category + ";");
      return true;
    }

    /** Renders the entry and returns the file it is written to with the text written. */
    method CreateEntry(entryName: string) returns (path: string, data: string)
      ensures path == EntryPath(entryName)
      ensures data == Rendered(Fields(), noDisplay)
    {
      data := "[Desktop Entry]\n";
      data := data + FieldLine("Name", name);
      data := data + FieldLine("Exec", exec);
      data := data + FieldLine("Type", entryType);
      data := data + FieldLine("Icon", icon);
      data := data + FieldLine("Terminal", terminal);
      data := data + FieldLine("GenericName", genericName);
      data := data + FieldLine("StartupNotify", startNotify);
      data := data + FieldLine("StartupWMClass", wmClass);
      data := data + FieldLine("MimeType", mimeType);
      data := data + FieldLine("Categories", categories);
      data := data + FieldLine("Actions", actions);
      data := data + FieldLine("Keywords", keywords);
      FieldTextByAppends(Fields());

      if noDisplay {
        data := data + "NoDisplay=true";
      } else {
        assert data + "" == data;
      }

      path := EntryPath(entryName);
    }

    /** Reads an entry from the text of the file `filename`, looking every key up with the
        source's character-by-character loop, so that every text field comes back None. */
    static method FromDesktopEntry(filename: string, data: string) returns (e: DesktopEntry)
      ensures fresh(e)
      ensures e.filename == filename && e.entry == Basename(filename)
      ensures e.Fields() == NO_FIELDS
      ensures !e.noDisplay && !e.sandboxed
    {
      var name := GetKeyValue(data, "Name");
      var exec := GetKeyValue(data, "Exec");
      var entryType := GetKeyValue(data, "Type");
      var icon := GetKeyValue(data, "Icon");
      var terminal := GetKeyValue(data, "Terminal");
      var comment := GetKeyValue(data, "Comment");
      var genericName := GetKeyValue(data, "GenericName");
      var startNotify := GetKeyValue(data, "StartupNotify");
      var wmClass := GetKeyValue(data, "StartupWMClass");
      var mimeType := GetKeyValue(data, "MimeType");
      var categories := GetKeyValue(data, "Categories");
      var actions := GetKeyValue(data, "Actions");
      var keywords := GetKeyValue(data, "Keywords");
      CharwiseLookup(data, "Name");
      CharwiseLookup(data, "Exec");
      CharwiseLookup(data, "Type");
      CharwiseLookup(data, "Icon");
      CharwiseLookup(data, "Terminal");
      CharwiseLookup(data, "Comment");
      CharwiseLookup(data, "GenericName");
      CharwiseLookup(data, "StartupNotify");
      CharwiseLookup(data, "StartupWMClass");
      CharwiseLookup(data, "MimeType");
      CharwiseLookup(data, "Categories");
      CharwiseLookup(data, "Actions");
      CharwiseLookup(data, "Keywords");
      e := new DesktopEntry(filename, name, exec, entryType, icon, terminal, genericName, startNotify,
                            wmClass, mimeType, categories, actions, keywords, comment);
    }
  }

  /** The sandboxed launcher entry: read the application's entry, point Exec at `script`,
      mark the name as sandboxed and write the entry back over the same file. */
  method SandboxedDesktopEntryFactory(package: string, entryName: string, script: string, fileText: string)
    returns (entry: DesktopEntry, path: string, data: string)
    ensures fresh(entry)
    ensures entry.filename == EntryPath(entryName) && path == EntryPath(entryName)
    ensures entry.Fields() == NO_FIELDS.(name := Some("Sandboxed-None"), exec := Some(script))
    ensures entry.sandboxed && !entry.noDisplay
    ensures data == Rendered(entry.Fields(), entry.noDisplay)
    ensures data == LauncherText(script)
  {
    entry := DesktopEntry.FromDesktopEntry(EntryPath(entryName), fileText);
    entry.SetExec(script);
    entry.SetSandboxName();
    assert "Sandboxed-" + Show(None) == "Sandboxed-None";
    path, data := entry.CreateEntry(entryName);
    SandboxedRendering(script);
  }

  /** When only the first two values can be truthy, only their lines are rendered. */
  lemma FirstTwoLines(keys: seq<string>, vals: seq<Option<string>>)
    requires 2 <= |keys| == |vals|
    requires forall j :: 2 <= j < |vals| ==> vals[j] == None
    ensures EntryLines(keys, vals) == LineFor(keys[0], vals[0]) + LineFor(keys[1], vals[1])
  {
    NoLinesForNone(keys[2..], vals[2..]);
    assert keys[1..][1..] == keys[2..] && vals[1..][1..] == vals[2..];
  }

  /** The text of a sandboxed launcher entry: the header, the `Sandboxed-None` name and,
      for a non-empty script, its Exec line. */
  function LauncherText(script: string): string
  {
    HEADER + "\n" + ("Name=Sandboxed-None" + "\n" + (if script != "" then "Exec=" + script + "\n" else ""))
  }

  /** The lines a launcher script leaves after the header. */
  function LauncherLines(script: string): seq<string>
  {
    ["Name=Sandboxed-None"] + (if script != "" then ["Exec=" + script] else [])
  }

  /** Only the name and, for a non-empty script, the Exec field of a launcher give lines. */
  lemma LauncherEntryLines(script: string)
    ensures EntryLines(KEYS, Values(NO_FIELDS.(name := Some("Sandboxed-None"), exec := Some(script))))
         == LauncherLines(script)
  {
    var vals := Values(NO_FIELDS.(name := Some("Sandboxed-None"), exec := Some(script)));
    assert vals[0] == Some("Sandboxed-None") && vals[1] == Some(script);
    assert forall j :: 2 <= j < |vals| ==> vals[j] == None;
    FirstTwoLines(KEYS, vals);
    LauncherFieldLines(script);
  }

  /** The name and Exec lines of a launcher, spelled out. */
  lemma LauncherFieldLines(script: string)
    ensures LineFor("Name", Some("Sandboxed-None")) == ["Name=Sandboxed-None"]
    ensures LineFor("Exec", Some(script)) == if script != "" then ["Exec=" + script] else []
  {
    assert "Name" + "=" + "Sandboxed-None" == "Name=Sandboxed-None";
    assert "Exec" + "=" + script == "Exec=" + script;
  }

  /** The launcher lines, each terminated, after the header line. */
  lemma LauncherTerminated(script: string)
    ensures Terminated([HEADER] + LauncherLines(script)) == LauncherText(script)
  {
    var nameLine := "Name=Sandboxed-None";
    var execLines := if script != "" then ["Exec=" + script] else [];
    var lines := [HEADER] + LauncherLines(script);
    assert lines[0] == HEADER && lines[1..] == [nameLine] + execLines;
    assert ([nameLine] + execLines)[0] == nameLine && ([nameLine] + execLines)[1..] == execLines;
    assert Terminated(execLines) == (if script != "" then "Exec=" + script + "\n" else "") by {
      if script != "" { assert execLines[1..] == []; }
    }
    assert Terminated([nameLine] + execLines) == nameLine + "\n" + Terminated(execLines);
  }

  /** The text of a sandboxed entry built from an entry whose fields all read back as None. */
  lemma SandboxedRendering(script: string)
    ensures Rendered(NO_FIELDS.(name := Some("Sandboxed-None"), exec := Some(script)), false) == LauncherText(script)
  {
    LauncherEntryLines(script);
    LauncherTerminated(script);
    var text := Terminated([HEADER] + LauncherLines(script));
    assert text + "" == text;
  }

  lemma {:induction false} NoLinesForNone(keys: seq<string>, vals: seq<Option<string>>)
    requires |keys| == |vals|
    requires forall j :: 0 <= j < |vals| ==> vals[j].None?
    ensures EntryLines(keys, vals) == []
  {
    if keys != [] {
      NoLinesForNone(keys[1..], vals[1..]);
    }
  }
}
