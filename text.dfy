/** The pieces of Python's string handling that the installer relies on: substring search
    (`in`), `split`, `replace`, `strip` and `os.path.basename`. */
module Text {
  import opened Wrappers

  /** `pat` occurs in `s` starting at index `i`. */
  predicate OccursAt(s: string, pat: string, i: nat)
  {
    i + |pat| <= |s| && s[i..i + |pat|] == pat
  }

  lemma OccursAtTail(s: string, pat: string, j: nat)
    requires s != []
    ensures OccursAt(s, pat, j + 1) <==> OccursAt(s[1..], pat, j)
  {
    if j + 1 + |pat| <= |s| {
      assert s[1..][j..j + |pat|] == s[j + 1..j + 1 + |pat|];
    }
  }

  /** Index of the first occurrence of `pat` in `s`; None where Python's `str.find` gives -1. */
  function Find(s: string, pat: string): (r: Option<nat>)
    ensures r.Some? ==> OccursAt(s, pat, r.value)
    decreases |s|
  {
    if pat <= s then
      assert s[0..|pat|] == pat;
      Some(0)
    else if s == [] then None
    else
      match Find(s[1..], pat)
      case None => None
      case Some(i) =>
        assert OccursAt(s, pat, i + 1) by { OccursAtTail(s, pat, i); }
        Some(i + 1)
  }

  /** `Find` gives the first occurrence, and None only when there is none. */
  lemma {:induction false} FindFirst(s: string, pat: string)
    ensures Find(s, pat).Some? ==> forall j :: 0 <= j < Find(s, pat).value ==> !OccursAt(s, pat, j)
    ensures Find(s, pat).None? ==> forall j :: 0 <= j <= |s| ==> !OccursAt(s, pat, j)
    decreases |s|
  {
    assert OccursAt(s, pat, 0) <==> pat <= s by {
      if |pat| <= |s| { assert s[0..|pat|] == s[..|pat|]; }
    }
    if !(pat <= s) && s != [] {
      FindFirst(s[1..], pat);
      forall j | 1 <= j <= |s| ensures OccursAt(s, pat, j) <==> OccursAt(s[1..], pat, j - 1) {
        OccursAtTail(s, pat, j - 1);
      }
    }
  }

  /** Python's `pat in s`. */
  predicate Contains(s: string, pat: string)
  {
    Find(s, pat).Some?
  }

  /** Python's `s.split(sep)` for a non-empty separator. */
  function Split(s: string, sep: string): (r: seq<string>)
    requires sep != []
    ensures |r| >= 1
    decreases |s|
  {
    match Find(s, sep)
    case None => [s]
    case Some(i) => [s[..i]] + Split(s[i + |sep|..], sep)
  }

  /** Python's `sep.join(parts)`. */
  function Join(parts: seq<string>, sep: string): string
  {
    if parts == [] then ""
    else if |parts| == 1 then parts[0]
    else parts[0] + sep + Join(parts[1..], sep)
  }

  /** One step of `split`: the text before the first separator, then the rest. */
  lemma SplitAt(s: string, sep: string, i: nat)
    requires sep != [] && Find(s, sep) == Some(i)
    ensures Split(s, sep) == [s[..i]] + Split(s[i + |sep|..], sep)
    ensures s == s[..i] + sep + s[i + |sep|..]
  {
    assert s[i..i + |sep|] == sep;
    assert s == s[..i] + s[i..i + |sep|] + s[i + |sep|..];
  }

  /** One step of `join` over at least two pieces. */
  lemma JoinCons(a: string, tail: seq<string>, sep: string)
    requires |tail| >= 1
    ensures Join([a] + tail, sep) == a + sep + Join(tail, sep)
  {
    assert ([a] + tail)[0] == a && ([a] + tail)[1..] == tail;
  }

  /** Splitting and joining again with the same separator gives back the text. */
  lemma {:induction false} SplitJoin(s: string, sep: string)
    requires sep != []
    ensures Join(Split(s, sep), sep) == s
    decreases |s|
  {
    if Find(s, sep).Some? {
      var i := Find(s, sep).value;
      var rest := s[i + |sep|..];
      SplitJoin(rest, sep);
      SplitAt(s, sep, i);
      JoinCons(s[..i], Split(rest, sep), sep);
    }
  }

  /** No piece of a split contains the separator. */
  lemma {:induction false} SplitPiecesFree(s: string, sep: string)
    requires sep != []
    ensures forall k :: 0 <= k < |Split(s, sep)| ==> !Contains(Split(s, sep)[k], sep)
    decreases |s|
  {
    match Find(s, sep)
    case None =>
    case Some(i) =>
      var rest := s[i + |sep|..];
      SplitPiecesFree(rest, sep);
      var head := s[..i];
      FindFirst(s, sep);
      forall j | 0 <= j <= |head| ensures !OccursAt(head, sep, j) {
        if j + |sep| <= |head| {
          assert !OccursAt(s, sep, j);
          var inHead, inText := head[j..j + |sep|], s[j..j + |sep|];
          forall m | 0 <= m < |sep| ensures inHead[m] == inText[m] {
            assert head[j + m] == s[j + m];
          }
          assert inHead == inText;
        }
      }
      assert !Contains(head, sep);
      var r := Split(s, sep);
      assert r == [head] + Split(rest, sep);
      forall k | 0 <= k < |r| ensures !Contains(r[k], sep) {
        if k > 0 { assert r[k] == Split(rest, sep)[k - 1]; }
      }
  }

  /** Python's `s.replace(pattern, replacement)`: every non-overlapping occurrence, scanning
      from the left. */
  function Replace(s: string, pattern: string, replacement: string): string
    requires pattern != []
    decreases |s|
  {
    if pattern <= s then replacement + Replace(s[|pattern|..], pattern, replacement)
    else if s == [] then []
    else [s[0]] + Replace(s[1..], pattern, replacement)
  }

  /** `find` past a first character that does not start the separator. */
  lemma FindCons(s: string, sep: string)
    requires sep != [] && s != [] && !(sep <= s)
    ensures Find(s, sep) == if Find(s[1..], sep).Some? then Some(Find(s[1..], sep).value + 1) else None
  {
  }

  /** `split` past a first character that does not start the separator. */
  lemma SplitCons(s: string, sep: string)
    requires sep != [] && s != [] && !(sep <= s)
    ensures Split(s, sep) == [[s[0]] + Split(s[1..], sep)[0]] + Split(s[1..], sep)[1..]
  {
    FindCons(s, sep);
    var t := s[1..];
    if Find(t, sep).Some? {
      var i := Find(t, sep).value;
      SplitAt(s, sep, i + 1);
      SplitAt(t, sep, i);
      SplitConsAt(s, sep, i);
    } else {
      assert [s[0]] + t == s;
    }
  }

  lemma SplitConsAt(s: string, sep: string, i: nat)
    requires sep != [] && s != [] && i + 1 + |sep| <= |s|
    requires Split(s, sep) == [s[..i + 1]] + Split(s[i + 1 + |sep|..], sep)
    requires Split(s[1..], sep) == [s[1..][..i]] + Split(s[1..][i + |sep|..], sep)
    ensures Split(s, sep) == [[s[0]] + Split(s[1..], sep)[0]] + Split(s[1..], sep)[1..]
  {
    var tail := Split(s[1..][i + |sep|..], sep);
    assert s[1..][i + |sep|..] == s[i + 1 + |sep|..];
    assert ([s[1..][..i]] + tail)[0] == s[1..][..i] && ([s[1..][..i]] + tail)[1..] == tail;
    assert [s[0]] + s[1..][..i] == s[..i + 1];
  }

  /** Prefixing the first piece prefixes the joined text. */
  lemma JoinPrefixFirst(c: char, parts: seq<string>, sep: string)
    requires |parts| >= 1
    ensures Join([[c] + parts[0]] + parts[1..], sep) == [c] + Join(parts, sep)
  {
    var q := [[c] + parts[0]] + parts[1..];
    assert q[0] == [c] + parts[0] && q[1..] == parts[1..];
    if |parts| > 1 {
      assert Join(q, sep) == [c] + parts[0] + sep + Join(parts[1..], sep);
    }
  }

  /** `replace` is the same as splitting on the pattern and joining with the replacement:
      every occurrence is replaced, and nothing else changes. */
  lemma {:induction false} ReplaceIsSplitJoin(s: string, pattern: string, replacement: string)
    requires pattern != []
    ensures Replace(s, pattern, replacement) == Join(Split(s, pattern), replacement)
    decreases |s|
  {
    if pattern <= s {
      var rest := s[|pattern|..];
      ReplaceIsSplitJoin(rest, pattern, replacement);
      SplitAt(s, pattern, 0);
      assert s[..0] == "";
      JoinCons("", Split(rest, pattern), replacement);
    } else if s != [] {
      ReplaceIsSplitJoin(s[1..], pattern, replacement);
      SplitCons(s, pattern);
      JoinPrefixFirst(s[0], Split(s[1..], pattern), replacement);
    }
  }

  /** Python's `str.isspace` for one character. */
  predicate IsSpace(c: char)
  {
    c == ' ' || '\t' <= c <= '\r' || '\U{1C}' <= c <= '\U{1F}' || c == '\U{85}' || c == '\U{A0}'
    || c == '\U{1680}' || '\U{2000}' <= c <= '\U{200A}' || c == '\U{2028}' || c == '\U{2029}'
    || c == '\U{202F}' || c == '\U{205F}' || c == '\U{3000}'
  }

  /** Python's `s.lstrip()`: the suffix left after dropping leading white space. */
  function LStrip(s: string): (r: string)
    ensures |r| <= |s| && r == s[|s| - |r|..]
    ensures forall k :: 0 <= k < |s| - |r| ==> IsSpace(s[k])
    ensures r != [] ==> !IsSpace(r[0])
  {
    if s != [] && IsSpace(s[0]) then LStrip(s[1..]) else s
  }

  /** Python's `s.rstrip()`: the prefix left after dropping trailing white space. */
  function RStrip(s: string): (r: string)
    ensures |r| <= |s| && r == s[..|r|]
    ensures forall k :: |r| <= k < |s| ==> IsSpace(s[k])
    ensures r != [] ==> !IsSpace(r[|r| - 1])
  {
    if s != [] && IsSpace(s[|s| - 1]) then RStrip(s[..|s| - 1]) else s
  }

  /** Python's `s.strip()`: what is left after dropping white space at both ends. */
  function Strip(s: string): (r: string)
    ensures r != [] ==> !IsSpace(r[0]) && !IsSpace(r[|r| - 1])
  {
    var l := LStrip(s);
    var r := RStrip(l);
    assert r != [] ==> r[0] == l[0];
    r
  }

  /** Trailing white space makes no difference to `rstrip`. */
  lemma {:induction false} RStripTrailingSpace(s: string, ws: string)
    requires forall k :: 0 <= k < |ws| ==> IsSpace(ws[k])
    ensures RStrip(s + ws) == RStrip(s)
    decreases |ws|
  {
    if ws == [] {
      assert s + ws == s;
    } else {
      assert (s + ws)[..|s + ws| - 1] == s + ws[..|ws| - 1];
      RStripTrailingSpace(s, ws[..|ws| - 1]);
    }
  }

  /** `strip` leaves text that has no white space at either end unchanged. */
  lemma StripTrimmed(s: string)
    requires s != [] ==> !IsSpace(s[0]) && !IsSpace(s[|s| - 1])
    ensures Strip(s) == s
  {
  }

  /** Splitting yields at least two pieces exactly when the separator occurs. */
  lemma SplitPieces(s: string, sep: string)
    requires sep != []
    ensures |Split(s, sep)| >= 2 <==> Contains(s, sep)
  {
  }

  /** Text that does not contain the pattern is left alone by `replace`. */
  lemma ReplaceAbsent(s: string, pattern: string, replacement: string)
    requires pattern != [] && !Contains(s, pattern)
    ensures Replace(s, pattern, replacement) == s
  {
    ReplaceIsSplitJoin(s, pattern, replacement);
  }

  /** Index of the last `c` in `p`, -1 if there is none (Python's `str.rfind`). */
  function RFind(p: string, c: char): (r: int)
    ensures -1 <= r < |p|
    ensures r >= 0 ==> p[r] == c
    ensures forall j :: r < j < |p| ==> p[j] != c
  {
    if p == [] then -1
    else if p[|p| - 1] == c then |p| - 1
    else RFind(p[..|p| - 1], c)
  }

  /** Python's `os.path.basename(p)`: what follows the last '/'. */
  function Basename(p: string): (r: string)
    ensures '/' !in r
  {
    p[RFind(p, '/') + 1..]
  }

  /** The basename of `dir + "/" + name` is `name` when `name` holds no '/'. */
  lemma BasenameOfJoin(dir: string, name: string)
    requires '/' !in name
    ensures Basename(dir + "/" + name) == name
  {
    var p := dir + "/" + name;
    var r := RFind(p, '/');
    assert p[|dir|] == '/';
    assert forall j :: |dir| < j < |p| ==> p[j] == name[j - |dir| - 1];
    assert p[|dir| + 1..] == name;
  }
}
