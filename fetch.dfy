/** The package manager: the mirror list, package lookup on the Arch Linux package site, the
    installed-check, the dependency loop of `install`, and the record and launcher entry
    written for an installed package. The network, `pacman`, the mirror file, directory
    listings and `random.choice` are parameters; a Python exception is an `Error`. */
module Fetch {
  import opened Wrappers
  import opened Text
  import opened Masks
  import opened Desktop
  import opened Configuration

  const ARCH := "x86_64"
  const REPOS: seq<string> := ["core", "extra"]
  const APPLICATION_DIRECTORY := "/var/lib/pharaoh/app/"

  /** The Python exceptions the modelled code can raise. */
  datatype Error = IndexError | KeyError(key: string) | TypeError | AttributeError

  // ---------------------------------------------------------------- mirrors

  datatype Mirror = Mirror(url: string)

  const SERVER_TAG := "Server = "

  /** `Mirror.from_str`: the text after the first `Server = ` (up to a second one, if any),
      stripped, with every `$arch` replaced by the architecture. Without the tag the
      `[1]` index raises IndexError. */
  function MirrorFromStr(value: string): (r: Result<Mirror, Error>)
    ensures r.Err? <==> !Contains(value, SERVER_TAG)
    ensures r.Err? ==> r.error == IndexError
  {
    SplitPieces(value, SERVER_TAG);
    var parts := Split(value, SERVER_TAG);
    if |parts| < 2 then Err(IndexError)
    else Ok(Mirror(Replace(Strip(parts[1]), "$arch", ARCH)))
  }

  /** A line that starts with the tag gives the text after it up to a second tag, if any,
      stripped and with every `$arch` replaced. */
  lemma MirrorFromTaggedLine(url: string)
    ensures MirrorFromStr(SERVER_TAG + url)
         == Ok(Mirror(Replace(Strip(Split(url, SERVER_TAG)[0]), "$arch", ARCH)))
  {
    var value := SERVER_TAG + url;
    assert Find(value, SERVER_TAG) == Some(0) by {
      assert value[..|SERVER_TAG|] == SERVER_TAG;
    }
    assert value[|SERVER_TAG|..] == url;
    assert Split(value, SERVER_TAG) == [""] + Split(url, SERVER_TAG);
  }

  /** A well-formed mirror line gives its URL with `$arch` replaced. */
  lemma MirrorFromServerLine(url: string)
    requires !Contains(url, SERVER_TAG)
    requires url != [] ==> !IsSpace(url[0]) && !IsSpace(url[|url| - 1])
    ensures MirrorFromStr(SERVER_TAG + url) == Ok(Mirror(Replace(url, "$arch", ARCH)))
  {
    MirrorFromTaggedLine(url);
    assert Split(url, SERVER_TAG) == [url];
    StripTrimmed(url);
  }

  /** `_fetch_mirrors` keeps a line when it contains `Server = ` and no `#` anywhere. */
  predicate KeepsLine(line: string)
  {
    Contains(line, SERVER_TAG) && '#' !in line
  }

  /** The mirrors read from the lines of the mirror file, in file order; each kept line is
      stripped before it is parsed, and the first line that fails to parse ends the read. */
  function MirrorsOf(lines: seq<string>): Result<seq<Mirror>, Error>
  {
    if lines == [] then Ok([])
    else
      var line := lines[|lines| - 1];
      match MirrorsOf(lines[..|lines| - 1])
      case Err(e) => Err(e)
      case Ok(mirrors) =>
        if !KeepsLine(line) then Ok(mirrors)
        else
          match MirrorFromStr(Strip(line))
          case Err(e) => Err(e)
          case Ok(m) => Ok(mirrors + [m])
  }

  /** The kept lines, in file order. */
  function KeptLines(lines: seq<string>): (r: seq<string>)
    ensures forall k :: 0 <= k < |r| ==> KeepsLine(r[k])
  {
    if lines == [] then []
    else KeptLines(lines[..|lines| - 1]) + (if KeepsLine(lines[|lines| - 1]) then [lines[|lines| - 1]] else [])
  }

  /** A line is kept exactly when it is in the file and passes the filter. */
  lemma {:induction false} KeptLinesMembers(lines: seq<string>)
    ensures forall l :: l in KeptLines(lines) <==> l in lines && KeepsLine(l)
  {
    if lines != [] {
      var init := lines[..|lines| - 1];
      KeptLinesMembers(init);
      assert lines == init + [lines[|lines| - 1]];
    }
  }

  /** How `_fetch_mirrors` parses a kept line. */
  function ParseLine(line: string): Result<Mirror, Error>
  {
    MirrorFromStr(Strip(line))
  }

  /** Parsing lines one after the other, stopping at the first failure. */
  function ParseAll(lines: seq<string>, parse: string -> Result<Mirror, Error>): Result<seq<Mirror>, Error>
  {
    if lines == [] then Ok([])
    else
      match ParseAll(lines[..|lines| - 1], parse)
      case Err(e) => Err(e)
      case Ok(mirrors) =>
        match parse(lines[|lines| - 1])
        case Err(e) => Err(e)
        case Ok(m) => Ok(mirrors + [m])
  }

  /** Parsing one more line. */
  lemma ParseAllSnoc(lines: seq<string>, line: string, parse: string -> Result<Mirror, Error>)
    ensures ParseAll(lines + [line], parse)
         == match ParseAll(lines, parse)
            case Err(e) => Err(e)
            case Ok(mirrors) =>
              match parse(line)
              case Err(e) => Err(e)
              case Ok(m) => Ok(mirrors + [m])
  {
    assert (lines + [line])[..|lines|] == lines;
  }

  /** Reading the mirror file is filtering its lines, then parsing the kept ones. */
  lemma {:induction false} MirrorsOfIsFilterThenParse(lines: seq<string>)
    ensures MirrorsOf(lines) == ParseAll(KeptLines(lines), ParseLine)
  {
    if lines != [] {
      var init := lines[..|lines| - 1];
      var line := lines[|lines| - 1];
      MirrorsOfIsFilterThenParse(init);
      var before := KeptLines(init);
      if KeepsLine(line) {
        assert KeptLines(lines) == before + [line];
        ParseAllSnoc(before, line, ParseLine);
      } else {
        assert KeptLines(lines) == before;
      }
    }
  }

  /** Parsing succeeds exactly when every line parses, and then gives one result per line,
      in order; otherwise it fails as the first failing line does. */
  lemma {:induction false} ParseAllEach(lines: seq<string>, parse: string -> Result<Mirror, Error>)
    ensures ParseAll(lines, parse).Ok? <==> forall k :: 0 <= k < |lines| ==> parse(lines[k]).Ok?
    ensures ParseAll(lines, parse).Ok? ==>
      |ParseAll(lines, parse).value| == |lines|
      && forall k :: 0 <= k < |lines| ==> parse(lines[k]) == Ok(ParseAll(lines, parse).value[k])
    ensures ParseAll(lines, parse).Err? ==>
      exists k :: 0 <= k < |lines| && parse(lines[k]) == Err(ParseAll(lines, parse).error)
                  && forall j :: 0 <= j < k ==> parse(lines[j]).Ok?
  {
    if lines != [] {
      var init := lines[..|lines| - 1];
      var last := lines[|lines| - 1];
      ParseAllEach(init, parse);
      var before := ParseAll(init, parse);
      assert forall k :: 0 <= k < |init| ==> lines[k] == init[k];
      if before.Err? {
        var j :| 0 <= j < |init| && parse(init[j]) == Err(before.error)
                 && forall i :: 0 <= i < j ==> parse(init[i]).Ok?;
        assert parse(lines[j]) == Err(ParseAll(lines, parse).error);
        assert forall i :: 0 <= i < j ==> parse(lines[i]).Ok?;
      } else if parse(last).Err? {
        assert parse(lines[|lines| - 1]) == Err(ParseAll(lines, parse).error);
        assert forall i :: 0 <= i < |lines| - 1 ==> parse(lines[i]).Ok?;
      } else {
        var r := before.value + [parse(last).value];
        assert ParseAll(lines, parse) == Ok(r);
        forall k | 0 <= k < |lines| ensures parse(lines[k]) == Ok(r[k]) {
          if k < |init| {
            assert r[k] == before.value[k];
          }
        }
      }
    }
  }

  /** Reading the mirror file succeeds exactly when every kept line still contains
      `Server = ` once stripped, and then yields one mirror per kept line, parsed from it;
      a failure is an IndexError. */
  lemma MirrorsOfKeptLines(lines: seq<string>)
    ensures var kept := KeptLines(lines);
      MirrorsOf(lines).Ok? <==> forall k :: 0 <= k < |kept| ==> Contains(Strip(kept[k]), SERVER_TAG)
    ensures var kept := KeptLines(lines);
      MirrorsOf(lines).Ok? ==>
        |MirrorsOf(lines).value| == |kept|
        && forall k :: 0 <= k < |kept| ==> ParseLine(kept[k]) == Ok(MirrorsOf(lines).value[k])
    ensures MirrorsOf(lines).Err? ==> MirrorsOf(lines).error == IndexError
  {
    MirrorsOfIsFilterThenParse(lines);
    ParseAllEach(KeptLines(lines), ParseLine);
  }

  /** Once a line fails to parse, the lines after it change nothing. */
  lemma {:induction false} MirrorsOfErrorSticks(lines: seq<string>, i: nat)
    requires i <= |lines|
    requires MirrorsOf(lines[..i]).Err?
    ensures MirrorsOf(lines) == MirrorsOf(lines[..i])
    decreases |lines| - i
  {
    if i < |lines| {
      assert lines[..|lines| - 1][..i] == lines[..i];
      MirrorsOfErrorSticks(lines[..|lines| - 1], i);
    } else {
      assert lines[..i] == lines;
    }
  }

  /** A tag followed only by white space other than `#` passes the filter. */
  lemma BlankServerLineKept(ws: string)
    requires forall k :: 0 <= k < |ws| ==> IsSpace(ws[k])
    ensures KeepsLine(SERVER_TAG + ws)
  {
    var line := SERVER_TAG + ws;
    assert Find(line, SERVER_TAG) == Some(0) by {
      assert line[..|SERVER_TAG|] == SERVER_TAG;
    }
    forall k | 0 <= k < |line| ensures line[k] != '#' {
      if k >= |SERVER_TAG| { assert line[k] == ws[k - |SERVER_TAG|]; }
    }
  }

  /** `strip` takes the tag's own trailing space along with the white space after it. */
  lemma BlankServerLineStrip(ws: string)
    requires forall k :: 0 <= k < |ws| ==> IsSpace(ws[k])
    ensures Strip(SERVER_TAG + ws) == "Server ="
  {
    var line := SERVER_TAG + ws;
    assert line[0] == 'S' && !IsSpace(line[0]);
    assert LStrip(line) == line;
    RStripTrailingSpace(SERVER_TAG, ws);
    assert SERVER_TAG[..|SERVER_TAG| - 1] == "Server =";
    assert RStrip(SERVER_TAG) == RStrip("Server =");
    assert RStrip("Server =") == "Server =" by {
      assert !IsSpace("Server ="[7]);
    }
  }

  /** A mirror line whose URL is only white space passes the filter but loses its tag's
      trailing space to `strip`, so reading the file fails with IndexError. */
  lemma BlankServerLineFails(ws: string)
    requires forall k :: 0 <= k < |ws| ==> IsSpace(ws[k])
    ensures KeepsLine(SERVER_TAG + ws)
    ensures MirrorsOf([SERVER_TAG + ws]) == Err(IndexError)
  {
    var line := SERVER_TAG + ws;
    BlankServerLineKept(ws);
    BlankServerLineStrip(ws);
    assert Find("Server =", SERVER_TAG) == None;
    assert [line][..0] == [];
  }

  /** Reading one more line of the file. */
  lemma MirrorsOfStep(lines: seq<string>, i: nat)
    requires i < |lines|
    ensures MirrorsOf(lines[..i + 1])
         == match MirrorsOf(lines[..i])
            case Err(e) => Err(e)
            case Ok(mirrors) =>
              if !KeepsLine(lines[i]) then Ok(mirrors)
              else
                match MirrorFromStr(Strip(lines[i]))
                case Err(e) => Err(e)
                case Ok(m) => Ok(mirrors + [m])
  {
    assert lines[..i + 1][..i] == lines[..i];
  }

  /** `_fetch_mirrors` over the lines of the mirror file. */
  method FetchMirrors(lines: seq<string>) returns (r: Result<seq<Mirror>, Error>)
    ensures r == MirrorsOf(lines)
  {
    var mirrors: seq<Mirror> := [];
    var i := 0;
    while i < |lines|
      invariant 0 <= i <= |lines|
      invariant MirrorsOf(lines[..i]) == Ok(mirrors)
    {
      var line := lines[i];
      MirrorsOfStep(lines, i);
      if Contains(line, SERVER_TAG) && '#' !in line {
        var mirror := MirrorFromStr(Strip(line));
        if mirror.Err? {
          MirrorsOfErrorSticks(lines, i + 1);
          return Err(mirror.error);
        }
        mirrors := mirrors + [mirror.value];
      }
      i := i + 1;
    }
    assert lines[..i] == lines;
    return Ok(mirrors);
  }

  // ---------------------------------------------------------------- packages

  /** The fields of the package JSON that the installer reads; None is an absent key. */
  datatype PackageJson = PackageJson(
    pkgname: Option<string>,
    filename: Option<string>,
    repo: Option<string>,
    arch: Option<string>,
    depends: Option<seq<string>>)

  /** The KeyError `Package.from_dict` raises: the first absent required key. */
  function FromDictError(data: PackageJson): (r: Option<Error>)
    ensures r.None? <==> data.pkgname.Some? && data.filename.Some? && data.repo.Some? && data.arch.Some?
    ensures r.Some? ==> r.value.KeyError?
    ensures r == Some(KeyError("pkgname")) <==> data.pkgname.None?
    ensures r == Some(KeyError("filename")) <==> data.pkgname.Some? && data.filename.None?
    ensures r == Some(KeyError("repo")) <==> data.pkgname.Some? && data.filename.Some? && data.repo.None?
    ensures r == Some(KeyError("arch"))
        <==> data.pkgname.Some? && data.filename.Some? && data.repo.Some? && data.arch.None?
  {
    if data.pkgname.None? then Some(KeyError("pkgname"))
    else if data.filename.None? then Some(KeyError("filename"))
    else if data.repo.None? then Some(KeyError("repo"))
    else if data.arch.None? then Some(KeyError("arch"))
    else None
  }

  /** A package found in a repository. Only the desktop entry's file name is filled in
      later, once the package is unpacked. */
  class Package {
    const name: string
    const filename: string
    const repo: string
    const arch: string
    const depends: Option<seq<string>>
    var entry: Option<string>

    /** The package describes `data`. */
    predicate From(data: PackageJson)
    {
      FromDictError(data).None? && name == data.pkgname.value && filename == data.filename.value
      && repo == data.repo.value && arch == data.arch.value && depends == data.depends
    }

    constructor (name: string, filename: string, repo: string, arch: string, depends: Option<seq<string>>)
      ensures this.name == name && this.filename == filename && this.repo == repo && this.arch == arch
      ensures this.depends == depends && entry == None
    {
      this.name := name;
      this.filename := filename;
      this.repo := repo;
      this.arch := arch;
      this.depends := depends;
      entry := None;
    }

    /** `Package.from_dict`: the four required keys are indexed in order, and `depends` is
        None when absent. */
    static method FromDict(data: PackageJson) returns (r: Result<Package, Error>)
      ensures r.Err? <==> FromDictError(data).Some?
      ensures r.Err? ==> r.error == FromDictError(data).value
      ensures r.Ok? ==> fresh(r.value) && r.value.From(data) && r.value.entry == None
    {
      if FromDictError(data).Some? {
        return Err(FromDictError(data).value);
      }
      var p := new Package(data.pkgname.value, data.filename.value, data.repo.value, data.arch.value, data.depends);
      return Ok(p);
    }

    /** The end of unpacking: the entry is the first name listed in the unpacked
        `usr/share/applications`; an empty listing raises IndexError and changes nothing. */
    method RecordEntry(listing: seq<string>) returns (err: Option<Error>)
      modifies this
      ensures err.None? <==> listing != []
      ensures err.Some? ==> err.value == IndexError && entry == old(entry)
      ensures err.None? ==> entry == Some(listing[0])
    {
      if listing == [] {
        return Some(IndexError);
      }
      entry := Some(listing[0]);
      return None;
    }
  }

  /** The URL the package's JSON is fetched from in one repository. */
  function PackageUrl(repo: string, name: string): string
  {
    "https://archlinux.org/packages/" + repo + "/x86_64/" + name + "/json/"
  }

  /** The JSON of the first repository, in order, whose answer decodes; `fetch` gives None
      where decoding the answer raises JSONDecodeError. */
  function FirstDecoded(repos: seq<string>, name: string, fetch: string -> Option<PackageJson>)
    : (r: Option<PackageJson>)
    ensures r.None? <==> forall i :: 0 <= i < |repos| ==> fetch(PackageUrl(repos[i], name)).None?
  {
    if repos == [] then None
    else if fetch(PackageUrl(repos[0], name)).Some? then fetch(PackageUrl(repos[0], name))
    else FirstDecoded(repos[1..], name, fetch)
  }

  /** `core` is asked first and wins when its answer decodes; `extra` is asked otherwise. */
  lemma RepoOrder(name: string, fetch: string -> Option<PackageJson>)
    ensures var core := fetch(PackageUrl("core", name));
      FirstDecoded(REPOS, name, fetch) == if core.Some? then core else fetch(PackageUrl("extra", name))
  {
    assert REPOS[1..] == ["extra"] && REPOS[1..][1..] == [];
  }

  /** `_find_package`: the first repository whose answer decodes gives the package; a
      missing key there is not caught. None when no repository answers. */
  method FindPackage(name: string, fetch: string -> Option<PackageJson>) returns (r: Result<Option<Package>, Error>)
    ensures FirstDecoded(REPOS, name, fetch).None? ==> r == Ok(None)
    ensures FirstDecoded(REPOS, name, fetch).Some? ==>
      var data := FirstDecoded(REPOS, name, fetch).value;
      && (r.Err? <==> FromDictError(data).Some?)
      && (r.Err? ==> r.error == FromDictError(data).value)
      && (r.Ok? ==> r.value.Some? && fresh(r.value.value) && r.value.value.From(data)
                    && r.value.value.entry == None)
  {
    var i := 0;
    while i < |REPOS|
      invariant 0 <= i <= |REPOS|
      invariant FirstDecoded(REPOS, name, fetch) == FirstDecoded(REPOS[i..], name, fetch)
    {
      var answer := fetch(PackageUrl(REPOS[i], name));
      assert REPOS[i..][1..] == REPOS[i + 1..];
      if answer.Some? {
        var package := Package.FromDict(answer.value);
        if package.Err? {
          return Err(package.error);
        }
        return Ok(Some(package.value));
      }
      i := i + 1;
    }
    return Ok(None);
  }

  // ---------------------------------------------------------------- download URL

  /** `_download_package`'s URL: `random.choice` picks a mirror (`pick` stands for the
      random draw) and raises IndexError when there is none; with no package the `.repo`
      access raises AttributeError. */
  function DownloadUrl(mirrors: seq<Mirror>, pick: nat, repo: Option<string>, filename: string)
    : (r: Result<string, Error>)
    ensures mirrors == [] <==> r == Err(IndexError)
    ensures mirrors != [] && repo.None? <==> r == Err(AttributeError)
  {
    if mirrors == [] then Err(IndexError)
    else if repo.None? then Err(AttributeError)
    else Ok(Replace(mirrors[pick % |mirrors|].url, "$repo", repo.value) + "/" + filename)
  }

  /** The URL is the chosen mirror's URL split at every `$repo` and joined with the
      repository, then `/` and the file name; a mirror without `$repo` is used as is. */
  lemma DownloadUrlShape(mirrors: seq<Mirror>, pick: nat, repo: string, filename: string)
    requires mirrors != []
    ensures var m := mirrors[pick % |mirrors|];
      DownloadUrl(mirrors, pick, Some(repo), filename)
        == Ok(Join(Split(m.url, "$repo"), repo) + "/" + filename)
    ensures var m := mirrors[pick % |mirrors|];
      !Contains(m.url, "$repo") ==> DownloadUrl(mirrors, pick, Some(repo), filename) == Ok(m.url + "/" + filename)
  {
    var m := mirrors[pick % |mirrors|];
    ReplaceIsSplitJoin(m.url, "$repo", repo);
    if !Contains(m.url, "$repo") {
      ReplaceAbsent(m.url, "$repo", repo);
    }
  }

  // ---------------------------------------------------------------- installed check

  /** `_is_installed`: a name containing `.so` counts as installed without a query;
      otherwise `pacman -Qq` must succeed (`pacman` gives its output, None for a non-zero
      exit) and print the name itself, surrounding white space aside. */
  function IsInstalled(name: string, pacman: string -> Option<string>): bool
  {
    if Contains(name, ".so") then true
    else match pacman(name)
      case None => false
      case Some(out) => Strip(out) == name
  }

  /** A `.so` name is installed whatever `pacman` would say. */
  lemma SharedObjectsNeedNoQuery(name: string, pacman: string -> Option<string>, other: string -> Option<string>)
    requires Contains(name, ".so")
    ensures IsInstalled(name, pacman) && IsInstalled(name, other)
  {
  }

  /** Any other name is installed only when `pacman` succeeds and prints it; a name with
      white space at either end can never match. */
  lemma InstalledNeedsQuery(name: string, pacman: string -> Option<string>)
    requires !Contains(name, ".so")
    ensures IsInstalled(name, pacman) ==> pacman(name).Some?
    ensures name != [] && (IsSpace(name[0]) || IsSpace(name[|name| - 1])) ==> !IsInstalled(name, pacman)
  {
  }

  // ---------------------------------------------------------------- install

  /** What an installation did: the names of the packages installed, in order, and the
      exception that ended it, if any. */
  datatype Outcome = Outcome(installed: seq<string>, error: Option<Error>)

  /** What the loop does with one dependency: None when it is skipped (already installed,
      or found in no repository), the name of the package installed for it, or the
      KeyError of a malformed package. */
  function DepStep(depend: string, fetch: string -> Option<PackageJson>, pacman: string -> Option<string>)
    : Option<Result<string, Error>>
  {
    if IsInstalled(depend, pacman) then None
    else
      match FirstDecoded(REPOS, depend, fetch)
      case None => None
      case Some(data) =>
        if FromDictError(data).Some? then Some(Err(FromDictError(data).value))
        else Some(Ok(data.pkgname.value))
  }

  /** The dependency loop of `install` over `depends` (the top package's list), one
      dependency at a time, stopping at the first exception. */
  function DepsPlan(depends: seq<string>, fetch: string -> Option<PackageJson>, pacman: string -> Option<string>)
    : Outcome
  {
    if depends == [] then Outcome([], None)
    else
      var before := DepsPlan(depends[..|depends| - 1], fetch, pacman);
      if before.error.Some? then before
      else
        match DepStep(depends[|depends| - 1], fetch, pacman)
        case None => before
        case Some(Err(e)) => Outcome(before.installed, Some(e))
        case Some(Ok(name)) => Outcome(before.installed + [name], None)
  }

  /** `name` is what the loop installs for one of `depends`. */
  predicate InstalledFor(name: string, depends: seq<string>, fetch: string -> Option<PackageJson>,
                         pacman: string -> Option<string>)
  {
    exists d :: d in depends && DepStep(d, fetch, pacman) == Some(Ok(name))
  }

  /** Only dependencies the loop installs appear, under the name their JSON gives. */
  lemma {:induction false} DepsPlanInstallsOnlyDeps(depends: seq<string>, fetch: string -> Option<PackageJson>,
                                                    pacman: string -> Option<string>)
    ensures var o := DepsPlan(depends, fetch, pacman);
      forall k :: 0 <= k < |o.installed| ==> InstalledFor(o.installed[k], depends, fetch, pacman)
  {
    if depends != [] {
      var init := depends[..|depends| - 1];
      var depend := depends[|depends| - 1];
      DepsPlanInstallsOnlyDeps(init, fetch, pacman);
      var before := DepsPlan(init, fetch, pacman);
      assert var prior := DepsPlan(init, fetch, pacman);
        forall k :: 0 <= k < |prior.installed| ==> InstalledFor(prior.installed[k], init, fetch, pacman);
      var o := DepsPlan(depends, fetch, pacman);
      forall k | 0 <= k < |o.installed| ensures InstalledFor(o.installed[k], depends, fetch, pacman) {
        if k < |before.installed| {
          assert o.installed[k] == before.installed[k];
          assert InstalledFor(before.installed[k], init, fetch, pacman);
          var d :| d in init && DepStep(d, fetch, pacman) == Some(Ok(before.installed[k]));
          assert d in depends;
        } else {
          assert DepStep(depend, fetch, pacman) == Some(Ok(o.installed[k]));
        }
      }
    }
  }

  /** When the loop ends without an exception, every dependency it would install has been
      installed. */
  lemma {:induction false} DepsPlanInstallsAll(depends: seq<string>, fetch: string -> Option<PackageJson>,
                                               pacman: string -> Option<string>)
    ensures var o := DepsPlan(depends, fetch, pacman);
      o.error.None? ==>
        forall d :: d in depends && DepStep(d, fetch, pacman).Some? ==>
          DepStep(d, fetch, pacman).value.Ok? && DepStep(d, fetch, pacman).value.value in o.installed
  {
    if depends != [] {
      var init := depends[..|depends| - 1];
      var last := depends[|depends| - 1];
      DepsPlanInstallsAll(init, fetch, pacman);
      var before := DepsPlan(init, fetch, pacman);
      var o := DepsPlan(depends, fetch, pacman);
      if o.error.None? {
        assert before.error.None?;
        assert forall n :: n in before.installed ==> n in o.installed;
        forall d | d in depends && DepStep(d, fetch, pacman).Some?
          ensures DepStep(d, fetch, pacman).value.Ok? && DepStep(d, fetch, pacman).value.value in o.installed
        {
          if d != last {
            assert d in init by {
              var j :| 0 <= j < |depends| && depends[j] == d;
              assert j < |depends| - 1 && init[j] == d;
            }
          }
        }
      }
    }
  }

  /** One more dependency: what the loop does with it, unless it has already raised. */
  lemma DepsPlanStep(depends: seq<string>, i: nat, fetch: string -> Option<PackageJson>,
                     pacman: string -> Option<string>)
    requires i < |depends|
    ensures var before := DepsPlan(depends[..i], fetch, pacman);
      DepsPlan(depends[..i + 1], fetch, pacman)
        == if before.error.Some? then before
           else match DepStep(depends[i], fetch, pacman)
             case None => before
             case Some(Err(e)) => Outcome(before.installed, Some(e))
             case Some(Ok(name)) => Outcome(before.installed + [name], None)
  {
    assert depends[..i + 1][..i] == depends[..i];
  }

  /** Once the loop has raised, the remaining dependencies change nothing. */
  lemma {:induction false} DepsPlanErrorSticks(depends: seq<string>, i: nat, fetch: string -> Option<PackageJson>,
                                               pacman: string -> Option<string>)
    requires i <= |depends|
    requires DepsPlan(depends[..i], fetch, pacman).error.Some?
    ensures DepsPlan(depends, fetch, pacman) == DepsPlan(depends[..i], fetch, pacman)
    decreases |depends| - i
  {
    if i < |depends| {
      assert depends[..|depends| - 1][..i] == depends[..i];
      DepsPlanErrorSticks(depends[..|depends| - 1], i, fetch, pacman);
    } else {
      assert depends[..i] == depends;
    }
  }

  /** A `.so` dependency is skipped without a lookup. */
  lemma SharedObjectDependencySkipped(depends: seq<string>, depend: string,
                                      fetch: string -> Option<PackageJson>, pacman: string -> Option<string>)
    requires Contains(depend, ".so")
    ensures DepsPlan(depends + [depend], fetch, pacman) == DepsPlan(depends, fetch, pacman)
  {
    assert (depends + [depend])[..|depends|] == depends;
  }

  /** `install`: the top package is looked up and installed into
      `APPLICATION_DIRECTORY/<name>`, then the loop runs over its `depends`, installing each
      dependency into the same directory. A top package found nowhere makes the download
      fail (IndexError without mirrors, AttributeError otherwise); `depends` being None
      raises TypeError once the top package is installed. */
  function InstallPlan(packageName: string, mirrors: seq<Mirror>, fetch: string -> Option<PackageJson>,
                       pacman: string -> Option<string>): Outcome
  {
    match FirstDecoded(REPOS, packageName, fetch)
    case None => Outcome([], Some(if mirrors == [] then IndexError else AttributeError))
    case Some(data) =>
      if FromDictError(data).Some? then Outcome([], FromDictError(data))
      else if mirrors == [] then Outcome([], Some(IndexError))
      else if data.depends.None? then Outcome([data.pkgname.value], Some(TypeError))
      else
        var deps := DepsPlan(data.depends.value, fetch, pacman);
        Outcome([data.pkgname.value] + deps.installed, deps.error)
  }

  /** A top package that is found, decodes and lists its dependencies is installed first,
      followed by what the dependency loop installs. */
  lemma InstallPlanFound(packageName: string, mirrors: seq<Mirror>, fetch: string -> Option<PackageJson>,
                         pacman: string -> Option<string>)
    requires FirstDecoded(REPOS, packageName, fetch).Some?
    requires FromDictError(FirstDecoded(REPOS, packageName, fetch).value).None?
    requires mirrors != [] && FirstDecoded(REPOS, packageName, fetch).value.depends.Some?
    ensures var data := FirstDecoded(REPOS, packageName, fetch).value;
      var deps := DepsPlan(data.depends.value, fetch, pacman);
      InstallPlan(packageName, mirrors, fetch, pacman) == Outcome([data.pkgname.value] + deps.installed, deps.error)
  {
  }

  /** `install`, with each package's download, unpacking and installation reduced to
      recording it as installed into `appDir`. */
  method Install(packageName: string, mirrors: seq<Mirror>, fetch: string -> Option<PackageJson>,
                 pacman: string -> Option<string>)
    returns (appDir: string, installed: seq<string>, error: Option<Error>)
    ensures appDir == APPLICATION_DIRECTORY + "/" + packageName
    ensures Outcome(installed, error) == InstallPlan(packageName, mirrors, fetch, pacman)
  {
    appDir := APPLICATION_DIRECTORY + "/" + packageName;
    installed := [];
    ghost var answer := FirstDecoded(REPOS, packageName, fetch);
    var found := FindPackage(packageName, fetch);
    if found.Err? {
      return appDir, [], Some(found.error);
    }
    if found.value.None? {
      return appDir, [], Some(if mirrors == [] then IndexError else AttributeError);
    }
    var package := found.value.value;
    ghost var data := answer.value;
    assert package.name == data.pkgname.value && package.depends == data.depends;
    if mirrors == [] {
      return appDir, [], Some(IndexError);
    }
    installed := [package.name];
    if package.depends.None? {
      return appDir, installed, Some(TypeError);
    }
    var depends := package.depends.value;
    InstallPlanFound(packageName, mirrors, fetch, pacman);
    var i := 0;
    ghost var rest: seq<string> := [];
    while i < |depends|
      invariant 0 <= i <= |depends|
      invariant installed == [data.pkgname.value] + rest
      invariant DepsPlan(depends[..i], fetch, pacman) == Outcome(rest, None)
    {
      var depend := depends[i];
      DepsPlanStep(depends, i, fetch, pacman);
      if !IsInstalled(depend, pacman) {
        var next := FindPackage(depend, fetch);
        if next.Err? {
          DepsPlanErrorSticks(depends, i + 1, fetch, pacman);
          return appDir, installed, Some(next.error);
        }
        if next.value.Some? {
          package := next.value.value;
          assert DepStep(depend, fetch, pacman) == Some(Ok(package.name));
          installed := installed + [package.name];
          rest := rest + [package.name];
        } else {
          assert DepStep(depend, fetch, pacman) == None;
        }
      } else {
        assert DepStep(depend, fetch, pacman) == None;
      }
      i := i + 1;
    }
    assert depends[..i] == depends;
    return appDir, installed, None;
  }

  // ---------------------------------------------------------------- installing one package

  /** The capability mask granted to every installed application, OR-ed in the source's
      order (Dbus twice). */
  function GrantedPermissions(flags: PermissionFlags): nat
  {
    Or(Or(Or(Or(Or(flags.dri, flags.dbus), flags.ipc), flags.dbus), flags.pulseaudio), flags.pipewire)
  }

  /** The grant is exactly the union of Dri, Dbus, Ipc, Pulseaudio and Pipewire: a bit is
      set in it when it is set in one of them, and the second Dbus adds nothing. */
  lemma GrantedPermissionsUnion(flags: PermissionFlags)
    ensures GrantedPermissions(flags)
         == Or(Or(Or(Or(flags.dri, flags.dbus), flags.ipc), flags.pulseaudio), flags.pipewire)
    ensures forall k: nat :: HasBit(GrantedPermissions(flags), k) <==>
      HasBit(flags.dri, k) || HasBit(flags.dbus, k) || HasBit(flags.ipc, k)
      || HasBit(flags.pulseaudio, k) || HasBit(flags.pipewire, k)
  {
    var g := GrantedPermissions(flags);
    var u := Or(Or(Or(Or(flags.dri, flags.dbus), flags.ipc), flags.pulseaudio), flags.pipewire);
    forall k: nat
      ensures HasBit(g, k) <==> HasBit(flags.dri, k) || HasBit(flags.dbus, k) || HasBit(flags.ipc, k)
                                 || HasBit(flags.pulseaudio, k) || HasBit(flags.pipewire, k)
      ensures HasBit(g, k) == HasBit(u, k)
    {
      var a := Or(flags.dri, flags.dbus);
      var b := Or(a, flags.ipc);
      var c := Or(b, flags.dbus);
      var d := Or(c, flags.pulseaudio);
      var e := Or(b, flags.pulseaudio);
      OrBit(flags.dri, flags.dbus, k);
      OrBit(a, flags.ipc, k);
      OrBit(b, flags.dbus, k);
      OrBit(c, flags.pulseaudio, k);
      OrBit(d, flags.pipewire, k);
      OrBit(b, flags.pulseaudio, k);
      OrBit(e, flags.pipewire, k);
    }
    SameBits(g, u);
  }

  /** The name of the application record written for a package. */
  function RecordPath(appDir: string, name: string): string
  {
    appDir + "/" + name + ".json"
  }

  /** `_install_package`: read the package's desktop entry, write the application record
      next to the unpacked files and replace the entry with its sandboxed launcher.
      `binListing` is the listing of `appDir/usr/bin` and `entryText` the text of the
      desktop entry file. Because the entry is read with the character-by-character lookup,
      the record's icon is always null and the launcher is named `Sandboxed-None`. The
      record and the launcher file are the contents written, or None when nothing is. */
  method InstallPackage(package: Package, appDir: string, binListing: seq<string>, entryText: string,
                        flags: PermissionFlags, dbusFlags: DBusFlags)
    returns (error: Option<Error>, recordPath: string, record: Option<map<string, Json>>,
             launcher: Option<(string, string)>)
    ensures error.Some? <==> binListing == []
    ensures error.Some? ==> error.value == IndexError && record.None? && launcher.None?
    ensures recordPath == RecordPath(appDir, package.name)
    ensures error.None? ==> record == Some(map[
      "app" := JStr(package.name),
      "path" := JStr(appDir),
      "icon" := JNull,
      "executable" := JStr(appDir + "/usr/bin/" + binListing[0]),
      "entry" := JStr(Basename(EntryPath(Show(package.entry)))),
      "permissions" := JInt(GrantedPermissions(flags)),
      "seccomp_filter" := JNull,
      "dbus_app" := JStr("org.Pharaoh." + package.name),
      "dbus_permissions" := JInt(dbusFlags.notifications)])
    ensures error.None? ==>
      launcher == Some((EntryPath(Show(package.entry)), LauncherText("pharaoh run " + package.name)))
  {
    var entryName := Show(package.entry);
    var entry := DesktopEntry.FromDesktopEntry(EntryPath(entryName), entryText);
    recordPath := RecordPath(appDir, package.name);
    if binListing == [] {
      return Some(IndexError), recordPath, None, None;
    }
    var executable := binListing[0];
    var config := NewConfigBuilder(package.name, appDir + "/usr/bin/" + executable, appDir, entry,
                                   Permissions(GrantedPermissions(flags)), None,
                                   Some("org.Pharaoh." + package.name),
                                   Some(DBusPermissions(dbusFlags.notifications)));
    record := Some(Build(config));
    var sandboxed, entryPath, entryData := SandboxedDesktopEntryFactory(package.name, entryName,
                                                                       "pharaoh run " + package.name, entryText);
    launcher := Some((entryPath, entryData));
    error := None;
  }

  /** The record's entry is the entry's own file name whenever that name holds no '/'. */
  lemma RecordEntryName(entryName: string)
    requires '/' !in entryName
    ensures Basename(EntryPath(entryName)) == entryName
  {
    BasenameOfJoin(EXPORT_DIRECTORY + "/applications", entryName);
    assert EntryPath(entryName) == EXPORT_DIRECTORY + "/applications" + "/" + entryName;
  }
}
