# pharaoh: application records, desktop entries and the installer, in Dafny

pharaoh installs Arch Linux packages as sandboxed applications. This project models the
parts of it that keep records and handle text:

- **The application record** (`src/config.py`, module `Configuration`).
  `ConfigBuilder` turns an installed application's identity, paths, desktop entry and
  permission masks into a nine-key JSON object. `Config.from_config` reads such an object
  back. The record is a map from keys to `Json` values. The two `from_dict` conversions of
  the masks are function parameters, None meaning that they raised.
- **Desktop entries** (`src/desktop.py`, module `Desktop`). `DesktopEntry` is a class whose
  setters update its fields in place. `create_entry` builds the `[Desktop Entry]` text by
  successive appends, and `from_desktop_entry` looks keys up in an entry file's text. The
  sandboxing factory chains these steps.
  - File contents are text parameters.
  - A written file is the path and text the method returns.
  - The rendered text is specified by the function `Rendered`. It is read back by the lookup
    as written and by a corrected line-by-line lookup.
- **The installer** (`src/fetch.py`, module `Fetch`). It covers:
  - the mirror list and `Mirror.from_str`;
  - `Package.from_dict` and the `Package` object;
  - the first-match repository lookup and the download URL;
  - the `.so` shortcut of the installed-check;
  - the dependency loop of `install`;
  - the record and launcher entry written for one package.

  The network, `pacman`, the mirror file, directory listings and `random.choice` are
  parameters. A Python exception is an `Error` value.

Supporting modules:

- `Wrappers` holds `Option` and `Result`.
- `Text` models the Python string operations the code relies on: `in`, `split`, `join`,
  `replace`, `strip` and `os.path.basename`.
- `Masks` models permission masks as natural numbers. Bitwise OR is defined recursively, and
  `HasBit` gives its meaning bit by bit.

What the proofs establish about the program as written:

- Every field `from_desktop_entry` returns is None, for any file text. As a result:
  - the installed record's `icon` is always `null`;
  - the launcher entry is always `[Desktop Entry]`, then `Name=Sandboxed-None`, then the
    `Exec=pharaoh run <name>` line.
- A mirror line whose URL is blank passes the filter, but `Mirror.from_str` then raises
  IndexError, because `strip` removes the tag's trailing space first.
- `install` records the top package before it iterates `depends`, so a package without
  `depends` raises TypeError only after being installed.
- A top package found in no repository fails in the download step. It raises IndexError
  when there are no mirrors and AttributeError otherwise.
- The second `PermissionList.Dbus` in the permission grant changes nothing.
- Loading a record checks only that the nine keys are present and that the two
  `from_dict` calls succeed. It does not check where the executable lives or how the masks
  are laid out.
- The record is written with a plain `open(path, "w")`.

## Model

| member | source | states |
|---|---|---|
| `Text.SplitJoin` | src/fetch.py:30 | joining the pieces of `split` with the separator gives back the text |
| `Text.SplitPieces` | src/fetch.py:30 | `split` gives a second piece exactly when the separator occurs, so `[1]` raises IndexError otherwise |
| `Text.SplitPiecesFree` | src/fetch.py:30 | no piece of a split contains the separator, so `[1]` stops at a second `Server = ` |
| `Text.ReplaceIsSplitJoin` | src/fetch.py:140 | `replace` rewrites every occurrence and nothing else: it equals split-then-join |
| `Text.ReplaceAbsent` | src/fetch.py:140 | a URL without the pattern is left unchanged by `replace` |
| `Text.Strip` | src/fetch.py:185 | what `strip` returns has no white space at either end |
| `Text.RStripTrailingSpace` | src/fetch.py:30 | trailing white space makes no difference to `rstrip` |
| `Text.StripTrimmed` | src/fetch.py:30 | text without white space at its ends is left unchanged by `strip` |
| `Text.BasenameOfJoin` | src/desktop.py:16 | the basename of `dir/name` is `name` when `name` holds no `/` |
| `Masks.OrBit` | src/fetch.py:121-124 | a bit is set in `a \| b` exactly when it is set in `a` or in `b` |
| `Masks.SameBits` | src/fetch.py:121-124 | masks with the same bits are equal |
| `Masks.OrCommutative` | src/fetch.py:121-124 | the order of OR-ed flags does not matter |
| `Masks.OrIdempotent` | src/fetch.py:121-124 | OR-ing a flag with itself adds nothing |
| `Masks.OrAssociative` | src/fetch.py:121-124 | the grouping of OR-ed flags does not matter |
| `Desktop.DesktopEntry.constructor` | src/desktop.py:9-32 | every field is stored as given, `_entry` is the basename of the file name, and neither the NoDisplay nor the sandboxed flag is set |
| `Desktop.DesktopEntry.SetSandboxName` | src/desktop.py:41-43 | the name becomes `Sandboxed-` followed by the old name as an f-string formats it (`None` for no name), the sandboxed flag is set, and nothing else changes |
| `Desktop.DesktopEntry.SetExec` | src/desktop.py:45-46 | only Exec changes, to the command |
| `Desktop.DesktopEntry.SetNoDisplay` | src/desktop.py:48-49 | only the NoDisplay flag changes, to true |
| `Desktop.DesktopEntry.AddCategory` | src/desktop.py:51-52 | `category;` is appended to the categories; with no categories, `+=` raises TypeError and nothing changes |
| `Desktop.DesktopEntry.CreateEntry` | src/desktop.py:54-72 | the text built by the twelve conditional appends and the NoDisplay append is `Rendered` of the entry's fields, and the file written is `EXPORT_DIRECTORY/applications/<entry_name>` |
| `Desktop.RenderedPrefixLines` | src/desktop.py:55-67 | appending the keys one at a time gives the header line followed by one `key=value` line per truthy field, in key order |
| `Desktop.FieldTextByAppends` | src/desktop.py:55-67 | the header followed by the twelve conditional appends, in the order the source writes them, is the header line and the lines of the truthy fields in key order |
| `Desktop.NoDisplayLast` | src/desktop.py:69-70 | the text ends in `NoDisplay=true` exactly when the entry is hidden |
| `Desktop.CommentNotRendered` | src/desktop.py:55-67 | the comment has no influence on the text |
| `Desktop.SplitRendered` | src/desktop.py:55-70 | the lines of the text are the header, the field lines and the last (NoDisplay or empty) line, when no value spans lines |
| `Desktop.GetKeyValue` | src/desktop.py:82-86 | the lookup loop over the characters of the text returns the value of the first one-character string starting with `key=`, or None |
| `Desktop.CharwiseLookup` | src/desktop.py:82-86 | that lookup finds nothing for any non-empty key; only the empty key matches, on any `=` |
| `Desktop.DesktopEntry.FromDesktopEntry` | src/desktop.py:77-115 | the entry read from any text has every field None, `_entry` equal to the basename of the file name, and neither flag set |
| `Desktop.LookupEntryLines` | src/desktop.py:82-86 | in rendered field lines, a line-by-line lookup of a key finds its value when the value is truthy and otherwise reads on |
| `Desktop.RenderedReadsBackByLine` | src/desktop.py:82-86 | a line-by-line lookup of any rendered key in a rendered text gives the field's value when it is truthy and None otherwise |
| `Desktop.RenderedHasNoComment` | src/desktop.py:93 | a line-by-line lookup of `Comment` in a rendered text finds nothing |
| `Desktop.FieldsByLineRoundTrip` | src/desktop.py:88-100 | reading a rendered entry back line by line gives every truthy field unchanged and None for falsy fields and the comment |
| `Desktop.SandboxedDesktopEntryFactory` | src/desktop.py:118-130 | the factory reads and rewrites the same `EXPORT_DIRECTORY/applications/<entry_name>`, sets Exec to the script and then the sandbox name, and writes exactly `[Desktop Entry]`, `Name=Sandboxed-None` and (for a non-empty script) `Exec=<script>` |
| `Desktop.SandboxedRendering` | src/desktop.py:118-130 | the rendering of an entry whose only fields are the sandbox name and the script |
| `Configuration.OptJsonInjective` | src/config.py:77-78 | `None` is written as JSON `null` and a string as itself, so two different optional values are never written the same way and a `null` filter or D-Bus name reads back as None |
| `Configuration.FirstMissing` | src/config.py:35-44 | the first key of the record that is absent, or None when all are present |
| `Configuration.FromConfig` | src/config.py:31-44 | a loaded record always comes from a JSON object, and only the two masks' `from_dict` can report a bad value |
| `Configuration.LoadSucceedsIff` | src/config.py:10-44 | loading succeeds exactly when the object holds all nine keys (the nullable ones too) and both `from_dict` calls succeed; the record then holds the stored values unchanged, with no defaulting |
| `Configuration.LoadReportsFirstMissing` | src/config.py:35-44 | a missing key is reported as the first one in argument order |
| `Configuration.NewConfigBuilder` | src/config.py:49-66 | the arguments are kept, and a missing D-Bus mask becomes `DBusPermissions(0)` |
| `Configuration.BuildShape` | src/config.py:66-80 | the built record has exactly the nine keys; both masks are written as their integers, the D-Bus one 0 when none was given; icon and entry come from the desktop entry |
| `Configuration.BuildThenLoad` | src/config.py:31-80 | reading back what `build` wrote gives the same app, path, icon, executable, entry, filter and D-Bus name, and the masks as `from_dict` makes them from the written integers |
| `Configuration.MasksRoundTrip` | src/config.py:31-80 | with `from_dict` conversions that rebuild a mask from its integer, both masks survive the round trip |
| `Fetch.MirrorFromStr` | src/fetch.py:28-33 | parsing fails, with IndexError, exactly when the line lacks `Server = ` |
| `Fetch.MirrorFromTaggedLine` | src/fetch.py:28-33 | a line `Server = <rest>` gives the text of `<rest>` up to any second `Server = `, stripped of white space at both ends, with every `$arch` replaced by `x86_64` |
| `Fetch.MirrorFromServerLine` | src/fetch.py:28-33 | for a URL with no second tag and no white space at its ends, `Server = <url>` gives the URL itself with every `$arch` replaced by `x86_64` |
| `Fetch.KeptLines` | src/fetch.py:184 | every kept line contains `Server = ` and no `#` |
| `Fetch.KeptLinesMembers` | src/fetch.py:182-187 | a line is kept exactly when it is in the file and passes the filter |
| `Fetch.MirrorsOfIsFilterThenParse` | src/fetch.py:178-187 | reading the mirror file is filtering its lines, in order, then parsing the kept ones |
| `Fetch.ParseAllEach` | src/fetch.py:185 | parsing succeeds exactly when every line parses, giving one result per line in order; otherwise it fails with the error of a failing line before which every line parses |
| `Fetch.MirrorsOfKeptLines` | src/fetch.py:178-187 | the mirror list has one mirror per kept line, parsed from it; it fails, with IndexError, exactly when a kept line loses its tag to `strip` |
| `Fetch.MirrorsOfErrorSticks` | src/fetch.py:183-185 | once a line fails to parse, the lines after it change nothing |
| `Fetch.BlankServerLineFails` | src/fetch.py:184-185 | a `Server = ` line followed only by white space passes the filter and makes reading fail with IndexError |
| `Fetch.FetchMirrors` | src/fetch.py:178-187 | the loop that appends mirrors returns the mirror list of the file's lines |
| `Fetch.FromDictError` | src/fetch.py:71-77 | `from_dict` raises KeyError exactly when pkgname, filename, repo or arch is absent, naming the first of them |
| `Fetch.Package.constructor` | src/fetch.py:38-46 | the fields are stored as given and the entry is None |
| `Fetch.Package.FromDict` | src/fetch.py:71-77 | a package is built from the four required keys, with `depends` None when absent; otherwise the first KeyError |
| `Fetch.Package.RecordEntry` | src/fetch.py:168-169 | the entry becomes the first listed desktop file; an empty listing raises IndexError and changes nothing |
| `Fetch.FirstDecoded` | src/fetch.py:200-208 | no package JSON is found exactly when no repository's answer decodes |
| `Fetch.RepoOrder` | src/fetch.py:200-208 | `core` is asked first and wins when its answer decodes; `extra` is asked otherwise |
| `Fetch.FindPackage` | src/fetch.py:200-208 | the lookup returns the package of the first decoding repository, its KeyError when malformed, and None when none decodes |
| `Fetch.DownloadUrl` | src/fetch.py:138-141 | with no mirrors `random.choice` raises IndexError, and with no package `.repo` raises AttributeError |
| `Fetch.DownloadUrlShape` | src/fetch.py:139-141 | the URL is the chosen mirror's URL with every `$repo` replaced by the repository, then `/` and the file name |
| `Fetch.SharedObjectsNeedNoQuery` | src/fetch.py:189-191 | a name containing `.so` is installed whatever `pacman` says |
| `Fetch.InstalledNeedsQuery` | src/fetch.py:189-198 | any other name is installed only when `pacman -Qq` succeeds; a name with white space at either end never is |
| `Fetch.DepsPlanInstallsOnlyDeps` | src/fetch.py:93-105 | every package the loop installs is one of the listed dependencies that is neither a `.so` nor installed and whose JSON was found, recorded under its JSON `pkgname` |
| `Fetch.DepsPlanInstallsAll` | src/fetch.py:93-105 | when the loop ends without an exception, every listed dependency it would act on was found and its JSON name is among the installed packages |
| `Fetch.DepsPlanErrorSticks` | src/fetch.py:93-105 | once the loop raises, the remaining dependencies change nothing |
| `Fetch.SharedObjectDependencySkipped` | src/fetch.py:95-96 | a `.so` dependency is skipped without a lookup |
| `Fetch.Install` | src/fetch.py:85-105 | the packages installed and the exception raised are those of `InstallPlan`: the loop walks the top package's `depends` although `package` is rebound, and the application directory is `APPLICATION_DIRECTORY/<name>` for every package |
| `Fetch.GrantedPermissionsUnion` | src/fetch.py:121-124 | the grant is exactly the union of Dri, Dbus, Ipc, Pulseaudio and Pipewire; the second Dbus adds nothing |
| `Fetch.InstallPackage` | src/fetch.py:107-130 | the record path is `<app_dir>/<name>.json`; an empty `usr/bin` raises IndexError before either file is written; otherwise the record holds the name, the directory, a null icon, the first binary, the entry's file name, the fixed grant, a null filter, `org.Pharaoh.<name>` and the Notifications mask, and the launcher written over the entry's path has the fixed text |
| `Fetch.RecordEntryName` | src/fetch.py:108-109 | the record's entry is the package's entry file name whenever it holds no `/` |

## Left out

- `src/permissions.py` is not part of this model. The flag values are parameters (`PermissionFlags`, `DBusFlags`), and the masks' `from_dict` conversions are function parameters of `FromConfig`. `Permissions(x).permissions` is taken to be `x`.
- Configuration.FromConfig: the JSON text, the file read and `json.load` are not modelled; the record is the loaded value. `Config.__init__` is the `Config` datatype constructor, which stores its arguments as given.
- Configuration.Build: the file write and the `indent=4` JSON formatting are not modelled; the record is the map `build` dumps.
- Configuration.NewConfigBuilder: a `DBusPermissions` object is taken to be truthy, so `or` keeps any mask that is passed.
- Desktop.DesktopEntry.FromDesktopEntry: the file read is the text parameter, and a missing file is not modelled.
- Desktop.DesktopEntry.CreateEntry: the file write is the returned path and text.
- Desktop.DesktopEntry: the entry fields are optional strings; values of other Python types are not modelled.
- `DesktopEntry.__str__`, the `name` property and the commented-out `create_symlink` call carry no logic and are not modelled.
- Fetch.FindPackage: the HTTP request is the parameter `fetch`, None standing for JSONDecodeError. Network errors and a decoded value that is not an object are not modelled. `PackageJson` keeps only the keys the installer reads.
- Fetch.IsInstalled: the `pacman -Qq` subprocess is the parameter `pacman`, None standing for a non-zero exit. The utf-8 decode is not modelled.
- Fetch.DownloadUrl: `random.choice` is the index parameter `pick`. The download itself, the progress bar and the file written are not modelled.
- Fetch.Install: each package's download, unpacking and `_install_package` step are taken to succeed and are reduced to recording the package's name. `InstallPackage` models `_install_package` for one package on its own. The `print` of each dependency is left out.
- `_package_package` and `_decompress_package` (zstd decompression, tar extraction, `os.remove`, `shutil.copytree`) are I/O and are not modelled, except their last step, the recorded entry name (`Package.RecordEntry`).
- Fetch.FetchMirrors: the mirror file is the sequence of its lines.
- Fetch.InstallPackage: the two file writes are the returned record and launcher, None when nothing is written; the read of the entry file is the text parameter.
- `src/__main__.py` (argument dispatch, the euid check, removal) and the module-level directory creation and environment lookup of `src/__init__.py` are I/O glue and are not modelled. The constants `ARCH`, `REPOS`, `APPLICATION_DIRECTORY` and `EXPORT_DIRECTORY` are inlined.
- The sandbox launcher (`src/launch.py`) is not part of this model.

## Findings

| source | as written | input that shows it | evidently intended | confidence | as-written member | corrected member |
|---|---|---|---|---|---|---|
| src/desktop.py:82-86 | `for line in data` runs over the characters of the file text, so a one-character `line` never starts with `key=` for a non-empty key | the text `[Desktop Entry]\nName=Foo\n` with key `Name` gives None instead of `Foo` | iterate over the lines of the text and return the value of the first `key=` line | not executed | `Desktop.CharwiseLookup` | `Desktop.FieldsByLineRoundTrip` |

`Desktop.GetKeyValue` is the loop as written, and `Desktop.CharwiseLookup` proves that it finds no non-empty key in any text. `Desktop.KeyValueByLine` is the line-by-line reader, `Desktop.FieldsByLine` applies it to each of the thirteen keys, and `Desktop.FieldsByLineRoundTrip` proves that it reads back every truthy field `create_entry` writes. The installer (`FromDesktopEntry`, the factory and `InstallPackage`) keeps the reader as written, because the null icon and the `Sandboxed-None` launcher are what the program actually produces. The corrected reader is stated beside it.
