# clash_updater, modelled in Dafny

clash_updater is a small command-line tool that updates an installed
Clash for Windows. Its `update` command works in this order:

1. It reads a JSON configuration.
2. It fetches the latest release description from a release feed.
3. It reads the installed program's file version.
4. It compares the two versions and stops if the installed one is at least
   as new.
5. Otherwise it picks the one release asset whose name matches a configured
   pattern and downloads it to `clash.for.windows.7z` beside the program.
6. It kills every process running under the program's file name.
7. It unpacks the archive with 7-Zip.

This project models the decision logic under that glue and proves what it
does:

- **Versions** (`Versions.dfy`, with `Strings.dfy`): `parse_version` as
  Python runs it. `str.split(".")`, `int()` on the first three fields, and
  the left-to-right order that decides which exception escapes. The `>=`
  on the resulting tuples is modelled as well.
- **Assets** (`Assets.dfy`): `get_download_url`, an order-preserving filter
  followed by the exactly-one assertion. The regular-expression test is a
  parameter (`Matcher`), so every result holds for any matcher.
- **Processes** (`Processes.dfy`, with `Paths.dfy`): the selection rule of
  `kill_process`, a loop over an array of process records that sets the
  `killed` flag of every process whose name equals the path's basename.
  `Paths.dfy` models the Windows `os.path.basename`, `dirname` and `join`
  on paths without a drive or UNC prefix.
- **Requests** (`Http.dfy`): the proxies mapping and the request that
  `get_release_information` and `download_file` build.
- **Commands** (`Cli.dfy`): `update` is the method `Host.Update`. It
  appends every step it performs to a trace: echoes, fetching, reading the
  version, opening, downloading, killing, closing, extracting. It updates
  the process table in place. The pure function `UpdateSession` specifies
  the method, and the lemmas about that function state the early exit, the
  order of the steps, the proxy handling and where the archive goes.
  `config` only echoes its three options.

Foreign calls become inputs:

- the configuration record (`Config`), in place of `parse_config`;
- the release record (`Release`), in place of `get_release_information`'s
  response;
- the version string, in place of `get_current_version`;
- the process table, in place of `psutil.process_iter()`.

### Behaviour worth noting

The model follows the code, including these points:

- **Later version fields.** A fourth or later field is ignored, so
  "1.5.0.0" parses as (1, 5, 0) (`Versions.ParseIgnoresLaterFields`).
- **Extraction failures.** 7-Zip runs without a check of its exit status,
  so a failed extraction still ends the run as `Updated`.
- **When the archive is closed.** The archive file stays open until
  `kill_process` has run and is closed only then (`Cli.UpdateStepOrder`).
- **Malformed versions.** A missing field raises an IndexError and a field
  that is not an integer raises a ValueError. Which one escapes depends on
  which field Python reaches first: "a" gives a ValueError, not an
  IndexError (`Versions.ParseVersion`).

## Model

| member | source | states |
|---|---|---|
| `Strings.Split` | update.py:12 | `str.split` always yields at least one field, so `s[0]` of the split never fails |
| `Strings.SplitFieldsNoSep` | update.py:12 | no field produced by the split contains a '.' |
| `Strings.JoinSplit` | update.py:12 | the split loses nothing: joining the fields with '.' gives back the string |
| `Strings.SplitJoin` | update.py:12 | splitting '.'-joined separator-free fields gives back exactly those fields |
| `Strings.SplitAppend` | update.py:12 | splitting `a + "." + b` gives the fields of `a` followed by the fields of `b` |
| `Strings.ParseNat` | update.py:14 | `int(field)` succeeds exactly on non-empty digit strings (leading zeros allowed) |
| `Strings.Decimal` | update.py:14 | `str(n)` is a non-empty digit string without a leading zero, so `int()` accepts it |
| `Strings.ParseDecimal` | update.py:14 | `int(str(n)) == n` for every natural n |
| `Versions.Field` | update.py:14 | `int(fields[i])` fails with a missing-field error past the end, with a not-an-integer error on a non-numeral, and otherwise returns that field's value |
| `Versions.ParseVersion` | update.py:11-14 | succeeds exactly when there are three or more fields and the first three are numerals. The triple is those three fields' values. On failure the error names the first of the three fields that is missing (index = field count) or not an integer, and every field before it parsed |
| `Versions.ParseRender` | update.py:11-14 | round trip: parsing "a.b.c", optionally followed by more '.'-fields, yields (a, b, c) |
| `Versions.ParseIgnoresLaterFields` | update.py:12-14 | with at least three fields, appending "." and anything else does not change the result |
| `Versions.TooFewFieldsFail` | update.py:12-14 | fewer than three fields always fails, and never blames a present numeric field |
| `Versions.TwoFieldsExample` | update.py:14 | "1.2" fails for its missing third field (the IndexError) |
| `Versions.NonNumericExample` | update.py:14 | "a.b.c" fails on field 0 "a" (the ValueError) |
| `Versions.AtLeast` | cli.py:32 | the version test equals Python's `>=` on the tuples (major, minor, patch), defined independently as a sequence comparison in which the first difference decides and a sequence is at least each of its prefixes |
| `Versions.AtLeastReflexive` | cli.py:32 | equal versions count as up to date |
| `Versions.AtLeastAntisymmetric` | cli.py:32 | two versions each at least the other are equal |
| `Versions.AtLeastTransitive` | cli.py:32 | the comparison is transitive |
| `Versions.AtLeastTotal` | cli.py:32 | any two versions are comparable |
| `Versions.OrderExamples` | cli.py:32 | 2.0.0 is at least 1.9.9; 1.2.3 is not at least 1.2.4 |
| `Paths.TailStartSpec` | update.py:77 | the basename starts at 0 or right after a separator, and contains no separator |
| `Paths.Basename` | update.py:77 | `os.path.basename` is no longer than the path, and is empty exactly when the path is empty or ends with a separator |
| `Paths.BasenameSpec` | update.py:77 | `os.path.basename` returns the separator-free suffix after the last '\\' or '/' |
| `Paths.StripTrailingSepsSpec` | cli.py:40 | `rstrip` of the separators leaves a prefix that does not end with a separator, and removes only separators |
| `Paths.Dirname` | cli.py:40 | `os.path.dirname` and the basename together are no longer than the path, and the dirname is empty exactly when the basename is the whole path |
| `Paths.DirnameSpec` | cli.py:40 | `os.path.dirname` is a prefix of the path, followed by only separators up to the basename; it is empty, a root of separators, or does not end in a separator; and when it is empty or only separators it is everything before the basename |
| `Paths.Join` | cli.py:40 | `os.path.join` returns a name that starts with a separator unchanged, dropping the directory; onto any other name it adds at most one character between directory and name, and adds one exactly when the directory is non-empty and does not end with a separator |
| `Paths.JoinSpec` | cli.py:40 | onto a name that does not start with a separator, the joined path starts with the directory, ends with the name, and the one character added between them is a backslash |
| `Paths.JoinSplits` | cli.py:40 | joining a separator-free file name onto such a directory gives a path whose dirname is that directory and whose basename is that name |
| `Http.Proxies` | update.py:26-31 | no proxies mapping when the proxy is None; otherwise exactly the keys "http" and "https", both mapped to the proxy |
| `Http.Request` | update.py:32-37 | the GET goes to the given URL with User-agent "Mozilla/5.0", and carries a proxies mapping exactly when a proxy is given |
| `Assets.Matching` | update.py:52-53 | the filtered list keeps exactly the assets whose name matches, and is no longer than the input |
| `Assets.MatchingAppend` | update.py:52 | the filter keeps the original order: filtering a concatenation concatenates the filtered parts |
| `Assets.MatchingMultiset` | update.py:52-53 | each matching asset occurs as often after the filter as before, and each other asset does not occur |
| `Assets.GetDownloadUrl` | update.py:51-56 | a result is the browser_download_url of some asset whose name matches; a failure reports a match count other than one |
| `Assets.UniqueMatchSelected` | update.py:51-56 | when exactly the asset at index i matches, the result is that asset's URL |
| `Assets.NoMatchFails` | update.py:54 | with no matching asset the assertion fails, reporting zero matches |
| `Assets.AmbiguousMatchFails` | update.py:54 | with two matching assets the assertion fails, reporting at least two matches |
| `Assets.OrderIrrelevant` | update.py:52-56 | any reordering of the asset list gives the same result |
| `Processes.KillNamed` | update.py:79-82 | the kill rule visits every process once: the table keeps its length (`KillNamedAt` gives each position) |
| `Processes.KillNamedAt` | update.py:79-82 | a process is killed exactly when its name equals the file name; all other processes and all other fields stay as they were |
| `Processes.KillProcess` | update.py:76-82 | after the loop the process table is the old one with exactly the processes named like `basename(path)` killed |
| `Processes.NoMatchNoChange` | update.py:79-82 | with no process of that name the table is unchanged |
| `Processes.KillIdempotent` | update.py:76-82 | running the kill twice has the effect of running it once |
| `Processes.Survivors` | update.py:81-82 | a process is still running afterwards exactly when it ran before under another name; pids are kept |
| `Cli.ProxyLine` | cli.py:23-26 | "Update without proxy" is printed exactly when the proxy is absent or empty; otherwise the line is "Using proxy: " followed by the proxy |
| `Cli.ArchivePath` | cli.py:40 | the archive path starts with the program's dirname and ends with clash.for.windows.7z |
| `Cli.ExtractCommand` | update.py:85-87 | the 7-Zip command line is the configured tool, "x", "-y" and the archive path |
| `Cli.IsUpToDate` | cli.py:32 | both versions must parse, the installed one first, so its error wins; the answer is the tuple `>=` |
| `Cli.UpdateSession` | cli.py:20-49 | every run starts with the five prelude steps; an up-to-date run has 6 steps, an updated run 14 and a failed run only the 5 of the prelude |
| `Cli.OutcomeCases` | cli.py:32-36 | up to date exactly when the comparison says so; updated exactly when it does not and one asset matches; a version failure exactly when a version does not parse; an asset failure exactly when an update is needed but the selection fails |
| `Cli.UpToDateStopsEarly` | cli.py:32-34 | when up to date, the only effects are the release fetch and the version read, the last line is "Up to date.", and the assets, pattern and matcher make no difference |
| `Cli.FailureStopsEarly` | cli.py:21-36 | a failed run has only fetched the release and read the version: nothing opened, downloaded, killed or extracted |
| `Cli.UpdateStepOrder` | cli.py:36-49 | when an update is needed, the selected URL is printed right after the comparison, and the effects are exactly, in order: fetch, read version, open the archive, download into it through the configured proxy, kill by `config["path"]`, close, extract in `dirname(config["path"])` with `unzip x -y archive` |
| `Cli.ProxyHandling` | cli.py:22-27 | "Using proxy: p" is printed only for a non-empty proxy, and every fetch and download request carries the proxies mapping of the configured proxy, unchanged |
| `Cli.EmptyProxyExample` | cli.py:22-26 | an empty proxy prints "Update without proxy" yet the fetch still carries the mapping {"http": "", "https": ""} |
| `Cli.ArchiveBesideExecutable` | cli.py:40 | the archive's dirname is the program's dirname and its basename is clash.for.windows.7z |
| `Cli.SameVersionExample` | cli.py:32-34 | installed "1.5.0" and released "1.5.0": up to date, with no download, kill or extraction in the trace |
| `Cli.NewerVersionExample` | cli.py:36-49 | installed "1.4.0", released "1.5.0", one matching asset: updated, with that asset downloaded, processes killed and the archive extracted |
| `Cli.ConfigEchoes` | cli.py:56-59 | `config` prints three lines (the flag as True/False, each option or an empty line) and has no effect |
| `Cli.Host.Announce` | cli.py:21-30 | appends the proxy announcement, the release fetch, the latest version, the version read and the current version to the trace |
| `Cli.Host.Replace` | cli.py:37-49 | appends the installation steps to the trace and kills, in the process table, exactly the processes named like the program |
| `Cli.Host.Update` | cli.py:20-49 | outcome and appended trace are those of `UpdateSession`; the process table changes, by the kill rule, only in a run that ends updated |
| `Cli.Host.ConfigCommand` | cli.py:56-59 | appends the three echoes and changes nothing else (only the trace is in its frame) |

## Left out

- HTTP, JSON and file reading are not modelled: `requests.get`, `response.json()`, `parse_config`. They are network and file I/O. The release description and the configuration are input records, so a missing key, a value of another JSON type or malformed JSON is not modelled.
- `get_current_version` runs PowerShell; its output is the `current` input string.
- The bytes that `download_file` writes into the archive are not modelled. The trace records where the download goes and which request fetches it.
- `Http.Request`: of the default `requests` headers, only the replaced User-agent is modelled.
- `psutil` enumeration and `proc.kill()` are foreign calls. The process table is an array the model updates. Kill errors (a process that already exited, access denied) are not modelled, and neither is the race with processes started during the loop.
- `extract_file` calls `os.chdir` and runs 7-Zip. The model records the working directory and the command line as one step. What 7-Zip does to the installation is not modelled.
- Failures of the effects themselves are not modelled: opening the archive, the download, the kill, the extraction. In the model every effect succeeds. Only version parsing and asset selection fail.
- The regular-expression engine behind `re.match` is a foreign library, so `Assets.Matcher` is a parameter. That `re.match` anchors at the start of the name is not stated.
- `Strings.ParseNat`: accepts only non-empty ASCII digit strings. Python's `int()` also accepts surrounding whitespace, a sign (so "-1" parses), `_` digit separators and non-ASCII digits. Those inputs fail in the model.
- `Versions.ParseVersion`: version fields are naturals, so a negative field that Python would accept is not modelled.
- `Paths.Dirname`: drive prefixes ("C:name") and UNC prefixes, which `ntpath` splits off first, are not modelled. `Paths.Basename` and `Paths.Join` have the same gap.
- The click decorators, the text layout of `click.echo` and the default configuration path taken from `USERPROFILE` are user interface and environment. Printed lines are kept as `Echo` steps with their text.
