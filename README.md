# browser_starter, modelled in Dafny

browser_starter is a small command-line tool. It opens a list of URLs in one or more
web browsers. It finds the installed browsers in the Windows registry, or on the
`PATH` under Linux, and keeps a name→path registry (`REGISTERED_BROWSERS`). It can
print that registry as a table. It can also read a parameter file (YAML, JSON or
TOML) that describes several launches. Each launch starts a browser executable and
then opens the URLs, either in order or all at once.

This project models the tool's decision logic and proves properties about it.
Every question the program asks the operating system is an input, collected in
`Discovery.Host`:

- the Windows registry, as two lookup functions that return `Option`;
- `shutil.which`;
- `platform.system()`;
- whether `webbrowser.register` accepts a registration.

The decoded contents of a parameter file are also an input (`ParameterFile.FileState`).

| module (file) | what it models |
|---|---|
| `Base` (base.dfy) | Option, Python truthiness of `Optional[str]`, padding, Python's code-point order on `str` and sorting of distinct names |
| `Registry` (registry.dfy) | `REGISTERED_BROWSERS` as the class `BrowserRegistry` (insertion order plus a map), `register_browser`, and the value-level fold `PutAll` that specifies runs of registrations |
| `WindowsPaths` (windows_paths.dfy) | `get_browser_path_windows` (quote stripping), `get_default_browser_path_windows`, and the `.exe` search `re.search(r'"?([^"]+\.exe)"?', cmd)` written out as a scan over the quote-separated pieces |
| `Discovery` (discovery.dfy) | `get_installed_browsers` (the Windows loop over two keys followed by `sorted`, the Linux filter, and the empty result elsewhere) and `register_all_installed_browsers` |
| `Launch` (launch.dfy) | `main`, `open_urls_ordered` and `open_urls_fast` as a launch plan: which executable each name starts, and which URLs it opens, as a sequence or a multiset |
| `Table` (table.dfy) | `display_registered_browsers` as the list of echoed lines |
| `ParameterFile` (params.dfy) | `load_parameter_file` (suffix dispatch and fallbacks) and `run_with_parameter_file` (the key patterns, one entry's browsers, URLs, mode and registrations, then the whole run) |
| `Cli` (cli.dfy) | `cli` in the current version (`browser_starter/__main__.py`, identical in `tests/cli.py` and `tests/cui.py`) and in the older `tests/__main__.py` |

Each loop of the source is a method with a `while` or `for` loop. The
operations that register browsers update a `BrowserRegistry` in place; the
others return what the loop builds (`GetInstalledWindows`,
`DisplayRegisteredBrowsers`, `StartThreads`, `OpenUrlsOrdered`). Each method is
proved equal to a specification function over values: `CliCurrent`,
`CliOlder`, `RunSpec`, `Interpret`, `Installed`, `WindowsInstalled`, `Render`,
`Plans` or `Strategy`. The lemmas then state what the source promises about
those functions.

## Model

| member | source | states |
|---|---|---|
| `Registry.BrowserRegistry.Register` | browser_starter/__main__.py:338-349 | A successful registration sets the name to the path and leaves every other name unchanged. A failed call leaves the registry as it was. The insertion order keeps an existing name in place. |
| `Registry.Put` | tests/__main__.py:222-233 | After a write, the name maps to the path and every other name keeps its value. The order grows by one only for a new name, and the old order is a prefix of the new one. |
| `Registry.PutOverwrites` | browser_starter/__main__.py:346 | Registering a name twice is the same as registering it once with the second path: the last write wins. |
| `Registry.PutAllLastWins` | browser_starter/__main__.py:338-349 | After any sequence of registrations, a name maps to the path of its last accepted registration. A name with no accepted registration keeps its old value. |
| `Registry.PutAllSelf` | browser_starter/__main__.py:168-178 | When every registration puts a path under its own name, a name ends up under itself exactly when one of its registrations was accepted. Otherwise it keeps its old value. |
| `Registry.PutAllKeepsOrder` | browser_starter/__main__.py:346 | No registration moves or removes a name that is already registered. |
| `Registry.PutAllAppend` | browser_starter/__main__.py:352-358 | Two batches of registrations, one after the other, give the same result as their concatenation. |
| `Registry.Entries` | browser_starter/__main__.py:480 | `REGISTERED_BROWSERS.items()` lists the names in insertion order, each with its registered path. |
| `WindowsPaths.RemoveQuotes` | tests/__main__.py:120 | The result holds no `"`. Its characters are those of the command with every quote removed. |
| `WindowsPaths.RemoveQuotesAppend` | tests/__main__.py:120 | Removing quotes from a concatenation is the same as removing them from each part. |
| `WindowsPaths.RemoveQuotesUnquoted` | tests/__main__.py:120 | A command without quotes comes back unchanged, so stripping is idempotent. |
| `WindowsPaths.BrowserPath` | tests/__main__.py:108-128 | The result is present exactly when the `shell\open\command` value of the name under HKEY_LOCAL_MACHINE can be read. It is then that value with its quotes removed (`RemoveQuotes`, whose lemmas pin it down as deleting every `"` and keeping the rest in order), so it holds no quote. |
| `WindowsPaths.ExeSpanIsRegexGroup` | browser_starter/__main__.py:267 | The span the scan returns is exactly the regex group of the leftmost match. It is None when no quote-free `x.exe` occurs anywhere. Otherwise it starts at the earliest possible position (the start of the command or just after a quote) and is the longest match from there. |
| `WindowsPaths.SearchFromSome` | browser_starter/__main__.py:267 | A span found from position `i` is a match that starts at `i` or just after a quote. No match starts between `i` and it, and no longer match starts where it does. |
| `WindowsPaths.SearchFromNone` | browser_starter/__main__.py:267 | When the scan from `i` finds nothing, no match starts at `i` or later. |
| `WindowsPaths.ExeSearch` | browser_starter/__main__.py:267-276 | The result is None exactly when the command holds no quote-free run of at least one character followed by `.exe`. Otherwise it is `s[a..e]` for the leftmost-longest match (`LeftmostLongest`): it starts at the command's start or just after a quote, no match starts earlier, and no match from `a` ends later. The result is a substring with no quote, at least five characters long, ending in `.exe`. |
| `WindowsPaths.DefaultBrowserPath` | browser_starter/__main__.py:247-281 | A registry failure at the ProgID step or at the command step gives None. When both values can be read, the result is exactly `ExeSearch` of the command, so it is None exactly when the command holds no match. A result is a substring of the command, without quotes, ending in `.exe`, and never empty. |
| `WindowsPaths.ExeSearchQuotedCommand` | browser_starter/__main__.py:267 | For `"C:\b.exe" -- "%1"` the extracted path is `C:\b.exe`. |
| `Discovery.WindowsInstalledSpec` | browser_starter/__main__.py:293-308 | On Windows the names are the union of the subkeys of both `StartMenuInternet` keys, with a key that cannot be opened adding none. Each value is `get_browser_path_windows` of the name, possibly None. The names are strictly ascending in code-point order. |
| `Discovery.AddSubkeys` | browser_starter/__main__.py:301-303 | After the loop over one key's subkeys, the dict holds exactly the names it held before plus those subkeys, and each name's value is its browser path. |
| `Discovery.GetInstalledWindows` | browser_starter/__main__.py:293-308 | The nested loop over both keys, followed by the sort, returns exactly `WindowsInstalled`. |
| `Discovery.KeepFound` | tests/__main__.py:204-208 | The result keeps exactly the names whose `which` is non-empty, with that value, in list order (as a subsequence). |
| `Discovery.LinuxInstalledSpec` | tests/__main__.py:194-208 | On Linux the names are exactly those of the six fixed names that `which` finds, in list order, and each value is what `which` returned. |
| `Discovery.Installed` | browser_starter/__main__.py:284-335 | Defined by its body: the Windows discovery, the Linux filter, or nothing. Its properties are stated by `Discovery.WindowsInstalledSpec`, `Discovery.LinuxInstalledSpec` and `Discovery.InstalledSingleValued`. |
| `Discovery.GetInstalledBrowsers` | browser_starter/__main__.py:284-335 | The result is the one `Installed` describes. macOS and any other system give the empty dict. |
| `Discovery.InstalledSingleValued` | tests/__main__.py:168-219 | Whatever the system, each discovered name has a single value. |
| `Discovery.InstalledRegistrations` | tests/__main__.py:236-242 | A registration is issued exactly for each discovered entry with a non-empty path, and never more registrations than entries. |
| `Discovery.InstalledRegistrationsAppend` | browser_starter/__main__.py:356-358 | Registrations are issued in discovery order. |
| `Discovery.InstalledLookup` | browser_starter/__main__.py:352-358 | After registering the discovered browsers, a discovered name with a non-empty, accepted path maps to that path. |
| `Discovery.InstalledSkipsEmpty` | browser_starter/__main__.py:357 | A name whose discovered path is None or empty keeps its old value. |
| `Discovery.RegisterAllInstalledBrowsers` | browser_starter/__main__.py:352-358 | The loop leaves the registry equal to the old registry with the discovered registrations applied in order. |
| `Launch.OpenUrlsOrdered` | tests/__main__.py:294-301 | Ordered mode opens exactly the given URLs, one at a time, in input order, which is the opening `Strategy` records for ordered mode. |
| `Launch.Strategy` | browser_starter/__main__.py:516 | Defined by its body: ordered mode gives the URLs as a sequence and fast mode the multiset of opens. Its properties are stated by `Launch.OpenUrlsOrdered` and `Launch.FastOpens`. |
| `Launch.FastOpens` | tests/__main__.py:284-291 | Fast mode issues one open per URL: the multiset of opens is that of the URLs, and each URL is opened as often as it occurs. |
| `Launch.Plan` | browser_starter/__main__.py:508-536 | The plan succeeds exactly when every name is in `REGISTERED_BROWSERS`. It then has one launch per name, in order, each starting the registered path with the chosen strategy. Otherwise the error names the first unregistered name. That name fails in `open_urls_in_browser` (lines 377-378): with `webbrowser.Error` from `webbrowser.get` when `webbrowser` cannot locate it, or with `KeyError` from the registry lookup when it can. |
| `Table.MaxLen` | tests/__main__.py:369-370 | The result is at least the length of every string, equals the length of one of them, and is 0 for none. |
| `Table.ColumnWidths` | tests/__main__.py:369-376 | The name width is the larger of 12 and the longest name's length, and the path width the larger of 15 and the longest path's length. Both are reached. |
| `Table.RowLayout` | tests/__main__.py:386-387 | A row is two spaces, the name padded with spaces to the name width, then ` \|>  ` at column 2 + width, then the path. |
| `Table.PathHeadingReplacesSlash` | tests/__main__.py:378-382 | The path heading is `path/to/browser` with every `/` replaced by the platform's slash, a backslash on Windows. |
| `Table.RenderShape` | tests/__main__.py:359-387 | An empty registry gives exactly the line `No browsers registered.`. Otherwise the output is the title, the header, a line of name width + path width + 10 dashes, then one row per browser in registration order. |
| `Table.Render` | browser_starter/__main__.py:471-499 | Defined by its body: the empty message, or the heading followed by the rows. Its properties are stated by `Table.RenderShape`, `Table.ColumnWidths` and `Table.RowLayout`. |
| `Table.DisplayRegisteredBrowsers` | browser_starter/__main__.py:471-499 | The lines echoed by the loop are exactly `Render` of the registry's items. |
| `ParameterFile.DigitsToEnd` | browser_starter/__main__.py:156 | Defined by its body: `\d*$`, ASCII digits to the end with an optional final newline. Its effect is stated by `ParameterFile.BrowserKeyPatterns`. |
| `ParameterFile.NameKey` | browser_starter/__main__.py:156 | Defined by its body: `^(-bn\|--browser-name)\d*$`. Its properties are stated by `ParameterFile.BrowserKeyPatterns`. |
| `ParameterFile.PathKey` | browser_starter/__main__.py:164 | Defined by its body: `^(-bp\|--browser-path)\d*$`. Its properties are stated by `ParameterFile.BrowserKeyPatterns`. |
| `ParameterFile.UrlKey` | browser_starter/__main__.py:183 | Defined by its body: `^(-u\|--urls)`, a prefix test. Its properties are stated by `ParameterFile.UrlAndModeKeyPatterns`. |
| `ParameterFile.ModeKey` | browser_starter/__main__.py:195 | Defined by its body: `^(-f\|--fast\|-o\|--ordered)$`, including the trailing-newline case. Its properties are stated by `ParameterFile.UrlAndModeKeyPatterns` and `ParameterFile.FirstModeMatch`. |
| `ParameterFile.ExactModeKey` | browser_starter/__main__.py:200-203 | Defined by its body: the four keys of the two set tests. Its properties are stated by `ParameterFile.FirstModeKey` and `ParameterFile.UrlAndModeKeyPatterns`. |
| `ParameterFile.BrowserKeyPatterns` | browser_starter/__main__.py:156-164 | A name key is `-bn` or `--browser-name` with digits after it, optionally followed by one newline. `-bnx`, `x-bn` and a key with two newlines are rejected, and a path key needs `-bp`. |
| `ParameterFile.UrlAndModeKeyPatterns` | browser_starter/__main__.py:183-203 | Any key that starts with `-u` or `--urls` selects URLs (so `-uber` does), and `urls` does not. `--ordered\n` matches the mode pattern but is not one of the exact keys, and `-fast` matches neither. |
| `ParameterFile.ValuesWhereSpec` | browser_starter/__main__.py:157-159 | The values collected are exactly those under a matching key. |
| `ParameterFile.ValuesWhereAppend` | browser_starter/__main__.py:157-159 | The values collected keep key order. |
| `ParameterFile.StringsSpec` | browser_starter/__main__.py:187-192 | A URL is kept exactly when it is a string item, and never more URLs than items. |
| `ParameterFile.UrlsSpec` | browser_starter/__main__.py:183-192 | A URL is collected exactly when it is a string item of the value of some key that starts with `-u` or `--urls`, after a list is flattened or a scalar wrapped. |
| `ParameterFile.UrlsAppend` | browser_starter/__main__.py:183-192 | Splitting an entry splits its URL list, so key order is preserved. |
| `ParameterFile.StringsAppend` | browser_starter/__main__.py:187-192 | In-list order is preserved. |
| `ParameterFile.UrlsOfList` | browser_starter/__main__.py:183-192 | A `--urls` list `[a, Other, b, [c]]` gives `[a, b]`: a nested list counts as a non-string item. |
| `ParameterFile.FirstModeKey` | browser_starter/__main__.py:195-205 | The result is the first key exactly equal to one of the four mode keys, or None when no key is. |
| `ParameterFile.FastFlagSpec` | browser_starter/__main__.py:195-205 | The intended mode is fast exactly when some key is `-f` or `--fast` and no mode key comes before it. |
| `ParameterFile.FastFlagIgnoresValues` | browser_starter/__main__.py:196-198 | Only the keys decide the mode. |
| `ParameterFile.FirstModeMatch` | browser_starter/__main__.py:195-198 | The result is the first key that the mode pattern matches, including a key with a trailing newline. |
| `ParameterFile.FastAsWritten` | browser_starter/__main__.py:195-205 | Defined by its body: the value of `fast` the code as written leaves, None for unbound, given its value `prev` from the previous entry. Its properties are stated by `ParameterFile.FastAsWrittenAgrees` and `ParameterFile.FastAsWrittenNewlineKey`. |
| `ParameterFile.FastAsWrittenAgrees` | browser_starter/__main__.py:195-205 | With no mode key that carries a trailing newline, the code as written computes the intended mode. |
| `ParameterFile.FastAsWrittenNewlineKey` | browser_starter/__main__.py:195-205 | The key `-f\n` leaves `fast` unbound for the first entry and stale for later ones, while the intended mode is ordered. |
| `ParameterFile.Interpret` | browser_starter/__main__.py:152-205 | Defined by its body: the browsers (names, then paths, then the default when neither exists), the URLs and the intended mode `FastFlag`. Its properties are stated by `ParameterFile.InterpretEntry`, `ParameterFile.UrlsSpec` and `ParameterFile.FastFlagSpec`. |
| `ParameterFile.PathRegsSpec` | browser_starter/__main__.py:168-170 | The registrations of the path values are exactly the string paths, each under itself. |
| `ParameterFile.EntryRegsSelf` | browser_starter/__main__.py:168-178 | Every registration an entry issues puts a path under its own name. |
| `ParameterFile.EntryRegistersPaths` | browser_starter/__main__.py:164-178 | After an entry, every accepted string path value names itself. A name that is neither a path value nor the chosen default keeps its value. |
| `ParameterFile.RegisterPaths` | browser_starter/__main__.py:168-170 | The path loop leaves the registry with the path registrations applied in order. |
| `ParameterFile.AddDefault` | browser_starter/__main__.py:174-180 | The default browser is registered and appended only when the list is empty and a default exists. |
| `ParameterFile.InterpretEntry` | browser_starter/__main__.py:152-205 | One entry gives the browsers (names, then paths, then the default when neither exists), its URLs and its mode, and leaves the registry with exactly the entry's registrations applied. |
| `ParameterFile.LastIndexBelow` | browser_starter/__main__.py:115 | The result is the last index of the character below `n`, or None when it does not occur there. |
| `ParameterFile.LastSeparatorBelow` | browser_starter/__main__.py:115 | The result is the last path separator below `n` (`/`, and on Windows also `\`), or None when there is none. |
| `ParameterFile.FileName` | browser_starter/__main__.py:113-115 | The file name holds no separator and is never `.`. A path without a separator is its own name, except that `.` has the empty name. |
| `ParameterFile.Suffix` | browser_starter/__main__.py:115 | The suffix is empty or a dot followed by at least one character. |
| `ParameterFile.SuffixSpec` | browser_starter/__main__.py:115 | A non-empty suffix is the name from its last dot on, and no dot follows it. The suffix is empty exactly when no dot lies strictly inside the name with no dot after it. |
| `ParameterFile.FormatOf` | browser_starter/__main__.py:117-124 | Defined by its body: the loader chosen for a suffix. Its properties are stated by `ParameterFile.FormatOfSpec`. |
| `ParameterFile.FormatOfSpec` | browser_starter/__main__.py:117-124 | `.yml`/`.yaml` choose YAML, `.json` JSON and `.toml` TOML. The match is exact and case-sensitive. |
| `ParameterFile.LoadParameterFile` | browser_starter/__main__.py:112-142 | A missing file gives the empty mapping, whatever the suffix. Otherwise, an unknown suffix gives None, a decode error gives the empty mapping, and a file that decodes gives its decoded value. |
| `ParameterFile.FileNameOfJoined` | browser_starter/__main__.py:113-115 | The name of `dir` + separator + `name` is `name` whenever `name` is a proper component, whichever separator is used (on Windows `\` as well as `/`). |
| `ParameterFile.FileNameTrailing` | browser_starter/__main__.py:113-115 | A trailing separator or a trailing `.` component does not change the name (`a/` and `a/.` are both named `a`). |
| `ParameterFile.SuffixOfJoined` | browser_starter/__main__.py:115 | The suffix of `stem.ext` is `.ext`. |
| `ParameterFile.LoadBySuffix` | browser_starter/__main__.py:112-128 | For `dir/stem.ext` the loader is chosen by `.ext` alone, whatever the directories are. |
| `ParameterFile.SuffixExamples` | browser_starter/__main__.py:115-124 | `params.YAML` has an unknown suffix, and `.yaml` alone has none. |
| `ParameterFile.FirstNonTable` | browser_starter/__main__.py:148-151 | The result is the index of the first entry that is not a mapping, or the number of entries when every entry is one. |
| `ParameterFile.BrowserStrings` | browser_starter/__main__.py:212-214 | A browser list of strings is passed on unchanged. |
| `ParameterFile.RunWithoutMapping` | browser_starter/__main__.py:148 | A loaded value that is not a mapping stops the run before anything is registered. |
| `ParameterFile.AllRegsSelf` | browser_starter/__main__.py:151-178 | Across all entries, every registration puts a path under its own name. |
| `ParameterFile.InterpretEntries` | browser_starter/__main__.py:151-214 | The loop over the entries stops at the first entry that is not a mapping, having applied exactly the registrations of the entries before it. When every entry is a mapping, it returns what each entry hands to `main`, in order. |
| `ParameterFile.StartThreads` | browser_starter/__main__.py:216-221 | Starting the threads in order gives one plan per entry, each against the same registry. |
| `ParameterFile.RunSpec` | browser_starter/__main__.py:145-221 | Defined by its body: the registrations of the entries up to the first one that is not a mapping, then `Crashed` or, after the last entry, the plans of all threads against the final registry. Its properties are stated by `ParameterFile.RunWithoutMapping`, `ParameterFile.AllRegsSelf` and `ParameterFile.RunWithParameterFile`. |
| `ParameterFile.RunWithParameterFile` | browser_starter/__main__.py:145-221 | The run registers each mapping entry's browsers in order and stops at the first entry that is not a mapping. Otherwise it plans one `main` per entry against the final registry. The result is exactly `RunSpec`. |
| `Cli.SelfRegs` | browser_starter/__main__.py:626-627 | One registration per explicit path, each under itself, in order. |
| `Cli.SelectionRegs` | browser_starter/__main__.py:615-631 | Defined by its body: the default browser under itself when it is used, then every path under itself. Its properties are stated by `Cli.SelectionRegsSelf` and `Cli.SelectionRegisters`. |
| `Cli.Selected` | browser_starter/__main__.py:615-631 | Defined by its body: the default browser when it is used, then the paths, then the names. Its properties are stated by `Cli.SelectedOrder`. |
| `Cli.SelectedOrder` | tests/__main__.py:485-501 | With no names and no paths the browsers are the default alone, or none when there is no default. Otherwise they are the paths in order followed by the names in order. |
| `Cli.SelectionRegsSelf` | tests/cli.py:94-107 | Each selection registration puts a name under itself, and a name is registered exactly when it is an explicit path or the default chosen. |
| `Cli.SelectionRegisters` | tests/cui.py:94-107 | After the selection, an explicit path or the chosen default that was accepted names itself, and every other name keeps its value. |
| `Cli.SelectBrowsers` | tests/cli.py:94-110 | The list-building code leaves the registry with the selection registrations applied and returns `Selected`. |
| `Cli.MergeUrls` | tests/cui.py:114-124 | The URLs are rejected exactly when both `--urls` and the bare URLs are non-empty. Otherwise the result is one of the two, holds every URL given, and has the total length of both. |
| `Cli.CliCurrent` | browser_starter/__main__.py:580-647 | Defined by its body: help, then the installed browsers registered, then the listing, the parameter file, or the selection and launch. Its properties are stated by `Cli.RunCli`, `Cli.ListingStops`, `Cli.ParameterFileIgnoresOptions`, `Cli.ExplicitPathWins`, `Cli.MixedUrlsOpenNothing`, `Cli.PathsAreLaunchedAsGiven` and `Cli.NamedInstalledBrowser`. |
| `Cli.RunCli` | browser_starter/__main__.py:580-647 | The current `cli` ends in exactly the registry and outcome given by `CliCurrent`. |
| `Cli.ListingStops` | tests/cli.py:69-74 | `--browser-list` registers the installed browsers and prints the table, whatever the file or browser options are. |
| `Cli.ParameterFileIgnoresOptions` | tests/cli.py:77-92 | With a parameter file, the registry and the run do not depend on names, paths, URLs or mode. A missing file runs nothing. The warning is printed exactly when a name, a path or `--urls` was given. |
| `Cli.ExplicitPathWins` | tests/cui.py:69-107 | In the current version an accepted explicit path names itself once the launch is prepared, whatever was installed under that name. |
| `Cli.MixedUrlsOpenNothing` | tests/cui.py:114-120 | Mixed URLs end in `MixedUrls` after the registrations made before the check: installed plus selection in the current version, selection only in the older one. |
| `Cli.PlanSelf` | tests/__main__.py:398-403 | When every name is registered under itself, each is launched as itself. |
| `Cli.PathsAreLaunchedAsGiven` | tests/cli.py:94-126 | Given only accepted paths, there is one launch per path, in order, each starting the path itself with the merged URLs and the chosen mode. |
| `Cli.PathSelection` | tests/cui.py:94-110 | With no names, the browsers are the paths alone. When every path is accepted, each is launched as itself, whatever the registry held before. |
| `Cli.NamedInstalledBrowser` | browser_starter/__main__.py:615-647 | `--browser-name NAME --urls A --urls B --ordered`, for a NAME found installed at a non-empty path, launches that path once and opens A, then B. |
| `Cli.MainRegistering` | tests/__main__.py:390-415 | The older `main` registers the installed browsers first, then plans against that registry. |
| `Cli.CliOlder` | tests/__main__.py:457-517 | Defined by its body: the missing `--config` path first, then help, the listing, the unimplemented config, or the selection and the older `main`. Its properties are stated by `Cli.RunOlderCli`, `Cli.ConfigOnlyAnnounced`, `Cli.InstalledWinsInOlder`, `Cli.OlderLaunchesInstalled` and `Cli.VersionsDisagreeOnCollision`. |
| `Cli.RunOlderCli` | tests/__main__.py:457-517 | The older `cli` ends in exactly the registry and outcome given by `CliOlder`. |
| `Cli.ConfigOnlyAnnounced` | tests/__main__.py:474-483 | The older `--config` registers and launches nothing. It warns exactly when a name or a path was given; URLs play no part. |
| `Cli.InstalledWinsInOlder` | tests/__main__.py:398 | In the older version an installed browser beats an explicit entry of the same name, and is the path launched for that name. |
| `Cli.CurrentLaunchesPath` | tests/cli.py:104-126 | A single explicit path is launched as itself by the current version. |
| `Cli.OlderLaunchesInstalled` | tests/__main__.py:495-517 | A single explicit path that is also an installed name is launched with the installed path by the older version. |
| `Cli.VersionsDisagreeOnCollision` | tests/__main__.py:398 | For such a collision, the two versions plan different launches. |

## Left out

- Concurrency and timing: the threads of a parameter-file run, `asyncio.gather`, the sleeps in `open_url` and `open_urls_in_browser`, and the elapsed-time logging. A run is modelled as its plans. All threads start after the loop, so every plan reads the final registry.
- `get_start_page` and `subprocess.Popen`. The temporary HTML page, its removal at exit, and the exact argument list of the started process are I/O. A `Launch` records only the name, the executable and the URLs.
- `log_setting`, `load_config` and all logging: these are file I/O with no effect on the decisions.
- click's own work. Option parsing and the help text are not modelled; `Options` holds the parsed values. The default value of `-pf` given without a path (`~/.browser_starter/browser_starter_parameter.yaml`) is just a string in `Options.file`. Of `click.Path(exists=True)`, only the existence test is kept (`ConfigMissing`).
- Decoding YAML, JSON and TOML, which is a library's work. `FileState` is either the decoded value, a decode error, or a missing file. A file that exists but cannot be read raises an exception that the source does not catch, and that case is not modelled.
- `Launch.Plan`: a name not in `REGISTERED_BROWSERS` fails either with `webbrowser.Error` or with `KeyError`, and both are recorded as `Unregistered` of the first such name. Which of the two is raised depends on how `webbrowser.get` searches, which is outside the model. Processes already started by the other tasks before `gather` raises are not recorded.
- `Launch.FastOpens`: only the multiset of opens is stated, because that is the guarantee `asyncio.gather` gives. CPython's event loop starts the gathered `open_url` tasks in input order, but the model does not promise that order.
- `ParameterFile.InterpretEntry`: each entry's mode is the intended `FastFlag` (see Findings), not what lines 195-210 compute. For an entry whose first pattern-matched mode key is not one of the four exact keys (such as `"-f\n"`), the source leaves `fast` unassigned. On the first entry, reading it in the log message at line 209 raises `UnboundLocalError` after that entry's registrations and before any thread starts; on a later entry the previous entry's mode is reused. `ParameterFile.FastAsWritten` models that per entry, but the run does not.
- `ParameterFile.Interpret`: carries the intended mode, as stated for `ParameterFile.InterpretEntry`.
- `ParameterFile.InterpretEntries`: returns runs with the intended mode, as stated for `ParameterFile.InterpretEntry`.
- `ParameterFile.RunSpec`: gives `Ran` where the source raises `UnboundLocalError` on a first entry with a newline mode key, as stated for `ParameterFile.InterpretEntry`.
- `ParameterFile.RunWithParameterFile`: equals `RunSpec`, so it uses the intended mode, as stated for `ParameterFile.InterpretEntry`.
- `Cli.RunCli`: the parameter-file branch of `CliCurrent` runs `RunSpec`, so it uses the intended mode, as stated for `ParameterFile.InterpretEntry`.
- `ParameterFile.EntryPlan`: a browser value that is not a string gives `NotAString` for the whole entry. Which task fails first, and what it had launched by then, is not modelled.
- `ParameterFile.FileName`: `Path.absolute()` is not modelled. It only matters for a path made only of `.` components and separators (including the empty path), whose name then comes from the working directory; the model gives the empty name there. A `..` component is a name, as it is for `pathlib`. Windows drive letters and UNC anchors are treated as ordinary characters.
- `ParameterFile.NameKey`: `\d` is modelled as ASCII digits only, while Python also accepts other Unicode decimal digits. The end-of-line `$` is modelled with its trailing-newline case.
- Keys of a parameter-file entry are strings. A non-string key (possible in YAML) makes `re.match` raise, and that case is not modelled.
- `webbrowser.register` is a parameter (`Host.accepted`). Its lower-casing of names inside `webbrowser` is outside the model; `REGISTERED_BROWSERS` keeps the name as given.
- `import winreg` at the top of both main files fails on systems other than Windows. The Linux and macOS branches of `get_installed_browsers` are modelled as written, as if the import succeeded.
- The help path: `cli.main(["--help"])` prints the help and ends the process, so the model's `Help` outcome leaves the registry untouched. The help text itself is not modelled.

## Findings

| source | as written | input that shows it | evidently intended | confidence | as-written member | corrected member |
|---|---|---|---|---|---|---|
| browser_starter/__main__.py:195-205 | The mode keys are collected with `re.match(r"^(-f\|--fast\|-o\|--ordered)$", key)`, whose `$` also matches before a final newline. The first collected key is then compared only with the four exact keys. A key such as `"-f\n"` is collected but assigns nothing to `fast`, so `fast` is unbound on the first entry (`UnboundLocalError`) and keeps the previous entry's mode on later ones. | a parameter-file entry whose only mode key is `"-f\n"` | The first key exactly equal to `-f`, `--fast`, `-o` or `--ordered` decides the mode, and a run with no such key is ordered. | not executed | `ParameterFile.FastAsWrittenNewlineKey` | `ParameterFile.FastFlagSpec` |
