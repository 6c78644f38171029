/**
 * The `cli` command in its two versions. `browser_starter/__main__.py` (and
 * its copies `tests/cli.py` and `tests/cui.py`) registers the installed
 * browsers first, lists them or runs a parameter file. The older
 * `tests/__main__.py` registers the installed browsers inside `main`, after
 * the browsers named on the command line, and only announces its `--config`
 * option.
 *
 * Option parsing is click's work: the model starts from the parsed values.
 */
module Cli {
  import opened Base
  import opened Registry
  import opened WindowsPaths
  import opened Discovery
  import opened Launch
  import opened Table
  import opened ParameterFile

  /** The parsed command line. */
  datatype Options = Options(
    /** `-bn`/`--browser-name`, in the order given. */
    names: seq<string>,
    /** `-bp`/`--browser-path`, in the order given. */
    paths: seq<string>,
    /** `-pf`/`--parameter-file` (or `-c`/`--config` in the older version). */
    file: Option<string>,
    /** `-f`/`--fast` against `-o`/`--ordered`, ordered by default. */
    fast: bool,
    /** `-l`/`-bl`/`--browser-list`. */
    browserList: bool,
    /** `-u`/`--urls`, in the order given. */
    urls: seq<string>,
    /** The URLs given without an option name. */
    positional: seq<string>,
    /** `len(sys.argv) == 1`: the program was called without any argument. */
    noArguments: bool)

  /** What one call of `cli` ends in. */
  datatype Outcome =
    | Help
      /** The lines `display_registered_browsers` echoes. */
    | Listed(lines: seq<string>)
      /** The parameter file does not exist: a warning is logged and nothing runs. */
    | ParameterFileMissing
      /** The parameter file ran; `warned` is the warning that other options are ignored. */
    | ParameterFileRun(warned: bool, run: ParamRun)
      /** `click.Path(exists=True)` rejected the `--config` path before `cli` ran. */
    | ConfigMissing
      /** The older version's `--config`: a notice and nothing else. */
    | ConfigNotImplemented(warned: bool)
      /** Both `--urls` and URLs without an option name: a warning and nothing opens. */
    | MixedUrls
      /** `main(browsers, urls, fast)` and the plan it carries out. */
    | Launched(browsers: seq<string>, urls: seq<string>, fast: bool, plan: PlanResult)

  // ---------------------------------------------------------------------
  // Choosing the browsers

  /** The default browser is looked up only when no name and no path is given. */
  predicate UsesDefault(names: seq<string>, paths: seq<string>, default: Option<string>) {
    names == [] && paths == [] && Truthy(default)
  }

  /** `register_browser(path, path)` for every path, in order. */
  function SelfRegs(paths: seq<string>): (r: seq<Registration>)
    ensures |r| == |paths| && forall i :: 0 <= i < |paths| ==> r[i] == (paths[i], paths[i])
  {
    seq(|paths|, i requires 0 <= i < |paths| => (paths[i], paths[i]))
  }

  lemma SelfRegsSnoc(paths: seq<string>, i: nat)
    requires i < |paths|
    ensures SelfRegs(paths[..i + 1]) == SelfRegs(paths[..i]) + [(paths[i], paths[i])]
  {
    var a := SelfRegs(paths[..i + 1]);
    var b := SelfRegs(paths[..i]) + [(paths[i], paths[i])];
    assert |a| == |b|;
    forall k | 0 <= k < |a| ensures a[k] == b[k] {
      if k < i {
        assert paths[..i + 1][k] == paths[..i][k];
      }
    }
  }

  /** The registrations of the selection: the default browser under itself, then every path. */
  function SelectionRegs(names: seq<string>, paths: seq<string>, default: Option<string>): seq<Registration> {
    (if UsesDefault(names, paths, default) then [(default.value, default.value)] else []) + SelfRegs(paths)
  }

  /** The browsers handed to `main`: the default browser, then the paths, then the names. */
  function Selected(names: seq<string>, paths: seq<string>, default: Option<string>): seq<string> {
    (if UsesDefault(names, paths, default) then [default.value] else []) + paths + names
  }

  /**
   * Every path given is selected before every name given, each in the order
   * given, and the default browser is selected exactly when there are
   * neither, as the only browser.
   */
  lemma SelectedOrder(names: seq<string>, paths: seq<string>, default: Option<string>)
    ensures UsesDefault(names, paths, default) ==> Selected(names, paths, default) == [default.value]
    ensures !UsesDefault(names, paths, default) ==>
      var r := Selected(names, paths, default);
      && |r| == |paths| + |names|
      && (forall i :: 0 <= i < |paths| ==> r[i] == paths[i])
      && (forall i :: 0 <= i < |names| ==> r[|paths| + i] == names[i])
  {
    if !UsesDefault(names, paths, default) {
      var r := Selected(names, paths, default);
      assert r == paths + names;
    }
  }

  /**
   * Every registration of the selection registers a name under itself, and
   * `p` is registered exactly when it is a path given or the default browser
   * selected.
   */
  lemma SelectionRegsSelf(names: seq<string>, paths: seq<string>, default: Option<string>, p: string)
    ensures forall x :: x in SelectionRegs(names, paths, default) ==> x.0 == x.1
    ensures (p, p) in SelectionRegs(names, paths, default) <==>
      p in paths || (UsesDefault(names, paths, default) && p == default.value)
  {
    var self := SelfRegs(paths);
    forall x | x in self ensures x.0 == x.1 {
      var i :| 0 <= i < |self| && self[i] == x;
    }
    if p in paths {
      var i :| 0 <= i < |paths| && paths[i] == p;
      assert self[i] == (p, p);
    }
    if (p, p) in self {
      var i :| 0 <= i < |self| && self[i] == (p, p);
      assert paths[i] == p;
    }
  }

  /**
   * After the selection's registrations, a path given or the default
   * browser selected names itself when `webbrowser` accepted it; every other
   * name keeps its old path.
   */
  lemma SelectionRegisters(s: Registered, names: seq<string>, paths: seq<string>, default: Option<string>,
                           accepted: (string, string) -> bool, p: string)
    requires s.Valid()
    ensures Lookup(PutAll(s, SelectionRegs(names, paths, default), accepted), p) ==
      if (p in paths || (UsesDefault(names, paths, default) && p == default.value)) && accepted(p, p) then Some(p)
      else Lookup(s, p)
  {
    SelectionRegsSelf(names, paths, default, p);
    PutAllSelf(s, SelectionRegs(names, paths, default), accepted, p);
  }

  /**
   * Lines 615-631 (and 485-501 in the older version): the default browser
   * when no name and no path is given, then each path registered under itself
   * and appended, then the names appended.
   */
  method SelectBrowsers(reg: BrowserRegistry, registry: WinRegistry, accepted: (string, string) -> bool,
                        names: seq<string>, paths: seq<string>) returns (browsers: seq<string>)
    requires reg.Valid()
    modifies reg
    ensures reg.Valid()
    ensures reg.View() == PutAll(old(reg.View()), SelectionRegs(names, paths, DefaultBrowserPath(registry)), accepted)
    ensures browsers == Selected(names, paths, DefaultBrowserPath(registry))
  {
    ghost var s0 := reg.View();
    ghost var d := DefaultBrowserPath(registry);
    ghost var first: seq<Registration> := [];
    browsers := [];
    if names == [] && paths == [] {
      var default := DefaultBrowserPath(registry);
      if Truthy(default) {
        PutAllSnoc(s0, [], (default.value, default.value), accepted);
        reg.Register(default.value, default.value, accepted(default.value, default.value));
        browsers := browsers + [default.value];
        first := [(default.value, default.value)];
      }
    }
    assert reg.View() == PutAll(s0, first, accepted);
    ghost var s1 := reg.View();
    if paths != [] {
      for i := 0 to |paths|
        invariant reg.Valid()
        invariant reg.View() == PutAll(s1, SelfRegs(paths[..i]), accepted)
      {
        SelfRegsSnoc(paths, i);
        PutAllSnoc(s1, SelfRegs(paths[..i]), (paths[i], paths[i]), accepted);
        reg.Register(paths[i], paths[i], accepted(paths[i], paths[i]));
      }
      assert paths[..|paths|] == paths;
      browsers := browsers + paths;
    }
    if names != [] {
      browsers := browsers + names;
    }
    assert SelfRegs([]) == [];
    PutAllAppend(s0, first, SelfRegs(paths), accepted);
    assert first + SelfRegs(paths) == SelectionRegs(names, paths, d);
  }

  // ---------------------------------------------------------------------
  // URLs

  /**
   * `urls` unless it is empty, then the URLs without option name; None when
   * both were given, which the command refuses with a warning.
   */
  function MergeUrls(urls: seq<string>, positional: seq<string>): (r: Option<seq<string>>)
    ensures r.None? <==> urls != [] && positional != []
    ensures r.Some? ==> r.value == urls || r.value == positional
    ensures r.Some? ==> forall u :: u in r.value <==> u in urls || u in positional
    ensures r.Some? ==> |r.value| == |urls| + |positional|
  {
    if urls != [] && positional != [] then None
    else if urls == [] then Some(positional)
    else Some(urls)
  }

  // ---------------------------------------------------------------------
  // The current version

  /**
   * `cli(...)` of the current version from the registry `s`, with `file` the
   * state of the parameter file named on the command line: the registry it
   * leaves and what it ends in.
   */
  function CliCurrent(s: Registered, host: Host, o: Options, file: FileState): (Registered, Outcome)
    requires s.Valid()
  {
    if o.noArguments then (s, Help)
    else
      var windows := host.system == "Windows";
      var s1 := PutAll(s, InstalledRegistrations(Installed(host)), host.accepted);
      if o.browserList then (s1, Listed(Render(Entries(s1), windows)))
      else if Truthy(o.file) then
        if file.Missing? then (s1, ParameterFileMissing)
        else
          var (s2, run) := RunSpec(s1, LoadParameterFile(o.file.value, windows, file),
                                   DefaultBrowserPath(host.registry), host.accepted);
          (s2, ParameterFileRun(o.names != [] || o.paths != [] || o.urls != [], run))
      else
        var d := DefaultBrowserPath(host.registry);
        var s2 := PutAll(s1, SelectionRegs(o.names, o.paths, d), host.accepted);
        var browsers := Selected(o.names, o.paths, d);
        match MergeUrls(o.urls, o.positional)
        case None => (s2, MixedUrls)
        case Some(urls) => (s2, Launched(browsers, urls, o.fast, Plan(s2, browsers, urls, o.fast)))
  }

  /** `cli(browser_name, browser_path, p_file, fast, browser_list, urls, urls_)`, lines 580-647. */
  method RunCli(reg: BrowserRegistry, host: Host, o: Options, file: FileState) returns (out: Outcome)
    requires reg.Valid()
    modifies reg
    ensures reg.Valid()
    ensures (reg.View(), out) == CliCurrent(old(reg.View()), host, o, file)
  {
    if o.noArguments {
      return Help;
    }
    RegisterAllInstalledBrowsers(reg, host);
    var windows := host.system == "Windows";
    if o.browserList {
      var lines := DisplayRegisteredBrowsers(reg, windows);
      return Listed(lines);
    }
    if Truthy(o.file) {
      if file.Missing? {
        return ParameterFileMissing;
      }
      var warned := o.names != [] || o.paths != [] || o.urls != [];
      var run := RunWithParameterFile(reg, host, o.file.value, file);
      return ParameterFileRun(warned, run);
    }
    var browsers := SelectBrowsers(reg, host.registry, host.accepted, o.names, o.paths);
    var urls := MergeUrls(o.urls, o.positional);
    if urls.None? {
      return MixedUrls;
    }
    var plan := Plan(reg.View(), browsers, urls.value, o.fast);
    return Launched(browsers, urls.value, o.fast, plan);
  }

  /** Listing ends the command: neither a parameter file nor a browser is touched. */
  lemma ListingStops(s: Registered, host: Host, o: Options, file: FileState)
    requires s.Valid() && !o.noArguments && o.browserList
    ensures var (s', out) := CliCurrent(s, host, o, file);
      && s' == PutAll(s, InstalledRegistrations(Installed(host)), host.accepted)
      && out == Listed(Render(Entries(s'), host.system == "Windows"))
  {
  }

  /**
   * With a parameter file, only the warning depends on the names, paths and
   * URLs given; the mode, the URLs and the browsers come from the file alone.
   */
  lemma ParameterFileIgnoresOptions(s: Registered, host: Host, o: Options, o': Options, file: FileState)
    requires s.Valid() && !o.noArguments && !o.browserList && Truthy(o.file)
    requires o'.noArguments == o.noArguments && o'.browserList == o.browserList && o'.file == o.file
    ensures CliCurrent(s, host, o, file).0 == CliCurrent(s, host, o', file).0
    ensures CliCurrent(s, host, o, file).1.ParameterFileRun? <==> !file.Missing?
    ensures !file.Missing? ==> CliCurrent(s, host, o, file).1.run == CliCurrent(s, host, o', file).1.run
    ensures !file.Missing? ==>
      (CliCurrent(s, host, o, file).1.warned <==> o.names != [] || o.paths != [] || o.urls != [])
  {
  }

  /**
   * An explicit path that `webbrowser` accepted is registered under itself
   * when the launch is prepared, whatever was installed: the installed
   * browsers were registered before it.
   */
  lemma ExplicitPathWins(s: Registered, host: Host, o: Options, file: FileState, p: string)
    requires s.Valid() && !o.noArguments && !o.browserList && !Truthy(o.file)
    requires p in o.paths && host.accepted(p, p)
    ensures Lookup(CliCurrent(s, host, o, file).0, p) == Some(p)
  {
    var s1 := PutAll(s, InstalledRegistrations(Installed(host)), host.accepted);
    SelectionRegisters(s1, o.names, o.paths, DefaultBrowserPath(host.registry), host.accepted, p);
  }

  /**
   * Mixing `--urls` with URLs without option name opens nothing, but the
   * registrations before the check have happened: in the current version the
   * installed browsers and the selection, in the older one only the
   * selection, since `main` never runs.
   */
  lemma MixedUrlsOpenNothing(s: Registered, host: Host, o: Options, file: FileState)
    requires s.Valid() && !o.noArguments && !o.browserList && !o.file.Some?
    requires o.urls != [] && o.positional != []
    ensures var d := DefaultBrowserPath(host.registry);
      && CliCurrent(s, host, o, file) == (PutAll(PutAll(s, InstalledRegistrations(Installed(host)), host.accepted),
                                                 SelectionRegs(o.names, o.paths, d), host.accepted), MixedUrls)
      && CliOlder(s, host, o, file) == (PutAll(s, SelectionRegs(o.names, o.paths, d), host.accepted), MixedUrls)
  {
  }

  /** One launch per path, each starting the path itself. */
  function SelfLaunches(paths: seq<string>, opening: Opening): (r: seq<Launch>)
    ensures |r| == |paths| && forall i :: 0 <= i < |paths| ==> r[i] == Launch(paths[i], paths[i], opening)
  {
    seq(|paths|, i requires 0 <= i < |paths| => Launch(paths[i], paths[i], opening))
  }

  /** When every name is registered under itself, each is launched as itself. */
  lemma PlanSelf(s: Registered, paths: seq<string>, urls: seq<string>, fast: bool)
    requires forall i :: 0 <= i < |paths| ==> Lookup(s, paths[i]) == Some(paths[i])
    ensures Plan(s, paths, urls, fast) == Planned(SelfLaunches(paths, Strategy(urls, fast)))
  {
    var plan := Plan(s, paths, urls, fast);
    assert plan.launches == SelfLaunches(paths, Strategy(urls, fast));
  }

  /** The selection branch of `cli`: the registry after the selection, and the launch or the URL conflict. */
  lemma CliCurrentSelects(s: Registered, host: Host, o: Options, file: FileState)
    requires s.Valid() && !o.noArguments && !o.browserList && !Truthy(o.file)
    ensures var d := DefaultBrowserPath(host.registry);
      var s2 := PutAll(PutAll(s, InstalledRegistrations(Installed(host)), host.accepted), SelectionRegs(o.names, o.paths, d), host.accepted);
      var browsers := Selected(o.names, o.paths, d);
      var merged := MergeUrls(o.urls, o.positional);
      CliCurrent(s, host, o, file) ==
        (s2, if merged.None? then MixedUrls else Launched(browsers, merged.value, o.fast, Plan(s2, browsers, merged.value, o.fast)))
  {
  }

  /**
   * A path given on the command line that `webbrowser` accepted is launched
   * as itself: the paths are registered after the installed browsers, so an
   * installed browser of the same name cannot take the path over.
   */
  lemma PathsAreLaunchedAsGiven(s: Registered, host: Host, o: Options, file: FileState)
    requires s.Valid() && !o.noArguments && !o.browserList && !Truthy(o.file)
    requires o.names == [] && o.paths != []
    requires forall i :: 0 <= i < |o.paths| ==> host.accepted(o.paths[i], o.paths[i])
    requires o.urls == [] || o.positional == []
    ensures var urls := if o.urls == [] then o.positional else o.urls;
      CliCurrent(s, host, o, file).1 == Launched(o.paths, urls, o.fast, Planned(SelfLaunches(o.paths, Strategy(urls, o.fast))))
  {
    var s1 := PutAll(s, InstalledRegistrations(Installed(host)), host.accepted);
    var urls := if o.urls == [] then o.positional else o.urls;
    assert MergeUrls(o.urls, o.positional) == Some(urls);
    PathSelection(s1, o.paths, DefaultBrowserPath(host.registry), host.accepted, urls, o.fast);
    CliCurrentSelects(s, host, o, file);
  }

  /** Given only accepted paths, the selection is the paths, and each is launched as itself. */
  lemma PathSelection(s1: Registered, paths: seq<string>, d: Option<string>, accepted: (string, string) -> bool,
                      urls: seq<string>, fast: bool)
    requires s1.Valid() && paths != []
    requires forall i :: 0 <= i < |paths| ==> accepted(paths[i], paths[i])
    ensures Selected([], paths, d) == paths
    ensures Plan(PutAll(s1, SelectionRegs([], paths, d), accepted), paths, urls, fast) == Planned(SelfLaunches(paths, Strategy(urls, fast)))
  {
    var s2 := PutAll(s1, SelectionRegs([], paths, d), accepted);
    assert Selected([], paths, d) == paths;
    forall i | 0 <= i < |paths| ensures Lookup(s2, paths[i]) == Some(paths[i]) {
      SelectionRegisters(s1, [], paths, d, accepted, paths[i]);
    }
    PlanSelf(s2, paths, urls, fast);
  }

  /**
   * `cli --browser-name NAME --urls A --urls B --ordered` for a browser
   * `NAME` that was found installed at a non-empty `path`: one launch of
   * `path`, opening A and then B.
   */
  lemma NamedInstalledBrowser(s: Registered, host: Host, file: FileState, name: string, path: string, a: string, b: string)
    requires s.Valid()
    requires (name, Some(path)) in Installed(host) && path != "" && host.accepted(name, path)
    ensures CliCurrent(s, host, Options([name], [], None, false, false, [a, b], [], false), file).1 ==
      Launched([name], [a, b], false, Planned([Launch(name, path, InOrder([a, b]))]))
  {
    var o := Options([name], [], None, false, false, [a, b], [], false);
    var s1 := PutAll(s, InstalledRegistrations(Installed(host)), host.accepted);
    InstalledSingleValued(host);
    InstalledLookup(s, Installed(host), host.accepted, name, path);
    var d := DefaultBrowserPath(host.registry);
    assert SelectionRegs(o.names, o.paths, d) == [];
    var s2 := PutAll(s1, [], host.accepted);
    assert s2 == s1;
    assert Selected(o.names, o.paths, d) == [name];
    assert MergeUrls(o.urls, o.positional) == Some([a, b]);
    var plan := Plan(s2, [name], [a, b], false);
    assert plan.Planned? && |plan.launches| == 1;
    assert plan.launches[0] == Launch(name, path, InOrder([a, b]));
    assert plan == Planned([Launch(name, path, InOrder([a, b]))]);
  }

  // ---------------------------------------------------------------------
  // The older version

  /**
   * `main(browsernames, urls, fast_mode)` of the older version, lines 390-415:
   * it registers the installed browsers before it plans the launches.
   */
  method MainRegistering(reg: BrowserRegistry, host: Host, names: seq<string>, urls: seq<string>, fast: bool)
    returns (plan: PlanResult)
    requires reg.Valid()
    modifies reg
    ensures reg.Valid()
    ensures reg.View() == PutAll(old(reg.View()), InstalledRegistrations(Installed(host)), host.accepted)
    ensures plan == Plan(reg.View(), names, urls, fast)
  {
    RegisterAllInstalledBrowsers(reg, host);
    plan := Plan(reg.View(), names, urls, fast);
  }

  /** `cli(...)` of the older version from the registry `s`; `file` is the state of the `--config` path. */
  function CliOlder(s: Registered, host: Host, o: Options, file: FileState): (Registered, Outcome)
    requires s.Valid()
  {
    if o.file.Some? && file.Missing? then (s, ConfigMissing)
    else if o.noArguments then (s, Help)
    else if o.browserList then
      var s1 := PutAll(s, InstalledRegistrations(Installed(host)), host.accepted);
      (s1, Listed(Render(Entries(s1), host.system == "Windows")))
    else if Truthy(o.file) then (s, ConfigNotImplemented(o.names != [] || o.paths != []))
    else
      var d := DefaultBrowserPath(host.registry);
      var s2 := PutAll(s, SelectionRegs(o.names, o.paths, d), host.accepted);
      var browsers := Selected(o.names, o.paths, d);
      match MergeUrls(o.urls, o.positional)
      case None => (s2, MixedUrls)
      case Some(urls) =>
        var s3 := PutAll(s2, InstalledRegistrations(Installed(host)), host.accepted);
        (s3, Launched(browsers, urls, o.fast, Plan(s3, browsers, urls, o.fast)))
  }

  /** `cli(browser_name, browser_path, config, fast, browser_list, urls, urls_)` of `tests/__main__.py`. */
  method RunOlderCli(reg: BrowserRegistry, host: Host, o: Options, file: FileState) returns (out: Outcome)
    requires reg.Valid()
    modifies reg
    ensures reg.Valid()
    ensures (reg.View(), out) == CliOlder(old(reg.View()), host, o, file)
  {
    if o.file.Some? && file.Missing? {
      return ConfigMissing;
    }
    if o.noArguments {
      return Help;
    }
    if o.browserList {
      RegisterAllInstalledBrowsers(reg, host);
      var lines := DisplayRegisteredBrowsers(reg, host.system == "Windows");
      return Listed(lines);
    }
    if Truthy(o.file) {
      return ConfigNotImplemented(o.names != [] || o.paths != []);
    }
    var browsers := SelectBrowsers(reg, host.registry, host.accepted, o.names, o.paths);
    var urls := MergeUrls(o.urls, o.positional);
    if urls.None? {
      return MixedUrls;
    }
    var plan := MainRegistering(reg, host, browsers, urls.value, o.fast);
    return Launched(browsers, urls.value, o.fast, plan);
  }

  /**
   * The older version's `--config` only prints a notice: nothing is
   * registered or launched, and the warning about ignored options is given
   * exactly when a name or a path was given; URLs play no part.
   */
  lemma ConfigOnlyAnnounced(s: Registered, host: Host, o: Options, file: FileState)
    requires s.Valid() && !o.noArguments && !o.browserList && Truthy(o.file) && !file.Missing?
    ensures CliOlder(s, host, o, file) == (s, ConfigNotImplemented(o.names != [] || o.paths != []))
  {
  }

  /**
   * In the older version the installed browsers are registered last, so an
   * installed browser beats a path given under the same name: whatever was
   * given on the command line, the installed path is the one launched.
   */
  lemma InstalledWinsInOlder(s: Registered, host: Host, o: Options, file: FileState, name: string, path: string)
    requires s.Valid() && !o.noArguments && !o.browserList && !o.file.Some?
    requires o.urls == [] || o.positional == []
    requires (name, Some(path)) in Installed(host) && path != "" && host.accepted(name, path)
    ensures var (s', out) := CliOlder(s, host, o, file);
      && Lookup(s', name) == Some(path)
      && (out.plan.Planned? ==> forall i :: 0 <= i < |out.browsers| && out.browsers[i] == name ==>
            out.plan.launches[i].path == path)
  {
    var d := DefaultBrowserPath(host.registry);
    var s2 := PutAll(s, SelectionRegs(o.names, o.paths, d), host.accepted);
    InstalledSingleValued(host);
    InstalledLookup(s2, Installed(host), host.accepted, name, path);
  }

  /** The current version launches the single path given as itself. */
  lemma CurrentLaunchesPath(s: Registered, host: Host, file: FileState, p: string)
    requires s.Valid() && host.accepted(p, p)
    ensures CliCurrent(s, host, Options([], [p], None, false, false, [], [], false), file).1.plan ==
      Planned([Launch(p, p, InOrder([]))])
  {
    var o := Options([], [p], None, false, false, [], [], false);
    PathsAreLaunchedAsGiven(s, host, o, file);
    assert SelfLaunches([p], InOrder([])) == [Launch(p, p, InOrder([]))];
  }

  /** The older version launches an installed browser's path for a path given under its name. */
  lemma OlderLaunchesInstalled(s: Registered, host: Host, file: FileState, p: string, q: string)
    requires s.Valid()
    requires (p, Some(q)) in Installed(host) && q != "" && host.accepted(p, q)
    ensures CliOlder(s, host, Options([], [p], None, false, false, [], [], false), file).1.plan ==
      Planned([Launch(p, q, InOrder([]))])
  {
    var o := Options([], [p], None, false, false, [], [], false);
    var d := DefaultBrowserPath(host.registry);
    assert Selected(o.names, o.paths, d) == [p];
    assert MergeUrls(o.urls, o.positional) == Some([]);
    InstalledWinsInOlder(s, host, o, file, p, q);
    var s' := CliOlder(s, host, o, file).0;
    var older := Plan(s', [p], [], false);
    assert CliOlder(s, host, o, file).1.plan == older;
    assert older.launches[0] == Launch(p, q, InOrder([]));
  }

  /**
   * The two versions disagree exactly there: for a path that is also the
   * name of an installed browser with another path, the current version
   * launches the path given, the older one the installed path.
   */
  lemma VersionsDisagreeOnCollision(s: Registered, host: Host, file: FileState, p: string, q: string)
    requires s.Valid()
    requires (p, Some(q)) in Installed(host) && q != "" && q != p
    requires host.accepted(p, p) && host.accepted(p, q)
    ensures var o := Options([], [p], None, false, false, [], [], false);
      CliCurrent(s, host, o, file).1.plan != CliOlder(s, host, o, file).1.plan
  {
    CurrentLaunchesPath(s, host, file, p);
    OlderLaunchesInstalled(s, host, file, p, q);
    assert Launch(p, p, InOrder([])) != Launch(p, q, InOrder([]));
  }
}
