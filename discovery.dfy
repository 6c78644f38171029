/**
 * Browser discovery (`get_installed_browsers`) and
 * `register_all_installed_browsers`. Every question the program puts to the
 * operating system is a field of `Host`.
 */
module Discovery {
  import opened Base
  import opened WindowsPaths
  import opened Registry

  datatype Host = Host(
    /** What `platform.system()` returns. */
    system: string,
    registry: WinRegistry,
    /** `shutil.which(name)`. */
    which: string -> Option<string>,
    /** Whether `webbrowser.register(name, None, BackgroundBrowser(path))` returns normally. */
    accepted: (string, string) -> bool)

  /** The dict `get_installed_browsers` returns, as its items in order. */
  type Discovered = seq<(string, Option<string>)>

  function Names(d: Discovered): (r: seq<string>)
    ensures |r| == |d|
    ensures forall i :: 0 <= i < |d| ==> r[i] == d[i].0
  {
    if d == [] then [] else [d[0].0] + Names(d[1..])
  }

  /** Every name has one value, as in a dict. */
  predicate SingleValued(d: Discovered) {
    forall i, j :: 0 <= i < |d| && 0 <= j < |d| && d[i].0 == d[j].0 ==> d[i].1 == d[j].1
  }

  predicate IsSubsequence(a: seq<string>, b: seq<string>)
    decreases |b|
  {
    a == [] || (b != [] && ((a[0] == b[0] && IsSubsequence(a[1..], b[1..])) || IsSubsequence(a, b[1..])))
  }

  // ---------------------------------------------------------------------
  // Windows

  const StartMenuKeys := ["SOFTWARE\\Clients\\StartMenuInternet", "SOFTWARE\\WOW6432Node\\Clients\\StartMenuInternet"]

  /** The subkey names under `key`; a key that cannot be opened contributes none. */
  function Listing(reg: WinRegistry, key: string): seq<string> {
    match reg.subkeys(LocalMachine, key)
    case None => []
    case Some(names) => names
  }

  /** The names enumerated under the first `|keys|` keys, in enumeration order. */
  function Listings(reg: WinRegistry, keys: seq<string>): seq<string>
    decreases |keys|
  {
    if keys == [] then [] else Listings(reg, keys[..|keys| - 1]) + Listing(reg, keys[|keys| - 1])
  }

  /** The Windows result: every enumerated name with its path, sorted by name. */
  function WindowsInstalled(reg: WinRegistry): (r: Discovered)
  {
    var names := Sort(Listings(reg, StartMenuKeys));
    seq(|names|, i requires 0 <= i < |names| => (names[i], BrowserPath(reg, names[i])))
  }

  /**
   * On Windows the keys are the union of the subkey names of both
   * `StartMenuInternet` keys (a key that cannot be opened adds none), each
   * value is what `get_browser_path_windows` gives for the name, possibly
   * None, and the items are in ascending order of name.
   */
  lemma WindowsInstalledSpec(reg: WinRegistry)
    ensures var r := WindowsInstalled(reg);
      && (forall i, j :: 0 <= i < j < |r| ==> Less(r[i].0, r[j].0))
      && (forall n :: n in Names(r) <==> n in Listing(reg, StartMenuKeys[0]) || n in Listing(reg, StartMenuKeys[1]))
      && (forall i :: 0 <= i < |r| ==> r[i].1 == BrowserPath(reg, r[i].0))
  {
    var keys := StartMenuKeys;
    assert keys[..1][..0] == [];
    assert keys[..|keys| - 1] == keys[..1];
    assert Listings(reg, keys) == Listing(reg, keys[0]) + Listing(reg, keys[1]);
    var r := WindowsInstalled(reg);
    var names := Sort(Listings(reg, StartMenuKeys));
    assert Names(r) == names;
  }

  /**
   * Lines 301-303 for one key: `browsers[name] = get_browser_path_windows(name)`
   * for every subkey name; `order` is the dict's insertion order.
   */
  method AddSubkeys(reg: WinRegistry, names: seq<string>, browsers0: map<string, Option<string>>, order0: seq<string>)
    returns (browsers: map<string, Option<string>>, order: seq<string>)
    requires forall n :: n in browsers0 <==> n in order0
    requires forall n :: n in browsers0 ==> browsers0[n] == BrowserPath(reg, n)
    ensures forall n :: n in browsers <==> n in order
    ensures forall n :: n in order <==> n in order0 || n in names
    ensures forall n :: n in browsers ==> browsers[n] == BrowserPath(reg, n)
  {
    browsers, order := browsers0, order0;
    for i := 0 to |names|
      invariant forall n :: n in browsers <==> n in order
      invariant forall n :: n in order <==> n in order0 || n in names[..i]
      invariant forall n :: n in browsers ==> browsers[n] == BrowserPath(reg, n)
    {
      var name := names[i];
      if name !in browsers {
        order := order + [name];
      }
      browsers := browsers[name := BrowserPath(reg, name)];
      assert names[..i + 1] == names[..i] + [name];
    }
    assert names[..|names|] == names;
  }

  /**
   * The loop of lines 298-306 followed by `dict(sorted(browsers.items()))`.
   * `order` is the dict's own insertion order, which the sort discards.
   */
  method GetInstalledWindows(reg: WinRegistry) returns (found: Discovered)
    ensures found == WindowsInstalled(reg)
  {
    var browsers: map<string, Option<string>> := map[];
    var order: seq<string> := [];
    var keys := StartMenuKeys;
    for k := 0 to |keys|
      invariant forall n :: n in browsers <==> n in order
      invariant forall n :: n in order <==> n in Listings(reg, keys[..k])
      invariant forall n :: n in browsers ==> browsers[n] == BrowserPath(reg, n)
    {
      assert keys[..k + 1][..k] == keys[..k];
      match reg.subkeys(LocalMachine, keys[k]) {
        case None =>
          // WindowsError: logged, this key contributes nothing
        case Some(names) =>
          browsers, order := AddSubkeys(reg, names, browsers, order);
      }
    }
    assert keys[..|keys|] == keys;
    var sorted := Sort(order);
    found := seq(|sorted|, i requires 0 <= i < |sorted| => (sorted[i], browsers[sorted[i]]));
    SortedUnique(sorted, Sort(Listings(reg, StartMenuKeys)));
  }

  // ---------------------------------------------------------------------
  // Linux

  const CommonBrowsers := ["firefox", "google-chrome", "chromium-browser", "opera", "brave-browser", "vivaldi"]

  /** `{b: which(b) for b in names if which(b)}`. */
  function KeepFound(names: seq<string>, which: string -> Option<string>): (r: Discovered)
    ensures forall i :: 0 <= i < |r| ==> Truthy(which(r[i].0)) && r[i].1 == which(r[i].0)
    ensures forall n :: n in Names(r) <==> n in names && Truthy(which(n))
    ensures IsSubsequence(Names(r), names)
  {
    if names == [] then []
    else
      var rest := KeepFound(names[1..], which);
      if Truthy(which(names[0])) then
        var r := [(names[0], which(names[0]))] + rest;
        assert r[1..] == rest;
        r
      else rest
  }

  // ---------------------------------------------------------------------
  // The dispatch on the operating system

  /**
   * `get_installed_browsers()`: Windows and Linux are detected as above;
   * macOS ("Darwin") and any other system give the empty dict.
   */
  function Installed(host: Host): Discovered {
    if host.system == "Windows" then WindowsInstalled(host.registry)
    else if host.system == "Linux" then KeepFound(CommonBrowsers, host.which)
    else []
  }

  /** Each discovered name carries one value, so a later registration cannot disagree. */
  lemma InstalledSingleValued(host: Host)
    ensures SingleValued(Installed(host))
  {
    var d := Installed(host);
    if host.system == "Windows" {
      WindowsInstalledSpec(host.registry);
    }
  }

  /** Linux detection keeps exactly the fixed names that `which` finds, in list order. */
  lemma LinuxInstalledSpec(host: Host)
    requires host.system == "Linux"
    ensures forall n :: n in Names(Installed(host)) <==> n in CommonBrowsers && Truthy(host.which(n))
    ensures IsSubsequence(Names(Installed(host)), CommonBrowsers)
    ensures forall i :: 0 <= i < |Installed(host)| ==> Installed(host)[i].1 == host.which(Installed(host)[i].0)
  {
  }

  method GetInstalledBrowsers(host: Host) returns (found: Discovered)
    ensures found == Installed(host)
    ensures host.system != "Windows" && host.system != "Linux" ==> found == []
  {
    if host.system == "Windows" {
      found := GetInstalledWindows(host.registry);
    } else if host.system == "Linux" {
      found := KeepFound(CommonBrowsers, host.which);
    } else {
      // macOS detection is not implemented; other systems are unsupported
      found := [];
    }
  }

  // ---------------------------------------------------------------------
  // register_all_installed_browsers

  /** The `register_browser(name, path)` calls, one per entry whose path is truthy. */
  function InstalledRegistrations(d: Discovered): (r: seq<Registration>)
    ensures |r| <= |d|
    ensures forall x :: x in r <==> (x.0, Some(x.1)) in d && x.1 != ""
  {
    if d == [] then []
    else
      var rest := InstalledRegistrations(d[1..]);
      if Truthy(d[0].1) then
        assert forall x :: x in [(d[0].0, d[0].1.value)] + rest <==> x == (d[0].0, d[0].1.value) || x in rest;
        [(d[0].0, d[0].1.value)] + rest
      else rest
  }

  /** Registrations are issued in discovery order. */
  lemma {:induction false} InstalledRegistrationsAppend(a: Discovered, b: Discovered)
    ensures InstalledRegistrations(a + b) == InstalledRegistrations(a) + InstalledRegistrations(b)
    decreases |a|
  {
    if a == [] {
      assert a + b == b;
    } else {
      assert (a + b)[0] == a[0] && (a + b)[1..] == a[1..] + b;
      InstalledRegistrationsAppend(a[1..], b);
    }
  }

  /** In a batch where `name` is only ever paired with `path`, an accepted `path` wins. */
  lemma {:induction false} LastAcceptedOnly(regs: seq<Registration>, accepted: (string, string) -> bool, name: string, path: string)
    requires (name, path) in regs && accepted(name, path)
    requires forall x :: x in regs && x.0 == name ==> x.1 == path
    ensures LastAccepted(regs, accepted, name) == Some(path)
    decreases |regs|
  {
    var last := regs[|regs| - 1];
    if !(last.0 == name && accepted(name, last.1)) {
      assert regs == regs[..|regs| - 1] + [last];
      LastAcceptedOnly(regs[..|regs| - 1], accepted, name, path);
    }
  }

  /**
   * After registering what was discovered, a discovered name with a non-empty
   * path that `webbrowser` accepted maps to that path.
   */
  lemma InstalledLookup(s: Registered, d: Discovered, accepted: (string, string) -> bool, name: string, path: string)
    requires s.Valid() && SingleValued(d)
    requires (name, Some(path)) in d && path != "" && accepted(name, path)
    ensures Lookup(PutAll(s, InstalledRegistrations(d), accepted), name) == Some(path)
  {
    var regs := InstalledRegistrations(d);
    forall x | x in regs && x.0 == name
      ensures x.1 == path
    {
      var i :| 0 <= i < |d| && d[i] == (name, Some(x.1));
      var j :| 0 <= j < |d| && d[j] == (name, Some(path));
    }
    LastAcceptedOnly(regs, accepted, name, path);
    PutAllLastWins(s, regs, accepted, name);
  }

  /** Entries whose path is None or empty are never registered. */
  lemma InstalledSkipsEmpty(s: Registered, d: Discovered, accepted: (string, string) -> bool, name: string)
    requires s.Valid()
    requires forall i :: 0 <= i < |d| && d[i].0 == name ==> !Truthy(d[i].1)
    ensures Lookup(PutAll(s, InstalledRegistrations(d), accepted), name) == Lookup(s, name)
  {
    var regs := InstalledRegistrations(d);
    NeverAccepted(regs, accepted, name);
    PutAllLastWins(s, regs, accepted, name);
  }

  lemma {:induction false} NeverAccepted(regs: seq<Registration>, accepted: (string, string) -> bool, name: string)
    requires forall x :: x in regs ==> x.0 != name
    ensures LastAccepted(regs, accepted, name).None?
    decreases |regs|
  {
    if regs != [] {
      assert regs[|regs| - 1] in regs;
      NeverAccepted(regs[..|regs| - 1], accepted, name);
    }
  }

  /** One more discovered entry adds at most one registration at the end. */
  lemma RegisterStep(s0: Registered, d: Discovered, i: nat, accepted: (string, string) -> bool)
    requires s0.Valid() && i < |d|
    ensures PutAll(s0, InstalledRegistrations(d[..i + 1]), accepted) ==
            if Truthy(d[i].1) then PutOne(PutAll(s0, InstalledRegistrations(d[..i]), accepted), (d[i].0, d[i].1.value), accepted)
            else PutAll(s0, InstalledRegistrations(d[..i]), accepted)
  {
    assert d[..i + 1] == d[..i] + [d[i]];
    InstalledRegistrationsAppend(d[..i], [d[i]]);
    assert [d[i]][1..] == [];
    if Truthy(d[i].1) {
      PutAllSnoc(s0, InstalledRegistrations(d[..i]), (d[i].0, d[i].1.value), accepted);
    } else {
      assert InstalledRegistrations(d[..i]) + [] == InstalledRegistrations(d[..i]);
    }
  }

  /** `register_all_installed_browsers()`. */
  method RegisterAllInstalledBrowsers(reg: BrowserRegistry, host: Host)
    requires reg.Valid()
    modifies reg
    ensures reg.Valid()
    ensures reg.View() == PutAll(old(reg.View()), InstalledRegistrations(Installed(host)), host.accepted)
  {
    var found := GetInstalledBrowsers(host);
    ghost var s0 := reg.View();
    for i := 0 to |found|
      invariant reg.Valid()
      invariant reg.View() == PutAll(s0, InstalledRegistrations(found[..i]), host.accepted)
    {
      RegisterStep(s0, found, i, host.accepted);
      var (name, path) := found[i];
      if Truthy(path) {
        reg.Register(name, path.value, host.accepted(name, path.value));
      }
    }
    assert found[..|found|] == found;
  }
}
