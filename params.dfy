/**
 * Parameter files: `load_parameter_file`, which picks a loader by the file's
 * suffix, and `run_with_parameter_file`, which turns every entry of the loaded
 * mapping into a browser list, a URL list and a mode, registering the paths
 * it names, and then runs `main` for every entry.
 *
 * Decoding YAML, JSON and TOML is a library's work: the model starts from
 * the decoded value (`FileState.Decoded`), or from the fact that decoding
 * failed.
 */
module ParameterFile {
  import opened Base
  import opened Registry
  import opened WindowsPaths
  import opened Discovery
  import opened Launch

  /** What a loader can return, as far as the runner distinguishes it. */
  datatype Value =
    | Null
    | Str(s: string)
    | List(items: seq<Value>)
    | Table(entries: seq<(string, Value)>)
    | Other

  /** One entry of the parameter file: a mapping's items in order. */
  type Entry = seq<(string, Value)>

  // ---------------------------------------------------------------------
  // The key patterns, as `re.match` applies them

  /**
   * `\d*$` at the end of a pattern: ASCII digits up to the end, where Python's
   * `$` also accepts one final newline.
   */
  predicate DigitsToEnd(s: string) {
    AllDigits(s) || (|s| > 0 && s[|s| - 1] == '\n' && AllDigits(s[..|s| - 1]))
  }

  /** `^(-bn|--browser-name)\d*$`. */
  predicate NameKey(k: string) {
    (StartsWith(k, "-bn") && DigitsToEnd(k[3..])) || (StartsWith(k, "--browser-name") && DigitsToEnd(k[14..]))
  }

  /** `^(-bp|--browser-path)\d*$`. */
  predicate PathKey(k: string) {
    (StartsWith(k, "-bp") && DigitsToEnd(k[3..])) || (StartsWith(k, "--browser-path") && DigitsToEnd(k[14..]))
  }

  /** `^(-u|--urls)`: only the start of the key is looked at. */
  predicate UrlKey(k: string) {
    StartsWith(k, "-u") || StartsWith(k, "--urls")
  }

  const FastKeys := ["-f", "--fast"]
  const OrderedKeys := ["-o", "--ordered"]

  /** The four keys the mode test compares with. */
  predicate ExactModeKey(k: string) {
    k in FastKeys || k in OrderedKeys
  }

  /** `^(-f|--fast|-o|--ordered)$`, which also matches each of them followed by a newline. */
  predicate ModeKey(k: string) {
    ExactModeKey(k) || (|k| > 0 && k[|k| - 1] == '\n' && ExactModeKey(k[..|k| - 1]))
  }

  /**
   * What the name and path patterns accept: the option with digits after
   * it, with or without one final newline, but nothing else before or
   * after it.
   */
  lemma BrowserKeyPatterns()
    ensures NameKey("-bn") && NameKey("--browser-name12") && NameKey("-bn3\n")
    ensures !NameKey("-bnx") && !NameKey("x-bn") && !NameKey("-bn1\n\n")
    ensures PathKey("-bp2") && !PathKey("-bn2")
  {
    assert "-bn"[..3] == "-bn" && "-bn"[3..] == "";
    assert "--browser-name12"[14..] == "12";
    assert "-bn3\n"[..3] == "-bn" && "-bn3\n"[3..] == "3\n" && "3\n"[..1] == "3";
    assert AllDigits("3");
    assert "-bnx"[3..] == "x" && !IsDigit("x"[0]);
    assert !StartsWith("-bnx", "--browser-name");
    assert "x-bn"[..3] == "x-b";
    assert "-bn1\n\n"[3..] == "1\n\n" && "1\n\n"[..2] == "1\n";
    assert !IsDigit("1\n\n"[1]) && !IsDigit("1\n"[1]);
    assert "-bp2"[3..] == "2";
    assert "-bn2"[..3] == "-bn";
  }

  /**
   * Any key that merely starts with `-u` or `--urls` selects URLs; a mode
   * key is one of the four keys, optionally followed by one newline, which
   * the exact test then does not recognise.
   */
  lemma UrlAndModeKeyPatterns()
    ensures UrlKey("-u") && UrlKey("--urls2") && UrlKey("-uber") && !UrlKey("urls")
    ensures ModeKey("-f") && ModeKey("--ordered\n") && !ExactModeKey("--ordered\n") && !ModeKey("-fast")
  {
    assert "urls"[..2] == "ur";
    assert "--ordered\n"[..9] == "--ordered";
  }

  /** `[value for key, value in di.items() if re.match(pattern, key)]`. */
  function ValuesWhere(e: Entry, p: string -> bool): seq<Value> {
    if e == [] then [] else (if p(e[0].0) then [e[0].1] else []) + ValuesWhere(e[1..], p)
  }

  /** The values collected are exactly those under a matching key. */
  lemma {:induction false} ValuesWhereSpec(e: Entry, p: string -> bool)
    ensures |ValuesWhere(e, p)| <= |e|
    ensures forall v :: v in ValuesWhere(e, p) <==> exists i :: 0 <= i < |e| && p(e[i].0) && e[i].1 == v
  {
    if e != [] {
      ValuesWhereSpec(e[1..], p);
      assert forall i :: 1 <= i < |e| ==> e[i] == e[1..][i - 1];
    }
  }

  /** The values are kept in key order. */
  lemma {:induction false} ValuesWhereAppend(a: Entry, b: Entry, p: string -> bool)
    ensures ValuesWhere(a + b, p) == ValuesWhere(a, p) + ValuesWhere(b, p)
    decreases |a|
  {
    if a == [] {
      assert a + b == b;
    } else {
      var ab := a + b;
      assert ab[0] == a[0] && ab[1..] == a[1..] + b;
      ValuesWhereAppend(a[1..], b, p);
      var h := if p(a[0].0) then [a[0].1] else [];
      assert ValuesWhere(ab, p) == h + ValuesWhere(a[1..] + b, p);
      AppendAssoc(h, ValuesWhere(a[1..], p), ValuesWhere(b, p));
    }
  }

  function NameValues(e: Entry): seq<Value> {
    ValuesWhere(e, NameKey)
  }

  function PathValues(e: Entry): seq<Value> {
    ValuesWhere(e, PathKey)
  }

  // ---------------------------------------------------------------------
  // URLs

  /** `item if isinstance(item, list) else [item]`. */
  function Flatten(v: Value): seq<Value> {
    if v.List? then v.items else [v]
  }

  /** The string items, in order; everything else is dropped. */
  function Strings(vs: seq<Value>): seq<string> {
    if vs == [] then [] else (if vs[0].Str? then [vs[0].s] else []) + Strings(vs[1..])
  }

  lemma {:induction false} StringsSpec(vs: seq<Value>)
    ensures |Strings(vs)| <= |vs|
    ensures forall u :: u in Strings(vs) <==> Str(u) in vs
  {
    if vs != [] {
      StringsSpec(vs[1..]);
      assert vs == [vs[0]] + vs[1..];
    }
  }

  lemma {:induction false} StringsAppend(a: seq<Value>, b: seq<Value>)
    ensures Strings(a + b) == Strings(a) + Strings(b)
    decreases |a|
  {
    if a == [] {
      assert a + b == b;
    } else {
      var ab := a + b;
      assert ab[0] == a[0] && ab[1..] == a[1..] + b;
      StringsAppend(a[1..], b);
      var h := if a[0].Str? then [a[0].s] else [];
      assert Strings(ab) == h + Strings(a[1..] + b);
      AppendAssoc(h, Strings(a[1..]), Strings(b));
    }
  }

  /**
   * The URL list of an entry: the values of every key starting with `-u`
   * or `--urls`, in key order, a list value contributing its items in list
   * order and any other value itself; only strings are kept.
   */
  function Urls(e: Entry): seq<string> {
    if e == [] then [] else (if UrlKey(e[0].0) then Strings(Flatten(e[0].1)) else []) + Urls(e[1..])
  }

  /** A URL is collected exactly when it is a string item of a URL key's value. */
  lemma {:induction false} UrlsSpec(e: Entry)
    ensures forall u :: u in Urls(e) <==> exists i :: 0 <= i < |e| && UrlKey(e[i].0) && Str(u) in Flatten(e[i].1)
  {
    if e != [] {
      UrlsSpec(e[1..]);
      StringsSpec(Flatten(e[0].1));
      assert forall i :: 1 <= i < |e| ==> e[i] == e[1..][i - 1];
    }
  }

  /** Splitting an entry splits its URL list: key order is kept. */
  lemma {:induction false} UrlsAppend(a: Entry, b: Entry)
    ensures Urls(a + b) == Urls(a) + Urls(b)
    decreases |a|
  {
    if a == [] {
      assert a + b == b;
    } else {
      var ab := a + b;
      assert ab[0] == a[0] && ab[1..] == a[1..] + b;
      UrlsAppend(a[1..], b);
      var h := if UrlKey(a[0].0) then Strings(Flatten(a[0].1)) else [];
      assert Urls(ab) == h + Urls(a[1..] + b);
      AppendAssoc(h, Urls(a[1..]), Urls(b));
    }
  }

  /** A single URL key with a list value gives the list's strings in list order. */
  lemma UrlsOfList()
    ensures Urls([("--urls", List([Str("http://a"), Other, Str("http://b"), List([Str("http://c")])]))]) == ["http://a", "http://b"]
  {
    var l := [Str("http://a"), Other, Str("http://b"), List([Str("http://c")])];
    assert l[1..][1..][1..][1..] == [];
  }

  // ---------------------------------------------------------------------
  // The mode

  /** The first key equal to one of the four mode keys. */
  function FirstModeKey(e: Entry): (r: Option<nat>)
    ensures r.Some? ==> r.value < |e| && ExactModeKey(e[r.value].0) && forall j :: 0 <= j < r.value ==> !ExactModeKey(e[j].0)
    ensures r.None? ==> forall j :: 0 <= j < |e| ==> !ExactModeKey(e[j].0)
  {
    if e == [] then None
    else if ExactModeKey(e[0].0) then Some(0)
    else match FirstModeKey(e[1..])
      case None => None
      case Some(k) => Some(k + 1)
  }

  /**
   * `fast` as the runner means to compute it: the first mode key decides,
   * `-f`/`--fast` meaning fast and `-o`/`--ordered` ordered, and ordered
   * when there is none.
   */
  function FastFlag(e: Entry): bool {
    match FirstModeKey(e)
    case None => false
    case Some(i) => e[i].0 in FastKeys
  }

  /**
   * Fast mode holds exactly when some key is `-f` or `--fast` and no mode key
   * comes before it.
   */
  lemma FastFlagSpec(e: Entry)
    ensures FastFlag(e) <==> exists i :: 0 <= i < |e| && e[i].0 in FastKeys && forall j :: 0 <= j < i ==> !ExactModeKey(e[j].0)
  {
    if FastFlag(e) {
      var i := FirstModeKey(e).value;
      assert e[i].0 in FastKeys;
    }
    if exists i :: 0 <= i < |e| && e[i].0 in FastKeys && forall j :: 0 <= j < i ==> !ExactModeKey(e[j].0) {
      var i :| 0 <= i < |e| && e[i].0 in FastKeys && forall j :: 0 <= j < i ==> !ExactModeKey(e[j].0);
      var k := FirstModeKey(e).value;
      assert !(k < i) && !(i < k);
    }
  }

  /** Only keys decide the mode: the values under them play no part. */
  lemma {:induction false} FastFlagIgnoresValues(e: Entry, e': Entry)
    requires |e| == |e'| && forall i :: 0 <= i < |e| ==> e[i].0 == e'[i].0
    ensures FastFlag(e) == FastFlag(e')
    decreases |e|
  {
    if e != [] && !ExactModeKey(e[0].0) {
      FastFlagIgnoresValues(e[1..], e'[1..]);
    }
  }

  // The mode as the source computes it

  /** The index of the first key the mode pattern matches. */
  function FirstModeMatch(e: Entry): (r: Option<nat>)
    ensures r.Some? ==> r.value < |e| && ModeKey(e[r.value].0) && forall j :: 0 <= j < r.value ==> !ModeKey(e[j].0)
    ensures r.None? ==> forall j :: 0 <= j < |e| ==> !ModeKey(e[j].0)
  {
    if e == [] then None
    else if ModeKey(e[0].0) then Some(0)
    else match FirstModeMatch(e[1..])
      case None => None
      case Some(k) => Some(k + 1)
  }

  /**
   * Lines 195-205 as written: the keys the pattern matches are collected, and
   * the first of them is compared with the exact keys. A matched key that is
   * neither (one with a trailing newline) assigns nothing, so `fast` keeps
   * the value `prev` it had for the previous entry, or is unbound (`None`)
   * for the first entry, and reading it raises `UnboundLocalError`.
   */
  function FastAsWritten(prev: Option<bool>, e: Entry): Option<bool> {
    match FirstModeMatch(e)
    case None => Some(false)
    case Some(i) =>
      if e[i].0 in FastKeys then Some(true)
      else if e[i].0 in OrderedKeys then Some(false)
      else prev
  }

  /** Without a mode key that carries a newline, the source computes the intended flag. */
  lemma FastAsWrittenAgrees(prev: Option<bool>, e: Entry)
    requires forall i :: 0 <= i < |e| ==> ModeKey(e[i].0) ==> ExactModeKey(e[i].0)
    ensures FastAsWritten(prev, e) == Some(FastFlag(e))
  {
    var m := FirstModeMatch(e);
    var k := FirstModeKey(e);
    if m.Some? {
      assert k.Some? && !(k.value < m.value) && !(m.value < k.value);
    } else {
      assert k.None?;
    }
  }

  /**
   * The key `"-f\n"` matches the pattern but is none of the four keys: as the
   * first entry it leaves `fast` unbound, later it repeats the previous
   * entry's mode, while every other entry without mode keys is ordered.
   */
  lemma FastAsWrittenNewlineKey()
    ensures FastAsWritten(None, [("-f\n", Null)]) == None
    ensures FastAsWritten(Some(true), [("-f\n", Null)]) == Some(true)
    ensures FastFlag([("-f\n", Null)]) == false
  {
    var e: Entry := [("-f\n", Null)];
    assert ModeKey(e[0].0) by {
      assert e[0].0[..|e[0].0| - 1] == "-f";
    }
    assert FirstModeMatch(e) == Some(0);
    assert !ExactModeKey(e[0].0);
    assert FirstModeKey(e[1..]) == None;
  }

  // ---------------------------------------------------------------------
  // One entry

  /** What one entry hands to `main`. */
  datatype EntryRun = EntryRun(browsers: seq<Value>, urls: seq<string>, fast: bool)

  /** The default browser is asked for only when the entry names no browser and no path. */
  predicate WantsDefault(e: Entry, default: Option<string>) {
    NameValues(e) == [] && PathValues(e) == [] && Truthy(default)
  }

  /**
   * `register_browser(path, path)` for each path value. A value that is not a
   * string cannot be registered: `webbrowser.register` raises on it and the
   * exception is logged, so it issues no registration here.
   */
  function PathRegs(paths: seq<Value>): seq<Registration>
    decreases |paths|
  {
    if paths == [] then []
    else
      var last := paths[|paths| - 1];
      PathRegs(paths[..|paths| - 1]) + (if last.Str? then [(last.s, last.s)] else [])
  }

  /** The registrations of the path values: each string path, under itself. */
  lemma {:induction false} PathRegsSpec(paths: seq<Value>)
    ensures forall x :: x in PathRegs(paths) <==> x.0 == x.1 && Str(x.0) in paths
    decreases |paths|
  {
    if paths != [] {
      var last := paths[|paths| - 1];
      PathRegsSpec(paths[..|paths| - 1]);
      assert paths == paths[..|paths| - 1] + [last];
    }
  }

  /** The registrations an entry issues: its paths, then the default browser. */
  function EntryRegs(e: Entry, default: Option<string>): seq<Registration> {
    PathRegs(PathValues(e)) + (if WantsDefault(e, default) then [(default.value, default.value)] else [])
  }

  /**
   * The browsers of an entry: the name values in key order, then the path
   * values in key order, or the default browser when there are neither.
   */
  function Interpret(e: Entry, default: Option<string>): EntryRun {
    EntryRun(
      NameValues(e) + PathValues(e) + (if WantsDefault(e, default) then [Str(default.value)] else []),
      Urls(e),
      FastFlag(e))
  }

  /** Every registration an entry issues registers a path under itself. */
  lemma EntryRegsSelf(e: Entry, default: Option<string>)
    ensures forall x :: x in EntryRegs(e, default) ==> x.0 == x.1
  {
    PathRegsSpec(PathValues(e));
  }

  /**
   * After an entry, every string path value that `webbrowser` accepted names
   * itself in the registry, and a name that is neither a path value nor the
   * default keeps its old path.
   */
  lemma EntryRegistersPaths(s: Registered, e: Entry, default: Option<string>, accepted: (string, string) -> bool, p: string)
    requires s.Valid()
    ensures Str(p) in PathValues(e) && accepted(p, p) ==> Lookup(PutAll(s, EntryRegs(e, default), accepted), p) == Some(p)
    ensures Str(p) !in PathValues(e) && !(WantsDefault(e, default) && default.value == p) ==>
      Lookup(PutAll(s, EntryRegs(e, default), accepted), p) == Lookup(s, p)
  {
    var regs := EntryRegs(e, default);
    PathRegsSpec(PathValues(e));
    PutAllLastWins(s, regs, accepted, p);
    if Str(p) in PathValues(e) && accepted(p, p) {
      assert (p, p) in regs;
      LastAcceptedOnly(regs, accepted, p, p);
    }
    if Str(p) !in PathValues(e) && !(WantsDefault(e, default) && default.value == p) {
      NeverAccepted(regs, accepted, p);
    }
  }

  /** One more path value adds at most one registration at the end. */
  lemma PathRegisterStep(s0: Registered, paths: seq<Value>, j: nat, accepted: (string, string) -> bool)
    requires s0.Valid() && j < |paths|
    ensures PutAll(s0, PathRegs(paths[..j + 1]), accepted) ==
            if paths[j].Str? then PutOne(PutAll(s0, PathRegs(paths[..j]), accepted), (paths[j].s, paths[j].s), accepted)
            else PutAll(s0, PathRegs(paths[..j]), accepted)
  {
    assert paths[..j + 1][..j] == paths[..j];
    if paths[j].Str? {
      PutAllSnoc(s0, PathRegs(paths[..j]), (paths[j].s, paths[j].s), accepted);
    } else {
      assert PathRegs(paths[..j]) + [] == PathRegs(paths[..j]);
    }
  }

  /** Lines 168-170: `register_browser(path, path)` for every path value, in order. */
  method RegisterPaths(reg: BrowserRegistry, accepted: (string, string) -> bool, paths: seq<Value>)
    requires reg.Valid()
    modifies reg
    ensures reg.Valid()
    ensures reg.View() == PutAll(old(reg.View()), PathRegs(paths), accepted)
  {
    ghost var s0 := reg.View();
    for j := 0 to |paths|
      invariant reg.Valid()
      invariant reg.View() == PutAll(s0, PathRegs(paths[..j]), accepted)
    {
      PathRegisterStep(s0, paths, j, accepted);
      var path := paths[j];
      if path.Str? {
        reg.Register(path.s, path.s, accepted(path.s, path.s));
      }
    }
    assert paths[..|paths|] == paths;
  }

  /**
   * Lines 174-178: when the browser list is still empty, the default browser
   * from the Windows registry, registered under itself and appended.
   */
  method AddDefault(reg: BrowserRegistry, registry: WinRegistry, accepted: (string, string) -> bool, browsers0: seq<Value>)
    returns (browsers: seq<Value>)
    requires reg.Valid()
    modifies reg
    ensures reg.Valid()
    ensures var d := DefaultBrowserPath(registry);
      && reg.View() == PutAll(old(reg.View()), if browsers0 == [] && Truthy(d) then [(d.value, d.value)] else [], accepted)
      && browsers == browsers0 + (if browsers0 == [] && Truthy(d) then [Str(d.value)] else [])
  {
    browsers := browsers0;
    if browsers == [] {
      var default := DefaultBrowserPath(registry);
      if Truthy(default) {
        PutAllSnoc(reg.View(), [], (default.value, default.value), accepted);
        reg.Register(default.value, default.value, accepted(default.value, default.value));
        browsers := browsers + [Str(default.value)];
      }
    }
  }

  /**
   * Lines 152-205 for one entry `e`: the browser list built with `extend` and
   * `append`, the paths registered, the default browser looked up in the
   * Windows registry only when the list is still empty.
   */
  method InterpretEntry(reg: BrowserRegistry, registry: WinRegistry, accepted: (string, string) -> bool, e: Entry)
    returns (run: EntryRun)
    requires reg.Valid()
    modifies reg
    ensures reg.Valid()
    ensures reg.View() == PutAll(old(reg.View()), EntryRegs(e, DefaultBrowserPath(registry)), accepted)
    ensures run == Interpret(e, DefaultBrowserPath(registry))
  {
    ghost var s0 := reg.View();
    var browsers: seq<Value> := [];
    var names := NameValues(e);
    if names != [] {
      browsers := browsers + names;
    }
    var paths := PathValues(e);
    if paths != [] {
      RegisterPaths(reg, accepted, paths);
      browsers := browsers + paths;
    } else {
      assert PathRegs(paths) == [];
    }
    ghost var s1 := reg.View();
    assert browsers == names + paths;
    browsers := AddDefault(reg, registry, accepted, browsers);
    ghost var d := DefaultBrowserPath(registry);
    PutAllAppend(s0, PathRegs(paths), if WantsDefault(e, d) then [(d.value, d.value)] else [], accepted);
    run := EntryRun(browsers, Urls(e), FastFlag(e));
  }

  // ---------------------------------------------------------------------
  // load_parameter_file

  datatype Format = Yaml | Json | Toml

  /**
   * What reading the file with the chosen loader gives: the file is missing,
   * the loader raised its decode error, or the decoded value.
   */
  datatype FileState = Missing | Undecodable | Decoded(content: Value)

  /** The last index of `c` in `s[..n]`. */
  function LastIndexBelow(s: string, c: char, n: nat): (r: Option<nat>)
    requires n <= |s|
    ensures r.Some? ==> r.value < n && s[r.value] == c && forall j :: r.value < j < n ==> s[j] != c
    ensures r.None? ==> forall j :: 0 <= j < n ==> s[j] != c
  {
    if n == 0 then None
    else if s[n - 1] == c then Some(n - 1)
    else LastIndexBelow(s, c, n - 1)
  }

  /** `s.rfind(c)`. */
  function LastIndexOf(s: string, c: char): Option<nat> {
    LastIndexBelow(s, c, |s|)
  }

  predicate IsSeparator(c: char, windows: bool) {
    c == '/' || (windows && c == '\\')
  }

  /** The last index of a path separator in `path[..n]`: `/`, and on Windows also `\`. */
  function LastSeparatorBelow(path: string, windows: bool, n: nat): (r: Option<nat>)
    requires n <= |path|
    ensures r.Some? ==> r.value < n && IsSeparator(path[r.value], windows)
    ensures r.Some? ==> forall j :: r.value < j < n ==> !IsSeparator(path[j], windows)
    ensures r.None? ==> forall j :: 0 <= j < n ==> !IsSeparator(path[j], windows)
  {
    if n == 0 then None
    else if IsSeparator(path[n - 1], windows) then Some(n - 1)
    else LastSeparatorBelow(path, windows, n - 1)
  }

  /** `Path(path).name`: the last component that is neither empty nor `.`. */
  function FileName(path: string, windows: bool): (r: string)
    ensures forall j :: 0 <= j < |r| ==> !IsSeparator(r[j], windows)
    ensures r != "."
    ensures LastSeparatorBelow(path, windows, |path|).None? ==> r == if path == "." then "" else path
    decreases |path|
  {
    match LastSeparatorBelow(path, windows, |path|)
    case None => if path == "." then "" else path
    case Some(i) =>
      var last := path[i + 1..];
      assert forall j :: 0 <= j < |last| ==> last[j] == path[i + 1 + j];
      if last == "" || last == "." then FileName(path[..i], windows) else last
  }

  /** `PurePath.suffix` of a file name: from its last dot, unless that dot is first or last. */
  function Suffix(name: string): (r: string)
    ensures r == "" || (|r| >= 2 && r[0] == '.')
  {
    match LastIndexOf(name, '.')
    case None => ""
    case Some(i) => if 0 < i < |name| - 1 then name[i..] else ""
  }

  function FormatOf(suffix: string): Option<Format> {
    if suffix == ".yml" || suffix == ".yaml" then Some(Yaml)
    else if suffix == ".json" then Some(Json)
    else if suffix == ".toml" then Some(Toml)
    else None
  }

  /**
   * The suffix is the part of the name from its last dot on, and it is empty
   * exactly when that dot is missing, leads the name or ends it.
   */
  lemma SuffixSpec(name: string)
    ensures Suffix(name) != "" ==> exists i :: 0 < i < |name| - 1 && name[i..] == Suffix(name) && '.' !in name[i + 1..]
    ensures Suffix(name) == "" <==> forall i :: 0 < i < |name| - 1 ==> name[i] == '.' ==> '.' in name[i + 1..]
  {
    match LastIndexOf(name, '.')
    case None =>
    case Some(i) =>
      if 0 < i < |name| - 1 {
        var tail := name[i + 1..];
        assert forall k :: 0 <= k < |tail| ==> tail[k] == name[i + 1 + k];
        assert name[i..][0] == '.';
        assert name[i..] == Suffix(name);
      } else if i == |name| - 1 {
        forall j | 0 < j < |name| - 1 && name[j] == '.'
          ensures '.' in name[j + 1..]
        {
          assert name[j + 1..][i - j - 1] == name[i];
        }
      }
  }

  /** The loader is chosen by the exact, case-sensitive suffix. */
  lemma FormatOfSpec(suffix: string)
    ensures FormatOf(suffix) == Some(Yaml) <==> suffix in [".yml", ".yaml"]
    ensures FormatOf(suffix) == Some(Json) <==> suffix == ".json"
    ensures FormatOf(suffix) == Some(Toml) <==> suffix == ".toml"
    ensures FormatOf(".YAML") == None && FormatOf(".Json") == None
  {
  }

  /**
   * `load_parameter_file(path)`. An unknown suffix gets the loader
   * `lambda *a: None`, so an existing file gives None; a missing file and a
   * decode error give the empty mapping.
   */
  function LoadParameterFile(path: string, windows: bool, file: FileState): (r: Value)
    ensures file.Missing? ==> r == Table([])
    ensures FormatOf(Suffix(FileName(path, windows))).None? && !file.Missing? ==> r == Null
    ensures FormatOf(Suffix(FileName(path, windows))).Some? && file.Undecodable? ==> r == Table([])
    ensures FormatOf(Suffix(FileName(path, windows))).Some? && file.Decoded? ==> r == file.content
  {
    match file
    case Missing => Table([])
    case Undecodable => if FormatOf(Suffix(FileName(path, windows))).Some? then Table([]) else Null
    case Decoded(content) => if FormatOf(Suffix(FileName(path, windows))).Some? then content else Null
  }

  lemma {:induction false} LastSeparatorAt(path: string, windows: bool, n: nat, k: nat)
    requires k < n <= |path| && IsSeparator(path[k], windows)
    requires forall j :: k < j < n ==> !IsSeparator(path[j], windows)
    ensures LastSeparatorBelow(path, windows, n) == Some(k)
    decreases n
  {
    if n - 1 != k {
      LastSeparatorAt(path, windows, n - 1, k);
    }
  }

  lemma {:induction false} LastIndexAt(s: string, c: char, n: nat, k: nat)
    requires k < n <= |s| && s[k] == c
    requires forall j :: k < j < n ==> s[j] != c
    ensures LastIndexBelow(s, c, n) == Some(k)
    decreases n
  {
    if n - 1 != k {
      LastIndexAt(s, c, n - 1, k);
    }
  }

  /**
   * The name of `dir/name` is `name` when `name` is a proper component,
   * whichever separator joins them (on Windows `\` as well as `/`).
   */
  lemma FileNameOfJoined(dir: string, sep: char, name: string, windows: bool)
    requires IsSeparator(sep, windows)
    requires name != "" && name != "."
    requires forall j :: 0 <= j < |name| ==> !IsSeparator(name[j], windows)
    ensures FileName(dir + [sep] + name, windows) == name
  {
    var path := dir + [sep] + name;
    assert path[|dir|] == sep;
    assert path[|dir| + 1..] == name;
    forall j | |dir| < j < |path| ensures !IsSeparator(path[j], windows) {
      assert path[j] == path[|dir| + 1..][j - |dir| - 1];
    }
    LastSeparatorAt(path, windows, |path|, |dir|);
    FileNameAfter(path, windows, |dir|);
  }

  /** A path whose last separator is followed by a proper component is named by that component. */
  lemma FileNameAfter(path: string, windows: bool, i: nat)
    requires i < |path| && LastSeparatorBelow(path, windows, |path|) == Some(i)
    requires path[i + 1..] != "" && path[i + 1..] != "."
    ensures FileName(path, windows) == path[i + 1..]
  {
  }

  /** A trailing separator, or a trailing `.` component, does not change the name: `a/` and `a/.` are named `a`. */
  lemma FileNameTrailing(path: string, sep: char, windows: bool)
    requires IsSeparator(sep, windows)
    ensures FileName(path + [sep], windows) == FileName(path, windows)
    ensures FileName(path + [sep, '.'], windows) == FileName(path, windows)
  {
    var p1 := path + [sep];
    LastSeparatorAt(p1, windows, |p1|, |path|);
    assert p1[..|path|] == path;
    var p2 := path + [sep, '.'];
    assert !IsSeparator(p2[|path| + 1], windows);
    LastSeparatorAt(p2, windows, |p2|, |path|);
    assert p2[|path| + 1..] == ".";
    assert p2[..|path|] == path;
  }

  /** The suffix of `stem.ext` is `.ext` when `stem` is not empty and `ext` is a non-empty run without dots. */
  lemma SuffixOfJoined(stem: string, ext: string)
    requires stem != "" && ext != "" && '.' !in ext
    ensures Suffix(stem + "." + ext) == "." + ext
  {
    var name := stem + "." + ext;
    assert name[|stem|] == '.';
    assert forall j :: |stem| < j < |name| ==> name[j] == ext[j - |stem| - 1];
    LastIndexAt(name, '.', |name|, |stem|);
    assert name[|stem|..] == "." + ext;
  }

  /**
   * For `dir/stem.ext`, where `stem` and `ext` are non-empty and hold no
   * separator and `ext` no dot, the loader is chosen by `.ext` alone,
   * whatever the directories are called.
   */
  lemma LoadBySuffix(dir: string, stem: string, ext: string, windows: bool, content: Value)
    requires stem != "" && ext != "" && '.' !in ext
    requires forall j :: 0 <= j < |stem| ==> !IsSeparator(stem[j], windows)
    requires forall j :: 0 <= j < |ext| ==> !IsSeparator(ext[j], windows)
    ensures LoadParameterFile(dir + "/" + stem + "." + ext, windows, Decoded(content)) ==
            if FormatOf("." + ext).Some? then content else Null
  {
    var name := stem + "." + ext;
    forall j | 0 <= j < |name| ensures !IsSeparator(name[j], windows) {
      if j < |stem| {
        assert name[j] == stem[j];
      } else if j > |stem| {
        assert name[j] == ext[j - |stem| - 1];
      }
    }
    assert |name| >= 3;
    assert dir + "/" + stem + "." + ext == dir + ['/'] + name;
    FileNameOfJoined(dir, '/', name, windows);
    SuffixOfJoined(stem, ext);
  }

  /** The match is case-sensitive, and a name that is all suffix has none. */
  lemma SuffixExamples()
    ensures Suffix("params.YAML") == ".YAML" && FormatOf(Suffix("params.YAML")).None?
    ensures Suffix(".yaml") == "" && FormatOf(Suffix(".yaml")).None?
  {
    SuffixOfJoined("params", "YAML");
    assert "params" + "." + "YAML" == "params.YAML";
    LastIndexAt(".yaml", '.', 5, 0);
  }

  // ---------------------------------------------------------------------
  // run_with_parameter_file

  /**
   * The outcome of a run: `Crashed(k)` is the `AttributeError` of calling
   * `.items()` on something that is not a mapping (the loaded value itself
   * when `k == 0` and nothing was read, otherwise entry `k - 1`), raised
   * before any thread starts; `Ran` holds what every entry's thread hands to
   * `main` and the plan `main` then carries out.
   */
  datatype ParamRun = Crashed(at: nat) | Ran(runs: seq<EntryRun>, plans: seq<PlanResult>)

  /** The index of the first entry whose value is not a mapping, or the number of entries. */
  function FirstNonTable(es: seq<(string, Value)>): (k: nat)
    ensures k <= |es| && (k < |es| ==> !es[k].1.Table?)
    ensures forall j :: 0 <= j < k ==> es[j].1.Table?
  {
    if es == [] then 0
    else if !es[0].1.Table? then 0
    else
      var k := FirstNonTable(es[1..]);
      assert forall j :: 1 <= j < k + 1 ==> es[j] == es[1..][j - 1];
      k + 1
  }

  function EntryOf(v: Value): Entry {
    if v.Table? then v.entries else []
  }

  /** The registrations of the entries in order. */
  function AllRegs(es: seq<(string, Value)>, default: Option<string>): seq<Registration>
    decreases |es|
  {
    if es == [] then []
    else AllRegs(es[..|es| - 1], default) + EntryRegs(EntryOf(es[|es| - 1].1), default)
  }

  /** What the entries hand to `main`, in order. */
  function AllRuns(es: seq<(string, Value)>, default: Option<string>): seq<EntryRun> {
    seq(|es|, j requires 0 <= j < |es| => Interpret(EntryOf(es[j].1), default))
  }

  /** The strings of a browser list that holds nothing else. */
  function BrowserStrings(vs: seq<Value>): (r: seq<string>)
    requires forall i :: 0 <= i < |vs| ==> vs[i].Str?
    ensures |r| == |vs| && forall i :: 0 <= i < |vs| ==> vs[i] == Str(r[i])
  {
    seq(|vs|, i requires 0 <= i < |vs| => vs[i].s)
  }

  /**
   * `main(browsers, urls, fast)` in an entry's thread. A browser value that
   * is not a string makes `webbrowser.get` raise.
   */
  function EntryPlan(s: Registered, run: EntryRun): PlanResult {
    if forall i :: 0 <= i < |run.browsers| ==> run.browsers[i].Str? then Plan(s, BrowserStrings(run.browsers), run.urls, run.fast)
    else NotAString
  }

  function Plans(s: Registered, runs: seq<EntryRun>): seq<PlanResult> {
    seq(|runs|, j requires 0 <= j < |runs| => EntryPlan(s, runs[j]))
  }

  /**
   * The whole run on the loaded value `doc`: every entry's registrations in
   * order, then, when every entry was a mapping, the plans of all threads,
   * which start only after the last entry and so all see the final registry.
   */
  function RunSpec(s: Registered, doc: Value, default: Option<string>, accepted: (string, string) -> bool): (Registered, ParamRun)
    requires s.Valid()
  {
    if !doc.Table? then (s, Crashed(0))
    else
      var es := doc.entries;
      var k := FirstNonTable(es);
      var s' := PutAll(s, AllRegs(es[..k], default), accepted);
      if k < |es| then (s', Crashed(k + 1))
      else (s', Ran(AllRuns(es, default), Plans(s', AllRuns(es, default))))
  }

  /** A value that is not a mapping, such as an empty YAML file's None, stops the run before anything happens. */
  lemma RunWithoutMapping(s: Registered, doc: Value, default: Option<string>, accepted: (string, string) -> bool)
    requires s.Valid() && !doc.Table?
    ensures RunSpec(s, doc, default, accepted) == (s, Crashed(0))
  {
  }

  /**
   * Entry after entry, registrations accumulate: a path given by any entry
   * that was accepted names itself in the final registry unless a later
   * entry registered the same name, which with paths registered under
   * themselves can only register it again to the same path.
   */
  lemma {:induction false} AllRegsSelf(es: seq<(string, Value)>, default: Option<string>)
    ensures forall x :: x in AllRegs(es, default) ==> x.0 == x.1
    decreases |es|
  {
    if es != [] {
      AllRegsSelf(es[..|es| - 1], default);
      EntryRegsSelf(EntryOf(es[|es| - 1].1), default);
    }
  }

  lemma AllRegsSnoc(es: seq<(string, Value)>, i: nat, default: Option<string>)
    requires i < |es|
    ensures AllRegs(es[..i + 1], default) == AllRegs(es[..i], default) + EntryRegs(EntryOf(es[i].1), default)
  {
    assert es[..i + 1][..i] == es[..i];
  }

  lemma AllRunsSnoc(es: seq<(string, Value)>, i: nat, default: Option<string>)
    requires i < |es|
    ensures AllRuns(es[..i + 1], default) == AllRuns(es[..i], default) + [Interpret(EntryOf(es[i].1), default)]
  {
    var a := AllRuns(es[..i + 1], default);
    var b := AllRuns(es[..i], default) + [Interpret(EntryOf(es[i].1), default)];
    assert |a| == |b|;
    forall j | 0 <= j < |a| ensures a[j] == b[j] {
      if j < i {
        assert es[..i + 1][j] == es[..i][j];
      }
    }
  }

  lemma PlansSnoc(s: Registered, runs: seq<EntryRun>, j: nat)
    requires j < |runs|
    ensures Plans(s, runs[..j + 1]) == Plans(s, runs[..j]) + [EntryPlan(s, runs[j])]
  {
    var a := Plans(s, runs[..j + 1]);
    var b := Plans(s, runs[..j]) + [EntryPlan(s, runs[j])];
    assert |a| == |b|;
    forall k | 0 <= k < |a| ensures a[k] == b[k] {
      if k < j {
        assert runs[..j + 1][k] == runs[..j][k];
      }
    }
  }

  /**
   * The loop over the entries of `run_with_parameter_file`: each mapping
   * entry is interpreted in turn, and the first entry that is not a mapping
   * (at index `k`) stops the loop with the registrations of the entries
   * before it applied.
   */
  method InterpretEntries(reg: BrowserRegistry, registry: WinRegistry, accepted: (string, string) -> bool,
                          es: seq<(string, Value)>) returns (runs: seq<EntryRun>, k: nat)
    requires reg.Valid()
    modifies reg
    ensures reg.Valid()
    ensures k == FirstNonTable(es)
    ensures reg.View() == PutAll(old(reg.View()), AllRegs(es[..k], DefaultBrowserPath(registry)), accepted)
    ensures k == |es| ==> runs == AllRuns(es, DefaultBrowserPath(registry))
  {
    ghost var s0 := reg.View();
    ghost var d := DefaultBrowserPath(registry);
    runs := [];
    for i := 0 to |es|
      invariant reg.Valid()
      invariant i <= FirstNonTable(es)
      invariant reg.View() == PutAll(s0, AllRegs(es[..i], d), accepted)
      invariant runs == AllRuns(es[..i], d)
    {
      FirstNonTableStep(es, i);
      if !es[i].1.Table? {
        return runs, i;
      }
      AllRegsSnoc(es, i, d);
      AllRunsSnoc(es, i, d);
      PutAllAppend(s0, AllRegs(es[..i], d), EntryRegs(EntryOf(es[i].1), d), accepted);
      var run := InterpretEntry(reg, registry, accepted, es[i].1.entries);
      runs := runs + [run];
    }
    assert es[..|es|] == es;
    k := |es|;
  }

  /** `t.start()` for every thread, in order: each runs `main` against the registry `s`. */
  method StartThreads(s: Registered, runs: seq<EntryRun>) returns (plans: seq<PlanResult>)
    ensures plans == Plans(s, runs)
  {
    plans := [];
    for j := 0 to |runs|
      invariant plans == Plans(s, runs[..j])
    {
      PlansSnoc(s, runs, j);
      plans := plans + [EntryPlan(s, runs[j])];
    }
    assert runs[..|runs|] == runs;
  }

  /**
   * `run_with_parameter_file(p_file_path)` for a file in the state `file`:
   * load, interpret every entry in a loop, then start one thread per entry.
   */
  method RunWithParameterFile(reg: BrowserRegistry, host: Host, path: string, file: FileState) returns (r: ParamRun)
    requires reg.Valid()
    modifies reg
    ensures reg.Valid()
    ensures (reg.View(), r) == RunSpec(old(reg.View()), LoadParameterFile(path, host.system == "Windows", file),
                                       DefaultBrowserPath(host.registry), host.accepted)
  {
    var doc := LoadParameterFile(path, host.system == "Windows", file);
    if !doc.Table? {
      return Crashed(0);
    }
    var runs, k := InterpretEntries(reg, host.registry, host.accepted, doc.entries);
    if k < |doc.entries| {
      return Crashed(k + 1);
    }
    var plans := StartThreads(reg.View(), runs);
    r := Ran(runs, plans);
  }

  /** Walking the entries in order, the first one that is not a mapping is the one `FirstNonTable` finds. */
  lemma FirstNonTableStep(es: seq<(string, Value)>, i: nat)
    requires i < |es| && i <= FirstNonTable(es)
    ensures !es[i].1.Table? ==> FirstNonTable(es) == i
    ensures es[i].1.Table? ==> i + 1 <= FirstNonTable(es)
  {
  }
}
