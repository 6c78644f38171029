/**
 * Reading browser paths out of Windows registry commands.
 *
 * The Windows registry is a parameter: `values(hive, key, valueName)` is what
 * `winreg.QueryValueEx(winreg.OpenKey(hive, key), valueName)[0]` returns, or
 * None when opening the key or querying the value raises `WindowsError`;
 * `subkeys(hive, key)` is the list of subkey names `winreg.EnumKey` yields
 * for a key, or None when the key cannot be opened.
 */
module WindowsPaths {
  import opened Base

  datatype Hive = LocalMachine | CurrentUser | ClassesRoot

  datatype WinRegistry = WinRegistry(
    subkeys: (Hive, string) -> Option<seq<string>>,
    values: (Hive, string, string) -> Option<string>)

  const Quote := '"'
  const Exe := ".exe"

  /** The key holding the command that launches the browser registered as `name`. */
  function BrowserCommandKey(name: string): string {
    "Software\\Clients\\StartMenuInternet\\" + name + "\\shell\\open\\command"
  }

  /** The key whose `ProgID` value names the handler of https links. */
  const UserChoiceKey := "Software\\Microsoft\\Windows\\Shell\\Associations\\UrlAssociations\\https\\UserChoice"

  function ProgIdCommandKey(progId: string): string {
    progId + "\\shell\\open\\command"
  }

  // ---------------------------------------------------------------------
  // get_browser_path_windows

  /** `command.replace('"', "")`. */
  function RemoveQuotes(s: string): (r: string)
    ensures Quote !in r
    ensures multiset(r) == multiset(s)[Quote := 0]
  {
    if s == [] then []
    else
      assert s == [s[0]] + s[1..];
      (if s[0] == Quote then [] else [s[0]]) + RemoveQuotes(s[1..])
  }

  /** Deleting the quotes of a concatenation deletes them from each part. */
  lemma {:induction false} RemoveQuotesAppend(a: string, b: string)
    ensures RemoveQuotes(a + b) == RemoveQuotes(a) + RemoveQuotes(b)
    decreases |a|
  {
    if a != [] {
      var ab := a + b;
      assert ab[0] == a[0] && ab[1..] == a[1..] + b;
      RemoveQuotesAppend(a[1..], b);
      var h := if a[0] == Quote then [] else [a[0]];
      assert RemoveQuotes(ab) == h + RemoveQuotes(a[1..] + b);
      assert RemoveQuotes(a) == h + RemoveQuotes(a[1..]);
      AppendAssoc(h, RemoveQuotes(a[1..]), RemoveQuotes(b));
    } else {
      assert a + b == b;
    }
  }

  /** A command without quotes comes back unchanged, so stripping is idempotent. */
  lemma {:induction false} RemoveQuotesUnquoted(s: string)
    requires Quote !in s
    ensures RemoveQuotes(s) == s
    decreases |s|
  {
    if s != [] {
      RemoveQuotesUnquoted(s[1..]);
    }
  }

  /**
   * `get_browser_path_windows(name)`: the default value of the browser's
   * `shell\open\command` key under HKEY_LOCAL_MACHINE, quotes removed; None
   * when the registry raises. The key is always looked up without
   * `WOW6432Node`, whichever of the two enumerated keys the name came from.
   */
  function BrowserPath(reg: WinRegistry, name: string): (r: Option<string>)
    ensures r.Some? <==> reg.values(LocalMachine, BrowserCommandKey(name), "").Some?
    ensures r.Some? ==> Quote !in r.value
    ensures r.Some? ==> r.value == RemoveQuotes(reg.values(LocalMachine, BrowserCommandKey(name), "").value)
    ensures r.Some? ==> multiset(r.value) == multiset(reg.values(LocalMachine, BrowserCommandKey(name), "").value)[Quote := 0]
  {
    match reg.values(LocalMachine, BrowserCommandKey(name), "")
    case None => None
    case Some(command) => Some(RemoveQuotes(command))
  }

  // ---------------------------------------------------------------------
  // get_default_browser_path_windows: re.search(r'"?([^"]+\.exe)"?', command)

  predicate EndsExe(s: string, e: int) {
    4 <= e <= |s| && s[e - 4..e] == Exe
  }

  /**
   * `s[a..e]` is a string the group `[^"]+\.exe` can match: no quote, at
   * least one character, then `.exe`.
   */
  ghost predicate ExeMatch(s: string, a: int, e: int) {
    0 <= a && a + 5 <= e <= |s| && EndsExe(s, e) && forall k :: a <= k < e ==> s[k] != Quote
  }

  /** The end of the quote-free run starting at `i`. */
  function NextQuote(s: string, i: nat): (j: nat)
    requires i <= |s|
    ensures i <= j <= |s|
    ensures j < |s| ==> s[j] == Quote
    ensures forall k :: i <= k < j ==> s[k] != Quote
    decreases |s| - i
  {
    if i == |s| || s[i] == Quote then i else NextQuote(s, i + 1)
  }

  /** The largest `e` in `lo + 5 .. hi` where `.exe` ends, if any. */
  function LastExeEnd(s: string, lo: nat, hi: nat): (r: Option<nat>)
    requires lo <= hi <= |s|
    ensures r.Some? ==> lo + 5 <= r.value <= hi && EndsExe(s, r.value)
    ensures r.Some? ==> forall e :: r.value < e <= hi ==> !EndsExe(s, e)
    ensures r.None? ==> forall e :: lo + 5 <= e <= hi ==> !EndsExe(s, e)
    decreases hi
  {
    if hi < lo + 5 then None
    else if s[hi - 4..hi] == Exe then Some(hi)
    else LastExeEnd(s, lo, hi - 1)
  }

  /**
   * Splits `s` on `"` from piece start `i` on and returns the span of the
   * first piece that has `.exe` at an index of at least 1, cut just after the
   * last such `.exe`.
   */
  function SearchFrom(s: string, i: nat): Option<(nat, nat)>
    requires i <= |s|
    decreases |s| - i
  {
    var j := NextQuote(s, i);
    match LastExeEnd(s, i, j)
    case Some(e) => Some((i, e))
    case None => if j == |s| then None else SearchFrom(s, j + 1)
  }

  function ExeSpan(s: string): Option<(nat, nat)> {
    SearchFrom(s, 0)
  }

  /** `t` occurs in `s` as a contiguous run. */
  predicate Substring(t: string, s: string) {
    exists a, b :: 0 <= a <= b <= |s| && s[a..b] == t
  }

  /**
   * `match.group(1) if match else None`: None exactly when the command holds
   * no quote-free `x.exe`; otherwise the group of the leftmost match, which
   * starts at the command's start or just after a quote and extends as far
   * as a match from there can.
   */
  function ExeSearch(s: string): (r: Option<string>)
    ensures r.None? <==> forall a, e :: !ExeMatch(s, a, e)
    ensures r.Some? ==> exists a, e :: LeftmostLongest(s, a, e) && r.value == s[a..e]
    ensures r.Some? ==> Quote !in r.value
    ensures r.Some? ==> |r.value| >= 5 && r.value[|r.value| - 4..] == Exe
    ensures r.Some? ==> Substring(r.value, s)
  {
    ExeSpanIsRegexGroup(s);
    match ExeSpan(s)
    case None => None
    case Some(span) =>
      assert LeftmostLongest(s, span.0, span.1);
      assert forall k :: 0 <= k < span.1 - span.0 ==> s[span.0..span.1][k] == s[span.0 + k];
      assert Substring(s[span.0..span.1], s);
      Some(s[span.0..span.1])
  }

  /**
   * `s[a..e]` is the group `re.search` reports: a match that starts at the
   * command's start or after a quote, with no match starting earlier and
   * none from `a` ending later.
   */
  ghost predicate LeftmostLongest(s: string, a: int, e: int) {
    && ExeMatch(s, a, e)
    && (a == 0 || s[a - 1] == Quote)
    && (forall a', e' :: a' < a ==> !ExeMatch(s, a', e'))
    && (forall e' :: e < e' ==> !ExeMatch(s, a, e'))
  }

  /** No match can start inside a piece whose `.exe` search came up empty. */
  lemma NoMatchInPiece(s: string, i: nat)
    requires i <= |s|
    requires LastExeEnd(s, i, NextQuote(s, i)).None?
    ensures forall a, e :: i <= a <= NextQuote(s, i) ==> !ExeMatch(s, a, e)
  {
    var j := NextQuote(s, i);
    forall a, e | i <= a <= j
      ensures ExeMatch(s, a, e) ==> e <= j
    {
    }
  }

  /** When the search comes up empty, no match starts at `i` or later. */
  lemma {:induction false} SearchFromNone(s: string, i: nat)
    requires i <= |s|
    ensures SearchFrom(s, i).None? ==> forall a, e :: i <= a ==> !ExeMatch(s, a, e)
    decreases |s| - i
  {
    var j := NextQuote(s, i);
    if LastExeEnd(s, i, j).None? {
      NoMatchInPiece(s, i);
      if j < |s| {
        SearchFromNone(s, j + 1);
      }
    }
  }

  /**
   * `s[a..e]` is what the search from `i` should find: a match that starts
   * at `i` or just after a quote, with no match starting earlier (from `i`
   * on) and none from `a` ending later.
   */
  ghost predicate FoundFrom(s: string, i: nat, a: int, e: int) {
    && i <= a
    && ExeMatch(s, a, e)
    && (a == i || s[a - 1] == Quote)
    && (forall a', e' :: i <= a' < a ==> !ExeMatch(s, a', e'))
    && (forall e' :: e < e' ==> !ExeMatch(s, a, e'))
  }

  /** A span found from `i` is the earliest match from `i` and the longest from its start. */
  lemma {:induction false} SearchFromSome(s: string, i: nat)
    requires i <= |s|
    ensures SearchFrom(s, i).Some? ==> FoundFrom(s, i, SearchFrom(s, i).value.0, SearchFrom(s, i).value.1)
    decreases |s| - i
  {
    var j := NextQuote(s, i);
    match LastExeEnd(s, i, j)
    case Some(e) =>
      FoundInPiece(s, i, e);
    case None =>
      if j < |s| {
        assert SearchFrom(s, i) == SearchFrom(s, j + 1);
        SearchFromSome(s, j + 1);
        if SearchFrom(s, j + 1).Some? {
          var (a, e) := SearchFrom(s, j + 1).value;
          FoundPastPiece(s, i, a, e);
        }
      }
  }

  /** A `.exe` end inside the first piece gives a match from `i` that no longer one beats. */
  lemma FoundInPiece(s: string, i: nat, e: nat)
    requires i <= |s| && LastExeEnd(s, i, NextQuote(s, i)) == Some(e)
    ensures FoundFrom(s, i, i, e)
  {
    var j := NextQuote(s, i);
    assert forall k :: i <= k < e ==> s[k] != Quote;
    assert ExeMatch(s, i, e);
    forall e' | e < e'
      ensures ExeMatch(s, i, e') ==> e' <= j
    {
    }
  }

  /** When the first piece holds no match, what is found after its quote is found from `i`. */
  lemma FoundPastPiece(s: string, i: nat, a: int, e: int)
    requires i <= |s| && LastExeEnd(s, i, NextQuote(s, i)).None? && NextQuote(s, i) < |s|
    requires FoundFrom(s, NextQuote(s, i) + 1, a, e)
    ensures FoundFrom(s, i, a, e)
  {
    var j := NextQuote(s, i);
    NoMatchInPiece(s, i);
    assert s[j] == Quote;
  }

  /**
   * The span the model returns is exactly the group of the leftmost match:
   * None when no quote-free `x.exe` occurs anywhere in the command; otherwise
   * the group starts at the smallest possible position (at the start of the
   * command or just after a quote) and, `[^"]+` being greedy, ends after the
   * last `.exe` that can still be reached from there.
   */
  lemma ExeSpanIsRegexGroup(s: string)
    ensures ExeSpan(s).None? ==> forall a, e :: !ExeMatch(s, a, e)
    ensures ExeSpan(s).Some? ==>
      var (a, e) := ExeSpan(s).value;
      && ExeMatch(s, a, e)
      && (a == 0 || s[a - 1] == Quote)
      && (forall a', e' :: a' < a ==> !ExeMatch(s, a', e'))
      && (forall e' :: e < e' ==> !ExeMatch(s, a, e'))
  {
    SearchFromNone(s, 0);
    SearchFromSome(s, 0);
  }

  /**
   * `get_default_browser_path_windows()`: the ProgID that opens https links
   * (HKEY_CURRENT_USER), then that ProgID's `shell\open\command`
   * (HKEY_CLASSES_ROOT), then the `.exe` path inside it. A registry error at
   * either step, or a command without a match, gives None.
   */
  function DefaultBrowserPath(reg: WinRegistry): (r: Option<string>)
    ensures reg.values(CurrentUser, UserChoiceKey, "ProgID").None? ==> r.None?
    ensures var progId := reg.values(CurrentUser, UserChoiceKey, "ProgID");
      progId.Some? ==> var command := reg.values(ClassesRoot, ProgIdCommandKey(progId.value), "");
        && (command.None? ==> r.None?)
        && (command.Some? ==> r == ExeSearch(command.value))
    ensures r.Some? ==> var progId := reg.values(CurrentUser, UserChoiceKey, "ProgID").value;
      var command := reg.values(ClassesRoot, ProgIdCommandKey(progId), "");
      command.Some? && Substring(r.value, command.value) && r == ExeSearch(command.value)
    ensures r.Some? ==> Quote !in r.value && |r.value| >= 5 && r.value[|r.value| - 4..] == Exe
    ensures r.Some? ==> Truthy(r)
  {
    match reg.values(CurrentUser, UserChoiceKey, "ProgID")
    case None => None
    case Some(progId) =>
      match reg.values(ClassesRoot, ProgIdCommandKey(progId), "")
      case None => None
      case Some(command) => ExeSearch(command)
  }

  /** A command line of the usual shape gives the quoted executable. */
  lemma ExeSearchQuotedCommand()
    ensures ExeSearch("\"C:\\b.exe\" -- \"%1\"") == Some("C:\\b.exe")
  {
    var s := "\"C:\\b.exe\" -- \"%1\"";
    assert NextQuote(s, 0) == 0;
    assert LastExeEnd(s, 0, 0).None?;
    assert NextQuote(s, 1) == 9 by {
      assert s[9] == Quote;
      assert forall k :: 1 <= k < 9 ==> s[k] != Quote;
    }
    assert s[5..9] == Exe;
    assert LastExeEnd(s, 1, 9) == Some(9);
    assert s[1..9] == "C:\\b.exe";
  }
}
