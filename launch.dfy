/**
 * What `main` does with a list of browser names, a list of URLs and the
 * `fast_mode` flag: one `open_urls_in_browser` task per name, each starting
 * the registered executable and then opening the URLs with the chosen
 * strategy. Only the dispatch is modelled: which executable is started for
 * which name, and which URLs are opened in it, in order or all at once.
 */
module Launch {
  import opened Base
  import opened Registry

  /**
   * How one browser's URLs are opened: `open_urls_ordered` awaits each
   * `open_url` before the next, so the URLs form a sequence;
   * `open_urls_fast` gathers them all, so only how often each URL is opened
   * is fixed.
   */
  datatype Opening = InOrder(sequence: seq<string>) | AllAtOnce(bag: multiset<string>)

  /** One task: the process started for `name` with its registered `path`, then the URLs. */
  datatype Launch = Launch(name: string, path: string, opening: Opening)

  /**
   * The plan of one `main` call. `Unregistered(name)` is the failure of the
   * first name that is not in `REGISTERED_BROWSERS`: `webbrowser.get` raises
   * `webbrowser.Error` for a name it cannot locate, and for a name it does
   * know the lookup `REGISTERED_BROWSERS[browsername]` on the next line
   * raises `KeyError`; both happen before that task starts a process.
   * `NotAString` is the error a browser value that is not a string raises
   * in `webbrowser.get` (parameter files only).
   */
  datatype PlanResult = Planned(launches: seq<Launch>) | Unregistered(name: string) | NotAString

  /**
   * `open_urls_ordered`: the URLs, one at a time, in input order; this is
   * the opening `Strategy` records for ordered mode.
   */
  method OpenUrlsOrdered(urls: seq<string>) returns (done: seq<string>)
    ensures done == urls
    ensures InOrder(done) == Strategy(urls, false)
  {
    done := [];
    for i := 0 to |urls|
      invariant done == urls[..i]
    {
      done := done + [urls[i]];
    }
  }

  /** `open_urls_fast`: one `open_url` task per URL, gathered together. */
  function FastOpens(urls: seq<string>): (r: multiset<string>)
    ensures r == multiset(urls)
    ensures |r| == |urls|
    ensures forall u :: r[u] == Count(urls, u)
  {
    if urls == [] then multiset{}
    else
      assert urls == [urls[0]] + urls[1..];
      multiset{urls[0]} + FastOpens(urls[1..])
  }

  /** `open_urls_fast if fast_mode else open_urls_ordered`, applied to the URLs. */
  function Strategy(urls: seq<string>, fast: bool): Opening {
    if fast then AllAtOnce(FastOpens(urls)) else InOrder(urls)
  }

  /**
   * `main(browsernames, urls, fast_mode)` against the registry `s`: one launch
   * per name, in order, each with the registered path; or the failure
   * (`webbrowser.Error` or `KeyError`) of the first name that is not registered.
   */
  function Plan(s: Registered, names: seq<string>, urls: seq<string>, fast: bool): (r: PlanResult)
    ensures r.Planned? <==> forall i :: 0 <= i < |names| ==> Lookup(s, names[i]).Some?
    ensures r.Planned? ==> |r.launches| == |names|
    ensures r.Planned? ==> forall i :: 0 <= i < |names| ==>
      r.launches[i] == Launch(names[i], Lookup(s, names[i]).value, Strategy(urls, fast))
    ensures r.Unregistered? ==>
      exists i :: (0 <= i < |names| && names[i] == r.name && Lookup(s, names[i]).None? &&
        forall j :: 0 <= j < i ==> Lookup(s, names[j]).Some?)
    ensures !r.NotAString?
    decreases |names|
  {
    if names == [] then Planned([])
    else
      match Lookup(s, names[0])
      case None => Unregistered(names[0])
      case Some(p) =>
        var rest := Plan(s, names[1..], urls, fast);
        if rest.Planned? then
          var r := Planned([Launch(names[0], p, Strategy(urls, fast))] + rest.launches);
          assert forall i :: 1 <= i < |names| ==> names[i] == names[1..][i - 1];
          r
        else
          assert rest.Unregistered? ==> exists i :: (1 <= i < |names| && names[i] == rest.name && Lookup(s, names[i]).None? &&
            forall j :: 0 <= j < i ==> Lookup(s, names[j]).Some?) by {
            if rest.Unregistered? {
              var k :| 0 <= k < |names[1..]| && names[1..][k] == rest.name && Lookup(s, names[1..][k]).None? &&
                forall j :: 0 <= j < k ==> Lookup(s, names[1..][j]).Some?;
              assert names[k + 1] == rest.name;
              assert forall j :: 1 <= j < k + 1 ==> names[j] == names[1..][j - 1];
            }
          }
          rest
  }
}
