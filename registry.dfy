/**
 * The browser registry: the module-level dict `REGISTERED_BROWSERS` that maps
 * a browser name to its executable path, and `register_browser`, which writes
 * one key of it. A Python dict remembers insertion order, and overwriting a
 * key keeps its place; the table of registered browsers is printed in that
 * order, so the model keeps it too.
 */
module Registry {
  import opened Base

  /** The registry as a value: the dict's keys in insertion order and its contents. */
  datatype Registered = Registered(order: seq<string>, paths: map<string, string>)
  {
    ghost predicate Valid() {
      && (forall i, j :: 0 <= i < j < |order| ==> order[i] != order[j])
      && (forall n :: n in paths <==> n in order)
    }
  }

  const Empty := Registered([], map[])

  /** A pending `register_browser(name, path)` call. */
  type Registration = (string, string)

  /** `REGISTERED_BROWSERS.get(name)`. */
  function Lookup(s: Registered, name: string): Option<string> {
    if name in s.paths then Some(s.paths[name]) else None
  }

  /** `REGISTERED_BROWSERS[name] = path`. */
  function Put(s: Registered, name: string, path: string): (r: Registered)
    requires s.Valid()
    ensures r.Valid()
    ensures Lookup(r, name) == Some(path)
    ensures forall n :: n != name ==> Lookup(r, n) == Lookup(s, n)
    ensures |r.order| == |s.order| + (if Lookup(s, name).Some? then 0 else 1)
    ensures r.order[..|s.order|] == s.order
  {
    Registered(if name in s.paths then s.order else s.order + [name], s.paths[name := path])
  }

  /** The dict's items in iteration order. */
  function Entries(s: Registered): (r: seq<(string, string)>)
    requires s.Valid()
    ensures |r| == |s.order|
    ensures forall i :: 0 <= i < |r| ==> r[i].0 == s.order[i] && Lookup(s, r[i].0) == Some(r[i].1)
  {
    seq(|s.order|, i requires 0 <= i < |s.order| => (s.order[i], s.paths[s.order[i]]))
  }

  /**
   * One `register_browser` call; `accepted(name, path)` says whether
   * `webbrowser.register` succeeded. When it raises, the exception is
   * logged and the dict is left as it was.
   */
  function PutOne(s: Registered, reg: Registration, accepted: (string, string) -> bool): (r: Registered)
    requires s.Valid()
    ensures r.Valid()
  {
    if accepted(reg.0, reg.1) then Put(s, reg.0, reg.1) else s
  }

  /** A sequence of `register_browser` calls, in order. */
  function PutAll(s: Registered, regs: seq<Registration>, accepted: (string, string) -> bool): (r: Registered)
    requires s.Valid()
    ensures r.Valid()
    decreases |regs|
  {
    if regs == [] then s
    else PutOne(PutAll(s, regs[..|regs| - 1], accepted), regs[|regs| - 1], accepted)
  }

  /** The path of the last accepted registration of `name`, scanning from the end. */
  function LastAccepted(regs: seq<Registration>, accepted: (string, string) -> bool, name: string): Option<string>
    decreases |regs|
  {
    if regs == [] then None
    else if regs[|regs| - 1].0 == name && accepted(name, regs[|regs| - 1].1) then Some(regs[|regs| - 1].1)
    else LastAccepted(regs[..|regs| - 1], accepted, name)
  }

  /** Re-registering a name overwrites its path: the last write wins. */
  lemma PutOverwrites(s: Registered, name: string, p1: string, p2: string)
    requires s.Valid()
    ensures Put(Put(s, name, p1), name, p2) == Put(s, name, p2)
  {
  }

  /**
   * After any sequence of registrations, a name maps to the path of its last
   * accepted registration; a name never accepted keeps what it had before.
   */
  lemma {:induction false} PutAllLastWins(s: Registered, regs: seq<Registration>, accepted: (string, string) -> bool, name: string)
    requires s.Valid()
    ensures Lookup(PutAll(s, regs, accepted), name) ==
            match LastAccepted(regs, accepted, name)
            case Some(p) => Some(p)
            case None => Lookup(s, name)
    decreases |regs|
  {
    if regs != [] {
      PutAllLastWins(s, regs[..|regs| - 1], accepted, name);
    }
  }

  /**
   * When every registration names a path under itself, a name ends up under
   * itself exactly when one of its registrations was accepted, and keeps
   * what it had otherwise.
   */
  lemma {:induction false} PutAllSelf(s: Registered, regs: seq<Registration>, accepted: (string, string) -> bool, p: string)
    requires s.Valid()
    requires forall x :: x in regs ==> x.0 == x.1
    ensures Lookup(PutAll(s, regs, accepted), p) == if (p, p) in regs && accepted(p, p) then Some(p) else Lookup(s, p)
    decreases |regs|
  {
    if regs != [] {
      var init := regs[..|regs| - 1];
      var last := regs[|regs| - 1];
      assert regs == init + [last];
      assert forall x :: x in init ==> x in regs;
      PutAllSelf(s, init, accepted, p);
    }
  }

  /** Registering never moves or removes a name already present. */
  lemma {:induction false} PutAllKeepsOrder(s: Registered, regs: seq<Registration>, accepted: (string, string) -> bool)
    requires s.Valid()
    ensures |s.order| <= |PutAll(s, regs, accepted).order|
    ensures PutAll(s, regs, accepted).order[..|s.order|] == s.order
    decreases |regs|
  {
    if regs != [] {
      PutAllKeepsOrder(s, regs[..|regs| - 1], accepted);
      var mid := PutAll(s, regs[..|regs| - 1], accepted);
      assert mid.order[..|s.order|] == s.order;
      var r := PutOne(mid, regs[|regs| - 1], accepted);
      assert r.order[..|mid.order|] == mid.order;
      assert r.order[..|s.order|] == mid.order[..|s.order|];
    }
  }

  /** Running two batches of registrations is running their concatenation. */
  lemma {:induction false} PutAllAppend(s: Registered, a: seq<Registration>, b: seq<Registration>, accepted: (string, string) -> bool)
    requires s.Valid()
    ensures PutAll(s, a + b, accepted) == PutAll(PutAll(s, a, accepted), b, accepted)
    decreases |b|
  {
    if b == [] {
      assert a + b == a;
    } else {
      assert (a + b)[..|a + b| - 1] == a + b[..|b| - 1];
      PutAllAppend(s, a, b[..|b| - 1], accepted);
    }
  }

  /** One more registration at the end of a batch. */
  lemma PutAllSnoc(s: Registered, regs: seq<Registration>, reg: Registration, accepted: (string, string) -> bool)
    requires s.Valid()
    ensures PutAll(s, regs + [reg], accepted) == PutOne(PutAll(s, regs, accepted), reg, accepted)
  {
    assert (regs + [reg])[..|regs|] == regs;
  }

  /**
   * `REGISTERED_BROWSERS` together with `register_browser`, as an object
   * updated in place.
   */
  class BrowserRegistry {
    var order: seq<string>
    var paths: map<string, string>

    function View(): Registered
      reads this
    {
      Registered(order, paths)
    }

    ghost predicate Valid()
      reads this
    {
      View().Valid()
    }

    /** The empty dict the module starts with. */
    constructor ()
      ensures Valid() && View() == Empty
    {
      order := [];
      paths := map[];
    }

    /** `REGISTERED_BROWSERS.get(name)`. */
    function Get(name: string): Option<string>
      reads this
    {
      Lookup(View(), name)
    }

    /**
     * `register_browser(name, path)`. `accepted` is whether
     * `webbrowser.register` returned normally; when it raised, nothing changes.
     */
    method Register(name: string, path: string, accepted: bool)
      requires Valid()
      modifies this
      ensures Valid()
      ensures View() == if accepted then Put(old(View()), name, path) else old(View())
      ensures accepted ==> Get(name) == Some(path)
      ensures forall n :: n != name ==> Get(n) == old(Get(n))
    {
      if accepted {
        if name !in paths {
          order := order + [name];
        }
        paths := paths[name := path];
      }
    }
  }
}
