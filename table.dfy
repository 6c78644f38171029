/**
 * `display_registered_browsers`: the table of registered browsers, one line
 * per `click.echo` (the header's two echoes, the first without a newline,
 * make one line).
 */
module Table {
  import opened Base
  import opened Registry

  const NameColumn := "browser-name"
  const PathColumn := "path/to/browser"
  const Separator := " |>  "
  const EmptyMessage := "No browsers registered."
  const Title := "Browser list"

  /** `max(len(x) for x in xs)`, and 0 for no strings. */
  function MaxLen(xs: seq<string>): (m: nat)
    ensures forall i :: 0 <= i < |xs| ==> |xs[i]| <= m
    ensures xs != [] ==> exists i :: 0 <= i < |xs| && |xs[i]| == m
    ensures xs == [] ==> m == 0
  {
    if xs == [] then 0
    else
      var rest := MaxLen(xs[1..]);
      assert forall i :: 1 <= i < |xs| ==> xs[i] == xs[1..][i - 1];
      if |xs[0]| < rest then rest else |xs[0]|
  }

  function Keys(entries: seq<(string, string)>): (r: seq<string>)
    ensures |r| == |entries| && forall i :: 0 <= i < |entries| ==> r[i] == entries[i].0
  {
    seq(|entries|, i requires 0 <= i < |entries| => entries[i].0)
  }

  function Values(entries: seq<(string, string)>): (r: seq<string>)
    ensures |r| == |entries| && forall i :: 0 <= i < |entries| ==> r[i] == entries[i].1
  {
    seq(|entries|, i requires 0 <= i < |entries| => entries[i].1)
  }

  /** The name column: the longest name, but never narrower than its heading. */
  function NameWidth(entries: seq<(string, string)>): nat {
    var m := MaxLen(Keys(entries));
    if m < |NameColumn| then |NameColumn| else m
  }

  /** The path column: the longest path, but never narrower than its heading. */
  function PathWidth(entries: seq<(string, string)>): nat {
    var m := MaxLen(Values(entries));
    if m < |PathColumn| then |PathColumn| else m
  }

  /** `f"  {key:<{max_key}} |>  {value}"`. */
  function Row(key: string, value: string, w: nat): string {
    "  " + PadRight(key, w) + Separator + value
  }

  /** `BROWSER_PATH_COLUMN.replace('/', slash)`, the slash being a backslash on Windows. */
  function PathHeading(windows: bool): string {
    if windows then "path\\to\\browser" else PathColumn
  }

  /** The heading is the path column's title with every `/` replaced by the platform's slash. */
  lemma PathHeadingReplacesSlash(windows: bool)
    ensures PathHeading(windows) == ReplaceChar(PathColumn, '/', if windows then '\\' else '/')
  {
  }

  /** The heading line. */
  function Header(w: nat, windows: bool): string {
    Row(NameColumn, PathHeading(windows), w)
  }

  function Rows(entries: seq<(string, string)>, w: nat): (r: seq<string>)
    ensures |r| == |entries|
  {
    seq(|entries|, i requires 0 <= i < |entries| => Row(entries[i].0, entries[i].1, w))
  }

  lemma RowsSnoc(entries: seq<(string, string)>, i: nat, w: nat)
    requires i < |entries|
    ensures Rows(entries[..i + 1], w) == Rows(entries[..i], w) + [Row(entries[i].0, entries[i].1, w)]
  {
    var a := Rows(entries[..i + 1], w);
    var b := Rows(entries[..i], w) + [Row(entries[i].0, entries[i].1, w)];
    assert |a| == |b|;
    forall k | 0 <= k < |a| ensures a[k] == b[k] {
      if k < i {
        assert entries[..i + 1][k] == entries[..i][k];
      }
    }
  }

  /** Everything the function echoes for the dict's items `entries`. */
  function Render(entries: seq<(string, string)>, windows: bool): seq<string> {
    if entries == [] then [EmptyMessage]
    else Heading(entries, windows) + Rows(entries, NameWidth(entries))
  }

  /** The title, the header and the line of dashes. */
  function Heading(entries: seq<(string, string)>, windows: bool): seq<string> {
    var w := NameWidth(entries);
    [Title, Header(w, windows), Repeat('-', w + PathWidth(entries) + 10)]
  }

  /**
   * A row starts with two spaces and the name, padded with spaces to the
   * column width, then the separator at column `2 + w`, then the path.
   */
  lemma RowLayout(key: string, value: string, w: nat)
    requires |key| <= w
    ensures var r := Row(key, value, w);
      && |r| == 2 + w + |Separator| + |value|
      && r[..2] == "  "
      && r[2..2 + |key|] == key
      && (forall i :: 2 + |key| <= i < 2 + w ==> r[i] == ' ')
      && r[2 + w..2 + w + |Separator|] == Separator
      && r[2 + w + |Separator|..] == value
  {
    var p := PadRight(key, w);
    var r := Row(key, value, w);
    assert r == "  " + p + Separator + value;
    assert r[2..2 + w] == p;
    assert r[2..2 + |key|] == p[..|key|];
  }

  /**
   * Each column is as wide as its heading (12 and 15 characters) or as its
   * longest entry, whichever is larger.
   */
  lemma ColumnWidths(entries: seq<(string, string)>)
    ensures NameWidth(entries) >= |NameColumn| && PathWidth(entries) >= |PathColumn|
    ensures forall i :: 0 <= i < |entries| ==> |entries[i].0| <= NameWidth(entries) && |entries[i].1| <= PathWidth(entries)
    ensures NameWidth(entries) == |NameColumn| || exists i :: 0 <= i < |entries| && |entries[i].0| == NameWidth(entries)
    ensures PathWidth(entries) == |PathColumn| || exists i :: 0 <= i < |entries| && |entries[i].1| == PathWidth(entries)
  {
    var keys := Keys(entries);
    var values := Values(entries);
    assert forall i :: 0 <= i < |entries| ==> keys[i] == entries[i].0 && values[i] == entries[i].1;
    if NameWidth(entries) != |NameColumn| {
      var i :| 0 <= i < |keys| && |keys[i]| == NameWidth(entries);
      assert |entries[i].0| == NameWidth(entries);
    }
    if PathWidth(entries) != |PathColumn| {
      var i :| 0 <= i < |values| && |values[i]| == PathWidth(entries);
      assert |entries[i].1| == PathWidth(entries);
    }
  }

  /**
   * The table's shape: with no browsers, the one message line. Otherwise a
   * title, a header, a line of `w + pw + 10` dashes and one row per browser
   * in registration order, all rows padded to the same name width `w`.
   */
  lemma RenderShape(entries: seq<(string, string)>, windows: bool)
    ensures entries == [] ==> Render(entries, windows) == [EmptyMessage]
    ensures entries != [] ==>
      var lines := Render(entries, windows);
      var w := NameWidth(entries);
      && |lines| == |entries| + 3
      && lines[0] == Title
      && lines[1] == Row(NameColumn, PathHeading(windows), w)
      && |lines[2]| == w + PathWidth(entries) + 10
      && (forall k :: 0 <= k < |lines[2]| ==> lines[2][k] == '-')
      && (forall i :: 0 <= i < |entries| ==> lines[i + 3] == Row(entries[i].0, entries[i].1, w))
  {
    if entries != [] {
      var w := NameWidth(entries);
      var h := Heading(entries, windows);
      var rows := Rows(entries, w);
      var lines := h + rows;
      assert Render(entries, windows) == lines;
      assert |h| == 3 && h[0] == Title && h[1] == Header(w, windows);
      assert lines[..3] == h;
      forall i | 0 <= i < |entries|
        ensures lines[i + 3] == Row(entries[i].0, entries[i].1, w)
      {
        assert lines[i + 3] == rows[i];
      }
    }
  }

  /**
   * `display_registered_browsers()` over the registry object: the lines it
   * echoes, the rows produced by a loop over the dict's items.
   */
  method DisplayRegisteredBrowsers(reg: BrowserRegistry, windows: bool) returns (lines: seq<string>)
    requires reg.Valid()
    ensures lines == Render(Entries(reg.View()), windows)
  {
    var items := Entries(reg.View());
    if |items| == 0 {
      lines := [EmptyMessage];
      return;
    }
    var w := NameWidth(items);
    var heading := Heading(items, windows);
    lines := heading;
    for i := 0 to |items|
      invariant lines == heading + Rows(items[..i], w)
    {
      var row := Row(items[i].0, items[i].1, w);
      RowsSnoc(items, i, w);
      AppendAssoc(heading, Rows(items[..i], w), [row]);
      lines := lines + [row];
    }
    assert items[..|items|] == items;
    assert Render(items, windows) == heading + Rows(items, w);
  }
}
