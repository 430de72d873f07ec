/**
 * `scripts/parse_benchmark.py` and its copy `parse_benchmark.py`: the loop that turns the
 * rows of the benchmark spreadsheet into checklist items. A cell is a string, an empty
 * cell (`None` or NaN), or any other value (a number, a date).
 */
module Benchmark {
  import opened Wrappers
  import opened Text

  datatype Cell = Str(s: string) | Empty | Other

  /** One element of the JSON list the scripts write. */
  datatype BenchmarkItem = BenchmarkItem(
    section: Option<string>,
    controlId: Option<string>,
    title: string,
    rationale: string,
    fixText: string,
    status: string,
    comment: string,
    rowIndex: nat)

  // ----- the control-id pattern `^\s*(\d+(\.\d+)*)\s+(.*)` -----

  predicate AllSpace(s: string) {
    forall k :: 0 <= k < |s| ==> IsSpace(s[k])
  }

  /** `\d+(\.\d+)*`: digit runs joined by single dots, starting and ending with a digit. */
  predicate IsDotted(s: string) {
    && |s| > 0
    && IsDigit(s[0])
    && forall k :: 0 <= k < |s| ==> DottedAt(s, k)
  }

  /** Position `k` holds a digit, or a dot with a digit right after it. */
  predicate DottedAt(s: string, k: nat)
    requires k < |s|
  {
    IsDigit(s[k]) || (s[k] == '.' && k + 1 < |s| && IsDigit(s[k + 1]))
  }

  /** The end of the run of whitespace starting at `i` (greedy `\s*`, `\s+`). */
  function SpaceEnd(t: string, i: nat): (e: nat)
    requires i <= |t|
    ensures i <= e <= |t| && AllSpace(t[i..e]) && (e == |t| || !IsSpace(t[e]))
    decreases |t| - i
  {
    if i < |t| && IsSpace(t[i]) then SpaceEnd(t, i + 1) else i
  }

  /** The greedy end of `\d+(\.\d+)*` once its first digit, just before `i`, is read. */
  function DottedEnd(t: string, i: nat): (e: nat)
    requires 0 < i <= |t|
    ensures i <= e <= |t|
    decreases |t| - i
  {
    if i < |t| && IsDigit(t[i]) then DottedEnd(t, i + 1)
    else if i + 1 < |t| && t[i] == '.' && IsDigit(t[i + 1]) then DottedEnd(t, i + 2)
    else i
  }

  /** The end of `.*`: everything up to the first newline. */
  function LineEnd(t: string, i: nat): (e: nat)
    requires i <= |t|
    ensures i <= e <= |t| && '\n' !in t[i..e] && (e == |t| || t[e] == '\n')
    decreases |t| - i
  {
    if i < |t| && t[i] != '\n' then LineEnd(t, i + 1) else i
  }

  /**
   * `re.match(r"^\s*(\d+(\.\d+)*)\s+(.*)", t)`: groups 1 and 3, or None. Backtracking never
   * finds another match: a shorter dotted prefix is followed by a digit or a dot, not by space.
   */
  function ControlMatch(t: string): Option<(string, string)> {
    var a := SpaceEnd(t, 0);
    if a < |t| && IsDigit(t[a]) then
      var e := DottedEnd(t, a + 1);
      if e < |t| && IsSpace(t[e]) then
        var w := SpaceEnd(t, e);
        Some((t[a..e], t[w..LineEnd(t, w)]))
      else None
    else None
  }

  /** The greedy scan only ever extends a dotted number by a digit or by a dot and a digit. */
  lemma {:induction false} DottedEndSound(t: string, a: nat, i: nat)
    requires a < i <= |t| && IsDotted(t[a..i])
    ensures IsDotted(t[a..DottedEnd(t, i)])
    decreases |t| - i
  {
    var s := t[a..i];
    if i < |t| && IsDigit(t[i]) {
      assert t[a..i + 1] == s + [t[i]];
      DottedAppendDigit(s, t[i]);
      DottedEndSound(t, a, i + 1);
    } else if i + 1 < |t| && t[i] == '.' && IsDigit(t[i + 1]) {
      assert t[a..i + 2] == s + ['.', t[i + 1]];
      DottedAppendDotDigit(s, t[i + 1]);
      DottedEndSound(t, a, i + 2);
    }
  }

  lemma DottedAppendDigit(s: string, c: char)
    requires IsDotted(s) && IsDigit(c)
    ensures IsDotted(s + [c])
  {
    var s' := s + [c];
    forall k | 0 <= k < |s'|
      ensures DottedAt(s', k)
    {
      if k < |s| {
        assert s'[k] == s[k];
        assert DottedAt(s, k);
        if k + 1 < |s| {
          assert s'[k + 1] == s[k + 1];
        }
      } else {
        assert s'[k] == c;
      }
    }
  }

  lemma DottedAppendDotDigit(s: string, c: char)
    requires IsDotted(s) && IsDigit(c)
    ensures IsDotted(s + ['.', c])
  {
    var s' := s + ['.', c];
    forall k | 0 <= k < |s'|
      ensures DottedAt(s', k)
    {
      if k < |s| {
        assert s'[k] == s[k];
        assert DottedAt(s, k);
        if k + 1 < |s| {
          assert s'[k + 1] == s[k + 1];
        }
      } else if k == |s| {
        assert s'[k] == '.' && s'[k + 1] == c;
      } else {
        assert s'[k] == c;
      }
    }
  }

  /** Scanning a dotted number that is followed by whitespace stops exactly at its end. */
  lemma {:induction false} DottedEndStops(t: string, id: string, i: nat)
    requires IsDotted(id) && |id| < |t| && t[..|id|] == id && IsSpace(t[|id|])
    requires 0 < i <= |id|
    ensures DottedEnd(t, i) == |id|
    decreases |id| - i
  {
    if i < |id| {
      assert t[i] == id[i] && DottedAt(id, i);
      if IsDigit(id[i]) {
        DottedEndStops(t, id, i + 1);
      } else {
        assert t[i + 1] == id[i + 1];
        DottedEndStops(t, id, i + 2);
      }
    }
  }

  /**
   * `t` is leading whitespace, then `id`, at least one whitespace character, `rest`, and a
   * tail that is empty or starts with a newline.
   */
  predicate SplitsAs(t: string, lead: string, id: string, ws: string, rest: string, tail: string) {
    && t == lead + id + ws + rest + tail
    && AllSpace(lead) && |ws| > 0 && AllSpace(ws)
    && (tail == [] || tail[0] == '\n')
  }

  /** A match is a dotted number and a newline-free title laid out as `SplitsAs` says. */
  lemma ControlMatchSound(t: string)
    ensures var r := ControlMatch(t);
      r.Some? ==>
        && IsDotted(r.value.0)
        && '\n' !in r.value.1
        && exists lead, ws, tail :: SplitsAs(t, lead, r.value.0, ws, r.value.1, tail)
  {
    var a := SpaceEnd(t, 0);
    if a < |t| && IsDigit(t[a]) {
      var e := DottedEnd(t, a + 1);
      if e < |t| && IsSpace(t[e]) {
        assert DottedAt(t[a..a + 1], 0);
        DottedEndSound(t, a, a + 1);
        var w := SpaceEnd(t, e);
        var l := LineEnd(t, w);
        assert ControlMatch(t) == Some((t[a..e], t[w..l]));
        SplitFive(t, a, e, w, l);
        assert t[..a] == t[0..a];
        assert t[e..w][0] == t[e];
        assert SplitsAs(t, t[..a], t[a..e], t[e..w], t[w..l], t[l..]);
      }
    }
  }

  lemma SplitFive(t: string, a: nat, e: nat, w: nat, l: nat)
    requires a <= e <= w <= l <= |t|
    ensures t == t[..a] + t[a..e] + t[e..w] + t[w..l] + t[l..]
  {
    assert t[..e] == t[..a] + t[a..e];
    assert t[..w] == t[..e] + t[e..w];
    assert t[..l] == t[..w] + t[w..l];
    assert t == t[..l] + t[l..];
  }

  /** Every dotted number followed by whitespace and text matches, with the number as group 1. */
  lemma ControlMatchComplete(id: string, c: char, rest: string)
    requires IsDotted(id) && IsSpace(c)
    ensures ControlMatch(id + [c] + rest).Some?
    ensures ControlMatch(id + [c] + rest).value.0 == id
  {
    var t := id + [c] + rest;
    assert t[..|id|] == id && t[|id|] == c;
    assert SpaceEnd(t, 0) == 0;
    DottedEndStops(t, id, 1);
  }

  /** A lone control number, with no title after it, does not match. */
  lemma LoneIdDoesNotMatch()
    ensures ControlMatch("1.1") == None
  {
  }

  /**
   * A dotted number, one whitespace character and a title that neither starts with
   * whitespace nor holds a newline split back into the number and the title.
   */
  lemma ControlMatchSplits(id: string, c: char, title: string)
    requires IsDotted(id) && IsSpace(c)
    requires (title == [] || !IsSpace(title[0])) && '\n' !in title
    ensures ControlMatch(id + [c] + title) == Some((id, title))
  {
    var t := id + [c] + title;
    var w := |id| + 1;
    assert t[..|id|] == id && t[|id|] == c && t[0] == id[0];
    assert SpaceEnd(t, 0) == 0;
    DottedEndStops(t, id, 1);
    assert t[w..|t|] == title;
    assert SpaceEnd(t, w) == w by {
      if title != [] {
        assert t[w] == title[0];
      }
    }
    assert SpaceEnd(t, |id|) == w;
    forall k | w <= k < |t|
      ensures t[k] != '\n'
    {
      assert t[k] == title[k - w];
    }
    LineEndToEnd(t, w);
    assert t[0..|id|] == id;
    assert ControlMatch(t) == Some((t[0..|id|], t[w..|t|]));
  }

  /** "1.1 Ensure banner" splits into its number and its title. */
  lemma ControlMatchExample()
    ensures ControlMatch("1.1 Ensure banner") == Some(("1.1", "Ensure banner"))
  {
    assert IsDotted("1.1");
    ControlMatchSplits("1.1", ' ', "Ensure banner");
    assert "1.1" + [' '] + "Ensure banner" == "1.1 Ensure banner";
  }

  /** With no newline after `i`, group 3 runs to the end. */
  lemma {:induction false} LineEndToEnd(t: string, i: nat)
    requires i <= |t| && forall k :: i <= k < |t| ==> t[k] != '\n'
    ensures LineEnd(t, i) == |t|
    decreases |t| - i
  {
    if i < |t| {
      LineEndToEnd(t, i + 1);
    }
  }

  // ----- one row -----

  /** `while len(cols) < 5: cols.append(None)`. */
  function Pad(cols: seq<Cell>): (p: seq<Cell>)
    ensures |p| >= 5
    decreases 5 - |cols|
  {
    if |cols| < 5 then Pad(cols + [Empty]) else cols
  }

  /** Padding keeps the row and fills up to five cells with empty ones. */
  lemma {:induction false} PadContents(cols: seq<Cell>)
    ensures |Pad(cols)| == if |cols| < 5 then 5 else |cols|
    ensures Pad(cols)[..|cols|] == cols
    ensures forall k :: |cols| <= k < |Pad(cols)| ==> Pad(cols)[k] == Empty
    decreases 5 - |cols|
  {
    if |cols| < 5 {
      PadContents(cols + [Empty]);
      assert (cols + [Empty])[..|cols|] == cols;
      assert Pad(cols + [Empty])[..|cols|] == (cols + [Empty])[..|cols|];
    }
  }

  /** A section header: three strings, the second "Rational" and the third "Fix Text". */
  predicate IsHeader(p: seq<Cell>)
    requires |p| >= 5
  {
    p[0].Str? && p[1].Str? && p[2].Str? && Strip(p[1].s) == "Rational" && Strip(p[2].s) == "Fix Text"
  }

  /** All five cells are `None` or NaN. */
  predicate IsBlank(p: seq<Cell>)
    requires |p| >= 5
  {
    p[0].Empty? && p[1].Empty? && p[2].Empty? && p[3].Empty? && p[4].Empty?
  }

  /** A row that becomes an item. */
  predicate IsControlRow(p: seq<Cell>)
    requires |p| >= 5
  {
    !IsHeader(p) && !IsBlank(p) && p[0].Str? && p[1].Str? && p[2].Str? && p[3].Str?
  }

  /** The item built from a control row at index `idx` under `section`. */
  function RowItem(p: seq<Cell>, idx: nat, section: Option<string>): BenchmarkItem
    requires |p| >= 5 && p[0].Str? && p[1].Str? && p[2].Str? && p[3].Str?
  {
    var col0 := Strip(p[0].s);
    var comment := if p[4].Str? then Strip(p[4].s) else "";
    match ControlMatch(col0)
    case Some((id, rest)) => BenchmarkItem(section, Some(id), Strip(rest), Strip(p[1].s), Strip(p[2].s), Strip(p[3].s), comment, idx)
    case None => BenchmarkItem(section, None, col0, Strip(p[1].s), Strip(p[2].s), Strip(p[3].s), comment, idx)
  }

  /** A blank row would also fail the string test: the blank check never changes the outcome. */
  lemma BlankRowIsNotControl(p: seq<Cell>)
    requires |p| >= 5 && IsBlank(p)
    ensures !IsHeader(p) && !(p[0].Str? && p[1].Str? && p[2].Str? && p[3].Str?)
  {
  }

  // ----- the loop -----

  /** `current_section` and `items` after the first `n` rows. */
  datatype Parsed = Parsed(section: Option<string>, items: seq<BenchmarkItem>)

  /** What one padded row at index `idx` does to the section and the items. */
  function Step(prev: Parsed, p: seq<Cell>, idx: nat): Parsed
    requires |p| >= 5
  {
    if IsHeader(p) then Parsed(Some(Strip(p[0].s)), prev.items)
    else if IsControlRow(p) then Parsed(prev.section, prev.items + [RowItem(p, idx, prev.section)])
    else prev
  }

  function ParseRows(rows: seq<seq<Cell>>, n: nat): Parsed
    requires n <= |rows|
  {
    if n == 0 then Parsed(None, [])
    else Step(ParseRows(rows, n - 1), Pad(rows[n - 1]), n - 1)
  }

  /** The body of the loop over the rows, shared by both scripts. */
  method ParseRow(row: seq<Cell>, idx: nat, section: Option<string>, items: seq<BenchmarkItem>)
    returns (section': Option<string>, items': seq<BenchmarkItem>)
    ensures Parsed(section', items') == Step(Parsed(section, items), Pad(row), idx)
  {
    section', items' := section, items;
    var cols := row;
    while |cols| < 5
      invariant Pad(cols) == Pad(row)
      decreases 5 - |cols|
    {
      cols := cols + [Empty];
    }
    var col0, col1, col2, col3, col4 := cols[0], cols[1], cols[2], cols[3], cols[4];
    if col0.Str? && col1.Str? && col2.Str? && Strip(col1.s) == "Rational" && Strip(col2.s) == "Fix Text" {
      section' := Some(Strip(col0.s));
      return;
    }
    if col0.Empty? && col1.Empty? && col2.Empty? && col3.Empty? && col4.Empty? {
      return;
    }
    if !(col0.Str? && col1.Str? && col2.Str? && col3.Str?) {
      return;
    }
    var controlId: Option<string>;
    var title: string;
    match ControlMatch(Strip(col0.s)) {
      case Some((id, rest)) =>
        controlId := Some(id);
        title := Strip(rest);
      case None =>
        controlId := None;
        title := Strip(col0.s);
    }
    var comment := if col4.Str? then Strip(col4.s) else "";
    items' := items + [BenchmarkItem(section, controlId, title, Strip(col1.s), Strip(col2.s), Strip(col3.s), comment, idx)];
  }

  /** `parse_benchmark_excel`: the items of the rows of the sheet, in row order. */
  method ParseBenchmarkExcel(rows: seq<seq<Cell>>) returns (items: seq<BenchmarkItem>)
    ensures items == ParseRows(rows, |rows|).items
  {
    items := [];
    var currentSection: Option<string> := None;
    for idx := 0 to |rows|
      invariant Parsed(currentSection, items) == ParseRows(rows, idx)
    {
      currentSection, items := ParseRow(rows[idx], idx, currentSection, items);
    }
  }

  /** The module-level loop of the root script, a copy of the one above. */
  method ParseBenchmarkScript(rows: seq<seq<Cell>>) returns (items: seq<BenchmarkItem>)
    ensures items == ParseRows(rows, |rows|).items
  {
    items := [];
    var currentSection: Option<string> := None;
    for idx := 0 to |rows|
      invariant Parsed(currentSection, items) == ParseRows(rows, idx)
    {
      currentSection, items := ParseRow(rows[idx], idx, currentSection, items);
    }
  }

  // ----- what the loop promises -----

  /** The latest header among the first `n` rows, by its own scan. */
  function LastHeader(rows: seq<seq<Cell>>, n: nat): Option<string>
    requires n <= |rows|
  {
    if n == 0 then None
    else if IsHeader(Pad(rows[n - 1])) then Some(Strip(Pad(rows[n - 1])[0].s))
    else LastHeader(rows, n - 1)
  }

  /** The scan finds no header exactly when none of the first `n` rows is one. */
  lemma {:induction false} LastHeaderNone(rows: seq<seq<Cell>>, n: nat)
    requires n <= |rows|
    ensures LastHeader(rows, n).None? <==> forall h :: 0 <= h < n ==> !IsHeader(Pad(rows[h]))
  {
    if n > 0 {
      LastHeaderNone(rows, n - 1);
    }
  }

  /** Row `h` is a header named `name` and no row after it, up to `n`, is one. */
  predicate LatestHeaderAt(rows: seq<seq<Cell>>, n: nat, h: nat, name: string)
    requires n <= |rows|
  {
    && h < n
    && IsHeader(Pad(rows[h]))
    && name == Strip(Pad(rows[h])[0].s)
    && forall h' :: h < h' < n ==> !IsHeader(Pad(rows[h']))
  }

  /** A header found by the scan is the last header row before `n`. */
  lemma {:induction false} LastHeaderIsLast(rows: seq<seq<Cell>>, n: nat)
    requires n <= |rows| && LastHeader(rows, n).Some?
    ensures exists h :: LatestHeaderAt(rows, n, h, LastHeader(rows, n).value)
  {
    var name := LastHeader(rows, n).value;
    if IsHeader(Pad(rows[n - 1])) {
      assert LatestHeaderAt(rows, n, n - 1, name);
    } else {
      LastHeaderIsLast(rows, n - 1);
      var h :| LatestHeaderAt(rows, n - 1, h, name);
      assert LatestHeaderAt(rows, n, h, name);
    }
  }

  /** The section carried through the loop is the latest header seen. */
  lemma {:induction false} SectionIsLastHeader(rows: seq<seq<Cell>>, n: nat)
    requires n <= |rows|
    ensures ParseRows(rows, n).section == LastHeader(rows, n)
  {
    if n > 0 {
      SectionIsLastHeader(rows, n - 1);
    }
  }

  /** One row adds at most one item, at the end, and only a header changes the section. */
  lemma StepShape(prev: Parsed, p: seq<Cell>, idx: nat)
    requires |p| >= 5
    ensures Step(prev, p, idx).items == prev.items + (if IsControlRow(p) then [RowItem(p, idx, prev.section)] else [])
    ensures Step(prev, p, idx).section == if IsHeader(p) then Some(Strip(p[0].s)) else prev.section
  {
  }

  /** The row indices of `items` are below `n` and strictly increasing. */
  predicate IndicesIncreasing(items: seq<BenchmarkItem>, n: nat) {
    && (forall j :: 0 <= j < |items| ==> items[j].rowIndex < n)
    && (forall j, k :: 0 <= j < k < |items| ==> items[j].rowIndex < items[k].rowIndex)
  }

  /** After `n` rows there are at most `n` items, in increasing row order. */
  lemma {:induction false} ItemsInRowOrder(rows: seq<seq<Cell>>, n: nat)
    requires n <= |rows|
    ensures |ParseRows(rows, n).items| <= n
    ensures IndicesIncreasing(ParseRows(rows, n).items, n)
  {
    if n > 0 {
      var prev := ParseRows(rows, n - 1);
      var p := Pad(rows[n - 1]);
      ItemsInRowOrder(rows, n - 1);
      StepShape(prev, p, n - 1);
      var items := ParseRows(rows, n).items;
      if IsControlRow(p) {
        assert items == prev.items + [RowItem(p, n - 1, prev.section)];
        assert items[|prev.items|].rowIndex == n - 1;
        forall j | 0 <= j < |prev.items|
          ensures items[j] == prev.items[j]
        {
        }
      } else {
        assert items == prev.items;
      }
    }
  }

  /** Every item is the item of a control row, under the latest header before that row. */
  predicate ItemsOfRows(rows: seq<seq<Cell>>, items: seq<BenchmarkItem>)
  {
    forall j :: 0 <= j < |items| ==>
      && items[j].rowIndex < |rows|
      && var p := Pad(rows[items[j].rowIndex]);
         IsControlRow(p) && items[j] == RowItem(p, items[j].rowIndex, LastHeader(rows, items[j].rowIndex))
  }

  /**
   * After `n` rows there are at most `n` items; their row indices are below `n` and strictly
   * increasing; each is the item of a control row under the latest header before it.
   */
  lemma {:induction false} ItemsFromControlRows(rows: seq<seq<Cell>>, n: nat)
    requires n <= |rows|
    ensures |ParseRows(rows, n).items| <= n
    ensures IndicesIncreasing(ParseRows(rows, n).items, n)
    ensures ItemsOfRows(rows, ParseRows(rows, n).items)
  {
    ItemsInRowOrder(rows, n);
    if n > 0 {
      var prev := ParseRows(rows, n - 1);
      var p := Pad(rows[n - 1]);
      ItemsFromControlRows(rows, n - 1);
      SectionIsLastHeader(rows, n - 1);
      StepShape(prev, p, n - 1);
      var items := ParseRows(rows, n).items;
      if IsControlRow(p) {
        assert items == prev.items + [RowItem(p, n - 1, LastHeader(rows, n - 1))];
        forall j | 0 <= j < |items|
          ensures items[j].rowIndex < |rows|
          ensures IsControlRow(Pad(rows[items[j].rowIndex]))
          ensures items[j] == RowItem(Pad(rows[items[j].rowIndex]), items[j].rowIndex, LastHeader(rows, items[j].rowIndex))
        {
          if j < |prev.items| {
            assert items[j] == prev.items[j];
          }
        }
      } else {
        assert items == prev.items;
      }
    }
  }

  /** Some item comes from row `i`. */
  predicate HasRow(items: seq<BenchmarkItem>, i: nat) {
    exists j :: 0 <= j < |items| && items[j].rowIndex == i
  }

  /**
   * Appending at most one item, from row `m`, to items from rows below `m` keeps every
   * earlier row's answer and gives row `m` an item exactly when one was appended.
   */
  lemma HasRowStep(prev: seq<BenchmarkItem>, extra: seq<BenchmarkItem>, m: nat, i: nat)
    requires IndicesIncreasing(prev, m)
    requires extra == [] || (|extra| == 1 && extra[0].rowIndex == m)
    requires i <= m
    ensures i < m ==> (HasRow(prev + extra, i) <==> HasRow(prev, i))
    ensures i == m ==> (HasRow(prev + extra, i) <==> extra != [])
  {
    var all := prev + extra;
    if HasRow(all, i) {
      var j :| 0 <= j < |all| && all[j].rowIndex == i;
      if j < |prev| {
        assert all[j] == prev[j];
      } else {
        assert all[j] == extra[0];
      }
    }
    if HasRow(prev, i) {
      var j :| 0 <= j < |prev| && prev[j].rowIndex == i;
      assert all[j] == prev[j];
    }
    if extra != [] {
      assert all[|prev|] == extra[0];
    }
  }

  /** Every control row yields an item; a header, blank or non-string row yields none. */
  lemma {:induction false} ControlRowsYieldItems(rows: seq<seq<Cell>>, n: nat, i: nat)
    requires i < n <= |rows|
    ensures HasRow(ParseRows(rows, n).items, i) <==> IsControlRow(Pad(rows[i]))
  {
    var prev := ParseRows(rows, n - 1);
    var p := Pad(rows[n - 1]);
    var items := ParseRows(rows, n).items;
    StepShape(prev, p, n - 1);
    ItemsInRowOrder(rows, n - 1);
    if i < n - 1 {
      ControlRowsYieldItems(rows, n - 1, i);
    }
    if IsControlRow(p) {
      var extra := [RowItem(p, n - 1, prev.section)];
      assert items == prev.items + extra;
      HasRowStep(prev.items, extra, n - 1, i);
    } else {
      assert items == prev.items + [];
      HasRowStep(prev.items, [], n - 1, i);
    }
  }

  /** A header row emits no item, whatever else it holds. */
  lemma HeaderEmitsNothing(rows: seq<seq<Cell>>, i: nat)
    requires i < |rows| && IsHeader(Pad(rows[i]))
    ensures var items := ParseRows(rows, |rows|).items;
      forall j :: 0 <= j < |items| ==> items[j].rowIndex != i
  {
    ItemsFromControlRows(rows, |rows|);
  }
}
