/** Text tables: columns aligned by the length of the cells without their ANSI escapes. */
module TextTable {

  const ESC: char := 27 as char
  const NL := '\n'

  /** The first index of `c`, or the length of the string. */
  function IndexOf(s: string, c: char): (i: nat)
    ensures i <= |s| && (i < |s| <==> c in s)
    ensures i < |s| ==> s[i] == c
    ensures c !in s[..i]
  {
    if s == [] || s[0] == c then 0 else assert s == [s[0]] + s[1..]; 1 + IndexOf(s[1..], c)
  }

  /** Removes the leftmost matches of the expression `ESC [^m]* m`; an escape that no `m` follows stays. */
  function Strip(s: string): string
    decreases |s|
  {
    if s == [] then []
    else if s[0] == ESC && 'm' in s then Strip(s[IndexOf(s, 'm') + 1..])
    else [s[0]] + Strip(s[1..])
  }

  function VisibleLen(s: string): nat {
    |Strip(s)|
  }

  /** Every escape in the text is closed by a later `m`. */
  predicate Closed(s: string) {
    forall i :: 0 <= i < |s| && s[i] == ESC ==> 'm' in s[i..]
  }

  function Repeat(c: char, n: nat): (s: string)
    ensures |s| == n && forall i :: 0 <= i < n ==> s[i] == c
  {
    seq(n, _ => c)
  }

  // ----- stripping and concatenation

  lemma Assoc<T>(a: seq<T>, b: seq<T>, c: seq<T>)
    ensures a + b + c == a + (b + c)
  {
  }

  lemma IndexOfAppend(a: string, b: string, c: char)
    ensures c in a ==> IndexOf(a + b, c) == IndexOf(a, c)
    ensures c !in a ==> IndexOf(a + b, c) == |a| + IndexOf(b, c)
  {
    if a == [] {
      assert a + b == b;
    } else if a[0] != c {
      assert (a + b)[1..] == a[1..] + b;
      IndexOfAppend(a[1..], b, c);
      assert a == [a[0]] + a[1..];
    }
  }

  lemma ClosedSuffix(s: string, k: nat)
    requires Closed(s) && k <= |s|
    ensures Closed(s[k..])
  {
    forall i | 0 <= i < |s[k..]| && s[k..][i] == ESC
      ensures 'm' in s[k..][i..]
    {
      assert s[k..][i..] == s[k + i..];
    }
  }

  lemma ClosedEscape(s: string)
    requires Closed(s) && s != [] && s[0] == ESC
    ensures 'm' in s && Closed(AfterEscape(s))
  {
    assert s[0..] == s;
    ClosedSuffix(s, IndexOf(s, 'm') + 1);
  }

  lemma ClosedAppend(a: string, b: string)
    requires Closed(a) && Closed(b)
    ensures Closed(a + b)
  {
    forall i | 0 <= i < |a + b| && (a + b)[i] == ESC
      ensures 'm' in (a + b)[i..]
    {
      if i < |a| {
        assert (a + b)[i..] == a[i..] + b;
      } else {
        assert (a + b)[i..] == b[i - |a|..];
      }
    }
  }

  /** The text after the first `m`. */
  function AfterEscape(s: string): (r: string)
    requires 'm' in s
    ensures |r| < |s|
  {
    s[IndexOf(s, 'm') + 1..]
  }

  lemma StripEscape(a: string, b: string)
    requires a != [] && a[0] == ESC && 'm' in a
    ensures Strip(a + b) == Strip(AfterEscape(a) + b) && Strip(a) == Strip(AfterEscape(a))
  {
    IndexOfAppend(a, b, 'm');
    assert (a + b)[IndexOf(a, 'm') + 1..] == a[IndexOf(a, 'm') + 1..] + b;
  }

  lemma StripChar(a: string, b: string)
    requires a != [] && a[0] != ESC
    ensures Strip(a + b) == [a[0]] + Strip(a[1..] + b) && Strip(a) == [a[0]] + Strip(a[1..])
  {
    assert (a + b)[1..] == a[1..] + b;
  }

  /** Stripping distributes over concatenation after closed text. */
  lemma {:induction false} StripAppend(a: string, b: string)
    requires Closed(a)
    ensures Strip(a + b) == Strip(a) + Strip(b)
    decreases |a|
  {
    if a == [] {
      assert a + b == b;
    } else if a[0] == ESC {
      ClosedEscape(a);
      StripEscape(a, b);
      StripAppend(AfterEscape(a), b);
    } else {
      ClosedSuffix(a, 1);
      StripChar(a, b);
      StripAppend(a[1..], b);
      Assoc([a[0]], Strip(a[1..]), Strip(b));
    }
  }

  lemma {:induction false} StripPlain(s: string)
    requires ESC !in s || 'm' !in s
    ensures Strip(s) == s
  {
    if s != [] { StripPlain(s[1..]); }
  }

  /** An escape up to its `m` is not seen; with the laws above this determines what stripping leaves. */
  lemma EscapeVanishes(body: string)
    requires 'm' !in body
    ensures Strip([ESC] + body + "m") == ""
  {
    var s := [ESC] + body + "m";
    IndexOfAppend([ESC] + body, "m", 'm');
    assert s[|body| + 2..] == [];
  }

  /** After unclosed text it does not: an `m` that follows swallows the open escape. */
  lemma {:induction false} StripOfUnclosed(a: string)
    requires !Closed(a)
    ensures |Strip(a + "m")| <= |Strip(a)|
    decreases |a|
  {
    var i :| 0 <= i < |a| && a[i] == ESC && 'm' !in a[i..];
    if a[0] == ESC && 'm' in a {
      EscapeBefore(a, i);
      StripEscape(a, "m");
      StillUnclosed(a, IndexOf(a, 'm') + 1, i);
      StripOfUnclosed(AfterEscape(a));
    } else if a[0] == ESC {
      IndexOfAppend(a, "m", 'm');
      assert (a + "m")[|a| + 1..] == [];
    } else {
      StripChar(a, "m");
      StillUnclosed(a, 1, i);
      StripOfUnclosed(a[1..]);
    }
  }

  /** An escape that nothing closes lies after every `m`. */
  lemma EscapeBefore(a: string, i: nat)
    requires i < |a| && 'm' in a && 'm' !in a[i..]
    ensures IndexOf(a, 'm') < i
  {
    assert forall j :: i <= j < |a| ==> a[j] == a[i..][j - i];
  }

  lemma StillUnclosed(a: string, k: nat, i: nat)
    requires k <= i < |a| && a[i] == ESC && 'm' !in a[i..]
    ensures !Closed(a[k..])
  {
    assert a[k..][i - k] == ESC && a[k..][i - k..] == a[i..];
  }

  /** Closed texts are exactly those after which stripping distributes. */
  lemma ClosedIffStripDistributes(a: string)
    ensures Closed(a) <==> forall b :: Strip(a + b) == Strip(a) + Strip(b)
  {
    if Closed(a) {
      forall b ensures Strip(a + b) == Strip(a) + Strip(b) { StripAppend(a, b); }
    } else {
      StripOfUnclosed(a);
      StripPlain("m");
      assert |Strip(a + "m")| != |Strip(a) + Strip("m")|;
    }
  }

  // ----- lines

  /** The first `k` lines, each with a line feed after it. */
  function Terminated(lines: seq<string>, k: nat): string
    requires k <= |lines|
  {
    if k == 0 then "" else Terminated(lines, k - 1) + lines[k - 1] + [NL]
  }

  /** The first `k` lines with a line feed between neighbours. */
  function Joined(lines: seq<string>, k: nat): string
    requires 0 < k <= |lines|
  {
    Terminated(lines, k - 1) + lines[k - 1]
  }

  /** The lines as one text. */
  function Join(lines: seq<string>): string
    requires lines != []
  {
    Joined(lines, |lines|)
  }

  /** The lines of a text. */
  function Split(text: string): (lines: seq<string>)
    ensures lines != []
  {
    if text == [] then [""]
    else
      var rest := Split(text[1..]);
      if text[0] == NL then [""] + rest else [[text[0]] + rest[0]] + rest[1..]
  }

  predicate OneLine(s: string) {
    NL !in s
  }

  lemma {:induction false} SplitLine(line: string, rest: string)
    requires OneLine(line)
    ensures Split(line + ([NL] + rest)) == [line] + Split(rest)
  {
    var text := line + ([NL] + rest);
    if line == [] {
      assert text[1..] == rest;
    } else {
      SplitLine(line[1..], rest);
      assert text[1..] == line[1..] + ([NL] + rest);
      assert line == [line[0]] + line[1..];
    }
  }

  lemma {:induction false} SplitTerminated(lines: seq<string>, k: nat, rest: string)
    requires k <= |lines| && forall i :: 0 <= i < |lines| ==> OneLine(lines[i])
    ensures Split(Terminated(lines, k) + rest) == lines[..k] + Split(rest)
  {
    if k == 0 {
      assert Terminated(lines, k) + rest == rest;
    } else {
      var before, last := Terminated(lines, k - 1), lines[k - 1];
      Assoc(before + last, [NL], rest);
      Assoc(before, last, [NL] + rest);
      SplitTerminated(lines, k - 1, last + ([NL] + rest));
      SplitLine(last, rest);
      Assoc(lines[..k - 1], [last], Split(rest));
      assert lines[..k] == lines[..k - 1] + [last];
    }
  }

  /** Splitting a joined text gives the lines back, if none holds a line feed. */
  lemma SplitOfJoin(lines: seq<string>)
    requires lines != [] && forall i :: 0 <= i < |lines| ==> OneLine(lines[i])
    ensures Split(Join(lines)) == lines
  {
    var n := |lines| - 1;
    SplitTerminated(lines, n, lines[n]);
    SplitOneLine(lines[n]);
  }

  lemma {:induction false} SplitOneLine(line: string)
    requires OneLine(line)
    ensures Split(line) == [line]
  {
    if line != [] {
      SplitOneLine(line[1..]);
      assert line == [line[0]] + line[1..];
    }
  }

  // ----- columns

  predicate Fits(rows: seq<seq<string>>) {
    forall i :: 0 <= i < |rows| ==> |rows[i]| <= |rows[0]|
  }

  function Column(rows: seq<seq<string>>, j: nat): seq<string> {
    if rows == [] then []
    else
      var last := rows[|rows| - 1];
      Column(rows[..|rows| - 1], j) + if j < |last| then [last[j]] else []
  }

  /** A column holds the cells of the rows in their order. */
  lemma {:induction false} ColumnIs(rows: seq<seq<string>>, j: nat)
    requires forall i :: 0 <= i < |rows| ==> j < |rows[i]|
    ensures |Column(rows, j)| == |rows| && forall i :: 0 <= i < |rows| ==> Column(rows, j)[i] == rows[i][j]
  {
    if rows != [] { ColumnIs(rows[..|rows| - 1], j); }
  }

  function Max(a: nat, b: nat): nat {
    if a < b then b else a
  }

  /** The visible length of the widest cell. */
  function Widest(cells: seq<string>): (w: nat)
    ensures forall k :: 0 <= k < |cells| ==> VisibleLen(cells[k]) <= w
    ensures w == 0 || exists k :: 0 <= k < |cells| && VisibleLen(cells[k]) == w
  {
    if cells == [] then 0 else Max(VisibleLen(cells[|cells| - 1]), Widest(cells[..|cells| - 1]))
  }

  lemma {:induction false} CellInColumn(rows: seq<seq<string>>, i: nat, j: nat)
    requires i < |rows| && j < |rows[i]|
    ensures rows[i][j] in Column(rows, j)
  {
    if i < |rows| - 1 { CellInColumn(rows[..|rows| - 1], i, j); }
  }

  // ----- the text of a table

  datatype Layout = Layout(widths: seq<nat>, padding: nat, separated: bool)

  function SeparatorText(layout: Layout, n: nat): string
    requires n <= |layout.widths|
  {
    if n == 0 then "+" else SeparatorText(layout, n - 1) + Repeat('-', layout.widths[n - 1] + 2 * layout.padding) + "+"
  }

  /** There are columns for all cells of the rows. */
  predicate AllFit(layout: Layout, rows: seq<seq<string>>) {
    forall i :: 0 <= i < |rows| ==> |rows[i]| <= |layout.widths|
  }

  predicate CellFits(layout: Layout, col: nat, cell: string) {
    col < |layout.widths| && VisibleLen(cell) <= layout.widths[col]
  }

  predicate RowFits(layout: Layout, row: seq<string>) {
    forall j :: 0 <= j < |row| ==> CellFits(layout, j, row[j])
  }

  /** The columns are wide enough for all cells. */
  predicate AllWide(layout: Layout, rows: seq<seq<string>>) {
    forall i :: 0 <= i < |rows| ==> RowFits(layout, rows[i])
  }

  function Opening(layout: Layout): string {
    if layout.separated then "|" + Repeat(' ', layout.padding) else ""
  }

  function Closing(layout: Layout, col: nat): string {
    if layout.separated && col == |layout.widths| - 1 then "|" else ""
  }

  function Missing(width: nat, n: nat): nat {
    if n <= width then width - n else 0
  }

  function CellText(layout: Layout, col: nat, cell: string): string
    requires col < |layout.widths|
  {
    Opening(layout) + cell + Repeat(' ', Missing(layout.widths[col], VisibleLen(cell))) + Repeat(' ', layout.padding)
    + Closing(layout, col)
  }

  function RowText(layout: Layout, row: seq<string>, n: nat): string
    requires n <= |row| <= |layout.widths|
  {
    if n == 0 then "" else RowText(layout, row, n - 1) + CellText(layout, n - 1, row[n - 1])
  }

  function RowTexts(layout: Layout, rows: seq<seq<string>>): (r: seq<string>)
    requires AllFit(layout, rows)
    ensures |r| == |rows| && forall i :: 0 <= i < |rows| ==> r[i] == RowText(layout, rows[i], |rows[i]|)
  {
    seq(|rows|, i requires 0 <= i < |rows| => RowText(layout, rows[i], |rows[i]|))
  }

  /** A separator line, if the table has them. */
  function Rule(layout: Layout): seq<string> {
    if layout.separated then [SeparatorText(layout, |layout.widths|)] else []
  }

  /** The index of the first body row. */
  function FirstBody(hasHeader: bool): nat {
    if hasHeader then 1 else 0
  }

  /** The lines before the body. */
  function Head(rule: seq<string>, texts: seq<string>, hasHeader: bool): seq<string>
    requires hasHeader ==> texts != []
  {
    (if hasHeader then rule + [texts[0]] else []) + rule
  }

  /** The lines of the body; a missing body is one empty line. */
  function BodyLines(texts: seq<string>, first: nat): (r: seq<string>)
    requires first <= |texts|
    ensures r != []
  {
    if first == |texts| then [""] else texts[first..]
  }

  /** The lines of a table: separators around the header and the body. */
  function Lines(rule: seq<string>, texts: seq<string>, hasHeader: bool): (r: seq<string>)
    requires hasHeader ==> texts != []
    ensures r != []
  {
    Head(rule, texts, hasHeader) + BodyLines(texts, FirstBody(hasHeader)) + rule
  }

  /** The number of lines before the body. */
  function HeadCount(separated: bool, hasHeader: bool): nat {
    (if hasHeader then 1 else 0) + (if separated then (if hasHeader then 2 else 1) else 0)
  }

  /** Where the lines of a table stand. */
  predicate IsPage(lines: seq<string>, rule: seq<string>, texts: seq<string>, hasHeader: bool) {
    var k, first := HeadCount(rule != [], hasHeader), FirstBody(hasHeader);
    first <= |texts| && |lines| == k + (if first == |texts| then 1 else |texts| - first) + |rule| &&
    (hasHeader ==> lines[|rule|] == texts[0]) &&
    (rule != [] ==> lines[0] == lines[k - 1] == lines[|lines| - 1] == rule[0]) &&
    (first == |texts| ==> lines[k] == "") &&
    forall i :: first <= i < |texts| ==> lines[k + i - first] == texts[i]
  }

  lemma LinesArePage(rule: seq<string>, texts: seq<string>, hasHeader: bool)
    requires |rule| <= 1 && (hasHeader ==> texts != [])
    ensures IsPage(Lines(rule, texts, hasHeader), rule, texts, hasHeader)
  {
  }

  // ----- what the text of a table shows

  function Total(widths: seq<nat>, n: nat, extra: nat): nat
    requires n <= |widths|
  {
    if n == 0 then 0 else Total(widths, n - 1, extra) + widths[n - 1] + extra
  }

  /** The places before the content of a cell: the bar and the padding. */
  function Before(layout: Layout): nat {
    if layout.separated then layout.padding + 1 else 0
  }

  /** The spaces after the content: what it lacks to the width of the column, and the padding. */
  function Filling(layout: Layout, col: nat, cell: string): nat
    requires col < |layout.widths|
  {
    (if VisibleLen(cell) <= layout.widths[col] then layout.widths[col] - VisibleLen(cell) else 0) + layout.padding
  }

  /** The places that a cell takes in the text. */
  function Span(layout: Layout, col: nat, cell: string): nat
    requires col < |layout.widths|
  {
    Before(layout) + |cell| + Filling(layout, col, cell) +
    if layout.separated && col == |layout.widths| - 1 then 1 else 0
  }

  /** A bar and padding, if there are separators, then the cell as it is, then only spaces, up to the bar
      after the last column. */
  predicate ShowsCell(text: string, layout: Layout, col: nat, cell: string)
    requires col < |layout.widths|
  {
    var a, fill := Before(layout), Filling(layout, col, cell);
    |text| == Span(layout, col, cell) && text[a..a + |cell|] == cell &&
    (layout.separated ==> text[0] == '|') && (forall p :: 1 <= p < a ==> text[p] == ' ') &&
    (forall p :: a + |cell| <= p < a + |cell| + fill ==> text[p] == ' ') &&
    (layout.separated && col == |layout.widths| - 1 ==> text[|text| - 1] == '|')
  }

  /** Where a cell of the row begins: after the earlier ones. */
  function StartOf(layout: Layout, row: seq<string>, j: nat): nat
    requires j <= |row| <= |layout.widths|
  {
    if j == 0 then 0 else StartOf(layout, row, j - 1) + Span(layout, j - 1, row[j - 1])
  }

  /** The line is the cells of the row, one after the other. */
  predicate ShowsRow(line: string, layout: Layout, row: seq<string>)
    requires |row| <= |layout.widths|
  {
    |line| == StartOf(layout, row, |row|) && forall j :: 0 <= j < |row| ==> CellShown(line, layout, row, j)
  }

  predicate CellShown(line: string, layout: Layout, row: seq<string>, j: nat)
    requires j < |row| <= |layout.widths|
  {
    StartOf(layout, row, j + 1) <= |line| &&
    ShowsCell(line[StartOf(layout, row, j)..StartOf(layout, row, j + 1)], layout, j, row[j])
  }

  /** Dashes with a plus at each border of a column. */
  predicate IsRuler(line: string, layout: Layout) {
    RulerTo(line, layout, |layout.widths|)
  }

  /** The ruler of the first `n` columns. */
  predicate RulerTo(line: string, layout: Layout, n: nat)
    requires n <= |layout.widths|
  {
    var extra := 2 * layout.padding + 1;
    |line| == Total(layout.widths, n, extra) + 1 &&
    (forall p :: 0 <= p < |line| ==> line[p] == '+' || line[p] == '-') &&
    (forall j :: 0 <= j <= n ==> PlusAt(line, Total(layout.widths, j, extra))) &&
    forall p :: 0 <= p < |line| && line[p] == '+' ==> exists j :: 0 <= j <= n && p == Total(layout.widths, j, extra)
  }

  predicate PlusAt(line: string, p: nat) {
    p < |line| && line[p] == '+'
  }

  /** The line of row `i`: the header after the first separator, the others after the head. */
  function LineOf(separated: bool, hasHeader: bool, i: nat): nat {
    if hasHeader && i == 0 then (if separated then 1 else 0)
    else (if separated then (if hasHeader then 2 else 1) else 0) + i
  }

  /** Each row has its line, and the separators, if any, are the lines around header and body. */
  predicate ShowsTable(lines: seq<string>, layout: Layout, rows: seq<seq<string>>, hasHeader: bool)
    requires AllFit(layout, rows)
  {
    (forall i :: 0 <= i < |rows| ==> RowShown(lines, layout, rows, hasHeader, i)) &&
    (layout.separated ==> |lines| > 1 && IsRuler(lines[0], layout) && IsRuler(lines[|lines| - 1], layout)) &&
    (layout.separated && hasHeader ==> |lines| > 2 && IsRuler(lines[2], layout))
  }

  predicate RowShown(lines: seq<string>, layout: Layout, rows: seq<seq<string>>, hasHeader: bool, i: nat)
    requires i < |rows| && AllFit(layout, rows)
  {
    var k := LineOf(layout.separated, hasHeader, i);
    k < |lines| && ShowsRow(lines[k], layout, rows[i])
  }

  lemma Parts(a: string, b: string, c: string, d: string, e: string)
    ensures var all := a + b + c + d + e;
      |all| == |a| + |b| + |c| + |d| + |e| && all[..|a|] == a && all[|a|..|a| + |b|] == b &&
      (forall p :: 0 <= p < |c| ==> all[|a| + |b| + p] == c[p]) &&
      (forall p :: 0 <= p < |d| ==> all[|a| + |b| + |c| + p] == d[p]) &&
      (forall p :: 0 <= p < |e| ==> all[|a| + |b| + |c| + |d| + p] == e[p])
  {
  }

  lemma CellTextShows(layout: Layout, col: nat, cell: string)
    requires col < |layout.widths|
    ensures ShowsCell(CellText(layout, col, cell), layout, col, cell)
  {
    var fill, gap := Repeat(' ', Missing(layout.widths[col], VisibleLen(cell))), Repeat(' ', layout.padding);
    var open, close, text := Opening(layout), Closing(layout, col), CellText(layout, col, cell);
    Parts(open, cell, fill, gap, close);
    assert forall p :: 0 <= p < |open| ==> text[p] == text[..|open|][p] == open[p];
    forall p | |open| + |cell| <= p < |open| + |cell| + |fill| + |gap|
      ensures text[p] == ' '
    {
      var q := p - |open| - |cell|;
      if q < |fill| { assert text[|open| + |cell| + q] == fill[q]; }
      else { assert text[|open| + |cell| + |fill| + (q - |fill|)] == gap[q - |fill|]; }
    }
    if close != "" { assert text[|open| + |cell| + |fill| + |gap| + 0] == close[0]; }
  }

  lemma ShownLonger(before: string, cell: string, layout: Layout, row: seq<string>, j: nat)
    requires j < |row| <= |layout.widths| && CellShown(before, layout, row, j)
    ensures CellShown(before + cell, layout, row, j)
  {
    var a, b := StartOf(layout, row, j), StartOf(layout, row, j + 1);
    assert (before + cell)[a..b] == before[a..b];
  }

  lemma LastShown(before: string, cell: string, layout: Layout, row: seq<string>, j: nat)
    requires j < |row| <= |layout.widths| && ShowsCell(cell, layout, j, row[j]) && |before| == StartOf(layout, row, j)
    ensures |before + cell| == StartOf(layout, row, j + 1) && CellShown(before + cell, layout, row, j)
  {
    assert (before + cell)[|before|..|before| + |cell|] == cell;
  }

  lemma {:induction false} RowTextShows(layout: Layout, row: seq<string>, n: nat)
    requires n <= |row| <= |layout.widths|
    ensures |RowText(layout, row, n)| == StartOf(layout, row, n)
    ensures forall j :: 0 <= j < n ==> CellShown(RowText(layout, row, n), layout, row, j)
  {
    if n > 0 {
      var before, cell := RowText(layout, row, n - 1), CellText(layout, n - 1, row[n - 1]);
      RowTextShows(layout, row, n - 1);
      CellTextShows(layout, n - 1, row[n - 1]);
      LastShown(before, cell, layout, row, n - 1);
      forall j | 0 <= j < n - 1
        ensures CellShown(before + cell, layout, row, j)
      {
        ShownLonger(before, cell, layout, row, j);
      }
    }
  }

  lemma RowIsShown(layout: Layout, row: seq<string>)
    requires |row| <= |layout.widths|
    ensures ShowsRow(RowText(layout, row, |row|), layout, row)
  {
    RowTextShows(layout, row, |row|);
  }

  lemma {:induction false} SeparatorRules(layout: Layout, n: nat)
    requires n <= |layout.widths|
    ensures RulerTo(SeparatorText(layout, n), layout, n)
  {
    var line, extra := SeparatorText(layout, n), 2 * layout.padding + 1;
    if n == 0 {
      assert Total(layout.widths, 0, extra) == 0;
    } else {
      SeparatorRules(layout, n - 1);
      RulerNext(SeparatorText(layout, n - 1), layout, n);
    }
  }

  lemma RulerNext(before: string, layout: Layout, n: nat)
    requires 0 < n <= |layout.widths| && RulerTo(before, layout, n - 1)
    ensures RulerTo(before + Repeat('-', layout.widths[n - 1] + 2 * layout.padding) + "+", layout, n)
  {
    var extra, dashes := 2 * layout.padding + 1, Repeat('-', layout.widths[n - 1] + 2 * layout.padding);
    var line := before + dashes + "+";
    forall j | 0 <= j <= n
      ensures PlusAt(line, Total(layout.widths, j, extra))
    {
      if j < n { assert PlusAt(before, Total(layout.widths, j, extra)); }
    }
    forall p | 0 <= p < |line| && line[p] == '+'
      ensures exists j :: 0 <= j <= n && p == Total(layout.widths, j, extra)
    {
      if p < |before| {
        var j :| 0 <= j <= n - 1 && p == Total(layout.widths, j, extra);
      } else {
        assert p == Total(layout.widths, n, extra);
      }
    }
  }

  lemma PageShowsRows(lines: seq<string>, layout: Layout, rows: seq<seq<string>>, hasHeader: bool)
    requires AllFit(layout, rows) && IsPage(lines, Rule(layout), RowTexts(layout, rows), hasHeader)
    ensures forall i :: 0 <= i < |rows| ==> RowShown(lines, layout, rows, hasHeader, i)
  {
    var texts := RowTexts(layout, rows);
    forall i | 0 <= i < |rows|
      ensures RowShown(lines, layout, rows, hasHeader, i)
    {
      RowAt(lines, Rule(layout), texts, hasHeader, i);
      RowIsShown(layout, rows[i]);
    }
  }

  lemma RowAt(lines: seq<string>, rule: seq<string>, texts: seq<string>, hasHeader: bool, i: nat)
    requires IsPage(lines, rule, texts, hasHeader) && |rule| <= 1 && i < |texts|
    ensures var k := LineOf(rule != [], hasHeader, i);
      k < |lines| && lines[k] == texts[i]
  {
    var first := FirstBody(hasHeader);
    if i >= first { assert lines[HeadCount(rule != [], hasHeader) + i - first] == texts[i]; }
  }

  lemma RulesAt(lines: seq<string>, rule: seq<string>, texts: seq<string>, hasHeader: bool)
    requires IsPage(lines, rule, texts, hasHeader) && |rule| == 1
    ensures |lines| > 1 && lines[0] == lines[|lines| - 1] == rule[0]
    ensures hasHeader ==> |lines| > 2 && lines[2] == rule[0]
  {
  }

  lemma PageShowsTable(lines: seq<string>, layout: Layout, rows: seq<seq<string>>, hasHeader: bool)
    requires AllFit(layout, rows) && IsPage(lines, Rule(layout), RowTexts(layout, rows), hasHeader)
    ensures ShowsTable(lines, layout, rows, hasHeader)
  {
    PageShowsRows(lines, layout, rows, hasHeader);
    if layout.separated {
      SeparatorRules(layout, |layout.widths|);
      RulesAt(lines, Rule(layout), RowTexts(layout, rows), hasHeader);
    }
  }

  /** The lines from `k` on are those of the body, an empty one if there is none. */
  predicate BodyStands(lines: seq<string>, k: nat, texts: seq<string>, first: nat)
    requires first <= |texts|
  {
    |lines| >= k + (if first == |texts| then 1 else |texts| - first) && (first == |texts| ==> lines[k] == "") &&
    forall i :: first <= i < |texts| ==> lines[k + i - first] == texts[i]
  }

  lemma BodyLineAt(lines: seq<string>, k: nat, texts: seq<string>, first: nat, i: nat)
    requires first <= i < |texts| && BodyStands(lines, k, texts, first)
    ensures k + i - first < |lines| && lines[k + i - first] == texts[i]
  {
  }

  /** The first `k` lines are written; `open` says that a line feed is after the last of them. */
  predicate BodyWritten(text: string, lines: seq<string>, k: nat, open: bool) {
    k <= |lines| && (!open ==> k > 0) && text == if open then Terminated(lines, k) else Joined(lines, k)
  }

  lemma EmptyBody(text: string, lines: seq<string>, k: nat)
    requires k < |lines| && lines[k] == "" && text == Terminated(lines, k)
    ensures text == Joined(lines, k + 1)
  {
    assert text + "" == text;
  }

  lemma BodyNext(text: string, lines: seq<string>, k: nat, more: bool)
    requires BodyWritten(text, lines, k, true) && k < |lines|
    ensures BodyWritten(if more then text + lines[k] + [NL] else text + lines[k], lines, k + 1, more)
  {
  }

  // ----- the loop of recalculation

  predicate CountedAt(columns: seq<seq<string>>, widths: seq<nat>, rows: seq<seq<string>>, j: nat)
    requires j < |columns| && j < |widths|
  {
    columns[j] == Column(rows, j) && widths[j] == Widest(columns[j])
  }

  /** The columns and widths describe these rows. */
  predicate Counted(columns: seq<seq<string>>, widths: seq<nat>, rows: seq<seq<string>>, n: nat) {
    |columns| == |widths| == n && forall j :: 0 <= j < n ==> CountedAt(columns, widths, rows, j)
  }

  lemma ColumnAppend(rows: seq<seq<string>>, row: seq<string>, j: nat)
    ensures Column(rows + [row], j) == Column(rows, j) + if j < |row| then [row[j]] else []
  {
    assert (rows + [row])[..|rows|] == rows;
  }

  lemma WidestAppend(cells: seq<string>, cell: string)
    ensures Widest(cells + [cell]) == Max(VisibleLen(cell), Widest(cells))
  {
    assert (cells + [cell])[..|cells|] == cells;
  }

  /** The first `j` columns count the new row, the others do not yet. */
  predicate Counting(columns: seq<seq<string>>, widths: seq<nat>, before: seq<seq<string>>, row: seq<string>, j: nat) {
    j <= |columns| == |widths| &&
    (forall k :: 0 <= k < j ==> CountedAt(columns, widths, before + [row], k)) &&
    (forall k :: j <= k < |columns| ==> CountedAt(columns, widths, before, k))
  }

  lemma CountedCell(columns: seq<seq<string>>, widths: seq<nat>, before: seq<seq<string>>, row: seq<string>, j: nat)
    requires j < |row| && j < |columns| && j < |widths| && CountedAt(columns, widths, before, j)
    ensures CountedAt(columns[j := columns[j] + [row[j]]], widths[j := Max(VisibleLen(row[j]), widths[j])],
      before + [row], j)
  {
    ColumnAppend(before, row, j);
    WidestAppend(columns[j], row[j]);
  }

  lemma CountedSame(columns: seq<seq<string>>, widths: seq<nat>, columns1: seq<seq<string>>, widths1: seq<nat>,
                    rows: seq<seq<string>>, k: nat)
    requires k < |columns| == |columns1| && k < |widths| == |widths1|
    requires columns[k] == columns1[k] && widths[k] == widths1[k] && CountedAt(columns, widths, rows, k)
    ensures CountedAt(columns1, widths1, rows, k)
  {
  }

  lemma CountedNext(columns: seq<seq<string>>, widths: seq<nat>, before: seq<seq<string>>, row: seq<string>, j: nat)
    requires Counting(columns, widths, before, row, j) && j < |row| <= |columns|
    ensures Counting(columns[j := columns[j] + [row[j]]], widths[j := Max(VisibleLen(row[j]), widths[j])],
      before, row, j + 1)
  {
    var columns1, widths1 := columns[j := columns[j] + [row[j]]], widths[j := Max(VisibleLen(row[j]), widths[j])];
    CountedCell(columns, widths, before, row, j);
    forall k | 0 <= k < j
      ensures CountedAt(columns1, widths1, before + [row], k)
    {
      CountedSame(columns, widths, columns1, widths1, before + [row], k);
    }
    forall k | j < k < |columns|
      ensures CountedAt(columns1, widths1, before, k)
    {
      CountedSame(columns, widths, columns1, widths1, before, k);
    }
  }

  lemma CountedLast(columns: seq<seq<string>>, widths: seq<nat>, before: seq<seq<string>>, row: seq<string>)
    requires Counting(columns, widths, before, row, |row|)
    ensures Counted(columns, widths, before + [row], |columns|)
  {
    forall k | |row| <= k < |columns|
      ensures CountedAt(columns, widths, before + [row], k)
    {
      assert CountedAt(columns, widths, before, k);
      ColumnAppend(before, row, k);
    }
  }

  class Table {
    var rows: seq<seq<string>>
    var columns: seq<seq<string>>
    var hasHeader: bool
    var numColumns: nat
    var columnsWidth: seq<nat>
    const padding: nat
    const useSeparator: bool

    /** The columns and their widths describe the rows. */
    ghost predicate Valid()
      reads this
    {
      Fits(rows) && (hasHeader ==> rows != []) &&
      numColumns == (if rows == [] then 0 else |rows[0]|) &&
      Counted(columns, columnsWidth, rows, numColumns)
    }

    ghost function Shape(): Layout
      reads this
    {
      Layout(columnsWidth, padding, useSeparator)
    }

    ghost function Texts(): seq<string>
      reads this
      requires AllFit(Shape(), rows)
    {
      RowTexts(Shape(), rows)
    }

    /** No cell is wider than its column, so no padding count is negative. */
    lemma CellsFit()
      requires Valid()
      ensures AllFit(Shape(), rows) && AllWide(Shape(), rows)
    {
      forall i, j | 0 <= i < |rows| && 0 <= j < |rows[i]|
        ensures CellFits(Shape(), j, rows[i][j])
      {
        CellInColumn(rows, i, j);
        assert CountedAt(columns, columnsWidth, rows, j);
      }
    }

    /** What `Render` returns is aligned exactly if the table is alignable, given plain cells in full rows. */
    lemma RenderedAligns()
      requires Valid() && Rectangular(Shape(), rows)
      ensures AllFit(Shape(), rows)
      ensures var lines := Lines(Rule(Shape()), Texts(), hasHeader);
        Split(Join(lines)) == lines && (Aligned(lines) <==> Alignable(Shape(), |rows|, hasHeader))
    {
      CellsFit();
      TableAligns(Shape(), rows, hasHeader);
    }

    constructor (rows: seq<seq<string>>, padding: nat, useSeparator: bool)
      requires Fits(rows)
      ensures Valid() && this.rows == rows && !hasHeader
      ensures this.padding == padding && this.useSeparator == useSeparator
    {
      this.rows, this.padding, this.useSeparator := rows, padding, useSeparator;
      hasHeader, numColumns, columns, columnsWidth := false, 0, [], [];
      new;
      ComputeProperties();
    }

    method SetHeader(header: seq<string>)
      requires Fits([header] + rows)
      modifies this
      ensures Valid() && rows == [header] + old(rows) && hasHeader
    {
      hasHeader := true;
      rows := [header] + rows;
      ComputeProperties();
    }

    method AddRow(row: seq<string>)
      requires Valid() && Fits(rows + [row])
      modifies this
      ensures Valid() && rows == old(rows) + [row] && hasHeader == old(hasHeader)
    {
      rows := rows + [row];
      ComputeProperties();
    }

    method ComputeProperties()
      requires Fits(rows) && (hasHeader ==> rows != [])
      requires rows == [] ==> numColumns == 0 && columns == [] && columnsWidth == []
      modifies this`numColumns, this`columns, this`columnsWidth
      ensures Valid()
    {
      if |rows| > 0 {
        numColumns := |rows[0]|;
        columnsWidth := seq(numColumns, _ => 0);
        Recalculate();
      }
    }

    method Recalculate()
      requires Fits(rows) && rows != [] && numColumns == |rows[0]|
      requires |columnsWidth| == numColumns && forall j :: 0 <= j < numColumns ==> columnsWidth[j] == 0
      modifies this`columns, this`columnsWidth
      ensures Counted(columns, columnsWidth, rows, numColumns)
    {
      columns := [];
      var k := 0;
      while k < numColumns
        invariant k <= numColumns && |columns| == k && columnsWidth == old(columnsWidth)
        invariant forall j :: 0 <= j < k ==> columns[j] == []
      {
        columns := columns + [[]];
        k := k + 1;
      }
      var i := 0;
      while i < |rows|
        invariant 0 <= i <= |rows|
        invariant |columnsWidth| == numColumns
        invariant Counted(columns, columnsWidth, rows[..i], numColumns)
      {
        RecalculateRow(rows[i], rows[..i]);
        assert rows[..i + 1] == rows[..i] + [rows[i]];
        i := i + 1;
      }
      assert rows[..|rows|] == rows;
    }

    /** The inner loop: one row is added to the columns. */
    method RecalculateRow(row: seq<string>, ghost before: seq<seq<string>>)
      requires |row| <= numColumns && Counted(columns, columnsWidth, before, numColumns)
      modifies this`columns, this`columnsWidth
      ensures Counted(columns, columnsWidth, before + [row], numColumns)
    {
      var j := 0;
      while j < |row|
        invariant 0 <= j <= |row| <= |columns| == numColumns
        invariant Counting(columns, columnsWidth, before, row, j)
      {
        CountedNext(columns, columnsWidth, before, row, j);
        columns := columns[j := columns[j] + [row[j]]];
        columnsWidth := columnsWidth[j := Max(VisibleLen(row[j]), columnsWidth[j])];
        j := j + 1;
      }
      CountedLast(columns, columnsWidth, before, row);
    }

    method Render() returns (text: string)
      requires Valid()
      ensures AllFit(Shape(), rows) && AllWide(Shape(), rows)
      ensures text == Join(Lines(Rule(Shape()), Texts(), hasHeader))
      ensures CellsAreOneLine(rows) ==> ShowsTable(Split(text), Shape(), rows, hasHeader)
    {
      CellsFit();
      LinesArePage(Rule(Shape()), Texts(), hasHeader);
      PageShowsTable(Lines(Rule(Shape()), Texts(), hasHeader), Shape(), rows, hasHeader);
      if CellsAreOneLine(rows) { PageIsOneLine(Shape(), rows, hasHeader); }
      text := RenderPage(Lines(Rule(Shape()), Texts(), hasHeader));
    }

    method RenderPage(ghost lines: seq<string>) returns (text: string)
      requires numColumns == |columnsWidth| && AllFit(Shape(), rows) && AllWide(Shape(), rows)
      requires IsPage(lines, Rule(Shape()), Texts(), hasHeader)
      ensures text == Join(lines)
    {
      var i;
      text, i := RenderHead(lines);
      text := RenderBody(text, i, lines, HeadCount(useSeparator, hasHeader));
      text := RenderFoot(text, lines);
    }

    method RenderFoot(before: string, ghost lines: seq<string>) returns (text: string)
      requires |lines| > (if useSeparator then 1 else 0)
      requires useSeparator ==> [lines[|lines| - 1]] == Rule(Shape())
      requires before == Joined(lines, if useSeparator then |lines| - 1 else |lines|)
      ensures text == Join(lines)
    {
      text := before;
      if useSeparator {
        text := text + [NL];
        var line := SeparatorLine();
        text := text + line;
      }
    }

    /** The lines above the body, and the index of the first body row. */
    method RenderHead(ghost lines: seq<string>) returns (text: string, i: nat)
      requires numColumns == |columnsWidth| && AllFit(Shape(), rows) && AllWide(Shape(), rows)
      requires IsPage(lines, Rule(Shape()), Texts(), hasHeader)
      ensures i == FirstBody(hasHeader)
      ensures text == Terminated(lines, HeadCount(useSeparator, hasHeader))
    {
      text, i := "", 0;
      if hasHeader {
        if useSeparator {
          var line := SeparatorLine();
          text := text + line;
          text := text + [NL];
          assert text == Terminated(lines, 1);
        }
        var line := RenderRow(0);
        text := text + line;
        i := 1;
        text := text + [NL];
      }
      if useSeparator {
        var line := SeparatorLine();
        text := text + line;
        text := text + [NL];
      }
    }

    /** The body rows, after the text so far. */
    method RenderBody(before: string, first: nat, ghost lines: seq<string>, ghost k: nat) returns (text: string)
      requires numColumns == |columnsWidth| && AllFit(Shape(), rows) && AllWide(Shape(), rows)
      requires first <= |rows| && BodyStands(lines, k, Texts(), first)
      requires before == Terminated(lines, k)
      ensures text == Joined(lines, k + if first == |rows| then 1 else |rows| - first)
    {
      text := before;
      var i := first;
      while i < |rows|
        invariant first <= i <= |rows|
        invariant BodyWritten(text, lines, k + i - first, i < |rows| || first == |rows|)
      {
        BodyLineAt(lines, k, Texts(), first, i);
        var line := RenderRow(i);
        BodyNext(text, lines, k + i - first, i < |rows| - 1);
        text := text + line;
        if i < |rows| - 1 {
          text := text + [NL];
        }
        i := i + 1;
      }
      if first == |rows| { EmptyBody(text, lines, k); }
    }

    method RenderRow(i: nat) returns (text: string)
      requires numColumns == |columnsWidth| && i < |rows| && AllFit(Shape(), rows) && AllWide(Shape(), rows)
      ensures text == Texts()[i]
    {
      text := "";
      var j := 0;
      while j < |rows[i]|
        invariant 0 <= j <= |rows[i]|
        invariant text == RowText(Shape(), rows[i], j)
      {
        var cell := GetCell(i, j);
        text := text + cell;
        j := j + 1;
      }
    }

    method SeparatorLine() returns (sep: string)
      ensures sep == SeparatorText(Shape(), |columnsWidth|)
      ensures useSeparator ==> Rule(Shape()) == [sep]
      ensures IsRuler(sep, Shape())
    {
      SeparatorRules(Shape(), |columnsWidth|);
      sep := "+";
      var j := 0;
      while j < |columnsWidth|
        invariant 0 <= j <= |columnsWidth|
        invariant sep == SeparatorText(Shape(), j)
      {
        sep := sep + Repeat('-', columnsWidth[j] + 2 * padding);
        sep := sep + "+";
        j := j + 1;
      }
    }

    method GetCell(row: nat, col: nat) returns (cell: string)
      requires numColumns == |columnsWidth| && row < |rows| && col < |rows[row]|
      requires CellFits(Shape(), col, rows[row][col])
      ensures ShowsCell(cell, Shape(), col, rows[row][col])
      ensures cell == CellText(Shape(), col, rows[row][col])
    {
      CellTextShows(Shape(), col, rows[row][col]);
      var content := rows[row][col];
      var spacePadding := Repeat(' ', padding);
      cell := "";
      if useSeparator {
        cell := cell + "|";
        cell := cell + spacePadding;
      }
      assert cell == Opening(Shape());
      cell := cell + content;
      cell := cell + Repeat(' ', columnsWidth[col] - VisibleLen(content));
      cell := cell + spacePadding;
      assert Closing(Shape(), col) == "" ==> cell + Closing(Shape(), col) == cell;
      if useSeparator {
        if col == numColumns - 1 {
          cell := cell + "|";
        }
      }
    }
  }

  // ----- every line of a table has the same visible length

  /** Text that can stand in a cell of an aligned table. */
  predicate Plain(cell: string) {
    Closed(cell) && OneLine(cell)
  }

  /** Plain text that takes `n` places. */
  predicate Shows(s: string, n: nat) {
    Plain(s) && VisibleLen(s) == n
  }

  lemma ShowsAppend(a: string, m: nat, b: string, n: nat)
    requires Shows(a, m) && Shows(b, n)
    ensures Shows(a + b, m + n)
  {
    ClosedAppend(a, b);
    StripAppend(a, b);
  }

  lemma EscapeFree(s: string)
    requires ESC !in s && NL !in s
    ensures Shows(s, |s|)
  {
    StripPlain(s);
  }

  lemma {:induction false} SeparatorLength(layout: Layout, n: nat)
    requires n <= |layout.widths|
    ensures Shows(SeparatorText(layout, n), 1 + Total(layout.widths, n, 2 * layout.padding + 1))
  {
    EscapeFree("+");
    if n > 0 {
      SeparatorLength(layout, n - 1);
      var before, dashes := SeparatorText(layout, n - 1), Repeat('-', layout.widths[n - 1] + 2 * layout.padding);
      EscapeFree(dashes);
      ShowsAppend(before, 1 + Total(layout.widths, n - 1, 2 * layout.padding + 1), dashes, |dashes|);
      ShowsAppend(before + dashes, 1 + Total(layout.widths, n - 1, 2 * layout.padding + 1) + |dashes|, "+", 1);
    }
  }

  lemma ShowsAll(a: string, i: nat, b: string, j: nat, c: string, k: nat, d: string, l: nat, e: string, m: nat)
    requires Shows(a, i) && Shows(b, j) && Shows(c, k) && Shows(d, l) && Shows(e, m)
    ensures Shows(a + b + c + d + e, i + j + k + l + m)
  {
    ShowsAppend(a, i, b, j);
    ShowsAppend(a + b, i + j, c, k);
    ShowsAppend(a + b + c, i + j + k, d, l);
    ShowsAppend(a + b + c + d, i + j + k + l, e, m);
  }

  lemma BarsLength(layout: Layout, col: nat)
    ensures Shows(Opening(layout), if layout.separated then layout.padding + 1 else 0)
    ensures Shows(Closing(layout, col), if layout.separated && col == |layout.widths| - 1 then 1 else 0)
  {
    EscapeFree(Opening(layout));
    EscapeFree(Closing(layout, col));
  }

  /** The visible length of a cell with its padding and bars. */
  function CellLen(layout: Layout, col: nat): nat
    requires col < |layout.widths|
  {
    layout.widths[col] + layout.padding + (if layout.separated then layout.padding + 1 else 0) +
    if layout.separated && col == |layout.widths| - 1 then 1 else 0
  }

  lemma CellLength(layout: Layout, col: nat, cell: string)
    requires CellFits(layout, col, cell) && Plain(cell)
    ensures Shows(CellText(layout, col, cell), CellLen(layout, col))
  {
    var n := VisibleLen(cell);
    var fill, gap := Repeat(' ', layout.widths[col] - n), Repeat(' ', layout.padding);
    BarsLength(layout, col);
    EscapeFree(fill);
    EscapeFree(gap);
    ShowsAll(Opening(layout), if layout.separated then layout.padding + 1 else 0, cell, n, fill, |fill|, gap, |gap|,
      Closing(layout, col), if layout.separated && col == |layout.widths| - 1 then 1 else 0);
  }

  /** The visible length of the first `n` cells of a row. */
  function PartLen(layout: Layout, n: nat): nat
    requires n <= |layout.widths|
  {
    if layout.separated
    then Total(layout.widths, n, 2 * layout.padding + 1) + if n > 0 && n == |layout.widths| then 1 else 0
    else Total(layout.widths, n, layout.padding)
  }

  lemma {:induction false} PartLength(layout: Layout, row: seq<string>, n: nat)
    requires RowFits(layout, row) && n <= |row| <= |layout.widths|
    requires forall j :: 0 <= j < |row| ==> Plain(row[j])
    ensures Shows(RowText(layout, row, n), PartLen(layout, n))
  {
    if n == 0 {
      EscapeFree("");
    } else {
      PartLength(layout, row, n - 1);
      CellLength(layout, n - 1, row[n - 1]);
      ShowsAppend(RowText(layout, row, n - 1), PartLen(layout, n - 1), CellText(layout, n - 1, row[n - 1]),
        CellLen(layout, n - 1));
    }
  }

  /** All lines of the text take the same number of places. */
  predicate Aligned(lines: seq<string>) {
    forall i, j :: 0 <= i < |lines| && 0 <= j < |lines| ==> VisibleLen(lines[i]) == VisibleLen(lines[j])
  }

  /** Every row fills all columns with plain cells. */
  predicate Rectangular(layout: Layout, rows: seq<seq<string>>) {
    forall i :: 0 <= i < |rows| ==> |rows[i]| == |layout.widths| && forall j :: 0 <= j < |rows[i]| ==> Plain(rows[i][j])
  }

  predicate AllShow(lines: seq<string>, n: nat) {
    forall i :: 0 <= i < |lines| ==> Shows(lines[i], n)
  }

  lemma RowsShow(layout: Layout, rows: seq<seq<string>>)
    requires Rectangular(layout, rows) && AllWide(layout, rows)
    ensures AllShow(RowTexts(layout, rows), PartLen(layout, |layout.widths|))
  {
    forall i | 0 <= i < |rows|
      ensures Shows(RowTexts(layout, rows)[i], PartLen(layout, |layout.widths|))
    {
      PartLength(layout, rows[i], |rows[i]|);
    }
  }

  lemma RuleShows(layout: Layout)
    ensures AllShow(Rule(layout), 1 + Total(layout.widths, |layout.widths|, 2 * layout.padding + 1))
  {
    SeparatorLength(layout, |layout.widths|);
  }

  lemma AllShowAppend(a: seq<string>, b: seq<string>, n: nat)
    requires AllShow(a, n) && AllShow(b, n)
    ensures AllShow(a + b, n)
  {
  }

  /** A separator is as long as a full row exactly when there is a column. */
  lemma RuleMatchesRow(layout: Layout)
    requires layout.separated
    ensures 1 + Total(layout.widths, |layout.widths|, 2 * layout.padding + 1) == PartLen(layout, |layout.widths|) <==>
      |layout.widths| > 0
  {
  }

  /** The exact condition under which the lines of a rectangular table of plain cells are aligned. */
  predicate Alignable(layout: Layout, n: nat, hasHeader: bool) {
    if layout.separated then |layout.widths| > 0 && n > FirstBody(hasHeader)
    else n > FirstBody(hasHeader) || !hasHeader || PartLen(layout, |layout.widths|) == 0
  }

  lemma UniformLines(rule: seq<string>, texts: seq<string>, hasHeader: bool, n: nat)
    requires AllShow(rule, n) && AllShow(texts, n) && (hasHeader ==> texts != [])
    requires |texts| > FirstBody(hasHeader) || n == 0
    ensures AllShow(Lines(rule, texts, hasHeader), n)
  {
    EscapeFree("");
    var first := FirstBody(hasHeader);
    assert AllShow(BodyLines(texts, first), n);
    if hasHeader { AllShowAppend(rule, [texts[0]], n); }
    AllShowAppend(if hasHeader then rule + [texts[0]] else [], rule, n);
    AllShowAppend(Head(rule, texts, hasHeader), BodyLines(texts, first), n);
    AllShowAppend(Head(rule, texts, hasHeader) + BodyLines(texts, first), rule, n);
  }

  lemma Misaligned(lines: seq<string>, i: nat, m: nat, j: nat, n: nat)
    requires i < |lines| && j < |lines| && Shows(lines[i], m) && Shows(lines[j], n) && m != n
    ensures !Aligned(lines)
  {
  }

  lemma UnalignableDiffers(layout: Layout, texts: seq<string>, hasHeader: bool)
    requires AllShow(texts, PartLen(layout, |layout.widths|)) && (hasHeader ==> texts != [])
    requires !Alignable(layout, |texts|, hasHeader)
    ensures !Aligned(Lines(Rule(layout), texts, hasHeader))
  {
    var lines, n := Lines(Rule(layout), texts, hasHeader), PartLen(layout, |layout.widths|);
    var k := HeadCount(layout.separated, hasHeader);
    LinesArePage(Rule(layout), texts, hasHeader);
    EscapeFree("");
    RuleShows(layout);
    if layout.separated {
      RuleMatchesRow(layout);
      var rule := 1 + Total(layout.widths, |layout.widths|, 2 * layout.padding + 1);
      assert Shows(Rule(layout)[0], rule);
      Misaligned(lines, 0, rule, k, if |texts| == FirstBody(hasHeader) then 0 else n);
    } else {
      assert Shows(texts[0], n);
      Misaligned(lines, 0, n, k, 0);
    }
  }

  predicate AllOneLine(lines: seq<string>) {
    forall i :: 0 <= i < |lines| ==> OneLine(lines[i])
  }

  lemma OneLineEach(lines: seq<string>, n: nat)
    requires AllShow(lines, n)
    ensures AllOneLine(lines)
  {
    forall i | 0 <= i < |lines|
      ensures OneLine(lines[i])
    {
      assert Shows(lines[i], n);
    }
  }

  lemma LinesAreOneLine(rule: seq<string>, texts: seq<string>, hasHeader: bool)
    requires AllOneLine(rule) && AllOneLine(texts) && (hasHeader ==> texts != [])
    ensures AllOneLine(Lines(rule, texts, hasHeader))
  {
  }

  /** No cell has a line feed. */
  predicate CellsAreOneLine(rows: seq<seq<string>>) {
    forall i, j :: 0 <= i < |rows| && 0 <= j < |rows[i]| ==> OneLine(rows[i][j])
  }

  lemma {:induction false} RowIsOneLine(layout: Layout, row: seq<string>, n: nat)
    requires n <= |row| <= |layout.widths| && forall j :: 0 <= j < |row| ==> OneLine(row[j])
    ensures OneLine(RowText(layout, row, n))
  {
    if n > 0 { RowIsOneLine(layout, row, n - 1); }
  }

  lemma {:induction false} SeparatorIsOneLine(layout: Layout, n: nat)
    requires n <= |layout.widths|
    ensures OneLine(SeparatorText(layout, n))
  {
    if n > 0 { SeparatorIsOneLine(layout, n - 1); }
  }

  /** Without line feeds in the cells the lines of the text are those of the table. */
  lemma PageIsOneLine(layout: Layout, rows: seq<seq<string>>, hasHeader: bool)
    requires AllFit(layout, rows) && (hasHeader ==> rows != []) && CellsAreOneLine(rows)
    ensures var lines := Lines(Rule(layout), RowTexts(layout, rows), hasHeader);
      Split(Join(lines)) == lines
  {
    forall i | 0 <= i < |rows|
      ensures OneLine(RowTexts(layout, rows)[i])
    {
      RowIsOneLine(layout, rows[i], |rows[i]|);
    }
    SeparatorIsOneLine(layout, |layout.widths|);
    LinesAreOneLine(Rule(layout), RowTexts(layout, rows), hasHeader);
    SplitOfJoin(Lines(Rule(layout), RowTexts(layout, rows), hasHeader));
  }

  /** The text stands at place `k` of the line. */
  predicate StandsAt(line: string, k: nat, text: string) {
    k + |text| <= |line| && line[k..k + |text|] == text
  }

  /** The cells of a column stand below each other: on the screen, what a cell shows begins at a place
      that depends on the widths and the column alone. */
  lemma ColumnsStandBelow(layout: Layout, row: seq<string>, j: nat)
    requires PlainRow(layout, row) && j < |row|
    ensures StandsAt(Strip(RowText(layout, row, |row|)), PartLen(layout, j) + Before(layout), Strip(row[j]))
  {
    var parts := CellScreens(layout, row);
    PartScreen(layout, row, j);
    StripOfCell(layout, j, row[j]);
    ScreenIs(layout, row, |row|);
    ConcatShows(parts, j, Before(layout), Strip(row[j]));
  }

  lemma PartScreen(layout: Layout, row: seq<string>, j: nat)
    requires PlainRow(layout, row) && j <= |row|
    ensures |Concat(CellScreens(layout, row), j)| == PartLen(layout, j)
  {
    PartLength(layout, row, j);
    ScreenIs(layout, row, j);
  }

  function Concat(parts: seq<string>, n: nat): string
    requires n <= |parts|
  {
    if n == 0 then "" else Concat(parts, n - 1) + parts[n - 1]
  }

  lemma {:induction false} ConcatPrefix(parts: seq<string>, j: nat, n: nat)
    requires j <= n <= |parts|
    ensures Concat(parts, j) <= Concat(parts, n)
  {
    if j < n { ConcatPrefix(parts, j, n - 1); }
  }

  lemma ConcatShows(parts: seq<string>, j: nat, a: nat, shown: string)
    requires j < |parts| && StandsAt(parts[j], a, shown)
    ensures StandsAt(Concat(parts, |parts|), |Concat(parts, j)| + a, shown)
  {
    ConcatPrefix(parts, j + 1, |parts|);
    SliceOf(Concat(parts, j), parts[j], Concat(parts, |parts|), a, |shown|);
  }

  lemma SliceOf(a: string, b: string, all: string, k: nat, n: nat)
    requires a + b <= all && k + n <= |b|
    ensures |a| + k + n <= |all| && all[|a| + k..|a| + k + n] == b[k..k + n]
  {
    assert all[..|a + b|] == a + b;
  }

  lemma {:induction false} StripConcat(texts: seq<string>, strips: seq<string>, n: nat)
    requires |texts| == |strips| && n <= |texts|
    requires forall k :: 0 <= k < |texts| ==> Closed(texts[k]) && strips[k] == Strip(texts[k])
    ensures Closed(Concat(texts, n)) && Strip(Concat(texts, n)) == Concat(strips, n)
  {
    if n > 0 {
      StripConcat(texts, strips, n - 1);
      ClosedAppend(Concat(texts, n - 1), texts[n - 1]);
      StripAppend(Concat(texts, n - 1), texts[n - 1]);
    }
  }

  /** The texts of the cells of a row, each for itself. */
  function CellTexts(layout: Layout, row: seq<string>): (r: seq<string>)
    requires |row| <= |layout.widths|
    ensures |r| == |row| && forall j :: 0 <= j < |row| ==> r[j] == CellText(layout, j, row[j])
  {
    seq(|row|, j requires 0 <= j < |row| => CellText(layout, j, row[j]))
  }

  /** What the cells of a row show, each for itself. */
  function CellScreens(layout: Layout, row: seq<string>): (r: seq<string>)
    requires |row| <= |layout.widths|
    ensures |r| == |row| && forall j :: 0 <= j < |row| ==> r[j] == Strip(CellText(layout, j, row[j]))
  {
    seq(|row|, j requires 0 <= j < |row| => Strip(CellText(layout, j, row[j])))
  }

  predicate PlainRow(layout: Layout, row: seq<string>) {
    |row| <= |layout.widths| && RowFits(layout, row) && forall k :: 0 <= k < |row| ==> Plain(row[k])
  }

  lemma {:induction false} RowIsConcat(layout: Layout, row: seq<string>, n: nat)
    requires n <= |row| <= |layout.widths|
    ensures RowText(layout, row, n) == Concat(CellTexts(layout, row), n)
  {
    if n > 0 {
      RowIsConcat(layout, row, n - 1);
      var texts := CellTexts(layout, row);
      assert texts[n - 1] == CellText(layout, n - 1, row[n - 1]);
    }
  }

  lemma ScreenIs(layout: Layout, row: seq<string>, n: nat)
    requires PlainRow(layout, row) && n <= |row|
    ensures Strip(RowText(layout, row, n)) == Concat(CellScreens(layout, row), n)
  {
    RowIsConcat(layout, row, n);
    CellTextsClosed(layout, row);
    StripConcat(CellTexts(layout, row), CellScreens(layout, row), n);
  }

  lemma CellTextsClosed(layout: Layout, row: seq<string>)
    requires PlainRow(layout, row)
    ensures forall j :: 0 <= j < |row| ==> Closed(CellTexts(layout, row)[j])
  {
    forall j | 0 <= j < |row|
      ensures Closed(CellTexts(layout, row)[j])
    {
      CellLength(layout, j, row[j]);
    }
  }

  lemma StripOfCell(layout: Layout, col: nat, cell: string)
    requires col < |layout.widths| && Closed(cell)
    ensures StandsAt(Strip(CellText(layout, col, cell)), Before(layout), Strip(cell))
  {
    var open := Opening(layout);
    var rest := Repeat(' ', Missing(layout.widths[col], VisibleLen(cell)));
    var gap, close := Repeat(' ', layout.padding), Closing(layout, col);
    EscapeFree(open);
    StripPlain(open);
    ClosedAppend(open, cell);
    StripAppend(open, cell);
    Assoc(open + cell, rest, gap);
    Assoc(open + cell, rest + gap, close);
    StripAppend(open + cell, rest + gap + close);
  }

  /** The text of a rectangular table of plain cells consists of the lines given, and they take the
      same number of places exactly if there is a body row and, when separators are drawn, a column
      (or no separators and nothing but one kind of line). */
  lemma TableAligns(layout: Layout, rows: seq<seq<string>>, hasHeader: bool)
    requires Rectangular(layout, rows) && AllWide(layout, rows) && (hasHeader ==> rows != [])
    ensures var lines := Lines(Rule(layout), RowTexts(layout, rows), hasHeader);
      Split(Join(lines)) == lines && (Aligned(lines) <==> Alignable(layout, |rows|, hasHeader))
  {
    var texts, n := RowTexts(layout, rows), PartLen(layout, |layout.widths|);
    var length := if rows == [] then 0 else n;
    RowsShow(layout, rows);
    RuleShows(layout);
    OneLineEach(texts, n);
    OneLineEach(Rule(layout), 1 + Total(layout.widths, |layout.widths|, 2 * layout.padding + 1));
    LinesAreOneLine(Rule(layout), texts, hasHeader);
    SplitOfJoin(Lines(Rule(layout), texts, hasHeader));
    if Alignable(layout, |rows|, hasHeader) {
      if layout.separated { RuleMatchesRow(layout); }
      UniformLines(Rule(layout), texts, hasHeader, length);
      ShownIsAligned(Lines(Rule(layout), texts, hasHeader), length);
    } else {
      UnalignableDiffers(layout, texts, hasHeader);
    }
  }

  lemma ShownIsAligned(lines: seq<string>, n: nat)
    requires AllShow(lines, n)
    ensures Aligned(lines)
  {
    assert forall i :: 0 <= i < |lines| ==> Shows(lines[i], n);
  }

  /** A table of one row without cells, drawn with separators, is not aligned. */
  lemma NoColumnsMisalign(padding: nat)
    ensures var layout := Layout([], padding, true);
      RowTexts(layout, [[]]) == [""] && !Aligned(Lines(Rule(layout), [""], false))
  {
    var layout := Layout([], padding, true);
    assert RowTexts(layout, [[]]) == [""];
    TableAligns(layout, [[]], false);
  }
}
