/** `generate_table`: the table printed as LaTeX rows or as comma-separated
    rows. What would be printed is built as a string. */
module AnalysisRender {
  import opened Strings
  import opened AnalysisTable

  /** The text of a cell. `fmt` is `format(x, '.2f')` and `gmean` is scipy's
      geometric mean; both are left abstract. */
  function CellText(cell: Cell, fmt: real -> string, gmean: seq<real> -> real): string {
    match cell
    case Label(s) => s
    case Num(x) => fmt(x)
    case NumPct(x, p) => fmt(x) + " " + p
    case GeoPct(fs, p) => fmt((gmean(fs) - 1.0) * 100.0) + " " + p
  }

  /** Labels are printed verbatim; percentages end in a space and the sign. */
  lemma CellTextFacts(cell: Cell, fmt: real -> string, gmean: seq<real> -> real)
    ensures cell.Label? ==> CellText(cell, fmt, gmean) == cell.s
    ensures cell.NumPct? ==> CellText(cell, fmt, gmean) == fmt(cell.x) + " " + cell.perc
    ensures cell.GeoPct? || cell.NumPct? ==>
      var t := CellText(cell, fmt, gmean);
      |t| >= |cell.perc| + 1 && t[|t| - |cell.perc| - 1..] == " " + cell.perc
  {
    var t := CellText(cell, fmt, gmean);
    if cell.GeoPct? || cell.NumPct? {
      assert t[|t| - |cell.perc| - 1..] == " " + cell.perc;
    }
  }

  function RowTexts(row: seq<Cell>, fmt: real -> string, gmean: seq<real> -> real): (r: seq<string>)
    ensures |r| == |row|
    ensures forall j :: 0 <= j < |row| ==> r[j] == CellText(row[j], fmt, gmean)
    decreases |row|
  {
    if |row| == 0 then [] else RowTexts(row[..|row| - 1], fmt, gmean) + [CellText(row[|row| - 1], fmt, gmean)]
  }

  /** What is printed after a cell that is not the last, and after the last:
      `" & "` and `" \\ "` in LaTeX, `","` and nothing otherwise. */
  function MidMark(tex: bool): string {
    if tex then " & " else ","
  }

  function EndMark(tex: bool): string {
    if tex then " \\\\ " else ""
  }

  /** Each printed cell is followed by a space, its mark and another space, so
      a row line is its cells joined by the spaced middle mark, with the
      spaced end mark after the last; an empty row prints nothing. */
  function RowLine(cols: seq<string>, tex: bool): string {
    if |cols| == 0 then ""
    else Join(cols, " " + MidMark(tex) + " ") + " " + EndMark(tex) + " "
  }

  /** The lines printed before a row: `\toprule` before the first and
      `\midrule` before the second, in LaTeX only. */
  function Rule(i: nat, tex: bool): seq<string> {
    if !tex then []
    else if i == 0 then ["\\toprule"]
    else if i == 1 then ["\\midrule"]
    else []
  }

  function Lines(rows: seq<seq<string>>, tex: bool): seq<string>
    decreases |rows|
  {
    if |rows| == 0 then []
    else Lines(rows[..|rows| - 1], tex) + Rule(|rows| - 1, tex) + [RowLine(rows[|rows| - 1], tex)]
  }

  /** Every printed line ends with a newline. */
  function Unlines(ls: seq<string>): string
    decreases |ls|
  {
    if |ls| == 0 then "" else Unlines(ls[..|ls| - 1]) + ls[|ls| - 1] + "\n"
  }

  function TableTexts(t: seq<seq<Cell>>, fmt: real -> string, gmean: seq<real> -> real): (r: seq<seq<string>>)
    ensures |r| == |t|
    ensures forall i :: 0 <= i < |t| ==> r[i] == RowTexts(t[i], fmt, gmean)
    decreases |t|
  {
    if |t| == 0 then [] else TableTexts(t[..|t| - 1], fmt, gmean) + [RowTexts(t[|t| - 1], fmt, gmean)]
  }

  /** Everything `generate_table` prints. */
  function Render(t: seq<seq<Cell>>, tex: bool, fmt: real -> string, gmean: seq<real> -> real): string {
    Unlines(Lines(TableTexts(t, fmt, gmean), tex))
  }

  // ---------------------------------------------------------------- loops

  /** The cells printed so far, each followed by the spaced middle mark. */
  function Ending(xs: seq<string>, sep: string): string
    decreases |xs|
  {
    if |xs| == 0 then "" else xs[0] + sep + Ending(xs[1..], sep)
  }

  lemma {:induction false} EndingSnoc(xs: seq<string>, x: string, sep: string)
    ensures Ending(xs + [x], sep) == Ending(xs, sep) + x + sep
    decreases |xs|
  {
    if |xs| > 0 {
      assert (xs + [x])[1..] == xs[1..] + [x];
      EndingSnoc(xs[1..], x, sep);
    }
  }

  lemma {:induction false} EndingJoin(xs: seq<string>, x: string, sep: string)
    ensures Ending(xs, sep) + x == Join(xs + [x], sep)
    decreases |xs|
  {
    if |xs| > 0 {
      assert (xs + [x])[1..] == xs[1..] + [x];
      EndingJoin(xs[1..], x, sep);
    }
  }

  /** The inner loop: one cell at a time, the column counter `j` deciding
      which mark follows. */
  method RenderRow(row: seq<Cell>, tex: bool, fmt: real -> string, gmean: seq<real> -> real) returns (line: string)
    ensures line == RowLine(RowTexts(row, fmt, gmean), tex)
  {
    ghost var cols := RowTexts(row, fmt, gmean);
    ghost var sep := " " + MidMark(tex) + " ";
    line := "";
    var j := 0;
    while j < |row|
      invariant 0 <= j <= |row|
      invariant j < |row| ==> line == Ending(cols[..j], sep)
      invariant j == |row| ==> line == RowLine(cols, tex)
    {
      var col := CellText(row[j], fmt, gmean);
      assert col == cols[j];
      line := line + col + " ";
      if j == |row| - 1 {
        line := line + EndMark(tex) + " ";
        EndingJoin(cols[..j], col, sep);
        assert cols[..j] + [col] == cols;
      } else {
        line := line + MidMark(tex) + " ";
        EndingSnoc(cols[..j], col, sep);
        assert cols[..j + 1] == cols[..j] + [col];
      }
      j := j + 1;
    }
  }

  /** The outer loop, with the row counter `i` deciding the rules. */
  method GenerateTable(t: seq<seq<Cell>>, tex: bool, fmt: real -> string, gmean: seq<real> -> real) returns (out: string)
    ensures out == Render(t, tex, fmt, gmean)
  {
    ghost var rows := TableTexts(t, fmt, gmean);
    out := "";
    for i := 0 to |t|
      invariant out == Unlines(Lines(rows[..i], tex))
    {
      var piece := RenderLine(i, t[i], tex, fmt, gmean);
      PrintStep(rows, i, tex, out, piece);
      out := out + piece;
    }
    assert rows[..|t|] == rows;
  }

  /** What one pass of the outer loop prints: the rule, if any, then the row
      and its newline. */
  method RenderLine(i: nat, row: seq<Cell>, tex: bool, fmt: real -> string, gmean: seq<real> -> real) returns (piece: string)
    ensures piece == Unlines(Rule(i, tex) + [RowLine(RowTexts(row, fmt, gmean), tex)])
  {
    piece := "";
    if tex && i == 0 {
      piece := "\\toprule" + "\n";
    } else if tex && i == 1 {
      piece := "\\midrule" + "\n";
    }
    var line := RenderRow(row, tex, fmt, gmean);
    piece := piece + line + "\n";
    RuleText(i, tex, line);
  }

  /** One pass of the outer loop extends the printed text by the rule and the
      row's line. */
  lemma PrintStep(rows: seq<seq<string>>, i: nat, tex: bool, out: string, piece: string)
    requires i < |rows| && out == Unlines(Lines(rows[..i], tex))
    requires piece == Unlines(Rule(i, tex) + [RowLine(rows[i], tex)])
    ensures out + piece == Unlines(Lines(rows[..i + 1], tex))
  {
    LinesStep(rows, i, tex);
    UnlinesAppend(Lines(rows[..i], tex), Rule(i, tex) + [RowLine(rows[i], tex)]);
    assert Lines(rows[..i], tex) + Rule(i, tex) + [RowLine(rows[i], tex)]
        == Lines(rows[..i], tex) + (Rule(i, tex) + [RowLine(rows[i], tex)]);
  }

  lemma LinesStep(rows: seq<seq<string>>, i: nat, tex: bool)
    requires i < |rows|
    ensures Lines(rows[..i + 1], tex) == Lines(rows[..i], tex) + Rule(i, tex) + [RowLine(rows[i], tex)]
  {
    assert rows[..i + 1][..i] == rows[..i];
  }

  lemma RuleText(i: nat, tex: bool, line: string)
    ensures Unlines(Rule(i, tex) + [line])
         == (if tex && i == 0 then "\\toprule" + "\n" else if tex && i == 1 then "\\midrule" + "\n" else "") + line + "\n"
  {
    var r := Rule(i, tex);
    Unlines1(line);
    if |r| == 1 {
      assert r + [line] == [r[0], line];
      Unlines2(r[0], line);
    } else {
      assert r + [line] == [line];
    }
  }

  lemma Unlines1(b: string)
    ensures Unlines([b]) == b + "\n"
  {
    assert [b][..0] == [];
  }

  lemma Unlines2(a: string, b: string)
    ensures Unlines([a, b]) == a + "\n" + b + "\n"
  {
    assert [a, b][..1] == [a];
    Unlines1(a);
  }

  lemma {:induction false} UnlinesAppend(a: seq<string>, b: seq<string>)
    ensures Unlines(a + b) == Unlines(a) + Unlines(b)
    decreases |b|
  {
    if |b| == 0 {
      assert a + b == a;
    } else {
      assert (a + b)[..|a + b| - 1] == a + b[..|b| - 1];
      UnlinesAppend(a, b[..|b| - 1]);
    }
  }

  // ---------------------------------------------------------------- properties

  /** The layout of the lines: in LaTeX `\toprule`, the first row, `\midrule`,
      then the other rows; otherwise one line per row. */
  lemma {:induction false} LinesShape(rows: seq<seq<string>>, tex: bool)
    ensures var ls := Lines(rows, tex);
      && |ls| == |rows| + (if !tex then 0 else if |rows| < 2 then |rows| else 2)
      && (tex && |rows| >= 1 ==> ls[0] == "\\toprule" && ls[1] == RowLine(rows[0], tex))
      && (tex && |rows| >= 2 ==> ls[2] == "\\midrule")
      && (forall k :: 0 <= k < |rows| ==>
            ls[k + (if !tex then 0 else if k == 0 then 1 else 2)] == RowLine(rows[k], tex))
    decreases |rows|
  {
    if |rows| > 0 {
      var init := rows[..|rows| - 1];
      LinesShape(init, tex);
      forall k | 0 <= k < |init| ensures init[k] == rows[k] { }
    }
  }

  /** A comma-separated row of cells without commas has one comma between
      each two cells and no other. */
  lemma CsvCommas(cols: seq<string>)
    requires |cols| >= 1
    requires forall k :: 0 <= k < |cols| ==> ',' !in cols[k]
    ensures Count(RowLine(cols, false), ',') == |cols| - 1
  {
    var sep := " " + MidMark(false) + " ";
    assert sep == " , ";
    CountAppend(" ", ",", ',');
    CountAppend(" ,", " ", ',');
    assert " ," + " " == sep;
    assert Count(",", ',') == 1 by { assert ","[..0] == ""; }
    assert Count(" ", ',') == 0 by { assert " "[..0] == ""; }
    JoinCount(cols, sep, ',');
    var j := Join(cols, sep);
    assert RowLine(cols, false) == j + "  ";
    CountAbsent("  ", ',');
    CountAppend(j, "  ", ',');
  }

  /** A LaTeX row of cells without `&` has one `&` between each two cells
      and ends with the row terminator. */
  lemma TexAmpersands(cols: seq<string>)
    requires |cols| >= 1
    requires forall k :: 0 <= k < |cols| ==> '&' !in cols[k]
    ensures Count(RowLine(cols, true), '&') == |cols| - 1
    ensures var l := RowLine(cols, true); |l| >= 6 && l[|l| - 6..] == "  \\\\  "
  {
    var sep := " " + MidMark(true) + " ";
    assert sep == "  &  ";
    CountAbsent("  ", '&');
    CountAppend("  ", "&", '&');
    CountAppend("  &", "  ", '&');
    assert "  &" + "  " == sep;
    assert "  " + "&" == "  &";
    assert Count("&", '&') == 1 by { assert "&"[..0] == ""; }
    JoinCount(cols, sep, '&');
    var j := Join(cols, sep);
    var tail := " " + EndMark(true) + " ";
    assert tail == "  \\\\  ";
    assert RowLine(cols, true) == j + tail;
    CountAbsent(tail, '&');
    CountAppend(j, tail, '&');
  }

  /** The number of occurrences of a character. */
  function Count(s: string, c: char): nat
    decreases |s|
  {
    if |s| == 0 then 0 else Count(s[..|s| - 1], c) + (if s[|s| - 1] == c then 1 else 0)
  }

  lemma {:induction false} CountAppend(a: string, b: string, c: char)
    ensures Count(a + b, c) == Count(a, c) + Count(b, c)
    decreases |b|
  {
    if |b| == 0 {
      assert a + b == a;
    } else {
      assert (a + b)[..|a + b| - 1] == a + b[..|b| - 1];
      assert (a + b)[|a + b| - 1] == b[|b| - 1];
      CountAppend(a, b[..|b| - 1], c);
    }
  }

  lemma {:induction false} CountAbsent(s: string, c: char)
    requires c !in s
    ensures Count(s, c) == 0
    decreases |s|
  {
    if |s| > 0 {
      CountAbsent(s[..|s| - 1], c);
    }
  }

  lemma {:induction false} JoinCount(parts: seq<string>, sep: string, c: char)
    requires |parts| >= 1
    requires forall k :: 0 <= k < |parts| ==> c !in parts[k]
    ensures Count(Join(parts, sep), c) == (|parts| - 1) * Count(sep, c)
    decreases |parts|
  {
    CountAbsent(parts[0], c);
    if |parts| > 1 {
      JoinCount(parts[1..], sep, c);
      CountAppend(parts[0], sep, c);
      CountAppend(parts[0] + sep, Join(parts[1..], sep), c);
    }
  }

  /** The printed text is its lines each ended by a newline, so splitting it
      at newlines gives back the lines and a final empty piece. */
  lemma {:induction false} UnlinesJoin(ls: seq<string>)
    ensures Unlines(ls) == Join(ls + [""], "\n")
    decreases |ls|
  {
    if |ls| > 0 {
      var init := ls[..|ls| - 1];
      UnlinesJoin(init);
      JoinSnoc(init, ls[|ls| - 1], "\n");
      assert init + [ls[|ls| - 1]] == ls;
      assert init + [ls[|ls| - 1], ""] == ls + [""];
    }
  }

  lemma {:induction false} JoinSnoc(xs: seq<string>, x: string, sep: string)
    ensures Join(xs + [x, ""], sep) == Join(xs + [""], sep) + x + sep
    decreases |xs|
  {
    if |xs| > 0 {
      assert (xs + [x, ""])[1..] == xs[1..] + [x, ""];
      assert (xs + [""])[1..] == xs[1..] + [""];
      JoinSnoc(xs[1..], x, sep);
    }
  }

  lemma RenderLines(ls: seq<string>)
    requires forall k :: 0 <= k < |ls| ==> '\n' !in ls[k]
    ensures Split(Unlines(ls), '\n') == ls + [""]
  {
    UnlinesJoin(ls);
    SplitJoin(ls + [""], '\n');
  }
}
