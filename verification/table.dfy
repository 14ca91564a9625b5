/**
 * `print_markdown_table` (src/main.rs:127-170): the comparison table written
 * to standard output after every run has succeeded.
 *
 * One header line with a cell per bench, a separator line, one line per
 * commit in configured order and a final blank line. A commit's line holds,
 * for each bench, the fps at that commit; every commit after the first also
 * shows a trend glyph and the signed percentage change against the first
 * commit (the baseline).
 */
module Table {
  import opened Wrappers
  import opened Configuration

  /** The `(Bench, Commit) -> f32` map the driver fills, with reals for f32. */
  type Results = map<(Bench, Commit), real>

  /** Standard output: the text the table has written to it so far. */
  class Stdout {
    var text: string

    constructor ()
      ensures text == ""
    {
      text := "";
    }

    /** `print!` */
    method Print(s: string)
      modifies this
      ensures text == old(text) + s
    {
      text := text + s;
    }

    /** `println!()` */
    method PrintLine()
      modifies this
      ensures text == old(text) + "\n"
    {
      text := text + "\n";
    }
  }

  /** The numeric text of `{:.2}` and `{:.1}` on an f32, left abstract. */
  datatype Formatter = Formatter(fixed2: real -> string, fixed1: real -> string)

  const Neutral: string := "\U{1F7E1}"  // yellow circle
  const Down: string := "\U{1F534}"     // red circle
  const Up: string := "\U{1F7E2}"       // green circle

  function Abs(x: real): real {
    if x < 0.0 then -x else x
  }

  /** Relative change of `fps` against the baseline `first`. */
  function Fraction(fps: real, first: real): real
    requires first != 0.0
  {
    (fps - first) / first
  }

  function TrendGlyph(frac: real): string {
    if Abs(frac) < 0.01 then Neutral else if frac < 0.0 then Down else Up
  }

  function TrendSign(frac: real): string {
    if frac > 0.0 then "+" else ""
  }

  /** The text of one cell for the commit at index `i`, without the closing '|'. */
  function Cell(i: nat, fps: real, first: real, fmt: Formatter): (r: string)
    requires i == 0 || first != 0.0
    ensures |fmt.fixed2(fps)| <= |r|
    ensures i == 0 <==> |r| == |fmt.fixed2(fps)|
  {
    fmt.fixed2(fps) + if i == 0 then "" else Trend(Fraction(fps, first), fmt)
  }

  /** The suffix of a later commit's cell: glyph, sign and the change in percent. */
  function Trend(frac: real, fmt: Formatter): string {
    " " + TrendGlyph(frac) + TrendSign(frac) + " " + fmt.fixed1(frac * 100.0) + "%"
  }

  /**
   * Every cell starts with the fps to two decimals; the baseline row's cells
   * hold only that, and every later row's cells add a trend ending in '%'.
   */
  lemma CellShape(i: nat, fps: real, first: real, fmt: Formatter)
    requires i == 0 || first != 0.0
    ensures var r := Cell(i, fps, first, fmt);
            && |fmt.fixed2(fps)| <= |r| && r[..|fmt.fixed2(fps)|] == fmt.fixed2(fps)
            && (i == 0 <==> r == fmt.fixed2(fps))
            && (i > 0 ==> r[|r| - 1] == '%')
  {
    var value := fmt.fixed2(fps);
    if i > 0 {
      var trend := Trend(Fraction(fps, first), fmt);
      assert |trend| >= 3 && trend[|trend| - 1] == '%';
      assert (value + trend)[..|value|] == value;
    } else {
      assert value + "" == value;
    }
  }

  /** Every (bench, commit) pair of the configuration has a result. */
  predicate Covers(results: Results, config: Config) {
    forall i, j :: 0 <= i < |config.commits| && 0 <= j < |config.benches| ==>
      (config.benches[j], config.commits[i]) in results
  }

  /**
   * What the table needs of the results: no lookup misses (the source
   * unwraps every lookup), and the baseline of every bench is non-zero when
   * a later commit divides by it.
   */
  predicate Printable(results: Results, config: Config) {
    && Covers(results, config)
    && (|config.commits| > 1 ==>
          forall j :: 0 <= j < |config.benches| ==> results[(config.benches[j], config.commits[0])] != 0.0)
  }

  function HeaderCells(benches: seq<Bench>, n: nat): string
    requires n <= |benches|
  {
    if n == 0 then "" else HeaderCells(benches, n - 1) + benches[n - 1].display + "|"
  }

  function Header(benches: seq<Bench>): string {
    "||" + HeaderCells(benches, |benches|)
  }

  function SeparatorCells(n: nat): string {
    if n == 0 then "" else SeparatorCells(n - 1) + "-|"
  }

  function Separator(n: nat): string {
    "|-|" + SeparatorCells(n)
  }

  /** The cell of bench `j` in the line of commit `i`. */
  function CellAt(results: Results, config: Config, fmt: Formatter, i: nat, j: nat): string
    requires Printable(results, config)
    requires i < |config.commits| && j < |config.benches|
  {
    Cell(i, results[(config.benches[j], config.commits[i])],
         results[(config.benches[j], config.commits[0])], fmt)
  }

  /** The first `n` cells of the line of commit `i`, each closed by '|'. */
  function RowCells(results: Results, config: Config, fmt: Formatter, i: nat, n: nat): string
    requires Printable(results, config)
    requires i < |config.commits| && n <= |config.benches|
  {
    if n == 0 then "" else RowCells(results, config, fmt, i, n - 1) + (CellAt(results, config, fmt, i, n - 1) + "|")
  }

  function Row(results: Results, config: Config, fmt: Formatter, i: nat): string
    requires Printable(results, config)
    requires i < |config.commits|
  {
    "|" + DisplayLabel(config.commits[i]) + "|" + RowCells(results, config, fmt, i, |config.benches|)
  }

  /** The lines of the first `n` commits, in configured order. */
  function RowLines(results: Results, config: Config, fmt: Formatter, n: nat): (rows: seq<string>)
    requires Printable(results, config)
    requires n <= |config.commits|
    ensures |rows| == n
  {
    if n == 0 then [] else RowLines(results, config, fmt, n - 1) + [Row(results, config, fmt, n - 1)]
  }

  lemma {:induction false} RowLinesAt(results: Results, config: Config, fmt: Formatter, n: nat, i: nat)
    requires Printable(results, config)
    requires i < n <= |config.commits|
    ensures RowLines(results, config, fmt, n)[i] == Row(results, config, fmt, i)
  {
    var prev := RowLines(results, config, fmt, n - 1);
    var last := Row(results, config, fmt, n - 1);
    assert RowLines(results, config, fmt, n) == prev + [last];
    SnocAt(prev, last, i);
    if i < n - 1 {
      RowLinesAt(results, config, fmt, n - 1, i);
    }
  }

  lemma SnocAt(prev: seq<string>, last: string, i: nat)
    requires i <= |prev|
    ensures (prev + [last])[i] == if i < |prev| then prev[i] else last
  {
  }

  /** The lines of the table. */
  function TableLines(results: Results, config: Config, fmt: Formatter): seq<string>
    requires Printable(results, config)
  {
    [Header(config.benches), Separator(|config.benches|)] + RowLines(results, config, fmt, |config.commits|) + [""]
  }

  /**
   * The table is a header, a separator, one line per commit in configured
   * order, and a blank line.
   */
  lemma TableLayout(results: Results, config: Config, fmt: Formatter)
    requires Printable(results, config)
    ensures var lines := TableLines(results, config, fmt);
      && |lines| == |config.commits| + 3
      && lines[0] == Header(config.benches)
      && lines[1] == Separator(|config.benches|)
      && (forall i :: 0 <= i < |config.commits| ==> lines[i + 2] == Row(results, config, fmt, i))
      && lines[|lines| - 1] == ""
  {
    forall i | 0 <= i < |config.commits|
      ensures TableLines(results, config, fmt)[i + 2] == Row(results, config, fmt, i)
    {
      RowLinesAt(results, config, fmt, |config.commits|, i);
    }
  }

  /** Lines written one after another, each ended by '\n'. */
  function Render(lines: seq<string>): string {
    if lines == [] then "" else Render(lines[..|lines| - 1]) + (lines[|lines| - 1] + "\n")
  }

  lemma RenderSnoc(lines: seq<string>, line: string)
    ensures Render(lines + [line]) == Render(lines) + (line + "\n")
  {
    assert (lines + [line])[..|lines|] == lines;
  }

  lemma AppendAssoc(a: string, b: string, c: string)
    ensures a + (b + c) == a + b + c
  {
  }

  lemma {:induction false} RenderAppend(a: seq<string>, b: seq<string>)
    ensures Render(a + b) == Render(a) + Render(b)
    decreases |b|
  {
    if b == [] {
      assert a + b == a;
    } else {
      var init := b[..|b| - 1];
      var last := b[|b| - 1];
      assert a + b == (a + init) + [last];
      assert b == init + [last];
      RenderSnoc(a + init, last);
      RenderSnoc(init, last);
      RenderAppend(a, init);
    }
  }

  /** `print_markdown_table`: writes the table to `out`. */
  method PrintMarkdownTable(out: Stdout, results: Results, config: Config, fmt: Formatter)
    requires Printable(results, config)
    modifies out
    ensures out.text == old(out.text) + Render(TableLines(results, config, fmt))
  {
    ghost var before := out.text;
    PrintHeader(out, config.benches);
    PrintSeparator(out, |config.benches|);
    PrintRows(out, results, config, fmt);
    out.PrintLine();
    RenderTable(before, Header(config.benches), Separator(|config.benches|), RowLines(results, config, fmt, |config.commits|));
  }

  /** Printing the lines one after the other renders the whole table. */
  lemma RenderTable(before: string, head: string, sep: string, rows: seq<string>)
    ensures before + (head + "\n") + (sep + "\n") + Render(rows) + "\n" == before + Render([head, sep] + rows + [""])
  {
    RenderSnoc([], head);
    RenderSnoc([head], sep);
    assert [] + [head] == [head] && [head] + [sep] == [head, sep];
    RenderAppend([head, sep], rows);
    RenderSnoc([head, sep] + rows, "");
    calc {
      before + Render([head, sep] + rows + [""]);
      before + (Render([head, sep]) + Render(rows) + "\n");
      { AppendAssoc(before, Render([head, sep]) + Render(rows), "\n"); }
      before + (Render([head, sep]) + Render(rows)) + "\n";
      { AppendAssoc(before, Render([head, sep]), Render(rows)); }
      before + Render([head, sep]) + Render(rows) + "\n";
      { AppendAssoc(before, head + "\n", sep + "\n"); }
      before + (head + "\n") + (sep + "\n") + Render(rows) + "\n";
    }
  }

  /** The loop over commits: one line per commit, in configured order. */
  method PrintRows(out: Stdout, results: Results, config: Config, fmt: Formatter)
    requires Printable(results, config)
    modifies out
    ensures out.text == old(out.text) + Render(RowLines(results, config, fmt, |config.commits|))
  {
    ghost var before := out.text;
    for i := 0 to |config.commits|
      invariant out.text == before + Render(RowLines(results, config, fmt, i))
    {
      ghost var done := RowLines(results, config, fmt, i);
      ghost var row := Row(results, config, fmt, i);
      PrintRow(out, results, config, fmt, i);
      RenderSnoc(done, row);
      AppendAssoc(before, Render(done), row + "\n");
      assert RowLines(results, config, fmt, i + 1) == done + [row];
    }
  }

  method PrintHeader(out: Stdout, benches: seq<Bench>)
    modifies out
    ensures out.text == old(out.text) + (Header(benches) + "\n")
  {
    out.Print("||");
    for j := 0 to |benches|
      invariant out.text == old(out.text) + "||" + HeaderCells(benches, j)
    {
      out.Print(benches[j].display + "|");
    }
    out.PrintLine();
  }

  method PrintSeparator(out: Stdout, n: nat)
    modifies out
    ensures out.text == old(out.text) + (Separator(n) + "\n")
  {
    out.Print("|-|");
    for j := 0 to n
      invariant out.text == old(out.text) + "|-|" + SeparatorCells(j)
    {
      out.Print("-|");
    }
    out.PrintLine();
  }

  /** One iteration of the loop over commits: the line of commit `i`. */
  method PrintRow(out: Stdout, results: Results, config: Config, fmt: Formatter, i: nat)
    requires Printable(results, config)
    requires i < |config.commits|
    modifies out
    ensures out.text == old(out.text) + (Row(results, config, fmt, i) + "\n")
  {
    var commit := config.commits[i];
    ghost var lead := "|" + DisplayLabel(commit) + "|";
    ghost var cells := RowCells(results, config, fmt, i, |config.benches|);
    out.Print("|" + DisplayLabel(commit) + "|");
    PrintCells(out, results, config, fmt, i);
    out.PrintLine();
    AppendAssoc(old(out.text), lead, cells);
    AppendAssoc(old(out.text), lead + cells, "\n");
  }

  /** The loop over benches in the line of commit `i`. */
  method PrintCells(out: Stdout, results: Results, config: Config, fmt: Formatter, i: nat)
    requires Printable(results, config)
    requires i < |config.commits|
    modifies out
    ensures out.text == old(out.text) + RowCells(results, config, fmt, i, |config.benches|)
  {
    for j := 0 to |config.benches|
      invariant out.text == old(out.text) + RowCells(results, config, fmt, i, j)
    {
      ghost var done := RowCells(results, config, fmt, i, j);
      PrintCell(out, results, config, fmt, i, j);
      AppendAssoc(old(out.text), done, CellAt(results, config, fmt, i, j) + "|");
    }
  }

  /** One iteration of the loop over benches: a cell and its closing '|'. */
  method PrintCell(out: Stdout, results: Results, config: Config, fmt: Formatter, i: nat, j: nat)
    requires Printable(results, config)
    requires i < |config.commits| && j < |config.benches|
    modifies out
    ensures out.text == old(out.text) + (CellAt(results, config, fmt, i, j) + "|")
  {
    var bench := config.benches[j];
    var fps := results[(bench, config.commits[i])];
    var first := results[(bench, config.commits[0])];
    out.Print(fmt.fixed2(fps));
    if i > 0 {
      var frac := (fps - first) / first;
      var sign := if frac > 0.0 then "+" else "";
      var sym := if Abs(frac) < 0.01 then Neutral else if frac < 0.0 then Down else Up;
      out.Print(" " + sym + sign + " " + fmt.fixed1(frac * 100.0) + "%");
      assert frac == Fraction(fps, first);
      AppendAssoc(old(out.text), fmt.fixed2(fps), Trend(frac, fmt));
    } else {
      assert fmt.fixed2(fps) + "" == fmt.fixed2(fps);
    }
    out.Print("|");
    AppendAssoc(old(out.text), CellAt(results, config, fmt, i, j), "|");
  }

  // ---------------------------------------------------------------------
  // Trend classification

  /**
   * The neutral band is open: a change of exactly one percent either way
   * is a trend. Only a strictly positive change carries a '+'.
   */
  lemma TrendGlyphBands(frac: real)
    ensures TrendGlyph(frac) == Neutral <==> -0.01 < frac < 0.01
    ensures TrendGlyph(frac) == Down <==> frac <= -0.01
    ensures TrendGlyph(frac) == Up <==> 0.01 <= frac
    ensures TrendSign(frac) == "+" <==> 0.0 < frac
  {
    assert Neutral[0] != Down[0] && Neutral[0] != Up[0] && Down[0] != Up[0];
  }

  /** Against a positive baseline, the glyph and sign compare fps with the baseline directly. */
  lemma TrendAgainstBaseline(fps: real, first: real)
    requires 0.0 < first
    ensures TrendGlyph(Fraction(fps, first)) == Down <==> fps <= 0.99 * first
    ensures TrendGlyph(Fraction(fps, first)) == Up <==> 1.01 * first <= fps
    ensures TrendGlyph(Fraction(fps, first)) == Neutral <==> 0.99 * first < fps < 1.01 * first
    ensures TrendSign(Fraction(fps, first)) == "+" <==> first < fps
  {
    var frac := Fraction(fps, first);
    assert frac * first == fps - first;
    TrendGlyphBands(frac);
    ScaledBound(frac, first, fps, -0.01);
    ScaledBound(frac, first, fps, 0.0);
    ScaledBound(frac, first, fps, 0.01);
  }

  /** For frac = (fps - first) / first with first > 0: frac <= t iff fps <= (1 + t) * first. */
  lemma ScaledBound(frac: real, first: real, fps: real, t: real)
    requires 0.0 < first && frac * first == fps - first
    ensures frac <= t <==> fps <= (1.0 + t) * first
    ensures t <= frac <==> (1.0 + t) * first <= fps
    ensures frac < t <==> fps < (1.0 + t) * first
    ensures t < frac <==> (1.0 + t) * first < fps
  {
    ScaleByPositive(frac, t, first);
    ScaleByPositive(t, frac, first);
    assert (1.0 + t) * first == first + t * first;
  }

  lemma ScaleByPositive(x: real, y: real, c: real)
    requires 0.0 < c
    ensures x <= y <==> x * c <= y * c
  {
    assert (y - x) * c == y * c - x * c;
    if x <= y {
      assert 0.0 <= (y - x) * c;
    } else {
      assert 0.0 < (x - y) * c;
    }
  }

  // ---------------------------------------------------------------------
  // Every line has the same number of columns

  /** The number of '|' characters in `s`. */
  function Pipes(s: string): nat {
    if s == [] then 0 else Pipes(s[..|s| - 1]) + (if s[|s| - 1] == '|' then 1 else 0)
  }

  lemma {:induction false} PipesAppend(a: string, b: string)
    ensures Pipes(a + b) == Pipes(a) + Pipes(b)
    decreases |b|
  {
    if b == [] {
      assert a + b == a;
    } else {
      assert (a + b)[..|a + b| - 1] == a + b[..|b| - 1];
      PipesAppend(a, b[..|b| - 1]);
    }
  }

  lemma {:induction false} PipesNone(s: string)
    requires '|' !in s
    ensures Pipes(s) == 0
  {
    if s != [] {
      assert s[|s| - 1] in s;
      assert forall c :: c in s[..|s| - 1] ==> c in s;
      PipesNone(s[..|s| - 1]);
    }
  }

  /** No label of the configuration contains '|'. */
  ghost predicate PipeFreeLabels(config: Config) {
    && (forall j :: 0 <= j < |config.benches| ==> '|' !in config.benches[j].display)
    && (forall i :: 0 <= i < |config.commits| ==> '|' !in DisplayLabel(config.commits[i]))
  }

  /** The number formatters never write '|'. */
  ghost predicate PipeFreeFormat(fmt: Formatter) {
    forall x :: '|' !in fmt.fixed2(x) && '|' !in fmt.fixed1(x)
  }

  lemma {:induction false} HeaderCellsPipes(benches: seq<Bench>, n: nat)
    requires n <= |benches|
    requires forall j :: 0 <= j < |benches| ==> '|' !in benches[j].display
    ensures Pipes(HeaderCells(benches, n)) == n
  {
    if n > 0 {
      HeaderCellsPipes(benches, n - 1);
      PipesAppend(HeaderCells(benches, n - 1), benches[n - 1].display);
      PipesAppend(HeaderCells(benches, n - 1) + benches[n - 1].display, "|");
      PipesNone(benches[n - 1].display);
    }
  }

  lemma {:induction false} SeparatorCellsPipes(n: nat)
    ensures Pipes(SeparatorCells(n)) == n
  {
    if n > 0 {
      SeparatorCellsPipes(n - 1);
      PipesAppend(SeparatorCells(n - 1), "-|");
    }
  }

  lemma CellPipes(i: nat, fps: real, first: real, fmt: Formatter)
    requires i == 0 || first != 0.0
    requires PipeFreeFormat(fmt)
    ensures Pipes(Cell(i, fps, first, fmt)) == 0
  {
    var value := fmt.fixed2(fps);
    PipesNone(value);
    if i > 0 {
      var trend := Trend(Fraction(fps, first), fmt);
      TrendPipeFree(Fraction(fps, first), fmt);
      PipesNone(trend);
      PipesAppend(value, trend);
    } else {
      assert Cell(i, fps, first, fmt) == value;
    }
  }

  lemma TrendPipeFree(frac: real, fmt: Formatter)
    requires PipeFreeFormat(fmt)
    ensures '|' !in Trend(frac, fmt)
  {
    var pct := fmt.fixed1(frac * 100.0);
    assert '|' !in pct;
    assert '|' !in TrendGlyph(frac);
    assert Trend(frac, fmt) == " " + TrendGlyph(frac) + TrendSign(frac) + " " + pct + "%";
  }

  lemma {:induction false} RowCellsPipes(results: Results, config: Config, fmt: Formatter, i: nat, n: nat)
    requires Printable(results, config) && PipeFreeFormat(fmt)
    requires i < |config.commits| && n <= |config.benches|
    ensures Pipes(RowCells(results, config, fmt, i, n)) == n
  {
    if n > 0 {
      RowCellsPipes(results, config, fmt, i, n - 1);
      CellAtPipes(results, config, fmt, i, n - 1);
      PipesClosedCell(RowCells(results, config, fmt, i, n - 1), CellAt(results, config, fmt, i, n - 1));
    }
  }

  lemma CellAtPipes(results: Results, config: Config, fmt: Formatter, i: nat, j: nat)
    requires Printable(results, config) && PipeFreeFormat(fmt)
    requires i < |config.commits| && j < |config.benches|
    ensures Pipes(CellAt(results, config, fmt, i, j)) == 0
  {
    CellPipes(i, results[(config.benches[j], config.commits[i])],
              results[(config.benches[j], config.commits[0])], fmt);
  }

  /** A pipe-free cell closed by '|' adds one column. */
  lemma PipesClosedCell(prev: string, cell: string)
    requires Pipes(cell) == 0
    ensures Pipes(prev + (cell + "|")) == Pipes(prev) + 1
  {
    assert Pipes("|") == 1 by { assert "|"[..0] == []; }
    PipesAppend(cell, "|");
    PipesAppend(prev, cell + "|");
  }

  /**
   * With labels and numbers free of '|', the header, the separator and
   * every commit's line have the same number of columns: one per bench and
   * one for the row labels.
   */
  lemma ColumnsAgree(results: Results, config: Config, fmt: Formatter)
    requires Printable(results, config)
    requires PipeFreeLabels(config) && PipeFreeFormat(fmt)
    ensures Pipes(Header(config.benches)) == |config.benches| + 2
    ensures Pipes(Separator(|config.benches|)) == |config.benches| + 2
    ensures forall i :: 0 <= i < |config.commits| ==> Pipes(Row(results, config, fmt, i)) == |config.benches| + 2
  {
    var n := |config.benches|;
    HeaderCellsPipes(config.benches, n);
    PipesAppend("||", HeaderCells(config.benches, n));
    SeparatorCellsPipes(n);
    PipesAppend("|-|", SeparatorCells(n));
    forall i | 0 <= i < |config.commits|
      ensures Pipes(Row(results, config, fmt, i)) == n + 2
    {
      var name := DisplayLabel(config.commits[i]);
      RowCellsPipes(results, config, fmt, i, n);
      PipesNone(name);
      PipesAppend("|", name);
      PipesAppend("|" + name, "|");
      PipesAppend("|" + name + "|", RowCells(results, config, fmt, i, n));
    }
  }
}
