/** The table-cell pass (`clean_table_cells`) over the Word document that
    Pandoc produced: a cell whose text is wrapped in dollar signs would have
    them removed, and a cell whose text starts with `=` is set in a monospaced
    font and aligned left. */
module CellCleaner {
  import opened Text

  datatype Option<T> = None | Some(value: T)

  /** The values of `WD_ALIGN_PARAGRAPH` a paragraph can carry. */
  datatype Alignment = Left | Center | Right | Justify | Distribute

  /** A run: its text and the font name and size set directly on it (`None`
      when the run inherits them from its style). Sizes are lengths in EMU,
      as python-docx keeps them. */
  datatype Run = Run(text: string, fontName: Option<string>, fontSize: Option<nat>)

  datatype Paragraph = Paragraph(runs: seq<Run>, alignment: Option<Alignment>)

  datatype Cell = Cell(paragraphs: seq<Paragraph>)

  datatype Row = Row(cells: seq<Cell>)

  datatype Table = Table(rows: seq<Row>)

  /** `Pt(n)`: a length of `n` points, 12700 EMU each. */
  function Pt(points: nat): nat {
    points * 12700
  }

  /** The font and size the formula branch sets. */
  const FormulaFont: string := "Consolas"
  const FormulaSize: nat := Pt(10)

  // ---------------------------------------------------------------- text

  /** `paragraph.text`: the texts of its runs, one after the other. */
  function RunsText(runs: seq<Run>): string {
    if runs == [] then "" else RunsText(runs[..|runs| - 1]) + runs[|runs| - 1].text
  }

  function ParagraphText(p: Paragraph): string {
    RunsText(p.runs)
  }

  function ParagraphTexts(ps: seq<Paragraph>): (ts: seq<string>)
    ensures |ts| == |ps|
  {
    seq(|ps|, i requires 0 <= i < |ps| => ParagraphText(ps[i]))
  }

  /** `full_text`: the paragraph texts joined by newlines, then stripped. */
  function FullText(c: Cell): string {
    Strip(Join(ParagraphTexts(c.paragraphs), "\n"))
  }

  // ---------------------------------------------------------------- the two patterns

  /** `math_inline_re` (`^\s\$(.+)\$\s*$`) matches `s` with the closing `$` at
      position `k`: a whitespace character, `$`, a group of at least one
      character none of which is a newline, `$`, then only whitespace. */
  predicate InlineMatchAt(s: string, k: int) {
    3 <= k < |s| && IsSpace(s[0]) && s[1] == '$' && s[k] == '$' &&
    '\n' !in s[2..k] && AllSpace(s[k + 1..])
  }

  /** `math_block_re` (`^\s\$\$(.+)\$\$\s*$`) matches `s` with the closing
      `$$` at positions `k` and `k + 1`. */
  predicate BlockMatchAt(s: string, k: int) {
    4 <= k && k + 1 < |s| && IsSpace(s[0]) && s[1] == '$' && s[2] == '$' &&
    s[k] == '$' && s[k + 1] == '$' && '\n' !in s[3..k] && AllSpace(s[k + 2..])
  }

  /** The position of the last non-whitespace character of `s` (-1 when there is none). */
  function LastNonSpace(s: string): (k: int)
    ensures -1 <= k < |s|
  {
    |RStrip(s)| - 1
  }

  /** `math_inline_re.match(s)`, as the group it captures. Only the last
      non-whitespace character can close the match, so the greedy group is
      everything between the opening `$` and that character. */
  function MatchInline(s: string): Option<string> {
    var k := LastNonSpace(s);
    if 3 <= k && IsSpace(s[0]) && s[1] == '$' && s[k] == '$' && '\n' !in s[2..k] then Some(s[2..k])
    else None
  }

  /** `math_block_re.match(s)`, as the group it captures. */
  function MatchBlock(s: string): Option<string> {
    var k := LastNonSpace(s) - 1;
    if 4 <= k && IsSpace(s[0]) && s[1] == '$' && s[2] == '$' && s[k] == '$' && s[k + 1] == '$' &&
      '\n' !in s[3..k]
    then Some(s[3..k])
    else None
  }

  /** `cleaned`: the stripped group of the inline pattern, or else of the block pattern. */
  function Cleaned(fullText: string): Option<string> {
    match MatchInline(fullText)
    case Some(g) => Some(Strip(g))
    case None =>
      match MatchBlock(fullText)
      case Some(g) => Some(Strip(g))
      case None => None
  }

  // ---------------------------------------------------------------- the two branches

  /** The dollar branch: every paragraph of the cell loses its runs and gets
      one new run holding `cleaned`, with no direct formatting (setting
      `paragraph.text` removes the runs the loop before it has cleared). */
  function ReplacedParagraph(p: Paragraph, cleaned: string): Paragraph {
    Paragraph([Run(cleaned, None, None)], p.alignment)
  }

  function ReplacedCell(c: Cell, cleaned: string): Cell {
    Cell(seq(|c.paragraphs|, i requires 0 <= i < |c.paragraphs| => ReplacedParagraph(c.paragraphs[i], cleaned)))
  }

  /** The formula branch, run by run and paragraph by paragraph. */
  function FormulaRun(r: Run): Run {
    r.(fontName := Some(FormulaFont), fontSize := Some(FormulaSize))
  }

  function FormulaRuns(runs: seq<Run>): seq<Run> {
    seq(|runs|, j requires 0 <= j < |runs| => FormulaRun(runs[j]))
  }

  function FormulaParagraph(p: Paragraph): Paragraph {
    Paragraph(FormulaRuns(p.runs), Some(Left))
  }

  function FormulaCell(c: Cell): Cell {
    Cell(seq(|c.paragraphs|, i requires 0 <= i < |c.paragraphs| => FormulaParagraph(c.paragraphs[i])))
  }

  /** What the loop body does to one cell. */
  function CleanedCell(c: Cell): Cell {
    var fullText := FullText(c);
    match Cleaned(fullText)
    case Some(t) => ReplacedCell(c, t)
    case None => if StartsWith(fullText, "=") then FormulaCell(c) else c
  }

  function CleanedRow(r: Row): Row {
    Row(seq(|r.cells|, i requires 0 <= i < |r.cells| => CleanedCell(r.cells[i])))
  }

  function CleanedTable(t: Table): Table {
    Table(seq(|t.rows|, i requires 0 <= i < |t.rows| => CleanedRow(t.rows[i])))
  }

  function CleanedTables(ts: seq<Table>): seq<Table> {
    seq(|ts|, i requires 0 <= i < |ts| => CleanedTable(ts[i]))
  }

  // ---------------------------------------------------------------- the pass, step by step

  /** The formula branch for one paragraph: the font of each run, then the alignment. */
  method FormatParagraph(p: Paragraph) returns (q: Paragraph)
    ensures q == FormulaParagraph(p)
  {
    var runs := p.runs;
    for j := 0 to |runs|
      invariant |runs| == |p.runs|
      invariant forall k :: 0 <= k < j ==> runs[k] == FormulaRun(p.runs[k])
      invariant forall k :: j <= k < |runs| ==> runs[k] == p.runs[k]
    {
      runs := runs[j := runs[j].(fontName := Some(FormulaFont), fontSize := Some(FormulaSize))];
    }
    q := Paragraph(runs, Some(Left));
  }

  /** The dollar branch: the loop over the paragraphs of the cell. */
  method ReplaceCellText(c: Cell, cleaned: string) returns (d: Cell)
    ensures d == ReplacedCell(c, cleaned)
  {
    var ps := c.paragraphs;
    for i := 0 to |ps|
      invariant |ps| == |c.paragraphs|
      invariant forall k :: 0 <= k < i ==> ps[k] == ReplacedParagraph(c.paragraphs[k], cleaned)
      invariant forall k :: i <= k < |ps| ==> ps[k] == c.paragraphs[k]
    {
      ps := ps[i := ReplacedParagraph(ps[i], cleaned)];
    }
    d := Cell(ps);
  }

  /** The formula branch: the loop over the paragraphs of the cell. */
  method FormatCell(c: Cell) returns (d: Cell)
    ensures d == FormulaCell(c)
  {
    var ps := c.paragraphs;
    for i := 0 to |ps|
      invariant |ps| == |c.paragraphs|
      invariant forall k :: 0 <= k < i ==> ps[k] == FormulaParagraph(c.paragraphs[k])
      invariant forall k :: i <= k < |ps| ==> ps[k] == c.paragraphs[k]
    {
      var q := FormatParagraph(ps[i]);
      ps := ps[i := q];
    }
    d := Cell(ps);
  }

  /** The body of the loop over cells. */
  method CleanCell(c: Cell) returns (d: Cell)
    ensures d == CleanedCell(c)
  {
    var fullText := FullText(c);
    var cleaned: Option<string> := None;
    var m1 := MatchInline(fullText);
    var m2 := MatchBlock(fullText);
    if m1.Some? {
      cleaned := Some(Strip(m1.value));
    } else if m2.Some? {
      cleaned := Some(Strip(m2.value));
    }
    if cleaned.Some? {
      d := ReplaceCellText(c, cleaned.value);
    } else if StartsWith(fullText, "=") {
      d := FormatCell(c);
    } else {
      d := c;
    }
  }

  /** The loop over the cells of one row. */
  method CleanRow(r: Row) returns (s: Row)
    ensures s == CleanedRow(r)
  {
    var cells := r.cells;
    for i := 0 to |cells|
      invariant |cells| == |r.cells|
      invariant forall k :: 0 <= k < i ==> cells[k] == CleanedCell(r.cells[k])
      invariant forall k :: i <= k < |cells| ==> cells[k] == r.cells[k]
    {
      var d := CleanCell(cells[i]);
      cells := cells[i := d];
    }
    s := Row(cells);
  }

  /** The loop over the rows of one table. */
  method CleanTable(t: Table) returns (u: Table)
    ensures u == CleanedTable(t)
  {
    var rows := t.rows;
    for i := 0 to |rows|
      invariant |rows| == |t.rows|
      invariant forall k :: 0 <= k < i ==> rows[k] == CleanedRow(t.rows[k])
      invariant forall k :: i <= k < |rows| ==> rows[k] == t.rows[k]
    {
      var s := CleanRow(rows[i]);
      rows := rows[i := s];
    }
    u := Table(rows);
  }

  /** The tables of an opened document, which `clean_table_cells` edits in place. */
  class Document {
    var tables: seq<Table>

    constructor(tables: seq<Table>)
      ensures this.tables == tables
    {
      this.tables := tables;
    }

    /** `clean_table_cells` between opening and saving the document. */
    method CleanTableCells()
      modifies this
      ensures tables == CleanedTables(old(tables))
    {
      for i := 0 to |tables|
        invariant |tables| == |old(tables)|
        invariant forall k :: 0 <= k < i ==> tables[k] == CleanedTable(old(tables)[k])
        invariant forall k :: i <= k < |tables| ==> tables[k] == old(tables)[k]
      {
        var u := CleanTable(tables[i]);
        tables := tables[i := u];
      }
    }
  }
}
