/** What `clean_table_cells` does and does not do: the regular expressions as
    declarative matches, the dollar branch that the stripped text can never
    reach, and the formula branch that changes formatting and nothing else. */
module CellCleanerProperties {
  import opened Text
  import opened CellCleaner

  // ---------------------------------------------------------------- the patterns

  /** Whitespace never closes a match: the closing `$` is the last
      non-whitespace character. */
  lemma ClosedAtLastNonSpace(s: string, k: int)
    requires 0 <= k < |s| && !IsSpace(s[k]) && AllSpace(s[k + 1..])
    ensures k == LastNonSpace(s)
  {
    RStripSpec(s);
  }

  /** `MatchInline` finds the match of `^\s\$(.+)\$\s*$` when there is one,
      and the group it returns is the one the match captures. */
  lemma InlineMatchSpec(s: string)
    ensures MatchInline(s).Some? <==> exists k :: InlineMatchAt(s, k)
    ensures forall k :: InlineMatchAt(s, k) ==> MatchInline(s) == Some(s[2..k])
  {
    RStripSpec(s);
    forall k | InlineMatchAt(s, k)
      ensures MatchInline(s) == Some(s[2..k])
    {
      ClosedAtLastNonSpace(s, k);
    }
    if MatchInline(s).Some? {
      assert InlineMatchAt(s, LastNonSpace(s));
    }
  }

  /** `MatchBlock` finds the match of `^\s\$\$(.+)\$\$\s*$` when there is one,
      and the group it returns is the one the match captures. */
  lemma BlockMatchSpec(s: string)
    ensures MatchBlock(s).Some? <==> exists k :: BlockMatchAt(s, k)
    ensures forall k :: BlockMatchAt(s, k) ==> MatchBlock(s) == Some(s[3..k])
  {
    RStripSpec(s);
    forall k | BlockMatchAt(s, k)
      ensures MatchBlock(s) == Some(s[3..k])
    {
      ClosedAtLastNonSpace(s, k + 1);
    }
    if MatchBlock(s).Some? {
      assert BlockMatchAt(s, LastNonSpace(s) - 1);
    }
  }

  /** Whatever the block pattern matches, the inline pattern matches first,
      with the inner dollar signs in its group: the `elif` is never taken. */
  lemma BlockMatchImpliesInline(s: string)
    requires MatchBlock(s).Some?
    ensures MatchInline(s) == Some("$" + MatchBlock(s).value + "$")
  {
    var k := LastNonSpace(s) - 1;
    assert s[2..k + 1] == "$" + s[3..k] + "$";
  }

  /** Both patterns need a whitespace character first. */
  lemma NoMatchWithoutLeadingSpace(s: string)
    requires s == [] || !IsSpace(s[0])
    ensures MatchInline(s) == None && MatchBlock(s) == None
  {
  }

  /** `full_text` is stripped, so neither pattern ever matches it and no cell
      takes the dollar branch. */
  lemma DollarBranchDead(c: Cell)
    ensures MatchInline(FullText(c)) == None
    ensures MatchBlock(FullText(c)) == None
    ensures Cleaned(FullText(c)) == None
  {
    StripSpec(Join(ParagraphTexts(c.paragraphs), "\n"));
    NoMatchWithoutLeadingSpace(FullText(c));
  }

  /** The pattern does match text wrapped in dollars with a space before it. */
  lemma InlineExample()
    ensures MatchInline(" $x+1$ ") == Some("x+1")
  {
    var s := " $x+1$ ";
    assert InlineMatchAt(s, 5);
    InlineMatchSpec(s);
    assert s[2..5] == "x+1";
  }

  /** A cell holding that very text in one plain run. */
  const WrappedFormula: Cell := Cell([Paragraph([Run(" $x+1$ ", None, None)], None)])

  /** Its `full_text` has lost the leading space the pattern needs. */
  lemma WrappedFormulaText()
    ensures FullText(WrappedFormula) == "$x+1$"
  {
    var s := " $x+1$ ";
    var c := WrappedFormula;
    RunsTextSingle(Run(s, None, None));
    assert ParagraphTexts(c.paragraphs) == [s];
    assert Join([s], "\n") == s;
    StripExample(s);
  }

  /** So the cell keeps its dollars all the same. */
  lemma WrappedFormulaKept()
    ensures CleanedCell(WrappedFormula) == WrappedFormula
  {
    WrappedFormulaText();
    var t := FullText(WrappedFormula);
    assert t[0] == '$';
    assert !StartsWith(t, "=");
    OtherCellsUnchanged(WrappedFormula);
  }

  /** The strip of the concrete text above. */
  lemma StripExample(s: string)
    requires s == " $x+1$ "
    ensures Strip(s) == "$x+1$"
  {
    assert SkipSpaces(s, 0) == 1;
    assert LStrip(s) == "$x+1$ ";
    var l := LStrip(s);
    assert TrimSpaces(l, |l|) == 5;
  }

  // ---------------------------------------------------------------- the branches

  /** The dollar branch as written: every paragraph would hold exactly the
      cleaned text in one unformatted run, keeping its alignment. */
  lemma ReplacedCellSpec(c: Cell, cleaned: string)
    ensures |ReplacedCell(c, cleaned).paragraphs| == |c.paragraphs|
    ensures forall i :: 0 <= i < |c.paragraphs| ==>
      ParagraphText(ReplacedCell(c, cleaned).paragraphs[i]) == cleaned &&
      ReplacedCell(c, cleaned).paragraphs[i].alignment == c.paragraphs[i].alignment &&
      ReplacedCell(c, cleaned).paragraphs[i].runs == [Run(cleaned, None, None)]
  {
    forall i | 0 <= i < |c.paragraphs|
      ensures ParagraphText(ReplacedCell(c, cleaned).paragraphs[i]) == cleaned
    {
      var q := ReplacedCell(c, cleaned).paragraphs[i];
      assert q == ReplacedParagraph(c.paragraphs[i], cleaned);
      RunsTextSingle(Run(cleaned, None, None));
    }
  }

  lemma RunsTextSingle(r: Run)
    ensures RunsText([r]) == r.text
  {
    assert [r][..0] == [];
    assert RunsText([r]) == RunsText([]) + r.text;
  }

  /** Setting the font leaves the text of the runs as it was. */
  lemma {:induction false} FormulaRunsText(runs: seq<Run>)
    ensures RunsText(FormulaRuns(runs)) == RunsText(runs)
  {
    if runs != [] {
      var f := FormulaRuns(runs);
      var front := runs[..|runs| - 1];
      FormulaRunsText(front);
      assert f[..|f| - 1] == FormulaRuns(front);
    }
  }

  /** The formula branch changes formatting only: the same paragraphs, the
      same runs with the same texts, each run in Consolas at 10 points and
      each paragraph aligned left. */
  lemma FormulaCellSpec(c: Cell)
    ensures |FormulaCell(c).paragraphs| == |c.paragraphs|
    ensures forall i :: 0 <= i < |c.paragraphs| ==>
      FormulaCell(c).paragraphs[i].alignment == Some(Left) &&
      ParagraphText(FormulaCell(c).paragraphs[i]) == ParagraphText(c.paragraphs[i]) &&
      |FormulaCell(c).paragraphs[i].runs| == |c.paragraphs[i].runs|
    ensures forall i, j :: 0 <= i < |c.paragraphs| && 0 <= j < |c.paragraphs[i].runs| ==>
      FormulaCell(c).paragraphs[i].runs[j] == Run(c.paragraphs[i].runs[j].text, Some("Consolas"), Some(Pt(10)))
    ensures FullText(FormulaCell(c)) == FullText(c)
  {
    forall i | 0 <= i < |c.paragraphs|
      ensures ParagraphText(FormulaCell(c).paragraphs[i]) == ParagraphText(c.paragraphs[i])
    {
      assert FormulaCell(c).paragraphs[i] == FormulaParagraph(c.paragraphs[i]);
      FormulaRunsText(c.paragraphs[i].runs);
    }
    assert ParagraphTexts(FormulaCell(c).paragraphs) == ParagraphTexts(c.paragraphs);
  }

  /** A cell whose stripped text starts with `=` gets the formula formatting. */
  lemma FormulaCellsFormatted(c: Cell)
    requires StartsWith(FullText(c), "=")
    ensures CleanedCell(c) == FormulaCell(c)
  {
    DollarBranchDead(c);
  }

  /** Every other cell is left exactly as it was. */
  lemma OtherCellsUnchanged(c: Cell)
    requires !StartsWith(FullText(c), "=")
    ensures CleanedCell(c) == c
  {
    DollarBranchDead(c);
  }

  /** Cleaning never changes the text of a paragraph, nor how many paragraphs
      and runs a cell has. */
  lemma CleanKeepsText(c: Cell)
    ensures |CleanedCell(c).paragraphs| == |c.paragraphs|
    ensures ParagraphTexts(CleanedCell(c).paragraphs) == ParagraphTexts(c.paragraphs)
    ensures forall i :: 0 <= i < |c.paragraphs| ==> |CleanedCell(c).paragraphs[i].runs| == |c.paragraphs[i].runs|
    ensures FullText(CleanedCell(c)) == FullText(c)
  {
    DollarBranchDead(c);
    FormulaCellSpec(c);
  }

  /** Cleaning a cell twice is cleaning it once, so a merged cell that the
      rows list more than once ends up as if it were cleaned once. */
  lemma CleanIdempotent(c: Cell)
    ensures CleanedCell(CleanedCell(c)) == CleanedCell(c)
  {
    CleanKeepsText(c);
    var d := CleanedCell(c);
    DollarBranchDead(d);
    if StartsWith(FullText(c), "=") {
      DollarBranchDead(c);
      forall i | 0 <= i < |c.paragraphs|
        ensures FormulaParagraph(FormulaParagraph(c.paragraphs[i])) == FormulaParagraph(c.paragraphs[i])
      {
        FormulaParagraphIdempotent(c.paragraphs[i]);
      }
      assert FormulaCell(FormulaCell(c)) == FormulaCell(c);
    }
  }

  lemma FormulaParagraphIdempotent(p: Paragraph)
    ensures FormulaParagraph(FormulaParagraph(p)) == FormulaParagraph(p)
  {
    assert FormulaParagraph(FormulaParagraph(p)).runs == FormulaParagraph(p).runs;
  }

  /** The pass keeps the shape of every table and cleans each cell on its own. */
  lemma CleanedTablesSpec(ts: seq<Table>)
    ensures |CleanedTables(ts)| == |ts|
    ensures forall t :: 0 <= t < |ts| ==> |CleanedTables(ts)[t].rows| == |ts[t].rows|
    ensures forall t, r :: 0 <= t < |ts| && 0 <= r < |ts[t].rows| ==>
      CleanedTables(ts)[t].rows[r].cells == seq(|ts[t].rows[r].cells|, k requires 0 <= k < |ts[t].rows[r].cells| => CleanedCell(ts[t].rows[r].cells[k]))
  {
  }
}
