/** What `preprocess_markdown` guarantees about the lines it writes: where
    the separators go, that every input line comes back in order, and when a
    hard break is appended. */
module PreprocessorProperties {
  import opened Text
  import opened Preprocessor

  /** An output line tagged with where it came from: an inserted separator,
      or the line an input line became. */
  datatype OutLine = Separator | Kept(text: string)

  function Rendered(o: OutLine): string {
    match o
    case Separator => ""
    case Kept(t) => t
  }

  /** The output of a sequence of emissions, each line tagged. */
  function Layout(es: seq<Emission>): seq<OutLine> {
    if es == [] then []
    else
      var e := es[|es| - 1];
      var before := Layout(es[..|es| - 1]);
      (if e.separator then before + [Separator] else before) + [Kept(e.line)]
  }

  /** The kept lines of a layout, in order, separators dropped. */
  function KeptTexts(l: seq<OutLine>): seq<string> {
    if l == [] then []
    else
      var before := KeptTexts(l[..|l| - 1]);
      match l[|l| - 1]
      case Separator => before
      case Kept(t) => before + [t]
  }

  /** The number of separators among a sequence of emissions. */
  function SeparatorCount(es: seq<Emission>): (n: nat)
    ensures n <= |es|
  {
    if es == [] then 0
    else SeparatorCount(es[..|es| - 1]) + (if es[|es| - 1].separator then 1 else 0)
  }

  lemma LayoutStep(es: seq<Emission>, e: Emission)
    ensures Layout(es + [e]) == (if e.separator then Layout(es) + [Separator] else Layout(es)) + [Kept(e.line)]
  {
    assert (es + [e])[..|es|] == es;
  }

  lemma KeptTextsStep(l: seq<OutLine>, o: OutLine)
    ensures KeptTexts(l + [o]) == (if o.Kept? then KeptTexts(l) + [o.text] else KeptTexts(l))
  {
    assert (l + [o])[..|l|] == l;
  }

  /** Emission `i` does not depend on how many later ones are computed. */
  lemma {:induction false} EmissionsUpToAt(infos: seq<LineInfo>, k: nat, i: nat)
    requires i < k <= |infos|
    ensures EmissionsUpTo(infos, k)[i] == EmissionAt(infos, i)
  {
    if i < k - 1 {
      EmissionsUpToAt(infos, k - 1, i);
    }
  }

  /** Line `i` of the input, as the loop classifies it. */
  lemma ClassifiedAt(lines: seq<string>, i: nat)
    requires i < |lines|
    ensures Classified(lines)[i].cur == Cur(lines[i])
    ensures Classified(lines)[i].keptAsBlock == KeptAsBlock(Cur(lines[i]))
    ensures Classified(lines)[i].opensBlock == StartsWithMarker(Strip(Cur(lines[i])))
    ensures Classified(lines)[i].dense == Dense(Cur(lines[i]))
  {
  }

  /** `NoLine` is what the empty `next_line` classifies as. */
  lemma NoLineIsEmptyLine()
    ensures Classify("") == NoLine
  {
  }

  /** `prev_blank` in terms of the input: set before the first line, and
      afterwards exactly when the previous line was empty. */
  lemma PrevBlankOfLines(lines: seq<string>, i: nat)
    requires i <= |lines|
    ensures PrevBlank(Classified(lines), i) <==> i == 0 || Cur(lines[i - 1]) == ""
  {
    if i > 0 {
      ClassifiedAt(lines, i - 1);
    }
  }

  /** Untagging the layout gives the output line for line. */
  lemma {:induction false} LayoutRendersOutput(es: seq<Emission>)
    ensures |Layout(es)| == |Output(es)|
    ensures forall j :: 0 <= j < |Output(es)| ==> Output(es)[j] == Rendered(Layout(es)[j])
  {
    if es != [] {
      LayoutRendersOutput(es[..|es| - 1]);
    }
  }

  /** Every output line is a separator or an emitted line, and the output has
      one line per input line plus one per separator. */
  lemma {:induction false} OutputLength(es: seq<Emission>)
    ensures |Output(es)| == |es| + SeparatorCount(es)
  {
    if es != [] {
      OutputLength(es[..|es| - 1]);
    }
  }

  /** Dropping the separators from the layout leaves the emitted lines, in order. */
  lemma {:induction false} KeptTextsAreLines(es: seq<Emission>)
    ensures |KeptTexts(Layout(es))| == |es|
    ensures forall i :: 0 <= i < |es| ==> KeptTexts(Layout(es))[i] == es[i].line
  {
    if es != [] {
      var front := es[..|es| - 1];
      var e := es[|es| - 1];
      KeptTextsAreLines(front);
      assert es == front + [e];
      LayoutStep(front, e);
      if e.separator {
        KeptTextsStep(Layout(front), Separator);
        KeptTextsStep(Layout(front) + [Separator], Kept(e.line));
      } else {
        KeptTextsStep(Layout(front), Kept(e.line));
      }
      assert KeptTexts(Layout(es)) == KeptTexts(Layout(front)) + [e.line];
      forall i | 0 <= i < |es|
        ensures KeptTexts(Layout(es))[i] == es[i].line
      {
        if i < |front| {
          assert es[i] == front[i];
        }
      }
    }
  }

  /** The output has exactly one line per input line plus one per separator. */
  lemma LineCount(lines: seq<string>)
    ensures |Preprocess(lines)| == |lines| + SeparatorCount(Emissions(lines))
  {
    OutputLength(Emissions(lines));
  }

  /** Removing the separators gives back the input lines in order, each
      without its trailing newlines and either unchanged or with two spaces
      appended. */
  lemma LinesPreserved(lines: seq<string>)
    ensures |KeptTexts(Layout(Emissions(lines)))| == |lines|
    ensures forall i :: 0 <= i < |lines| ==>
      KeptTexts(Layout(Emissions(lines)))[i] == Cur(lines[i]) ||
      KeptTexts(Layout(Emissions(lines)))[i] == Cur(lines[i]) + "  "
  {
    var infos := Classified(lines);
    KeptTextsAreLines(Emissions(lines));
    forall i | 0 <= i < |lines|
      ensures KeptTexts(Layout(Emissions(lines)))[i] == EmissionAt(infos, i).line
      ensures infos[i].cur == Cur(lines[i])
    {
      EmissionsUpToAt(infos, |lines|, i);
      ClassifiedAt(lines, i);
    }
  }

  /** Every separator sits between two non-empty kept lines, and the one
      after it is a block start. */
  predicate SeparatorsFlanked(l: seq<OutLine>) {
    forall j :: 0 <= j < |l| && l[j] == Separator ==>
      0 < j < |l| - 1 && l[j - 1].Kept? && l[j - 1].text != "" &&
      l[j + 1].Kept? && l[j + 1].text != "" && IsBlockStart(l[j + 1].text)
  }

  /** One more emission keeps every separator flanked, provided a separator
      only comes after a non-empty kept line and before a non-empty block start. */
  lemma FlankedStep(l: seq<OutLine>, e: Emission)
    requires SeparatorsFlanked(l)
    requires e.separator ==>
      |l| > 0 && l[|l| - 1].Kept? && l[|l| - 1].text != "" && e.line != "" && IsBlockStart(e.line)
    ensures SeparatorsFlanked((if e.separator then l + [Separator] else l) + [Kept(e.line)])
  {
    var l' := (if e.separator then l + [Separator] else l) + [Kept(e.line)];
    forall j | 0 <= j < |l'| && l'[j] == Separator
      ensures 0 < j < |l'| - 1 && l'[j - 1].Kept? && l'[j - 1].text != "" &&
        l'[j + 1].Kept? && l'[j + 1].text != "" && IsBlockStart(l'[j + 1].text)
    {
      if j < |l| {
        assert l'[j] == l[j] && l'[j - 1] == l[j - 1] && l'[j + 1] == l[j + 1];
      }
    }
  }

  /** A separator before line `i` comes after a non-empty emitted line and
      before the line itself, kept as it is. */
  lemma SeparatorSurroundings(infos: seq<LineInfo>, i: nat)
    requires i < |infos|
    requires EmissionAt(infos, i).separator
    ensures i > 0 && EmissionAt(infos, i - 1).line != ""
    ensures EmissionAt(infos, i).line == infos[i].cur != "" && infos[i].keptAsBlock
  {
  }

  /** Every separator in `es` follows a non-empty line and precedes a
      non-empty block start. */
  predicate SeparatorsJustified(es: seq<Emission>) {
    forall i :: 0 <= i < |es| && es[i].separator ==>
      i > 0 && es[i - 1].line != "" && es[i].line != "" && IsBlockStart(es[i].line)
  }

  lemma EmissionsJustified(lines: seq<string>)
    ensures SeparatorsJustified(Emissions(lines))
  {
    var infos := Classified(lines);
    var es := Emissions(lines);
    forall i | 0 <= i < |es| && es[i].separator
      ensures i > 0 && es[i - 1].line != "" && es[i].line != "" && IsBlockStart(es[i].line)
    {
      EmissionsUpToAt(infos, |lines|, i);
      SeparatorSurroundings(infos, i);
      EmissionsUpToAt(infos, |lines|, i - 1);
      ClassifiedAt(lines, i);
    }
  }

  lemma {:induction false} FlankedLayout(es: seq<Emission>)
    requires SeparatorsJustified(es)
    ensures SeparatorsFlanked(Layout(es))
    ensures es != [] ==> (|Layout(es)| > 0 && Layout(es)[|Layout(es)| - 1] == Kept(es[|es| - 1].line))
  {
    if es != [] {
      var front := es[..|es| - 1];
      var e := es[|es| - 1];
      assert es == front + [e];
      assert SeparatorsJustified(front) by {
        forall i | 0 <= i < |front| && front[i].separator
          ensures i > 0 && front[i - 1].line != "" && front[i].line != "" && IsBlockStart(front[i].line)
        {
          assert front[i] == es[i];
          assert i > 0 ==> front[i - 1] == es[i - 1];
        }
      }
      FlankedLayout(front);
      LayoutStep(front, e);
      if e.separator {
        assert es[|es| - 2] == front[|front| - 1];
      }
      FlankedStep(Layout(front), e);
    }
  }

  /** A separator never has a blank line on either side of it, and the line
      after it is a block start and never a table row. */
  lemma SeparatorPlacement(lines: seq<string>)
    ensures |Layout(Emissions(lines))| == |Preprocess(lines)|
    ensures forall j :: 0 <= j < |Preprocess(lines)| && Layout(Emissions(lines))[j] == Separator ==>
      0 < j < |Preprocess(lines)| - 1 &&
      Preprocess(lines)[j] == "" &&
      Preprocess(lines)[j - 1] != "" && Preprocess(lines)[j + 1] != "" &&
      IsBlockStart(Preprocess(lines)[j + 1]) && !IsTableRow(Preprocess(lines)[j + 1])
  {
    var es := Emissions(lines);
    var out := Preprocess(lines);
    var l := Layout(es);
    assert out == Output(es);
    EmissionsJustified(lines);
    FlankedLayout(es);
    LayoutRendersOutput(es);
    forall j | 0 <= j < |out| && l[j] == Separator
      ensures 0 < j < |out| - 1 && out[j] == "" && out[j - 1] != "" && out[j + 1] != "" &&
        IsBlockStart(out[j + 1]) && !IsTableRow(out[j + 1])
    {
      assert out[j - 1] == Rendered(l[j - 1]) && out[j + 1] == Rendered(l[j + 1]);
      BlockStartIsNotTableRow(l[j + 1].text);
    }
  }

  /** The prefix tests of `is_block_start`, as `str.startswith` calls. */
  lemma MarkerIsStartsWith(s: string)
    ensures StartsWithMarker(s) <==>
      StartsWith(s, "#") || StartsWith(s, ">") || StartsWith(s, "```") ||
      StartsWith(s, "~~~") || StartsWith(s, "$$")
  {
    if |s| >= 1 { assert s[..1] == [s[0]]; }
    if |s| >= 2 { assert s[..2] == [s[0], s[1]]; }
    if |s| >= 3 { assert s[..3] == [s[0], s[1], s[2]]; }
  }

  /** A block start is never a table row, so the table-row test only matters
      for lines that are not block starts. */
  lemma BlockStartIsNotTableRow(cur: string)
    ensures IsBlockStart(cur) ==> !IsTableRow(cur)
    ensures KeptAsBlock(cur) <==> IsBlockStart(cur)
  {
  }

  /** A block-start line is emitted as it is, with a separator before it
      exactly when it is not blank and follows a non-blank line. */
  lemma BlockStartUnchanged(lines: seq<string>, i: nat)
    requires i < |lines|
    requires IsBlockStart(Cur(lines[i]))
    ensures EmissionAt(Classified(lines), i).line == Cur(lines[i])
    ensures EmissionAt(Classified(lines), i).separator <==>
      i > 0 && Cur(lines[i - 1]) != "" && Cur(lines[i]) != ""
  {
    BlockStartIsNotTableRow(Cur(lines[i]));
    ClassifiedAt(lines, i);
    PrevBlankOfLines(lines, i);
  }

  /** No separator is ever put before a table row. */
  lemma TableRowNeverSeparated(lines: seq<string>, i: nat)
    requires i < |lines|
    requires IsTableRow(Cur(lines[i]))
    ensures !EmissionAt(Classified(lines), i).separator
  {
    BlockStartIsNotTableRow(Cur(lines[i]));
    ClassifiedAt(lines, i);
  }

  /** A line holding only whitespace counts as a block start: it gets a
      separator after a non-blank line, is kept as it is, and the next line
      does not count as following a blank one. */
  lemma WhitespaceLine(lines: seq<string>, i: nat)
    requires i < |lines|
    requires Cur(lines[i]) != "" && AllSpace(Cur(lines[i]))
    ensures EmissionAt(Classified(lines), i).separator <==> i > 0 && Cur(lines[i - 1]) != ""
    ensures EmissionAt(Classified(lines), i).line == Cur(lines[i])
    ensures !PrevBlank(Classified(lines), i + 1)
  {
    StripSpec(Cur(lines[i]));
    BlockStartUnchanged(lines, i);
    ClassifiedAt(lines, i);
  }

  /** The hard-break rule: two spaces are appended to a line exactly when it
      is not a block start, is not empty, is dense, does not already end in
      two spaces, and the next line is non-empty and opens no block. */
  lemma HardBreakRule(lines: seq<string>, i: nat)
    requires i < |lines|
    ensures var next := if i + 1 < |lines| then Cur(lines[i + 1]) else "";
      EmissionAt(Classified(lines), i).line != Cur(lines[i]) <==>
        !IsBlockStart(Cur(lines[i])) && Cur(lines[i]) != "" &&
        next != "" && !StartsWithMarker(Strip(next)) &&
        Dense(Cur(lines[i])) && !EndsInTwoSpaces(Cur(lines[i]))
  {
    BlockStartIsNotTableRow(Cur(lines[i]));
    ClassifiedAt(lines, i);
    if i + 1 < |lines| {
      ClassifiedAt(lines, i + 1);
    }
  }

  /** A hard break is never appended twice: the line the second branch
      emits, read again as an input line, comes out unchanged. */
  lemma HardBreakIdempotent(raw: string, next: LineInfo)
    ensures var r := HardBreak(Classify(raw), next);
      HardBreak(Classify(r), next) == r
  {
    var cur := Cur(raw);
    RStripCharSpec(raw, '\n');
    var r := HardBreak(Classify(raw), next);
    if r == cur {
      RStripCharSpec(cur, '\n');
      assert Cur(cur) == cur;
    } else {
      assert r == cur + "  ";
      assert r[|r| - 1] == ' ';
      RStripCharSpec(r, '\n');
      assert Cur(r) == r;
    }
  }

  /** The output of two emissions, in the order they are made. */
  lemma OutputOfTwo(e0: Emission, e1: Emission)
    ensures Output([e0, e1]) == (if e0.separator then [""] else []) + [e0.line] + (if e1.separator then [""] else []) + [e1.line]
  {
    assert [e0, e1][..1] == [e0];
    assert [e0][..0] == [];
    assert Output([e0]) == (if e0.separator then [""] else []) + [e0.line];
  }

  /** The output for a two-line input, emission by emission. */
  lemma PreprocessTwo(a: string, b: string)
    ensures var infos := [Classify(a), Classify(b)];
      Preprocess([a, b]) == Output([EmissionAt(infos, 0), EmissionAt(infos, 1)])
  {
    var infos := [Classify(a), Classify(b)];
    assert Classified([a, b]) == infos;
    assert EmissionsUpTo(infos, 1) == [EmissionAt(infos, 0)];
    assert EmissionsUpTo(infos, 2) == [EmissionAt(infos, 0), EmissionAt(infos, 1)];
  }

  /** How the loop classifies two table rows, the first holding a dollar sign. */
  lemma TwoTableRows()
    ensures Classify("|a$b|\n") == LineInfo("|a$b|", false, false, true)
    ensures Classify("|c|\n") == LineInfo("|c|", false, false, false)
  {
    var a, b := "|a$b|", "|c|";
    RStripCharOnce(a, '\n');
    RStripCharOnce(b, '\n');
    StripUnpadded(a);
    StripUnpadded(b);
    assert "|a$b|\n" == a + ['\n'] && "|c|\n" == b + ['\n'];
    assert Dense(a) by { assert a[2] == '$'; }
  }

  /** Table rows are not exempt from the hard-break rule: a row holding a
      dollar sign before another row gets two spaces appended. */
  lemma TableRowGetsHardBreak()
    ensures Preprocess(["|a$b|\n", "|c|\n"]) == ["|a$b|  ", "|c|"]
  {
    TwoTableRows();
    var infos := [LineInfo("|a$b|", false, false, true), LineInfo("|c|", false, false, false)];
    assert EmissionAt(infos, 0) == Emission(false, "|a$b|  ");
    assert EmissionAt(infos, 1) == Emission(false, "|c|");
    PreprocessTwo("|a$b|\n", "|c|\n");
    OutputOfTwo(EmissionAt(infos, 0), EmissionAt(infos, 1));
  }

  /** How the loop classifies a plain line ... */
  lemma BodyLine()
    ensures Classify("body\n") == LineInfo("body", false, false, false)
  {
    var a := "body";
    RStripCharOnce(a, '\n');
    StripUnpadded(a);
    assert "body\n" == a + ['\n'];
  }

  /** ... and a heading. */
  lemma TitleLine()
    ensures Classify("# Title\n") == LineInfo("# Title", true, true, false)
  {
    var b := "# Title";
    RStripCharOnce(b, '\n');
    StripUnpadded(b);
    assert "# Title\n" == b + ['\n'];
  }

  /** The separator goes before a block start that follows text ... */
  lemma SeparatorBeforeHeading()
    ensures Preprocess(["body\n", "# Title\n"]) == ["body", "", "# Title"]
  {
    BodyLine();
    TitleLine();
    var body := LineInfo("body", false, false, false);
    var title := LineInfo("# Title", true, true, false);
    PreprocessTwo("body\n", "# Title\n");
    assert EmissionAt([body, title], 0) == Emission(false, "body");
    assert EmissionAt([body, title], 1) == Emission(true, "# Title");
    OutputOfTwo(Emission(false, "body"), Emission(true, "# Title"));
  }

  /** ... and none goes after one. */
  lemma NoSeparatorAfterHeading()
    ensures Preprocess(["# Title\n", "body\n"]) == ["# Title", "body"]
  {
    BodyLine();
    TitleLine();
    var body := LineInfo("body", false, false, false);
    var title := LineInfo("# Title", true, true, false);
    PreprocessTwo("# Title\n", "body\n");
    assert EmissionAt([title, body], 0) == Emission(false, "# Title");
    assert EmissionAt([title, body], 1) == Emission(false, "body");
    OutputOfTwo(Emission(false, "# Title"), Emission(false, "body"));
  }

  /** Output lines hold a newline only if some emitted line does. */
  lemma {:induction false} OutputWithoutNewlines(es: seq<Emission>)
    requires forall i :: 0 <= i < |es| ==> '\n' !in es[i].line
    ensures forall j :: 0 <= j < |Output(es)| ==> '\n' !in Output(es)[j]
  {
    if es != [] {
      OutputWithoutNewlines(es[..|es| - 1]);
    }
  }

  /** Writing the output joined by newlines and splitting the text again gives
      the output lines back, when the input has a line and no line holds a
      newline before its end. */
  lemma PersistedTextReadsBack(lines: seq<string>)
    requires |lines| > 0
    requires forall i :: 0 <= i < |lines| ==> '\n' !in Cur(lines[i])
    ensures SplitLines(Join(Preprocess(lines), "\n")) == Preprocess(lines)
  {
    var infos := Classified(lines);
    var es := Emissions(lines);
    forall i | 0 <= i < |es|
      ensures '\n' !in es[i].line
    {
      EmissionsUpToAt(infos, |lines|, i);
      ClassifiedAt(lines, i);
      assert es[i].line == Cur(lines[i]) || es[i].line == Cur(lines[i]) + "  ";
    }
    OutputWithoutNewlines(es);
    LastOutput(es);
    SplitJoin(Preprocess(lines));
  }
}
