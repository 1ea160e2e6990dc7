/** The Markdown line preprocessor (`preprocess_markdown`): one pass over the
    lines that puts an empty line before a block start that follows a
    non-empty line, and appends a two-space hard break to "dense" lines. */
module Preprocessor {
  import opened Text

  /** A line as the loop sees it: `line.rstrip("\n")`. */
  function Cur(raw: string): string {
    RStripChar(raw, '\n')
  }

  /** A stripped line that opens a heading (`#`), a quote (`>`), a code fence
      (three backticks or three tildes) or a display-math fence (`$$`). */
  predicate StartsWithMarker(s: string) {
    |s| > 0 &&
    (s[0] == '#' || s[0] == '>' ||
     (|s| >= 3 && s[0] == '`' && s[1] == '`' && s[2] == '`') ||
     (|s| >= 3 && s[0] == '~' && s[1] == '~' && s[2] == '~') ||
     (|s| >= 2 && s[0] == '$' && s[1] == '$'))
  }

  /** `is_block_start`: the stripped line is empty or opens a block. */
  predicate IsBlockStart(line: string) {
    var s := Strip(line);
    StartsWithMarker(s) || s == ""
  }

  /** `cur.strip().startswith("|")` */
  predicate IsTableRow(cur: string) {
    var s := Strip(cur);
    |s| > 0 && s[0] == '|'
  }

  /** The test that sends a line down the first branch of the loop. */
  predicate KeptAsBlock(cur: string) {
    IsBlockStart(cur) && !IsTableRow(cur)
  }

  /** `dense`: a dollar sign, or a full-width colon in a line longer than 40,
      or a comma in a line longer than 80. */
  predicate Dense(cur: string) {
    '$' in cur || ('\U{FF1A}' in cur && |cur| > 40) || (',' in cur && |cur| > 80)
  }

  /** `cur.endswith("  ")` */
  predicate EndsInTwoSpaces(s: string) {
    |s| >= 2 && s[|s| - 2] == ' ' && s[|s| - 1] == ' '
  }

  /** What the loop looks at in one input line: the line without its
      newline, whether it takes the first branch, whether its stripped form
      opens a block (the test applied to `next_line`), and whether it is dense. */
  datatype LineInfo = LineInfo(cur: string, keptAsBlock: bool, opensBlock: bool, dense: bool)

  function Classify(raw: string): LineInfo {
    var cur := Cur(raw);
    LineInfo(cur, KeptAsBlock(cur), StartsWithMarker(Strip(cur)), Dense(cur))
  }

  function Classified(lines: seq<string>): (infos: seq<LineInfo>)
    ensures |infos| == |lines|
  {
    seq(|lines|, i requires 0 <= i < |lines| => Classify(lines[i]))
  }

  /** How the loop sees `next_line = ""` after the last line. */
  const NoLine: LineInfo := LineInfo("", true, false, false)

  /** The line after line `i`, or `NoLine` after the last one. */
  function NextInfo(infos: seq<LineInfo>, i: nat): LineInfo
    requires i < |infos|
  {
    if i + 1 < |infos| then infos[i + 1] else NoLine
  }

  /** The hard-break rule of the second branch. */
  predicate GetsHardBreak(info: LineInfo, next: LineInfo) {
    info.cur != "" && next.cur != "" && !next.opensBlock && info.dense && !EndsInTwoSpaces(info.cur)
  }

  /** The second branch of the loop: `cur`, with two spaces appended when the rule asks for it. */
  function HardBreak(info: LineInfo, next: LineInfo): (r: string)
    ensures r == info.cur || r == info.cur + "  "
  {
    if GetsHardBreak(info, next) then info.cur + "  " else info.cur
  }

  /** The value of `prev_blank` when line `i` is reached: every line sets it to
      whether the line it emitted is "", and an emitted line is "" exactly when
      its input line is (`PrevBlankIsLastOutput`). */
  predicate PrevBlank(infos: seq<LineInfo>, i: nat)
    requires i <= |infos|
  {
    i == 0 || infos[i - 1].cur == ""
  }

  /** What one line contributes: a separator before it or not, and the line it becomes. */
  datatype Emission = Emission(separator: bool, line: string)

  /** The body of the loop for line `i`. */
  function EmissionAt(infos: seq<LineInfo>, i: nat): Emission
    requires i < |infos|
  {
    var info := infos[i];
    if info.keptAsBlock then Emission(!PrevBlank(infos, i) && info.cur != "", info.cur)
    else Emission(false, HardBreak(info, NextInfo(infos, i)))
  }

  /** The emissions of the first `k` lines. */
  function EmissionsUpTo(infos: seq<LineInfo>, k: nat): (es: seq<Emission>)
    requires k <= |infos|
    ensures |es| == k
  {
    if k == 0 then [] else EmissionsUpTo(infos, k - 1) + [EmissionAt(infos, k - 1)]
  }

  function Emissions(lines: seq<string>): seq<Emission> {
    EmissionsUpTo(Classified(lines), |lines|)
  }

  /** The output lines a sequence of emissions produces, in order. */
  function Output(es: seq<Emission>): seq<string> {
    if es == [] then []
    else
      var e := es[|es| - 1];
      var before := Output(es[..|es| - 1]);
      (if e.separator then before + [""] else before) + [e.line]
  }

  /** `out_lines` once the loop is done. */
  function Preprocess(lines: seq<string>): seq<string> {
    Output(Emissions(lines))
  }

  /** `preprocess_markdown` without the file handling: the lines it builds and
      the text it writes to the temporary file. */
  method PreprocessMarkdown(lines: seq<string>) returns (outLines: seq<string>, text: string)
    ensures outLines == Preprocess(lines)
    ensures text == Join(outLines, "\n")
  {
    ghost var infos := Classified(lines);
    outLines := [];
    var prevBlank := true;
    for i := 0 to |lines|
      invariant outLines == Output(EmissionsUpTo(infos, i))
      invariant prevBlank == PrevBlank(infos, i)
      invariant prevBlank <==> outLines == [] || outLines[|outLines| - 1] == ""
    {
      var separator, line := ProcessLine(lines, i, prevBlank);
      NextOutput(infos, i);
      if separator {
        outLines := outLines + [""];
      }
      outLines := outLines + [line];
      prevBlank := line == "";
    }
    text := Join(outLines, "\n");
  }

  /** The body of the loop for line `i`, given the current `prev_blank`:
      whether a separator goes out before the line, and what it becomes. */
  method ProcessLine(lines: seq<string>, i: nat, prevBlank: bool) returns (separator: bool, line: string)
    requires i < |lines|
    requires prevBlank == PrevBlank(Classified(lines), i)
    ensures separator == EmissionAt(Classified(lines), i).separator
    ensures line == EmissionAt(Classified(lines), i).line
  {
    EmissionOfLine(lines, i);
    var cur := Cur(lines[i]);
    separator := false;
    line := cur;
    var isTableRow := IsTableRow(cur);
    if IsBlockStart(cur) && !isTableRow {
      if !prevBlank && cur != "" {
        separator := true;
      }
    } else {
      var nextLine := if i + 1 < |lines| then Cur(lines[i + 1]) else "";
      var dense := Dense(cur);
      if cur != "" && nextLine != "" && !StartsWithMarker(Strip(nextLine)) {
        if dense && !EndsInTwoSpaces(cur) {
          line := cur + "  ";
        }
      }
    }
  }

  /** `EmissionAt` in terms of the input lines themselves. */
  lemma EmissionOfLine(lines: seq<string>, i: nat)
    requires i < |lines|
    ensures var cur := Cur(lines[i]);
      var nextLine := if i + 1 < |lines| then Cur(lines[i + 1]) else "";
      EmissionAt(Classified(lines), i) ==
        if KeptAsBlock(cur) then Emission(!PrevBlank(Classified(lines), i) && cur != "", cur)
        else if cur != "" && nextLine != "" && !StartsWithMarker(Strip(nextLine)) && Dense(cur) && !EndsInTwoSpaces(cur)
        then Emission(false, cur + "  ")
        else Emission(false, cur)
  {
    var infos := Classified(lines);
    assert infos[i] == Classify(lines[i]);
    assert NextInfo(infos, i) == if i + 1 < |lines| then Classify(lines[i + 1]) else NoLine;
  }

  /** What line `i` adds to the output, and the `prev_blank` it leaves behind. */
  lemma NextOutput(infos: seq<LineInfo>, i: nat)
    requires i < |infos|
    ensures Output(EmissionsUpTo(infos, i + 1)) ==
      (if EmissionAt(infos, i).separator then Output(EmissionsUpTo(infos, i)) + [""] else Output(EmissionsUpTo(infos, i)))
      + [EmissionAt(infos, i).line]
    ensures PrevBlank(infos, i + 1) == (EmissionAt(infos, i).line == "")
  {
    OutputStep(EmissionsUpTo(infos, i), EmissionAt(infos, i));
  }

  /** What one more emission adds to the output. */
  lemma OutputStep(es: seq<Emission>, e: Emission)
    ensures Output(es + [e]) == (if e.separator then Output(es) + [""] else Output(es)) + [e.line]
  {
    assert (es + [e])[..|es|] == es;
  }

  /** `prev_blank` as the loop keeps it: true at the start and after an
      emitted empty line. */
  lemma PrevBlankIsLastOutput(infos: seq<LineInfo>, k: nat)
    requires k <= |infos|
    ensures PrevBlank(infos, k) <==>
      (Output(EmissionsUpTo(infos, k)) == [] || Output(EmissionsUpTo(infos, k))[|Output(EmissionsUpTo(infos, k))| - 1] == "")
  {
    LastOutput(EmissionsUpTo(infos, k));
  }

  /** The last output line is the line of the last emission. */
  lemma LastOutput(es: seq<Emission>)
    ensures es == [] <==> Output(es) == []
    ensures es != [] ==> Output(es)[|Output(es)| - 1] == es[|es| - 1].line
  {
  }
}
