# md2docx: the two text passes, modelled and proved in Dafny

`md2docx.py` converts a Markdown file to a Word document in three steps: a
line preprocessor rewrites the Markdown, Pandoc converts it, and a table-cell
pass edits the cells of the resulting document. This project models the two
passes that the script itself implements and proves what they do.

- `preprocess_markdown` (module `Preprocessor`, file `preprocess.dfy`) walks
  the lines once with the flag `prev_blank`. It puts an empty separator line
  before a non-empty block start (heading, quote, code fence, `$$` fence or a
  whitespace-only line) that follows a non-empty line. It appends a two-space
  hard break to a "dense" line whose next line is non-empty and opens no
  block. The method `PreprocessMarkdown` keeps the loop, its list and its
  flag. It is proved equal to the pure specification `Preprocess`, which
  classifies every line once (`LineInfo`) and folds the per-line
  `Emission`s into the output. The properties are proved about `Preprocess`
  in `preprocess_properties.dfy`.
- `clean_table_cells` (module `CellCleaner`, file `cell_cleaner.dfy`) walks
  tables, rows, cells, paragraphs and runs. The document is a value:
  `Table`, `Row`, `Cell`, `Paragraph` and `Run` are datatypes. The class
  `Document` holds the tables that the pass replaces in place. The two
  regular expressions are hand-written matchers (`MatchInline`,
  `MatchBlock`), and the declarative predicates `InlineMatchAt` and
  `BlockMatchAt` say what a match is: `.` matches any character but a
  newline, and the final `$` anchor adds nothing because `\s*` already
  takes a trailing newline. The nested loops are methods, each
  proved equal to a function (`CleanedCell`, `CleanedRow`, `CleanedTable`,
  `CleanedTables`); the properties are in `cell_cleaner_properties.dfy`.
- `text.dfy` (module `Text`) holds the Python `str` operations that both
  passes use. Whitespace is Python's `str.isspace` set, which `str.strip`
  and the regular-expression class `\s` share.

What the code does, as opposed to what its comments say:

- The dollar-stripping branch of `clean_table_cells` never runs. Both
  patterns require one whitespace character before the first `$`
  (md2docx.py:115-116), but they are matched against `full_text`, which has
  just been stripped (md2docx.py:122). The comments at md2docx.py:9, 13 and
  110 promise that `$...$` cells lose their dollars; `DollarBranchDead`
  proves that no cell does, and `WrappedFormulaKept` shows a concrete cell
  that keeps them. Even for an unstripped text, the `elif` on the block
  pattern is unreachable (`BlockMatchImpliesInline`). The model follows the
  code; the branch is still modelled (`ReplacedCell`) and its effect is
  stated (`ReplacedCellSpec`).
- Table rows are not left alone by the preprocessor. The comments at
  md2docx.py:40 and 60 say table syntax is kept. A table row is never a
  block start, so it takes the hard-break branch, and a row holding `$`
  before another row gets two spaces appended (`TableRowGetsHardBreak`).
- The separator goes before a block start, never after one: a heading
  followed by body text gets no empty line between them
  (`SeparatorBeforeHeading`, `NoSeparatorAfterHeading`).
- A whitespace-only line is a block start, yet it is not `""`. So it gets a
  separator after a non-empty line, and the line after it does not count as
  following a blank line (`WhitespaceLine`).

## Model

| member | source | states |
|---|---|---|
| Text.StripSpec | md2docx.py:49 | `strip()` gives the empty string exactly for an all-whitespace string; otherwise the result neither starts nor ends with whitespace |
| Text.LStripSpec | md2docx.py:122 | the leading-whitespace removal keeps exactly a suffix, drops only whitespace, and leaves a result that is empty or starts with a non-space |
| Text.RStripSpec | md2docx.py:122 | the trailing-whitespace removal keeps exactly a prefix, drops only whitespace, and leaves a result that is empty or ends with a non-space |
| Text.RStripCharSpec | md2docx.py:59 | `rstrip("\n")` keeps a prefix, drops only newlines, and leaves no newline at the end |
| Text.RStripCharOnce | md2docx.py:59 | a line read with one newline gives back the line itself |
| Text.StripUnpadded | md2docx.py:49 | a string that neither starts nor ends with whitespace is its own strip |
| Text.Join | md2docx.py:80 | `"\n".join` starts with the first line and ends with the last |
| Text.SplitJoin | md2docx.py:80 | splitting the joined text at newlines gives back the lines, when there is at least one and none holds a newline |
| Preprocessor.HardBreak | md2docx.py:72-74 | the second branch emits `cur` unchanged or with exactly two spaces appended |
| Preprocessor.PreprocessMarkdown | md2docx.py:35-82 | the loop builds exactly `Preprocess(lines)` and writes it joined by `"\n"`; it keeps `prev_blank` as "the output is empty or ends in an empty line" |
| Preprocessor.ProcessLine | md2docx.py:58-77 | one iteration of the loop, given the current `prev_blank`, emits exactly the separator and line the specification gives for line `i` |
| Preprocessor.NextOutput | md2docx.py:62-77 | line `i` appends its separator, if any, and then its line to the output, and leaves `prev_blank` set to whether that line is empty |
| Preprocessor.PrevBlankIsLastOutput | md2docx.py:46-77 | `prev_blank` holds exactly when the output so far is empty or its last line is empty |
| Preprocessor.LastOutput | md2docx.py:64-76 | the output is empty only for no lines, and its last line is the last line emitted |
| Preprocessor.OutputStep | md2docx.py:63-76 | one more emission appends an optional `""` and then the emitted line |
| PreprocessorProperties.EmissionsUpToAt | md2docx.py:58 | the `i`-th emission of the first `k` lines is what the loop emits for line `i` |
| PreprocessorProperties.PrevBlankOfLines | md2docx.py:46-77 | `prev_blank` at line `i` holds exactly when `i` is 0 or line `i - 1`, without its newline, is empty |
| PreprocessorProperties.LayoutRendersOutput | md2docx.py:63-76 | each output line is a separator `""` or an emitted line, in order |
| PreprocessorProperties.OutputLength | md2docx.py:63-76 | the output has one line per emission plus one per separator |
| PreprocessorProperties.LineCount | md2docx.py:58-77 | the output has as many lines as the input plus the number of separators inserted |
| PreprocessorProperties.KeptTextsAreLines | md2docx.py:63-76 | dropping the separators leaves the emitted lines, in order |
| PreprocessorProperties.LinesPreserved | md2docx.py:58-77 | dropping the separators leaves one line per input line, in order, each the input line without its newline, unchanged or with exactly two spaces appended |
| PreprocessorProperties.FlankedStep | md2docx.py:63-65 | appending an emission keeps every separator between two non-empty lines, the second a block start |
| PreprocessorProperties.SeparatorSurroundings | md2docx.py:62-64 | a separator before line `i` needs a previous, non-empty line, and comes before the line itself, non-empty and taking the block branch |
| PreprocessorProperties.EmissionsJustified | md2docx.py:62-66 | every separator follows a non-empty emitted line and precedes a non-empty block start |
| PreprocessorProperties.FlankedLayout | md2docx.py:62-77 | in the whole output, every separator sits between two non-empty lines |
| PreprocessorProperties.SeparatorPlacement | md2docx.py:61-66 | every inserted separator is `""`, is neither the first nor the last line, has a non-empty line on both sides, and the line after it is a block start and never a table row; so separators never make two empty lines meet |
| PreprocessorProperties.MarkerIsStartsWith | md2docx.py:50-54 | the character tests of the model are the `startswith` tests of `is_block_start` |
| PreprocessorProperties.BlockStartIsNotTableRow | md2docx.py:61-62 | a block start is never a table row, so the table-row test only matters for other lines |
| PreprocessorProperties.BlockStartUnchanged | md2docx.py:62-66 | a block-start line is emitted unchanged, with a separator before it exactly when it is non-empty and the previous line is non-empty |
| PreprocessorProperties.TableRowNeverSeparated | md2docx.py:61-64 | no separator is ever put before a table row |
| PreprocessorProperties.WhitespaceLine | md2docx.py:55-66 | a whitespace-only line is kept as it is, gets a separator exactly after a non-empty line, and leaves `prev_blank` false |
| PreprocessorProperties.HardBreakRule | md2docx.py:70-74 | a line is changed exactly when it is no block start, is non-empty, is dense, does not end in two spaces, and the next line (`""` after the last) is non-empty and opens no block |
| PreprocessorProperties.HardBreakIdempotent | md2docx.py:73 | a line that got its hard break is never extended again |
| PreprocessorProperties.OutputOfTwo | md2docx.py:63-76 | the output of two emissions, written out |
| PreprocessorProperties.PreprocessTwo | md2docx.py:58-77 | the output of a two-line input, line by line |
| PreprocessorProperties.TwoTableRows | md2docx.py:59-71 | two concrete table rows, one holding a dollar sign, are no block starts, and only the one with the dollar sign is dense |
| PreprocessorProperties.TableRowGetsHardBreak | md2docx.py:61-74 | a table row holding a dollar sign, followed by another row, comes out with two spaces appended and the second row unchanged: table rows are not exempt from the hard break |
| PreprocessorProperties.BodyLine | md2docx.py:48-56 | a plain line is no block start and not dense |
| PreprocessorProperties.TitleLine | md2docx.py:48-56 | a heading is a block start |
| PreprocessorProperties.SeparatorBeforeHeading | md2docx.py:62-65 | body text followed by a heading gets an empty line between them |
| PreprocessorProperties.NoSeparatorAfterHeading | md2docx.py:62-65 | a heading followed by body text gets none |
| PreprocessorProperties.OutputWithoutNewlines | md2docx.py:63-76 | the output holds a newline only where an emitted line does |
| PreprocessorProperties.PersistedTextReadsBack | md2docx.py:79-80 | the text written to the temporary file, split at newlines, gives back the output lines: it is the lines joined by `"\n"` with no newline at the end |
| CellCleaner.LastNonSpace | md2docx.py:115-116 | the position of the last non-whitespace character lies inside the string, or is -1 |
| CellCleaner.ParagraphTexts | md2docx.py:122 | one text per paragraph |
| CellCleaner.FormatParagraph | md2docx.py:144-147 | the loop over the runs sets every run to Consolas at 10 points and then aligns the paragraph left: exactly `FormulaParagraph` |
| CellCleaner.ReplaceCellText | md2docx.py:134-138 | the loop over the paragraphs gives exactly `ReplacedCell` |
| CellCleaner.FormatCell | md2docx.py:143-147 | the loop over the paragraphs gives exactly `FormulaCell` |
| CellCleaner.CleanCell | md2docx.py:122-147 | the body of the loop over cells gives exactly `CleanedCell` |
| CellCleaner.CleanRow | md2docx.py:120 | the loop over the cells of a row cleans each cell and nothing else |
| CellCleaner.CleanTable | md2docx.py:119 | the loop over the rows cleans each row and nothing else |
| CellCleaner.Document.constructor | md2docx.py:114 | the document holds the tables it was opened with |
| CellCleaner.Document.CleanTableCells | md2docx.py:118-147 | the pass replaces the tables by `CleanedTables` of the tables it found |
| CellCleanerProperties.ClosedAtLastNonSpace | md2docx.py:115-116 | a `$` followed by nothing but whitespace is the last non-whitespace character |
| CellCleanerProperties.InlineMatchSpec | md2docx.py:115-128 | `MatchInline` succeeds exactly when `^\s\$(.+)\$\s*$` matches, and returns the group the match captures |
| CellCleanerProperties.BlockMatchSpec | md2docx.py:116-130 | `MatchBlock` succeeds exactly when `^\s\$\$(.+)\$\$\s*$` matches, and returns the group the match captures |
| CellCleanerProperties.BlockMatchImpliesInline | md2docx.py:115-130 | whatever the block pattern matches, the inline pattern matches too, with `"$" + group + "$"`, so the `elif` never runs |
| CellCleanerProperties.NoMatchWithoutLeadingSpace | md2docx.py:115-116 | neither pattern matches a string that is empty or starts with a non-space |
| CellCleanerProperties.DollarBranchDead | md2docx.py:122-132 | neither pattern matches `full_text`, so `cleaned` is always `None` |
| CellCleanerProperties.InlineExample | md2docx.py:115-128 | the inline pattern does match `" $x+1$ "`, with group `x+1` |
| CellCleanerProperties.WrappedFormulaText | md2docx.py:122 | the `full_text` of a cell holding `" $x+1$ "` is `"$x+1$"` |
| CellCleanerProperties.WrappedFormulaKept | md2docx.py:122-147 | that cell comes out of the pass unchanged, dollars included |
| CellCleanerProperties.StripExample | md2docx.py:122 | `" $x+1$ "` strips to `"$x+1$"` |
| CellCleanerProperties.ReplacedCellSpec | md2docx.py:134-138 | the dead branch would give each paragraph the cleaned text as its one unformatted run, keeping the paragraph count and alignments |
| CellCleanerProperties.RunsTextSingle | md2docx.py:122 | a paragraph of one run has that run's text |
| CellCleanerProperties.FormulaRunsText | md2docx.py:144-146 | setting the font keeps the text of the runs |
| CellCleanerProperties.FormulaCellSpec | md2docx.py:142-147 | in a formula cell the paragraph and run counts stay, every run keeps its text and gets font Consolas and size `Pt(10)`, every paragraph gets LEFT alignment, and `full_text` is unchanged |
| CellCleanerProperties.FormulaCellsFormatted | md2docx.py:142-147 | a cell whose `full_text` starts with `=` gets the formula formatting |
| CellCleanerProperties.OtherCellsUnchanged | md2docx.py:132-147 | every other cell is left exactly as it was |
| CellCleanerProperties.CleanKeepsText | md2docx.py:118-147 | the pass never changes a paragraph's text, a cell's `full_text`, or the number of paragraphs and runs |
| CellCleanerProperties.CleanIdempotent | md2docx.py:118-147 | cleaning a cell twice is cleaning it once, so a merged cell visited several times ends up as if visited once |
| CellCleanerProperties.FormulaParagraphIdempotent | md2docx.py:144-147 | formatting a paragraph twice is formatting it once |
| CellCleanerProperties.CleanedTablesSpec | md2docx.py:118-120 | the pass keeps the number of tables, rows and cells, and replaces every cell by its cleaned form |

## Left out

- `main`, argument parsing and the default output path (md2docx.py:151-185) are not part of this model: they are command-line plumbing.
- `check_pandoc` and `convert_md_to_docx` (md2docx.py:32-33, 84-105) are not part of this model: they look up and run the external Pandoc program.
- Reading the input file, UTF-8 decoding and the newline translation of `readlines` are left out: the input is given as the sequence of lines, each still ending in whatever newlines it had.
- Creating, writing and closing the temporary file is left out: `PreprocessMarkdown` returns the text it would write, and the file name it would return is not modelled.
- Opening and saving the Word document (md2docx.py:114, 149) are left out: `Document` holds the tables as values.
- python-docx internals are left out. A paragraph's text is the concatenation of its runs' texts; text in hyperlinks and other non-run content is not modelled.
- Setting `paragraph.text` is modelled by its effect: all runs replaced by one run with the new text and no direct formatting, alignment kept. The `r.clear()` loop before it (md2docx.py:136-137) is therefore not modelled separately, as the cleared runs are removed in any case.
- In python-docx, `row.cells` yields the same cell more than once for a merged cell. The model treats every cell as distinct. `CleanIdempotent` shows that visiting a cell twice gives the same result as visiting it once.
- Only the two fixed regular expressions are modelled, not a general regular-expression engine.
- Font sizes are lengths in EMU, as python-docx stores them: `Pt(10)` is 127000.
