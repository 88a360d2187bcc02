# preparePrompt — a verified model of llama-coder's prompt builder

The extension sends a fill-in-the-middle prompt to a local model: the text
before the cursor (`prefix`) and the text after it (`suffix`). `preparePrompt`
builds that pair in three steps, and this project models each one in Dafny.

1. **Line windowing.** The document text is cut at the cursor offset. Each
   side is then clamped to a number of lines, using the JavaScript
   `split("\n")`, `Math.min`, `slice` and `join("\n")` arithmetic exactly as
   written, including `slice`'s handling of negative indices.
2. **Notebook aggregation.** When the document is a cell of an open notebook,
   one ordered pass renders every other cell.
   - Code cells are emitted verbatim.
   - Markup cells become line comments when the language has a comment token
     and `includeMarkup` is on. With a token and `includeMarkup` off they are
     dropped; without a token they are emitted verbatim.
   - When `includeCellOutputs` is on and a comment token exists, code cells
     before the edited cell also get their `text/plain` outputs, each cut to
     `cellOutputLimit` characters, as a commented `Output:` block.
   - The pass appends each rendering to `prefixCells` until it reaches the
     edited cell, and to `suffixCells` after it.
3. **Composition.** The notebook parts frame the windowed text:
   `prefixCells + prefix` and `suffix + suffixCells`. When a language was
   detected, the file-header writer is applied to the prefix only.

Files:

- `js_text.dfy`: the JavaScript primitives (`split`, `join`, `slice` index
  normalisation) and their algebra.
- `windowing.dfy`: the two windows.
- `notebook.dfy`: the data model of cells, the positional specification
  (`Partition`), the callback as the fold `Run`/`Step`, and the imperative
  pass proved equal to it.
- `prompt.dfy`: the notebook lookup, the comment-token lookup, the whole
  prompt (`PromptFor`) and the method `PreparePrompt`.

**The prefix window does not keep `lineCount` lines.** Both windows
compute `lineCount = min(L - 1, N) + 1` over the `L` pieces of the split text.
The suffix keeps the first `lineCount` pieces. The prefix slices from
`L - lineCount - 1`, one piece before the last `lineCount`:

- When `L > N + 1` it keeps the last `N + 2` lines, so `"a\nb\n"` with
  `N = 1` comes back whole.
- When `L <= N + 1` the start index is `-1`, which `slice` reads as `L - 1`.
  Only the cursor line survives, so `"a\nb"` with `N = 5` becomes `"b"`.
- The model follows the code. `Windowing.PrefixWindowLines` states both cases
  and `Windowing.PrefixWindowExamples` proves the two examples.

## Model

| member | source | states |
|---|---|---|
| JsText.Split | src/prompts/preparePrompt.ts:22 | `split("\n")` yields one more piece than there are line breaks, and no piece holds a line break |
| JsText.Join | src/prompts/preparePrompt.ts:24-31 | `join("\n")` of a non-empty array starts with its first element; `JoinSplit`, `SplitJoin` and `JoinAt` give the rest |
| JsText.Slice | src/prompts/preparePrompt.ts:20-31 | `slice` with indices inside the sequence is the plain subsequence, and is empty when the normalised end is not after the normalised start |
| JsText.RelativeIndex | src/prompts/preparePrompt.ts:24 | a `slice` index in range is kept; a negative one counts from the end and stops at 0; one past the end stops at the length |
| JsText.SliceAtCut | src/prompts/preparePrompt.ts:20-27 | for every offset, `text.slice(0, offset) + text.slice(offset)` is the whole text |
| JsText.SliceHead | src/prompts/preparePrompt.ts:79 | `slice(0, n)` with `n >= 0` is a prefix of length `min(n, len)` |
| JsText.SplitUnbroken | src/prompts/preparePrompt.ts:22 | a string without a line break splits into itself alone |
| JsText.SplitAroundBreak | src/prompts/preparePrompt.ts:22 | splitting `a + "\n" + b` is splitting `a` and `b` separately |
| JsText.JoinSplit | src/prompts/preparePrompt.ts:22-24 | `split("\n")` then `join("\n")` gives the string back |
| JsText.SplitJoin | src/prompts/preparePrompt.ts:22-24 | joining break-free lines and splitting again gives the lines back |
| JsText.SplitInjective | src/prompts/preparePrompt.ts:22 | two strings with the same pieces are equal |
| JsText.JoinAt | src/prompts/preparePrompt.ts:24 | a join cut between two lines is the two joins glued by one line break |
| Windowing.PrefixWindow | src/prompts/preparePrompt.ts:20-25 | a negative `prefixMaxLines` leaves the prefix exactly as sliced |
| Windowing.SuffixWindow | src/prompts/preparePrompt.ts:27-32 | a negative `suffixMaxLines` leaves the suffix exactly as sliced |
| Windowing.PrefixWindowLines | src/prompts/preparePrompt.ts:21-25 | the windowed prefix is a tail of the prefix; with `L > N + 1` lines it is the last `N + 2` lines, otherwise only the last line |
| Windowing.SuffixWindowLines | src/prompts/preparePrompt.ts:28-32 | the windowed suffix is a head of the suffix made of its first `min(L, N + 1)` lines, and is the whole suffix when `L <= N + 1` |
| Windowing.PrefixWindowIdempotent | src/prompts/preparePrompt.ts:21-25 | windowing the prefix twice with the same bound equals windowing it once |
| Windowing.SuffixWindowIdempotent | src/prompts/preparePrompt.ts:28-32 | windowing the suffix twice with the same bound equals windowing it once |
| Windowing.PrefixWindowExamples | src/prompts/preparePrompt.ts:23-24 | `"a\nb\n"` with one line allowed comes back whole; `"a\nb"` with five allowed becomes `"b"` |
| Notebook.Commented | src/prompts/preparePrompt.ts:61-62 | every line becomes the comment token followed by that line, in order |
| Notebook.PlainTextLines | src/prompts/preparePrompt.ts:79 | an item yields at least one break-free line; with a non-negative limit the lines join back to exactly the first `min(limit, length)` characters of the payload |
| Notebook.ItemLines | src/prompts/preparePrompt.ts:76-79 | an output's lines are break-free, and there are some iff one of its items is `text/plain` |
| Notebook.OtherItemsIgnored | src/prompts/preparePrompt.ts:77 | an item of any other MIME type adds no lines wherever it stands |
| Notebook.OutputLines | src/prompts/preparePrompt.ts:75-80 | the flattened lines are break-free, and there are some iff some output has a `text/plain` item |
| Notebook.ItemLinesAppend | src/prompts/preparePrompt.ts:76-79 | the lines of a run of items are each item's lines, in item order |
| Notebook.ItemLinesSingle | src/prompts/preparePrompt.ts:77-79 | one item yields its truncated `text/plain` lines, or nothing for another MIME type |
| Notebook.OutputLinesAppend | src/prompts/preparePrompt.ts:75-80 | the flattened lines of a run of outputs are each output's lines, in output order |
| Notebook.PlainTextOutput | src/prompts/preparePrompt.ts:75-80 | an output with one `text/plain` item contributes exactly the first `min(limit, length)` characters of its payload |
| Notebook.CellBody | src/prompts/preparePrompt.ts:59-67 | code cells, and markup without a comment token, are verbatim; markup with a token and `includeMarkup` off is empty |
| Notebook.OutputBlock | src/prompts/preparePrompt.ts:70-88 | the block is non-empty iff outputs are on, the cell is code before the current one, a comment token exists and there are output lines; it then starts with a line break |
| Notebook.FirstMatch | src/prompts/preparePrompt.ts:53-54 | the index of the first cell with the document's fragment, or the cell count when there is none |
| Notebook.FirstMatchIsFirst | src/prompts/preparePrompt.ts:53-54 | no cell before that index has the document's fragment |
| Notebook.Partition | src/prompts/preparePrompt.ts:45-95 | with no current cell every cell renders into `prefixCells`, in order, and `suffixCells` is `""` |
| Notebook.Step | src/prompts/preparePrompt.ts:51-97 | the callback only appends, to one side at a time; once cleared the flag stays cleared; the current cell clears it and adds nothing |
| Notebook.Run | src/prompts/preparePrompt.ts:50-97 | after the callback has run on `n` cells the flag is still set iff none of them is the current cell |
| Notebook.AppendComments | src/prompts/preparePrompt.ts:61-63 | the loop appends `"\n" + commentStart + line` for every line, in order |
| Notebook.RenderCell | src/prompts/preparePrompt.ts:51-88 | the callback's `out` for a cell that is not current is its body followed by its output block |
| Notebook.VisitCell | src/prompts/preparePrompt.ts:50-97 | one callback call: the current cell clears the flag and adds nothing; any other cell's rendering goes to the side the flag selects |
| Notebook.AggregateCells | src/prompts/preparePrompt.ts:45-97 | the pass leaves in `prefixCells` the cells before the first current cell and in `suffixCells` those after it, each rendered in order |
| Notebook.RunPositions | src/prompts/preparePrompt.ts:45-97 | after `n` cells the flag says whether the current cell is still ahead, and the two strings hold the cells before it and the visited cells after it |
| Notebook.RunIsPartition | src/prompts/preparePrompt.ts:45-97 | the pass ends in the positional partition of the cells |
| Notebook.RenderSnoc | src/prompts/preparePrompt.ts:91-95 | rendering one more cell appends exactly that cell's contribution |
| Notebook.RenderSkipsCurrent | src/prompts/preparePrompt.ts:53-56 | cells with the current fragment contribute nothing: rendering all cells equals rendering the others |
| Notebook.FirstMatchAfter | src/prompts/preparePrompt.ts:53-54 | cells that are not current before some others push the first match back by their number |
| Notebook.PartitionAroundCurrent | src/prompts/preparePrompt.ts:45-95 | with cells `before`, the current cell and `after`, `prefixCells` renders `before` and `suffixCells` renders `after`, in order |
| Notebook.RangeAfterIgnoresOutputs | src/prompts/preparePrompt.ts:70-73 | after the current cell the rendering is the same with cell outputs switched off |
| Notebook.SuffixCellsHaveNoOutputs | src/prompts/preparePrompt.ts:70-95 | `suffixCells` never holds an output block |
| Notebook.CommentLinesSplit | src/prompts/preparePrompt.ts:61-63 | the comment block splits into an empty first piece and one comment per line |
| Notebook.CommentLinesCons | src/prompts/preparePrompt.ts:83-86 | the `Output:` line followed by the output lines is one comment block |
| Notebook.MarkupAsComments | src/prompts/preparePrompt.ts:59-64 | an included markup cell is a leading break and one line comment per line of its text |
| Notebook.OutputBlockShape | src/prompts/preparePrompt.ts:70-87 | the output block exists iff outputs are on, the cell is code before the current one, a token exists and some item is `text/plain`; it is the `Output:` comment followed by one comment per output line |
| Prompts.GetNotebookDocument | src/prompts/preparePrompt.ts:9-12 | a found notebook has the document's URI path |
| Prompts.GetNotebookDocumentFirst | src/prompts/preparePrompt.ts:9-12 | nothing is found iff no notebook has the path, and a found notebook is the first with it |
| Prompts.CommentStart | src/prompts/preparePrompt.ts:38-42 | a token exists iff a language was detected and its table entry has a comment syntax; it is that syntax's `start` |
| Prompts.Framed | src/prompts/preparePrompt.ts:17-101 | the windowed text stays next to the cursor, at the end of the prefix and the start of the suffix; outside a notebook it is the whole prompt |
| Prompts.PromptFor | src/prompts/preparePrompt.ts:14-122 | the header is applied to the framed prefix iff a language was detected; the suffix is the framed suffix |
| Prompts.PreparePrompt | src/prompts/preparePrompt.ts:14-122 | the returned pair is the windowed text, framed by the notebook's other cells, with the header on the prefix when a language was detected |
| Prompts.SuffixIgnoresHeaders | src/prompts/preparePrompt.ts:114-116 | the suffix does not depend on the header writer |
| Prompts.UnlimitedPlainPromptIsText | src/prompts/preparePrompt.ts:17-32 | for a plain document with both bounds negative, prefix + suffix is the whole text |
| Prompts.PlainPromptBracketsCursor | src/prompts/preparePrompt.ts:17-32 | for a plain document the prefix is a tail of the text before the cursor and the suffix a head of the text after it, within the line bounds |
| Prompts.NotebookPromptAroundCell | src/prompts/preparePrompt.ts:99-100 | in a notebook the prefix is the earlier cells followed by the windowed prefix, and the suffix is the windowed suffix followed by the later cells |
| Prompts.SuffixWithoutOutputs | src/prompts/preparePrompt.ts:70-100 | the prompt's suffix is the same with cell outputs switched off |

## Left out

- The VS Code API is not modelled; its results are inputs. The document is
  its text, URI path, fragment and file-system path; the cursor is an
  offset; the open notebooks are a sequence; `getCells()` is a cell sequence.
- `TextDecoder` (lines 7, 78) is a foreign call. Output payloads are given
  as already-decoded strings.
- `detectLanguage`, the `languages` table and `fileHeaders` are imported from
  files that are not part of this model. The detected language is an input,
  and the table and the header writer are function parameters. Header
  formatting is not modelled.
- The `config` object is not loaded; its `notebook` section is a plain input.
- The `async` wrapper and the unused `context` parameter are not modelled.
- The commented-out suffix trimming (lines 103-108) is dead code and is not
  modelled.
- JavaScript numbers are modelled as unbounded integers. Fractional,
  infinite and `NaN` line bounds or output limits are not modelled.
- Strings are sequences of Dafny `char`s, which are Unicode scalar values,
  while `offsetAt` and `slice` count UTF-16 code units. Text outside the Basic
  Multilingual Plane (emoji, for instance) is not modelled: there the model's
  offsets and the output limit would cut at other places, and a cut inside a
  surrogate pair cannot be represented.
- Notebook.PlainTextLines: says nothing about a negative `cellOutputLimit`.
  `slice` then drops characters from the end of the payload; that case is
  modelled in the function body but not stated in the contract.
