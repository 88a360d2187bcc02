/**
 * Notebook cell aggregation (`preparePrompt`, src/prompts/preparePrompt.ts
 * lines 44-101): one ordered pass over the notebook's cells that renders
 * every cell other than the one being edited and appends the result to
 * `prefixCells` while the pass is before that cell, to `suffixCells` after it.
 *
 * The specification is positional: `FirstMatch` finds the cell being
 * edited, `RenderRange` concatenates what a run of cells contributes, and
 * `Partition` splits the notebook at that cell. The pass itself is the fold
 * `Run` of the callback `Step`; `RunIsPartition` proves that the fold ends in
 * the partition. The methods `RenderCell`, `VisitCell` and `AggregateCells`
 * are the imperative code, each proved equal to its function.
 */
module Notebook {
  import opened Options
  import opened JsText
  import opened Windowing

  const PLAIN_TEXT := "text/plain"
  const OUTPUT_LABEL := "Output:"

  datatype CellKind = Markup | Code

  /** One item of a cell output; `text` is the payload already decoded as UTF-8. */
  datatype OutputItem = OutputItem(mime: string, text: string)

  datatype CellOutput = CellOutput(items: seq<OutputItem>)

  /** A notebook cell; `fragment` is the fragment of the cell document's URI. */
  datatype Cell = Cell(kind: CellKind, fragment: string, text: string, outputs: seq<CellOutput>)

  /** The `notebook` section of the extension's configuration. */
  datatype NotebookConfig = NotebookConfig(includeMarkup: bool, includeCellOutputs: bool, cellOutputLimit: int)

  datatype Fragments = Fragments(prefixCells: string, suffixCells: string)

  /** The comment token is used only when it is truthy: present and not `""`. */
  predicate HasComment(commentStart: Option<string>)
  {
    commentStart.Some? && commentStart.value != ""
  }

  /** What the loops `out += "\n" + commentStart + line` append for `lines`. */
  function CommentLines(commentStart: string, lines: seq<string>): string
  {
    if lines == [] then ""
    else CommentLines(commentStart, lines[..|lines| - 1]) + "\n" + commentStart + lines[|lines| - 1]
  }

  /** Each line turned into a line comment. */
  function Commented(commentStart: string, lines: seq<string>): (r: seq<string>)
    ensures |r| == |lines|
    ensures forall i :: 0 <= i < |lines| ==> r[i] == commentStart + lines[i]
  {
    if lines == [] then []
    else Commented(commentStart, lines[..|lines| - 1]) + [commentStart + lines[|lines| - 1]]
  }

  /**
   * The body of a cell (lines 59-67). Markup is emitted only as comments, and
   * only when `includeMarkup` is on; code cells, and markup when there is no
   * comment token, are emitted verbatim.
   */
  function CellBody(cell: Cell, commentStart: Option<string>, config: NotebookConfig): (r: string)
    ensures cell.kind == Code ==> r == cell.text
    ensures !HasComment(commentStart) ==> r == cell.text
    ensures cell.kind == Markup && HasComment(commentStart) && !config.includeMarkup ==> r == ""
  {
    if cell.kind == Markup && HasComment(commentStart) then
      if config.includeMarkup then CommentLines(commentStart.value, Split(cell.text)) else ""
    else cell.text
  }

  /** The lines of one `text/plain` item: its first `limit` characters, split (line 79). */
  function PlainTextLines(item: OutputItem, limit: int): (lines: seq<string>)
    ensures |lines| >= 1 && NoBreaks(lines)
    ensures limit >= 0 ==> Join(lines) == item.text[..Min(limit, |item.text|)]
  {
    var kept := Slice(item.text, 0, limit);
    JoinSplit(kept);
    if limit >= 0 then SliceHead(item.text, limit); Split(kept) else Split(kept)
  }

  predicate HasPlainText(items: seq<OutputItem>)
  {
    exists k :: 0 <= k < |items| && items[k].mime == PLAIN_TEXT
  }

  /** The `text/plain` lines of one output, in item order (lines 76-79). */
  function ItemLines(items: seq<OutputItem>, limit: int): (lines: seq<string>)
    ensures NoBreaks(lines)
    ensures |lines| > 0 <==> HasPlainText(items)
  {
    if items == [] then []
    else
      var rest := ItemLines(items[1..], limit);
      assert HasPlainText(items) <==> items[0].mime == PLAIN_TEXT || HasPlainText(items[1..]) by {
        if HasPlainText(items[1..]) {
          var k :| 0 <= k < |items[1..]| && items[1..][k].mime == PLAIN_TEXT;
          assert items[k + 1].mime == PLAIN_TEXT;
        }
        if HasPlainText(items) && items[0].mime != PLAIN_TEXT {
          var k :| 0 <= k < |items| && items[k].mime == PLAIN_TEXT;
          assert items[1..][k - 1].mime == PLAIN_TEXT;
        }
      }
      (if items[0].mime == PLAIN_TEXT then PlainTextLines(items[0], limit) else []) + rest
  }

  /** All `text/plain` lines of a cell's outputs, flattened in order (lines 75-80). */
  function OutputLines(outputs: seq<CellOutput>, limit: int): (lines: seq<string>)
    ensures NoBreaks(lines)
    ensures |lines| > 0 <==> exists j :: 0 <= j < |outputs| && HasPlainText(outputs[j].items)
  {
    if outputs == [] then []
    else
      var rest := OutputLines(outputs[1..], limit);
      assert (exists j :: 0 <= j < |outputs| && HasPlainText(outputs[j].items)) <==>
             HasPlainText(outputs[0].items) || exists j :: 0 <= j < |outputs[1..]| && HasPlainText(outputs[1..][j].items)
      by {
        if exists j :: 0 <= j < |outputs| && HasPlainText(outputs[j].items) {
          var j :| 0 <= j < |outputs| && HasPlainText(outputs[j].items);
          if j > 0 {
            assert HasPlainText(outputs[1..][j - 1].items);
          }
        }
      }
      ItemLines(outputs[0].items, limit) + rest
  }

  /** Items of any other MIME type add no lines, wherever they stand (line 77). */
  lemma {:induction false} OtherItemsIgnored(before: seq<OutputItem>, item: OutputItem, after: seq<OutputItem>, limit: int)
    requires item.mime != PLAIN_TEXT
    ensures ItemLines(before + [item] + after, limit) == ItemLines(before + after, limit)
    decreases |before|
  {
    if before == [] {
      assert [item] + after == before + [item] + after;
      assert (before + [item] + after)[1..] == after;
      assert before + after == after;
    } else {
      OtherItemsIgnored(before[1..], item, after, limit);
      assert (before + [item] + after)[1..] == before[1..] + [item] + after;
      assert (before + after)[1..] == before[1..] + after;
      assert (before + [item] + after)[0] == before[0] == (before + after)[0];
    }
  }

  /** The lines of a non-empty run of items: the first item's, then the rest's. */
  lemma {:induction false} ItemLinesCons(items: seq<OutputItem>, limit: int)
    requires items != []
    ensures ItemLines(items, limit)
         == (if items[0].mime == PLAIN_TEXT then PlainTextLines(items[0], limit) else []) + ItemLines(items[1..], limit)
  {
  }

  /** The lines of a run of items are those of each item, in item order (lines 76-79). */
  lemma {:induction false} ItemLinesAppend(a: seq<OutputItem>, b: seq<OutputItem>, limit: int)
    ensures ItemLines(a + b, limit) == ItemLines(a, limit) + ItemLines(b, limit)
    decreases |a|
  {
    if a == [] {
      assert a + b == b;
    } else {
      ItemLinesAppend(a[1..], b, limit);
      ItemLinesCons(a + b, limit);
      ItemLinesCons(a, limit);
      TailOfAppend(a, b);
      AppendAssoc(if a[0].mime == PLAIN_TEXT then PlainTextLines(a[0], limit) else [],
                  ItemLines(a[1..], limit), ItemLines(b, limit));
    }
  }

  /** A single `text/plain` item yields exactly its own truncated lines (line 79). */
  lemma {:induction false} ItemLinesSingle(item: OutputItem, limit: int)
    ensures ItemLines([item], limit) == if item.mime == PLAIN_TEXT then PlainTextLines(item, limit) else []
  {
    assert [item][1..] == [];
  }

  /** The lines of a non-empty run of outputs: the first output's, then the rest's. */
  lemma {:induction false} OutputLinesCons(outputs: seq<CellOutput>, limit: int)
    requires outputs != []
    ensures OutputLines(outputs, limit) == ItemLines(outputs[0].items, limit) + OutputLines(outputs[1..], limit)
  {
  }

  /** `.flat` keeps output order: the lines of a run of outputs are those of each output, in order (line 80). */
  lemma {:induction false} OutputLinesAppend(a: seq<CellOutput>, b: seq<CellOutput>, limit: int)
    ensures OutputLines(a + b, limit) == OutputLines(a, limit) + OutputLines(b, limit)
    decreases |a|
  {
    if a == [] {
      assert a + b == b;
    } else {
      var head := ItemLines(a[0].items, limit);
      var restA := OutputLines(a[1..], limit);
      var linesB := OutputLines(b, limit);
      OutputLinesAppend(a[1..], b, limit);
      TailOfAppend(a, b);
      OutputLinesCons(a + b, limit);
      assert OutputLines(a + b, limit) == head + (restA + linesB);
      OutputLinesCons(a, limit);
      assert OutputLines(a, limit) == head + restA;
      AppendAssoc(head, restA, linesB);
    }
  }

  /**
   * An output holding one `text/plain` item contributes that payload cut to
   * its first `limit` characters, line by line (lines 75-80).
   */
  lemma {:induction false} PlainTextOutput(item: OutputItem, limit: int)
    requires item.mime == PLAIN_TEXT && limit >= 0
    ensures Join(OutputLines([CellOutput([item])], limit)) == item.text[..Min(limit, |item.text|)]
  {
    var output := CellOutput([item]);
    ItemLinesSingle(item, limit);
    assert [output][1..] == [];
    assert OutputLines([output], limit) == ItemLines([item], limit) + [];
    assert OutputLines([output], limit) == PlainTextLines(item, limit);
  }

  /** The output block appended to a code cell before the current one (lines 70-88). */
  function OutputBlock(cell: Cell, commentStart: Option<string>, config: NotebookConfig, beforeCurrentCell: bool): (r: string)
    ensures r != "" <==> config.includeCellOutputs && beforeCurrentCell && cell.kind == Code && HasComment(commentStart)
                         && OutputLines(cell.outputs, config.cellOutputLimit) != []
    ensures r != "" ==> r[0] == '\n'
  {
    if config.includeCellOutputs && beforeCurrentCell && cell.kind == Code && HasComment(commentStart) then
      var lines := OutputLines(cell.outputs, config.cellOutputLimit);
      if |lines| > 0 then "\n" + commentStart.value + OUTPUT_LABEL + CommentLines(commentStart.value, lines)
      else ""
    else ""
  }

  /** The `out` string built for a cell that is not the current one. */
  function CellOut(cell: Cell, commentStart: Option<string>, config: NotebookConfig, beforeCurrentCell: bool): string
  {
    CellBody(cell, commentStart, config) + OutputBlock(cell, commentStart, config, beforeCurrentCell)
  }

  /** What a cell adds to the side it falls on; the current cell adds nothing (lines 53-56). */
  function Contribution(cell: Cell, current: string, commentStart: Option<string>, config: NotebookConfig, beforeCurrentCell: bool): string
  {
    if cell.fragment == current then "" else CellOut(cell, commentStart, config, beforeCurrentCell)
  }

  /** What `cells[lo..hi]` contribute, concatenated in order; empty when `hi <= lo`. */
  function RenderRange(cells: seq<Cell>, lo: nat, hi: nat, current: string, commentStart: Option<string>, config: NotebookConfig, beforeCurrentCell: bool): string
    requires hi <= |cells|
    decreases hi
  {
    if hi <= lo then ""
    else RenderRange(cells, lo, hi - 1, current, commentStart, config, beforeCurrentCell)
         + Contribution(cells[hi - 1], current, commentStart, config, beforeCurrentCell)
  }

  /** What all of `cells` contribute, concatenated in order. */
  function Render(cells: seq<Cell>, current: string, commentStart: Option<string>, config: NotebookConfig, beforeCurrentCell: bool): string
  {
    RenderRange(cells, 0, |cells|, current, commentStart, config, beforeCurrentCell)
  }

  /** The index of the first cell whose fragment is `current`, or `|cells|` if there is none. */
  function FirstMatch(cells: seq<Cell>, current: string): (k: nat)
    ensures k <= |cells|
    ensures k < |cells| ==> cells[k].fragment == current
  {
    if cells == [] then 0
    else if cells[0].fragment == current then 0
    else 1 + FirstMatch(cells[1..], current)
  }

  /** No cell before the first match is current. */
  lemma {:induction false} FirstMatchIsFirst(cells: seq<Cell>, current: string, j: nat)
    requires j < FirstMatch(cells, current)
    ensures cells[j].fragment != current
    decreases j
  {
    if j > 0 {
      FirstMatchIsFirst(cells[1..], current, j - 1);
    }
  }

  /**
   * The two fragments the pass produces: the cells before the first current
   * cell render into `prefixCells`, those after it into `suffixCells`. With
   * no current cell, `k == |cells|`: everything renders into `prefixCells`
   * and `suffixCells` is `""`.
   */
  function Partition(cells: seq<Cell>, current: string, commentStart: Option<string>, config: NotebookConfig): (r: Fragments)
    ensures (forall j :: 0 <= j < |cells| ==> cells[j].fragment != current) ==>
              r == Fragments(Render(cells, current, commentStart, config, true), "")
  {
    var k := FirstMatch(cells, current);
    Fragments(RenderRange(cells, 0, k, current, commentStart, config, true),
              RenderRange(cells, k + 1, |cells|, current, commentStart, config, false))
  }

  /** The loops `for (const line of lines) out += "\n" + commentStart + line` (lines 61-63, 84-86). */
  method AppendComments(out: string, commentStart: string, lines: seq<string>) returns (r: string)
    ensures r == out + CommentLines(commentStart, lines)
  {
    r := out;
    for i := 0 to |lines|
      invariant r == out + CommentLines(commentStart, lines[..i])
    {
      assert lines[..i + 1][..i] == lines[..i];
      r := r + "\n" + commentStart + lines[i];
    }
    assert lines[..|lines|] == lines;
  }

  /** The body of the `forEach` callback for a cell that is not the current one (lines 51-88). */
  method RenderCell(cell: Cell, commentStart: Option<string>, config: NotebookConfig, beforeCurrentCell: bool)
    returns (out: string)
    ensures out == CellOut(cell, commentStart, config, beforeCurrentCell)
  {
    out := "";
    if cell.kind == Markup && HasComment(commentStart) {
      if config.includeMarkup {
        out := AppendComments(out, commentStart.value, Split(cell.text));
      }
    } else {
      out := out + cell.text;
    }
    assert out == CellBody(cell, commentStart, config);
    var addCellOutputs := config.includeCellOutputs && beforeCurrentCell && cell.kind == Code && HasComment(commentStart);
    if addCellOutputs {
      var cellOutputs := OutputLines(cell.outputs, config.cellOutputLimit);
      if |cellOutputs| > 0 {
        out := out + "\n" + commentStart.value + OUTPUT_LABEL;
        out := AppendComments(out, commentStart.value, cellOutputs);
      }
    }
  }

  /** The variables of the pass: the flag and the two strings being built. */
  datatype PassState = PassState(beforeCurrentCell: bool, prefixCells: string, suffixCells: string)

  /**
   * One call of the `forEach` callback (lines 51-97) on the pass's variables.
   * It only appends, to one side at a time; once cleared the flag stays
   * cleared, and the current cell clears it without adding anything.
   */
  function Step(st: PassState, cell: Cell, current: string, commentStart: Option<string>, config: NotebookConfig): (r: PassState)
    ensures st.prefixCells <= r.prefixCells && st.suffixCells <= r.suffixCells
    ensures st.beforeCurrentCell ==> r.suffixCells == st.suffixCells
    ensures !st.beforeCurrentCell ==> r.prefixCells == st.prefixCells && !r.beforeCurrentCell
    ensures cell.fragment == current ==> r == st.(beforeCurrentCell := false)
  {
    PassState(
      st.beforeCurrentCell && cell.fragment != current,
      if st.beforeCurrentCell then st.prefixCells + Contribution(cell, current, commentStart, config, true) else st.prefixCells,
      if st.beforeCurrentCell then st.suffixCells else st.suffixCells + Contribution(cell, current, commentStart, config, false))
  }

  /**
   * The pass's variables after the callback has run on the first `n` cells:
   * the flag is still set exactly when none of them is the current cell.
   */
  function Run(cells: seq<Cell>, n: nat, current: string, commentStart: Option<string>, config: NotebookConfig): (r: PassState)
    requires n <= |cells|
    ensures r.beforeCurrentCell <==> forall j :: 0 <= j < n ==> cells[j].fragment != current
  {
    if n == 0 then PassState(true, "", "")
    else Step(Run(cells, n - 1, current, commentStart, config), cells[n - 1], current, commentStart, config)
  }

  /**
   * After `n` cells the flag says whether the current cell is still ahead,
   * `prefixCells` renders the cells before it and `suffixCells` the cells
   * after it, each in order.
   */
  lemma {:induction false} RunPositions(cells: seq<Cell>, n: nat, current: string, commentStart: Option<string>, config: NotebookConfig)
    requires n <= |cells|
    ensures var k := FirstMatch(cells, current);
            Run(cells, n, current, commentStart, config)
            == PassState(n <= k,
                         RenderRange(cells, 0, Min(n, k), current, commentStart, config, true),
                         RenderRange(cells, k + 1, n, current, commentStart, config, false))
  {
    if n > 0 {
      var i := n - 1;
      var k := FirstMatch(cells, current);
      RunPositions(cells, i, current, commentStart, config);
      var prev := Run(cells, i, current, commentStart, config);
      assert Run(cells, n, current, commentStart, config) == Step(prev, cells[i], current, commentStart, config);
      if i < k {
        FirstMatchIsFirst(cells, current, i);
        assert RenderRange(cells, 0, n, current, commentStart, config, true)
            == prev.prefixCells + Contribution(cells[i], current, commentStart, config, true);
      } else if k < i {
        assert RenderRange(cells, k + 1, n, current, commentStart, config, false)
            == prev.suffixCells + Contribution(cells[i], current, commentStart, config, false);
      }
    }
  }

  /** The pass ends in the positional partition. */
  lemma {:induction false} RunIsPartition(cells: seq<Cell>, current: string, commentStart: Option<string>, config: NotebookConfig)
    ensures var st := Run(cells, |cells|, current, commentStart, config);
            Fragments(st.prefixCells, st.suffixCells) == Partition(cells, current, commentStart, config)
  {
    RunPositions(cells, |cells|, current, commentStart, config);
    assert Min(|cells|, FirstMatch(cells, current)) == FirstMatch(cells, current);
  }

  /** The `forEach` callback (lines 51-97): the current cell flips the flag, any other is rendered. */
  method VisitCell(cell: Cell, current: string, commentStart: Option<string>, config: NotebookConfig,
                   beforeCurrentCell: bool, prefixCells: string, suffixCells: string)
    returns (beforeCurrentCell': bool, prefixCells': string, suffixCells': string)
    ensures PassState(beforeCurrentCell', prefixCells', suffixCells')
            == Step(PassState(beforeCurrentCell, prefixCells, suffixCells), cell, current, commentStart, config)
  {
    beforeCurrentCell', prefixCells', suffixCells' := beforeCurrentCell, prefixCells, suffixCells;
    if cell.fragment == current {
      beforeCurrentCell' := false;
      return;
    }
    var out := RenderCell(cell, commentStart, config, beforeCurrentCell);
    if beforeCurrentCell {
      prefixCells' := prefixCells + out;
    } else {
      suffixCells' := suffixCells + out;
    }
  }

  /** The pass over the cells (lines 45-97). */
  method AggregateCells(cells: seq<Cell>, current: string, commentStart: Option<string>, config: NotebookConfig)
    returns (prefixCells: string, suffixCells: string)
    ensures Fragments(prefixCells, suffixCells) == Partition(cells, current, commentStart, config)
  {
    var beforeCurrentCell := true;
    prefixCells, suffixCells := "", "";
    for i := 0 to |cells|
      invariant PassState(beforeCurrentCell, prefixCells, suffixCells) == Run(cells, i, current, commentStart, config)
    {
      beforeCurrentCell, prefixCells, suffixCells :=
        VisitCell(cells[i], current, commentStart, config, beforeCurrentCell, prefixCells, suffixCells);
    }
    RunIsPartition(cells, current, commentStart, config);
  }

  /** A range of a concatenation that lies in its first part renders as that part's range. */
  lemma {:induction false} RangeInFirst(a: seq<Cell>, b: seq<Cell>, lo: nat, hi: nat, current: string, commentStart: Option<string>, config: NotebookConfig, beforeCurrentCell: bool)
    requires hi <= |a|
    ensures RenderRange(a + b, lo, hi, current, commentStart, config, beforeCurrentCell)
         == RenderRange(a, lo, hi, current, commentStart, config, beforeCurrentCell)
    decreases hi
  {
    if lo < hi {
      RangeInFirst(a, b, lo, hi - 1, current, commentStart, config, beforeCurrentCell);
      assert (a + b)[hi - 1] == a[hi - 1];
    }
  }

  /** A range of a concatenation that lies in its second part renders as the shifted range. */
  lemma {:induction false} RangeInSecond(a: seq<Cell>, b: seq<Cell>, lo: nat, hi: nat, current: string, commentStart: Option<string>, config: NotebookConfig, beforeCurrentCell: bool)
    requires hi <= |b|
    ensures RenderRange(a + b, |a| + lo, |a| + hi, current, commentStart, config, beforeCurrentCell)
         == RenderRange(b, lo, hi, current, commentStart, config, beforeCurrentCell)
    decreases hi
  {
    if lo < hi {
      RangeInSecond(a, b, lo, hi - 1, current, commentStart, config, beforeCurrentCell);
      assert (a + b)[|a| + hi - 1] == b[hi - 1];
    }
  }

  /** Rendering one more cell appends what that cell contributes. */
  lemma {:induction false} RenderSnoc(cells: seq<Cell>, cell: Cell, current: string, commentStart: Option<string>, config: NotebookConfig, beforeCurrentCell: bool)
    ensures Render(cells + [cell], current, commentStart, config, beforeCurrentCell)
         == Render(cells, current, commentStart, config, beforeCurrentCell)
            + Contribution(cell, current, commentStart, config, beforeCurrentCell)
  {
    RangeInFirst(cells, [cell], 0, |cells|, current, commentStart, config, beforeCurrentCell);
    assert (cells + [cell])[|cells|] == cell;
  }

  /** The cells other than the current one. */
  function Others(cells: seq<Cell>, current: string): (r: seq<Cell>)
    ensures forall c :: c in r ==> c in cells && c.fragment != current
  {
    if cells == [] then []
    else
      var init := Others(cells[..|cells| - 1], current);
      var last := cells[|cells| - 1];
      if last.fragment == current then init else init + [last]
  }

  /** A cell whose fragment is the current one contributes nothing, wherever it stands. */
  lemma {:induction false} RenderSkipsCurrent(cells: seq<Cell>, current: string, commentStart: Option<string>, config: NotebookConfig, beforeCurrentCell: bool)
    ensures Render(cells, current, commentStart, config, beforeCurrentCell)
         == Render(Others(cells, current), current, commentStart, config, beforeCurrentCell)
    decreases |cells|
  {
    if cells != [] {
      var init := cells[..|cells| - 1];
      var last := cells[|cells| - 1];
      assert cells == init + [last];
      RenderSkipsCurrent(init, current, commentStart, config, beforeCurrentCell);
      RenderSnoc(init, last, current, commentStart, config, beforeCurrentCell);
      if last.fragment != current {
        RenderSnoc(Others(init, current), last, current, commentStart, config, beforeCurrentCell);
      }
    }
  }

  /** Cells that are not current push the first match back by their number. */
  lemma {:induction false} FirstMatchAfter(before: seq<Cell>, rest: seq<Cell>, current: string)
    requires forall j :: 0 <= j < |before| ==> before[j].fragment != current
    ensures FirstMatch(before + rest, current) == |before| + FirstMatch(rest, current)
    decreases |before|
  {
    if before != [] {
      var whole := before + rest;
      assert whole[0] == before[0];
      assert whole[1..] == before[1..] + rest;
      assert FirstMatch(whole, current) == 1 + FirstMatch(whole[1..], current);
      FirstMatchAfter(before[1..], rest, current);
    } else {
      assert before + rest == rest;
    }
  }

  /** The cells before the current one form the prefix range. */
  lemma {:induction false} PrefixRangeIsBefore(before: seq<Cell>, rest: seq<Cell>, current: string, commentStart: Option<string>, config: NotebookConfig)
    ensures RenderRange(before + rest, 0, |before|, current, commentStart, config, true) == Render(before, current, commentStart, config, true)
  {
    RangeInFirst(before, rest, 0, |before|, current, commentStart, config, true);
  }

  /** The cells after the current one form the suffix range. */
  lemma {:induction false} SuffixRangeIsAfter(before: seq<Cell>, cell: Cell, after: seq<Cell>, current: string, commentStart: Option<string>, config: NotebookConfig)
    ensures RenderRange(before + [cell] + after, |before| + 1, |before| + 1 + |after|, current, commentStart, config, false)
         == Render(after, current, commentStart, config, false)
  {
    var a := before + [cell];
    assert |a| + 0 == |before| + 1;
    RangeInSecond(a, after, 0, |after|, current, commentStart, config, false);
  }

  /**
   * Partition completeness: with the current cell after `before` (none of
   * which is current), `before` renders, in order, into `prefixCells` and
   * `after` into `suffixCells`.
   */
  lemma {:induction false} PartitionAroundCurrent(before: seq<Cell>, cell: Cell, after: seq<Cell>, current: string, commentStart: Option<string>, config: NotebookConfig)
    requires forall j :: 0 <= j < |before| ==> before[j].fragment != current
    requires cell.fragment == current
    ensures Partition(before + [cell] + after, current, commentStart, config)
         == Fragments(Render(before, current, commentStart, config, true),
                      Render(after, current, commentStart, config, false))
  {
    var cells := before + [cell] + after;
    assert cells == before + ([cell] + after);
    FirstMatchAfter(before, [cell] + after, current);
    PrefixRangeIsBefore(before, [cell] + after, current, commentStart, config);
    SuffixRangeIsAfter(before, cell, after, current, commentStart, config);
  }

  /** After the current cell no output block is built: only `includeCellOutputs` differs. */
  lemma {:induction false} RangeAfterIgnoresOutputs(cells: seq<Cell>, lo: nat, hi: nat, current: string, commentStart: Option<string>, config: NotebookConfig)
    requires hi <= |cells|
    ensures RenderRange(cells, lo, hi, current, commentStart, config, false)
         == RenderRange(cells, lo, hi, current, commentStart, config.(includeCellOutputs := false), false)
    decreases hi
  {
    if lo < hi {
      RangeAfterIgnoresOutputs(cells, lo, hi - 1, current, commentStart, config);
    }
  }

  /** `suffixCells` never holds an output block: it is the same with outputs switched off. */
  lemma {:induction false} SuffixCellsHaveNoOutputs(cells: seq<Cell>, current: string, commentStart: Option<string>, config: NotebookConfig)
    ensures Partition(cells, current, commentStart, config).suffixCells
         == Partition(cells, current, commentStart, config.(includeCellOutputs := false)).suffixCells
  {
    RangeAfterIgnoresOutputs(cells, FirstMatch(cells, current) + 1, |cells|, current, commentStart, config);
  }

  /** The lines of a comment block: an empty first piece, then one comment per line. */
  lemma {:induction false} CommentLinesSplit(commentStart: string, lines: seq<string>)
    requires '\n' !in commentStart && NoBreaks(lines)
    ensures Split(CommentLines(commentStart, lines)) == [""] + Commented(commentStart, lines)
    decreases |lines|
  {
    if lines == [] {
    } else {
      var init := lines[..|lines| - 1];
      var line := commentStart + lines[|lines| - 1];
      var block := CommentLines(commentStart, init);
      assert NoBreaks(init);
      CommentLinesSplit(commentStart, init);
      assert CommentLines(commentStart, lines) == block + "\n" + line;
      assert Split(block + "\n" + line) == Split(block) + [line] by {
        SplitAroundBreak(block, line);
        SplitUnbroken(line);
      }
    }
  }

  /** A comment block for `[x] + lines` starts with the comment for `x`. */
  lemma {:induction false} CommentLinesCons(commentStart: string, x: string, lines: seq<string>)
    ensures CommentLines(commentStart, [x] + lines) == "\n" + commentStart + x + CommentLines(commentStart, lines)
    decreases |lines|
  {
    if lines != [] {
      var init := lines[..|lines| - 1];
      CommentLinesCons(commentStart, x, init);
      assert ([x] + lines)[..|lines|] == [x] + init;
    }
  }

  /**
   * An included markup cell becomes exactly one line comment per line of
   * its text, after a leading line break; the text is recoverable from them.
   */
  lemma {:induction false} MarkupAsComments(cell: Cell, commentStart: Option<string>, config: NotebookConfig)
    requires cell.kind == Markup && HasComment(commentStart) && config.includeMarkup
    requires '\n' !in commentStart.value
    ensures Split(CellBody(cell, commentStart, config)) == [""] + Commented(commentStart.value, Split(cell.text))
  {
    CommentLinesSplit(commentStart.value, Split(cell.text));
  }

  /**
   * The output block is present iff outputs are on, the cell is a code cell
   * before the current one, a comment token exists and some item is
   * `text/plain`; it is then the `Output:` comment line followed by one
   * comment line per output line.
   */
  lemma {:induction false} OutputBlockShape(cell: Cell, commentStart: Option<string>, config: NotebookConfig, beforeCurrentCell: bool)
    requires HasComment(commentStart) ==> '\n' !in commentStart.value
    ensures OutputBlock(cell, commentStart, config, beforeCurrentCell) != "" <==>
              config.includeCellOutputs && beforeCurrentCell && cell.kind == Code && HasComment(commentStart)
              && exists j :: 0 <= j < |cell.outputs| && HasPlainText(cell.outputs[j].items)
    ensures OutputBlock(cell, commentStart, config, beforeCurrentCell) != "" ==>
              Split(OutputBlock(cell, commentStart, config, beforeCurrentCell))
              == [""] + Commented(commentStart.value, [OUTPUT_LABEL] + OutputLines(cell.outputs, config.cellOutputLimit))
  {
    if config.includeCellOutputs && beforeCurrentCell && cell.kind == Code && HasComment(commentStart) {
      var cs := commentStart.value;
      var lines := OutputLines(cell.outputs, config.cellOutputLimit);
      if |lines| > 0 {
        var block := OutputBlock(cell, commentStart, config, beforeCurrentCell);
        CommentLinesCons(cs, OUTPUT_LABEL, lines);
        assert block == CommentLines(cs, [OUTPUT_LABEL] + lines);
        assert block[0] == '\n';
        assert '\n' !in OUTPUT_LABEL;
        assert NoBreaks([OUTPUT_LABEL] + lines);
        CommentLinesSplit(cs, [OUTPUT_LABEL] + lines);
      }
    }
  }
}
