/**
 * Line windowing of the text on each side of the cursor
 * (`preparePrompt`, src/prompts/preparePrompt.ts lines 20-32).
 *
 * Both windows compute `lineCount = min(L - 1, maxLines) + 1` over the
 * `L` pieces of `split("\n")`. The suffix keeps the first `lineCount`
 * pieces. The prefix slices from `L - lineCount - 1`, one piece earlier
 * than the last `lineCount`; when that start is `-1`, JavaScript's `slice`
 * reads it as `L - 1`, so only the cursor line survives. Both behaviours are
 * modelled as written.
 */
module Windowing {
  import opened JsText

  function Min(a: int, b: int): int
  {
    if a < b then a else b
  }

  /** The text before the cursor, clamped by `prefixMaxLines` (lines 21-25). */
  function PrefixWindow(prefix: string, maxLines: int): (r: string)
    ensures maxLines < 0 ==> r == prefix
  {
    if maxLines < 0 then prefix
    else
      var lines := Split(prefix);
      var lineCount := Min(|lines| - 1, maxLines) + 1;
      Join(Slice(lines, |lines| - lineCount - 1, |lines|))
  }

  /** The text after the cursor, clamped by `suffixMaxLines` (lines 28-32). */
  function SuffixWindow(suffix: string, maxLines: int): (r: string)
    ensures maxLines < 0 ==> r == suffix
  {
    if maxLines < 0 then suffix
    else
      var lines := Split(suffix);
      var lineCount := Min(|lines| - 1, maxLines) + 1;
      Join(Slice(lines, 0, lineCount))
  }

  /**
   * The prefix window keeps a tail of the text. With more than
   * `maxLines + 1` lines it keeps the last `maxLines + 2` of them; otherwise
   * only the last (cursor) line.
   */
  lemma {:induction false} PrefixWindowLines(prefix: string, maxLines: int)
    requires maxLines >= 0
    ensures IsSuffix(PrefixWindow(prefix, maxLines), prefix)
    ensures var lines := Split(prefix);
            |lines| > maxLines + 1 ==>
              Split(PrefixWindow(prefix, maxLines)) == lines[|lines| - maxLines - 2..]
    ensures var lines := Split(prefix);
            |lines| <= maxLines + 1 ==>
              Split(PrefixWindow(prefix, maxLines)) == lines[|lines| - 1..]
    ensures var lines := Split(prefix);
            |Split(PrefixWindow(prefix, maxLines))| ==
              if |lines| > maxLines + 1 then maxLines + 2 else 1
  {
    var lines := Split(prefix);
    var total := |lines|;
    var lineCount := Min(total - 1, maxLines) + 1;
    var first := if total > maxLines + 1 then total - maxLines - 2 else total - 1;
    assert Slice(lines, total - lineCount - 1, total) == lines[first..];
    var kept := lines[first..];
    var r := PrefixWindow(prefix, maxLines);
    assert r == Join(kept);
    SplitJoin(kept);
    JoinSplit(prefix);
    if first > 0 {
      JoinAt(lines, first);
    } else {
      assert kept == lines;
    }
  }

  /**
   * The suffix window keeps the first `min(L, maxLines + 1)` of the `L`
   * lines: a head of the text, at most `maxLines + 1` lines long, and the
   * whole text when it is short enough.
   */
  lemma {:induction false} SuffixWindowLines(suffix: string, maxLines: int)
    requires maxLines >= 0
    ensures SuffixWindow(suffix, maxLines) <= suffix
    ensures var lines := Split(suffix);
            Split(SuffixWindow(suffix, maxLines)) == lines[..Min(|lines|, maxLines + 1)]
    ensures |Split(SuffixWindow(suffix, maxLines))| <= maxLines + 1
    ensures |Split(suffix)| <= maxLines + 1 ==> SuffixWindow(suffix, maxLines) == suffix
  {
    var lines := Split(suffix);
    var lineCount := Min(|lines| - 1, maxLines) + 1;
    assert lineCount == Min(|lines|, maxLines + 1);
    assert Slice(lines, 0, lineCount) == lines[..lineCount];
    var kept := lines[..lineCount];
    var r := SuffixWindow(suffix, maxLines);
    assert r == Join(kept);
    SplitJoin(kept);
    JoinSplit(suffix);
    if lineCount < |lines| {
      JoinAt(lines, lineCount);
      assert suffix == r + "\n" + Join(lines[lineCount..]);
    } else {
      assert kept == lines;
      assert r == suffix;
    }
  }

  /** Re-windowing an already windowed prefix with the same bound changes nothing. */
  lemma {:induction false} PrefixWindowIdempotent(prefix: string, maxLines: int)
    ensures PrefixWindow(PrefixWindow(prefix, maxLines), maxLines) == PrefixWindow(prefix, maxLines)
  {
    if maxLines >= 0 {
      var r := PrefixWindow(prefix, maxLines);
      PrefixWindowLines(prefix, maxLines);
      PrefixWindowLines(r, maxLines);
      var kept := Split(r);
      assert kept[|kept| - |kept|..] == kept;
      SplitInjective(PrefixWindow(r, maxLines), r);
    }
  }

  /** Re-windowing an already windowed suffix with the same bound changes nothing. */
  lemma {:induction false} SuffixWindowIdempotent(suffix: string, maxLines: int)
    ensures SuffixWindow(SuffixWindow(suffix, maxLines), maxLines) == SuffixWindow(suffix, maxLines)
  {
    if maxLines >= 0 {
      var r := SuffixWindow(suffix, maxLines);
      SuffixWindowLines(suffix, maxLines);
      SuffixWindowLines(r, maxLines);
    }
  }

  /**
   * Two concrete prefixes: `"a\nb\n"` (three pieces) with one line allowed
   * comes back whole, and `"a\nb"` (two pieces) with five lines allowed is
   * cut down to its cursor line.
   */
  lemma {:induction false} PrefixWindowExamples()
    ensures PrefixWindow("a\nb\n", 1) == "a\nb\n"
    ensures PrefixWindow("a\nb", 5) == "b"
  {
    SplitUnbroken("a");
    SplitUnbroken("b");
    SplitUnbroken("");
    SplitAroundBreak("b", "");
    assert "b\n" == "b" + "\n" + "";
    SplitAroundBreak("a", "b\n");
    assert "a\nb\n" == "a" + "\n" + "b\n";
    PrefixWindowLines("a\nb\n", 1);
    SplitInjective(PrefixWindow("a\nb\n", 1), "a\nb\n");
    SplitAroundBreak("a", "b");
    assert "a\nb" == "a" + "\n" + "b";
    PrefixWindowLines("a\nb", 5);
    SplitInjective(PrefixWindow("a\nb", 5), "b");
  }
}
