/** Optional values, for the `undefined` results of lookups and optional chaining. */
module Options {

  datatype Option<+T> = None | Some(value: T)
}

/**
 * The JavaScript string and array primitives the prompt builder is written with:
 * `String.prototype.split("\n")`, `Array.prototype.join("\n")` and the index
 * normalisation shared by `String.prototype.slice` and `Array.prototype.slice`.
 * Characters are Dafny `char`s (Unicode scalar values).
 */
module JsText {

  /** Number of line breaks in `s`. */
  function NewlineCount(s: string): nat
  {
    if s == [] then 0 else (if s[0] == '\n' then 1 else 0) + NewlineCount(s[1..])
  }

  /**
   * `s.split("\n")`: the pieces between line breaks, in order. Never empty;
   * `"".split("\n")` is `[""]`.
   */
  function Split(s: string): (lines: seq<string>)
    ensures |lines| == NewlineCount(s) + 1
    ensures forall i :: 0 <= i < |lines| ==> '\n' !in lines[i]
    decreases |s|
  {
    if s == [] then [""]
    else
      var rest := Split(s[1..]);
      if s[0] == '\n' then [""] + rest
      else [[s[0]] + rest[0]] + rest[1..]
  }

  /**
   * `lines.join("\n")`; an empty array joins to `""`. The result starts with
   * the first line.
   */
  function Join(lines: seq<string>): (r: string)
    ensures lines != [] ==> lines[0] <= r
  {
    if lines == [] then ""
    else if |lines| == 1 then lines[0]
    else lines[0] + "\n" + Join(lines[1..])
  }

  /** True when no line of `lines` holds a line break. */
  predicate NoBreaks(lines: seq<string>)
  {
    forall i :: 0 <= i < |lines| ==> '\n' !in lines[i]
  }

  /** `r` is a (possibly empty) trailing part of `s`. */
  predicate IsSuffix<T(==)>(r: seq<T>, s: seq<T>)
  {
    |r| <= |s| && s[|s| - |r|..] == r
  }

  /**
   * How `slice` turns an index argument into a position: a negative index
   * counts from the end and stops at 0, a large one stops at `len`.
   */
  function RelativeIndex(i: int, len: nat): (k: nat)
    ensures k <= len
    ensures 0 <= i <= len ==> k == i
    ensures i < 0 && 0 <= len + i ==> k == len + i
    ensures len + i < 0 ==> k == 0
    ensures len < i ==> k == len
  {
    if i < 0 then (if len + i < 0 then 0 else len + i)
    else if i < len then i
    else len
  }

  /** `s.slice(start, end)` for strings and arrays alike. */
  function Slice<T>(s: seq<T>, start: int, end: int): (r: seq<T>)
    ensures |r| <= |s|
    ensures 0 <= start <= end <= |s| ==> r == s[start..end]
    ensures RelativeIndex(end, |s|) <= RelativeIndex(start, |s|) ==> r == []
  {
    var b := RelativeIndex(start, |s|);
    var e := RelativeIndex(end, |s|);
    if b < e then s[b..e] else []
  }

  /** Concatenation is associative. */
  lemma {:induction false} AppendAssoc<T>(x: seq<T>, y: seq<T>, z: seq<T>)
    ensures x + (y + z) == (x + y) + z
  {
  }

  /** A concatenation led by a non-empty sequence has its head and, after it, the rest. */
  lemma {:induction false} TailOfAppend<T>(a: seq<T>, b: seq<T>)
    requires a != []
    ensures (a + b)[0] == a[0] && (a + b)[1..] == a[1..] + b
  {
  }

  /** Cutting at any index, the two `slice` calls give back the whole sequence. */
  lemma {:induction false} SliceAtCut<T>(s: seq<T>, cut: int)
    ensures Slice(s, 0, cut) + Slice(s, cut, |s|) == s
  {
    var k := RelativeIndex(cut, |s|);
    assert Slice(s, 0, cut) == s[..k];
    assert Slice(s, cut, |s|) == s[k..];
  }

  /** `s.slice(0, n)` with `n >= 0` keeps the first `n` elements (or all of them). */
  lemma {:induction false} SliceHead<T>(s: seq<T>, n: int)
    requires n >= 0
    ensures Slice(s, 0, n) <= s
    ensures |Slice(s, 0, n)| == if n < |s| then n else |s|
  {
  }

  /** A string without a line break splits into itself alone. */
  lemma {:induction false} SplitUnbroken(s: string)
    requires '\n' !in s
    ensures Split(s) == [s]
    decreases |s|
  {
    if s != [] {
      assert '\n' !in s[1..] by {
        forall i | 0 <= i < |s[1..]| ensures s[1..][i] != '\n' {
          assert s[1..][i] == s[i + 1];
        }
      }
      SplitUnbroken(s[1..]);
      assert [s[0]] + s[1..] == s;
    }
  }

  /** Splitting at a line break splits each side separately. */
  lemma {:induction false} SplitAroundBreak(a: string, b: string)
    ensures Split(a + "\n" + b) == Split(a) + Split(b)
    decreases |a|
  {
    var s := a + "\n" + b;
    if a == [] {
      assert s[1..] == b;
    } else {
      assert s[0] == a[0];
      assert s[1..] == a[1..] + "\n" + b;
      SplitAroundBreak(a[1..], b);
      var ra := Split(a[1..]);
      var rs := Split(s[1..]);
      assert rs == ra + Split(b);
      if a[0] != '\n' {
        assert rs[0] == ra[0];
        assert rs[1..] == ra[1..] + Split(b);
      }
    }
  }

  /** Joining the pieces of a split gives the string back. */
  lemma {:induction false} JoinSplit(s: string)
    ensures Join(Split(s)) == s
    decreases |s|
  {
    if s != [] {
      var rest := Split(s[1..]);
      JoinSplit(s[1..]);
      if s[0] == '\n' {
        assert Split(s) == [""] + rest;
        assert (Split(s))[1..] == rest;
        assert Join(Split(s)) == "" + "\n" + Join(rest);
        assert [s[0]] + s[1..] == s;
      } else {
        var lines := Split(s);
        assert lines == [[s[0]] + rest[0]] + rest[1..];
        if |rest| == 1 {
          assert Join(lines) == [s[0]] + rest[0];
        } else {
          assert lines[1..] == rest[1..];
          assert Join(lines) == [s[0]] + rest[0] + "\n" + Join(rest[1..]);
        }
        assert [s[0]] + s[1..] == s;
      }
    }
  }

  /** Splitting a join of break-free lines gives the lines back. */
  lemma {:induction false} SplitJoin(lines: seq<string>)
    requires |lines| >= 1 && NoBreaks(lines)
    ensures Split(Join(lines)) == lines
    decreases |lines|
  {
    SplitUnbroken(lines[0]);
    if |lines| > 1 {
      SplitJoin(lines[1..]);
      SplitAroundBreak(lines[0], Join(lines[1..]));
      assert [lines[0]] + lines[1..] == lines;
    }
  }

  /** Two strings with the same pieces are the same string. */
  lemma {:induction false} SplitInjective(s: string, t: string)
    requires Split(s) == Split(t)
    ensures s == t
  {
    JoinSplit(s);
    JoinSplit(t);
  }

  /** A join cut between two lines is the join of each part, glued by a break. */
  lemma {:induction false} JoinAt(lines: seq<string>, k: nat)
    requires 0 < k < |lines|
    ensures Join(lines) == Join(lines[..k]) + "\n" + Join(lines[k..])
    decreases k
  {
    if k > 1 {
      JoinAt(lines[1..], k - 1);
      assert lines[1..][..k - 1] == lines[..k][1..];
      assert lines[1..][k - 1..] == lines[k..];
    }
  }
}
