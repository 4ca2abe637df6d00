/**
 * Python's `str.splitlines()` with no arguments: the string is cut at every
 * line boundary, the boundary characters are dropped, "\r\n" counts as one
 * boundary, and a boundary at the very end does not start an empty last line.
 */
module Lines {

  /** The line boundaries `str.splitlines` recognises. */
  predicate IsLineBreak(c: char)
  {
    c == '\n' || c == '\r' || c == '\U{0B}' || c == '\U{0C}'
    || c == '\U{1C}' || c == '\U{1D}' || c == '\U{1E}'
    || c == '\U{85}' || c == '\U{2028}' || c == '\U{2029}'
  }

  predicate NoBreaks(s: string)
  {
    forall i :: 0 <= i < |s| ==> !IsLineBreak(s[i])
  }

  /** Index of the first line boundary in `s`, or `|s|` when there is none. */
  function LineEnd(s: string): (i: nat)
    ensures i <= |s| && NoBreaks(s[..i])
    ensures i < |s| ==> IsLineBreak(s[i])
  {
    if s == [] || IsLineBreak(s[0]) then 0
    else
      var j := LineEnd(s[1..]);
      assert s[..j + 1] == [s[0]] + s[1..][..j];
      1 + j
  }

  /** Number of characters the boundary at `s[i]` occupies: 2 for "\r\n", else 1. */
  function BreakWidth(s: string, i: nat): (w: nat)
    requires i < |s|
    ensures 1 <= w <= |s| - i
  {
    if s[i] == '\r' && i + 1 < |s| && s[i + 1] == '\n' then 2 else 1
  }

  /** `s.splitlines()` */
  function SplitLines(s: string): (lines: seq<string>)
    ensures forall k :: 0 <= k < |lines| ==> NoBreaks(lines[k])
    ensures |lines| <= |s|
    decreases |s|
  {
    if s == [] then []
    else
      var i := LineEnd(s);
      if i == |s| then [s]
      else [s[..i]] + SplitLines(s[i + BreakWidth(s, i)..])
  }

  /** Lines written out with a "\n" after each one. */
  function JoinLines(lines: seq<string>): string
  {
    if lines == [] then [] else lines[0] + ("\n" + JoinLines(lines[1..]))
  }

  lemma {:induction false} LineEndOfBreakFree(a: string, rest: string)
    requires NoBreaks(a)
    requires rest != [] ==> IsLineBreak(rest[0])
    ensures LineEnd(a + rest) == |a|
    decreases |a|
  {
    if a == [] {
      assert a + rest == rest;
    } else {
      assert (a + rest)[0] == a[0];
      assert (a + rest)[1..] == a[1..] + rest;
      LineEndOfBreakFree(a[1..], rest);
    }
  }

  /** A break-free line followed by "\n" is split off as one line. */
  lemma SplitFirstLine(a: string, rest: string)
    requires NoBreaks(a)
    ensures SplitLines(a + ("\n" + rest)) == [a] + SplitLines(rest)
  {
    var s := a + ("\n" + rest);
    LineEndOfBreakFree(a, "\n" + rest);
    assert s[..|a|] == a;
    assert s[|a| + 1..] == rest;
  }

  /**
   * Any single boundary character ends a line, except a '\r' that is followed
   * by '\n' (SplitAtCrLf covers that one).
   */
  lemma SplitAtBreak(a: string, b: char, rest: string)
    requires NoBreaks(a) && IsLineBreak(b)
    requires !(b == '\r' && rest != [] && rest[0] == '\n')
    ensures SplitLines(a + ([b] + rest)) == [a] + SplitLines(rest)
  {
    var s := a + ([b] + rest);
    LineEndOfBreakFree(a, [b] + rest);
    assert s[|a|] == b;
    assert |a| + 1 < |s| ==> s[|a| + 1] == rest[0];
    assert s[..|a|] == a;
    assert s[|a| + 1..] == rest;
  }

  /** "\r\n" is one boundary: it ends a line and starts no empty one. */
  lemma SplitAtCrLf(a: string, rest: string)
    requires NoBreaks(a)
    ensures SplitLines(a + ("\r\n" + rest)) == [a] + SplitLines(rest)
  {
    var s := a + ("\r\n" + rest);
    LineEndOfBreakFree(a, "\r\n" + rest);
    assert s[|a|] == '\r' && s[|a| + 1] == '\n';
    assert s[..|a|] == a;
    assert s[|a| + 2..] == rest;
  }

  /** The characters of `s` that are not line boundaries, in order. */
  function WithoutBreaks(s: string): string
  {
    if s == [] then []
    else (if IsLineBreak(s[0]) then [] else [s[0]]) + WithoutBreaks(s[1..])
  }

  /** The lines glued back together, with nothing between them. */
  function Flatten(lines: seq<string>): string
  {
    if lines == [] then [] else lines[0] + Flatten(lines[1..])
  }

  lemma {:induction false} WithoutBreaksConcat(a: string, b: string)
    ensures WithoutBreaks(a + b) == WithoutBreaks(a) + WithoutBreaks(b)
    decreases |a|
  {
    if a == [] {
      assert a + b == b;
    } else {
      assert (a + b)[0] == a[0];
      assert (a + b)[1..] == a[1..] + b;
      WithoutBreaksConcat(a[1..], b);
    }
  }

  lemma {:induction false} WithoutBreaksOfBreakFree(a: string)
    requires NoBreaks(a)
    ensures WithoutBreaks(a) == a
    decreases |a|
  {
    if a != [] {
      WithoutBreaksOfBreakFree(a[1..]);
    }
  }

  lemma BoundaryHasNoText(s: string, i: nat)
    requires i < |s| && IsLineBreak(s[i])
    ensures WithoutBreaks(s[i..i + BreakWidth(s, i)]) == []
  {
    var brk := s[i..i + BreakWidth(s, i)];
    assert brk[0] == s[i];
    if BreakWidth(s, i) == 2 {
      var tail := brk[1..];
      assert tail == [s[i + 1]] && IsLineBreak(tail[0]);
      assert tail[1..] == [];
      assert WithoutBreaks(tail) == [];
    } else {
      assert brk[1..] == [];
    }
  }

  lemma ThreeParts(s: string, i: nat, j: nat)
    requires i <= j <= |s|
    ensures s == s[..i] + (s[i..j] + s[j..])
  {
    assert s[i..] == s[i..j] + s[j..];
  }

  /** A break-free line, then a boundary, then the rest: only the boundary is lost. */
  lemma WithoutBreaksAroundBoundary(line: string, brk: string, rest: string)
    requires NoBreaks(line) && WithoutBreaks(brk) == []
    ensures WithoutBreaks(line + (brk + rest)) == line + WithoutBreaks(rest)
  {
    WithoutBreaksConcat(line, brk + rest);
    WithoutBreaksConcat(brk, rest);
    WithoutBreaksOfBreakFree(line);
    assert [] + WithoutBreaks(rest) == WithoutBreaks(rest);
  }

  /**
   * Splitting loses nothing but the boundaries: the lines, glued together,
   * are exactly the non-boundary characters of the input, in order.
   */
  lemma {:induction false} SplitLinesKeepsText(s: string)
    ensures Flatten(SplitLines(s)) == WithoutBreaks(s)
    decreases |s|
  {
    if s != [] {
      var i := LineEnd(s);
      if i == |s| {
        assert s[..i] == s;
        WithoutBreaksOfBreakFree(s);
        assert Flatten([s]) == s + Flatten([]);
      } else {
        var rest := s[i + BreakWidth(s, i)..];
        TextAroundFirstBoundary(s);
        SplitLinesKeepsText(rest);
        FlattenCons(s[..i], SplitLines(rest));
      }
    }
  }

  lemma TextAroundFirstBoundary(s: string)
    requires s != [] && LineEnd(s) < |s|
    ensures var i := LineEnd(s);
            WithoutBreaks(s) == s[..i] + WithoutBreaks(s[i + BreakWidth(s, i)..])
  {
    var i := LineEnd(s);
    var w := BreakWidth(s, i);
    ThreeParts(s, i, i + w);
    BoundaryHasNoText(s, i);
    WithoutBreaksAroundBoundary(s[..i], s[i..i + w], s[i + w..]);
  }

  lemma FlattenCons(line: string, lines: seq<string>)
    ensures Flatten([line] + lines) == line + Flatten(lines)
  {
    assert ([line] + lines)[1..] == lines;
  }

  /** A non-empty string without boundaries is a single line. */
  lemma SplitSingleLine(a: string)
    requires a != [] && NoBreaks(a)
    ensures SplitLines(a) == [a]
  {
  }

  /** Splitting undoes joining: the trailing "\n" yields no empty last line. */
  lemma {:induction false} SplitJoinRoundTrip(lines: seq<string>)
    requires forall k :: 0 <= k < |lines| ==> NoBreaks(lines[k])
    ensures SplitLines(JoinLines(lines)) == lines
  {
    if lines != [] {
      SplitFirstLine(lines[0], JoinLines(lines[1..]));
      SplitJoinRoundTrip(lines[1..]);
    }
  }

  /** Two break-free lines separated by "\n". */
  lemma SplitTwoLines(l1: string, l2: string)
    requires NoBreaks(l1) && NoBreaks(l2) && l2 != []
    ensures SplitLines(l1 + ("\n" + l2)) == [l1, l2]
  {
    SplitFirstLine(l1, l2);
    SplitSingleLine(l2);
  }

  /** Three break-free lines separated by "\n". */
  lemma SplitThreeLines(l1: string, l2: string, l3: string)
    requires NoBreaks(l1) && NoBreaks(l2) && NoBreaks(l3) && l3 != []
    ensures SplitLines(l1 + ("\n" + (l2 + ("\n" + l3)))) == [l1, l2, l3]
  {
    SplitTwoLines(l2, l3);
    SplitFirstLine(l1, l2 + ("\n" + l3));
  }
}
