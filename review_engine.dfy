/**
 * The diff pattern analyzer: every line of the raw diff is checked against
 * two ordered rules, and each line that triggers one yields a suggestion.
 */
module ReviewEngine {
  import opened Wrappers
  import opened Text
  import opened Lines

  const MaxLineLength := 120

  /** The two feedback texts the analyzer can emit, one per rule. */
  datatype Feedback = AvoidPrint | LineTooLong {
    function Text(): string
    {
      match this
      case AvoidPrint => "Avoid using print statements in production code. Consider using logging instead."
      case LineTooLong => "Line exceeds 120 characters. Consider breaking it into multiple lines for better readability."
    }
  }

  /** One `{"line": ..., "feedback": ...}` entry of the result's `details`. */
  datatype Suggestion = Suggestion(line: string, feedback: Feedback)

  /** The `{"summary": ..., "details": ...}` record the analyzer returns. */
  datatype Review = Review(summary: string, details: seq<Suggestion>)

  /** An added line of a diff; "+++" file headers are not told apart. */
  predicate IsAdded(line: string)
    ensures IsAdded(line) <==> |line| > 0 && line[0] == '+'
  {
    StartsWith(line, "+")
  }

  /**
   * The feedback the two rules give one line: the print rule is tried first,
   * the length rule only when the print rule does not fire.
   */
  function LineFeedback(line: string): (r: Option<Feedback>)
    ensures r.Some? <==> IsAdded(line) && (Contains(line, "print(") || |line| > MaxLineLength)
    ensures r == Some(AvoidPrint) <==> IsAdded(line) && Contains(line, "print(")
    ensures r == Some(LineTooLong) <==>
              IsAdded(line) && !Contains(line, "print(") && |line| > MaxLineLength
  {
    if IsAdded(line) && Contains(line, "print(") then Some(AvoidPrint)
    else if IsAdded(line) && |line| > MaxLineLength then Some(LineTooLong)
    else None
  }

  /** The suggestions one line contributes: none or exactly one. */
  function LineSuggestions(line: string): seq<Suggestion>
  {
    match LineFeedback(line)
    case Some(f) => [Suggestion(line, f)]
    case None => []
  }

  /** The suggestions for a sequence of lines, in line order. */
  function Suggestions(lines: seq<string>): seq<Suggestion>
  {
    if lines == [] then [] else LineSuggestions(lines[0]) + Suggestions(lines[1..])
  }

  /** The `summary` string for `n` suggestions. */
  function Summary(n: nat): (s: string)
    ensures |s| == |NatToString(n)| + 19
    ensures s[..6] == "Found " && s[6..|s| - 13] == NatToString(n) && s[|s| - 13..] == " suggestions."
  {
    "Found " + NatToString(n) + " suggestions."
  }

  /** `analyze_diff(diff_content)` */
  method AnalyzeDiff(diffContent: string) returns (review: Review)
    ensures review.details == Suggestions(SplitLines(diffContent))
    ensures review.summary == Summary(|review.details|)
    ensures |review.details| <= |SplitLines(diffContent)|
    ensures forall k :: 0 <= k < |review.details| ==>
              IsAdded(review.details[k].line) && review.details[k].line in SplitLines(diffContent)
  {
    var suggestions: seq<Suggestion> := [];
    var lines := SplitLines(diffContent);
    for i := 0 to |lines|
      invariant suggestions == Suggestions(lines[..i])
    {
      var line := lines[i];
      SuggestionsConcat(lines[..i], [line]);
      SuggestionsOfOne(line);
      assert lines[..i + 1] == lines[..i] + [line];
      if IsAdded(line) && Contains(line, "print(") {
        suggestions := suggestions + [Suggestion(line, AvoidPrint)];
      } else if IsAdded(line) && |line| > MaxLineLength {
        suggestions := suggestions + [Suggestion(line, LineTooLong)];
      }
    }
    assert lines[..|lines|] == lines;
    SuggestionsBound(lines);
    SuggestionsComeFromAddedLines(lines);
    review := Review("Found " + NatToString(|suggestions|) + " suggestions.", suggestions);
  }

  /** The scan keeps no state across lines: analysing a concatenation concatenates the results. */
  lemma {:induction false} SuggestionsConcat(a: seq<string>, b: seq<string>)
    ensures Suggestions(a + b) == Suggestions(a) + Suggestions(b)
  {
    if a != [] {
      assert (a + b)[0] == a[0];
      assert (a + b)[1..] == a[1..] + b;
      SuggestionsConcat(a[1..], b);
    } else {
      assert a + b == b;
    }
  }

  /** Each line yields at most one suggestion. */
  lemma {:induction false} SuggestionsBound(lines: seq<string>)
    ensures |Suggestions(lines)| <= |lines|
  {
    if lines != [] {
      SuggestionsBound(lines[1..]);
    }
  }

  /**
   * Every suggestion names an added input line verbatim and carries one of
   * the two feedback texts, the one the rules give that line.
   */
  lemma {:induction false} SuggestionsComeFromAddedLines(lines: seq<string>)
    ensures forall k :: 0 <= k < |Suggestions(lines)| ==>
              var s := Suggestions(lines)[k];
              && s.line in lines
              && IsAdded(s.line)
              && LineFeedback(s.line) == Some(s.feedback)
  {
    if lines != [] {
      SuggestionsComeFromAddedLines(lines[1..]);
      var tail := Suggestions(lines[1..]);
      assert forall k :: 0 <= k < |tail| ==> tail[k].line in lines by {
        forall k | 0 <= k < |tail| ensures tail[k].line in lines {
          assert tail[k].line in lines[1..];
        }
      }
    }
  }

  /** A one-line diff yields exactly that line's suggestions. */
  lemma SuggestionsOfOne(line: string)
    ensures Suggestions([line]) == LineSuggestions(line)
  {
  }

  /**
   * Line `i`'s suggestion, if any, sits right after those of the lines
   * before it and right before those of the lines after it.
   */
  lemma SuggestionOfLineInPlace(lines: seq<string>, i: nat)
    requires i < |lines|
    ensures Suggestions(lines) ==
              Suggestions(lines[..i]) + LineSuggestions(lines[i]) + Suggestions(lines[i + 1..])
  {
    assert lines == lines[..i] + lines[i..];
    SuggestionsConcat(lines[..i], lines[i..]);
    assert lines[i..][1..] == lines[i + 1..];
  }

  /** The summary names the number of suggestions, and distinct counts give distinct summaries. */
  lemma SummaryDeterminesCount(m: nat, n: nat)
    requires Summary(m) == Summary(n)
    ensures m == n
  {
    var sm, sn := Summary(m), Summary(n);
    assert sm[6..|sm| - 13] == NatToString(m);
    assert sn[6..|sn| - 13] == NatToString(n);
    NatToStringInjective(m, n);
  }

  /**
   * A "+++" file header counts as an added line, so the two rules of
   * LineFeedback apply to it unchanged.
   */
  lemma HeaderLinesAreChecked(line: string)
    requires StartsWith(line, "+++")
    ensures LineFeedback(line) ==
              if Contains(line, "print(") then Some(AvoidPrint)
              else if |line| > MaxLineLength then Some(LineTooLong)
              else None
  {
    assert IsAdded(line);
  }

  /** A file header that happens to contain `print(` is flagged like code. */
  lemma ExampleHeaderLine()
    ensures LineFeedback("+++ b/print(x)") == Some(AvoidPrint)
  {
    assert StartsWith("+++ b/print(x)"[6..], "print(");
    assert "+++ b/print(x)"[6..] == "+++ b/print(x)"[1..][1..][1..][1..][1..][1..];
  }

  /** A diff of three lines of which only the first triggers a rule. */
  lemma OnlyFirstOfThreeFlagged(l1: string, l2: string, l3: string, f: Feedback)
    requires NoBreaks(l1) && NoBreaks(l2) && NoBreaks(l3) && l3 != []
    requires LineFeedback(l1) == Some(f) && LineFeedback(l2) == None && LineFeedback(l3) == None
    ensures Suggestions(SplitLines(l1 + ("\n" + (l2 + ("\n" + l3))))) == [Suggestion(l1, f)]
  {
    SplitThreeLines(l1, l2, l3);
    assert LineSuggestions(l1) == [Suggestion(l1, f)];
    assert LineSuggestions(l2) == [] && LineSuggestions(l3) == [];
    assert [l1, l2, l3][1..] == [l2, l3];
    assert [l2, l3][1..] == [l3];
    assert Suggestions([l3]) == [];
    assert Suggestions([l2, l3]) == [];
  }

  lemma ExamplePrintLine()
    ensures LineFeedback("+print('x')") == Some(AvoidPrint)
  {
    assert StartsWith("+print('x')"[1..], "print(");
  }

  lemma ExampleShortLine()
    ensures LineFeedback("+short line") == None
  {
    NotContainsWithoutFirstChar("+short line", "print(");
  }

  lemma ExampleRemovedLine()
    ensures LineFeedback("-removed") == None
  {
    assert "-removed"[..1] != "+" by {
      assert "-removed"[..1][0] == '-';
    }
  }

  lemma ExampleNoBreaks()
    ensures NoBreaks("+print('x')") && NoBreaks("+short line") && NoBreaks("-removed")
  {
  }

  /** One suggestion is summarised as "Found 1 suggestions.". */
  lemma ExampleSummary()
    ensures Summary(1) == "Found 1 suggestions."
  {
  }

  /** An empty diff has no lines and is summarised as "Found 0 suggestions.". */
  lemma ExampleEmptyDiff()
    ensures SplitLines("") == [] && Summary(|Suggestions(SplitLines(""))|) == "Found 0 suggestions."
  {
  }

  /**
   * Of a print line, a short added line and a removed line, only the print
   * line is flagged.
   */
  lemma ExampleMixedDiff()
    ensures Suggestions(SplitLines("+print('x')" + ("\n" + ("+short line" + ("\n" + "-removed")))))
              == [Suggestion("+print('x')", AvoidPrint)]
  {
    ExamplePrintLine();
    ExampleShortLine();
    ExampleRemovedLine();
    ExampleNoBreaks();
    OnlyFirstOfThreeFlagged("+print('x')", "+short line", "-removed", AvoidPrint);
  }

  /** An added line of 131 characters without a print call gets the length feedback. */
  lemma ExampleLongLine()
    ensures var line := "+" + seq(130, _ => 'a');
            Suggestions(SplitLines(line)) == [Suggestion(line, LineTooLong)]
  {
    var line := "+" + seq(130, _ => 'a');
    assert NoBreaks(line);
    SplitSingleLine(line);
    NotContainsWithoutFirstChar(line, "print(");
    SuggestionsOfOne(line);
  }

  /** A line of exactly the limit is not flagged; one more character is. */
  lemma ExampleLengthLimit()
    ensures var line := "+" + seq(119, _ => 'a');
            LineFeedback(line) == None && LineFeedback(line + "a") == Some(LineTooLong)
  {
    var line := "+" + seq(119, _ => 'a');
    NotContainsWithoutFirstChar(line, "print(");
    NotContainsWithoutFirstChar(line + "a", "print(");
    assert (line + "a")[..1] == line[..1];
  }
}
