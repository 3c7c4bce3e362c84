/** Blinding of the judge's input (`remove_comments` in eval.py): every line
    whose stripped form starts with `#` is dropped before the source is shown
    to the judge. Annotation text on any other line, inside a string literal
    or after code on the same line, still reaches the judge. */
module Blinding {
  import opened Strings

  /** A line whose stripped form starts with `#` (`line.strip().startswith("#")`:
      for a one-character prefix, a non-empty text whose first character is `#`). */
  predicate IsCommentLine(line: string) {
    Strip(line) != [] && Strip(line)[0] == '#'
  }

  /** A line is a comment line exactly when its left-stripped form starts with `#`:
      the right end of the line does not matter. */
  lemma {:induction false} CommentLineByLeftStrip(line: string)
    ensures IsCommentLine(line) <==> (LStrip(line) != [] && LStrip(line)[0] == '#')
  {
    var l := LStrip(line);
    if l != [] {
      assert RStrip(l) != [] by {
        assert !IsSpace(l[0]);
      }
      assert Strip(line)[0] == l[0];
    }
  }

  /** Reference reading of a comment line: its first non-whitespace character is `#`. */
  lemma {:induction false} CommentLineIsHashAfterIndent(line: string)
    ensures IsCommentLine(line)
        <==> exists i :: 0 <= i < |line| && line[i] == '#' && forall j :: 0 <= j < i ==> IsSpace(line[j])
  {
    CommentLineByLeftStrip(line);
    var l := LStrip(line);
    var k := |line| - |l|;
    if IsCommentLine(line) {
      assert line[k] == l[0];
    }
    if exists i :: 0 <= i < |line| && line[i] == '#' && forall j :: 0 <= j < i ==> IsSpace(line[j]) {
      var i :| 0 <= i < |line| && line[i] == '#' && forall j :: 0 <= j < i ==> IsSpace(line[j]);
      LStripAt(line, i);
    }
  }

  /** The lines that are not comment lines, in their original order. */
  function RemoveCommentLines(lines: seq<string>): (kept: seq<string>)
    ensures |kept| <= |lines|
    ensures forall k :: 0 <= k < |kept| ==> !IsCommentLine(kept[k])
    ensures (exists k :: 0 <= k < |lines| && IsCommentLine(lines[k])) ==> |kept| < |lines|
    ensures IsSubsequence(kept, lines)
  {
    if |lines| == 0 then []
    else if IsCommentLine(lines[0]) then RemoveCommentLines(lines[1..])
    else [lines[0]] + RemoveCommentLines(lines[1..])
  }

  /** The comment lines, the complement of what is kept. */
  function CommentLines(lines: seq<string>): (dropped: seq<string>)
    ensures forall k :: 0 <= k < |dropped| ==> IsCommentLine(dropped[k])
  {
    if |lines| == 0 then []
    else if IsCommentLine(lines[0]) then [lines[0]] + CommentLines(lines[1..])
    else CommentLines(lines[1..])
  }

  /** `sub` is `s` with some elements left out, the rest in their original order. */
  predicate IsSubsequence<T(==)>(sub: seq<T>, s: seq<T>)
    decreases |s|
  {
    |sub| == 0 || (|s| > 0 && ((sub[0] == s[0] && IsSubsequence(sub[1..], s[1..])) || IsSubsequence(sub, s[1..])))
  }

  /** Nothing is lost or invented: the kept lines and the dropped comment lines
      together are exactly the input lines, multiplicities included. */
  lemma {:induction false} RemoveCommentLinesPartition(lines: seq<string>)
    ensures multiset(RemoveCommentLines(lines)) + multiset(CommentLines(lines)) == multiset(lines)
  {
    if |lines| > 0 {
      var rest := lines[1..];
      RemoveCommentLinesPartition(rest);
      var kept, dropped := PartitionStep(lines);
      MultisetOfSplit(lines, kept, dropped, RemoveCommentLines(rest), CommentLines(rest),
                      RemoveCommentLines(lines), CommentLines(lines));
    }
  }

  /** Splitting the head of `all` between two sequences and the tail between
      two others splits `all` as a multiset. */
  lemma {:induction false} MultisetOfSplit<T>(all: seq<T>, k: seq<T>, d: seq<T>, r: seq<T>, c: seq<T>,
                                             kr: seq<T>, dc: seq<T>)
    requires |all| > 0 && k + d == [all[0]]
    requires kr == k + r && dc == d + c
    requires multiset(r) + multiset(c) == multiset(all[1..])
    ensures multiset(kr) + multiset(dc) == multiset(all)
  {
    assert multiset(k) + multiset(d) == multiset([all[0]]) by {
      assert multiset(k + d) == multiset(k) + multiset(d);
    }
    assert all == [all[0]] + all[1..];
  }

  /** The first line goes either to the kept lines or to the dropped ones. */
  lemma {:induction false} PartitionStep(lines: seq<string>) returns (kept: seq<string>, dropped: seq<string>)
    requires |lines| > 0
    ensures kept + dropped == [lines[0]]
    ensures RemoveCommentLines(lines) == kept + RemoveCommentLines(lines[1..])
    ensures CommentLines(lines) == dropped + CommentLines(lines[1..])
  {
    if IsCommentLine(lines[0]) {
      kept, dropped := [], [lines[0]];
      assert RemoveCommentLines(lines) == [] + RemoveCommentLines(lines[1..]);
    } else {
      kept, dropped := [lines[0]], [];
      assert CommentLines(lines) == [] + CommentLines(lines[1..]);
    }
  }

  /** Expectations written inside a string literal are not blinded: in a
      docstring such as `"""`, `# EXPECTED:`, `   mypy: ...`, `"""`, only the
      line that starts with `#` is dropped, and the indented expectation under
      it stays. */
  lemma {:induction false} ExpectationInStringIsKept(quote: string, note: string, indent: nat, expectation: string)
    requires quote != [] && !IsSpace(quote[0]) && quote[0] != '#'
    requires expectation != [] && !IsSpace(expectation[0]) && expectation[0] != '#'
    ensures var line := seq(indent, _ => ' ') + expectation;
            RemoveCommentLines([quote, "#" + note, line, quote]) == [quote, line, quote]
  {
    var line := seq(indent, _ => ' ') + expectation;
    assert quote == seq(0, _ => ' ') + quote;
    IndentedCodeIsNoComment(0, quote);
    IndentedCodeIsNoComment(indent, expectation);
    HashLineIsComment(note);
    KeptStep(quote, []);
    KeptStep(line, [quote]);
    DroppedStep("#" + note, [line, quote]);
    KeptStep(quote, ["#" + note, line, quote]);
  }

  /** A line that starts with `#` is a comment line. */
  lemma {:induction false} HashLineIsComment(note: string)
    ensures IsCommentLine("#" + note)
  {
    CommentLineIsHashAfterIndent("#" + note);
    assert ("#" + note)[0] == '#';
  }

  /** A comment line is dropped in front of what follows it. */
  lemma {:induction false} DroppedStep(line: string, rest: seq<string>)
    requires IsCommentLine(line)
    ensures RemoveCommentLines([line] + rest) == RemoveCommentLines(rest)
  {
    assert ([line] + rest)[1..] == rest;
  }

  /** A line that is not a comment line is kept in front of what follows it. */
  lemma {:induction false} KeptStep(line: string, rest: seq<string>)
    requires !IsCommentLine(line)
    ensures RemoveCommentLines([line] + rest) == [line] + RemoveCommentLines(rest)
  {
    assert ([line] + rest)[1..] == rest;
  }

  /** An expectation written after code on the same line is not blinded. */
  lemma {:induction false} TrailingExpectationIsKept(code: string, note: string)
    requires code != [] && !IsSpace(code[0]) && code[0] != '#'
    ensures RemoveCommentLines([code + " # " + note]) == [code + " # " + note]
  {
    var line := code + " # " + note;
    assert line == seq(0, _ => ' ') + line;
    IndentedCodeIsNoComment(0, line);
    KeptStep(line, []);
  }

  /** A line of indentation followed by anything but `#` is not a comment line. */
  lemma {:induction false} IndentedCodeIsNoComment(indent: nat, text: string)
    requires text != [] && !IsSpace(text[0]) && text[0] != '#'
    ensures !IsCommentLine(seq(indent, _ => ' ') + text)
  {
    var line := seq(indent, _ => ' ') + text;
    CommentLineIsHashAfterIndent(line);
    assert forall i :: 0 <= i < indent ==> line[i] == ' ';
    assert line[indent] == text[0];
    assert forall i :: 0 <= i < |line| && line[i] == '#' ==> indent < i && !IsSpace(line[indent]);
  }

  /** Every non-comment line of the input reaches the output. */
  lemma {:induction false} KeepsEveryCodeLine(lines: seq<string>, line: string)
    requires line in lines && !IsCommentLine(line)
    ensures line in RemoveCommentLines(lines)
  {
    RemoveCommentLinesPartition(lines);
    assert line in multiset(lines);
  }

  /** Filtering twice is filtering once. */
  lemma {:induction false} RemoveCommentLinesIdempotent(lines: seq<string>)
    ensures RemoveCommentLines(RemoveCommentLines(lines)) == RemoveCommentLines(lines)
  {
    if |lines| > 0 {
      RemoveCommentLinesIdempotent(lines[1..]);
      var rest := RemoveCommentLines(lines[1..]);
      if !IsCommentLine(lines[0]) {
        assert ([lines[0]] + rest)[1..] == rest;
      }
    }
  }

  /** Filtering distributes over concatenation, so comment lines anywhere in the
      line list are invisible to what follows. */
  lemma {:induction false} RemoveCommentLinesConcat(a: seq<string>, b: seq<string>)
    ensures RemoveCommentLines(a + b) == RemoveCommentLines(a) + RemoveCommentLines(b)
  {
    if |a| > 0 {
      var ab := a + b;
      assert ab[0] == a[0];
      assert ab[1..] == a[1..] + b;
      RemoveCommentLinesConcat(a[1..], b);
      if IsCommentLine(a[0]) {
        assert RemoveCommentLines(ab) == RemoveCommentLines(ab[1..]);
      } else {
        assert RemoveCommentLines(ab) == [a[0]] + RemoveCommentLines(ab[1..]);
      }
    } else {
      assert a + b == b;
    }
  }

  /** `remove_comments(source_code)`. */
  function RemoveComments(source: string): string {
    JoinLines(RemoveCommentLines(SplitLines(source)))
  }

  /** What the judge sees, read back as lines: the kept lines (less a final empty
      one, which `splitlines` does not report). No comment line is among them, and
      there are fewer lines than in the source whenever the source had a comment line. */
  lemma {:induction false} BlindedLines(source: string)
    ensures var kept := RemoveCommentLines(SplitLines(source));
            var seen := SplitLines(RemoveComments(source));
            (seen == kept || (|kept| > 0 && kept[|kept| - 1] == "" && seen == kept[..|kept| - 1]))
    ensures forall k :: 0 <= k < |SplitLines(RemoveComments(source))| ==> !IsCommentLine(SplitLines(RemoveComments(source))[k])
    ensures |SplitLines(RemoveComments(source))| <= |SplitLines(source)|
    ensures (exists k :: 0 <= k < |SplitLines(source)| && IsCommentLine(SplitLines(source)[k]))
            ==> |SplitLines(RemoveComments(source))| < |SplitLines(source)|
  {
    var kept := RemoveCommentLines(SplitLines(source));
    var seen := SplitLines(RemoveComments(source));
    SeenLines(source);
    assert forall k :: 0 <= k < |seen| ==> !IsCommentLine(seen[k]) by {
      forall k | 0 <= k < |seen| ensures !IsCommentLine(seen[k]) {
        assert seen[k] == kept[k];
      }
    }
  }

  /** Reading the blinded text back as lines gives the kept lines, less a final empty one. */
  lemma {:induction false} SeenLines(source: string)
    ensures var kept := RemoveCommentLines(SplitLines(source));
            var seen := SplitLines(RemoveComments(source));
            && (seen == kept || (|kept| > 0 && kept[|kept| - 1] == "" && seen == kept[..|kept| - 1]))
            && |seen| <= |kept|
            && forall k :: 0 <= k < |seen| ==> seen[k] == kept[k]
  {
    var lines := SplitLines(source);
    var kept := RemoveCommentLines(lines);
    assert forall k :: 0 <= k < |kept| ==> '\n' !in kept[k] by {
      SubsequenceElements(kept, lines);
      forall k | 0 <= k < |kept| ensures '\n' !in kept[k] {
        assert kept[k] in lines;
      }
    }
    SplitLinesJoinLines(kept);
  }

  lemma {:induction false} SubsequenceElements<T>(sub: seq<T>, s: seq<T>)
    requires IsSubsequence(sub, s)
    ensures forall x :: x in sub ==> x in s
    decreases |s|
  {
    if |sub| > 0 {
      if sub[0] == s[0] && IsSubsequence(sub[1..], s[1..]) {
        SubsequenceElements(sub[1..], s[1..]);
        assert sub == [sub[0]] + sub[1..];
      } else {
        SubsequenceElements(sub, s[1..]);
      }
    }
  }

  /** A block made only of comment lines is removed entirely. */
  lemma {:induction false} AllCommentsRemoved(c: seq<string>)
    requires forall k :: 0 <= k < |c| ==> IsCommentLine(c[k])
    ensures RemoveCommentLines(c) == []
    decreases |c|
  {
    if |c| > 0 {
      assert IsCommentLine(c[0]);
      assert forall k :: 0 <= k < |c[1..]| ==> c[1..][k] == c[k + 1];
      AllCommentsRemoved(c[1..]);
    }
  }

  /** Inserting comment lines anywhere before the last line of a source, whose
      last line is not empty, leaves the text the judge sees unchanged: the
      comments cannot reach the judge. */
  lemma {:induction false} InsertedCommentsAreInvisible(a: seq<string>, c: seq<string>, b: seq<string>)
    requires forall k :: 0 <= k < |a| ==> '\n' !in a[k]
    requires forall k :: 0 <= k < |b| ==> '\n' !in b[k]
    requires forall k :: 0 <= k < |c| ==> '\n' !in c[k] && IsCommentLine(c[k])
    requires |b| > 0 && b[|b| - 1] != ""
    ensures RemoveComments(JoinLines(a + c + b)) == RemoveComments(JoinLines(a + b))
  {
    var withComments := a + c + b;
    var without := a + b;
    assert forall k :: 0 <= k < |withComments| ==> '\n' !in withComments[k] by {
      forall k | 0 <= k < |withComments| ensures '\n' !in withComments[k] {
        if k < |a| { assert withComments[k] == a[k]; }
        else if k < |a| + |c| { assert withComments[k] == c[k - |a|]; }
        else { assert withComments[k] == b[k - |a| - |c|]; }
      }
    }
    assert forall k :: 0 <= k < |without| ==> '\n' !in without[k] by {
      forall k | 0 <= k < |without| ensures '\n' !in without[k] {
        if k < |a| { assert without[k] == a[k]; }
        else { assert without[k] == b[k - |a|]; }
      }
    }
    assert withComments[|withComments| - 1] == b[|b| - 1];
    assert without[|without| - 1] == b[|b| - 1];
    SplitLinesJoinLines(withComments);
    SplitLinesJoinLines(without);
    RemoveCommentLinesConcat(a + c, b);
    RemoveCommentLinesConcat(a, c);
    RemoveCommentLinesConcat(a, b);
    AllCommentsRemoved(c);
    assert RemoveCommentLines(a) + [] == RemoveCommentLines(a);
  }
}
