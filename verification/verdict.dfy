/** The judge's verdict for one tool (`evaluate_single_tool` in eval.py): the
    judge's free-text reply is parsed tolerantly into a label and a reason, and
    any failure of the judge becomes a failed result. */
module Verdict {
  import opened Strings

  /** What the judge produced: its text output, or the message of the exception it raised. */
  datatype JudgeReply = Answered(output: string) | Raised(message: string)

  /** The judge, as a function of tool name, tool output and comment-free source.
      The prompt wording that wraps these three is not part of this model. */
  type Judge = (string, string, string) -> JudgeReply

  /** A parsed reply: the upper-cased verdict and the explanation. */
  datatype ParsedReply = ParsedReply(verdict: string, reason: string)

  /** One entry of the evaluation: `{"tool", "passed", "reason"}`. */
  datatype ToolResult = ToolResult(tool: string, passed: bool, reason: string)

  const AgentErrorPrefix := "Agent Error: "

  predicate HasNoLowercase(s: string) {
    forall i :: 0 <= i < |s| ==> !('a' <= s[i] <= 'z')
  }

  lemma {:induction false} UpperIsTrimmed(s: string)
    requires IsTrimmed(s)
    ensures IsTrimmed(Upper(s)) && HasNoLowercase(Upper(s))
  {
    if s != [] {
      UpperCharKeepsSpace(s[0]);
      UpperCharKeepsSpace(s[|s| - 1]);
    }
  }

  /** The label text: everything before the first `|` when there is one, else
      the first space-separated word; stripped and upper-cased. */
  function LabelOf(raw: string): string {
    if '|' in raw then Upper(Strip(Before(raw, '|'))) else Upper(Strip(Before(raw, ' ')))
  }

  /** Parses the judge's reply. A reply shaped `LABEL | reason` is split at its
      first `|`; any other reply gives its first word as the label and the whole
      stripped reply as the reason. */
  function ParseReply(output: string): ParsedReply {
    var raw := Strip(output);
    if '|' in raw then ParsedReply(LabelOf(raw), Strip(After(raw, '|')))
    else ParsedReply(LabelOf(raw), raw)
  }

  /** Stripping cannot introduce a character. */
  lemma {:induction false} StripKeepsAbsence(s: string, c: char)
    requires c !in s
    ensures c !in Strip(s)
  {
    var l := LStrip(s);
    SliceKeepsAbsence(s, |s| - |l|, |s|, c);
    assert l == s[|s| - |l|..|s|];
    var r := RStrip(l);
    SliceKeepsAbsence(l, 0, |r|, c);
    assert r == l[0..|r|];
  }

  /** Upper-casing cannot introduce a character that is not an upper-case letter. */
  lemma {:induction false} UpperKeepsAbsence(s: string, c: char)
    requires c !in s && !('A' <= c <= 'Z')
    ensures c !in Upper(s)
  {
    var u := Upper(s);
    assert forall i :: 0 <= i < |u| ==> u[i] != c by {
      forall i | 0 <= i < |u| ensures u[i] != c {
        assert s[i] != c;
      }
    }
  }

  /** The verdict is stripped, upper-case, and free of its separator. */
  lemma {:induction false} LabelShape(raw: string)
    ensures HasNoLowercase(LabelOf(raw)) && IsTrimmed(LabelOf(raw))
    ensures '|' !in LabelOf(raw)
    ensures '|' !in raw ==> ' ' !in LabelOf(raw)
  {
    var c := if '|' in raw then '|' else ' ';
    var piece := Before(raw, c);
    UpperIsTrimmed(Strip(piece));
    StripKeepsAbsence(piece, c);
    UpperKeepsAbsence(Strip(piece), c);
    if c == ' ' {
      StripKeepsAbsence(piece, '|');
      UpperKeepsAbsence(Strip(piece), '|');
    }
  }

  /** What a parsed reply looks like: an upper-case, stripped verdict without
      the separator, and a stripped reason that is the whole reply when there is
      no `|`. */
  lemma {:induction false} ParsedReplyShape(output: string)
    ensures var v := ParseReply(output);
      && HasNoLowercase(v.verdict) && IsTrimmed(v.verdict)
      && '|' !in v.verdict
      && Strip(v.reason) == v.reason
      && ('|' !in Strip(output) ==> ' ' !in v.verdict && v.reason == Strip(output))
  {
    var raw := Strip(output);
    LabelShape(raw);
    StripIdempotent(output);
    if '|' in raw {
      StripIdempotent(After(raw, '|'));
    }
  }

  /** Whether a label counts as a pass: it mentions `CORRECT` but not `INCORRECT`. */
  predicate IsPass(verdict: string) {
    Contains(verdict, "CORRECT") && !Contains(verdict, "INCORRECT")
  }

  /** The reason recorded for a judge's reply: the parsed reason of an answer,
      or the agent-error text of a failure. */
  function ReasonOf(reply: JudgeReply): string {
    match reply
    case Answered(text) => ParseReply(text).reason
    case Raised(message) => AgentErrorPrefix + message
  }

  /** `evaluate_single_tool`: asks the judge about one tool's output on the
      comment-free source and turns the reply, or the failure, into a result. */
  function EvaluateSingleTool(tool: string, output: string, cleanCode: string, judge: Judge): (r: ToolResult)
    ensures r.tool == tool
    ensures judge(tool, output, cleanCode).Raised? ==>
              !r.passed && r.reason == AgentErrorPrefix + judge(tool, output, cleanCode).message
    ensures judge(tool, output, cleanCode).Answered? ==>
              r.reason == ParseReply(judge(tool, output, cleanCode).output).reason
    ensures r.reason == ReasonOf(judge(tool, output, cleanCode))
    ensures r.passed <==> judge(tool, output, cleanCode).Answered?
                          && IsPass(ParseReply(judge(tool, output, cleanCode).output).verdict)
  {
    match judge(tool, output, cleanCode)
    case Answered(text) =>
      var v := ParseReply(text);
      ToolResult(tool, IsPass(v.verdict), v.reason)
    case Raised(message) =>
      ToolResult(tool, false, AgentErrorPrefix + message)
  }

  // ---------------------------------------------------------------- properties

  lemma {:induction false} LStripOfFormatted(verdict: string, explanation: string)
    ensures LStrip(verdict + "|" + explanation) == (LStrip(verdict) + "|") + explanation
  {
    var b := "|" + explanation;
    assert b[0] == '|';
    LStripConcat(verdict, b);
    ConcatAssoc(verdict, "|", explanation);
    ConcatAssoc(LStrip(verdict), "|", explanation);
  }

  lemma {:induction false} RStripOfFormatted(l: string, explanation: string)
    ensures RStrip((l + "|") + explanation) == l + "|" + RStrip(explanation)
  {
    var a := l + "|";
    assert a[|a| - 1] == '|';
    RStripConcat(a, explanation);
  }

  /** Stripping a `LABEL|explanation` text strips only its outer ends. */
  lemma {:induction false} StripOfFormatted(verdict: string, explanation: string)
    ensures Strip(verdict + "|" + explanation) == LStrip(verdict) + "|" + RStrip(explanation)
  {
    LStripOfFormatted(verdict, explanation);
    RStripOfFormatted(LStrip(verdict), explanation);
  }

  /** A reply in the format the judge is asked for, `LABEL|explanation`, parses
      back to the (stripped, upper-cased) label and the stripped explanation. */
  lemma {:induction false} ReplyInRequestedFormat(verdict: string, explanation: string)
    requires '|' !in verdict
    ensures ParseReply(verdict + "|" + explanation) == ParsedReply(Upper(Strip(verdict)), Strip(explanation))
  {
    var l := LStrip(verdict);
    var e := RStrip(explanation);
    assert '|' !in l by {
      assert forall i :: 0 <= i < |l| ==> l[i] == verdict[|verdict| - |l| + i];
    }
    StripOfFormatted(verdict, explanation);
    var raw := l + "|" + e;
    IndexOfConcat(l, '|', e);
    assert raw[..|l|] == l;
    assert raw[|l| + 1..] == e;
    assert Before(raw, '|') == l;
    assert After(raw, '|') == e;
    StripOfLStrip(verdict);
    StripOfRStrip(explanation);
  }

  /** The label does not depend on letter case. */
  lemma {:induction false} LabelOfUpper(output: string)
    ensures ParseReply(Upper(output)).verdict == ParseReply(output).verdict
  {
    var raw := Strip(output);
    UpperStrip(output);
    assert Strip(Upper(output)) == Upper(raw);
    UpperBefore(raw, '|');
    UpperBefore(raw, ' ');
    var c := if '|' in raw then '|' else ' ';
    var piece := Before(raw, c);
    assert Before(Upper(raw), c) == Upper(piece);
    UpperStrip(piece);
    UpperIdempotent(Strip(piece));
  }

  /** Two replies that differ only in letter case get the same label, hence the same verdict. */
  lemma {:induction false} VerdictIgnoresCase(a: string, b: string)
    requires Upper(a) == Upper(b)
    ensures ParseReply(a).verdict == ParseReply(b).verdict
    ensures IsPass(ParseReply(a).verdict) == IsPass(ParseReply(b).verdict)
  {
    LabelOfUpper(a);
    LabelOfUpper(b);
  }

  /** A label mentioning `INCORRECT` always fails, even though it also contains `CORRECT`. */
  lemma {:induction false} IncorrectAlwaysFails(verdict: string)
    requires Contains(verdict, "INCORRECT")
    ensures !IsPass(verdict)
    ensures Contains(verdict, "CORRECT")
  {
    IncorrectContainsCorrect(verdict);
  }

  lemma {:induction false} IncorrectContainsCorrect(s: string)
    requires Contains(s, "INCORRECT")
    ensures Contains(s, "CORRECT")
    decreases |s|
  {
    if StartsWith(s, "INCORRECT") {
      assert StartsWith(s[2..], "CORRECT") by {
        assert s[2..][..7] == s[..9][2..];
      }
      assert Contains(s[1..][1..], "CORRECT");
      assert s[1..][1..] == s[2..];
    } else {
      IncorrectContainsCorrect(s[1..]);
    }
  }

  /** A reply without `|` is judged by its first word alone, whatever follows it. */
  lemma {:induction false} FirstWordDecides(word: string, rest: string)
    requires word != [] && IsTrimmed(word) && ' ' !in word && '|' !in word && '|' !in rest
    ensures ParseReply(word + " " + rest).verdict == Upper(word)
    ensures ParseReply(word + " " + rest).reason == Strip(word + " " + rest)
  {
    var tail := " " + rest;
    var text := word + tail;
    assert text == word + " " + rest;
    LStripAt(text, 0);
    RStripConcat(word, tail);
    var raw := word + RStrip(tail);
    assert Strip(text) == raw;
    assert '|' !in raw by {
      assert forall i :: 0 <= i < |raw| ==> raw[i] == text[i];
      assert '|' !in text;
    }
    if RStrip(tail) != [] {
      assert raw[|word|] == ' ';
      assert raw[..|word|] == word;
      BeforeAt(raw, ' ', |word|);
    } else {
      assert raw == word;
    }
    StripOfTrimmed(word);
  }

  // ---------------------------------------------------------------- examples

  /** A reply in the requested format whose label reads `correct` in any case,
      with any surrounding spaces, passes. */
  lemma {:induction false} ExampleCorrectPasses(verdict: string, explanation: string)
    requires '|' !in verdict && Upper(Strip(verdict)) == "CORRECT"
    ensures IsPass(ParseReply(verdict + "|" + explanation).verdict)
  {
    ReplyInRequestedFormat(verdict, explanation);
    assert StartsWith("CORRECT", "CORRECT");
    ShorterNotContains("CORRECT", "INCORRECT");
  }

  /** `VERDICT:` is already upper-case and does not mention `CORRECT`. */
  lemma {:induction false} VerdictWordFails()
    ensures Upper("VERDICT:") == "VERDICT:" && !IsPass("VERDICT:")
  {
    var w := "VERDICT:";
    forall i | 0 <= i < |w| ensures UpperChar(w[i]) == w[i] {
    }
    ShorterNotContains(w[2..], "CORRECT");
    assert w[..7][0] == 'V';
    assert w[1..][..7][0] == 'E';
  }

  /** A reply that opens with `VERDICT:` and has no `|` fails whatever it says
      next, `VERDICT: INCORRECT` and `VERDICT: CORRECT` alike, and its reason is
      the whole reply. */
  lemma {:induction false} ExampleVerdictPrefixFails(rest: string)
    requires '|' !in rest
    ensures var v := ParseReply("VERDICT: " + rest);
            v.verdict == "VERDICT:" && v.reason == Strip("VERDICT: " + rest) && !IsPass(v.verdict)
  {
    assert "VERDICT:" + " " + rest == "VERDICT: " + rest;
    FirstWordDecides("VERDICT:", rest);
    VerdictWordFails();
  }
}
