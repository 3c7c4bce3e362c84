/** `main()` of eval.py: read the recorded checker outputs, blind the source,
    ask the judge about every checker, and build the final report. */
module Evaluation {
  import opened Wrappers
  import opened Strings
  import opened Blinding
  import opened Verdict
  import opened Scoring
  import opened ToolRun
  import opened GenerateJson

  /** Shown when the document names no analysed file. */
  const UnknownFile := "Unknown File"

  /** The keys of the loaded document that eval.py reads; `None` is a missing key.
      `outputs` lists the `outputs` dictionary's items in insertion order. */
  datatype JudgeInput = JudgeInput(sourceCode: Option<string>, outputs: Option<seq<(string, string)>>,
                                   analyzedFile: Option<string>)

  /** What the final report shows. */
  datatype Report = Report(analyzedFile: string, rows: seq<ReportRow>, totalPassed: nat, score: real)

  /** The `tasks` list gathered by `asyncio.gather`: one judged result per
      recorded output, in the order of the outputs. */
  function JudgeAll(outputs: seq<(string, string)>, cleanCode: string, judge: Judge): (results: seq<ToolResult>)
    ensures |results| == |outputs|
    ensures forall i :: 0 <= i < |outputs| ==> results[i].tool == outputs[i].0
    ensures forall i :: 0 <= i < |outputs| ==> results[i].reason == ReasonOf(judge(outputs[i].0, outputs[i].1, cleanCode))
    ensures forall i :: 0 <= i < |outputs| ==>
              (results[i].passed <==> judge(outputs[i].0, outputs[i].1, cleanCode).Answered?
                                      && IsPass(ParseReply(judge(outputs[i].0, outputs[i].1, cleanCode).output).verdict))
  {
    seq(|outputs|, i requires 0 <= i < |outputs| => EvaluateSingleTool(outputs[i].0, outputs[i].1, cleanCode, judge))
  }

  /** The report on `outputs`, each judged against `cleanCode`. */
  function ReportOn(analyzedFile: string, outputs: seq<(string, string)>, cleanCode: string, judge: Judge): (rep: Report)
    ensures rep.analyzedFile == analyzedFile
    ensures |rep.rows| == |outputs| && rep.totalPassed <= |outputs|
    ensures rep.totalPassed == |PassedPositions(JudgeAll(outputs, cleanCode, judge))|
    ensures rep.score == Accuracy(rep.totalPassed, |outputs|)
    ensures forall i :: 0 <= i < |outputs| ==>
              && rep.rows[i].tool == outputs[i].0
              && |rep.rows[i].reason| <= ReasonLimit
              && rep.rows[i].reason == TruncateReason(ReasonOf(judge(outputs[i].0, outputs[i].1, cleanCode)))
              && (rep.rows[i].status == Pass <==>
                    judge(outputs[i].0, outputs[i].1, cleanCode).Answered?
                    && IsPass(ParseReply(judge(outputs[i].0, outputs[i].1, cleanCode).output).verdict))
  {
    var results := JudgeAll(outputs, cleanCode, judge);
    var tally := TallyResults(results);
    TotalPassedCountsPassing(results);
    Report(analyzedFile, tally.rows, tally.totalPassed, Accuracy(tally.totalPassed, |results|))
  }

  /** `main()` of eval.py, given whether the input file exists and what it
      holds; `None` is the early return when the file is missing. Missing keys
      read as an empty source, no outputs, and an unknown file. */
  function Evaluate(inputExists: bool, data: JudgeInput, judge: Judge): (r: Option<Report>)
    ensures r.Some? <==> inputExists
    ensures r.Some? ==>
              r.value == ReportOn(data.analyzedFile.GetOr(UnknownFile), data.outputs.GetOr([]),
                                  RemoveComments(data.sourceCode.GetOr("")), judge)
  {
    if !inputExists then None
    else
      Some(ReportOn(data.analyzedFile.GetOr(UnknownFile), data.outputs.GetOr([]),
                    RemoveComments(data.sourceCode.GetOr("")), judge))
  }

  /** Over a non-empty list of results, the accuracy of the tally is 100%
      exactly when every printed row says PASS, and 0% exactly when every one
      says FAIL. */
  lemma {:induction false} TallyRowsExtremes(results: seq<ToolResult>)
    requires |results| > 0
    ensures var t := TallyResults(results);
            && (Accuracy(t.totalPassed, |results|) == 1.0 <==> forall i :: 0 <= i < |t.rows| ==> t.rows[i].status == Pass)
            && (Accuracy(t.totalPassed, |results|) == 0.0 <==> forall i :: 0 <= i < |t.rows| ==> t.rows[i].status == Fail)
  {
    var t := TallyResults(results);
    AccuracyExtremes(results);
    assert forall i :: 0 <= i < |t.rows| ==> t.rows[i].status == (if results[i].passed then Pass else Fail);
  }

  /** With at least one output, the score of a report is 100% exactly when
      every row says PASS, and 0% exactly when every row says FAIL. */
  lemma {:induction false} ReportScoreExtremes(analyzedFile: string, outputs: seq<(string, string)>, cleanCode: string,
                                               judge: Judge)
    requires |outputs| > 0
    ensures var rep := ReportOn(analyzedFile, outputs, cleanCode, judge);
            && (rep.score == 1.0 <==> forall i :: 0 <= i < |rep.rows| ==> rep.rows[i].status == Pass)
            && (rep.score == 0.0 <==> forall i :: 0 <= i < |rep.rows| ==> rep.rows[i].status == Fail)
  {
    var results := JudgeAll(outputs, cleanCode, judge);
    var t := TallyResults(results);
    assert ReportOn(analyzedFile, outputs, cleanCode, judge)
        == Report(analyzedFile, t.rows, t.totalPassed, Accuracy(t.totalPassed, |results|));
    TallyRowsExtremes(results);
  }

  /** With at least one recorded output, the accuracy is 100% exactly when
      every row says PASS, and 0% exactly when every row says FAIL. */
  lemma {:induction false} ScoreExtremes(data: JudgeInput, judge: Judge)
    requires |data.outputs.GetOr([])| > 0
    ensures var rep := Evaluate(true, data, judge).value;
            && (rep.score == 1.0 <==> forall i :: 0 <= i < |rep.rows| ==> rep.rows[i].status == Pass)
            && (rep.score == 0.0 <==> forall i :: 0 <= i < |rep.rows| ==> rep.rows[i].status == Fail)
  {
    var outputs, cleanCode := data.outputs.GetOr([]), RemoveComments(data.sourceCode.GetOr(""));
    assert Evaluate(true, data, judge).value == ReportOn(data.analyzedFile.GetOr(UnknownFile), outputs, cleanCode, judge);
    ReportScoreExtremes(data.analyzedFile.GetOr(UnknownFile), outputs, cleanCode, judge);
  }

  /** Comment lines inserted into the sample before its last line, which is
      not empty, cannot change the report. (A comment appended after the last
      line can: it leaves a final empty line in the text the judge sees.) */
  lemma {:induction false} CommentsCannotSwayTheReport(data: JudgeInput, judge: Judge,
                                    a: seq<string>, c: seq<string>, b: seq<string>)
    requires forall k :: 0 <= k < |a| ==> '\n' !in a[k]
    requires forall k :: 0 <= k < |b| ==> '\n' !in b[k]
    requires forall k :: 0 <= k < |c| ==> '\n' !in c[k] && IsCommentLine(c[k])
    requires |b| > 0 && b[|b| - 1] != ""
    ensures Evaluate(true, data.(sourceCode := Some(JoinLines(a + c + b))), judge)
         == Evaluate(true, data.(sourceCode := Some(JoinLines(a + b))), judge)
  {
    InsertedCommentsAreInvisible(a, c, b);
  }

  /** The document generate_json.py writes, read back: `json.dump` followed by
      `json.load` gives back the same keys and values. */
  function InputOf(rec: AnalysisRecord): (data: JudgeInput)
    ensures data.sourceCode == Some(rec.sourceCode) && data.outputs == Some(rec.outputs)
    ensures data.analyzedFile == Some(rec.analyzedFile)
  {
    JudgeInput(Some(rec.sourceCode), Some(rec.outputs), Some(rec.analyzedFile))
  }

  /** End to end: evaluating what generate_json.py recorded reports on the
      fixed sample, with one row per registered checker in registration order,
      and each checker is judged on its own output and the blinded sample. */
  lemma {:induction false} EvaluatesGeneratedRecord(content: string, exec: Exec, judge: Judge)
    ensures var rep := Evaluate(true, InputOf(Generate(true, content, exec).value), judge).value;
            var checkers := TypeCheckers();
            && rep.analyzedFile == SourceFilename
            && |rep.rows| == |checkers|
            && forall i :: 0 <= i < |checkers| ==>
                 var out := RunCommand(checkers[i].1, SourceFilename, exec);
                 && rep.rows[i].tool == checkers[i].0
                 && (rep.rows[i].status == Pass <==>
                       judge(checkers[i].0, out, RemoveComments(content)).Answered?
                       && IsPass(ParseReply(judge(checkers[i].0, out, RemoveComments(content)).output).verdict))
  {
    var checkers := TypeCheckers();
    var rec := Generate(true, content, exec).value;
    var data := InputOf(rec);
    var rep := ReportOn(SourceFilename, rec.outputs, RemoveComments(content), judge);
    assert Evaluate(true, data, judge).value == rep;
    assert Keys(rec.outputs) == Keys(checkers);
    forall i | 0 <= i < |checkers|
      ensures rec.outputs[i] == (checkers[i].0, RunCommand(checkers[i].1, SourceFilename, exec))
    {
      assert rec.outputs[i].0 == Keys(rec.outputs)[i] == Keys(checkers)[i];
    }
  }
}
