/** The final report of eval.py: one row per tool with a shortened reason, the
    number of passing tools, and the overall accuracy. */
module Scoring {
  import opened Verdict

  /** Reasons longer than this are shortened in the report. */
  const ReasonLimit: nat := 65
  /** How much of a long reason is kept before the ellipsis. */
  const KeptReasonLength: nat := 62
  const Ellipsis := "..."

  /** Shortens a reason for the report table. */
  function TruncateReason(reason: string): (r: string)
    ensures |r| <= ReasonLimit
    ensures |reason| <= ReasonLimit ==> r == reason
    ensures |reason| > ReasonLimit ==>
              |r| == ReasonLimit && r[..KeptReasonLength] == reason[..KeptReasonLength] && r[KeptReasonLength..] == Ellipsis
  {
    if |reason| > ReasonLimit then reason[..KeptReasonLength] + Ellipsis else reason
  }

  /** A shortened reason is short enough to be left alone the second time. */
  lemma {:induction false} TruncateReasonIdempotent(reason: string)
    ensures TruncateReason(TruncateReason(reason)) == TruncateReason(reason)
  {
  }

  datatype Status = Pass | Fail

  /** One printed line of the report: tool, PASS/FAIL, reason. */
  datatype ReportRow = ReportRow(tool: string, status: Status, reason: string)

  function RowOf(res: ToolResult): ReportRow {
    ReportRow(res.tool, if res.passed then Pass else Fail, TruncateReason(res.reason))
  }

  /** What the reporting loop accumulates: the printed rows and `total_passed`. */
  datatype Tally = Tally(rows: seq<ReportRow>, totalPassed: nat)

  /** Positions of the passing results. */
  function PassedPositions(results: seq<ToolResult>): set<nat> {
    set i: nat | i < |results| && results[i].passed
  }

  /** The reporting loop over the results, in order. */
  function TallyResults(results: seq<ToolResult>): (t: Tally)
    ensures |t.rows| == |results|
    ensures forall i :: 0 <= i < |results| ==> t.rows[i] == RowOf(results[i])
    ensures t.totalPassed <= |results|
  {
    if |results| == 0 then Tally([], 0)
    else
      var n := |results| - 1;
      var front := results[..n];
      var t := TallyResults(front);
      var last := results[n];
      assert forall i :: 0 <= i < n ==> front[i] == results[i];
      Tally(t.rows + [RowOf(last)], t.totalPassed + if last.passed then 1 else 0)
  }

  /** Adding a result at the end adds one passing position exactly when it passed. */
  lemma {:induction false} PassedPositionsSnoc(results: seq<ToolResult>)
    requires |results| > 0
    ensures |PassedPositions(results)|
         == |PassedPositions(results[..|results| - 1])| + if results[|results| - 1].passed then 1 else 0
  {
    var n := |results| - 1;
    var front := results[..n];
    var extra: set<nat> := if results[n].passed then {n} else {};
    assert forall i: nat :: i in PassedPositions(results) <==> i in PassedPositions(front) + extra by {
      forall i: nat ensures i in PassedPositions(results) <==> i in PassedPositions(front) + extra {
        if i < n {
          assert front[i] == results[i];
        }
      }
    }
    assert PassedPositions(results) == PassedPositions(front) + extra;
    assert n !in PassedPositions(front);
  }

  /** `total_passed` is the number of positions holding a passing result. */
  lemma {:induction false} TotalPassedCountsPassing(results: seq<ToolResult>)
    ensures TallyResults(results).totalPassed == |PassedPositions(results)|
  {
    if |results| > 0 {
      TotalPassedCountsPassing(results[..|results| - 1]);
      PassedPositionsSnoc(results);
    }
  }

  /** The count reaches the number of results exactly when every result passed. */
  lemma {:induction false} TallyAllPassed(results: seq<ToolResult>)
    ensures TallyResults(results).totalPassed == |results| <==> forall i :: 0 <= i < |results| ==> results[i].passed
    decreases |results|
  {
    if |results| > 0 {
      var n := |results| - 1;
      var front := results[..n];
      TallyAllPassed(front);
      assert forall i :: 0 <= i < n ==> front[i] == results[i];
    }
  }

  /** The count stays at zero exactly when no result passed. */
  lemma {:induction false} TallyNonePassed(results: seq<ToolResult>)
    ensures TallyResults(results).totalPassed == 0 <==> forall i :: 0 <= i < |results| ==> !results[i].passed
    decreases |results|
  {
    if |results| > 0 {
      var n := |results| - 1;
      var front := results[..n];
      TallyNonePassed(front);
      assert forall i :: 0 <= i < n ==> front[i] == results[i];
    }
  }

  /** The share of passing results, as an exact fraction; zero when there are no results. */
  function Accuracy(passed: nat, total: nat): (score: real)
    requires passed <= total
    ensures 0.0 <= score <= 1.0
    ensures total == 0 ==> score == 0.0
    ensures total > 0 ==> score * (total as real) == passed as real
  {
    if total > 0 then (passed as real) / (total as real) else 0.0
  }

  /** A positive count: the score is 1 exactly when all passed, 0 exactly when none did. */
  lemma {:induction false} AccuracyBounds(passed: nat, total: nat)
    requires 0 < total && passed <= total
    ensures Accuracy(passed, total) == 1.0 <==> passed == total
    ensures Accuracy(passed, total) == 0.0 <==> passed == 0
  {
    var n := total as real;
    var score := Accuracy(passed, total);
    if passed == total {
      assert score == n / n;
    }
    if score == 1.0 {
      assert passed as real == n;
    }
  }

  /** Over a non-empty list, the accuracy is 1 exactly when every tool passed
      and 0 exactly when none did. */
  lemma {:induction false} AccuracyExtremes(results: seq<ToolResult>)
    requires |results| > 0
    ensures var t := TallyResults(results);
            && (Accuracy(t.totalPassed, |results|) == 1.0 <==> forall i :: 0 <= i < |results| ==> results[i].passed)
            && (Accuracy(t.totalPassed, |results|) == 0.0 <==> forall i :: 0 <= i < |results| ==> !results[i].passed)
  {
    AccuracyBounds(TallyResults(results).totalPassed, |results|);
    TallyAllPassed(results);
    TallyNonePassed(results);
  }
}
