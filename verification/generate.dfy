/** generate_json.py: run every type checker on one fixed sample and record
    the sample's text together with each checker's output. */
module GenerateJson {
  import opened Wrappers
  import opened Strings
  import opened ToolRun

  /** `SOURCE_FILENAME`: the sample analysed. */
  const SourceFilename := "only_mypy_correct.py"

  /** `TYPE_CHECKERS`, in registration order. */
  function TypeCheckers(): (registry: Registry)
    ensures CommandsNonEmpty(registry) && DistinctNames(registry)
  {
    [("mypy", ["mypy"]), ("pyrefly", ["pyrefly", "check"]), ("zuban", ["zuban", "check"]), ("ty", ["ty", "check"])]
  }

  /** The record written to `OUTPUT_JSON`. */
  datatype AnalysisRecord = AnalysisRecord(analyzedFile: string, sourceCode: string, outputs: seq<(string, string)>)

  /** Each checker of `registry`, in order, with the text `run_command` reports for it. */
  function CommandOutputs(registry: Registry, path: string, exec: Exec): (outputs: seq<(string, string)>)
    requires CommandsNonEmpty(registry)
    ensures Keys(outputs) == Keys(registry)
    ensures forall i :: 0 <= i < |registry| ==> outputs[i].1 == RunCommand(registry[i].1, path, exec)
  {
    seq(|registry|, i requires 0 <= i < |registry| => (registry[i].0, RunCommand(registry[i].1, path, exec)))
  }

  /** `main()` of generate_json.py, given whether the sample exists and its
      contents; `None` is the early return when the sample is missing, in
      which case nothing is written. */
  function Generate(sourceExists: bool, content: string, exec: Exec): (r: Option<AnalysisRecord>)
    ensures r.Some? <==> sourceExists
    ensures r.Some? ==> r.value.analyzedFile == SourceFilename && r.value.sourceCode == content
    ensures r.Some? ==> r.value.outputs == CommandOutputs(TypeCheckers(), SourceFilename, exec)
  {
    if !sourceExists then None
    else Some(AnalysisRecord(SourceFilename, content, CommandOutputs(TypeCheckers(), SourceFilename, exec)))
  }

  /** The record names every checker once, in registration order, and each
      checker's output is trimmed. */
  lemma {:induction false} RecordOutputsAreTrimmed(content: string, exec: Exec, i: nat)
    requires i < |TypeCheckers()|
    requires exec(FullCommand(TypeCheckers()[i].1, SourceFilename)).Completed?
    ensures var rec := Generate(true, content, exec).value;
            |rec.outputs| == |TypeCheckers()| && rec.outputs[i].0 == TypeCheckers()[i].0
            && Strip(rec.outputs[i].1) == rec.outputs[i].1
  {
    var rec := Generate(true, content, exec).value;
    assert Keys(rec.outputs)[i] == Keys(TypeCheckers())[i];
    RunCommandIsTrimmed(TypeCheckers()[i].1, SourceFilename, exec);
  }
}
