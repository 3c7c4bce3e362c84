/** Running one type checker on one file and turning what the process did into
    the text stored for it: `run_tool` in run_checkers.py and `run_command` in
    generate_json.py, which differ only in the empty-output placeholder and the
    wording of the missing-binary message. */
module ToolRun {
  import opened Strings

  /** What `subprocess.run` did with a command line: it ran to completion
      (whatever its exit code) with the captured output, the binary could not be
      found (`FileNotFoundError`), or some other exception was raised. */
  datatype ProcessOutcome = Completed(stdout: string, stderr: string) | BinaryNotFound | Crashed(message: string)

  /** The operating system, as far as the harness can observe it. */
  type Exec = seq<string> -> ProcessOutcome

  /** A registry of checkers: name and argument list, in registration order. */
  type Registry = seq<(string, seq<string>)>

  const StderrMarker := "\n[STDERR]\n"
  const NoOutputPlaceholder := "Success (No Output)"
  const ExecutionErrorPrefix := "Execution Error: "

  /** The command line that is run: the checker's arguments, then the file. */
  function FullCommand(command: seq<string>, path: string): (full: seq<string>)
    ensures |full| == |command| + 1
    ensures full[..|command|] == command && full[|command|] == path
  {
    command + [path]
  }

  /** Standard output, followed by the marked standard error when there is any. */
  function CombineOutput(stdout: string, stderr: string): (combined: string)
    ensures StartsWith(combined, stdout)
    ensures stderr == "" ==> combined == stdout
    ensures stderr != "" ==> combined[|stdout|..] == StderrMarker + stderr
  {
    if stderr != "" then stdout + StderrMarker + stderr else stdout
  }

  /** Standard error that is present is never lost: it follows the marker,
      right after standard output. */
  lemma {:induction false} CombineOutputKeepsStderr(stdout: string, stderr: string)
    requires stderr != ""
    ensures var c := CombineOutput(stdout, stderr);
            c[..|stdout|] == stdout && c[|stdout|..|stdout| + |StderrMarker|] == StderrMarker
            && c[|stdout| + |StderrMarker|..] == stderr
  {
  }

  function NotFoundInPath(command: seq<string>): string
    requires |command| > 0
  {
    "Error: Command '" + command[0] + "' not found in PATH."
  }

  function NotFoundInSystemPath(command: seq<string>): string
    requires |command| > 0
  {
    "Error: Command '" + command[0] + "' not found in system PATH."
  }

  /** `run_tool(command, filepath)` of run_checkers.py. The source reads
      `command[0]` only when the binary is missing, so only that case needs a
      non-empty command; with an empty one it would raise `IndexError` there. */
  function RunTool(command: seq<string>, path: string, exec: Exec): (text: string)
    requires |command| > 0 || !exec(FullCommand(command, path)).BinaryNotFound?
    ensures text != ""
    ensures exec(FullCommand(command, path)).BinaryNotFound? ==> text == NotFoundInPath(command)
    ensures exec(FullCommand(command, path)).Crashed? ==>
              text == ExecutionErrorPrefix + exec(FullCommand(command, path)).message
    ensures exec(FullCommand(command, path)).Completed? ==>
              var o := exec(FullCommand(command, path));
              var stripped := Strip(CombineOutput(o.stdout, o.stderr));
              text == (if stripped == "" then NoOutputPlaceholder else stripped)
  {
    match exec(FullCommand(command, path))
    case Completed(stdout, stderr) =>
      var output := CombineOutput(stdout, stderr);
      if Strip(output) != "" then Strip(output) else NoOutputPlaceholder
    case BinaryNotFound => NotFoundInPath(command)
    case Crashed(message) => ExecutionErrorPrefix + message
  }

  /** `run_command(command_args, filename)` of generate_json.py: the same
      combination and stripping, but an empty result stays empty. */
  function RunCommand(command: seq<string>, path: string, exec: Exec): (text: string)
    requires |command| > 0 || !exec(FullCommand(command, path)).BinaryNotFound?
    ensures exec(FullCommand(command, path)).BinaryNotFound? ==> text == NotFoundInSystemPath(command)
    ensures exec(FullCommand(command, path)).Crashed? ==>
              text == ExecutionErrorPrefix + exec(FullCommand(command, path)).message
    ensures exec(FullCommand(command, path)).Completed? ==>
              var o := exec(FullCommand(command, path));
              text == Strip(CombineOutput(o.stdout, o.stderr))
  {
    match exec(FullCommand(command, path))
    case Completed(stdout, stderr) => Strip(CombineOutput(stdout, stderr))
    case BinaryNotFound => NotFoundInSystemPath(command)
    case Crashed(message) => ExecutionErrorPrefix + message
  }

  /** The two runners agree except for the placeholder: whenever the binary was
      found, `run_tool` is `run_command` with an empty text replaced by the
      placeholder. */
  lemma {:induction false} RunToolIsRunCommandWithPlaceholder(command: seq<string>, path: string, exec: Exec)
    requires !exec(FullCommand(command, path)).BinaryNotFound?
    ensures RunTool(command, path, exec)
         == if RunCommand(command, path, exec) == "" then NoOutputPlaceholder else RunCommand(command, path, exec)
  {
  }

  /** A process that completed without printing anything, on either stream,
      yields the empty text in generate_json.py and the placeholder in
      run_checkers.py. */
  lemma {:induction false} SilentRunIsReported(command: seq<string>, path: string, exec: Exec)
    requires exec(FullCommand(command, path)) == Completed("", "")
    ensures RunCommand(command, path, exec) == ""
    ensures RunTool(command, path, exec) == NoOutputPlaceholder
  {
  }

  /** The text `run_command` reports for a completed process is already stripped. */
  lemma {:induction false} RunCommandIsTrimmed(command: seq<string>, path: string, exec: Exec)
    requires exec(FullCommand(command, path)).Completed?
    ensures Strip(RunCommand(command, path, exec)) == RunCommand(command, path, exec)
  {
    var o := exec(FullCommand(command, path));
    StripIdempotent(CombineOutput(o.stdout, o.stderr));
  }

  /** The keys of a list of pairs, in order: a registry's names (`CHECKERS.keys()`)
      or the keys of an `outputs` dictionary. */
  function Keys<V>(pairs: seq<(string, V)>): (keys: seq<string>)
    ensures |keys| == |pairs|
    ensures forall i :: 0 <= i < |pairs| ==> keys[i] == pairs[i].0
  {
    seq(|pairs|, i requires 0 <= i < |pairs| => pairs[i].0)
  }

  /** Every registered argument list is non-empty. */
  predicate CommandsNonEmpty(registry: Registry) {
    forall i :: 0 <= i < |registry| ==> |registry[i].1| > 0
  }

  /** No name is registered twice (the registries are dictionary literals). */
  predicate DistinctNames(registry: Registry) {
    forall i, j :: 0 <= i < j < |registry| ==> registry[i].0 != registry[j].0
  }
}
