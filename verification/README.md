# tc-disagreement harness, modelled in Dafny

The tc-disagreement harness runs four Python type checkers (mypy, pyrefly,
zuban, ty) over sample programs. It records each checker's output and asks an
LLM judge whether each checker behaved correctly. This project models the
decision logic of that harness as pure Dafny functions and proves what they
guarantee:

- **Blinding** (`blinding.dfy`). `remove_comments` drops every line whose
  stripped form starts with `#`, and nothing else. Annotation text on any other
  line still reaches the judge. This includes the indented expectations inside
  the `"""` string of `only_mypy_correct.py` and a `# Expected: ...` written
  after code on the same line.
- **Verdicts** (`verdict.dfy`). `evaluate_single_tool` turns the judge's free
  text into a label and a reason, and turns any failure into a failed result.
- **Scoring** (`scoring.dfy`). The report loop of eval.py counts the passes,
  shortens long reasons and computes the accuracy.
- **Evaluation** (`evaluation.dfy`). `main()` of eval.py, from the loaded
  document to the final report. It also connects the record that
  generate_json.py writes to the report eval.py makes from it.
- **Running a checker** (`toolrun.dfy`). `run_tool` (run_checkers.py) and
  `run_command` (generate_json.py) combine stdout and stderr and strip the
  result, and they map failures to fixed messages.
- **Batches** (`batch.dfy`). run_checkers.py chooses the latest batch of
  generated samples, runs every checker on every sample and shapes the
  results document.
- **The single-file record** (`generate.dfy`). `main()` of generate_json.py.
- **The GitHub Models client** (`agent.py`, modelled in `agent.dfy`). This
  covers construction and `setup`, the request `communicate` builds, how the
  reply text is extracted, and how failures are mapped to errors.

Supporting modules:

- `wrappers.dfy`: `Option` and `Result`.
- `strings.dfy`: the Python `str` operations the harness uses.
- `paths.dfy`: `os.path.join` and `os.path.basename`.

Everything the harness does to the outside world is a parameter of the model:

- `Exec`: what `subprocess.run` did with a command line.
- `Judge`: the pydantic-ai agent's answer or exception.
- `Transport`: the outcome of `httpx.post`.
- `UrlCheck`: whether pydantic's `HttpUrl` type accepts a text.
- `glob`, `sourceDirExists` and the directory listing: what the file system holds.

A judge reply without `|` is judged by its first space-separated word. So a
reply such as `VERDICT: INCORRECT ...` has the label `VERDICT:`, which never
passes, and its reason is the whole reply (`ExampleVerdictPrefixFails`).

## Model

| member | source | states |
|---|---|---|
| Blinding.CommentLineByLeftStrip | src/tc_disagreement/eval.py:55 | A line counts as a comment exactly when its left-stripped form starts with `#`; trailing whitespace plays no part |
| Blinding.CommentLineIsHashAfterIndent | src/tc_disagreement/eval.py:55 | A line counts as a comment exactly when its first non-whitespace character is `#`, preceded only by whitespace |
| Blinding.RemoveCommentLines | src/tc_disagreement/eval.py:55 | The kept lines are a subsequence of the input in the original order, and none is a comment line. There are never more of them, and strictly fewer when the input has a comment line |
| Blinding.CommentLines | src/tc_disagreement/eval.py:55 | The dropped lines are all comment lines |
| Blinding.RemoveCommentLinesPartition | src/tc_disagreement/eval.py:55 | Kept lines plus dropped lines are exactly the input lines, as a multiset: nothing is lost or invented |
| Blinding.KeepsEveryCodeLine | src/tc_disagreement/eval.py:55 | Every non-comment input line appears in the output |
| Blinding.ExpectationInStringIsKept | src/tc_disagreement/eval.py:55 | In a docstring of expectations (a quote line, a `#` line, an indented expectation, a quote line), only the `#` line is dropped. The expectation reaches the judge, as in the `"""` string at lines 22-29 of only_mypy_correct.py |
| Blinding.TrailingExpectationIsKept | src/tc_disagreement/eval.py:55 | A line of code followed by ` # ` and a note is kept whole, so an expectation written after code reaches the judge |
| Blinding.RemoveCommentLinesIdempotent | src/tc_disagreement/eval.py:55 | Filtering an already filtered list changes nothing |
| Blinding.RemoveCommentLinesConcat | src/tc_disagreement/eval.py:55 | Filtering distributes over concatenation of line lists |
| Blinding.AllCommentsRemoved | src/tc_disagreement/eval.py:55 | A list made only of comment lines filters to nothing |
| Blinding.BlindedLines | src/tc_disagreement/eval.py:53-56 | The judge's text, read back as lines, is the kept lines (less a final empty one). It contains no comment line and has no more lines than the source, strictly fewer when the source has a comment line |
| Blinding.InsertedCommentsAreInvisible | src/tc_disagreement/eval.py:53-56 | Inserting comment lines among newline-free lines, anywhere before a last line that is not empty, leaves the blinded text unchanged. A comment after the last line can change it, since joining leaves a final empty line |
| Strings.SplitLinesJoinLines | src/tc_disagreement/eval.py:55-56 | Splitting joined newline-free lines gives them back, except that a final empty line is lost |
| Strings.StripEmptyIffAllSpace | src/tc_disagreement/run_checkers.py:49 | Stripping leaves the empty text exactly when the text is all whitespace |
| Verdict.LabelShape | src/tc_disagreement/eval.py:73-78 | The label is upper-case, stripped and free of `\|`. Without a `\|` in the reply it is also free of spaces, so it is a single word |
| Verdict.ParsedReplyShape | src/tc_disagreement/eval.py:71-79 | The parsed verdict is upper-case, stripped and `\|`-free, and the reason is stripped. Without a `\|`, the verdict is one word and the reason is the whole stripped reply |
| Verdict.ReplyInRequestedFormat | src/tc_disagreement/eval.py:71-76 | A reply `LABEL\|explanation` (LABEL without `\|`) parses to the stripped, upper-cased LABEL and the stripped explanation |
| Verdict.FirstWordDecides | src/tc_disagreement/eval.py:77-79 | A reply without `\|` has the upper-cased first word as its verdict, whatever follows, and the whole stripped reply as its reason |
| Verdict.LabelOfUpper | src/tc_disagreement/eval.py:73-78 | Upper-casing the reply does not change its verdict |
| Verdict.VerdictIgnoresCase | src/tc_disagreement/eval.py:73-81 | Two replies that differ only in letter case get the same verdict and the same pass/fail |
| Verdict.IncorrectAlwaysFails | src/tc_disagreement/eval.py:81 | A label mentioning `INCORRECT` fails, although it also contains `CORRECT` |
| Verdict.IncorrectContainsCorrect | src/tc_disagreement/eval.py:81 | Any text containing `INCORRECT` contains `CORRECT` |
| Verdict.EvaluateSingleTool | src/tc_disagreement/eval.py:58-93 | The result names the tool. It passes exactly when the judge answered and the parsed label is a pass. An answer gives the parsed reason of the reply; a judge exception gives a failed result with reason `Agent Error: ` plus the message |
| Verdict.ExampleCorrectPasses | src/tc_disagreement/eval.py:73-81 | A reply in the requested format whose label reads `correct`, in any case and with any spacing, passes |
| Verdict.VerdictWordFails | src/tc_disagreement/eval.py:78-81 | The word `VERDICT:` is its own upper-case form and is not a pass |
| Verdict.ExampleVerdictPrefixFails | src/tc_disagreement/eval.py:77-81 | A reply opening with `VERDICT: ` and holding no `\|` fails whatever follows, and its reason is the whole reply |
| Scoring.TruncateReason | src/tc_disagreement/eval.py:130-132 | A reason of at most 65 characters is unchanged. A longer one becomes its first 62 characters plus `...`, exactly 65 |
| Scoring.TruncateReasonIdempotent | src/tc_disagreement/eval.py:130-132 | Shortening a shortened reason changes nothing |
| Scoring.TallyResults | src/tc_disagreement/eval.py:124-134 | One row per result, in order, each with its status and shortened reason. The count never exceeds the number of results |
| Scoring.PassedPositionsSnoc | src/tc_disagreement/eval.py:127-128 | Appending a result adds one passing position exactly when that result passed |
| Scoring.TotalPassedCountsPassing | src/tc_disagreement/eval.py:124-128 | `total_passed` is the number of positions holding a passing result |
| Scoring.TallyAllPassed | src/tc_disagreement/eval.py:124-128 | `total_passed` equals the number of results exactly when every result passed |
| Scoring.TallyNonePassed | src/tc_disagreement/eval.py:124-128 | `total_passed` is zero exactly when no result passed |
| Scoring.Accuracy | src/tc_disagreement/eval.py:137 | The score lies in [0, 1]. It is 0 without results, and otherwise score times the number of results equals the number of passes |
| Scoring.AccuracyBounds | src/tc_disagreement/eval.py:137 | With at least one result, the score is 1 exactly when all passed and 0 exactly when none did |
| Scoring.AccuracyExtremes | src/tc_disagreement/eval.py:124-137 | Over a non-empty result list, accuracy 1 means every result passed and accuracy 0 means none did, both ways |
| Evaluation.JudgeAll | src/tc_disagreement/eval.py:112-116 | Every recorded output gets exactly one result, in order and naming its tool. It passes as the judge's reply decides, and its reason is the parsed reason of the answer or the agent-error text |
| Evaluation.ReportOn | src/tc_disagreement/eval.py:112-137 | The report has one row per output naming its tool, PASS exactly when the judge answered with a passing label, and as reason the judge's reason (parsed reason or agent-error text) shortened by the 65-character rule. The passed count is the number of passing results and the score is its accuracy |
| Evaluation.Evaluate | src/tc_disagreement/eval.py:95-106 | No report exactly when the input file is missing. Otherwise missing keys default to empty source, no outputs and `Unknown File`, and the source is blinded before judging |
| Evaluation.ScoreExtremes | src/tc_disagreement/eval.py:95-137 | With at least one output, the score is 100% exactly when every row says PASS and 0% exactly when every row says FAIL |
| Evaluation.CommentsCannotSwayTheReport | src/tc_disagreement/eval.py:103-104 | Inserting comment lines into the sample, anywhere before a last line that is not empty, leaves the whole report unchanged |
| Evaluation.EvaluatesGeneratedRecord | src/tc_disagreement/generate_json.py:60-71 | Evaluating a generated record reports on the fixed sample with one row per registered checker in registration order. Each checker is judged on its own `run_command` output against the blinded sample |
| ToolRun.FullCommand | src/tc_disagreement/run_checkers.py:36 | The command line is the checker's arguments with the file path appended last |
| ToolRun.CombineOutput | src/tc_disagreement/run_checkers.py:45-47 | The text starts with stdout. It is followed by `\n[STDERR]\n` and stderr exactly when stderr is non-empty |
| ToolRun.CombineOutputKeepsStderr | src/tc_disagreement/run_checkers.py:45-47 | Non-empty stderr survives intact, after stdout and the marker |
| ToolRun.RunTool | src/tc_disagreement/run_checkers.py:33-54 | The text is never empty. A completed run gives its stripped combined output, or `Success (No Output)` when that is empty. A missing binary gives `Error: Command '<command[0]>' not found in PATH.`, and any other exception gives `Execution Error: ` plus its message |
| ToolRun.RunCommand | src/tc_disagreement/generate_json.py:27-50 | A completed run gives its stripped combined output, possibly empty. A missing binary gives `... not found in system PATH.`, and any other exception gives `Execution Error: ` plus its message |
| ToolRun.RunToolIsRunCommandWithPlaceholder | src/tc_disagreement/run_checkers.py:49 | Whenever the binary was found, `run_tool` is `run_command` with an empty text replaced by the placeholder |
| ToolRun.SilentRunIsReported | src/tc_disagreement/generate_json.py:45 | A silent run yields the empty text in generate_json.py and the placeholder in run_checkers.py |
| ToolRun.RunCommandIsTrimmed | src/tc_disagreement/generate_json.py:41-45 | The text of a completed run is its own strip |
| Batch.Checkers | src/tc_disagreement/run_checkers.py:8-13 | Every registered command is non-empty and no name is registered twice |
| Batch.CheckerNames | src/tc_disagreement/run_checkers.py:97 | `checkers_used` is `mypy, pyrefly, zuban, ty`, in that order |
| Batch.Subdirs | src/tc_disagreement/run_checkers.py:23-24 | The joined path of every directory entry is listed, every listed path is such a join, and the list is empty exactly when no entry is a directory |
| Batch.MaxByKey | src/tc_disagreement/run_checkers.py:30 | `max` returns an element of the list |
| Batch.MaxIndexByKeyIsFirstGreatest | src/tc_disagreement/run_checkers.py:30 | The chosen key is at least every key and strictly greater than every key before it, so `max` keeps the first maximum |
| Batch.MaxByKeyIsGreatest | src/tc_disagreement/run_checkers.py:30 | The chosen element's key is at least every element's key |
| Batch.LatestGenerationDir | src/tc_disagreement/run_checkers.py:17-31 | A missing base directory and an absence of subdirectories are the two error exits. Otherwise the result is a subdirectory whose basename is lexicographically greatest |
| Batch.LatestIsGreatestName | src/tc_disagreement/run_checkers.py:23-31 | With separator-free entry names, the chosen batch is a directory entry's join, its basename is that entry's name, and that name is the greatest |
| Paths.JoinPath | src/tc_disagreement/run_checkers.py:23 | An absolute second part replaces the first. Otherwise the result is the first part, then exactly one `/` unless the first part is empty or already ends in `/`, then the second part |
| Paths.BaseName | src/tc_disagreement/run_checkers.py:76 | The result is the separator-free tail of the path, preceded by `/` when it is not the whole path |
| Paths.BaseNameOfJoin | src/tc_disagreement/run_checkers.py:23-30 | The basename of a directory joined with a plain name is that name |
| Batch.ToolOutputs | src/tc_disagreement/run_checkers.py:85-88 | The outputs' keys are exactly the registry's names in order. Each value is that checker's `run_tool` text and none is empty |
| Batch.CheckFile | src/tc_disagreement/run_checkers.py:75-91 | The entry records the file's basename, its path and the outputs of every registered checker |
| Batch.DocumentFor | src/tc_disagreement/run_checkers.py:93-99 | The timestamp is the batch directory's basename, `checkers_used` is the registry's names, and there is one entry per file in order |
| Batch.RunOnBatch | src/tc_disagreement/run_checkers.py:58-102 | A missing `source_files` directory and an empty glob are the two error exits. Otherwise the document for the globbed files is written to `results.json` in the batch directory |
| Batch.RunCheckers | src/tc_disagreement/run_checkers.py:56-104 | An error choosing the batch is the exit. Otherwise the run on the chosen batch is the result |
| Batch.OneOutputPerSampleAndChecker | src/tc_disagreement/run_checkers.py:75-91 | In a written document, each entry has one output per registered checker, in registration order, with distinct keys |
| Batch.StampedWithLatestBatch | src/tc_disagreement/run_checkers.py:93-96 | The written document is stamped with the greatest directory name and is written inside that directory |
| GenerateJson.TypeCheckers | src/tc_disagreement/generate_json.py:20-25 | Every registered command is non-empty and no name is registered twice |
| GenerateJson.CommandOutputs | src/tc_disagreement/generate_json.py:68-71 | The outputs' keys are exactly the registry's names in order, and each value is that checker's `run_command` text |
| GenerateJson.Generate | src/tc_disagreement/generate_json.py:52-76 | No record exactly when the sample is missing. Otherwise the record names the sample, carries its contents verbatim and holds every checker's output |
| GenerateJson.RecordOutputsAreTrimmed | src/tc_disagreement/generate_json.py:60-71 | The record lists every checker once in registration order, and each completed checker's output is trimmed |
| Agent.NewClient | src/tc_disagreement/agent.py:10-16 | Construction succeeds exactly when the timeout (default 120.0) is positive and a given base is one the `HttpUrl` type accepts. Otherwise the validation error lists exactly the failing fields. On success the client is valid, holds the given fields, and defaults the base to `https://models.github.ai/`, which is not checked |
| Agent.Setup | src/tc_disagreement/agent.py:37-58 | Each given argument replaces its field, each omitted one leaves it, and the URL and model list are untouched |
| Agent.SetupChangesOnlyGivenFields | src/tc_disagreement/agent.py:45-58 | A field changes exactly when its argument is given with a different value, and with no arguments the client is unchanged |
| Agent.SetupIdempotent | src/tc_disagreement/agent.py:37-58 | Applying the same update twice is applying it once |
| Agent.SetupAcceptsNonPositiveTimeout | src/tc_disagreement/agent.py:55-58 | As written, `setup(timeout=t)` with `t <= 0` turns a valid client into one the field constraint forbids |
| Agent.SetupValidated | src/tc_disagreement/agent.py:14-15 | The update is refused exactly when a given timeout is not positive or a given base is one the `HttpUrl` type rejects. The error lists exactly the failing fields. Otherwise the result is `setup`'s update |
| Agent.SetupValidatedPreservesValid | src/tc_disagreement/agent.py:15 | The checked update keeps every valid client valid |
| Agent.CompletionsUrl | src/tc_disagreement/agent.py:62-63 | The endpoint is the base with all trailing `/` removed, then `/inference/chat/completions`. The kept part is a prefix of the base and does not end in `/` |
| Agent.CompletionsUrlIgnoresTrailingSlashes | src/tc_disagreement/agent.py:62 | Any number of trailing slashes on the base gives the same endpoint |
| Agent.BuildRequest | src/tc_disagreement/agent.py:62-75 | The request goes to the endpoint with exactly four headers, including `Authorization: Bearer <token>`. The payload carries the model and one user message holding the prompt, and the timeout is the client's |
| Agent.ExtractReply | src/tc_disagreement/agent.py:77-81 | A truthy `choices[0].message.content` is accepted, and it is the only reply accepted. A document without `choices`, a first choice with a missing or falsy message, and a message object without truthy content are refused as invalid. A shape error arises when the document is not an object, when `choices` is not a non-empty list, when its first element is not an object, and when a truthy message is not an object. No other error arises |
| Agent.ExtractsReplyText | src/tc_disagreement/agent.py:77-82 | A well-formed completion yields its text when it is non-empty and is refused as invalid when it is empty |
| Agent.MissingMessageIsInvalid | src/tc_disagreement/agent.py:78-81 | A document without choices, or whose first choice has no truthy message, is refused as invalid |
| Agent.Communicate | src/tc_disagreement/agent.py:60-88 | A transport failure gives `Network error contacting GitHub Models: ...`, a non-2xx status gives `HTTP <status> from POST <url>: <text>`, and non-JSON is the decoder's error. Otherwise the result is the extracted reply or its error. Success implies a 2xx response |
| Agent.StatusReadBack | src/tc_disagreement/agent.py:83-86 | The status error's message starts with `HTTP `, followed by the digits of the status and a space, and those digits read back as the status |
| Agent.CommunicateReturnsReplyText | src/tc_disagreement/agent.py:74-82 | A 200 response carrying a well-formed completion with non-empty text returns that text |

## Left out

- Subprocesses, the file system, HTTP, the Gemini judge and environment variables are not modelled. They become parameters (`Exec`, `Judge`, `Transport`, `UrlCheck`, `glob`, `sourceDirExists`, the directory listing), so every property holds for every behaviour of the outside world that these parameters can express.
- `asyncio.gather` concurrency is not modelled: the judged results are kept in the order of the outputs, which is the order `gather` returns.
- Console output, JSON serialisation (`json.dump`, `indent=4`) and the `:.0%` formatting of the score are not modelled. The score is an exact rational.
- Prompt and rubric wording (the judge's system prompt, the per-tool prompt, `EXPERT_PROMPT`) is not modelled. The judge is a function of tool name, tool output and blinded source.
- `predict`, `print_models`, `cli_parser` and the `__main__` blocks are not modelled, because they are printing and argument parsing.
- Strings.IsSpace: whitespace is Python's set below U+0100 only. Upper-casing maps ASCII letters only.
- Strings.SplitLines: only `\n` ends a line. Python's other line boundaries (`\r`, `\r\n`, `\v`, `\f`, U+001C-U+001E, U+0085, U+2028, U+2029) are not modelled.
- Agent.ReplyOf: `str(msg)` of non-string content is kept as the JSON value (`Rendered`), not rendered as Python text.
- Agent.Json: JSON numbers are integers; floats are not modelled.
- Agent.NewClient: which texts the `HttpUrl` type accepts is a parameter (`UrlCheck`), and its normalisation of an accepted base URL is not modelled. The base is kept as the text given, and the default is the text pydantic produces for `https://models.github.ai`. The timeout is an exact real rather than a Python `float`. So `inf`, which passes `gt=0`, and `nan`, which fails it, cannot be expressed, and neither can `setup(timeout=float('nan'))`, which also stores a timeout the constraint forbids. The `url` and `AVAILABLE_MODELS` fields cannot be passed to the constructor, although pydantic accepts them as keywords; they always take their defaults.
- Agent.Communicate: the `str(e)` text of an httpx transport error is a parameter (`description`). The status text is the response body as given.
- Evaluation.Evaluate: an input file that exists but is not JSON, whose top level is not an object, whose `source_code` is not a string, or whose `outputs` is present but not an object makes eval.py raise. The last case raises from `len` at eval.py line 108 or from `.items()` at line 114. The model starts from the keys already read (`JudgeInput`) and does not model those exceptions.
- Evaluation.InputOf: the `json.dump` by generate_json.py followed by the `json.load` by eval.py is taken to give back the record's fields unchanged. That round trip is not proved.
- ToolRun.RunCommand: with an empty argument list and a missing binary, the source raises `IndexError` while building its message. The precondition excludes exactly that case, and every registered command is non-empty.
- ToolRun.RunTool: with an empty argument list and a missing binary, the source raises `IndexError` while building its message. The precondition excludes exactly that case, and every registered command is non-empty.
- Batch.RunOnBatch: `glob.glob`'s matching and ordering are a parameter. The model takes the returned list as given.
- Retries, back-off, UNKNOWN/ERROR verdict states and upserting of results are not modelled, because the code has none of them. The verdict is a boolean and each document is built once and written once.
- The sample programs under `generated_examples/`, `only_mypy_correct.py` and `disagreement.py` are not modelled. They are inputs for the type checkers, not logic of the harness.

## Findings

| source | as written | input that shows it | evidently intended | confidence | as-written member | corrected member |
|---|---|---|---|---|---|---|
| src/tc_disagreement/agent.py:37-58 | `setup` applies its updates with `model_copy(update=...)` and plain attribute assignment, and neither validates, so the `gt=0` constraint on `timeout` (line 15) is bypassed | a valid client and `setup(timeout=0.0)` (or any `t <= 0`): the client ends up with timeout 0.0 | "Validated updates": a non-positive timeout is refused, as it is at construction | not executed | Agent.SetupAcceptsNonPositiveTimeout | Agent.SetupValidatedPreservesValid |
