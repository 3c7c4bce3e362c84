/** run_checkers.py: choose the most recent batch of generated samples, run
    every registered checker on every sample, and shape the results document. */
module Batch {
  import opened Wrappers
  import opened Strings
  import opened Paths
  import opened ToolRun

  /** `CHECKERS`: the registered checkers, in registration order. */
  function Checkers(): (registry: Registry)
    ensures CommandsNonEmpty(registry) && DistinctNames(registry)
  {
    [("mypy", ["mypy"]), ("pyrefly", ["pyrefly", "check"]), ("zuban", ["zuban", "check"]), ("ty", ["ty", "check"])]
  }

  const BaseGenDir := "generated_examples"
  const SourceFilesDir := "source_files"
  const ResultsFileName := "results.json"

  /** The pattern handed to `glob.glob` for a batch directory. */
  function SourcePattern(target: string): string {
    JoinPath(JoinPath(target, SourceFilesDir), "*.py")
  }

  /** `checkers_used` lists the registry's names in registration order. */
  lemma {:induction false} CheckerNames()
    ensures Keys(Checkers()) == ["mypy", "pyrefly", "zuban", "ty"]
  {
  }

  /** One entry of `os.listdir(BASE_GEN_DIR)` and whether it is a directory. */
  datatype DirEntry = DirEntry(name: string, isDir: bool)

  /** The reasons run_checkers.py stops with exit status 1. */
  datatype Exit = MissingBaseDir | NoGenerations | MissingSourceFiles(dir: string) | NoPythonFiles

  /** The paths of the directory entries that are directories, each joined onto
      the base directory, in listing order. */
  function Subdirs(entries: seq<DirEntry>): (paths: seq<string>)
    ensures |paths| <= |entries|
    ensures forall i :: 0 <= i < |entries| && entries[i].isDir ==> JoinPath(BaseGenDir, entries[i].name) in paths
    ensures forall p :: p in paths ==>
              exists i :: 0 <= i < |entries| && entries[i].isDir && p == JoinPath(BaseGenDir, entries[i].name)
    ensures |paths| == 0 <==> forall i :: 0 <= i < |entries| ==> !entries[i].isDir
  {
    if |entries| == 0 then []
    else
      var rest := Subdirs(entries[1..]);
      assert forall i :: 1 <= i < |entries| ==> entries[i] == entries[1..][i - 1];
      if entries[0].isDir then [JoinPath(BaseGenDir, entries[0].name)] + rest else rest
  }

  /** The position `max(xs, key=key)` takes its result from: scanning left to
      right, a later element replaces the running maximum only if its key is
      strictly greater. */
  function MaxIndexByKey(xs: seq<string>, key: string -> string): (j: nat)
    requires |xs| > 0
    ensures j < |xs|
  {
    if |xs| == 1 then 0
    else
      var j := MaxIndexByKey(xs[..|xs| - 1], key);
      if LexLt(key(xs[j]), key(xs[|xs| - 1])) then |xs| - 1 else j
  }

  /** `max(xs, key=key)` on a non-empty list. */
  function MaxByKey(xs: seq<string>, key: string -> string): (m: string)
    requires |xs| > 0
    ensures m in xs
  {
    xs[MaxIndexByKey(xs, key)]
  }

  /** The chosen element's key is at least every element's key, and strictly
      greater than the key of every element before it: `max` returns the
      first of the elements whose key is greatest. */
  lemma {:induction false} MaxIndexByKeyIsFirstGreatest(xs: seq<string>, key: string -> string)
    requires |xs| > 0
    ensures var j := MaxIndexByKey(xs, key);
            && (forall i :: 0 <= i < |xs| ==> LexLe(key(xs[i]), key(xs[j])))
            && (forall i :: 0 <= i < j ==> LexLt(key(xs[i]), key(xs[j])))
  {
    if |xs| == 1 {
      LexLeReflexive(key(xs[0]));
    } else {
      var front := xs[..|xs| - 1];
      var j := MaxIndexByKey(front, key);
      var last := |xs| - 1;
      MaxIndexByKeyIsFirstGreatest(front, key);
      assert forall i :: 0 <= i < last ==> xs[i] == front[i];
      if LexLt(key(xs[j]), key(xs[last])) {
        forall i | 0 <= i < last
          ensures LexLt(key(xs[i]), key(xs[last]))
        {
          LexLeTransitive(key(xs[i]), key(xs[j]), key(xs[last]));
          if key(xs[i]) == key(xs[last]) {
            LexLeAntisymmetric(key(xs[j]), key(xs[last]));
          }
        }
        LexLeReflexive(key(xs[last]));
      } else {
        LexLeTotal(key(xs[j]), key(xs[last]));
        LexLeReflexive(key(xs[j]));
      }
    }
  }

  /** The chosen element's key is at least every element's key. */
  lemma {:induction false} MaxByKeyIsGreatest(xs: seq<string>, key: string -> string)
    requires |xs| > 0
    ensures forall i :: 0 <= i < |xs| ==> LexLe(key(xs[i]), key(MaxByKey(xs, key)))
  {
    MaxIndexByKeyIsFirstGreatest(xs, key);
  }

  /** `get_latest_generation_dir()`, given whether the base directory exists and its listing. */
  function LatestGenerationDir(baseExists: bool, entries: seq<DirEntry>): (r: Result<string, Exit>)
    ensures !baseExists ==> r == Err(MissingBaseDir)
    ensures baseExists && (forall i :: 0 <= i < |entries| ==> !entries[i].isDir) ==> r == Err(NoGenerations)
    ensures r.Ok? ==> r.value in Subdirs(entries)
    ensures r.Ok? ==> forall i :: 0 <= i < |Subdirs(entries)| ==> LexLe(BaseName(Subdirs(entries)[i]), BaseName(r.value))
    ensures r.Err? ==> !baseExists || forall i :: 0 <= i < |entries| ==> !entries[i].isDir
  {
    if !baseExists then Err(MissingBaseDir)
    else
      var subdirs := Subdirs(entries);
      if |subdirs| == 0 then Err(NoGenerations)
      else
        MaxByKeyIsGreatest(subdirs, BaseName);
        Ok(MaxByKey(subdirs, BaseName))
  }

  /** Directory names never contain a separator, so the chosen batch is the
      directory entry with the greatest name, and that name is its basename,
      the batch's timestamp. */
  lemma {:induction false} LatestIsGreatestName(baseExists: bool, entries: seq<DirEntry>)
    requires forall i :: 0 <= i < |entries| ==> '/' !in entries[i].name
    requires LatestGenerationDir(baseExists, entries).Ok?
    ensures var latest := LatestGenerationDir(baseExists, entries).value;
            exists i :: 0 <= i < |entries| && entries[i].isDir
                     && latest == JoinPath(BaseGenDir, entries[i].name)
                     && BaseName(latest) == entries[i].name
                     && forall j :: 0 <= j < |entries| && entries[j].isDir ==> LexLe(entries[j].name, entries[i].name)
  {
    var latest := LatestGenerationDir(baseExists, entries).value;
    var i :| 0 <= i < |entries| && entries[i].isDir && latest == JoinPath(BaseGenDir, entries[i].name);
    BaseNameOfJoin(BaseGenDir, entries[i].name);
    forall j | 0 <= j < |entries| && entries[j].isDir
      ensures LexLe(entries[j].name, entries[i].name)
    {
      BaseNameOfJoin(BaseGenDir, entries[j].name);
      assert JoinPath(BaseGenDir, entries[j].name) in Subdirs(entries);
    }
  }

  /** `file_result` for one sample: its name, its path, and one output per checker. */
  datatype FileResult = FileResult(filename: string, filepath: string, outputs: seq<(string, string)>)

  /** The results document: `{timestamp, checkers_used, results}`. */
  datatype ResultsDocument = ResultsDocument(timestamp: string, checkersUsed: seq<string>, results: seq<FileResult>)

  /** What is written, and where. */
  datatype Written = Written(path: string, document: ResultsDocument)

  /** The `outputs` of one sample: each checker of `registry`, in order, with
      the text `run_tool` reports for it. */
  function ToolOutputs(registry: Registry, path: string, exec: Exec): (outputs: seq<(string, string)>)
    requires CommandsNonEmpty(registry)
    ensures Keys(outputs) == Keys(registry)
    ensures forall i :: 0 <= i < |registry| ==> outputs[i].1 == RunTool(registry[i].1, path, exec)
    ensures forall i :: 0 <= i < |outputs| ==> outputs[i].1 != ""
  {
    seq(|registry|, i requires 0 <= i < |registry| => (registry[i].0, RunTool(registry[i].1, path, exec)))
  }

  /** Runs every checker of `registry`, in order, on one sample. */
  function CheckFile(registry: Registry, path: string, exec: Exec): (fr: FileResult)
    requires CommandsNonEmpty(registry)
    ensures fr.filename == BaseName(path) && fr.filepath == path
    ensures fr.outputs == ToolOutputs(registry, path, exec)
  {
    FileResult(BaseName(path), path, ToolOutputs(registry, path, exec))
  }

  /** `final_output` for the batch `target` and its sample files, in order. */
  function DocumentFor(target: string, files: seq<string>, exec: Exec): (doc: ResultsDocument)
    ensures doc.timestamp == BaseName(target)
    ensures doc.checkersUsed == Keys(Checkers())
    ensures |doc.results| == |files|
    ensures forall i :: 0 <= i < |files| ==> doc.results[i] == CheckFile(Checkers(), files[i], exec)
  {
    ResultsDocument(BaseName(target), Keys(Checkers()),
                    seq(|files|, i requires 0 <= i < |files| => CheckFile(Checkers(), files[i], exec)))
  }

  /** The part of `main()` of run_checkers.py after the batch `target` is
      chosen. The file system is given by `sourceDirExists` and `glob` (the
      paths matching a pattern, in the order `glob.glob` returns them);
      `exec` runs the checkers. The document is written beside the samples. */
  function RunOnBatch(target: string, sourceDirExists: string -> bool, glob: string -> seq<string>,
                      exec: Exec): (r: Result<Written, Exit>)
    ensures !sourceDirExists(JoinPath(target, SourceFilesDir)) ==> r == Err(MissingSourceFiles(target))
    ensures sourceDirExists(JoinPath(target, SourceFilesDir)) && |glob(SourcePattern(target))| == 0
            ==> r == Err(NoPythonFiles)
    ensures sourceDirExists(JoinPath(target, SourceFilesDir)) && |glob(SourcePattern(target))| > 0
            ==> r == Ok(Written(JoinPath(target, ResultsFileName), DocumentFor(target, glob(SourcePattern(target)), exec)))
  {
    if !sourceDirExists(JoinPath(target, SourceFilesDir)) then Err(MissingSourceFiles(target))
    else
      var files := glob(SourcePattern(target));
      if |files| == 0 then Err(NoPythonFiles)
      else Ok(Written(JoinPath(target, ResultsFileName), DocumentFor(target, files, exec)))
  }

  /** `main()` of run_checkers.py: find the latest batch, then run on it. */
  function RunCheckers(baseExists: bool, entries: seq<DirEntry>, sourceDirExists: string -> bool,
                       glob: string -> seq<string>, exec: Exec): (r: Result<Written, Exit>)
    ensures LatestGenerationDir(baseExists, entries).Err? ==> r == Err(LatestGenerationDir(baseExists, entries).error)
    ensures LatestGenerationDir(baseExists, entries).Ok? ==>
              r == RunOnBatch(LatestGenerationDir(baseExists, entries).value, sourceDirExists, glob, exec)
  {
    match LatestGenerationDir(baseExists, entries)
    case Err(e) => Err(e)
    case Ok(target) => RunOnBatch(target, sourceDirExists, glob, exec)
  }

  /** Every pair of sample and registered checker has exactly one output in the
      document: each entry lists each checker once, in registration order. */
  lemma {:induction false} OneOutputPerSampleAndChecker(baseExists: bool, entries: seq<DirEntry>, sourceDirExists: string -> bool,
                                     glob: string -> seq<string>, exec: Exec, i: nat, j: nat, k: nat)
    requires RunCheckers(baseExists, entries, sourceDirExists, glob, exec).Ok?
    requires i < |RunCheckers(baseExists, entries, sourceDirExists, glob, exec).value.document.results|
    requires j < k < |Checkers()|
    ensures var fr := RunCheckers(baseExists, entries, sourceDirExists, glob, exec).value.document.results[i];
            |fr.outputs| == |Checkers()| && fr.outputs[j].0 == Checkers()[j].0 && fr.outputs[j].0 != fr.outputs[k].0
  {
    var fr := RunCheckers(baseExists, entries, sourceDirExists, glob, exec).value.document.results[i];
    assert fr.outputs == ToolOutputs(Checkers(), fr.filepath, exec);
    assert Keys(fr.outputs)[j] == Keys(Checkers())[j];
    assert Keys(fr.outputs)[k] == Keys(Checkers())[k];
  }

  /** The document written is stamped with the greatest directory name in the
      base directory, and is written inside that directory. */
  lemma {:induction false} StampedWithLatestBatch(baseExists: bool, entries: seq<DirEntry>, sourceDirExists: string -> bool,
                               glob: string -> seq<string>, exec: Exec)
    requires forall i :: 0 <= i < |entries| ==> '/' !in entries[i].name
    requires RunCheckers(baseExists, entries, sourceDirExists, glob, exec).Ok?
    ensures var w := RunCheckers(baseExists, entries, sourceDirExists, glob, exec).value;
            exists i :: 0 <= i < |entries| && entries[i].isDir
                     && w.document.timestamp == entries[i].name
                     && w.path == JoinPath(JoinPath(BaseGenDir, entries[i].name), ResultsFileName)
                     && forall j :: 0 <= j < |entries| && entries[j].isDir ==> LexLe(entries[j].name, entries[i].name)
  {
    LatestIsGreatestName(baseExists, entries);
  }
}
