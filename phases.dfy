/**
 * What one candidate patch goes through after its workspace exists: apply the
 * patch to the target file, `defects4j compile`, `defects4j test`, then read
 * `failing_tests`. Both pipelines run these phases in this order
 * (`PatchEvaluation.evaluate` after its `copy_project`, and `validate_patch`);
 * the external tool is a black box whose observable answers are parameters.
 */
module Phases {
  import opened Common
  import Lines

  /** How one external `defects4j` command ended: its exit status, or killed by
      `subprocess.run`'s ten-minute timeout. */
  datatype ToolRun = Exit(code: int, stderr: string) | TimedOut

  /** Everything the external world answers while one unit runs. */
  datatype Tool = Tool(
    targetFile: Option<seq<string>>,   // lines of the file to patch in the workspace; None if it cannot be opened
    compile: ToolRun,
    test: ToolRun,
    failingTests: Option<string>)     // content of `failing_tests`; None if it cannot be opened

  /** Where a bug's patch goes: file and 1-based inclusive line range. */
  datatype Locus = Locus(file: string, first: int, last: int)

  /** The exceptions a unit can raise, by the class the source raises. */
  datatype Raised =
    | CompileError(message: string)   // compile exited non-zero
    | TestError(message: string)      // test harness exited non-zero
    | TimeoutExpired                  // a compile or test command exceeded its timeout
    | CheckoutFailure(message: string) // plain Exception from a failed checkout
    | FileError                       // OSError from opening a file

  /** What the unit's function hands back to its future. */
  datatype WorkerResult = Returned(passes: bool) | Threw(error: Raised)

  datatype Phase = Checkout | Copy | Apply | Compile | Test | ReadFailingTests

  /** The phases from `Apply` onwards, in program order. */
  const AfterCopy: seq<Phase> := [Apply, Compile, Test, ReadFailingTests]

  /** A run: which phases started, the worker's result, and the patched file
      as written back (when the apply phase completed). */
  datatype Run = Run(phases: seq<Phase>, result: WorkerResult, patched: Option<seq<string>>)

  /** `apply_patch`: the new lines of the target file. */
  function ApplyPatch(lines: seq<string>, locus: Locus, patch: string): seq<string>
  {
    Lines.Splice(lines, locus.first, locus.last, Lines.SplitLines(patch))
  }

  /** `passes_tests`: all tests passed exactly when the report is empty. */
  function PassesTests(failingTests: string): bool
  {
    failingTests == ""
  }

  /** One external command: a non-zero exit raises `onFailure`, a timeout raises
      `TimeoutExpired`, exit status 0 raises nothing. */
  function RunCommand(run: ToolRun, onFailure: string -> Raised): Option<Raised>
  {
    match run
    case TimedOut => Some(TimeoutExpired)
    case Exit(code, stderr) => if code != 0 then Some(onFailure(stderr)) else None
  }

  /** apply, compile, test, read `failing_tests`; an exception stops the run. */
  function RunFromApply(tool: Tool, locus: Locus, patch: string): Run
  {
    match tool.targetFile
    case None => Run([Apply], Threw(FileError), None)
    case Some(lines) =>
      var patched := Some(ApplyPatch(lines, locus, patch));
      match RunCommand(tool.compile, m => CompileError(m))
      case Some(e) => Run([Apply, Compile], Threw(e), patched)
      case None =>
        match RunCommand(tool.test, m => TestError(m))
        case Some(e) => Run([Apply, Compile, Test], Threw(e), patched)
        case None =>
          match tool.failingTests
          case None => Run(AfterCopy, Threw(FileError), patched)
          case Some(report) => Run(AfterCopy, Returned(PassesTests(report)), patched)
  }

  predicate IsPrefix(p: seq<Phase>, s: seq<Phase>)
  {
    |p| <= |s| && s[..|p|] == p
  }

  /** The phase order of a run: the phases that started are a non-empty prefix
      of apply, compile, test, read; compile starts only after the patch was
      written, test only after compile exited 0, the report is read only after
      the test run exited 0; and a normal return means every phase ran and the
      answer is whether the report is empty. */
  lemma PhaseOrder(tool: Tool, locus: Locus, patch: string)
    ensures var r := RunFromApply(tool, locus, patch);
      && IsPrefix(r.phases, AfterCopy) && |r.phases| >= 1
      && (Compile in r.phases <==> tool.targetFile.Some?)
      && (Compile in r.phases ==> r.patched == Some(ApplyPatch(tool.targetFile.value, locus, patch)))
      && (Test in r.phases <==> tool.targetFile.Some? && tool.compile.Exit? && tool.compile.code == 0)
      && (ReadFailingTests in r.phases <==> Test in r.phases && tool.test.Exit? && tool.test.code == 0)
      && (r.result.Returned? <==> ReadFailingTests in r.phases && tool.failingTests.Some?)
      && (r.result.Returned? ==> r.result.passes == (tool.failingTests.value == ""))
  {
  }

  /** Which exception a run raises, by the first phase that fails. */
  lemma RaisedBy(tool: Tool, locus: Locus, patch: string)
    ensures var r := RunFromApply(tool, locus, patch);
      && (r.result == Threw(FileError) <==>
            tool.targetFile.None? || (ReadFailingTests in r.phases && tool.failingTests.None?))
      && (r.result.Threw? && r.result.error.CompileError? <==>
            tool.targetFile.Some? && tool.compile.Exit? && tool.compile.code != 0)
      && (r.result.Threw? && r.result.error.TestError? <==>
            Test in r.phases && tool.test.Exit? && tool.test.code != 0)
      && (r.result == Threw(TimeoutExpired) <==>
            tool.targetFile.Some? && (tool.compile.TimedOut? || (Test in r.phases && tool.test.TimedOut?)))
      && !(r.result.Threw? && r.result.error.CheckoutFailure?)
  {
  }
}
