/**
 * `src/evaluate/evaluate_patches.py`: every candidate patch of every bug
 * becomes one evaluation unit; a unit checks out the bug's buggy version once
 * (into `<work>/<bug id>/original`), copies it to its own clone, applies the
 * patch, compiles and tests; the driver classifies each unit and writes the
 * patch text to `<results>/<project>/<number>/prompt-<i>/<outcome>/patch-<j>.txt`.
 */
module EvaluatePatches {
  import opened Common
  import Paths
  import opened Phases

  // ---------------------------------------------------------------------
  // Entities
  // ---------------------------------------------------------------------

  /** The outcome taxonomy; `Value` is the directory name the enum member carries. */
  datatype EvaluationResult = Plausible | Failing | Uncompilable | FailedTestExecution | Timeout
  {
    function Value(): string
    {
      match this
      case Plausible => "plausible"
      case Failing => "failing"
      case Uncompilable => "uncompilable"
      case FailedTestExecution => "failed_test_execution"
      case Timeout => "timeout"
    }
  }

  /** A bug of the bug dataset: its `id`, `project`, `number` and `replacement_info`. */
  datatype Bug = Bug(id: string, project: string, number: string, locus: Locus)

  /** A candidate: the prompt that produced it, its rank in that prompt's list, and its text. */
  datatype Patch = Patch(promptIndex: nat, patchIndex: nat, text: string)

  /** The exit status and diagnostics of `defects4j checkout`. */
  datatype CheckoutRun = CheckoutRun(code: int, stderr: string)

  /** How waiting on a unit's future ends: the worker finished within the
      fifteen-minute wait, or the wait ran out first. */
  datatype Awaited = Finished(result: WorkerResult) | WaitExpired

  /** The enum values are distinct directory names. */
  lemma ValueIsSegment(o: EvaluationResult, o': EvaluationResult)
    ensures Paths.IsSegment(o.Value())
    ensures o.Value() == o'.Value() ==> o == o'
  {
  }

  // ---------------------------------------------------------------------
  // The worker (`evaluate`) and the classification (`await_result`)
  // ---------------------------------------------------------------------

  /** `evaluate`: `copy_project` (checking out first when the original directory
      is missing), then apply, compile, test and read the report. */
  function EvaluateRun(originalExists: bool, checkout: CheckoutRun, tool: Tool, locus: Locus, patch: string): Run
  {
    if !originalExists && checkout.code != 0 then
      Run([Checkout], Threw(CheckoutFailure(checkout.stderr)), None)
    else
      var before := if originalExists then [Copy] else [Checkout, Copy];
      var r := RunFromApply(tool, locus, patch);
      Run(before + r.phases, r.result, r.patched)
  }

  /** `future.result(timeout=15*60)` */
  function Await(worker: WorkerResult, waitExpired: bool): Awaited
  {
    if waitExpired then WaitExpired else Finished(worker)
  }

  /** `await_result`: the outcome, or the exception that escapes it. */
  function Classify(a: Awaited): (r: Result<EvaluationResult, Raised>)
    ensures r.Err? <==> a.Finished? && a.result.Threw? && (a.result.error.CheckoutFailure? || a.result.error.FileError?)
  {
    match a
    case WaitExpired => Ok(Timeout)
    case Finished(Returned(passes)) => Ok(if passes then Plausible else Failing)
    case Finished(Threw(e)) =>
      match e
      case CompileError(_) => Ok(Uncompilable)
      case TestError(_) => Ok(FailedTestExecution)
      case TimeoutExpired => Ok(Timeout)
      case CheckoutFailure(_) => Err(e)
      case FileError => Err(e)
  }

  /** The outcome table, stated directly over what the tool and the clock
      observed: an expired wait is a timeout whatever else happened; otherwise the
      first failing phase decides. */
  function OutcomeTable(originalExists: bool, checkout: CheckoutRun, tool: Tool, waitExpired: bool): Result<EvaluationResult, Raised>
  {
    if waitExpired then Ok(Timeout)
    else if !originalExists && checkout.code != 0 then Err(CheckoutFailure(checkout.stderr))
    else if tool.targetFile.None? then Err(FileError)
    else if tool.compile.TimedOut? then Ok(Timeout)
    else if tool.compile.code != 0 then Ok(Uncompilable)
    else if tool.test.TimedOut? then Ok(Timeout)
    else if tool.test.code != 0 then Ok(FailedTestExecution)
    else if tool.failingTests.None? then Err(FileError)
    else if tool.failingTests.value == "" then Ok(Plausible)
    else Ok(Failing)
  }

  /** Running a unit and classifying it gives exactly the outcome table. */
  lemma ClassifyMatchesTable(originalExists: bool, checkout: CheckoutRun, tool: Tool, locus: Locus, patch: string, waitExpired: bool)
    ensures Classify(Await(EvaluateRun(originalExists, checkout, tool, locus, patch).result, waitExpired))
         == OutcomeTable(originalExists, checkout, tool, waitExpired)
  {
  }

  /** Timeout precedence: a unit whose wait expired is a timeout even when its
      compile failed. */
  lemma TimeoutWins(originalExists: bool, checkout: CheckoutRun, tool: Tool, locus: Locus, patch: string)
    ensures Classify(Await(EvaluateRun(originalExists, checkout, tool, locus, patch).result, true)) == Ok(Timeout)
  {
  }

  /** Phase order of a unit: checkout only when the original is missing, and
      nothing after a failed checkout; otherwise copy, then the phases from apply
      on, in order; a compile failure stops before testing. */
  lemma EvaluatePhaseOrder(originalExists: bool, checkout: CheckoutRun, tool: Tool, locus: Locus, patch: string)
    ensures var r := EvaluateRun(originalExists, checkout, tool, locus, patch);
      && (Checkout in r.phases <==> !originalExists)
      && (!originalExists && checkout.code != 0 ==> r.phases == [Checkout])
      && (originalExists || checkout.code == 0 ==>
            var tail := RunFromApply(tool, locus, patch).phases;
            r.phases == (if originalExists then [Copy] else [Checkout, Copy]) + tail && IsPrefix(tail, AfterCopy))
      && (Test in r.phases ==> tool.compile == Exit(0, tool.compile.stderr))
      && (ReadFailingTests in r.phases ==> tool.test == Exit(0, tool.test.stderr))
  {
    var r := EvaluateRun(originalExists, checkout, tool, locus, patch);
    PhaseOrder(tool, locus, patch);
    if originalExists || checkout.code == 0 {
      var tail := RunFromApply(tool, locus, patch).phases;
      assert Checkout !in tail;
      assert Test in r.phases ==> Test in tail;
      assert ReadFailingTests in r.phases ==> ReadFailingTests in tail;
    }
  }

  // ---------------------------------------------------------------------
  // Directories and the result path
  // ---------------------------------------------------------------------

  function PromptDir(i: nat): string
  {
    "prompt-" + Paths.NatStr(i)
  }

  /** The name of a clone directory of one candidate. */
  function CloneName(j: nat): string
  {
    "patch-" + Paths.NatStr(j)
  }

  /** The name of a result file. */
  function ResultFileName(j: nat): string
  {
    "patch-" + Paths.NatStr(j) + ".txt"
  }

  /** `<work>/<bug id>/original` */
  function OriginalDirectory(work: string, bugId: string): string
  {
    Paths.JoinAll(work, [bugId, "original"])
  }

  /** `<work>/<bug id>/clones/prompt-<i>/patch-<j>` */
  function CloneDirectory(work: string, bugId: string, patch: Patch): string
  {
    Paths.JoinAll(work, [bugId, "clones", PromptDir(patch.promptIndex), CloneName(patch.patchIndex)])
  }

  /** `<results>/<project>/<number>/prompt-<i>/<outcome>/patch-<j>.txt` */
  function ResultPath(results: string, bug: Bug, patch: Patch, outcome: EvaluationResult): string
  {
    Paths.JoinAll(results, [bug.project, bug.number, PromptDir(patch.promptIndex), outcome.Value(), ResultFileName(patch.patchIndex)])
  }

  lemma NumberedNames(i: nat, i': nat)
    ensures Paths.IsSegment(PromptDir(i)) && Paths.IsSegment(CloneName(i)) && Paths.IsSegment(ResultFileName(i))
    ensures PromptDir(i) == PromptDir(i') ==> i == i'
    ensures CloneName(i) == CloneName(i') ==> i == i'
    ensures ResultFileName(i) == ResultFileName(i') ==> i == i'
  {
    var s, s' := Paths.NatStr(i), Paths.NatStr(i');
    if PromptDir(i) == PromptDir(i') {
      assert s == PromptDir(i)[7..] == PromptDir(i')[7..] == s';
      Paths.NatStrInjective(i, i');
    }
    if CloneName(i) == CloneName(i') {
      assert s == CloneName(i)[6..] == CloneName(i')[6..] == s';
      Paths.NatStrInjective(i, i');
    }
    if ResultFileName(i) == ResultFileName(i') {
      var f, f' := ResultFileName(i), ResultFileName(i');
      assert |s| == |s'|;
      assert s == f[6..|f| - 4] == f'[6..|f'| - 4] == s';
      Paths.NatStrInjective(i, i');
    }
  }

  /** A well-formed bug: project and number are single path segments. */
  predicate SegmentedBug(bug: Bug)
  {
    Paths.IsSegment(bug.project) && Paths.IsSegment(bug.number)
  }

  /** Distinct (project, number, prompt, outcome, patch) give distinct result paths:
      every candidate of a bug has a file of its own, and under one outcome only. */
  lemma ResultPathInjective(results: string, b: Bug, p: Patch, o: EvaluationResult, b': Bug, p': Patch, o': EvaluationResult)
    requires SegmentedBug(b) && SegmentedBug(b')
    ensures ResultPath(results, b, p, o) == ResultPath(results, b', p', o') ==>
              && b.project == b'.project && b.number == b'.number
              && p.promptIndex == p'.promptIndex && p.patchIndex == p'.patchIndex && o == o'
  {
    if ResultPath(results, b, p, o) == ResultPath(results, b', p', o') {
      var s := [b.project, b.number, PromptDir(p.promptIndex), o.Value(), ResultFileName(p.patchIndex)];
      var s' := [b'.project, b'.number, PromptDir(p'.promptIndex), o'.Value(), ResultFileName(p'.patchIndex)];
      NumberedNames(p.promptIndex, p'.promptIndex);
      NumberedNames(p.patchIndex, p'.patchIndex);
      NumberedNames(p'.promptIndex, p.promptIndex);
      NumberedNames(p'.patchIndex, p.patchIndex);
      ValueIsSegment(o, o');
      ValueIsSegment(o', o);
      Paths.JoinAllInjective(results, s, s');
      assert s[2] == s'[2] && s[3] == s'[3] && s[4] == s'[4];
    }
  }

  /** Distinct (bug id, prompt, patch) give distinct clone directories. */
  lemma CloneDirectoryInjective(work: string, id: string, p: Patch, id': string, p': Patch)
    requires Paths.IsSegment(id) && Paths.IsSegment(id')
    requires CloneDirectory(work, id, p) == CloneDirectory(work, id', p')
    ensures id == id' && p.promptIndex == p'.promptIndex && p.patchIndex == p'.patchIndex
  {
    var s := [id, "clones", PromptDir(p.promptIndex), CloneName(p.patchIndex)];
    var s' := [id', "clones", PromptDir(p'.promptIndex), CloneName(p'.patchIndex)];
    NumberedNames(p.promptIndex, p'.promptIndex);
    NumberedNames(p.patchIndex, p'.patchIndex);
    NumberedNames(p'.promptIndex, p.promptIndex);
    NumberedNames(p'.patchIndex, p.patchIndex);
    assert Paths.IsSegment("clones");
    Paths.JoinAllInjective(work, s, s');
    assert s[0] == s'[0] && s[2] == s'[2] && s[3] == s'[3];
  }

  /** A clone directory is never an original directory. */
  lemma CloneIsNotOriginal(work: string, id: string, p: Patch, id': string)
    requires Paths.IsSegment(id) && Paths.IsSegment(id')
    ensures CloneDirectory(work, id, p) != OriginalDirectory(work, id')
  {
    var s := [id, "clones", PromptDir(p.promptIndex)];
    var s' := [id'];
    NumberedNames(p.promptIndex, 0);
    NumberedNames(p.patchIndex, 0);
    assert Paths.IsSegment("clones") && Paths.IsSegment("original");
    assert s + [CloneName(p.patchIndex)] == [id, "clones", PromptDir(p.promptIndex), CloneName(p.patchIndex)];
    assert s' + ["original"] == [id', "original"];
    if CloneDirectory(work, id, p) == OriginalDirectory(work, id') {
      Paths.JoinAllLast(work, s, CloneName(p.patchIndex), s', "original");
    }
  }

  // ---------------------------------------------------------------------
  // Check-then-checkout (`copy_project`)
  // ---------------------------------------------------------------------

  /** The state `copy_project` consults: which original directories exist, and
      (for the proof) every checkout run so far with whether it succeeded.
      The per-bug locks only make the check and the checkout one step; the
      model runs units one at a time. */
  class CheckoutTable {
    var originals: set<string>
    ghost var checkouts: seq<(string, bool)>

    /** A checkout only runs for a directory that is missing; a successful one
        creates the directory, so no checkout of it ever follows a success. */
    ghost predicate Valid()
      reads this
    {
      && (forall i, j :: 0 <= i < j < |checkouts| && checkouts[i].0 == checkouts[j].0 ==> !checkouts[i].1)
      && (forall i :: 0 <= i < |checkouts| && checkouts[i].1 ==> checkouts[i].0 in originals)
    }

    /** The working directory is removed before any unit starts. */
    constructor ()
      ensures Valid() && originals == {} && checkouts == []
    {
      originals := {};
      checkouts := [];
    }

    /** `copy_project`'s checkout part: run `defects4j checkout` only when the
        original directory is missing; a non-zero exit raises. */
    method CopyProject(original: string, checkout: CheckoutRun) returns (ran: bool, failure: Option<Raised>)
      requires Valid()
      modifies this
      ensures Valid()
      ensures ran == (original !in old(originals))
      ensures failure == if ran && checkout.code != 0 then Some(CheckoutFailure(checkout.stderr)) else None
      ensures originals == if ran && checkout.code == 0 then old(originals) + {original} else old(originals)
      ensures checkouts == if ran then old(checkouts) + [(original, checkout.code == 0)] else old(checkouts)
    {
      ran := original !in originals;
      failure := None;
      if ran {
        checkouts := checkouts + [(original, checkout.code == 0)];
        if checkout.code == 0 {
          originals := originals + {original};
        } else {
          failure := Some(CheckoutFailure(checkout.stderr));
        }
      }
    }
  }

  /** Distinct bug ids that are single segments have distinct original
      directories. */
  lemma OriginalDirectoryInjective(work: string, id: string, id': string)
    requires Paths.IsSegment(id) && Paths.IsSegment(id')
    requires OriginalDirectory(work, id) == OriginalDirectory(work, id')
    ensures id == id'
  {
    var s, s' := [id, "original"], [id', "original"];
    Paths.JoinAllInjective(work, s, s');
    assert s[0] == s'[0];
  }

  /** What a bug's candidates see of checkouts: however many units ask, a
      valid table records at most one successful checkout per bug, and two
      successful checkouts of segment ids belong to the same bug exactly when
      they are the same entry. */
  lemma AtMostOneSuccessfulCheckout(t: CheckoutTable, work: string, id: string, id': string, i: nat, j: nat)
    requires t.Valid()
    requires Paths.IsSegment(id) && Paths.IsSegment(id')
    requires i < |t.checkouts| && t.checkouts[i] == (OriginalDirectory(work, id), true)
    requires j < |t.checkouts| && t.checkouts[j] == (OriginalDirectory(work, id'), true)
    ensures i == j <==> id == id'
  {
    if i == j {
      OriginalDirectoryInjective(work, id, id');
    }
  }

  // ---------------------------------------------------------------------
  // The evaluation unit
  // ---------------------------------------------------------------------

  /** One entry of the evaluation queue: the bug's dataset key, the bug, its
      checkout lock (by handle) and one candidate. */
  datatype Unit = Unit(key: string, bug: Bug, lock: nat, patch: Patch)

  /** A written result file: its path and its content. */
  datatype ResultFile = ResultFile(path: string, content: string)

  /** `PatchEvaluation`: one unit and the state the driver updates on it. */
  class PatchEvaluation {
    const bug: Bug
    const patch: Patch
    const lock: nat
    const originalDirectory: string
    const cloneDirectory: string
    const resultsPath: string
    var future: Option<WorkerResult>
    var result: Option<EvaluationResult>

    constructor (unit: Unit, workingDirectory: string, results: string)
      ensures bug == unit.bug && patch == unit.patch && lock == unit.lock && resultsPath == results
      ensures originalDirectory == OriginalDirectory(workingDirectory, unit.bug.id)
      ensures cloneDirectory == CloneDirectory(workingDirectory, unit.bug.id, unit.patch)
      ensures future == None && result == None
    {
      bug, patch, lock, resultsPath := unit.bug, unit.patch, unit.lock, results;
      originalDirectory := OriginalDirectory(workingDirectory, unit.bug.id);
      cloneDirectory := CloneDirectory(workingDirectory, unit.bug.id, unit.patch);
      future := None;
      result := None;
    }

    /** `start`: run `evaluate` (to completion, in this sequential model) and
        keep what it returned or raised as the future's outcome. */
    method Start(table: CheckoutTable, checkout: CheckoutRun, tool: Tool) returns (run: Run)
      requires table.Valid()
      modifies this, table
      ensures table.Valid()
      ensures run == EvaluateRun(originalDirectory in old(table.originals), checkout, tool, bug.locus, patch.text)
      ensures future == Some(run.result) && result == old(result)
      ensures table.originals ==
                if originalDirectory !in old(table.originals) && checkout.code == 0
                then old(table.originals) + {originalDirectory} else old(table.originals)
      ensures table.checkouts ==
                if originalDirectory !in old(table.originals)
                then old(table.checkouts) + [(originalDirectory, checkout.code == 0)] else old(table.checkouts)
    {
      var ran, failure := table.CopyProject(originalDirectory, checkout);
      if failure.Some? {
        run := Run([Checkout], Threw(failure.value), None);
      } else {
        var r := RunFromApply(tool, bug.locus, patch.text);
        run := Run((if ran then [Checkout, Copy] else [Copy]) + r.phases, r.result, r.patched);
      }
      future := Some(run.result);
    }

    /** `await_result`: classify the future's outcome; an exception the
        classification does not catch escapes and leaves `result` as it was. */
    method AwaitResult(waitExpired: bool) returns (escaped: Option<Raised>)
      requires future.Some?
      modifies this`result
      ensures Classify(Await(future.value, waitExpired)).Ok? ==>
                result == Some(Classify(Await(future.value, waitExpired)).value) && escaped == None
      ensures Classify(Await(future.value, waitExpired)).Err? ==>
                result == old(result) && escaped == Some(Classify(Await(future.value, waitExpired)).error)
    {
      match Classify(Await(future.value, waitExpired))
      case Ok(o) =>
        result := Some(o);
        escaped := None;
      case Err(e) =>
        escaped := Some(e);
    }

    /** `write_result`: the patch text at the result path of its outcome. */
    method WriteResult() returns (file: ResultFile)
      requires result.Some?
      ensures file == ResultFile(ResultPath(resultsPath, bug, patch, result.value), patch.text)
    {
      file := ResultFile(ResultPath(resultsPath, bug, patch, result.value), patch.text);
    }
  }

  // ---------------------------------------------------------------------
  // The driver loop of `main`
  // ---------------------------------------------------------------------

  /** A started unit as the driver sees it: where it writes, its candidate, what
      its future holds, and whether the wait on it ran out. */
  datatype Started = Started(results: string, bug: Bug, patch: Patch, worker: WorkerResult, waitExpired: bool)

  /** The file `write_result` leaves for a unit with outcome `o`. */
  function WrittenFile(u: Started, o: EvaluationResult): ResultFile
  {
    ResultFile(ResultPath(u.results, u.bug, u.patch, o), u.patch.text)
  }

  /** The files the driver writes, and the exception that stops it, if any. */
  datatype DriveOutcome = DriveOutcome(written: seq<ResultFile>, escaped: Option<Raised>)

  /** The outcome the driver records for a unit that is not stopped. */
  function OutcomeOf(u: Started): Result<EvaluationResult, Raised>
  {
    Classify(Await(u.worker, u.waitExpired))
  }

  /** For each unit in queue order: await, write, clean; an exception from the
      classification ends the run. */
  function Drive(units: seq<Started>): DriveOutcome
  {
    if units == [] then DriveOutcome([], None)
    else
      match OutcomeOf(units[0])
      case Err(e) => DriveOutcome([], Some(e))
      case Ok(o) =>
        var rest := Drive(units[1..]);
        DriveOutcome([WrittenFile(units[0], o)] + rest.written, rest.escaped)
  }

  /** The run is stopped exactly when some unit's exception escapes, and then
      at the first such unit, whose exception is the one that leaves. */
  lemma {:induction false} DriveEscape(units: seq<Started>)
    ensures var d := Drive(units);
      && (d.escaped.None? <==> forall k :: 0 <= k < |units| ==> OutcomeOf(units[k]).Ok?)
      && (d.escaped.None? ==> |d.written| == |units|)
      && (d.escaped.Some? ==> |d.written| < |units| && OutcomeOf(units[|d.written|]) == Err(d.escaped.value))
  {
    if units != [] {
      DriveEscape(units[1..]);
      var rest := Drive(units[1..]);
      if OutcomeOf(units[0]).Ok? {
        assert |Drive(units).written| == 1 + |rest.written|;
        if rest.escaped.Some? {
          assert units[1 + |rest.written|] == units[1..][|rest.written|];
        }
        forall k | 1 <= k < |units| ensures units[k] == units[1..][k - 1] {
        }
      }
    }
  }

  /** The k-th file written is the k-th unit's, at the path of its outcome and
      with its text. */
  lemma {:induction false} DriveFiles(units: seq<Started>)
    ensures var d := Drive(units);
      && |d.written| <= |units|
      && forall k :: 0 <= k < |d.written| ==>
           OutcomeOf(units[k]).Ok? && d.written[k] == WrittenFile(units[k], OutcomeOf(units[k]).value)
  {
    if units != [] {
      DriveFiles(units[1..]);
      var d := Drive(units);
      var rest := Drive(units[1..]);
      if OutcomeOf(units[0]).Ok? {
        assert d.written == [WrittenFile(units[0], OutcomeOf(units[0]).value)] + rest.written;
        forall k | 1 <= k < |d.written| ensures d.written[k] == rest.written[k - 1] && units[k] == units[1..][k - 1] {
        }
      }
    }
  }

  /** A run that is not stopped writes one file per unit, in queue order, at the
      path of that unit's outcome and with the unit's text; a stopped run writes
      the files of the units before the first one whose exception escapes. */
  lemma DriveWritesEachUnit(units: seq<Started>)
    ensures var d := Drive(units);
      && (d.escaped.None? <==> forall k :: 0 <= k < |units| ==> OutcomeOf(units[k]).Ok?)
      && |d.written| <= |units|
      && (d.escaped.None? ==> |d.written| == |units|)
      && (d.escaped.Some? ==> |d.written| < |units| && OutcomeOf(units[|d.written|]) == Err(d.escaped.value))
      && (forall k :: 0 <= k < |d.written| ==>
            OutcomeOf(units[k]).Ok? &&
            d.written[k] == WrittenFile(units[k], OutcomeOf(units[k]).value))
  {
    DriveEscape(units);
    DriveFiles(units);
  }

  /** No candidate is lost or duplicated: when units share one results root,
      their bugs have well-formed and distinct (project, number) and no two of
      them are the same (bug, prompt, patch), the written paths are pairwise distinct. */
  lemma {:induction false} DistinctResultFiles(units: seq<Started>, a: nat, b: nat)
    requires forall k :: 0 <= k < |units| ==> SegmentedBug(units[k].bug) && units[k].results == units[0].results
    requires forall i, j :: 0 <= i < j < |units| ==> CandidateKey(units[i]) != CandidateKey(units[j])
    requires a < b < |Drive(units).written|
    ensures Drive(units).written[a].path != Drive(units).written[b].path
  {
    DriveWritesEachUnit(units);
    var ua, ub := units[a], units[b];
    var oa, ob := OutcomeOf(ua).value, OutcomeOf(ub).value;
    assert Drive(units).written[a].path == ResultPath(ua.results, ua.bug, ua.patch, oa);
    assert Drive(units).written[b].path == ResultPath(ub.results, ub.bug, ub.patch, ob);
    assert CandidateKey(ua) != CandidateKey(ub);
    ResultPathInjective(ua.results, ua.bug, ua.patch, oa, ub.bug, ub.patch, ob);
  }

  /** Where a unit's file goes, up to its outcome. */
  function CandidateKey(u: Started): (string, string, nat, nat)
  {
    (u.bug.project, u.bug.number, u.patch.promptIndex, u.patch.patchIndex)
  }

  /** What the driver sees of the evaluations in queue order. */
  function StartedView(evals: seq<PatchEvaluation>, waits: seq<bool>): (r: seq<Started>)
    requires |waits| == |evals| && forall k :: 0 <= k < |evals| ==> evals[k].future.Some?
    reads set k | 0 <= k < |evals| :: evals[k]
    ensures |r| == |evals|
    ensures forall k :: 0 <= k < |evals| ==>
              r[k] == Started(evals[k].resultsPath, evals[k].bug, evals[k].patch, evals[k].future.value, waits[k])
  {
    if evals == [] then []
    else
      [Started(evals[0].resultsPath, evals[0].bug, evals[0].patch, evals[0].future.value, waits[0])]
      + StartedView(evals[1..], waits[1..])
  }

  /** The loop `for patch_evaluation in queue: await_result(); write_result(); clean()`.
      An escaping exception ends the loop (and `main`). */
  method AwaitAll(evals: seq<PatchEvaluation>, waits: seq<bool>) returns (written: seq<ResultFile>, escaped: Option<Raised>)
    requires |waits| == |evals| && forall k :: 0 <= k < |evals| ==> evals[k].future.Some?
    modifies set k | 0 <= k < |evals| :: evals[k]
    ensures forall k :: 0 <= k < |evals| ==> evals[k].future == old(evals[k].future)
    ensures DriveOutcome(written, escaped) == Drive(StartedView(evals, waits))
  {
    ghost var view := StartedView(evals, waits);
    written := [];
    escaped := None;
    var k := 0;
    while k < |evals|
      invariant 0 <= k <= |evals| && |view| == |evals|
      invariant forall m :: 0 <= m < |evals| ==> evals[m].future == old(evals[m].future)
      invariant forall m :: 0 <= m < |evals| ==> evals[m].future == Some(view[m].worker)
      invariant Drive(view) == DriveOutcome(written + Drive(view[k..]).written, Drive(view[k..]).escaped)
    {
      var e := evals[k];
      var err := e.AwaitResult(waits[k]);
      if err.Some? {
        escaped := err;
        DriveStops(view, k, written, Drive(view));
        ViewIsStartedView(evals, waits, view);
        return;
      }
      var file := e.WriteResult();
      DriveAdvances(view, k, written, Drive(view));
      written := written + [file];
      k := k + 1;
    }
    ViewIsStartedView(evals, waits, view);
  }

  /** The driver stops at the first unit whose exception escapes, keeping what
      it wrote before. */
  lemma DriveStops(view: seq<Started>, k: nat, written: seq<ResultFile>, total: DriveOutcome)
    requires k < |view| && OutcomeOf(view[k]).Err?
    requires total == DriveOutcome(written + Drive(view[k..]).written, Drive(view[k..]).escaped)
    ensures total == DriveOutcome(written, Some(OutcomeOf(view[k]).error))
  {
    assert view[k..][0] == view[k];
    assert written + [] == written;
  }

  /** A unit that is not stopped adds its file and the driver goes on. */
  lemma DriveAdvances(view: seq<Started>, k: nat, written: seq<ResultFile>, total: DriveOutcome)
    requires k < |view| && OutcomeOf(view[k]).Ok?
    requires total == DriveOutcome(written + Drive(view[k..]).written, Drive(view[k..]).escaped)
    ensures total == DriveOutcome(written + [WrittenFile(view[k], OutcomeOf(view[k]).value)]
                                  + Drive(view[k + 1..]).written, Drive(view[k + 1..]).escaped)
  {
    var f := WrittenFile(view[k], OutcomeOf(view[k]).value);
    assert view[k..][0] == view[k] && view[k..][1..] == view[k + 1..];
    assert written + ([f] + Drive(view[k + 1..]).written) == written + [f] + Drive(view[k + 1..]).written;
  }

  lemma ViewIsStartedView(evals: seq<PatchEvaluation>, waits: seq<bool>, view: seq<Started>)
    requires |waits| == |evals| == |view| && forall k :: 0 <= k < |evals| ==> evals[k].future.Some?
    requires forall m :: 0 <= m < |evals| ==>
               view[m] == Started(evals[m].resultsPath, evals[m].bug, evals[m].patch, evals[m].future.value, waits[m])
    ensures StartedView(evals, waits) == view
  {
  }
}
