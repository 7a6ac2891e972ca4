# LLM-Code-Repair: patch evaluation, validation and metrics in Dafny

This project models the three scripts that judge candidate repairs of
Defects4J bugs:

- `src/evaluate/evaluate_patches.py`. For each bug, prompt and candidate
  function it builds a `PatchEvaluation`. The evaluations are shuffled into
  a queue and each one is run. A run checks the buggy project out once per
  bug, under the bug's lock. It copies the checkout, splices the candidate
  over the replaced lines, then compiles and tests. Each evaluation is
  awaited in queue order and its outcome classified as
  `plausible | failing | uncompilable | failed_test_execution | timeout`.
  The candidate is written to
  `<results>/<project>/<number>/prompt-<i>/<outcome>/patch-<j>.txt`.
- `validate/validate_patches.py`. For each bug id in the dataset it splits
  the id into project and number and checks the project out. It makes one
  clone per candidate and creates the four label directories. Candidates are
  validated in order and each is written to
  `validation_results/<bug id>/<label>/patch-<jjj>`.
- `src/report/report_metrics.py`. It walks the results tree and computes
  two metrics:
  - the per-project and overall frequency of prompts with a plausible patch;
  - the per-project and overall mean reciprocal rank of the first
    plausible patch.

Modules, one per concern:

| file | module | what it holds |
|---|---|---|
| `common.dfy` | `Common` | `Option`, `Result` |
| `lines.dfy` | `Lines` | Python slicing with negative and out-of-range bounds, `str.splitlines(keepends=True)`, and the line splice both scripts perform |
| `paths.dfy` | `Paths` | POSIX `os.path.join`, `str(n)` for naturals, `int(...)` on numerals, `{:03d}` zero padding |
| `phases.dfy` | `Phases` | the apply, compile, test and read-`failing_tests` sequence both scripts share; which phases run and which exception ends them |
| `evaluate.dfy` | `EvaluatePatches` | outcome classification, result paths, the checkout table, the `PatchEvaluation` class, and the await-and-write loop of `main` |
| `queue.dfy` | `EvaluationQueue` | `create_bug_checkout_locks`, `create_evaluation_queue` and the shuffle, on an array |
| `validate.dfy` | `ValidatePatches` | labels, the bug id split, `setup_project`, `create_clones`, `write_patch` paths, and the per-bug and whole-run loops of `main` |
| `report.dfy` | `ReportMetrics` | the results tree as nested listings and both metrics, first as functions with their properties, then as the loops of the script |

The outside world is passed in as parameters:

- **Subprocesses.** Every run of `defects4j checkout/compile/test` is a
  `ToolRun` (an exit code and stderr, or an expired timeout).
- **Files.** The project file a patch is applied to and the contents of
  `failing_tests` are `Option`s, with `None` when the file is missing.
- **Future waits.** Whether each 15-minute wait on a future expired is a
  `bool`.
- **Shuffling.** The shuffle's random draws are a function `nat -> nat`.

Every exception that is not caught is modelled as an error value, not as a
precondition:

- `IndexError` from `split('-')[1]`;
- `KeyError` for a bug id without patches;
- the checkout `Exception`, `TestError` in validation, and `OSError` from a
  missing file;
- `ValueError` from `int()`;
- `ZeroDivisionError` from an empty project or results directory.

When such an error occurs, the loops stop exactly where Python would.

Behaviour of the code the model follows:

- In `evaluate_patches.py`, a failed checkout raises a plain `Exception`
  (lines 76-77). No `except` clause of `await_result` catches it, so it
  escapes `main`. `EvaluatePatches.Classify` returns `Err` for it, and
  `AwaitAll` stops at that evaluation.
- In `validate_patches.py`, `main` has no `except TestError` (lines 51-54).
  A failed test run therefore ends the whole validation;
  `ValidatePatches.TestErrorStopsBug` states this.
- `except (TimeoutError, TimeoutExpired)` is read with Python 3.11
  semantics or later. There, the future's timeout is the builtin
  `TimeoutError`, so an expired wait is classified `timeout`.

## Model

| member | source | states |
|---|---|---|
| EvaluatePatches.ValueIsSegment | src/evaluate/evaluate_patches.py:22-27 | each outcome's directory name is one path segment, and distinct outcomes have distinct names |
| EvaluatePatches.EvaluateRun | src/evaluate/evaluate_patches.py:59-77 | definition, no contract: `copy_project` (checking out when the original is absent, a failed checkout raising) followed by the shared pipeline; its meaning is stated by EvaluatePhaseOrder and ClassifyMatchesTable |
| EvaluatePatches.OriginalDirectory | src/evaluate/evaluate_patches.py:52 | definition, no contract: `<work>/<bug id>/original`; OriginalDirectoryInjective and CloneIsNotOriginal state its properties |
| EvaluatePatches.CloneDirectory | src/evaluate/evaluate_patches.py:53 | definition, no contract: `<work>/<bug id>/clones/prompt-i/patch-j`; CloneDirectoryInjective and CloneIsNotOriginal state its properties |
| EvaluatePatches.ResultPath | src/evaluate/evaluate_patches.py:125-130 | definition, no contract: `<results>/<project>/<number>/prompt-i/<outcome>/patch-j.txt`; ResultPathInjective states its property |
| EvaluatePatches.Classify | src/evaluate/evaluate_patches.py:109-122 | awaiting fails exactly when the worker raised the checkout exception or a file error, the two that no `except` clause catches |
| EvaluatePatches.ClassifyMatchesTable | src/evaluate/evaluate_patches.py:59-122 | classifying the run gives the outcome table: a checkout failure escapes; a missing file escapes; compile failure gives uncompilable; test failure gives failed_test_execution; a timeout in either step or in the wait gives timeout; otherwise plausible exactly when `failing_tests` is empty |
| EvaluatePatches.TimeoutWins | src/evaluate/evaluate_patches.py:112-122 | an expired wait is classified timeout whatever the worker did |
| EvaluatePatches.EvaluatePhaseOrder | src/evaluate/evaluate_patches.py:59-77 | checkout runs exactly when the original is absent; a failed checkout stops the run; otherwise copy is followed by a prefix of apply, compile, test, read; testing happens only after a zero-exit compile, and reading only after a zero-exit test |
| EvaluatePatches.NumberedNames | src/evaluate/evaluate_patches.py:53 | `prompt-i`, `patch-j` and `patch-j.txt` are segments and determine their index |
| EvaluatePatches.ResultPathInjective | src/evaluate/evaluate_patches.py:124-130 | two equal result paths have the same project, bug number, prompt index, patch index and outcome |
| EvaluatePatches.CloneDirectoryInjective | src/evaluate/evaluate_patches.py:53 | two equal clone directories belong to the same bug, prompt index and patch index |
| EvaluatePatches.CloneIsNotOriginal | src/evaluate/evaluate_patches.py:52-53 | no clone directory is any bug's original directory |
| EvaluatePatches.CheckoutTable.Valid | src/evaluate/evaluate_patches.py:66-69 | invariant, no contract: no checkout of a directory follows a successful one, and every successful checkout's directory exists |
| EvaluatePatches.CheckoutTable.constructor | src/evaluate/evaluate_patches.py:152-154 | the working directory starts empty: no originals, no checkouts, and the table is valid |
| EvaluatePatches.CheckoutTable.CopyProject | src/evaluate/evaluate_patches.py:66-77 | checkout runs exactly when the original is absent; a non-zero exit raises with its stderr and adds nothing; success adds the original; the checkout log grows by one entry per run |
| EvaluatePatches.OriginalDirectoryInjective | src/evaluate/evaluate_patches.py:52 | bug ids that are single segments and share an original directory are equal |
| EvaluatePatches.AtMostOneSuccessfulCheckout | src/evaluate/evaluate_patches.py:66-69 | in a valid checkout table, two successful checkouts of segment bug ids are the same entry exactly when they are of the same bug: each bug is checked out successfully at most once |
| EvaluatePatches.PatchEvaluation.constructor | src/evaluate/evaluate_patches.py:46-54 | fields are set from the unit; the original is `<work>/<id>/original`; the clone is `<work>/<id>/clones/prompt-i/patch-j`; there is no future and no result yet |
| EvaluatePatches.PatchEvaluation.Start | src/evaluate/evaluate_patches.py:56-64 | the future holds the result of running the evaluation against the checkout table's state; the table gains the original exactly on a successful checkout, and the checkout log gains one entry exactly when the original was absent |
| EvaluatePatches.PatchEvaluation.AwaitResult | src/evaluate/evaluate_patches.py:109-122 | on a caught outcome, `result` is set to it; otherwise `result` is unchanged and the exception escapes |
| EvaluatePatches.PatchEvaluation.WriteResult | src/evaluate/evaluate_patches.py:124-133 | the candidate function is written to the result path of the bug, the patch and the outcome |
| EvaluatePatches.Drive | src/evaluate/evaluate_patches.py:163-166 | definition, no contract: in queue order, each caught outcome writes its file and the first escaping exception ends the loop; DriveWritesEachUnit, DriveEscape and DriveFiles state its meaning |
| EvaluatePatches.DriveWritesEachUnit | src/evaluate/evaluate_patches.py:163-165 | the loop finishes exactly when every evaluation is caught, and then writes one file per evaluation; otherwise it stops at the first escaping evaluation; the k-th file is the k-th evaluation's result file |
| EvaluatePatches.DriveEscape | src/evaluate/evaluate_patches.py:163-165 | the loop is stopped exactly when some evaluation's exception escapes, and then at the first such evaluation |
| EvaluatePatches.DriveFiles | src/evaluate/evaluate_patches.py:163-165 | the k-th file written is the k-th evaluation's, at the path of its outcome and with its text |
| EvaluatePatches.DistinctResultFiles | src/evaluate/evaluate_patches.py:124-130 | evaluations of distinct candidates write distinct files, so no result overwrites another |
| EvaluatePatches.AwaitAll | src/evaluate/evaluate_patches.py:163-166 | awaiting and writing the started evaluations in queue order gives the files and the escaping exception of the loop specification; futures are unchanged |
| EvaluationQueue.CreateBugCheckoutLocks | src/evaluate/evaluate_patches.py:170-175 | there is one lock per bug id, and distinct ids get distinct locks |
| EvaluationQueue.PatchUnits | src/evaluate/evaluate_patches.py:182-185 | one unit per candidate of a prompt |
| EvaluationQueue.PromptUnitsFacts | src/evaluate/evaluate_patches.py:181-185 | one bug's units are exactly its (prompt, patch) candidates, each once, as many as it has candidates |
| EvaluationQueue.BugUnitsFacts | src/evaluate/evaluate_patches.py:179-185 | over distinct bug ids, the units are exactly the candidates of all bugs, each once |
| EvaluationQueue.Multiplicity | src/evaluate/evaluate_patches.py:177-188 | a sequence without repeated candidates holds each unit once or not at all |
| EvaluationQueue.Shuffle | src/evaluate/evaluate_patches.py:187 | the shuffle permutes the queue in place |
| EvaluationQueue.CreateEvaluationQueue | src/evaluate/evaluate_patches.py:177-188 | a `KeyError` is raised exactly when some bug has no patches, naming the first such bug; otherwise the queue is a permutation of all candidate units |
| EvaluationQueue.QueueExactlyOnce | src/evaluate/evaluate_patches.py:177-188 | every candidate appears exactly once in the queue and nothing else does; the queue's length is the number of candidates |
| Lines.TakeDrop | src/evaluate/evaluate_patches.py:88 | `s[:k] + s[k:] == s` for every integer `k`; a negative `k` leaves the last `-k` elements (or all) to `s[k:]`; a non-negative `k` keeps at most `k` in `s[:k]`; a bound past the end leaves `s[k:]` empty |
| Lines.Splice | src/evaluate/evaluate_patches.py:88 | definition, no contract: `lines[:first - 1] + patch + lines[last:]` with Python's slice bounds; its meaning is stated by SpliceShape, SpliceClamp, SpliceFirstLineZero and SpliceIdentity |
| Lines.SplitLines | src/evaluate/evaluate_patches.py:88 | `splitlines` never yields an empty piece |
| Lines.LineEndFacts | src/evaluate/evaluate_patches.py:88 | a line runs to the first `\n`, `\r` or `\r\n`, and a `\r\n` is never split |
| Lines.SplitLinesConcat | src/evaluate/evaluate_patches.py:88 | joining the pieces of `splitlines(keepends=True)` gives back the text |
| Lines.SplitLinesPieces | src/evaluate/evaluate_patches.py:88 | every piece is a non-empty line; every piece but the last ends in a break, and no piece ending in `\r` is followed by one starting with `\n` |
| Lines.SplitLinesAreLines | src/evaluate/evaluate_patches.py:88 | every piece is a non-empty line |
| Lines.SplitLinesBreaks | src/evaluate/evaluate_patches.py:88 | every piece but the last ends in a line break |
| Lines.SplitLinesKeepsCrLf | src/evaluate/evaluate_patches.py:88 | a `\r\n` is never split across two pieces |
| Lines.SpliceShape | src/evaluate/evaluate_patches.py:88 | for 1 <= first <= last <= length, lines before `first` are kept and the patch lines sit at `first`; lines after `last` follow; so the length changes by the patch size minus the replaced count |
| Lines.SpliceClamp | src/evaluate/evaluate_patches.py:88 | a last line past the end drops the whole tail, and a first line past the end keeps every line |
| Lines.SpliceFirstLineZero | src/evaluate/evaluate_patches.py:88 | with first line 0 the prefix `lines[:-1]` keeps every line but the last |
| Lines.SpliceIdentity | src/evaluate/evaluate_patches.py:88 | splicing the replaced lines back in leaves the file unchanged |
| Paths.JoinAllStep | src/evaluate/evaluate_patches.py:125-130 | joining a further segment appends `/` and the segment |
| Paths.LastSegmentUnique | src/evaluate/evaluate_patches.py:125-130 | two joined paths are equal only if their heads and last segments are equal |
| Paths.JoinAllInjective | src/evaluate/evaluate_patches.py:125-130 | joining the same number of segments onto one root is injective |
| Paths.JoinAllLast | src/evaluate/evaluate_patches.py:125-130 | equal joined paths end in the same segment |
| Paths.NatStr | src/evaluate/evaluate_patches.py:53 | `str(n)` is a non-empty numeral without `/` |
| Paths.Join | src/evaluate/evaluate_patches.py:52 | definition, no contract: POSIX `os.path.join` of two parts, where an absolute second part replaces the first; its properties are stated by JoinAllStep, LastSegmentUnique and JoinAllInjective |
| Paths.JoinAll | src/evaluate/evaluate_patches.py:125-130 | definition, no contract: `os.path.join(root, *segments)` as repeated joins; its properties are stated by JoinAllStep, JoinAllInjective and JoinAllLast |
| Paths.NatStrRoundTrip | src/report/report_metrics.py:67 | `int(str(n)) == n` |
| Paths.NatStrInjective | src/evaluate/evaluate_patches.py:53 | distinct numbers have distinct numerals |
| Paths.LeadingZerosValue | validate/validate_patches.py:138 | leading zeros do not change a numeral's value |
| Paths.ZeroPadRoundTrip | validate/validate_patches.py:138 | `{j:03d}` is at least the width long and `int()` reads it back as `j` |
| Phases.PhaseOrder | src/evaluate/evaluate_patches.py:59-107 | the phases run are a prefix of apply, compile, test, read. Compile runs iff the file was read; test runs iff compile exited 0; reading runs iff test exited 0. The worker returns iff `failing_tests` was read, passing exactly when it is empty |
| Phases.RunFromApply | src/evaluate/evaluate_patches.py:61-64 | definition, no contract: apply, compile, test, read `failing_tests`, the first exception ending the run; also validate/validate_patches.py:101-105; its meaning is stated by PhaseOrder and RaisedBy |
| Phases.ApplyPatch | src/evaluate/evaluate_patches.py:79-91 | definition, no contract: the target file's lines spliced with the patch's `splitlines(keepends=True)`; its shape is stated by ValidatePatches.ApplyPatchShape and Lines.SpliceShape |
| Phases.RunCommand | src/evaluate/evaluate_patches.py:93-103 | definition, no contract: a timeout raises `TimeoutExpired`, a non-zero exit raises the phase's error with stderr, exit 0 raises nothing; its effect on the run is stated by PhaseOrder and RaisedBy |
| Phases.PassesTests | src/evaluate/evaluate_patches.py:105-107 | definition, no contract: tests pass exactly when `failing_tests` is empty; PhaseOrder states the run's verdict in these terms |
| Phases.RaisedBy | src/evaluate/evaluate_patches.py:93-107 | which exception ends the worker: a missing file, a non-zero compile exit, a non-zero test exit, or a timeout of compile or test; the pipeline never raises the checkout failure |
| ValidatePatches.LabelNames | validate/validate_patches.py:48-54 | each label's directory name is a segment, and distinct labels have distinct names |
| ValidatePatches.ValidatePatch | validate/validate_patches.py:101-105 | definition, no contract: the shared apply, compile, test, read pipeline with no checkout or copy; ValidatePhaseOrder and AgreesWithEvaluate state its meaning |
| ValidatePatches.Classify | validate/validate_patches.py:44-54 | awaiting fails exactly when the worker raised something other than `CompileError` and `TimeoutExpired`, and it fails with that exception |
| ValidatePatches.ClassifyMatchesTable | validate/validate_patches.py:101-135 | validating and awaiting one candidate gives its label table; `TestError` and a missing file escape |
| ValidatePatches.AgreesWithEvaluate | validate/validate_patches.py:44-54 | on the same run the two scripts agree: validation's label name is evaluation's outcome name, and validation fails exactly where evaluation fails or reports failed_test_execution |
| ValidatePatches.ValidatePhaseOrder | validate/validate_patches.py:101-105 | validation never checks out or copies; `CompileError` ends it after compile and `TestError` after test; returned results ran every phase |
| ValidatePatches.ApplyPatchShape | validate/validate_patches.py:107-119 | the patched file keeps lines before `start`, holds the patch's lines at `start`, then the lines after `end` |
| ValidatePatches.PatchDirectories | validate/validate_patches.py:94-98 | four label directories are created |
| ValidatePatches.PatchDirectoriesAreLabels | validate/validate_patches.py:94-98 | the directories created are exactly the label directories, and they are pairwise distinct |
| ValidatePatches.WrittenInLabelDirectory | validate/validate_patches.py:137-138 | every written patch lies in one of the created directories |
| ValidatePatches.PatchFileNameFormat | validate/validate_patches.py:138 | `patch-{j:03d}` starts with `patch-`, is at least 9 characters long, has no `.`, is one segment, and its digits read back as `j` |
| ValidatePatches.PatchFileNameInjective | validate/validate_patches.py:138 | each patch file name is a segment, and distinct indices give distinct names |
| ValidatePatches.WritePatchPathInjective | validate/validate_patches.py:137-138 | distinct (label, index) pairs write distinct paths |
| ValidatePatches.WritePatchPath | validate/validate_patches.py:137-138 | definition, no contract: `<results>/<label>/patch-<jjj>`; WritePatchPathInjective and WrittenInLabelDirectory state its properties |
| ValidatePatches.Split | validate/validate_patches.py:59-60 | `split('-')` yields at least one piece |
| ValidatePatches.SplitJoin | validate/validate_patches.py:59-60 | rejoining the pieces with `-` gives the id back; no piece holds a dash; there is one piece exactly when the id has no dash |
| ValidatePatches.SplitRejoin | validate/validate_patches.py:59-60 | `'-'.join(s.split('-')) == s` |
| ValidatePatches.SplitPieces | validate/validate_patches.py:59-60 | no piece of the split holds a dash |
| ValidatePatches.SplitSingle | validate/validate_patches.py:59-60 | the split has one piece exactly when the id has no dash |
| ValidatePatches.BugIdOf | validate/validate_patches.py:59-60 | `Project-Number` followed by nothing or a dash suffix splits into that project and number |
| ValidatePatches.BugIdSplit | validate/validate_patches.py:59-60 | splitting fails with `IndexError` exactly when the id has no dash; otherwise the id starts with `project-number` |
| ValidatePatches.BugIdParts | validate/validate_patches.py:59-60 | definition, no contract: `split('-')[0]` and `split('-')[1]`, with `IndexError` for fewer than two pieces; BugIdSplit and BugIdOf state its meaning |
| ValidatePatches.CreateClones | validate/validate_patches.py:85-91 | the clones directory is `tmp/clones/<project>-<number>`; it is created exactly when there is a candidate; clone i is `patch-i` inside it |
| ValidatePatches.ClonesDistinct | validate/validate_patches.py:39 | distinct candidates get distinct clone directories |
| ValidatePatches.SetupResult | validate/validate_patches.py:58-72 | a successful setup implies the bug id has patches |
| ValidatePatches.SetupFacts | validate/validate_patches.py:58-72 | errors come in source order: `IndexError`, then the checkout exception, then `KeyError`. Setup succeeds exactly when none applies, with one distinct clone per candidate, results under `validation_results/<bug id>`, and the four label directories there |
| ValidatePatches.SetupProject | validate/validate_patches.py:58-72 | the method computes the setup specification |
| ValidatePatches.BugWrites | validate/validate_patches.py:44-54 | definition, no contract: the candidates in submission order, each written under its verdict's label, the first uncaught exception ending the loop; BugWritesFacts, BugWritesEscape and BugWritesFiles state its meaning |
| ValidatePatches.BugWritesStop | validate/validate_patches.py:44-54 | once a candidate's exception escapes, later candidates write nothing |
| ValidatePatches.BugWritesFacts | validate/validate_patches.py:44-54 | for any verdicts: all candidates are written exactly when none escapes; otherwise the loop stops at the first that escapes; the i-th file is candidate i under its label |
| ValidatePatches.BugWritesEscape | validate/validate_patches.py:44-54 | the loop ends early exactly when some verdict is an exception, at the first such candidate |
| ValidatePatches.BugWritesFiles | validate/validate_patches.py:44-54 | the i-th file written is candidate i under its label and index, with its own text |
| ValidatePatches.BugFilesDistinct | validate/validate_patches.py:44-54 | the files of one bug are pairwise distinct, each in a created label directory |
| ValidatePatches.TestErrorStopsBug | validate/validate_patches.py:51-54 | a candidate whose tests exit non-zero ends the bug's loop at or before it |
| ValidatePatches.ValidateBug | validate/validate_patches.py:36-54 | the candidate loop computes the bug's write specification |
| ValidatePatches.MainRun | validate/validate_patches.py:31-54 | definition, no contract: for each bug id in order, `setup_project` then the candidate loop, the first failure ending `main`; MainRunStop and ValidateAll relate to it |
| ValidatePatches.MainRunStop | validate/validate_patches.py:31-54 | a failure in one bug means no later bug is set up or written |
| ValidatePatches.ValidateAll | validate/validate_patches.py:31-54 | the loop over bug ids computes the whole-run specification |
| ReportMetrics.PlausibleFrequency | src/report/report_metrics.py:34-55 | definition, no contract: per-project plausible prompts over attempts plus the overall `total`, dividing by zero on an empty project or root; FrequencyValues, FrequencyFails and FrequencyBounds state its meaning |
| ReportMetrics.CountPlausibleExact | src/report/report_metrics.py:43-46 | in a listing of distinct names, the innermost loop counts 1 exactly when `plausible` is listed |
| ReportMetrics.PromptsPlausibleBound | src/report/report_metrics.py:42-48 | a bug's plausible count is at most its prompt count |
| ReportMetrics.BugsPlausibleBound | src/report/report_metrics.py:41-48 | a project's plausible count is at most its attempts |
| ReportMetrics.ProjectsPlausibleBound | src/report/report_metrics.py:38-52 | the total plausible count is at most the total attempts |
| ReportMetrics.FrequencyMapBounds | src/report/report_metrics.py:38-49 | every per-project frequency lies in [0, 1] |
| ReportMetrics.FrequencyBounds | src/report/report_metrics.py:34-55 | every entry of the result, the total included, lies in [0, 1] |
| ReportMetrics.FrequencyMapFails | src/report/report_metrics.py:49 | the project loop fails exactly when some project has no attempts, and then with `ZeroDivisionError` |
| ReportMetrics.FrequencyFails | src/report/report_metrics.py:34-55 | the computation fails exactly when the results root is empty or some project has no attempts, always with `ZeroDivisionError` |
| ReportMetrics.FrequencyMapKeys | src/report/report_metrics.py:38-49 | the keys are exactly the project names |
| ReportMetrics.FrequencyMapValues | src/report/report_metrics.py:38-49 | each project's entry is its plausible count over its attempts |
| ReportMetrics.FrequencyValues | src/report/report_metrics.py:34-55 | the keys are the projects plus `total`; each project's entry is its ratio; `total` is the overall plausible count over the overall attempts |
| ReportMetrics.TotalIsPromptWeighted | src/report/report_metrics.py:47-52 | the total weights prompts, not projects: per-project 1.0 and 0.0 give a total of 0.25 when the second project has three times the prompts |
| ReportMetrics.ParseIndex | src/report/report_metrics.py:67 | definition, no contract: `int(name[6:-4])` on a numeral slice, `ValueError` otherwise; ParseIndexRoundTrip states its meaning |
| ReportMetrics.ReciprocalRank | src/report/report_metrics.py:66-70 | definition, no contract: 0 without a plausible directory, else `1 / (int(first[6:-4]) + 1)`; RrMeaning states its meaning |
| ReportMetrics.ParseIndexRoundTrip | src/report/report_metrics.py:67 | `int(name[6:-4])` reads back the index of every `patch-j.txt` that evaluation writes |
| ReportMetrics.PlausibleFilesFound | src/report/report_metrics.py:66-67 | the plausible listing is found exactly when `plausible` is listed, and it is that directory's listing |
| ReportMetrics.RrMeaning | src/report/report_metrics.py:66-70 | rr lies in [0, 1]. It is 0 without a plausible directory; an empty plausible directory raises `IndexError`, and an unreadable first name raises `ValueError`; otherwise rr is `1 / (index of the first listed file + 1)` |
| ReportMetrics.RrOnlyPatchTwo | src/report/report_metrics.py:66-70 | a prompt whose only plausible patch is `patch-2.txt` scores 1/3 |
| ReportMetrics.RrFirstListed | src/report/report_metrics.py:67 | rr uses the first file listed, not the smallest index |
| ReportMetrics.PromptsRrBound | src/report/report_metrics.py:65-72 | a bug's rr sum lies between 0 and its prompt count |
| ReportMetrics.BugsRrBound | src/report/report_metrics.py:64-74 | a project's rr sum lies between 0 and its attempts |
| ReportMetrics.ProjectsRrBound | src/report/report_metrics.py:61-74 | the total rr sum lies between 0 and the total attempts |
| ReportMetrics.ProjectMrr | src/report/report_metrics.py:75 | definition, no contract: the project's rr sum over its attempts, dividing by zero without attempts; MrrMapValues and MrrMapBounds state its meaning |
| ReportMetrics.Mrr | src/report/report_metrics.py:57-78 | definition, no contract: the per-project MRRs plus `total`; MrrValues, MrrFails and MrrBounds state its meaning |
| ReportMetrics.MrrMapBounds | src/report/report_metrics.py:61-75 | every per-project MRR lies in [0, 1] |
| ReportMetrics.MrrBounds | src/report/report_metrics.py:57-78 | every MRR entry, the total included, lies in [0, 1]; an empty results root raises `ZeroDivisionError` |
| ReportMetrics.FrequencyMapStop | src/report/report_metrics.py:49 | once a project divides by zero, later projects change nothing |
| ReportMetrics.PromptsRrStop | src/report/report_metrics.py:67 | once a prompt's rr raises, later prompts change nothing |
| ReportMetrics.BugsRrStop | src/report/report_metrics.py:64-67 | once a bug's rr sum raises, later bugs change nothing |
| ReportMetrics.MrrMapStop | src/report/report_metrics.py:61-75 | once a project raises, later projects change nothing |
| ReportMetrics.PromptsRrFails | src/report/report_metrics.py:65-72 | a bug's rr sum raises exactly when one of its prompts' rr raises |
| ReportMetrics.BugsRrFails | src/report/report_metrics.py:64-74 | a project's rr sum raises exactly when some prompt of some bug raises |
| ReportMetrics.ProjectsRrFails | src/report/report_metrics.py:61-74 | the total rr sum raises exactly when some project's rr sum raises |
| ReportMetrics.MrrMapFails | src/report/report_metrics.py:61-75 | the project loop raises exactly when some project's rr sum raises or the project has no attempts |
| ReportMetrics.MrrFails | src/report/report_metrics.py:57-78 | `compute_mrr` raises exactly when the results root is empty, some project has no attempts, or some prompt's rr raises (an empty plausible listing or a first name that is not a numeral) |
| ReportMetrics.MrrMapKeys | src/report/report_metrics.py:61-75 | the keys are exactly the project names |
| ReportMetrics.MrrMapValues | src/report/report_metrics.py:61-75 | each project's entry is its rr sum over its attempts, looked up by name |
| ReportMetrics.MrrValues | src/report/report_metrics.py:57-78 | the keys are the projects plus `total`; each project's entry is its rr sum over its attempts; `total` is the overall rr sum over the overall attempts |
| ReportMetrics.MrrFailsAt | src/report/report_metrics.py:61-75 | the first project that raises ends the computation with its exception |
| ReportMetrics.CountBug | src/report/report_metrics.py:42-48 | the prompt loops count one attempt per prompt and the bug's plausible prompts |
| ReportMetrics.CountProject | src/report/report_metrics.py:41-48 | the bug loop yields the project's plausible count and attempts |
| ReportMetrics.ComputePlausiblePatchFrequency | src/report/report_metrics.py:34-55 | the loops compute the frequency specification, including its `ZeroDivisionError` |
| ReportMetrics.RankBug | src/report/report_metrics.py:65-72 | the prompt loop yields the bug's rr sum, or the first exception |
| ReportMetrics.RankProject | src/report/report_metrics.py:64-74 | the bug loop yields the project's rr sum and attempts, or the first exception |
| ReportMetrics.ComputeMrr | src/report/report_metrics.py:57-78 | the loops compute the MRR specification, including every exception |

## Left out

- Subprocesses and their timeouts. `defects4j checkout`, `compile` and `test` are not run. Their exit code, stderr and timeout are inputs (`ToolRun`).
- Concurrency. The thread pools, futures and `threading.Lock` are not modelled. Each evaluation runs to completion when it is started, against the checkout table's state at that moment. A lock is a number, and checking out under the lock is one atomic step. Interleavings of workers are not modelled.
- Randomness. `random.shuffle`'s randomness is a draw function passed to a Fisher-Yates loop.
- EvaluationQueue.Shuffle: states only that the queue is permuted, not which permutation the draws select, which is as much as `random.shuffle` promises.
- EvaluationQueue.CreateEvaluationQueue: the queue holds the evaluation units as values. The model does not build `PatchEvaluation` objects in the same loop; `PatchEvaluation.constructor` builds one from a unit.
- The filesystem. `copytree`, `copy_tree`, `rmtree`, `makedirs`, `listdir`, `clean`, `safe_remove` and `clean_tmp_directory` are not modelled. Paths are computed; writes are returned as (path, content) values; listings are inputs.
- Failed checkouts. Whatever a failed `defects4j checkout` might leave on disk is not modelled. A failed checkout adds no original directory, so the next evaluation of the bug checks out again.
- Reading the inputs. JSON loading, command-line parsing, `print`, `tqdm`, `round` and the metrics dump in `report_metrics.main` are not modelled. The datasets are maps and sequences.
- Missing dataset keys. A bug record without `loc`, `start` or `end` (or `replacement_info` in evaluation) is not modelled, since a `Locus` always has its three fields. The `KeyError` it would raise is out of scope.
- Line breaks. Python's `splitlines` also splits on `\v`, `\f`, `\x1c`-`\x1e`, `\x85`, `\u2028` and `\u2029`. The model splits on `\n`, `\r` and `\r\n` only. `readlines` and `writelines` are modelled by the line sequence itself, with no newline translation or encoding.
- Paths.ParseInt: accepts only non-empty strings of ASCII digits, with their decimal value. Python's `int()` also accepts surrounding whitespace, a sign and underscores; those forms are a `ValueError` in the model.
- ReportMetrics.ParseIndex: Python's `int()` also accepts surrounding whitespace, a sign and underscores. The model accepts only plain ASCII numerals; any other name is a `ValueError`. So a file `patch--1.txt` would divide by zero in Python but is a `ValueError` in the model. Evaluation never writes such a name (`ParseIndexRoundTrip`).
- Floating point. Frequencies and reciprocal ranks are exact reals; Python's float rounding is not modelled.
- Listing order. Directory and dictionary order are whatever the inputs give. The frequency's entries do not depend on it; `FrequencyValues` states them by name. The MRR entries do: line 67 takes the first name of the `plausible` listing, whose order Python leaves arbitrary, so reordering a listing can change a reciprocal rank (`RrFirstListed`). `MrrValues` states each entry by name in terms of the listings as given.
