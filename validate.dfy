/**
 * `validate/validate_patches.py`: the older single-prompt pipeline. For every
 * bug it checks out the buggy version into `tmp/original_projects/<p>-<n>`,
 * copies it once per candidate into `tmp/clones/<p>-<n>/patch-<i>`, runs
 * apply, compile, test and the `failing_tests` check for each clone, and
 * writes each candidate to `validation_results/<bug id>/<label>/patch-<iii>`.
 */
module ValidatePatches {
  import opened Common
  import Paths
  import Lines
  import opened Phases
  import EvaluatePatches

  // ---------------------------------------------------------------------
  // Labels and the classification block of `main`
  // ---------------------------------------------------------------------

  /** The four result labels `write_patch` is called with. */
  datatype Label = Plausible | Failing | Uncompilable | Timeout
  {
    function Name(): string
    {
      match this
      case Plausible => "plausible"
      case Failing => "failing"
      case Uncompilable => "uncompilable"
      case Timeout => "timeout"
    }
  }

  /** The label names are distinct directory names. */
  lemma LabelNames(l: Label, l': Label)
    ensures Paths.IsSegment(l.Name())
    ensures l.Name() == l'.Name() ==> l == l'
  {
  }

  /** `validate_patch`: apply, compile, test, then whether `failing_tests` is empty. */
  function ValidatePatch(tool: Tool, locus: Locus, patch: string): Run
  {
    RunFromApply(tool, locus, patch)
  }

  /** The `try` block around `patch_evaluation.result(timeout=15*60)`: a label,
      or the exception that is not caught and leaves `main`. */
  function Classify(a: EvaluatePatches.Awaited): (r: Result<Label, Raised>)
    ensures r.Err? <==> a.Finished? && a.result.Threw? && !a.result.error.CompileError? && !a.result.error.TimeoutExpired?
    ensures r.Err? ==> r.error == a.result.error
  {
    match a
    case WaitExpired => Ok(Timeout)
    case Finished(Returned(passes)) => Ok(if passes then Plausible else Failing)
    case Finished(Threw(e)) =>
      match e
      case CompileError(_) => Ok(Uncompilable)
      case TimeoutExpired => Ok(Timeout)
      case TestError(_) => Err(e)
      case CheckoutFailure(_) => Err(e)
      case FileError => Err(e)
  }

  /** The label table over what the tool and the clock observed: an expired wait
      is a timeout; otherwise the first failing phase decides, and a failed test
      run has no label. */
  function LabelTable(tool: Tool, waitExpired: bool): Result<Label, Raised>
  {
    if waitExpired then Ok(Timeout)
    else if tool.targetFile.None? then Err(FileError)
    else if tool.compile.TimedOut? then Ok(Timeout)
    else if tool.compile.code != 0 then Ok(Uncompilable)
    else if tool.test.TimedOut? then Ok(Timeout)
    else if tool.test.code != 0 then Err(TestError(tool.test.stderr))
    else if tool.failingTests.None? then Err(FileError)
    else if tool.failingTests.value == "" then Ok(Plausible)
    else Ok(Failing)
  }

  /** What waiting on one candidate's future gives. */
  function AwaitPatch(tool: Tool, locus: Locus, patch: string, waitExpired: bool): EvaluatePatches.Awaited
  {
    EvaluatePatches.Await(ValidatePatch(tool, locus, patch).result, waitExpired)
  }

  /** Running a candidate and classifying it gives exactly the label table. */
  lemma ClassifyMatchesTable(tool: Tool, locus: Locus, patch: string, waitExpired: bool)
    ensures Classify(AwaitPatch(tool, locus, patch, waitExpired)) == LabelTable(tool, waitExpired)
  {
  }

  /** The two pipelines agree wherever this one writes a label: the label is the
      directory name of the outcome `await_result` would record; this one
      writes nothing exactly where the other records a failed test execution or
      lets an exception escape. */
  lemma AgreesWithEvaluate(a: EvaluatePatches.Awaited)
    ensures Classify(a).Ok? ==>
              EvaluatePatches.Classify(a).Ok? && EvaluatePatches.Classify(a).value.Value() == Classify(a).value.Name()
    ensures Classify(a).Err? <==>
              EvaluatePatches.Classify(a).Err? || EvaluatePatches.Classify(a) == Ok(EvaluatePatches.FailedTestExecution)
  {
  }

  /** Phase order of `validate_patch`: no checkout and no copy inside it; the
      phases that started are a non-empty prefix of apply, compile, test, read;
      a compile error stops before testing, a test error before reading the
      report, and a normal return ran every phase. */
  lemma ValidatePhaseOrder(tool: Tool, locus: Locus, patch: string)
    ensures var r := ValidatePatch(tool, locus, patch);
      && IsPrefix(r.phases, AfterCopy) && |r.phases| >= 1
      && Checkout !in r.phases && Copy !in r.phases
      && (r.result.Threw? && r.result.error.CompileError? ==> r.phases == [Apply, Compile])
      && (r.result.Threw? && r.result.error.TestError? ==> r.phases == [Apply, Compile, Test])
      && (r.result.Returned? ==> r.phases == AfterCopy && r.result.passes == (tool.failingTests.value == ""))
  {
    PhaseOrder(tool, locus, patch);
    RaisedBy(tool, locus, patch);
    var r := ValidatePatch(tool, locus, patch);
    assert r.phases == AfterCopy[..|r.phases|];
  }

  // ---------------------------------------------------------------------
  // `apply_patch`
  // ---------------------------------------------------------------------

  /** `apply_patch` with the bug's `loc`, `start` and `end`: for a range inside
      the file, the lines before `start` and after `end` are kept in order and
      the patch's lines stand in between. */
  lemma ApplyPatchShape(lines: seq<string>, loc: string, start: int, stop: int, patch: string)
    requires 1 <= start <= stop <= |lines|
    ensures var r := ApplyPatch(lines, Locus(loc, start, stop), patch);
      var p := Lines.SplitLines(patch);
      && |r| == |lines| - (stop - start + 1) + |p|
      && r[..start - 1] == lines[..start - 1]
      && r[start - 1 .. start - 1 + |p|] == p
      && r[start - 1 + |p|..] == lines[stop..]
  {
    Lines.SpliceShape(lines, start, stop, Lines.SplitLines(patch));
  }

  // ---------------------------------------------------------------------
  // Result directories and file names
  // ---------------------------------------------------------------------

  /** `os.path.join('validation_results', bug_id)` */
  function ResultsPath(bugId: string): string
  {
    Paths.JoinAll("validation_results", [bugId])
  }

  /** The label directories in the order `create_patch_directories` makes them. */
  const LabelOrder: seq<Label> := [Uncompilable, Failing, Plausible, Timeout]

  /** Where a label's directory comes in that order. */
  function Position(l: Label): (k: nat)
    ensures k < |LabelOrder| && LabelOrder[k] == l
  {
    match l
    case Uncompilable => 0
    case Failing => 1
    case Plausible => 2
    case Timeout => 3
  }

  function LabelDirectory(results: string, l: Label): string
  {
    Paths.JoinAll(results, [l.Name()])
  }

  /** `create_patch_directories`: the directories it creates, in order. */
  function PatchDirectories(results: string): (dirs: seq<string>)
    ensures |dirs| == |LabelOrder|
  {
    seq(|LabelOrder|, k requires 0 <= k < |LabelOrder| => LabelDirectory(results, LabelOrder[k]))
  }

  /** `f'patch-{patch_index:03d}'`: no extension. */
  function PatchFileName(j: nat): string
  {
    "patch-" + Paths.ZeroPad(Paths.NatStr(j), 3)
  }

  /** `write_patch`'s path: `<results>/<label>/patch-<iii>`. */
  function WritePatchPath(results: string, l: Label, j: nat): string
  {
    Paths.JoinAll(results, [l.Name(), PatchFileName(j)])
  }

  /** The directories created are exactly one per label, all different. */
  lemma PatchDirectoriesAreLabels(results: string, d: string)
    ensures d in PatchDirectories(results) <==> exists l: Label :: d == LabelDirectory(results, l)
    ensures forall a, b :: 0 <= a < b < |LabelOrder| ==> PatchDirectories(results)[a] != PatchDirectories(results)[b]
  {
    var dirs := PatchDirectories(results);
    forall l: Label ensures LabelDirectory(results, l) in dirs {
      assert dirs[Position(l)] == LabelDirectory(results, l);
    }
    forall a, b | 0 <= a < b < |LabelOrder| ensures dirs[a] != dirs[b] {
      LabelNames(LabelOrder[a], LabelOrder[b]);
      LabelNames(LabelOrder[b], LabelOrder[a]);
      if dirs[a] == dirs[b] {
        Paths.JoinAllInjective(results, [LabelOrder[a].Name()], [LabelOrder[b].Name()]);
      }
    }
  }

  /** Every file `write_patch` can write lies in a directory
      `create_patch_directories` made. */
  lemma WrittenInLabelDirectory(results: string, l: Label, j: nat)
    ensures exists k :: 0 <= k < |LabelOrder| &&
              WritePatchPath(results, l, j) == Paths.Join(PatchDirectories(results)[k], PatchFileName(j))
  {
    var k := Position(l);
    assert [l.Name(), PatchFileName(j)][..1] == [l.Name()];
    assert WritePatchPath(results, l, j) == Paths.Join(LabelDirectory(results, l), PatchFileName(j));
    assert PatchDirectories(results)[k] == LabelDirectory(results, l);
  }

  /** The file name is `patch-` and at least three digits that parse back to
      the index; it has no extension and is a single path segment. */
  lemma PatchFileNameFormat(j: nat)
    ensures var name := PatchFileName(j);
      && |name| >= 9 && name[..6] == "patch-"
      && Paths.ParseInt(name[6..]) == Some(j)
      && (forall m :: 0 <= m < |name| ==> name[m] != '.')
      && Paths.IsSegment(name)
  {
    var name := PatchFileName(j);
    var digits := Paths.ZeroPad(Paths.NatStr(j), 3);
    Paths.ZeroPadRoundTrip(j, 3);
    assert name[6..] == digits;
    assert Paths.IsDigits(digits);
    assert forall m :: 6 <= m < |name| ==> name[m] == digits[m - 6];
  }

  /** Each file name is one segment, and distinct indices give distinct names. */
  lemma PatchFileNameInjective(j: nat, j': nat)
    ensures Paths.IsSegment(PatchFileName(j))
    ensures PatchFileName(j) == PatchFileName(j') ==> j == j'
  {
    PatchFileNameFormat(j);
    PatchFileNameFormat(j');
  }

  /** Distinct (label, index) give distinct files under one results directory. */
  lemma WritePatchPathInjective(results: string, l: Label, j: nat, l': Label, j': nat)
    ensures WritePatchPath(results, l, j) == WritePatchPath(results, l', j') ==> l == l' && j == j'
  {
    var s1, s2 := [l.Name(), PatchFileName(j)], [l'.Name(), PatchFileName(j')];
    if Paths.JoinAll(results, s1) == Paths.JoinAll(results, s2) {
      PatchFileNameInjective(j, j');
      PatchFileNameInjective(j', j);
      LabelNames(l, l');
      LabelNames(l', l);
      assert Paths.AllSegments(s1) && Paths.AllSegments(s2);
      Paths.JoinAllInjective(results, s1, s2);
      assert s1[0] == s2[0] && s1[1] == s2[1];
    }
  }

  // ---------------------------------------------------------------------
  // The bug id split of `setup_project`
  // ---------------------------------------------------------------------

  predicate NoDash(s: string)
  {
    forall m :: 0 <= m < |s| ==> s[m] != '-'
  }

  /** `s.split('-')`: the pieces between the dashes, empty ones included. */
  function Split(s: string): (r: seq<string>)
    ensures |r| >= 1
  {
    if s == [] then [""]
    else
      var rest := Split(s[1..]);
      if s[0] == '-' then [""] + rest else [[s[0]] + rest[0]] + rest[1..]
  }

  /** `'-'.join(pieces)` */
  function JoinDash(pieces: seq<string>): string
    requires |pieces| >= 1
  {
    if |pieces| == 1 then pieces[0] else pieces[0] + "-" + JoinDash(pieces[1..])
  }

  /** Joining the pieces with dashes gives the string back. */
  lemma {:induction false} SplitRejoin(s: string)
    ensures JoinDash(Split(s)) == s
  {
    if s != [] {
      var rest := Split(s[1..]);
      SplitRejoin(s[1..]);
      if s[0] == '-' {
        assert Split(s) == [""] + rest && Split(s)[1..] == rest;
        assert JoinDash(Split(s)) == "" + "-" + s[1..];
      } else {
        var head := [s[0]] + rest[0];
        assert Split(s) == [head] + rest[1..];
        if |rest| > 1 {
          assert Split(s)[1..] == rest[1..];
          assert JoinDash(rest) == rest[0] + "-" + JoinDash(rest[1..]);
        }
        assert s == [s[0]] + s[1..];
      }
    }
  }

  /** No piece holds a dash. */
  lemma {:induction false} SplitPieces(s: string)
    ensures forall k :: 0 <= k < |Split(s)| ==> NoDash(Split(s)[k])
  {
    if s != [] {
      var rest := Split(s[1..]);
      SplitPieces(s[1..]);
      if s[0] != '-' {
        var head := [s[0]] + rest[0];
        assert Split(s) == [head] + rest[1..];
        forall k | 0 <= k < |Split(s)| ensures NoDash(Split(s)[k]) {
          if k > 0 { assert Split(s)[k] == rest[k]; }
        }
      } else {
        assert Split(s) == [""] + rest;
        forall k | 0 <= k < |Split(s)| ensures NoDash(Split(s)[k]) {
          if k > 0 { assert Split(s)[k] == rest[k - 1]; }
        }
      }
    }
  }

  /** A string splits into one piece exactly when it holds no dash. */
  lemma {:induction false} SplitSingle(s: string)
    ensures |Split(s)| == 1 <==> NoDash(s)
  {
    if s != [] {
      SplitSingle(s[1..]);
      if s[0] != '-' {
        assert NoDash(s) <==> NoDash(s[1..]) by {
          if NoDash(s[1..]) {
            forall m | 0 <= m < |s| ensures s[m] != '-' {
              if m > 0 { assert s[m] == s[1..][m - 1]; }
            }
          }
        }
      }
    }
  }

  /** Splitting loses nothing: joining the pieces with dashes gives the id back,
      no piece holds a dash, and a string without a dash is a single piece. */
  lemma SplitJoin(s: string)
    ensures JoinDash(Split(s)) == s
    ensures forall k :: 0 <= k < |Split(s)| ==> NoDash(Split(s)[k])
    ensures |Split(s)| == 1 <==> NoDash(s)
  {
    SplitRejoin(s);
    SplitPieces(s);
    SplitSingle(s);
  }

  /** A piece without a dash followed by a dash comes off the front whole. */
  lemma {:induction false} SplitFront(p: string, rest: string)
    requires NoDash(p)
    ensures Split(p + "-" + rest) == [p] + Split(rest)
    decreases |p|
  {
    var s := p + "-" + rest;
    if p == [] {
      assert s == "-" + rest && s[1..] == rest;
    } else {
      assert s[1..] == p[1..] + "-" + rest;
      SplitFront(p[1..], rest);
      assert [p[0]] + p[1..] == p;
    }
  }

  /** Splitting a string without a dash gives that string. */
  lemma {:induction false} SplitNoDash(p: string)
    requires NoDash(p)
    ensures Split(p) == [p]
    decreases |p|
  {
    if p != [] {
      SplitNoDash(p[1..]);
      assert [p[0]] + p[1..] == p;
    }
  }

  /** What goes wrong in `setup_project`, in the order it can happen. */
  datatype Failure =
    | IndexError                  // `bug_id.split('-')[1]` on an id without a dash
    | Raise(error: Raised)        // the checkout's `Exception`, or an exception a patch run let escape
    | KeyError(key: string)       // `patches[bug_id]` for a bug without candidates

  /** `project = bug_id.split('-')[0]; bug_number = bug_id.split('-')[1]` */
  function BugIdParts(bugId: string): Result<(string, string), Failure>
  {
    var pieces := Split(bugId);
    if |pieces| < 2 then Err(IndexError) else Ok((pieces[0], pieces[1]))
  }

  /** The project is the text before the first dash and the number the text
      between the first and the second dash (or the end). */
  lemma BugIdOf(project: string, number: string, rest: string)
    requires NoDash(project) && NoDash(number) && (rest == "" || rest[0] == '-')
    ensures BugIdParts(project + "-" + number + rest) == Ok((project, number))
  {
    SplitFront(project, number + rest);
    assert project + "-" + number + rest == project + "-" + (number + rest);
    if rest == "" {
      SplitNoDash(number);
      assert number + rest == number;
    } else {
      SplitFront(number, rest[1..]);
      assert number + rest == number + "-" + rest[1..];
    }
  }

  /** The split fails exactly on an id without a dash; otherwise the id starts
      with the project, a dash and the number. */
  lemma BugIdSplit(bugId: string)
    ensures BugIdParts(bugId).Err? <==> NoDash(bugId)
    ensures BugIdParts(bugId).Ok? ==>
              var (p, n) := BugIdParts(bugId).value;
              NoDash(p) && NoDash(n) && |p| + 1 + |n| <= |bugId| && bugId[..|p| + 1 + |n|] == p + "-" + n
  {
    SplitJoin(bugId);
    var pieces := Split(bugId);
    if |pieces| >= 2 {
      var p, n := pieces[0], pieces[1];
      assert pieces[1..][0] == n;
      if |pieces| == 2 {
        assert JoinDash(pieces[1..]) == n;
        assert bugId == p + "-" + n;
      } else {
        assert JoinDash(pieces[1..]) == n + "-" + JoinDash(pieces[2..]);
        assert bugId == p + "-" + n + "-" + JoinDash(pieces[2..]);
      }
    }
  }

  // ---------------------------------------------------------------------
  // `create_clones` and `setup_project`
  // ---------------------------------------------------------------------

  /** `f'{project}-{bug_number}'` */
  function ProjectDir(project: string, number: string): string
  {
    project + "-" + number
  }

  /** `os.path.join('tmp', 'original_projects', f'{project}-{bug_number}')` */
  function OriginalDirectory(project: string, number: string): string
  {
    Paths.JoinAll("tmp", ["original_projects", ProjectDir(project, number)])
  }

  /** `os.path.join('tmp', 'clones', f'{project}-{bug_number}')` */
  function ClonesDirectory(project: string, number: string): string
  {
    Paths.JoinAll("tmp", ["clones", ProjectDir(project, number)])
  }

  /** The clone directory `main` hands to `validate_patch` for candidate `i`. */
  function MainCloneDirectory(clones: string, i: nat): string
  {
    Paths.Join(clones, EvaluatePatches.CloneName(i))
  }

  /** `create_clones`: one copy of the original per candidate, at
      `<clones>/patch-<i>`; the clones directory itself is only made when there
      is at least one candidate. */
  method CreateClones(project: string, number: string, count: nat)
    returns (clonesDirectory: string, made: bool, copies: seq<string>)
    ensures clonesDirectory == ClonesDirectory(project, number)
    ensures made <==> count > 0
    ensures |copies| == count
    ensures forall i :: 0 <= i < count ==> copies[i] == MainCloneDirectory(clonesDirectory, i)
  {
    clonesDirectory := Paths.JoinAll("tmp", ["clones", project + "-" + number]);
    made := false;
    copies := [];
    var i := 0;
    while i < count
      invariant 0 <= i <= count
      invariant made <==> i > 0
      invariant |copies| == i
      invariant forall m :: 0 <= m < i ==> copies[m] == MainCloneDirectory(clonesDirectory, m)
    {
      made := true;
      copies := copies + [Paths.Join(clonesDirectory, "patch-" + Paths.NatStr(i))];
      i := i + 1;
    }
  }

  /** The clone directories of one bug are pairwise distinct. */
  lemma ClonesDistinct(clones: string, i: nat, j: nat)
    ensures MainCloneDirectory(clones, i) == MainCloneDirectory(clones, j) ==> i == j
  {
    if MainCloneDirectory(clones, i) == MainCloneDirectory(clones, j) {
      EvaluatePatches.NumberedNames(i, j);
      EvaluatePatches.NumberedNames(j, i);
      assert [EvaluatePatches.CloneName(i)][..0] == [] && [EvaluatePatches.CloneName(j)][..0] == [];
      Paths.JoinAllInjective(clones, [EvaluatePatches.CloneName(i)], [EvaluatePatches.CloneName(j)]);
    }
  }

  /** What `setup_project` leaves behind for one bug. */
  datatype Setup = Setup(
    originalDirectory: string,
    clonesDirectory: string,
    clones: seq<string>,
    resultsPath: string,
    labelDirectories: seq<string>)

  /** `setup_project`, as a value: split the id, check out (a non-zero exit
      raises), clone once per candidate (`patches[bug_id]` raises `KeyError` for
      a bug without candidates) and create the label directories. */
  function SetupResult(bugId: string, patches: map<string, seq<string>>, checkout: EvaluatePatches.CheckoutRun): (r: Result<Setup, Failure>)
    ensures r.Ok? ==> bugId in patches
  {
    match BugIdParts(bugId)
    case Err(e) => Err(e)
    case Ok((project, number)) =>
      if checkout.code != 0 then Err(Raise(CheckoutFailure(checkout.stderr)))
      else if bugId !in patches then Err(KeyError(bugId))
      else
        var clones := ClonesDirectory(project, number);
        Ok(Setup(OriginalDirectory(project, number), clones,
                 seq(|patches[bugId]|, i requires 0 <= i => MainCloneDirectory(clones, i)),
                 ResultsPath(bugId), PatchDirectories(ResultsPath(bugId))))
  }

  /** The error cases of `setup_project` in order, and what a successful setup
      holds: one clone per candidate, named as `main` names it, all distinct,
      and the four label directories under the bug's results directory. */
  lemma SetupFacts(bugId: string, patches: map<string, seq<string>>, checkout: EvaluatePatches.CheckoutRun)
    ensures NoDash(bugId) ==> SetupResult(bugId, patches, checkout) == Err(IndexError)
    ensures !NoDash(bugId) && checkout.code != 0 ==>
              SetupResult(bugId, patches, checkout) == Err(Raise(CheckoutFailure(checkout.stderr)))
    ensures !NoDash(bugId) && checkout.code == 0 && bugId !in patches ==>
              SetupResult(bugId, patches, checkout) == Err(KeyError(bugId))
    ensures SetupResult(bugId, patches, checkout).Ok? <==> !NoDash(bugId) && checkout.code == 0 && bugId in patches
    ensures SetupResult(bugId, patches, checkout).Ok? ==>
              var s := SetupResult(bugId, patches, checkout).value;
              && |s.clones| == |patches[bugId]|
              && (forall i :: 0 <= i < |s.clones| ==> s.clones[i] == MainCloneDirectory(s.clonesDirectory, i))
              && (forall i, j :: 0 <= i < j < |s.clones| ==> s.clones[i] != s.clones[j])
              && s.resultsPath == Paths.Join("validation_results", bugId)
              && s.labelDirectories == PatchDirectories(s.resultsPath)
  {
    BugIdSplit(bugId);
    if SetupResult(bugId, patches, checkout).Ok? {
      var s := SetupResult(bugId, patches, checkout).value;
      forall i, j | 0 <= i < j < |s.clones| ensures s.clones[i] != s.clones[j] {
        ClonesDistinct(s.clonesDirectory, i, j);
      }
      assert [bugId][..0] == [];
      assert ResultsPath(bugId) == Paths.Join(Paths.JoinAll("validation_results", []), bugId);
    }
  }

  /** `setup_project` */
  method SetupProject(bugId: string, patches: map<string, seq<string>>, checkout: EvaluatePatches.CheckoutRun)
    returns (r: Result<Setup, Failure>)
    ensures r == SetupResult(bugId, patches, checkout)
  {
    var pieces := Split(bugId);
    if |pieces| < 2 {
      return Err(IndexError);
    }
    var project, number := pieces[0], pieces[1];
    if checkout.code != 0 {
      return Err(Raise(CheckoutFailure(checkout.stderr)));
    }
    if bugId !in patches {
      return Err(KeyError(bugId));
    }
    var clonesDirectory, made, copies := CreateClones(project, number, |patches[bugId]|);
    var results := Paths.JoinAll("validation_results", [bugId]);
    r := Ok(Setup(OriginalDirectory(project, number), clonesDirectory, copies, results, PatchDirectories(results)));
    assert copies == seq(|patches[bugId]|, i requires 0 <= i => MainCloneDirectory(clonesDirectory, i));
  }

  // ---------------------------------------------------------------------
  // The loops of `main`
  // ---------------------------------------------------------------------

  /** A file `write_patch` wrote: its path and the candidate text. */
  datatype PatchFile = PatchFile(path: string, content: string)

  /** The files one bug's loop wrote, and the exception that left it, if any. */
  datatype Writes = Writes(written: seq<PatchFile>, escaped: Option<Raised>)

  /** The label of a candidate (or the exception that leaves its wait),
      given what the tool answers for it and whether the wait expired. */
  function CandidateLabel(locus: Locus, text: string, tool: Tool, waitExpired: bool): Result<Label, Raised>
  {
    Classify(AwaitPatch(tool, locus, text, waitExpired))
  }

  /** The verdict on each candidate index of one bug. */
  function Verdicts(locus: Locus, texts: seq<string>, tool: nat -> Tool, wait: nat -> bool): nat -> Result<Label, Raised>
  {
    (i: nat) => CandidateLabel(locus, if i < |texts| then texts[i] else "", tool(i), wait(i))
  }

  /** The file `write_patch` writes for candidate `i` under label `l`. */
  function WrittenPatch(results: string, l: Label, i: nat, text: string): PatchFile
  {
    PatchFile(WritePatchPath(results, l, i), text)
  }

  /** The loop over one bug's futures in submission order, over its first
      `|texts|` candidates: each labelled candidate is written under its label;
      the first exception that is not caught ends the loop. */
  function BugWrites(texts: seq<string>, results: string, verdict: nat -> Result<Label, Raised>): Writes
  {
    if texts == [] then Writes([], None)
    else
      var n := |texts| - 1;
      var prev := BugWrites(texts[..n], results, verdict);
      if prev.escaped.Some? then prev
      else
        match verdict(n)
        case Err(e) => Writes(prev.written, Some(e))
        case Ok(l) => Writes(prev.written + [WrittenPatch(results, l, n, texts[n])], None)
  }

  /** Once an exception has left the loop, later candidates change nothing. */
  lemma {:induction false} BugWritesStop(texts: seq<string>, results: string, verdict: nat -> Result<Label, Raised>, k: nat)
    requires k <= |texts| && BugWrites(texts[..k], results, verdict).escaped.Some?
    ensures BugWrites(texts, results, verdict) == BugWrites(texts[..k], results, verdict)
    decreases |texts|
  {
    if k < |texts| {
      var n := |texts| - 1;
      assert texts[..n][..k] == texts[..k];
      BugWritesStop(texts[..n], results, verdict, k);
    } else {
      assert texts[..k] == texts;
    }
  }

  /** The loop ends early exactly when some verdict is an exception; it then
      stops at the first such candidate, whose exception is the one that
      leaves. */
  lemma {:induction false} BugWritesEscape(texts: seq<string>, results: string, verdict: nat -> Result<Label, Raised>)
    ensures var w := BugWrites(texts, results, verdict);
      && (w.escaped.None? <==> forall i :: 0 <= i < |texts| ==> verdict(i).Ok?)
      && (w.escaped.None? ==> |w.written| == |texts|)
      && (w.escaped.Some? ==> |w.written| < |texts| && verdict(|w.written|) == Err(w.escaped.value))
    decreases |texts|
  {
    if texts != [] {
      BugWritesEscape(texts[..|texts| - 1], results, verdict);
    }
  }

  /** The i-th file written is candidate i, at the path of its label and index
      and with its own text. */
  lemma {:induction false} BugWritesFiles(texts: seq<string>, results: string, verdict: nat -> Result<Label, Raised>)
    ensures var w := BugWrites(texts, results, verdict);
      && |w.written| <= |texts|
      && forall i :: 0 <= i < |w.written| ==>
           verdict(i).Ok? && w.written[i] == WrittenPatch(results, verdict(i).value, i, texts[i])
    decreases |texts|
  {
    if texts != [] {
      var n := |texts| - 1;
      var prev := BugWrites(texts[..n], results, verdict);
      BugWritesFiles(texts[..n], results, verdict);
      var w := BugWrites(texts, results, verdict).written;
      if prev.escaped.None? && verdict(n).Ok? {
        BugWritesEscape(texts[..n], results, verdict);
        assert |prev.written| == n && w == prev.written + [WrittenPatch(results, verdict(n).value, n, texts[n])];
      } else {
        assert w == prev.written;
      }
      forall i | 0 <= i < |w|
        ensures verdict(i).Ok? && w[i] == WrittenPatch(results, verdict(i).value, i, texts[i])
      {
        if i < |prev.written| {
          assert w[i] == prev.written[i] && texts[..n][i] == texts[i];
        }
      }
    }
  }

  /** Without an escape every candidate is written, at the path of its label and
      index and with its own text; with one, exactly the candidates before the
      first one whose exception is not caught are written, and that exception
      is the one that leaves. */
  lemma BugWritesFacts(texts: seq<string>, results: string, verdict: nat -> Result<Label, Raised>)
    ensures var w := BugWrites(texts, results, verdict);
      && (w.escaped.None? <==> forall i :: 0 <= i < |texts| ==> verdict(i).Ok?)
      && (w.escaped.None? ==> |w.written| == |texts|)
      && (w.escaped.Some? ==> |w.written| < |texts| && verdict(|w.written|) == Err(w.escaped.value))
      && (forall i :: 0 <= i < |w.written| ==>
            verdict(i).Ok? && w.written[i] == WrittenPatch(results, verdict(i).value, i, texts[i]))
  {
    BugWritesEscape(texts, results, verdict);
    BugWritesFiles(texts, results, verdict);
  }

  /** Distinct candidates of one bug are written to distinct files, each inside
      one of the label directories. */
  lemma BugFilesDistinct(texts: seq<string>, results: string, verdict: nat -> Result<Label, Raised>, i: nat, j: nat)
    requires i < j < |BugWrites(texts, results, verdict).written|
    ensures var w := BugWrites(texts, results, verdict).written;
      w[i].path != w[j].path
      && exists k :: 0 <= k < |LabelOrder| && w[i].path == Paths.Join(PatchDirectories(results)[k], PatchFileName(i))
  {
    BugWritesFacts(texts, results, verdict);
    WritePatchPathInjective(results, verdict(i).value, i, verdict(j).value, j);
    WrittenInLabelDirectory(results, verdict(i).value, i);
  }

  /** A candidate whose test run fails (and whose compile ran clean within the
      wait) is never written, nor is any candidate after it. */
  lemma TestErrorStopsBug(locus: Locus, texts: seq<string>, results: string, tool: nat -> Tool, wait: nat -> bool, i: nat)
    requires i < |texts| && !wait(i)
    requires tool(i).targetFile.Some? && tool(i).compile.Exit? && tool(i).compile.code == 0
    requires tool(i).test.Exit? && tool(i).test.code != 0
    ensures BugWrites(texts, results, Verdicts(locus, texts, tool, wait)).escaped.Some?
    ensures |BugWrites(texts, results, Verdicts(locus, texts, tool, wait)).written| <= i
  {
    BugWritesFacts(texts, results, Verdicts(locus, texts, tool, wait));
    ClassifyMatchesTable(tool(i), locus, texts[i], wait(i));
    assert Verdicts(locus, texts, tool, wait)(i).Err?;
  }

  /** The loop `for patch_index, patch_evaluation in enumerate(patch_evaluations)`
      of one bug: await, classify, `write_patch`. */
  method ValidateBug(locus: Locus, texts: seq<string>, results: string, tool: nat -> Tool, wait: nat -> bool)
    returns (written: seq<PatchFile>, escaped: Option<Raised>)
    ensures Writes(written, escaped) == BugWrites(texts, results, Verdicts(locus, texts, tool, wait))
  {
    ghost var verdicts := Verdicts(locus, texts, tool, wait);
    written := [];
    escaped := None;
    var i := 0;
    while i < |texts|
      invariant 0 <= i <= |texts|
      invariant Writes(written, None) == BugWrites(texts[..i], results, verdicts)
    {
      assert texts[..i + 1][..i] == texts[..i];
      var verdict := Classify(AwaitPatch(tool(i), locus, texts[i], wait(i)));
      assert verdict == verdicts(i);
      if verdict.Err? {
        escaped := Some(verdict.error);
        BugWritesStop(texts, results, verdicts, i + 1);
        return;
      }
      written := written + [WrittenPatch(results, verdict.value, i, texts[i])];
      i := i + 1;
    }
    assert texts[..i] == texts;
  }

  /** What the outside world answers for one bug: the checkout's exit, and for
      each candidate index the tool run and whether the wait expired. */
  datatype BugEnv = BugEnv(checkout: EvaluatePatches.CheckoutRun, tool: nat -> Tool, waitExpired: nat -> bool)

  /** Everything `main` wrote, and what ended it early, if anything did. */
  datatype MainOutcome = MainOutcome(written: seq<PatchFile>, failure: Option<Failure>)

  /** One iteration of the outer loop: set up the bug, then its candidate loop. */
  function BugRun(bugId: string, bugs: map<string, Locus>, patches: map<string, seq<string>>, env: BugEnv): MainOutcome
    requires bugId in bugs
  {
    match SetupResult(bugId, patches, env.checkout)
    case Err(f) => MainOutcome([], Some(f))
    case Ok(s) =>
      var texts := patches[bugId];
      var w := BugWrites(texts, s.resultsPath, Verdicts(bugs[bugId], texts, env.tool, env.waitExpired));
      MainOutcome(w.written, if w.escaped.Some? then Some(Raise(w.escaped.value)) else None)
  }

  /** `main` over the bug ids in dataset order. */
  function MainRun(bugIds: seq<string>, bugs: map<string, Locus>, patches: map<string, seq<string>>, env: string -> BugEnv): MainOutcome
    requires forall k :: 0 <= k < |bugIds| ==> bugIds[k] in bugs
  {
    if bugIds == [] then MainOutcome([], None)
    else
      var n := |bugIds| - 1;
      var prev := MainRun(bugIds[..n], bugs, patches, env);
      if prev.failure.Some? then prev
      else
        var b := BugRun(bugIds[n], bugs, patches, env(bugIds[n]));
        MainOutcome(prev.written + b.written, b.failure)
  }

  /** A failure in one bug ends `main`: no later bug is set up or written. */
  lemma {:induction false} MainRunStop(bugIds: seq<string>, bugs: map<string, Locus>, patches: map<string, seq<string>>, env: string -> BugEnv, k: nat)
    requires forall m :: 0 <= m < |bugIds| ==> bugIds[m] in bugs
    requires k <= |bugIds| && MainRun(bugIds[..k], bugs, patches, env).failure.Some?
    ensures MainRun(bugIds, bugs, patches, env) == MainRun(bugIds[..k], bugs, patches, env)
    decreases |bugIds|
  {
    if k < |bugIds| {
      var n := |bugIds| - 1;
      assert bugIds[..n][..k] == bugIds[..k];
      MainRunStop(bugIds[..n], bugs, patches, env, k);
    } else {
      assert bugIds[..k] == bugIds;
    }
  }

  /** `main`: for each bug id, `setup_project` and the candidate loop. */
  method ValidateAll(bugIds: seq<string>, bugs: map<string, Locus>, patches: map<string, seq<string>>, env: string -> BugEnv)
    returns (out: MainOutcome)
    requires forall k :: 0 <= k < |bugIds| ==> bugIds[k] in bugs
    ensures out == MainRun(bugIds, bugs, patches, env)
  {
    var written: seq<PatchFile> := [];
    var k := 0;
    while k < |bugIds|
      invariant 0 <= k <= |bugIds|
      invariant MainOutcome(written, None) == MainRun(bugIds[..k], bugs, patches, env)
    {
      assert bugIds[..k + 1][..k] == bugIds[..k];
      var id := bugIds[k];
      var setup := SetupProject(id, patches, env(id).checkout);
      if setup.Err? {
        out := MainOutcome(written, Some(setup.error));
        assert written + [] == written;
        MainRunStop(bugIds, bugs, patches, env, k + 1);
        return;
      }
      var w, e := ValidateBug(bugs[id], patches[id], setup.value.resultsPath, env(id).tool, env(id).waitExpired);
      written := written + w;
      if e.Some? {
        out := MainOutcome(written, Some(Raise(e.value)));
        MainRunStop(bugIds, bugs, patches, env, k + 1);
        return;
      }
      k := k + 1;
    }
    assert bugIds[..k] == bugIds;
    out := MainOutcome(written, None);
  }
}
