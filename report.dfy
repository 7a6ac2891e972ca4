/**
 * `src/report/report_metrics.py`: the two metrics over the results tree
 * `<results>/<project>/<bug>/<prompt>/<outcome>/<file>` that the evaluation
 * pipeline writes. A directory listing is a sequence in the order the
 * listing gives it; ratios are exact reals.
 */
module ReportMetrics {
  import opened Common
  import Lines
  import Paths
  import EvaluatePatches

  // ---------------------------------------------------------------------
  // The results tree
  // ---------------------------------------------------------------------

  /** An outcome directory of a prompt and the file names it lists. */
  datatype OutcomeDir = OutcomeDir(name: string, files: seq<string>)

  /** A prompt directory and the outcome directories it lists. */
  datatype PromptDir = PromptDir(name: string, results: seq<OutcomeDir>)

  datatype BugDir = BugDir(name: string, prompts: seq<PromptDir>)

  datatype ProjectDir = ProjectDir(name: string, bugs: seq<BugDir>)

  /** The exceptions the two computations can raise. */
  datatype MetricError =
    | ZeroDivision   // a project without prompts, or an empty results directory
    | IndexError     // an empty `plausible` directory
    | ValueError     // a first plausible file name whose `[6:-4]` is not a numeral

  /** A directory lists each name once. */
  predicate DistinctNames(results: seq<OutcomeDir>)
  {
    forall i, j :: 0 <= i < j < |results| ==> results[i].name != results[j].name
  }

  /** Every prompt directory of the tree lists distinct outcome names. */
  predicate ListingsDistinct(root: seq<ProjectDir>)
  {
    forall k, b, q :: 0 <= k < |root| && 0 <= b < |root[k].bugs| && 0 <= q < |root[k].bugs[b].prompts| ==>
      DistinctNames(root[k].bugs[b].prompts[q].results)
  }

  predicate HasPlausible(results: seq<OutcomeDir>)
  {
    exists i :: 0 <= i < |results| && results[i].name == "plausible"
  }

  // ---------------------------------------------------------------------
  // Counting (`compute_plausible_patch_frequency`)
  // ---------------------------------------------------------------------

  /** How often the innermost loop finds the name `plausible` in one listing. */
  function CountPlausible(results: seq<OutcomeDir>): nat
  {
    if results == [] then 0
    else CountPlausible(results[..|results| - 1]) + (if results[|results| - 1].name == "plausible" then 1 else 0)
  }

  function PromptsPlausible(prompts: seq<PromptDir>): nat
  {
    if prompts == [] then 0
    else PromptsPlausible(prompts[..|prompts| - 1]) + CountPlausible(prompts[|prompts| - 1].results)
  }

  function BugsPlausible(bugs: seq<BugDir>): nat
  {
    if bugs == [] then 0
    else BugsPlausible(bugs[..|bugs| - 1]) + PromptsPlausible(bugs[|bugs| - 1].prompts)
  }

  /** The number of prompts (attempts) of a project's bugs. */
  function BugsAttempts(bugs: seq<BugDir>): nat
  {
    if bugs == [] then 0
    else BugsAttempts(bugs[..|bugs| - 1]) + |bugs[|bugs| - 1].prompts|
  }

  function ProjectsPlausible(projects: seq<ProjectDir>): nat
  {
    if projects == [] then 0
    else ProjectsPlausible(projects[..|projects| - 1]) + BugsPlausible(projects[|projects| - 1].bugs)
  }

  function ProjectsAttempts(projects: seq<ProjectDir>): nat
  {
    if projects == [] then 0
    else ProjectsAttempts(projects[..|projects| - 1]) + BugsAttempts(projects[|projects| - 1].bugs)
  }

  /** `project_plausible_patches / project_attempts` */
  function ProjectFrequency(p: ProjectDir): Result<real, MetricError>
  {
    if BugsAttempts(p.bugs) == 0 then Err(ZeroDivision)
    else Ok(BugsPlausible(p.bugs) as real / BugsAttempts(p.bugs) as real)
  }

  /** The per-project entries, in listing order; a project without prompts
      divides by zero and ends the computation. */
  function FrequencyMap(projects: seq<ProjectDir>): Result<map<string, real>, MetricError>
  {
    if projects == [] then Ok(map[])
    else
      var p := projects[|projects| - 1];
      match FrequencyMap(projects[..|projects| - 1])
      case Err(e) => Err(e)
      case Ok(m) =>
        match ProjectFrequency(p)
        case Err(e) => Err(e)
        case Ok(f) => Ok(m[p.name := f])
  }

  /** The result of `compute_plausible_patch_frequency`. */
  function PlausibleFrequency(root: seq<ProjectDir>): Result<map<string, real>, MetricError>
  {
    match FrequencyMap(root)
    case Err(e) => Err(e)
    case Ok(m) =>
      if ProjectsAttempts(root) == 0 then Err(ZeroDivision)
      else Ok(m["total" := ProjectsPlausible(root) as real / ProjectsAttempts(root) as real])
  }

  // ---------------------------------------------------------------------
  // Reciprocal ranks (`compute_mrr`)
  // ---------------------------------------------------------------------

  /** Python's `s[a:b]`. */
  function Slice(s: string, a: int, b: int): string
  {
    var i, j := Lines.SliceIndex(|s|, a), Lines.SliceIndex(|s|, b);
    if i < j then s[i..j] else ""
  }

  /** `int(name[6:-4])`; `None` is the `ValueError` of a non-numeral. */
  function ParseIndex(name: string): Option<nat>
  {
    Paths.ParseInt(Slice(name, 6, -4))
  }

  /** The listing of the first entry named `plausible`, if there is one. */
  function PlausibleFiles(results: seq<OutcomeDir>): Option<seq<string>>
  {
    if results == [] then None
    else if results[0].name == "plausible" then Some(results[0].files)
    else PlausibleFiles(results[1..])
  }

  /** The reciprocal rank of one prompt: 0 without a `plausible` directory,
      otherwise `1 / (n + 1)` for the index `n` of the first file the
      `plausible` listing gives. */
  function ReciprocalRank(results: seq<OutcomeDir>): Result<real, MetricError>
  {
    match PlausibleFiles(results)
    case None => Ok(0.0)
    case Some(files) =>
      if files == [] then Err(IndexError)
      else
        match ParseIndex(files[0])
        case None => Err(ValueError)
        case Some(n) => Ok(1.0 / (n + 1) as real)
  }

  function PromptsRr(prompts: seq<PromptDir>): Result<real, MetricError>
  {
    if prompts == [] then Ok(0.0)
    else
      match PromptsRr(prompts[..|prompts| - 1])
      case Err(e) => Err(e)
      case Ok(s) =>
        match ReciprocalRank(prompts[|prompts| - 1].results)
        case Err(e) => Err(e)
        case Ok(rr) => Ok(s + rr)
  }

  function BugsRr(bugs: seq<BugDir>): Result<real, MetricError>
  {
    if bugs == [] then Ok(0.0)
    else
      match BugsRr(bugs[..|bugs| - 1])
      case Err(e) => Err(e)
      case Ok(s) =>
        match PromptsRr(bugs[|bugs| - 1].prompts)
        case Err(e) => Err(e)
        case Ok(t) => Ok(s + t)
  }

  function ProjectsRr(projects: seq<ProjectDir>): Result<real, MetricError>
  {
    if projects == [] then Ok(0.0)
    else
      match ProjectsRr(projects[..|projects| - 1])
      case Err(e) => Err(e)
      case Ok(s) =>
        match BugsRr(projects[|projects| - 1].bugs)
        case Err(e) => Err(e)
        case Ok(t) => Ok(s + t)
  }

  /** `project_rr_sum / project_attempts` */
  function ProjectMrr(p: ProjectDir): Result<real, MetricError>
  {
    match BugsRr(p.bugs)
    case Err(e) => Err(e)
    case Ok(s) => if BugsAttempts(p.bugs) == 0 then Err(ZeroDivision) else Ok(s / BugsAttempts(p.bugs) as real)
  }

  function MrrMap(projects: seq<ProjectDir>): Result<map<string, real>, MetricError>
  {
    if projects == [] then Ok(map[])
    else
      var p := projects[|projects| - 1];
      match MrrMap(projects[..|projects| - 1])
      case Err(e) => Err(e)
      case Ok(m) =>
        match ProjectMrr(p)
        case Err(e) => Err(e)
        case Ok(v) => Ok(m[p.name := v])
  }

  /** The result of `compute_mrr`. */
  function Mrr(root: seq<ProjectDir>): Result<map<string, real>, MetricError>
  {
    match MrrMap(root)
    case Err(e) => Err(e)
    case Ok(m) =>
      match ProjectsRr(root)
      case Err(e) => Err(e)
      case Ok(t) => if ProjectsAttempts(root) == 0 then Err(ZeroDivision) else Ok(m["total" := t / ProjectsAttempts(root) as real])
  }

  // ---------------------------------------------------------------------
  // What the frequency means
  // ---------------------------------------------------------------------

  /** In a listing of distinct names the innermost loop counts 1 exactly when
      the prompt has a `plausible` directory, and 0 otherwise: each prompt adds
      at most one to the numerator. */
  lemma {:induction false} CountPlausibleExact(results: seq<OutcomeDir>)
    requires DistinctNames(results)
    ensures CountPlausible(results) == if HasPlausible(results) then 1 else 0
  {
    if results != [] {
      var n := |results| - 1;
      var init := results[..n];
      assert DistinctNames(init);
      CountPlausibleExact(init);
      if results[n].name == "plausible" {
        assert !HasPlausible(init);
      } else {
        assert HasPlausible(results) ==> HasPlausible(init);
      }
    }
  }

  lemma {:induction false} PromptsPlausibleBound(prompts: seq<PromptDir>)
    requires forall q :: 0 <= q < |prompts| ==> DistinctNames(prompts[q].results)
    ensures PromptsPlausible(prompts) <= |prompts|
  {
    if prompts != [] {
      var n := |prompts| - 1;
      PromptsPlausibleBound(prompts[..n]);
      CountPlausibleExact(prompts[n].results);
    }
  }

  lemma {:induction false} BugsPlausibleBound(bugs: seq<BugDir>)
    requires forall b, q :: 0 <= b < |bugs| && 0 <= q < |bugs[b].prompts| ==> DistinctNames(bugs[b].prompts[q].results)
    ensures BugsPlausible(bugs) <= BugsAttempts(bugs)
  {
    if bugs != [] {
      var n := |bugs| - 1;
      BugsPlausibleBound(bugs[..n]);
      PromptsPlausibleBound(bugs[n].prompts);
    }
  }

  lemma {:induction false} ProjectsPlausibleBound(projects: seq<ProjectDir>)
    requires ListingsDistinct(projects)
    ensures ProjectsPlausible(projects) <= ProjectsAttempts(projects)
  {
    if projects != [] {
      var n := |projects| - 1;
      assert ListingsDistinct(projects[..n]);
      ProjectsPlausibleBound(projects[..n]);
      BugsPlausibleBound(projects[n].bugs);
    }
  }

  lemma RatioInUnit(a: real, b: real)
    requires 0.0 <= a <= b && 0.0 < b
    ensures 0.0 <= a / b <= 1.0
  {
    assert a / b * b == a;
  }

  /** Every frequency entry lies in [0, 1]. */
  lemma {:induction false} FrequencyMapBounds(projects: seq<ProjectDir>)
    requires ListingsDistinct(projects)
    ensures FrequencyMap(projects).Ok? ==> forall key :: key in FrequencyMap(projects).value ==> 0.0 <= FrequencyMap(projects).value[key] <= 1.0
  {
    if projects != [] && FrequencyMap(projects).Ok? {
      var n := |projects| - 1;
      assert ListingsDistinct(projects[..n]);
      FrequencyMapBounds(projects[..n]);
      BugsPlausibleBound(projects[n].bugs);
      RatioInUnit(BugsPlausible(projects[n].bugs) as real, BugsAttempts(projects[n].bugs) as real);
    }
  }

  /** Every entry of the result, the total included, lies in [0, 1]. */
  lemma FrequencyBounds(root: seq<ProjectDir>)
    requires ListingsDistinct(root)
    ensures PlausibleFrequency(root).Ok? ==>
              forall key :: key in PlausibleFrequency(root).value ==> 0.0 <= PlausibleFrequency(root).value[key] <= 1.0
  {
    FrequencyMapBounds(root);
    if PlausibleFrequency(root).Ok? {
      ProjectsPlausibleBound(root);
      RatioInUnit(ProjectsPlausible(root) as real, ProjectsAttempts(root) as real);
    }
  }

  /** The per-project part fails exactly when some project has no prompts. */
  lemma {:induction false} FrequencyMapFails(projects: seq<ProjectDir>)
    ensures FrequencyMap(projects).Err? <==> exists k :: 0 <= k < |projects| && BugsAttempts(projects[k].bugs) == 0
    ensures FrequencyMap(projects).Err? ==> FrequencyMap(projects) == Err(ZeroDivision)
  {
    if projects != [] {
      var n := |projects| - 1;
      FrequencyMapFails(projects[..n]);
      assert forall k :: 0 <= k < n ==> projects[..n][k] == projects[k];
    }
  }

  lemma {:induction false} AttemptsAtLeastLast(projects: seq<ProjectDir>, k: nat)
    requires k < |projects|
    ensures BugsAttempts(projects[k].bugs) <= ProjectsAttempts(projects)
  {
    var n := |projects| - 1;
    if k < n {
      AttemptsAtLeastLast(projects[..n], k);
    }
  }

  /** The division by zero the frequency raises: exactly for an empty results
      directory or a project without prompts. */
  lemma FrequencyFails(root: seq<ProjectDir>)
    ensures PlausibleFrequency(root).Err? <==>
              root == [] || exists k :: 0 <= k < |root| && BugsAttempts(root[k].bugs) == 0
    ensures PlausibleFrequency(root).Err? ==> PlausibleFrequency(root) == Err(ZeroDivision)
  {
    FrequencyMapFails(root);
    if root != [] {
      AttemptsAtLeastLast(root, |root| - 1);
    }
  }

  /** The per-project part has one key per project name. */
  lemma {:induction false} FrequencyMapKeys(projects: seq<ProjectDir>)
    ensures FrequencyMap(projects).Ok? ==>
              FrequencyMap(projects).value.Keys == (set k | 0 <= k < |projects| :: projects[k].name)
  {
    if projects != [] && FrequencyMap(projects).Ok? {
      var n := |projects| - 1;
      var init := projects[..n];
      FrequencyMapKeys(init);
      assert forall k :: 0 <= k < n ==> init[k] == projects[k];
      assert (set k | 0 <= k < |projects| :: projects[k].name) == (set k | 0 <= k < n :: init[k].name) + {projects[n].name};
    }
  }

  /** The entries of the per-project part: each project's plausible count over
      its prompt count. */
  lemma {:induction false} FrequencyMapValues(projects: seq<ProjectDir>)
    requires forall a, b :: 0 <= a < b < |projects| ==> projects[a].name != projects[b].name
    ensures FrequencyMap(projects).Ok? ==>
              forall k :: 0 <= k < |projects| ==>
                BugsAttempts(projects[k].bugs) > 0 &&
                projects[k].name in FrequencyMap(projects).value &&
                FrequencyMap(projects).value[projects[k].name] == BugsPlausible(projects[k].bugs) as real / BugsAttempts(projects[k].bugs) as real
  {
    if projects != [] && FrequencyMap(projects).Ok? {
      var n := |projects| - 1;
      var init := projects[..n];
      var p := projects[n];
      FrequencyMapValues(init);
      var m := FrequencyMap(init).value;
      var v := ProjectFrequency(p).value;
      assert FrequencyMap(projects).value == m[p.name := v];
      forall k | 0 <= k < n
        ensures BugsAttempts(projects[k].bugs) > 0 && projects[k].name in m[p.name := v]
             && m[p.name := v][projects[k].name] == BugsPlausible(projects[k].bugs) as real / BugsAttempts(projects[k].bugs) as real
      {
        assert init[k] == projects[k];
      }
    }
  }

  /** With distinct project names of which none is `total`, the result holds
      one entry per project and one `total` entry, the prompt-weighted ratio
      over the whole tree. */
  lemma FrequencyValues(root: seq<ProjectDir>)
    requires forall a, b :: 0 <= a < b < |root| ==> root[a].name != root[b].name
    requires forall k :: 0 <= k < |root| ==> root[k].name != "total"
    ensures PlausibleFrequency(root).Ok? ==>
              var m := PlausibleFrequency(root).value;
              && m.Keys == (set k | 0 <= k < |root| :: root[k].name) + {"total"}
              && (forall k :: 0 <= k < |root| ==>
                    BugsAttempts(root[k].bugs) > 0 &&
                    m[root[k].name] == BugsPlausible(root[k].bugs) as real / BugsAttempts(root[k].bugs) as real)
              && ProjectsAttempts(root) > 0
              && m["total"] == ProjectsPlausible(root) as real / ProjectsAttempts(root) as real
  {
    FrequencyMapKeys(root);
    FrequencyMapValues(root);
  }

  /** The total is not the mean of the per-project values: one project with a
      single plausible prompt and one with three prompts and none give 1 and 0,
      whose mean is 1/2, while the total is 1/4. */
  lemma TotalIsPromptWeighted()
    ensures var hit := PromptDir("prompt-0", [OutcomeDir("plausible", ["patch-0.txt"])]);
      var miss := PromptDir("prompt-0", [OutcomeDir("failing", ["patch-0.txt"])]);
      var root := [ProjectDir("A", [BugDir("1", [hit])]), ProjectDir("B", [BugDir("1", [miss]), BugDir("2", [miss]), BugDir("3", [miss])])];
      PlausibleFrequency(root) == Ok(map["A" := 1.0, "B" := 0.0, "total" := 0.25])
  {
    var hit := PromptDir("prompt-0", [OutcomeDir("plausible", ["patch-0.txt"])]);
    var miss := PromptDir("prompt-0", [OutcomeDir("failing", ["patch-0.txt"])]);
    var a := ProjectDir("A", [BugDir("1", [hit])]);
    var b := ProjectDir("B", [BugDir("1", [miss]), BugDir("2", [miss]), BugDir("3", [miss])]);
    var root := [a, b];
    assert CountPlausible(hit.results) == 1 by { assert hit.results[..0] == []; }
    assert CountPlausible(miss.results) == 0 by { assert miss.results[..0] == []; }
    assert [hit][..0] == [] && [miss][..0] == [];
    assert PromptsPlausible([hit]) == 1 && PromptsPlausible([miss]) == 0;
    assert a.bugs[..0] == [];
    assert BugsPlausible(a.bugs) == 1 && BugsAttempts(a.bugs) == 1;
    var bs := b.bugs;
    assert bs[..1] == [BugDir("1", [miss])] && bs[..1][..0] == [];
    assert BugsPlausible(bs[..1]) == 0 && BugsAttempts(bs[..1]) == 1;
    assert bs[..2][..1] == bs[..1];
    assert BugsPlausible(bs[..2]) == 0 && BugsAttempts(bs[..2]) == 2;
    assert bs[..3] == bs && bs[..2] == bs[..|bs| - 1];
    assert BugsPlausible(bs) == 0 && BugsAttempts(bs) == 3;
    assert root[..1] == [a] && [a][..0] == [];
    assert FrequencyMap([a]) == Ok(map["A" := 1.0]);
    assert ProjectsPlausible([a]) == 1 && ProjectsAttempts([a]) == 1;
    assert FrequencyMap(root) == Ok(map["A" := 1.0, "B" := 0.0]);
    assert ProjectsPlausible(root) == 1 && ProjectsAttempts(root) == 4;
  }

  // ---------------------------------------------------------------------
  // What the reciprocal rank means
  // ---------------------------------------------------------------------

  /** The evaluation writer's file name `patch-<j>.txt` sliced with `[6:-4]`
      parses back to `j`. */
  lemma ParseIndexRoundTrip(j: nat)
    ensures ParseIndex(EvaluatePatches.ResultFileName(j)) == Some(j)
  {
    var d := Paths.NatStr(j);
    var name := EvaluatePatches.ResultFileName(j);
    assert |name| == 10 + |d|;
    assert Slice(name, 6, -4) == name[6..|name| - 4] == d;
    Paths.NatStrRoundTrip(j);
  }

  lemma {:induction false} PlausibleFilesFound(results: seq<OutcomeDir>)
    ensures PlausibleFiles(results).Some? <==> HasPlausible(results)
    ensures PlausibleFiles(results).Some? ==>
              exists i :: 0 <= i < |results| && results[i].name == "plausible" && results[i].files == PlausibleFiles(results).value
  {
    if results != [] && results[0].name != "plausible" {
      PlausibleFilesFound(results[1..]);
      assert forall i :: 1 <= i < |results| ==> results[1..][i - 1] == results[i];
      if HasPlausible(results) {
        var i :| 0 <= i < |results| && results[i].name == "plausible";
        assert results[1..][i - 1].name == "plausible";
      }
    }
  }

  /** A prompt's reciprocal rank is 0 exactly when it has no `plausible`
      directory, and otherwise `1/(n+1)` for the index parsed from the first
      file listed there; it is always in [0, 1]. */
  lemma RrMeaning(results: seq<OutcomeDir>)
    ensures ReciprocalRank(results).Ok? ==> 0.0 <= ReciprocalRank(results).value <= 1.0
    ensures !HasPlausible(results) ==> ReciprocalRank(results) == Ok(0.0)
    ensures HasPlausible(results) ==> PlausibleFiles(results).Some?
    ensures PlausibleFiles(results).Some? ==>
              var files := PlausibleFiles(results).value;
              && (files == [] ==> ReciprocalRank(results) == Err(IndexError))
              && (files != [] && ParseIndex(files[0]).None? ==> ReciprocalRank(results) == Err(ValueError))
              && (files != [] && ParseIndex(files[0]).Some? ==>
                    ReciprocalRank(results) == Ok(1.0 / (ParseIndex(files[0]).value + 1) as real)
                    && ReciprocalRank(results).value > 0.0)
  {
    PlausibleFilesFound(results);
    if ReciprocalRank(results).Ok? && PlausibleFiles(results).Some? {
      var n := ParseIndex(PlausibleFiles(results).value[0]).value;
      RatioInUnit(1.0, (n + 1) as real);
    }
  }

  /** With only `patch-2.txt` plausible, the reciprocal rank is 1/3. */
  lemma RrOnlyPatchTwo()
    ensures ReciprocalRank([OutcomeDir("failing", ["patch-0.txt", "patch-1.txt"]), OutcomeDir("plausible", ["patch-2.txt"])])
         == Ok(1.0 / 3.0)
  {
    ParseIndexRoundTrip(2);
    assert EvaluatePatches.ResultFileName(2) == "patch-2.txt";
  }

  /** The rank comes from the first file the listing gives, not the smallest
      index: a listing `patch-4.txt`, `patch-1.txt` ranks 1/5, not 1/2. */
  lemma RrFirstListed()
    ensures ReciprocalRank([OutcomeDir("plausible", ["patch-4.txt", "patch-1.txt"])]) == Ok(1.0 / 5.0)
  {
    ParseIndexRoundTrip(4);
    assert EvaluatePatches.ResultFileName(4) == "patch-4.txt";
  }

  lemma {:induction false} PromptsRrBound(prompts: seq<PromptDir>)
    ensures PromptsRr(prompts).Ok? ==> 0.0 <= PromptsRr(prompts).value <= |prompts| as real
  {
    if prompts != [] {
      var n := |prompts| - 1;
      PromptsRrBound(prompts[..n]);
      RrMeaning(prompts[n].results);
    }
  }

  lemma {:induction false} BugsRrBound(bugs: seq<BugDir>)
    ensures BugsRr(bugs).Ok? ==> 0.0 <= BugsRr(bugs).value <= BugsAttempts(bugs) as real
  {
    if bugs != [] {
      var n := |bugs| - 1;
      BugsRrBound(bugs[..n]);
      PromptsRrBound(bugs[n].prompts);
    }
  }

  lemma {:induction false} ProjectsRrBound(projects: seq<ProjectDir>)
    ensures ProjectsRr(projects).Ok? ==> 0.0 <= ProjectsRr(projects).value <= ProjectsAttempts(projects) as real
  {
    if projects != [] {
      var n := |projects| - 1;
      ProjectsRrBound(projects[..n]);
      BugsRrBound(projects[n].bugs);
    }
  }

  lemma {:induction false} MrrMapBounds(projects: seq<ProjectDir>)
    ensures MrrMap(projects).Ok? ==> forall key :: key in MrrMap(projects).value ==> 0.0 <= MrrMap(projects).value[key] <= 1.0
  {
    if projects != [] && MrrMap(projects).Ok? {
      var n := |projects| - 1;
      MrrMapBounds(projects[..n]);
      BugsRrBound(projects[n].bugs);
      RatioInUnit(BugsRr(projects[n].bugs).value, BugsAttempts(projects[n].bugs) as real);
    }
  }

  /** Every MRR entry, per project and in total, lies in [0, 1]; an empty
      results directory divides by zero. */
  lemma MrrBounds(root: seq<ProjectDir>)
    ensures Mrr(root).Ok? ==> forall key :: key in Mrr(root).value ==> 0.0 <= Mrr(root).value[key] <= 1.0
    ensures root == [] ==> Mrr(root) == Err(ZeroDivision)
  {
    MrrMapBounds(root);
    if Mrr(root).Ok? {
      ProjectsRrBound(root);
      RatioInUnit(ProjectsRr(root).value, ProjectsAttempts(root) as real);
    }
  }

  /** A bug's rank sum fails exactly when one of its prompts fails. */
  lemma {:induction false} PromptsRrFails(prompts: seq<PromptDir>)
    ensures PromptsRr(prompts).Err? <==> exists q :: 0 <= q < |prompts| && ReciprocalRank(prompts[q].results).Err?
  {
    if prompts != [] {
      var n := |prompts| - 1;
      PromptsRrFails(prompts[..n]);
      assert forall q :: 0 <= q < n ==> prompts[..n][q] == prompts[q];
    }
  }

  lemma {:induction false} BugsRrFails(bugs: seq<BugDir>)
    ensures BugsRr(bugs).Err? <==>
              exists b, q :: 0 <= b < |bugs| && 0 <= q < |bugs[b].prompts| && ReciprocalRank(bugs[b].prompts[q].results).Err?
  {
    if bugs != [] {
      var n := |bugs| - 1;
      BugsRrFails(bugs[..n]);
      PromptsRrFails(bugs[n].prompts);
      assert forall b :: 0 <= b < n ==> bugs[..n][b] == bugs[b];
    }
  }

  lemma {:induction false} ProjectsRrFails(projects: seq<ProjectDir>)
    ensures ProjectsRr(projects).Err? <==> exists k :: 0 <= k < |projects| && BugsRr(projects[k].bugs).Err?
  {
    if projects != [] {
      var n := |projects| - 1;
      ProjectsRrFails(projects[..n]);
      assert forall k :: 0 <= k < n ==> projects[..n][k] == projects[k];
    }
  }

  /** The per-project part fails exactly when some project's rank sum fails
      or the project has no prompts. */
  lemma {:induction false} MrrMapFails(projects: seq<ProjectDir>)
    ensures MrrMap(projects).Err? <==>
              exists k :: 0 <= k < |projects| && (BugsRr(projects[k].bugs).Err? || BugsAttempts(projects[k].bugs) == 0)
  {
    if projects != [] {
      var n := |projects| - 1;
      MrrMapFails(projects[..n]);
      assert forall k :: 0 <= k < n ==> projects[..n][k] == projects[k];
    }
  }

  /** `compute_mrr` raises exactly when the results directory is empty, some
      project has no prompts, or some prompt's reciprocal rank raises (an empty
      `plausible` listing or a first file name that is not a numeral). */
  lemma MrrFails(root: seq<ProjectDir>)
    ensures Mrr(root).Err? <==>
              || root == []
              || (exists k :: 0 <= k < |root| && BugsAttempts(root[k].bugs) == 0)
              || (exists k, b, q :: 0 <= k < |root| && 0 <= b < |root[k].bugs| && 0 <= q < |root[k].bugs[b].prompts| &&
                    ReciprocalRank(root[k].bugs[b].prompts[q].results).Err?)
  {
    MrrMapFails(root);
    ProjectsRrFails(root);
    forall k | 0 <= k < |root|
      ensures BugsRr(root[k].bugs).Err? <==>
                exists b, q :: 0 <= b < |root[k].bugs| && 0 <= q < |root[k].bugs[b].prompts| &&
                  ReciprocalRank(root[k].bugs[b].prompts[q].results).Err?
    {
      BugsRrFails(root[k].bugs);
    }
    if root != [] {
      AttemptsAtLeastLast(root, |root| - 1);
    }
  }

  /** The per-project part has one key per project name. */
  lemma {:induction false} MrrMapKeys(projects: seq<ProjectDir>)
    ensures MrrMap(projects).Ok? ==>
              MrrMap(projects).value.Keys == (set k | 0 <= k < |projects| :: projects[k].name)
  {
    if projects != [] && MrrMap(projects).Ok? {
      var n := |projects| - 1;
      var init := projects[..n];
      MrrMapKeys(init);
      assert forall k :: 0 <= k < n ==> init[k] == projects[k];
      assert (set k | 0 <= k < |projects| :: projects[k].name) == (set k | 0 <= k < n :: init[k].name) + {projects[n].name};
    }
  }

  /** The entries of the per-project part: each project's rank sum over its
      prompt count. */
  lemma {:induction false} MrrMapValues(projects: seq<ProjectDir>)
    requires forall a, b :: 0 <= a < b < |projects| ==> projects[a].name != projects[b].name
    ensures MrrMap(projects).Ok? ==>
              forall k :: 0 <= k < |projects| ==>
                BugsAttempts(projects[k].bugs) > 0 && BugsRr(projects[k].bugs).Ok? &&
                projects[k].name in MrrMap(projects).value &&
                MrrMap(projects).value[projects[k].name] == BugsRr(projects[k].bugs).value / BugsAttempts(projects[k].bugs) as real
  {
    if projects != [] && MrrMap(projects).Ok? {
      var n := |projects| - 1;
      var init := projects[..n];
      var p := projects[n];
      MrrMapValues(init);
      var m := MrrMap(init).value;
      var v := ProjectMrr(p).value;
      assert MrrMap(projects).value == m[p.name := v];
      forall k | 0 <= k < n
        ensures BugsAttempts(projects[k].bugs) > 0 && BugsRr(projects[k].bugs).Ok? && projects[k].name in m[p.name := v]
             && m[p.name := v][projects[k].name] == BugsRr(projects[k].bugs).value / BugsAttempts(projects[k].bugs) as real
      {
        assert init[k] == projects[k];
      }
    }
  }

  /** With distinct project names of which none is `total`, the MRR result
      holds one entry per project, its rank sum over its prompt count, and a
      `total` entry, the rank sum of the whole tree over all its prompts. */
  lemma MrrValues(root: seq<ProjectDir>)
    requires forall a, b :: 0 <= a < b < |root| ==> root[a].name != root[b].name
    requires forall k :: 0 <= k < |root| ==> root[k].name != "total"
    ensures Mrr(root).Ok? ==>
              var m := Mrr(root).value;
              && m.Keys == (set k | 0 <= k < |root| :: root[k].name) + {"total"}
              && (forall k :: 0 <= k < |root| ==>
                    BugsAttempts(root[k].bugs) > 0 && BugsRr(root[k].bugs).Ok? &&
                    m[root[k].name] == BugsRr(root[k].bugs).value / BugsAttempts(root[k].bugs) as real)
              && ProjectsAttempts(root) > 0 && ProjectsRr(root).Ok?
              && m["total"] == ProjectsRr(root).value / ProjectsAttempts(root) as real
  {
    MrrMapKeys(root);
    MrrMapValues(root);
  }

  // ---------------------------------------------------------------------
  // An exception ends the walk
  // ---------------------------------------------------------------------

  lemma {:induction false} FrequencyMapStop(projects: seq<ProjectDir>, k: nat)
    requires k <= |projects| && FrequencyMap(projects[..k]).Err?
    ensures FrequencyMap(projects) == FrequencyMap(projects[..k])
    decreases |projects|
  {
    if k < |projects| {
      var n := |projects| - 1;
      assert projects[..n][..k] == projects[..k];
      FrequencyMapStop(projects[..n], k);
    } else {
      assert projects[..k] == projects;
    }
  }

  lemma {:induction false} PromptsRrStop(prompts: seq<PromptDir>, k: nat)
    requires k <= |prompts| && PromptsRr(prompts[..k]).Err?
    ensures PromptsRr(prompts) == PromptsRr(prompts[..k])
    decreases |prompts|
  {
    if k < |prompts| {
      var n := |prompts| - 1;
      assert prompts[..n][..k] == prompts[..k];
      PromptsRrStop(prompts[..n], k);
    } else {
      assert prompts[..k] == prompts;
    }
  }

  lemma {:induction false} BugsRrStop(bugs: seq<BugDir>, k: nat)
    requires k <= |bugs| && BugsRr(bugs[..k]).Err?
    ensures BugsRr(bugs) == BugsRr(bugs[..k])
    decreases |bugs|
  {
    if k < |bugs| {
      var n := |bugs| - 1;
      assert bugs[..n][..k] == bugs[..k];
      BugsRrStop(bugs[..n], k);
    } else {
      assert bugs[..k] == bugs;
    }
  }

  lemma {:induction false} MrrMapStop(projects: seq<ProjectDir>, k: nat)
    requires k <= |projects| && MrrMap(projects[..k]).Err?
    ensures MrrMap(projects) == MrrMap(projects[..k])
    decreases |projects|
  {
    if k < |projects| {
      var n := |projects| - 1;
      assert projects[..n][..k] == projects[..k];
      MrrMapStop(projects[..n], k);
    } else {
      assert projects[..k] == projects;
    }
  }

  // ---------------------------------------------------------------------
  // The two computations, one method per directory level
  // ---------------------------------------------------------------------

  /** The inner loops of `compute_plausible_patch_frequency` for one bug:
      one attempt per prompt directory, one plausible count per listed
      `plausible` entry. */
  method CountBug(prompts: seq<PromptDir>) returns (plausible: nat, attempts: nat)
    ensures plausible == PromptsPlausible(prompts) && attempts == |prompts|
  {
    plausible, attempts := 0, 0;
    var q := 0;
    while q < |prompts|
      invariant 0 <= q <= |prompts|
      invariant plausible == PromptsPlausible(prompts[..q]) && attempts == q
    {
      var results := prompts[q].results;
      var m := 0;
      while m < |results|
        invariant 0 <= m <= |results|
        invariant plausible == PromptsPlausible(prompts[..q]) + CountPlausible(results[..m])
      {
        assert results[..m + 1][..m] == results[..m];
        if results[m].name == "plausible" {
          plausible := plausible + 1;
        }
        m := m + 1;
      }
      assert results[..m] == results;
      assert prompts[..q + 1][..q] == prompts[..q];
      attempts := attempts + 1;
      q := q + 1;
    }
    assert prompts[..q] == prompts;
  }

  /** The per-project counters of `compute_plausible_patch_frequency`. */
  method CountProject(bugs: seq<BugDir>) returns (plausible: nat, attempts: nat)
    ensures plausible == BugsPlausible(bugs) && attempts == BugsAttempts(bugs)
  {
    plausible, attempts := 0, 0;
    var b := 0;
    while b < |bugs|
      invariant 0 <= b <= |bugs|
      invariant plausible == BugsPlausible(bugs[..b]) && attempts == BugsAttempts(bugs[..b])
    {
      var p, a := CountBug(bugs[b].prompts);
      assert bugs[..b + 1][..b] == bugs[..b];
      plausible, attempts := plausible + p, attempts + a;
      b := b + 1;
    }
    assert bugs[..b] == bugs;
  }

  /** `compute_plausible_patch_frequency` over the listed tree: the
      project totals are added into the overall totals as they are
      counted, and a project with no attempts divides by zero. */
  method ComputePlausiblePatchFrequency(root: seq<ProjectDir>) returns (r: Result<map<string, real>, MetricError>)
    ensures r == PlausibleFrequency(root)
  {
    var frequencies: map<string, real> := map[];
    var totalPlausible, totalAttempts := 0, 0;
    var k := 0;
    while k < |root|
      invariant 0 <= k <= |root|
      invariant FrequencyMap(root[..k]) == Ok(frequencies)
      invariant totalPlausible == ProjectsPlausible(root[..k]) && totalAttempts == ProjectsAttempts(root[..k])
    {
      var projectPlausible, projectAttempts := CountProject(root[k].bugs);
      assert root[..k + 1][..k] == root[..k];
      totalPlausible, totalAttempts := totalPlausible + projectPlausible, totalAttempts + projectAttempts;
      if projectAttempts == 0 {
        FrequencyMapStop(root, k + 1);
        return Err(ZeroDivision);
      }
      frequencies := frequencies[root[k].name := projectPlausible as real / projectAttempts as real];
      k := k + 1;
    }
    assert root[..k] == root;
    if totalAttempts == 0 {
      return Err(ZeroDivision);
    }
    r := Ok(frequencies["total" := totalPlausible as real / totalAttempts as real]);
  }

  /** The reciprocal ranks of one bug's prompt directories, summed; the
      first failing `int()` ends the walk. */
  method RankBug(prompts: seq<PromptDir>) returns (sum: Result<real, MetricError>)
    ensures sum == PromptsRr(prompts)
  {
    var s := 0.0;
    var q := 0;
    while q < |prompts|
      invariant 0 <= q <= |prompts|
      invariant PromptsRr(prompts[..q]) == Ok(s)
    {
      assert prompts[..q + 1][..q] == prompts[..q];
      var rr := ReciprocalRank(prompts[q].results);
      if rr.Err? {
        PromptsRrStop(prompts, q + 1);
        return Err(rr.error);
      }
      s := s + rr.value;
      q := q + 1;
    }
    assert prompts[..q] == prompts;
    sum := Ok(s);
  }

  /** The per-project sum and attempt count of `compute_mrr`. */
  method RankProject(bugs: seq<BugDir>) returns (sum: Result<real, MetricError>, attempts: nat)
    ensures sum == BugsRr(bugs) && attempts == BugsAttempts(bugs)
  {
    var s := 0.0;
    attempts := 0;
    var b := 0;
    while b < |bugs|
      invariant 0 <= b <= |bugs|
      invariant BugsRr(bugs[..b]) == Ok(s) && attempts == BugsAttempts(bugs[..b])
    {
      var bugSum := RankBug(bugs[b].prompts);
      assert bugs[..b + 1][..b] == bugs[..b];
      if bugSum.Err? {
        BugsRrStop(bugs, b + 1);
        sum, attempts := bugSum, BugsAttempts(bugs);
        return;
      }
      s, attempts := s + bugSum.value, attempts + |bugs[b].prompts|;
      b := b + 1;
    }
    assert bugs[..b] == bugs;
    sum := Ok(s);
  }

  /** One project more in the walk of `compute_mrr`. */
  lemma MrrStep(root: seq<ProjectDir>, k: nat, mrr: map<string, real>, sum: real)
    requires k < |root| && MrrMap(root[..k]) == Ok(mrr) && ProjectsRr(root[..k]) == Ok(sum)
    requires ProjectMrr(root[k]).Ok?
    ensures MrrMap(root[..k + 1]) == Ok(mrr[root[k].name := ProjectMrr(root[k]).value])
    ensures ProjectsRr(root[..k + 1]) == Ok(sum + BugsRr(root[k].bugs).value)
  {
    assert root[..k + 1][..k] == root[..k];
  }

  /** A project whose MRR fails ends `compute_mrr` with that failure. */
  lemma MrrFailsAt(root: seq<ProjectDir>, k: nat)
    requires k < |root| && MrrMap(root[..k]).Ok? && ProjectMrr(root[k]).Err?
    ensures Mrr(root) == Err(ProjectMrr(root[k]).error)
  {
    assert root[..k + 1][..k] == root[..k];
    MrrMapStop(root, k + 1);
  }

  /** `compute_mrr` over the listed tree. */
  method ComputeMrr(root: seq<ProjectDir>) returns (r: Result<map<string, real>, MetricError>)
    ensures r == Mrr(root)
  {
    var mrr: map<string, real> := map[];
    var totalRrSum, totalAttempts := 0.0, 0;
    var k := 0;
    while k < |root|
      invariant 0 <= k <= |root|
      invariant MrrMap(root[..k]) == Ok(mrr)
      invariant ProjectsRr(root[..k]) == Ok(totalRrSum) && totalAttempts == ProjectsAttempts(root[..k])
    {
      var projectSum, projectAttempts := RankProject(root[k].bugs);
      if projectSum.Err? {
        MrrFailsAt(root, k);
        return Err(projectSum.error);
      }
      if projectAttempts == 0 {
        MrrFailsAt(root, k);
        return Err(ZeroDivision);
      }
      MrrStep(root, k, mrr, totalRrSum);
      assert root[..k + 1][..k] == root[..k];
      totalRrSum, totalAttempts := totalRrSum + projectSum.value, totalAttempts + projectAttempts;
      mrr := mrr[root[k].name := projectSum.value / projectAttempts as real];
      k := k + 1;
    }
    assert root[..k] == root;
    if totalAttempts == 0 {
      return Err(ZeroDivision);
    }
    r := Ok(mrr["total" := totalRrSum / totalAttempts as real]);
  }
}
