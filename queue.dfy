/**
 * `create_bug_checkout_locks` and `create_evaluation_queue` of
 * `src/evaluate/evaluate_patches.py`: one checkout lock per bug, and one unit
 * per (bug, prompt index, patch index) of the patch dataset, shuffled.
 */
module EvaluationQueue {
  import opened Common
  import opened EvaluatePatches

  // ---------------------------------------------------------------------
  // The lock table
  // ---------------------------------------------------------------------

  /** `create_bug_checkout_locks`: a fresh lock (numbered by creation) for every
      bug id; afterwards the keys are exactly the bug ids and no two bugs share
      a lock. */
  method CreateBugCheckoutLocks(bugIds: seq<string>) returns (locks: map<string, nat>)
    ensures locks.Keys == set id | id in bugIds
    ensures forall a, b :: a in locks && b in locks && a != b ==> locks[a] != locks[b]
  {
    locks := map[];
    var i := 0;
    while i < |bugIds|
      invariant 0 <= i <= |bugIds|
      invariant locks.Keys == set id | id in bugIds[..i]
      invariant forall a :: a in locks ==> locks[a] < |locks|
      invariant forall a, b :: a in locks && b in locks && a != b ==> locks[a] != locks[b]
    {
      assert bugIds[..i + 1] == bugIds[..i] + [bugIds[i]];
      if bugIds[i] !in locks {
        locks := locks[bugIds[i] := |locks|];
      }
      i := i + 1;
    }
    assert bugIds[..i] == bugIds;
  }

  // ---------------------------------------------------------------------
  // The units the nested loops produce
  // ---------------------------------------------------------------------

  /** The units of the candidates of prompt `i` of a bug, in patch order. */
  function PatchUnits(key: string, bug: Bug, lock: nat, i: nat, texts: seq<string>): (r: seq<Unit>)
    ensures |r| == |texts|
  {
    seq(|texts|, j requires 0 <= j < |texts| => Unit(key, bug, lock, Patch(i, j, texts[j])))
  }

  /** The units of all prompts of a bug, in prompt order. */
  function PromptUnits(key: string, bug: Bug, lock: nat, prompts: seq<seq<string>>): seq<Unit>
  {
    if prompts == [] then []
    else PromptUnits(key, bug, lock, prompts[..|prompts| - 1])
         + PatchUnits(key, bug, lock, |prompts| - 1, prompts[|prompts| - 1])
  }

  predicate Covered(order: seq<string>, bugs: map<string, Bug>, patches: map<string, seq<seq<string>>>, locks: map<string, nat>)
  {
    forall k :: 0 <= k < |order| ==> order[k] in bugs && order[k] in patches && order[k] in locks
  }

  /** The units of the bugs in `order`, in that order, before the shuffle. */
  function BugUnits(order: seq<string>, bugs: map<string, Bug>, patches: map<string, seq<seq<string>>>, locks: map<string, nat>): seq<Unit>
    requires Covered(order, bugs, patches, locks)
  {
    if order == [] then []
    else
      var key := order[|order| - 1];
      BugUnits(order[..|order| - 1], bugs, patches, locks) + PromptUnits(key, bugs[key], locks[key], patches[key])
  }

  /** The number of candidates of one bug. */
  function PromptsSize(prompts: seq<seq<string>>): nat
  {
    if prompts == [] then 0 else PromptsSize(prompts[..|prompts| - 1]) + |prompts[|prompts| - 1]|
  }

  /** The number of candidates in the patch dataset for the bugs in `order`. */
  function CandidateCount(order: seq<string>, patches: map<string, seq<seq<string>>>): nat
    requires forall k :: 0 <= k < |order| ==> order[k] in patches
  {
    if order == [] then 0 else CandidateCount(order[..|order| - 1], patches) + PromptsSize(patches[order[|order| - 1]])
  }

  /** `u` is the unit of a candidate of the dataset: its bug is in `order`, it
      carries that bug's record and lock, and its indices name an existing
      candidate whose text it holds. */
  predicate IsCandidate(order: seq<string>, bugs: map<string, Bug>, patches: map<string, seq<seq<string>>>, locks: map<string, nat>, u: Unit)
  {
    && u.key in order && u.key in bugs && u.key in patches && u.key in locks
    && u.bug == bugs[u.key] && u.lock == locks[u.key]
    && InPrompts(patches[u.key], u.patch)
  }

  predicate InPrompts(prompts: seq<seq<string>>, p: Patch)
  {
    p.promptIndex < |prompts| && p.patchIndex < |prompts[p.promptIndex]|
    && p.text == prompts[p.promptIndex][p.patchIndex]
  }

  /** Two units stand for the same candidate. */
  predicate SameCandidate(u: Unit, v: Unit)
  {
    u.key == v.key && u.patch.promptIndex == v.patch.promptIndex && u.patch.patchIndex == v.patch.patchIndex
  }

  predicate NoRepeatedCandidate(s: seq<Unit>)
  {
    forall a, b :: 0 <= a < b < |s| ==> !SameCandidate(s[a], s[b])
  }

  lemma {:induction false} PromptUnitsFacts(key: string, bug: Bug, lock: nat, prompts: seq<seq<string>>)
    ensures |PromptUnits(key, bug, lock, prompts)| == PromptsSize(prompts)
    ensures forall u: Unit :: u in PromptUnits(key, bug, lock, prompts) <==>
              u.key == key && u.bug == bug && u.lock == lock && InPrompts(prompts, u.patch)
    ensures NoRepeatedCandidate(PromptUnits(key, bug, lock, prompts))
  {
    if prompts != [] {
      var n := |prompts| - 1;
      var init := prompts[..n];
      var head := PromptUnits(key, bug, lock, init);
      var tail := PatchUnits(key, bug, lock, n, prompts[n]);
      PromptUnitsFacts(key, bug, lock, init);
      forall u: Unit ensures u in head + tail <==> u.key == key && u.bug == bug && u.lock == lock && InPrompts(prompts, u.patch) {
        if u.key == key && u.bug == bug && u.lock == lock && InPrompts(prompts, u.patch) {
          if u.patch.promptIndex == n {
            assert tail[u.patch.patchIndex] == u;
          } else {
            assert InPrompts(init, u.patch);
          }
        }
        if u in tail {
          var j :| 0 <= j < |tail| && tail[j] == u;
        }
      }
      forall a, b | 0 <= a < b < |head + tail| ensures !SameCandidate((head + tail)[a], (head + tail)[b]) {
        if b >= |head| && a < |head| {
          assert (head + tail)[a] in head;
          assert (head + tail)[a].patch.promptIndex < n;
        }
      }
    }
  }

  /** The nested loops see every candidate exactly once: the units are exactly
      the candidates, none twice, and there are as many as candidates. */
  lemma {:induction false} BugUnitsFacts(order: seq<string>, bugs: map<string, Bug>, patches: map<string, seq<seq<string>>>, locks: map<string, nat>)
    requires Covered(order, bugs, patches, locks)
    requires forall a, b :: 0 <= a < b < |order| ==> order[a] != order[b]
    ensures |BugUnits(order, bugs, patches, locks)| == CandidateCount(order, patches)
    ensures forall u: Unit :: u in BugUnits(order, bugs, patches, locks) <==> IsCandidate(order, bugs, patches, locks, u)
    ensures NoRepeatedCandidate(BugUnits(order, bugs, patches, locks))
  {
    if order != [] {
      var n := |order| - 1;
      var key := order[n];
      var init := order[..n];
      var head := BugUnits(init, bugs, patches, locks);
      var tail := PromptUnits(key, bugs[key], locks[key], patches[key]);
      assert Covered(init, bugs, patches, locks);
      BugUnitsFacts(init, bugs, patches, locks);
      PromptUnitsFacts(key, bugs[key], locks[key], patches[key]);
      assert key !in init;
      forall u: Unit ensures u in head + tail <==> IsCandidate(order, bugs, patches, locks, u) {
        if IsCandidate(order, bugs, patches, locks, u) && u.key != key {
          assert u.key in init;
          assert IsCandidate(init, bugs, patches, locks, u);
        }
        if u in head {
          assert IsCandidate(init, bugs, patches, locks, u);
        }
      }
      forall a, b | 0 <= a < b < |head + tail| ensures !SameCandidate((head + tail)[a], (head + tail)[b]) {
        if b >= |head| && a < |head| {
          assert (head + tail)[a] in head;
          assert (head + tail)[b] in tail;
          assert (head + tail)[a].key in init;
        }
      }
    }
  }

  /** In a sequence without repeated candidates, each unit occurs at most once. */
  lemma {:induction false} Multiplicity(s: seq<Unit>, u: Unit)
    requires NoRepeatedCandidate(s)
    ensures multiset(s)[u] == if u in s then 1 else 0
  {
    if s != [] {
      var n := |s| - 1;
      assert s == s[..n] + [s[n]];
      assert NoRepeatedCandidate(s[..n]);
      Multiplicity(s[..n], u);
      if s[n] == u {
        assert u !in s[..n];
      }
    }
  }

  // ---------------------------------------------------------------------
  // Building and shuffling the queue
  // ---------------------------------------------------------------------

  /** `random.shuffle`: Fisher-Yates from the back, where `draw(i) % (i + 1)` is
      the index `randbelow(i + 1)` picks at step `i`. */
  method Shuffle(a: array<Unit>, draw: nat -> nat)
    modifies a
    ensures multiset(a[..]) == old(multiset(a[..]))
  {
    var i := a.Length;
    while i > 1
      invariant 0 <= i <= a.Length
      invariant multiset(a[..]) == old(multiset(a[..]))
    {
      i := i - 1;
      var j := draw(i) % (i + 1);
      a[i], a[j] := a[j], a[i];
    }
  }

  /** `create_evaluation_queue`: the units of every candidate of every bug, in a
      shuffled order; a bug missing from the patch dataset raises `KeyError`,
      modelled as `Err` with that key. */
  method CreateEvaluationQueue(
    bugOrder: seq<string>, bugs: map<string, Bug>, patches: map<string, seq<seq<string>>>,
    locks: map<string, nat>, draw: nat -> nat)
    returns (r: Result<seq<Unit>, string>)
    requires forall k :: 0 <= k < |bugOrder| ==> bugOrder[k] in bugs && bugOrder[k] in locks
    ensures r.Err? <==> exists k :: 0 <= k < |bugOrder| && bugOrder[k] !in patches
    ensures r.Err? ==> exists k :: 0 <= k < |bugOrder| && bugOrder[k] == r.error && r.error !in patches
                         && forall m :: 0 <= m < k ==> bugOrder[m] in patches
    ensures r.Ok? ==> Covered(bugOrder, bugs, patches, locks)
                      && multiset(r.value) == multiset(BugUnits(bugOrder, bugs, patches, locks))
  {
    var queue: seq<Unit> := [];
    var k := 0;
    while k < |bugOrder|
      invariant 0 <= k <= |bugOrder|
      invariant Covered(bugOrder[..k], bugs, patches, locks)
      invariant forall m :: 0 <= m < k ==> bugOrder[m] in patches
      invariant queue == BugUnits(bugOrder[..k], bugs, patches, locks)
    {
      var key := bugOrder[k];
      if key !in patches {
        return Err(key);
      }
      var prompts := patches[key];
      var bug, lock := bugs[key], locks[key];
      var done := queue;
      var i := 0;
      while i < |prompts|
        invariant 0 <= i <= |prompts|
        invariant queue == done + PromptUnits(key, bug, lock, prompts[..i])
      {
        var texts := prompts[i];
        var before := queue;
        var j := 0;
        while j < |texts|
          invariant 0 <= j <= |texts|
          invariant queue == before + PatchUnits(key, bug, lock, i, texts)[..j]
        {
          assert PatchUnits(key, bug, lock, i, texts)[..j + 1]
              == PatchUnits(key, bug, lock, i, texts)[..j] + [Unit(key, bug, lock, Patch(i, j, texts[j]))];
          queue := queue + [Unit(key, bug, lock, Patch(i, j, texts[j]))];
          j := j + 1;
        }
        assert prompts[..i + 1][..i] == prompts[..i];
        assert PatchUnits(key, bug, lock, i, texts)[..j] == PatchUnits(key, bug, lock, i, texts);
        i := i + 1;
      }
      assert prompts[..i] == prompts;
      assert bugOrder[..k + 1][..k] == bugOrder[..k];
      k := k + 1;
    }
    assert bugOrder[..k] == bugOrder;
    var a := new Unit[|queue|](m requires 0 <= m < |queue| => queue[m]);
    assert a[..] == queue;
    Shuffle(a, draw);
    r := Ok(a[..]);
  }

  /** The shuffled queue holds exactly one unit per candidate of the dataset
      and nothing else, so its length is the candidate count. */
  lemma QueueExactlyOnce(
    queue: seq<Unit>, bugOrder: seq<string>, bugs: map<string, Bug>, patches: map<string, seq<seq<string>>>,
    locks: map<string, nat>, u: Unit)
    requires Covered(bugOrder, bugs, patches, locks)
    requires forall a, b :: 0 <= a < b < |bugOrder| ==> bugOrder[a] != bugOrder[b]
    requires multiset(queue) == multiset(BugUnits(bugOrder, bugs, patches, locks))
    ensures multiset(queue)[u] == if IsCandidate(bugOrder, bugs, patches, locks, u) then 1 else 0
    ensures |queue| == CandidateCount(bugOrder, patches)
  {
    var units := BugUnits(bugOrder, bugs, patches, locks);
    BugUnitsFacts(bugOrder, bugs, patches, locks);
    Multiplicity(units, u);
    assert |queue| == |multiset(queue)| == |multiset(units)| == |units|;
  }
}
