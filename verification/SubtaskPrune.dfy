/**
 The dependency pruning inside emit_program_chal (src/services/prospec/program.py), and the result
 rows it writes.
 */
module SubtaskPrune {
  import opened Collections
  import opened Subtasks

  /** The states the branch writes; the other values of a state column do not matter here. */
  datatype State = JUDGE | SKIPPED | JE | Other(code: int)

  /** A subtask as it is sent to the judge. */
  datatype JudgeSubtask = JudgeSubtask(id: int, testdatas: seq<int>, deps: set<int>)

  type JudgeList = seq<JudgeSubtask>

  function Ids(subtasks: JudgeList): set<int> {
    set s | s in subtasks :: s.id
  }

  ghost predicate DistinctIds(subtasks: JudgeList) {
    forall i, j :: 0 <= i < j < |subtasks| ==> subtasks[i].id != subtasks[j].id
  }

  // ---------------------------------------------------------------- closed sets

  /** Every listed member of `ids` finds all its dependencies in `ids`. */
  ghost predicate Closed(subtasks: JudgeList, ids: set<int>) {
    && ids <= Ids(subtasks)
    && forall s :: s in subtasks && s.id in ids ==> s.deps <= ids
  }

  ghost predicate GreatestClosed(subtasks: JudgeList, ids: set<int>) {
    Closed(subtasks, ids) && forall other :: Closed(subtasks, other) ==> other <= ids
  }

  ghost predicate DependsOn(subtasks: JudgeList, a: int, b: int) {
    exists s :: s in subtasks && s.id == a && b in s.deps
  }

  ghost predicate Chain(subtasks: JudgeList, p: seq<int>) {
    p != [] && forall i :: 0 <= i < |p| - 1 ==> DependsOn(subtasks, p[i], p[i + 1])
  }

  /** Following dependencies from `id` can leave the list. */
  ghost predicate ReachesUnlisted(subtasks: JudgeList, id: int) {
    exists p :: Chain(subtasks, p) && p[0] == id && p[|p| - 1] !in Ids(subtasks)
  }

  lemma {:induction false} ClosedChainStays(subtasks: JudgeList, ids: set<int>, p: seq<int>, k: nat)
    requires Closed(subtasks, ids) && Chain(subtasks, p) && p[0] in ids && k < |p|
    ensures p[k] in ids
  {
    if k > 0 {
      ClosedChainStays(subtasks, ids, p, k - 1);
      assert DependsOn(subtasks, p[k - 1], p[k - 1 + 1]);
    }
  }

  lemma ReachStep(subtasks: JudgeList, s: JudgeSubtask, d: int)
    requires s in subtasks && d in s.deps
    ensures d !in Ids(subtasks) || ReachesUnlisted(subtasks, d) ==> ReachesUnlisted(subtasks, s.id)
  {
    assert DependsOn(subtasks, s.id, d);
    hide DependsOn, Ids;
    if d !in Ids(subtasks) {
      assert Chain(subtasks, [s.id, d]);
      assert [s.id, d][1] !in Ids(subtasks);
    } else if ReachesUnlisted(subtasks, d) {
      var p :| Chain(subtasks, p) && p[0] == d && p[|p| - 1] !in Ids(subtasks);
      var longer := [s.id] + p;
      ChainCons(subtasks, s.id, p);
      assert longer[|longer| - 1] == p[|p| - 1];
    }
  }

  lemma ChainCons(subtasks: JudgeList, id: int, p: seq<int>)
    requires Chain(subtasks, p) && DependsOn(subtasks, id, p[0])
    ensures Chain(subtasks, [id] + p)
  {
    hide DependsOn;
    var longer := [id] + p;
    forall i | 0 <= i < |longer| - 1
      ensures DependsOn(subtasks, longer[i], longer[i + 1])
    {
      if i > 0 {
        assert longer[i] == p[i - 1] && longer[i + 1] == p[i - 1 + 1];
      }
    }
  }

  /** The greatest closed set is made of the listed ids from which no unlisted id can be reached. */
  lemma GreatestClosedByReachability(subtasks: JudgeList, ids: set<int>)
    ensures GreatestClosed(subtasks, ids) <==>
              forall id :: id in ids <==> id in Ids(subtasks) && !ReachesUnlisted(subtasks, id)
  {
    var good := set id | id in Ids(subtasks) && !ReachesUnlisted(subtasks, id);
    forall s, d | s in subtasks && s.id in good && d in s.deps
      ensures d in good
    {
      ReachStep(subtasks, s, d);
    }
    assert Closed(subtasks, good);
    forall other, id | Closed(subtasks, other) && id in other
      ensures id in good
    {
      forall p | Chain(subtasks, p) && p[0] == id
        ensures p[|p| - 1] in Ids(subtasks)
      {
        ClosedChainStays(subtasks, other, p, |p| - 1);
      }
    }
    assert GreatestClosed(subtasks, good);
    if GreatestClosed(subtasks, ids) {
      assert ids == good;
    }
    if forall id :: id in ids <==> id in Ids(subtasks) && !ReachesUnlisted(subtasks, id) {
      assert forall id :: id in ids <==> id in good;
      assert ids == good;
    }
  }

  // ---------------------------------------------------------------- the result tables

  /** The rows of subtask_result and testdata_result that belong to one challenge. */
  class ChallengeResults {
    var subtask: map<int, State>
    var testdata: map<int, State>

    constructor (subtask: map<int, State>, testdata: map<int, State>)
      ensures this.subtask == subtask && this.testdata == testdata
    {
      this.subtask := subtask;
      this.testdata := testdata;
    }

    /** An UPDATE leaves absent rows absent. */
    method UpdateSubtask(id: int, state: State)
      modifies this
      ensures subtask == WithState(old(subtask), {id}, state) && testdata == old(testdata)
    {
      subtask := WithState(subtask, {id}, state);
    }

    method UpdateTestdata(id: int, state: State)
      modifies this
      ensures testdata == WithState(old(testdata), {id}, state) && subtask == old(subtask)
    {
      testdata := WithState(testdata, {id}, state);
    }
  }

  function WithState(rows: map<int, State>, ids: set<int>, state: State): map<int, State> {
    map id | id in rows :: if id in ids then state else rows[id]
  }

  function Elements(s: seq<int>): set<int> {
    set x | x in s
  }

  /** All testdata of the listed subtasks whose id is not in `run`. */
  function TestdataOutside(subtasks: JudgeList, run: set<int>): set<int> {
    set s, t | s in subtasks && s.id !in run && t in s.testdatas :: t
  }

  // ---------------------------------------------------------------- the prune loop

  predicate Invalid(s: JudgeSubtask, run: set<int>) {
    s.id in run && exists d :: d in s.deps && d !in run
  }

  function NewlyInvalid(subtasks: JudgeList, run: set<int>): (r: JudgeList)
    ensures forall s :: s in r <==> s in subtasks && Invalid(s, run)
    ensures |r| <= |subtasks|
  {
    if subtasks == [] then []
    else (if Invalid(subtasks[0], run) then [subtasks[0]] else []) + NewlyInvalid(subtasks[1..], run)
  }

  lemma {:induction false} NewlyInvalidDistinct(subtasks: JudgeList, run: set<int>)
    requires DistinctIds(subtasks)
    ensures DistinctIds(NewlyInvalid(subtasks, run))
  {
    if subtasks != [] {
      NewlyInvalidDistinct(subtasks[1..], run);
      var rest := NewlyInvalid(subtasks[1..], run);
      assert forall s :: s in rest ==> s in subtasks[1..];
      forall i | 0 <= i < |rest|
        ensures rest[i].id != subtasks[0].id
      {
        assert rest[i] in rest && rest[i] in subtasks[1..];
        var k :| 0 <= k < |subtasks[1..]| && subtasks[1..][k] == rest[i];
        assert subtasks[k + 1] == rest[i];
      }
    }
  }

  /**
   The `while True` loop: it ends with the greatest closed set of the listed subtasks. Pruned
   subtasks become JE, their testdata SKIPPED and no longer due.
   */
  method Prune(subtasks: JudgeList, due: set<int>, results: ChallengeResults) returns (run: set<int>, need: set<int>)
    requires DistinctIds(subtasks)
    modifies results
    ensures GreatestClosed(subtasks, run)
    ensures need == due - TestdataOutside(subtasks, run)
    ensures results.subtask == WithState(old(results.subtask), Ids(subtasks) - run, JE)
    ensures results.testdata == WithState(old(results.testdata), TestdataOutside(subtasks, run), SKIPPED)
  {
    run := Ids(subtasks);
    need := due;
    assert TestdataOutside(subtasks, run) == {};
    while true
      invariant run <= Ids(subtasks)
      invariant forall other :: Closed(subtasks, other) ==> other <= run
      invariant need == due - TestdataOutside(subtasks, run)
      invariant results.subtask == WithState(old(results.subtask), Ids(subtasks) - run, JE)
      invariant results.testdata == WithState(old(results.testdata), TestdataOutside(subtasks, run), SKIPPED)
      decreases run
    {
      var newlyInvalid := NewlyInvalid(subtasks, run);
      NewlyInvalidDistinct(subtasks, run);
      if newlyInvalid == [] {
        NothingInvalid(subtasks, run);
        return;
      }
      ghost var before := run;
      run, need := Drop(subtasks, newlyInvalid, run, need, results);
      assert newlyInvalid[0] in newlyInvalid;
      forall other | Closed(subtasks, other)
        ensures other <= run
      {
        forall s | s in newlyInvalid
          ensures s.id !in other
        {
        }
      }
      forall t
        ensures t in TestdataOutside(subtasks, run) <==> t in TestdataOutside(subtasks, before) || t in AllTestdata(newlyInvalid)
      {
        DroppedTestdata(subtasks, before, run, newlyInvalid, t);
      }
    }
  }

  lemma NothingInvalid(subtasks: JudgeList, run: set<int>)
    requires NewlyInvalid(subtasks, run) == [] && run <= Ids(subtasks)
    ensures Closed(subtasks, run)
  {
    forall s | s in subtasks && s.id in run
      ensures s.deps <= run
    {
      assert s !in NewlyInvalid(subtasks, run);
      assert forall d :: d in s.deps ==> d in run;
    }
  }

  function AllTestdata(subtasks: JudgeList): set<int> {
    set s, t | s in subtasks && t in s.testdatas :: t
  }

  lemma DroppedTestdata(subtasks: JudgeList, before: set<int>, after: set<int>, dropped: JudgeList, t: int)
    requires DistinctIds(subtasks) && after == before - Ids(dropped)
    requires forall s :: s in dropped ==> s in subtasks && s.id in before
    ensures t in TestdataOutside(subtasks, after) <==> t in TestdataOutside(subtasks, before) || t in AllTestdata(dropped)
  {
    if t in TestdataOutside(subtasks, after) {
      var s :| s in subtasks && s.id !in after && t in s.testdatas;
      if s.id in before {
        var d :| d in dropped && d.id == s.id;
        assert d == s;
      }
    }
    if t in AllTestdata(dropped) {
      var s :| s in dropped && t in s.testdatas;
      assert s.id in Ids(dropped);
    }
  }

  lemma AllTestdataGrows(subtasks: JudgeList, s: JudgeSubtask)
    ensures AllTestdata(subtasks + [s]) == AllTestdata(subtasks) + Elements(s.testdatas)
  {
    var all := subtasks + [s];
    forall t
      ensures t in AllTestdata(all) <==> t in AllTestdata(subtasks) || t in s.testdatas
    {
      if t in AllTestdata(all) {
        var x :| x in all && t in x.testdatas;
      }
      if t in AllTestdata(subtasks) {
        var x :| x in subtasks && t in x.testdatas;
        assert x in all;
      }
      if t in s.testdatas {
        assert s in all;
      }
    }
  }

  /** The `for subtask in newly_invalid` loop. */
  method Drop(ghost subtasks: JudgeList, newlyInvalid: JudgeList, run0: set<int>, need0: set<int>, results: ChallengeResults)
    returns (run: set<int>, need: set<int>)
    requires DistinctIds(newlyInvalid)
    modifies results
    ensures run == run0 - Ids(newlyInvalid)
    ensures need == need0 - AllTestdata(newlyInvalid)
    ensures results.subtask == WithState(old(results.subtask), Ids(newlyInvalid), JE)
    ensures results.testdata == WithState(old(results.testdata), AllTestdata(newlyInvalid), SKIPPED)
  {
    run, need := run0, need0;
    for i := 0 to |newlyInvalid|
      invariant run == run0 - Ids(newlyInvalid[..i])
      invariant need == need0 - AllTestdata(newlyInvalid[..i])
      invariant results.subtask == WithState(old(results.subtask), Ids(newlyInvalid[..i]), JE)
      invariant results.testdata == WithState(old(results.testdata), AllTestdata(newlyInvalid[..i]), SKIPPED)
    {
      var s := newlyInvalid[i];
      assert newlyInvalid[..i + 1] == newlyInvalid[..i] + [s];
      assert Ids(newlyInvalid[..i + 1]) == Ids(newlyInvalid[..i]) + {s.id};
      AllTestdataGrows(newlyInvalid[..i], s);
      run := run - {s.id};
      need := need - Elements(s.testdatas);
      results.UpdateSubtask(s.id, JE);
      SkipAll(s.testdatas, results);
    }
    assert newlyInvalid[..|newlyInvalid|] == newlyInvalid;
  }

  method SkipAll(testdatas: seq<int>, results: ChallengeResults)
    modifies results
    ensures results.subtask == old(results.subtask)
    ensures results.testdata == WithState(old(results.testdata), Elements(testdatas), SKIPPED)
  {
    for i := 0 to |testdatas|
      invariant results.subtask == old(results.subtask)
      invariant results.testdata == WithState(old(results.testdata), Elements(testdatas[..i]), SKIPPED)
    {
      assert testdatas[..i + 1] == testdatas[..i] + [testdatas[i]];
      results.UpdateTestdata(testdatas[i], SKIPPED);
    }
    assert testdatas[..|testdatas|] == testdatas;
  }
}
