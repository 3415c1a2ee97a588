/**
 The pretest branch of emit_program_chal (src/services/prospec/program.py): which subtasks and
 testdata are judged when system tests are left out, and what state every row gets.
 */
module PretestEmit {
  import opened Collections
  import opened Subtasks
  import opened SubtaskPrune
  import opened PretestSelection

  /** The config.get_pretest_subtasks / get_system_test_subtasks dicts. */
  function WithTag(configs: Configs, systemTest: bool): Configs {
    if configs == [] then []
    else WithTag(configs[..|configs| - 1], systemTest)
         + (if configs[|configs| - 1].1.systemTest == systemTest then [configs[|configs| - 1]] else [])
  }

  function TestdataIds(testdatas: seq<Testdata>): seq<int> {
    seq(|testdatas|, i requires 0 <= i < |testdatas| => testdatas[i].id)
  }

  /** All testdata the configured subtasks mention. */
  function Mentioned(configs: Configs): set<int> {
    set c, t | c in configs && t in c.1.testdatas :: t.id
  }

  /** Mentioned testdata that carry the system-test tag themselves. */
  function Tagged(configs: Configs): set<int> {
    set c, t | c in configs && t in c.1.testdatas && t.systemTest :: t.id
  }

  function Untestable(configs: Configs): set<int> {
    set c | c in configs && PretestIds(c.1.testdatas) == [] :: c.0
  }

  function Pruned(list: JudgeList): set<int> {
    Ids(list) - Ids(Kept(list))
  }

  lemma {:induction false} WithTagMembers(configs: Configs, systemTest: bool)
    requires DistinctKeys(configs)
    ensures forall c :: c in WithTag(configs, systemTest) <==> c in configs && c.1.systemTest == systemTest
    ensures DistinctKeys(WithTag(configs, systemTest))
  {
    if configs != [] {
      var before, last := configs[..|configs| - 1], configs[|configs| - 1];
      WithTagMembers(before, systemTest);
      assert configs == before + [last];
      var r := WithTag(before, systemTest);
      forall i | 0 <= i < |r|
        ensures r[i].0 != last.0
      {
        assert r[i] in r && r[i] in before;
      }
    }
  }

  lemma {:induction false} PretestIdsMembers(testdatas: seq<Testdata>)
    ensures forall t :: t in PretestIds(testdatas) <==> exists d :: d in testdatas && !d.systemTest && d.id == t
  {
    if testdatas != [] {
      var before, last := testdatas[..|testdatas| - 1], testdatas[|testdatas| - 1];
      PretestIdsMembers(before);
      assert testdatas == before + [last];
      assert forall d :: d in testdatas <==> d in before || d == last;
      assert last in testdatas;
    }
  }

  lemma {:induction false} CandidatesMembers(configs: Configs)
    requires DistinctKeys(configs)
    ensures forall s :: s in Candidates(configs) <==> exists c :: c in configs && s == Candidate(c) && s.testdatas != []
    ensures DistinctIds(Candidates(configs))
  {
    if configs != [] {
      var before, last := configs[..|configs| - 1], configs[|configs| - 1];
      CandidatesMembers(before);
      assert configs == before + [last];
      assert forall c :: c in configs <==> c in before || c == last;
      var r := Candidates(before);
      forall i | 0 <= i < |r|
        ensures r[i].id != last.0
      {
        assert r[i] in r;
        var c :| c in before && r[i] == Candidate(c);
      }
    }
  }

  /** The state of a subtask row once the first pretest subtasks have been processed. */
  function SubtaskState(system: Configs, done: Configs, id: int): State {
    if id in Keys(system) + Untestable(done) then SKIPPED
    else if id in Pruned(Candidates(done)) then JE
    else JUDGE
  }

  function SubtaskRows(rows: map<int, State>, system: Configs, done: Configs): map<int, State> {
    map id | id in rows :: SubtaskState(system, done, id)
  }

  /** The testdata marked SKIPPED once the first pretest subtasks have been processed. */
  function SkippedTestdata(system: Configs, done: Configs): set<int> {
    Mentioned(system) + Tagged(done) + TestdataOutside(Candidates(done), Ids(Kept(Candidates(done))))
  }

  lemma CandidatesAdd(done: Configs, c: (int, SubtaskConfig))
    ensures Candidates(done + [c]) == if PretestIds(c.1.testdatas) == [] then Candidates(done) else Candidates(done) + [Candidate(c)]
    ensures Untestable(done + [c]) == Untestable(done) + if PretestIds(c.1.testdatas) == [] then {c.0} else {}
    ensures Tagged(done + [c]) == Tagged(done) + Tagged([c])
  {
    assert (done + [c])[..|done|] == done;
    var all := done + [c];
    assert forall x :: x in all <==> x in done || x == c;
  }

  lemma OutsideAdd(list: JudgeList, c: JudgeSubtask)
    requires DistinctIds(list + [c])
    ensures Pruned(list + [c]) == Pruned(list) + if c.id in Ids(Kept(list + [c])) then {} else {c.id}
    ensures TestdataOutside(list + [c], Ids(Kept(list + [c]))) ==
            TestdataOutside(list, Ids(Kept(list))) + if c.id in Ids(Kept(list + [c])) then {} else Elements(c.testdatas)
  {
    var all := list + [c];
    KeptAdd(list, c);
    KeptIsClosed(all);
    assert forall x :: x in all <==> x in list || x == c;
    forall s | s in list
      ensures s.id != c.id
      ensures s.id in Ids(Kept(all)) <==> s.id in Ids(Kept(list))
    {
      var i :| 0 <= i < |list| && list[i] == s;
      assert all[i] == s && all[|list|] == c;
    }
    var was, now := TestdataOutside(list, Ids(Kept(list))), TestdataOutside(all, Ids(Kept(all)));
    forall t | t in now
      ensures t in was || (c.id !in Ids(Kept(all)) && t in c.testdatas)
    {
      var s :| s in all && s.id !in Ids(Kept(all)) && t in s.testdatas;
    }
    forall t | t in was
      ensures t in now
    {
      var s :| s in list && s.id !in Ids(Kept(list)) && t in s.testdatas;
      assert s in all;
    }
    forall t | c.id !in Ids(Kept(all)) && t in c.testdatas
      ensures t in now
    {
      assert c in all;
    }
    forall id
      ensures id in Pruned(all) <==> id in Pruned(list) || (c.id !in Ids(Kept(all)) && id == c.id)
    {
    }
  }

  /** A new key has not been seen by anything computed from the earlier subtasks. */
  lemma FreshKey(done: Configs, c: (int, SubtaskConfig))
    requires DistinctKeys(done + [c])
    ensures DistinctKeys(done) && c.0 !in Keys(done) && c.0 !in Untestable(done) && c.0 !in Ids(Candidates(done))
    ensures DistinctIds(Candidates(done)) && c.0 !in Ids(Kept(Candidates(done)))
    ensures DistinctIds(Kept(Candidates(done))) && Closed(Kept(Candidates(done)), Ids(Kept(Candidates(done))))
  {
    forall x | x in done
      ensures x.0 != c.0
    {
      var i :| 0 <= i < |done| && done[i] == x;
      assert (done + [c])[i] == x && (done + [c])[|done|] == c;
    }
    forall i, j | 0 <= i < j < |done|
      ensures done[i].0 != done[j].0
    {
      assert (done + [c])[i] == done[i] && (done + [c])[j] == done[j];
    }
    CandidatesMembers(done);
    KeptIsClosed(Candidates(done));
  }

  ghost predicate Keeps(done: Configs, c: (int, SubtaskConfig)) {
    c.1.deps <= Ids(Kept(Candidates(done))) + {c.0}
  }

  lemma AdvanceKept(done: Configs, c: (int, SubtaskConfig))
    ensures var before, cand := Candidates(done), Candidate(c);
            && Kept(Candidates(done + [c])) == (if cand.testdatas != [] && Keeps(done, c) then Kept(before) + [cand] else Kept(before))
  {
    CandidatesAdd(done, c);
    KeptAdd(Candidates(done), Candidate(c));
  }

  lemma AddedIsKept(list: JudgeList, c: JudgeSubtask)
    requires DistinctIds(list) && c.id !in Ids(Kept(list))
    ensures c.id in Ids(Kept(list + [c])) <==> c.deps <= Ids(Kept(list)) + {c.id}
  {
    KeptAdd(list, c);
    assert c in Kept(list) + [c];
  }

  lemma AdvanceNeed(done: Configs, c: (int, SubtaskConfig))
    requires DistinctKeys(done + [c])
    ensures var before, cand := Need(Candidates(done)), Candidate(c);
            Need(Candidates(done + [c])) ==
            if cand.testdatas == [] then before
            else if Keeps(done, c) then before + Elements(cand.testdatas)
            else before - Elements(cand.testdatas)
  {
    hide Kept, Candidates, Ids, Need, Untestable;
    FreshKey(done, c);
    CandidatesAdd(done, c);
    KeptAdd(Candidates(done), Candidate(c));
    AddedIsKept(Candidates(done), Candidate(c));
  }

  lemma AdvanceOutside(done: Configs, c: (int, SubtaskConfig))
    requires DistinctKeys(done + [c])
    ensures var was, now := Candidates(done), Candidates(done + [c]);
            var pruned := Candidate(c).testdatas != [] && !Keeps(done, c);
            && Pruned(now) == Pruned(was) + (if pruned then {c.0} else {})
            && TestdataOutside(now, Ids(Kept(now))) ==
               TestdataOutside(was, Ids(Kept(was))) + (if pruned then Elements(Candidate(c).testdatas) else {})
  {
    hide Kept, Candidates, Ids, Untestable, Pruned, TestdataOutside;
    FreshKey(done, c);
    CandidatesAdd(done, c);
    CandidatesMembers(done + [c]);
    AddedIsKept(Candidates(done), Candidate(c));
    if Candidate(c).testdatas != [] {
      OutsideAdd(Candidates(done), Candidate(c));
    }
  }

  /** How the states to be written change when one more pretest subtask is processed. */
  lemma AdvanceStates(system: Configs, done: Configs, c: (int, SubtaskConfig))
    requires DistinctKeys(done + [c]) && c.0 !in Keys(system)
    ensures var none := Candidate(c).testdatas == [];
            var keep := Keeps(done, c);
            && SkippedTestdata(system, done + [c]) ==
               SkippedTestdata(system, done) + Tagged([c]) + (if none || keep then {} else Elements(Candidate(c).testdatas))
            && (forall id :: SubtaskState(system, done + [c], id) ==
                 if id == c.0 && none then SKIPPED
                 else if id == c.0 && !keep then JE
                 else SubtaskState(system, done, id))
  {
    hide Kept, Candidates, Ids, TestdataOutside, Tagged, Mentioned, Keys;
    FreshKey(done, c);
    CandidatesAdd(done, c);
    AdvanceOutside(done, c);
    assert c.0 !in Pruned(Candidates(done));
  }

  /** The first loop: subtasks tagged as system tests are skipped with all their testdata. */
  method MarkSystemTests(system: Configs, results: ChallengeResults)
    modifies results
    ensures results.subtask == WithState(old(results.subtask), Keys(system), SKIPPED)
    ensures results.testdata == WithState(old(results.testdata), Mentioned(system), SKIPPED)
  {
    for i := 0 to |system|
      invariant results.subtask == WithState(old(results.subtask), Keys(system[..i]), SKIPPED)
      invariant results.testdata == WithState(old(results.testdata), Mentioned(system[..i]), SKIPPED)
    {
      var c := system[i];
      assert system[..i + 1] == system[..i] + [c];
      MentionedAdd(system[..i], c);
      results.UpdateSubtask(c.0, SKIPPED);
      SkipAll(TestdataIds(c.1.testdatas), results);
    }
    assert system[..|system|] == system;
  }

  lemma MentionedAdd(configs: Configs, c: (int, SubtaskConfig))
    ensures Mentioned(configs + [c]) == Mentioned(configs) + Elements(TestdataIds(c.1.testdatas))
    ensures Keys(configs + [c]) == Keys(configs) + {c.0}
  {
    var all := configs + [c];
    assert forall x :: x in all <==> x in configs || x == c;
    forall t
      ensures t in Elements(TestdataIds(c.1.testdatas)) <==> exists d :: d in c.1.testdatas && d.id == t
    {
      if d :| d in c.1.testdatas && d.id == t {
        var k :| 0 <= k < |c.1.testdatas| && c.1.testdatas[k] == d;
        assert TestdataIds(c.1.testdatas)[k] == t;
      }
    }
  }

  function TaggedIds(testdatas: seq<Testdata>): set<int> {
    set d | d in testdatas && d.systemTest :: d.id
  }

  lemma NothingTagged(rows: map<int, State>)
    ensures WithState(rows, TaggedIds([]), SKIPPED) == rows
  {
  }

  lemma TaggedAdd(testdatas: seq<Testdata>, d: Testdata)
    ensures TaggedIds(testdatas + [d]) == if d.systemTest then TaggedIds(testdatas) + {d.id} else TaggedIds(testdatas)
  {
    var all := testdatas + [d];
    assert forall x :: x in all <==> x in testdatas || x == d;
  }

  lemma TaggedOne(c: (int, SubtaskConfig))
    ensures Tagged([c]) == TaggedIds(c.1.testdatas)
  {
    assert c in [c];
  }

  /** The testdata loop of one pretest subtask: tagged testdata are skipped, the others listed. */
  method FilterTestdata(c: (int, SubtaskConfig), results: ChallengeResults) returns (pretestTestdatas: seq<int>)
    modifies results
    ensures pretestTestdatas == PretestIds(c.1.testdatas)
    ensures results.subtask == old(results.subtask)
    ensures results.testdata == WithState(old(results.testdata), Tagged([c]), SKIPPED)
  {
    hide WithState, TaggedIds;
    var testdatas := c.1.testdatas;
    pretestTestdatas := [];
    NothingTagged(results.testdata);
    for i := 0 to |testdatas|
      invariant pretestTestdatas == PretestIds(testdatas[..i])
      invariant results.subtask == old(results.subtask)
      invariant results.testdata == WithState(old(results.testdata), TaggedIds(testdatas[..i]), SKIPPED)
    {
      assert testdatas[..i + 1] == testdatas[..i] + [testdatas[i]];
      assert testdatas[..i + 1][..i] == testdatas[..i];
      TaggedAdd(testdatas[..i], testdatas[i]);
      if testdatas[i].systemTest {
        WithStateTwice(old(results.testdata), TaggedIds(testdatas[..i]), {testdatas[i].id}, SKIPPED);
        results.UpdateTestdata(testdatas[i].id, SKIPPED);
      } else {
        pretestTestdatas := pretestTestdatas + [testdatas[i].id];
      }
    }
    assert testdatas[..|testdatas|] == testdatas;
    TaggedOne(c);
  }

  function InRun(subtasks: JudgeList, run: set<int>): JudgeList {
    if subtasks == [] then []
    else InRun(subtasks[..|subtasks| - 1], run)
         + (if subtasks[|subtasks| - 1].id in run then [subtasks[|subtasks| - 1]] else [])
  }

  lemma {:induction false} InRunAll(subtasks: JudgeList, run: set<int>)
    requires Ids(subtasks) <= run
    ensures InRun(subtasks, run) == subtasks
  {
    if subtasks != [] {
      assert subtasks[|subtasks| - 1] in subtasks;
      InRunAll(subtasks[..|subtasks| - 1], run);
    }
  }

  /** Adding one subtask to a closed list: either everything stays or only the new one goes. */
  lemma PruneAfterAdd(before: JudgeList, c: JudgeSubtask, run: set<int>)
    requires Closed(before, Ids(before)) && c.id !in Ids(before)
    requires GreatestClosed(before + [c], run)
    ensures run == if c.deps <= Ids(before) + {c.id} then Ids(before) + {c.id} else Ids(before)
    ensures InRun(before + [c], run) == if c.deps <= Ids(before) + {c.id} then before + [c] else before
    ensures TestdataOutside(before + [c], run) == if c.deps <= Ids(before) + {c.id} then {} else Elements(c.testdatas)
  {
    var all := before + [c];
    assert forall x :: x in all <==> x in before || x == c;
    assert Ids(all) == Ids(before) + {c.id};
    assert Closed(all, Ids(before));
    assert c in all;
    if c.deps <= Ids(before) + {c.id} {
      assert Closed(all, Ids(all));
    } else {
      assert c.id !in run;
    }
    assert run == if c.deps <= Ids(before) + {c.id} then Ids(before) + {c.id} else Ids(before);
    hide GreatestClosed, Closed;
    assert all[..|before|] == before;
    InRunAll(before, run);
    assert forall t :: t in TestdataOutside(all, run) ==> c.id !in run && t in c.testdatas;
    assert forall t :: c.id !in run && t in c.testdatas ==> t in TestdataOutside(all, run);
  }

  /** One round of the loop over the pretest subtasks. */
  method ProcessSubtask(c: (int, SubtaskConfig), before: JudgeList, need0: set<int>, results: ChallengeResults)
    returns (subtasks: JudgeList, need: set<int>)
    requires DistinctIds(before) && Closed(before, Ids(before)) && c.0 !in Ids(before)
    modifies results
    ensures var cand := Candidate(c);
            var keep := cand.deps <= Ids(before) + {c.0};
            if cand.testdatas == [] then
              && subtasks == before && need == need0
              && results.subtask == WithState(old(results.subtask), {c.0}, SKIPPED)
              && results.testdata == WithState(old(results.testdata), Tagged([c]), SKIPPED)
            else if keep then
              && subtasks == before + [cand] && need == need0 + Elements(cand.testdatas)
              && results.subtask == old(results.subtask)
              && results.testdata == WithState(old(results.testdata), Tagged([c]), SKIPPED)
            else
              && subtasks == before && need == need0 - Elements(cand.testdatas)
              && results.subtask == WithState(old(results.subtask), {c.0}, JE)
              && results.testdata == WithState(old(results.testdata), Tagged([c]) + Elements(cand.testdatas), SKIPPED)
  {
    hide GreatestClosed, Closed, TestdataOutside, InRun, PretestIds, Tagged, WithState, Ids, DistinctIds;
    subtasks, need := before, need0;
    ghost var rows := results.subtask;
    var pretestTestdatas := FilterTestdata(c, results);
    ghost var filtered := results.testdata;
    if pretestTestdatas != [] {
      need := need + Elements(pretestTestdatas);
      subtasks := subtasks + [JudgeSubtask(c.0, pretestTestdatas, c.1.deps)];
      AddDistinct(before, Candidate(c));
    } else {
      results.UpdateSubtask(c.0, SKIPPED);
      rows := results.subtask;
    }
    var run;
    ghost var list := subtasks;
    run, need := Prune(subtasks, need, results);
    if pretestTestdatas != [] {
      PruneAfterAdd(before, Candidate(c), run);
    } else {
      PruneClosed(before, run);
    }
    WithStateNone(rows, JE);
    WithStateNone(filtered, SKIPPED);
    WithStateTwice(old(results.testdata), Tagged([c]), TestdataOutside(list, run), SKIPPED);
    assert Ids(list) - run == (if pretestTestdatas == [] || c.1.deps <= Ids(before) + {c.0} then {} else {c.0});
    assert need0 + Elements(pretestTestdatas) - Elements(pretestTestdatas) == need0 - Elements(pretestTestdatas);
    assert need0 - {} == need0 && need0 + Elements(pretestTestdatas) - {} == need0 + Elements(pretestTestdatas);
    subtasks := InRun(subtasks, run);
  }

  lemma AddDistinct(before: JudgeList, c: JudgeSubtask)
    requires DistinctIds(before) && c.id !in Ids(before)
    ensures DistinctIds(before + [c]) && Ids(before + [c]) == Ids(before) + {c.id}
  {
    assert forall s :: s in before ==> s.id in Ids(before);
    assert forall i :: 0 <= i < |before| ==> before[i] in before;
    assert c in before + [c];
  }

  lemma PruneClosed(list: JudgeList, run: set<int>)
    requires Closed(list, Ids(list)) && GreatestClosed(list, run)
    ensures run == Ids(list) && InRun(list, run) == list && TestdataOutside(list, run) == {}
  {
    InRunAll(list, run);
  }

  lemma WithStateNone(rows: map<int, State>, state: State)
    ensures WithState(rows, {}, state) == rows
  {
  }

  lemma WithStateTwice(rows: map<int, State>, a: set<int>, b: set<int>, state: State)
    ensures WithState(WithState(rows, a, state), b, state) == WithState(rows, a + b, state)
    ensures a + {} == a
  {
  }

  lemma FinalSubtaskState(configs: Configs, c: (int, SubtaskConfig))
    requires DistinctKeys(configs) && c in configs
    ensures SubtaskState(WithTag(configs, true), WithTag(configs, false), c.0) ==
            if c.1.systemTest || PretestIds(c.1.testdatas) == [] then SKIPPED
            else if c.0 in Ids(Kept(Candidates(WithTag(configs, false)))) then JUDGE else JE
  {
    var system, pretest := WithTag(configs, true), WithTag(configs, false);
    hide WithTag, PretestIds, Kept, Candidates;
    WithTagMembers(configs, true);
    WithTagMembers(configs, false);
    CandidatesMembers(pretest);
    forall x | x in configs && x.0 == c.0
      ensures x == c
    {
      var i :| 0 <= i < |configs| && configs[i] == x;
      var j :| 0 <= j < |configs| && configs[j] == c;
    }
    if !c.1.systemTest && PretestIds(c.1.testdatas) != [] {
      assert Candidate(c) in Candidates(pretest);
    }
  }

  /** A row of no configured subtask is due like all others. */
  lemma UnconfiguredState(configs: Configs, id: int)
    requires DistinctKeys(configs) && forall c :: c in configs ==> c.0 != id
    ensures SubtaskState(WithTag(configs, true), WithTag(configs, false), id) == JUDGE
  {
    var pretest := WithTag(configs, false);
    hide WithTag, PretestIds, Kept, Candidates;
    WithTagMembers(configs, true);
    WithTagMembers(configs, false);
    CandidatesMembers(pretest);
  }

  lemma SkippedIsMentioned(configs: Configs, t: int)
    requires DistinctKeys(configs)
    ensures t in SkippedTestdata(WithTag(configs, true), WithTag(configs, false)) ==> t in Mentioned(configs)
  {
    var system, pretest := WithTag(configs, true), WithTag(configs, false);
    var list := Candidates(pretest);
    hide WithTag, PretestIds, Kept, Candidates, Need, DistinctIds;
    WithTagMembers(configs, true);
    WithTagMembers(configs, false);
    CandidatesMembers(pretest);
    if t in TestdataOutside(list, Ids(Kept(list))) {
      var s :| s in list && t in s.testdatas;
      var c :| c in pretest && s == Candidate(c);
      PretestIdsMembers(c.1.testdatas);
    }
  }

  lemma DueOrSkipped(configs: Configs, t: int)
    requires DistinctKeys(configs)
    requires t in Mentioned(configs) && t !in Need(Candidates(WithTag(configs, false)))
    ensures t in SkippedTestdata(WithTag(configs, true), WithTag(configs, false))
  {
    var system, pretest := WithTag(configs, true), WithTag(configs, false);
    var list := Candidates(pretest);
    hide WithTag, PretestIds, Kept, Candidates, Need, DistinctIds, LastOwnerKept, TestdataOutside, DistinctKeys;
    WithTagMembers(configs, true);
    WithTagMembers(configs, false);
    CandidatesMembers(pretest);
    NeedExactly(list, t);
    var c, d :| c in configs && d in c.1.testdatas && d.id == t;
    if !c.1.systemTest && !d.systemTest {
      PretestIdsMembers(c.1.testdatas);
      assert t in Candidate(c).testdatas;
      assert Candidate(c) in list;
      var i :| 0 <= i < |list| && list[i] == Candidate(c);
      LastOwnerPruned(list, t, i);
    }
  }

  lemma NothingProcessed(system: Configs)
    ensures Kept(Candidates([])) == [] && Need(Candidates([])) == {}
    ensures SkippedTestdata(system, []) == Mentioned(system)
    ensures forall id :: SubtaskState(system, [], id) == if id in Keys(system) then SKIPPED else JUDGE
  {
  }

  lemma PretestKeyIsFresh(configs: Configs, pretest: Configs, i: nat)
    requires DistinctKeys(configs) && pretest == WithTag(configs, false) && i < |pretest|
    ensures DistinctKeys(pretest[..i] + [pretest[i]]) && pretest[i].0 !in Keys(WithTag(configs, true))
  {
    var system := WithTag(configs, true);
    hide WithTag;
    WithTagMembers(configs, true);
    WithTagMembers(configs, false);
    assert pretest[i] in pretest;
    forall c | c in system
      ensures c.0 != pretest[i].0
    {
      var j :| 0 <= j < |configs| && configs[j] == c;
      var k :| 0 <= k < |configs| && configs[k] == pretest[i];
    }
  }

  lemma LastOwnerPruned(list: JudgeList, t: int, i: nat)
    requires !LastOwnerKept(list, t) && i < |list| && t in list[i].testdatas
    ensures t in TestdataOutside(list, Ids(Kept(list)))
  {
    var kept := Ids(Kept(list));
    if list[i].id in kept {
      var j :| i < j < |list| && t in list[j].testdatas && list[j].id !in kept;
      assert list[j] in list;
    } else {
      assert list[i] in list;
    }
  }

  // ---------------------------------------------------------------- the outcome, told of the configuration

  /** The subtask is no system test and has a testdata that is none. */
  ghost predicate Judgeable(c: (int, SubtaskConfig)) {
    !c.1.systemTest && exists d :: d in c.1.testdatas && !d.systemTest
  }

  /** It would have this testdata judged. */
  ghost predicate WantsJudged(c: (int, SubtaskConfig), t: int) {
    !c.1.systemTest && exists d :: d in c.1.testdatas && !d.systemTest && d.id == t
  }

  /** Each dependency of the i-th configured subtask other than itself comes earlier in the configuration and is among `ids`. */
  ghost predicate DependenciesMet(configs: Configs, i: nat, ids: set<int>)
    requires i < |configs|
  {
    forall d :: d in configs[i].1.deps && d != configs[i].0 ==> exists j :: 0 <= j < i && configs[j].0 == d && d in ids
  }

  /** The last configured subtask that would have t judged is among `ids`. */
  ghost predicate LastWanting(configs: Configs, t: int, ids: set<int>) {
    exists i :: 0 <= i < |configs| && WantsJudged(configs[i], t) && configs[i].0 in ids
      && forall j :: i < j < |configs| && WantsJudged(configs[j], t) ==> configs[j].0 in ids
  }

  lemma PretestCandidate(c: (int, SubtaskConfig))
    ensures Judgeable(c) <==> !c.1.systemTest && Candidate(c).testdatas != []
    ensures forall t :: WantsJudged(c, t) <==> !c.1.systemTest && t in Candidate(c).testdatas
  {
    PretestIdsMembers(c.1.testdatas);
    var ids := PretestIds(c.1.testdatas);
    assert Candidate(c).testdatas == ids;
    hide PretestIds, Candidate;
    if ids != [] {
      var t := ids[0];
      assert t in ids;
      var d :| d in c.1.testdatas && !d.systemTest && d.id == t;
    }
    assert forall d :: d in c.1.testdatas && !d.systemTest ==> d.id in ids;
  }

  /** Where in the configuration the pretest candidates stand. */
  ghost predicate PositionsOf(pos: seq<nat>, configs: Configs, list: JudgeList) {
    && |pos| == |list|
    && (forall k :: 0 <= k < |pos| ==> pos[k] < |configs| && Judgeable(configs[pos[k]]) && list[k] == Candidate(configs[pos[k]]))
    && (forall a, b :: 0 <= a < b < |pos| ==> pos[a] < pos[b])
    && (forall i: nat :: i < |configs| && Judgeable(configs[i]) ==> i in pos)
  }

  lemma WithTagAdd(before: Configs, c: (int, SubtaskConfig), systemTest: bool)
    ensures WithTag(before + [c], systemTest) == WithTag(before, systemTest) + if c.1.systemTest == systemTest then [c] else []
  {
    assert (before + [c])[..|before|] == before;
  }

  lemma CandidatesOfPretest(before: Configs, c: (int, SubtaskConfig))
    ensures var list := Candidates(WithTag(before, false));
            Candidates(WithTag(before + [c], false)) == if Judgeable(c) then list + [Candidate(c)] else list
  {
    WithTagAdd(before, c, false);
    PretestCandidate(c);
    CandidatesAdd(WithTag(before, false), c);
    hide WithTag, Candidates, Judgeable;
    assert WithTag(before, false) + [] == WithTag(before, false);
  }

  /** The candidates are the judgeable subtasks in the order of the configuration. */
  lemma {:induction false} CandidatePositions(configs: Configs) returns (pos: seq<nat>)
    ensures PositionsOf(pos, configs, Candidates(WithTag(configs, false)))
  {
    if configs == [] {
      pos := [];
    } else {
      hide *;
      var before, c := configs[..|configs| - 1], configs[|configs| - 1];
      pos := CandidatePositions(before);
      assert configs == before + [c];
      CandidatesOfPretest(before, c);
      var list := Candidates(WithTag(before, false));
      if Judgeable(c) {
        PositionsAdd(pos, before, list, c);
        pos := pos + [|before|];
      } else {
        PositionsSkip(pos, before, list, c);
      }
    }
  }

  lemma PositionsSkip(pos: seq<nat>, before: Configs, list: JudgeList, c: (int, SubtaskConfig))
    requires PositionsOf(pos, before, list) && !Judgeable(c)
    ensures PositionsOf(pos, before + [c], list)
  {
    hide Judgeable, Candidate;
  }

  lemma PositionsAdd(pos: seq<nat>, before: Configs, list: JudgeList, c: (int, SubtaskConfig))
    requires PositionsOf(pos, before, list) && Judgeable(c)
    ensures PositionsOf(pos + [|before|], before + [c], list + [Candidate(c)])
  {
    hide Judgeable, Candidate;
    var pos', configs := pos + [|before|], before + [c];
    forall i: nat | i < |configs| && Judgeable(configs[i])
      ensures i in pos'
    {
      if i == |before| {
        assert pos'[|pos|] == i;
      } else {
        assert i in pos;
      }
    }
  }

  lemma KeyAt(configs: Configs, i: nat, j: nat)
    requires DistinctKeys(configs) && i < |configs| && j < |configs| && configs[i].0 == configs[j].0
    ensures i == j
  {
  }

  lemma PretestIdsDistinct(configs: Configs)
    requires DistinctKeys(configs)
    ensures DistinctIds(Candidates(WithTag(configs, false)))
  {
    WithTagMembers(configs, false);
    CandidatesMembers(WithTag(configs, false));
  }

  /** Configured subtasks with an id in `ids` are among the candidates. */
  ghost predicate OnlyListed(configs: Configs, pos: seq<nat>, ids: set<int>) {
    forall i: nat :: i < |configs| && configs[i].0 in ids ==> i in pos
  }

  lemma KeptAreListed(configs: Configs, pos: seq<nat>, list: JudgeList)
    requires DistinctKeys(configs) && DistinctIds(list) && PositionsOf(pos, configs, list)
    ensures OnlyListed(configs, pos, Ids(Kept(list)))
  {
    KeptIsClosed(list);
    hide Kept, Judgeable, DistinctKeys, DistinctIds, Closed;
    forall i: nat | i < |configs| && configs[i].0 in Ids(Kept(list))
      ensures i in pos
    {
      var s :| s in Kept(list) && s.id == configs[i].0;
      var k :| 0 <= k < |list| && list[k] == s;
      KeyAt(configs, pos[k], i);
    }
  }

  /** Earlier in the list of candidates and earlier in the configuration are the same. */
  lemma EarlierInBoth(configs: Configs, pos: seq<nat>, list: JudgeList, ids: set<int>, k: nat, d: int)
    requires PositionsOf(pos, configs, list) && OnlyListed(configs, pos, ids) && k < |pos| && d in ids
    ensures (exists j :: 0 <= j < k && list[j].id == d) <==> exists j :: 0 <= j < pos[k] && configs[j].0 == d
  {
    hide Judgeable;
    if j :| 0 <= j < k && list[j].id == d {
      assert pos[j] < pos[k] && configs[pos[j]].0 == d;
    }
    if j: nat :| j < pos[k] && configs[j].0 == d {
      assert j in pos;
      var a :| 0 <= a < |pos| && pos[a] == j;
      assert a < k && list[a].id == d;
    }
  }

  lemma PositionOf(pos: seq<nat>, configs: Configs, list: JudgeList, i: nat) returns (k: nat)
    requires PositionsOf(pos, configs, list) && i < |configs| && Judgeable(configs[i])
    ensures k < |pos| && pos[k] == i && list[k].id == configs[i].0 && list[k].deps == configs[i].1.deps
  {
    k :| k < |pos| && pos[k] == i;
  }

  /**
   A configured subtask is kept exactly when it has something to judge and each of its other
   dependencies is kept and configured before it.
   */
  lemma KeptInConfiguration(configs: Configs, i: nat)
    requires DistinctKeys(configs) && i < |configs|
    ensures var ids := Ids(Kept(Candidates(WithTag(configs, false))));
            configs[i].0 in ids <==> Judgeable(configs[i]) && DependenciesMet(configs, i, ids)
  {
    hide Kept, Candidates, WithTag, DistinctKeys, DistinctIds, Ids, Judgeable;
    var list := Candidates(WithTag(configs, false));
    var pos := CandidatePositions(configs);
    PretestIdsDistinct(configs);
    KeptAreListed(configs, pos, list);
    var ids := Ids(Kept(list));
    if Judgeable(configs[i]) {
      var k := PositionOf(pos, configs, list, i);
      KeptExactly(list, k);
      forall d | d in ids
        ensures (exists j :: 0 <= j < k && list[j].id == d) <==> exists j :: 0 <= j < i && configs[j].0 == d
      {
        EarlierInBoth(configs, pos, list, ids, k, d);
      }
      hide PositionsOf, OnlyListed;
    }
  }

  lemma WantedAt(configs: Configs, pos: seq<nat>, list: JudgeList, t: int)
    requires PositionsOf(pos, configs, list)
    ensures forall k :: 0 <= k < |pos| ==> (WantsJudged(configs[pos[k]], t) <==> t in list[k].testdatas)
    ensures forall i: nat :: i < |configs| && WantsJudged(configs[i], t) ==> i in pos
  {
    forall k | 0 <= k < |pos|
      ensures WantsJudged(configs[pos[k]], t) <==> t in list[k].testdatas
    {
      PretestCandidate(configs[pos[k]]);
    }
  }

  lemma LastInConfiguration(configs: Configs, pos: seq<nat>, list: JudgeList, t: int)
    requires PositionsOf(pos, configs, list) && LastOwnerKept(list, t)
    ensures LastWanting(configs, t, Ids(Kept(list)))
  {
    hide Kept, Ids, Judgeable, WantsJudged;
    var ids := Ids(Kept(list));
    WantedAt(configs, pos, list, t);
    var k :| 0 <= k < |list| && t in list[k].testdatas && list[k].id in ids
      && forall j :: k < j < |list| && t in list[j].testdatas ==> list[j].id in ids;
    forall j: nat | pos[k] < j < |configs| && WantsJudged(configs[j], t)
      ensures configs[j].0 in ids
    {
      var b :| 0 <= b < |pos| && pos[b] == j;
      assert k < b && t in list[b].testdatas;
    }
  }

  lemma LastInList(configs: Configs, pos: seq<nat>, list: JudgeList, t: int)
    requires PositionsOf(pos, configs, list) && LastWanting(configs, t, Ids(Kept(list)))
    ensures LastOwnerKept(list, t)
  {
    hide Kept, Ids, Judgeable, WantsJudged;
    var ids := Ids(Kept(list));
    WantedAt(configs, pos, list, t);
    var i: nat :| i < |configs| && WantsJudged(configs[i], t) && configs[i].0 in ids
      && forall j :: i < j < |configs| && WantsJudged(configs[j], t) ==> configs[j].0 in ids;
    var k :| 0 <= k < |pos| && pos[k] == i;
    assert t in list[k].testdatas && list[k].id in ids;
    assert forall b :: k < b < |list| && t in list[b].testdatas ==> WantsJudged(configs[pos[b]], t) && list[b].id in ids;
  }

  /** A testdata is due exactly when the last configured subtask that would have it judged is kept. */
  lemma NeedInConfiguration(configs: Configs, t: int)
    requires DistinctKeys(configs)
    ensures var list := Candidates(WithTag(configs, false));
            t in Need(list) <==> LastWanting(configs, t, Ids(Kept(list)))
  {
    hide Kept, Candidates, WithTag, DistinctKeys, DistinctIds, Ids, Need;
    var pos := CandidatePositions(configs);
    PretestIdsDistinct(configs);
    var list := Candidates(WithTag(configs, false));
    NeedExactly(list, t);
    hide PositionsOf, LastOwnerKept, LastWanting;
    if LastOwnerKept(list, t) {
      LastInConfiguration(configs, pos, list, t);
    } else if LastWanting(configs, t, Ids(Kept(list))) {
      LastInList(configs, pos, list, t);
    }
  }

  /** `ids` are those of the testdata at increasing positions `pos`, which are the testdata that are no system tests. */
  ghost predicate Picks(pos: seq<nat>, ids: seq<int>, testdatas: seq<Testdata>) {
    && |pos| == |ids|
    && (forall k :: 0 <= k < |pos| ==> pos[k] < |testdatas| && !testdatas[pos[k]].systemTest && testdatas[pos[k]].id == ids[k])
    && (forall a, b :: 0 <= a < b < |pos| ==> pos[a] < pos[b])
    && (forall i: nat :: i < |testdatas| && !testdatas[i].systemTest ==> i in pos)
  }

  /** The ids of the testdata that are no system tests, in their order. */
  ghost predicate ListsPretest(ids: seq<int>, testdatas: seq<Testdata>) {
    exists pos :: Picks(pos, ids, testdatas)
  }

  lemma {:induction false} PretestIdsPicked(testdatas: seq<Testdata>) returns (pos: seq<nat>)
    ensures Picks(pos, PretestIds(testdatas), testdatas)
  {
    if testdatas == [] {
      pos := [];
    } else {
      var before, last := testdatas[..|testdatas| - 1], testdatas[|testdatas| - 1];
      pos := PretestIdsPicked(before);
      assert testdatas == before + [last];
      var ids := PretestIds(before);
      assert PretestIds(testdatas) == ids + if last.systemTest then [] else [last.id];
      hide PretestIds;
      if !last.systemTest {
        PicksAdd(pos, ids, before, last);
        pos := pos + [|before|];
      } else {
        assert ids + [] == ids;
      }
    }
  }

  lemma PicksAdd(pos: seq<nat>, ids: seq<int>, before: seq<Testdata>, last: Testdata)
    requires Picks(pos, ids, before) && !last.systemTest
    ensures Picks(pos + [|before|], ids + [last.id], before + [last])
  {
    var pos', testdatas := pos + [|before|], before + [last];
    forall i: nat | i < |testdatas| && !testdatas[i].systemTest
      ensures i in pos'
    {
      if i == |before| {
        assert pos'[|pos|] == i;
      } else {
        assert i in pos;
      }
    }
  }

  /** The kept subtasks stand in the order of the configuration. */
  ghost predicate InOrder(subtasks: JudgeList, configs: Configs) {
    forall a, b, i, j | 0 <= a < b < |subtasks| && 0 <= i < |configs| && 0 <= j < |configs| ::
      configs[i].0 == subtasks[a].id && configs[j].0 == subtasks[b].id ==> i < j
  }

  lemma {:induction false} KeptStayInOrder(list: JudgeList, a: nat, b: nat) returns (i: nat, j: nat)
    requires a < b < |Kept(list)|
    ensures i < j < |list| && list[i] == Kept(list)[a] && list[j] == Kept(list)[b]
  {
    var before := list[..|list| - 1];
    if b < |Kept(before)| {
      i, j := KeptStayInOrder(before, a, b);
    } else {
      j := |list| - 1;
      assert Kept(list) == Kept(before) + [list[j]];
      i := KeptHasPosition(before, a);
    }
  }

  lemma {:induction false} KeptHasPosition(list: JudgeList, a: nat) returns (i: nat)
    requires a < |Kept(list)|
    ensures i < |list| && list[i] == Kept(list)[a]
  {
    var before := list[..|list| - 1];
    if a < |Kept(before)| {
      i := KeptHasPosition(before, a);
    } else {
      i := |list| - 1;
    }
  }

  /** What is sent to the judge for a kept subtask: its own testdata that are no system tests, and its dependencies. */
  ghost predicate FromConfiguration(s: JudgeSubtask, configs: Configs) {
    exists i :: 0 <= i < |configs| && s.id == configs[i].0 && s.deps == configs[i].1.deps && ListsPretest(s.testdatas, configs[i].1.testdatas)
  }

  lemma KeptAsConfigured(configs: Configs)
    requires DistinctKeys(configs)
    ensures var subtasks := Kept(Candidates(WithTag(configs, false)));
            InOrder(subtasks, configs) && forall s :: s in subtasks ==> FromConfiguration(s, configs)
  {
    var list := Candidates(WithTag(configs, false));
    var subtasks := Kept(list);
    var pos := CandidatePositions(configs);
    PretestIdsDistinct(configs);
    KeptIsClosed(list);
    hide Kept, Candidates, WithTag, DistinctIds, Judgeable, Picks, Closed;
    forall s | s in subtasks
      ensures FromConfiguration(s, configs)
    {
      var k :| 0 <= k < |list| && list[k] == s;
      var picked := PretestIdsPicked(configs[pos[k]].1.testdatas);
      assert s.id == configs[pos[k]].0;
    }
    forall a, b, i, j | 0 <= a < b < |subtasks| && 0 <= i < |configs| && 0 <= j < |configs|
      && configs[i].0 == subtasks[a].id && configs[j].0 == subtasks[b].id
      ensures i < j
    {
      var k, l := KeptStayInOrder(list, a, b);
      KeyAt(configs, pos[k], i);
      KeyAt(configs, pos[l], j);
    }
  }

  /**
   The pretest branch. A configured subtask is kept exactly when it has something to judge and each of
   its other dependencies is kept and configured before it; the kept subtasks are sent in the order of
   the configuration with their own testdata. A testdata is due exactly when the last configured
   subtask that would have it judged is kept. Every configured subtask ends in exactly one of three
   states: SKIPPED when it is a system test or has nothing to judge, JUDGE when it is kept, JE when it
   is pruned. Every mentioned testdata ends JUDGE when it is due and SKIPPED when it is not; other
   testdata rows stay.
   */
  method EmitPretest(configs: Configs, results: ChallengeResults) returns (subtasks: JudgeList, need: set<int>)
    requires DistinctKeys(configs)
    modifies results
    ensures subtasks == Kept(Candidates(WithTag(configs, false)))
    ensures need == Need(Candidates(WithTag(configs, false)))
    ensures results.subtask.Keys == old(results.subtask).Keys && results.testdata.Keys == old(results.testdata).Keys
    ensures forall c :: c in configs && c.0 in results.subtask ==>
              results.subtask[c.0] ==
              (if c.1.systemTest || PretestIds(c.1.testdatas) == [] then SKIPPED
               else if c.0 in Ids(subtasks) then JUDGE else JE)
    ensures forall t :: t in results.testdata ==>
              results.testdata[t] ==
              (if t in need then JUDGE else if t in Mentioned(configs) then SKIPPED else old(results.testdata)[t])
    ensures forall i :: 0 <= i < |configs| ==>
              (configs[i].0 in Ids(subtasks) <==> Judgeable(configs[i]) && DependenciesMet(configs, i, Ids(subtasks)))
    ensures forall t :: t in need <==> LastWanting(configs, t, Ids(subtasks))
    ensures InOrder(subtasks, configs) && forall s :: s in subtasks ==> FromConfiguration(s, configs)
    ensures forall i :: 0 <= i < |configs| && configs[i].0 in results.subtask ==>
              results.subtask[configs[i].0] ==
              (if !Judgeable(configs[i]) then SKIPPED else if DependenciesMet(configs, i, Ids(subtasks)) then JUDGE else JE)
    ensures forall id :: id in results.subtask && (forall c :: c in configs ==> c.0 != id) ==> results.subtask[id] == JUDGE
    ensures forall t :: t in results.testdata ==>
              results.testdata[t] ==
              (if LastWanting(configs, t, Ids(subtasks)) then JUDGE
               else if exists c, d :: c in configs && d in c.1.testdatas && d.id == t then SKIPPED
               else old(results.testdata)[t])
  {
    hide Kept, Need, Candidates, PretestIds, SkippedTestdata, SubtaskState, WithTag, DistinctKeys, Mentioned, LastWanting, Judgeable,
         DependenciesMet, FromConfiguration, InOrder, Ids;
    results.subtask := map id | id in results.subtask :: JUDGE;
    var system, pretest := WithTag(configs, true), WithTag(configs, false);
    MarkSystemTests(system, results);
    assert results.subtask == MarkedRows(old(results.subtask), system);
    subtasks, need := ProcessAll(configs, system, pretest, old(results.subtask), old(results.testdata), results);
    results.testdata := WithState(results.testdata, need, JUDGE);
    forall c | c in configs
      ensures SubtaskState(system, pretest, c.0) ==
              if c.1.systemTest || PretestIds(c.1.testdatas) == [] then SKIPPED else if c.0 in Ids(subtasks) then JUDGE else JE
    {
      FinalSubtaskState(configs, c);
    }
    forall t
      ensures t in SkippedTestdata(system, pretest) ==> t in Mentioned(configs)
      ensures t in Mentioned(configs) && t !in need ==> t in SkippedTestdata(system, pretest)
    {
      SkippedIsMentioned(configs, t);
      if t in Mentioned(configs) && t !in need {
        DueOrSkipped(configs, t);
      }
    }
    forall id | forall c :: c in configs ==> c.0 != id
      ensures SubtaskState(system, pretest, id) == JUDGE
    {
      UnconfiguredState(configs, id);
    }
    KeptAsConfigured(configs);
    forall i | 0 <= i < |configs|
      ensures configs[i].0 in Ids(subtasks) <==> Judgeable(configs[i]) && DependenciesMet(configs, i, Ids(subtasks))
      ensures configs[i].1.systemTest || PretestIds(configs[i].1.testdatas) == [] <==> !Judgeable(configs[i])
    {
      KeptInConfiguration(configs, i);
      PretestCandidate(configs[i]);
    }
    forall t
      ensures t in need <==> LastWanting(configs, t, Ids(subtasks))
      ensures t in Mentioned(configs) <==> exists c, d :: c in configs && d in c.1.testdatas && d.id == t
    {
      NeedInConfiguration(configs, t);
      MentionedExactly(configs, t);
    }
  }

  lemma MentionedExactly(configs: Configs, t: int)
    ensures t in Mentioned(configs) <==> exists c, d :: c in configs && d in c.1.testdatas && d.id == t
  {
  }

  function MarkedRows(rows: map<int, State>, system: Configs): map<int, State> {
    map id | id in rows :: if id in Keys(system) then SKIPPED else JUDGE
  }

  /** The loop over the pretest subtasks. */
  method ProcessAll(ghost configs: Configs, ghost system: Configs, pretest: Configs,
                    ghost subtaskRows: map<int, State>, ghost testdataRows: map<int, State>, results: ChallengeResults)
    returns (subtasks: JudgeList, need: set<int>)
    requires DistinctKeys(configs) && system == WithTag(configs, true) && pretest == WithTag(configs, false)
    requires results.subtask == MarkedRows(subtaskRows, system)
    requires results.testdata == WithState(testdataRows, Mentioned(system), SKIPPED)
    modifies results
    ensures subtasks == Kept(Candidates(pretest)) && need == Need(Candidates(pretest))
    ensures results.subtask == SubtaskRows(subtaskRows, system, pretest)
    ensures results.testdata == WithState(testdataRows, SkippedTestdata(system, pretest), SKIPPED)
  {
    hide Kept, Need, Candidates, PretestIds, SkippedTestdata, SubtaskState, WithTag, Closed, DistinctIds, DistinctKeys, Ids, Mentioned, Keys, Tagged;
    subtasks, need := [], {};
    NothingProcessed(system);
    for i := 0 to |pretest|
      invariant subtasks == Kept(Candidates(pretest[..i]))
      invariant need == Need(Candidates(pretest[..i]))
      invariant results.subtask == SubtaskRows(subtaskRows, system, pretest[..i])
      invariant results.testdata == WithState(testdataRows, SkippedTestdata(system, pretest[..i]), SKIPPED)
    {
      assert pretest[..i + 1] == pretest[..i] + [pretest[i]];
      PretestKeyIsFresh(configs, pretest, i);
      FreshKey(pretest[..i], pretest[i]);
      AdvanceKept(pretest[..i], pretest[i]);
      AdvanceNeed(pretest[..i], pretest[i]);
      AdvanceStates(system, pretest[..i], pretest[i]);
      subtasks, need := ProcessSubtask(pretest[i], subtasks, need, results);
    }
    assert pretest[..|pretest|] == pretest;
  }
}
