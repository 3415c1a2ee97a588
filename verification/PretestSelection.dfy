/**
 Which pretest subtasks and testdata survive when the list is pruned after each subtask that is
 added (src/services/prospec/program.py).
 */
module PretestSelection {
  import opened Collections
  import opened Subtasks
  import opened SubtaskPrune

  /** The ids of the testdata that are not tagged as system tests. */
  function PretestIds(testdatas: seq<Testdata>): seq<int> {
    if testdatas == [] then []
    else PretestIds(testdatas[..|testdatas| - 1])
         + (if testdatas[|testdatas| - 1].systemTest then [] else [testdatas[|testdatas| - 1].id])
  }

  function Candidate(c: (int, SubtaskConfig)): JudgeSubtask {
    JudgeSubtask(c.0, PretestIds(c.1.testdatas), c.1.deps)
  }

  /** The subtasks that have something to judge in a pretest. */
  function Candidates(configs: Configs): JudgeList {
    if configs == [] then []
    else
      var c := Candidate(configs[|configs| - 1]);
      Candidates(configs[..|configs| - 1]) + (if c.testdatas == [] then [] else [c])
  }

  /** The subtasks that survive when the list is pruned after each addition. */
  function Kept(list: JudgeList): JudgeList {
    if list == [] then []
    else
      var before, c := Kept(list[..|list| - 1]), list[|list| - 1];
      if c.deps <= Ids(before) + {c.id} then before + [c] else before
  }

  /** The testdata due after the list has been processed. */
  function Need(list: JudgeList): set<int> {
    if list == [] then {}
    else
      var before, c := Need(list[..|list| - 1]), list[|list| - 1];
      if c.id in Ids(Kept(list)) then before + Elements(c.testdatas) else before - Elements(c.testdatas)
  }

  lemma {:induction false} KeptIsClosed(list: JudgeList)
    requires DistinctIds(list)
    ensures DistinctIds(Kept(list)) && Closed(Kept(list), Ids(Kept(list)))
    ensures forall s :: s in Kept(list) ==> s in list
  {
    if list != [] {
      var before := Kept(list[..|list| - 1]);
      var c := list[|list| - 1];
      KeptIsClosed(list[..|list| - 1]);
      forall i | 0 <= i < |before|
        ensures before[i].id != c.id
      {
        assert before[i] in before && before[i] in list[..|list| - 1];
      }
      if c.deps <= Ids(before) + {c.id} {
        assert Ids(before + [c]) == Ids(before) + {c.id};
      }
    }
  }

  lemma {:induction false} KeptOfPrefix(list: JudgeList, n: nat, i: nat)
    requires DistinctIds(list) && i < n <= |list|
    ensures list[i].id in Ids(Kept(list)) <==> list[i].id in Ids(Kept(list[..n]))
    decreases |list| - n
  {
    if n < |list| {
      KeptOfPrefix(list, n + 1, i);
      assert list[..n + 1][..n] == list[..n];
      assert list[..n + 1][n] == list[n] && list[n].id != list[i].id;
    } else {
      assert list[..n] == list;
    }
  }

  lemma KeptAdd(before: JudgeList, c: JudgeSubtask)
    ensures Kept(before + [c]) == if c.deps <= Ids(Kept(before)) + {c.id} then Kept(before) + [c] else Kept(before)
    ensures Need(before + [c]) == if c.id in Ids(Kept(before + [c])) then Need(before) + Elements(c.testdatas) else Need(before) - Elements(c.testdatas)
  {
    assert (before + [c])[..|before|] == before;
  }

  /** Whether a subtask is kept is settled when it is added. */
  lemma KeptWhenAdded(list: JudgeList, i: nat)
    requires DistinctIds(list) && i < |list|
    ensures list[i].id in Ids(Kept(list)) <==> list[i].deps <= Ids(Kept(list[..i])) + {list[i].id}
  {
    hide Kept, Ids;
    var prefix, c := list[..i], list[i];
    assert list[..i + 1] == prefix + [c];
    KeptOfPrefix(list, i + 1, i);
    DistinctAppend(list, i);
    NewlyKept(prefix, c);
  }

  lemma DistinctAppend(list: JudgeList, i: nat)
    requires DistinctIds(list) && i < |list|
    ensures DistinctIds(list[..i] + [list[i]])
  {
    assert list[..i] + [list[i]] == list[..i + 1];
  }

  /** The last subtask is kept when its dependencies are. */
  lemma NewlyKept(before: JudgeList, c: JudgeSubtask)
    requires DistinctIds(before + [c])
    ensures c.id in Ids(Kept(before + [c])) <==> c.deps <= Ids(Kept(before)) + {c.id}
  {
    hide Kept;
    KeptAdd(before, c);
    LastIsNew(before, c);
    assert c in Kept(before) + [c];
  }

  lemma LastIsNew(before: JudgeList, c: JudgeSubtask)
    requires DistinctIds(before + [c])
    ensures c.id !in Ids(Kept(before))
  {
    hide Kept;
    assert DistinctIds(before) by {
      assert forall i :: 0 <= i < |before| ==> (before + [c])[i] == before[i];
    }
    KeptIsClosed(before);
    forall s | s in Kept(before)
      ensures s.id != c.id
    {
      var i :| 0 <= i < |before| && before[i] == s;
      assert (before + [c])[i] == s && (before + [c])[|before|] == c;
    }
  }

  /** The subtasks kept so far are those processed before that are kept in the end. */
  lemma KeptBefore(list: JudgeList, i: nat, d: int)
    requires DistinctIds(list) && i <= |list|
    ensures d in Ids(Kept(list[..i])) <==> exists j :: 0 <= j < i && list[j].id == d && d in Ids(Kept(list))
  {
    var prefix := list[..i];
    if d in Ids(Kept(prefix)) {
      KeptIsClosed(prefix);
      var s :| s in Kept(prefix) && s.id == d;
      var j :| 0 <= j < |prefix| && prefix[j] == s;
      KeptOfPrefix(list, i, j);
      assert list[j].id == d;
    }
    if j :| 0 <= j < i && list[j].id == d && d in Ids(Kept(list)) {
      KeptOfPrefix(list, i, j);
    }
  }

  /**
   A subtask is kept exactly when each of its dependencies is kept and processed no later than
   itself; a dependency on a later subtask is never met.
   */
  lemma KeptExactly(list: JudgeList, i: nat)
    requires DistinctIds(list) && i < |list|
    ensures list[i].id in Ids(Kept(list)) <==>
              forall d :: d in list[i].deps && d != list[i].id ==>
                exists j :: 0 <= j < i && list[j].id == d && d in Ids(Kept(list))
  {
    hide Kept, Ids;
    KeptWhenAdded(list, i);
    forall d | d in list[i].deps
      ensures d in Ids(Kept(list[..i])) <==> exists j :: 0 <= j < i && list[j].id == d && d in Ids(Kept(list))
    {
      KeptBefore(list, i, d);
    }
  }

  /** Members of `ids` only depend on subtasks processed no later than themselves. */
  ghost predicate EarlierOnly(list: JudgeList, ids: set<int>) {
    forall i, d :: 0 <= i < |list| && list[i].id in ids && d in list[i].deps ==> exists j :: 0 <= j <= i && list[j].id == d
  }

  /**
   Pruning after each addition keeps what pruning once at the end would keep exactly when no
   member of the greatest closed set depends on a later subtask.
   */
  lemma NestedPruneIsOneShot(list: JudgeList, greatest: set<int>)
    requires DistinctIds(list) && GreatestClosed(list, greatest)
    ensures Ids(Kept(list)) <= greatest
    ensures Ids(Kept(list)) == greatest <==> EarlierOnly(list, greatest)
  {
    KeptIsClosed(list);
    var kept := Ids(Kept(list));
    forall s | s in list && s.id in kept
      ensures s.deps <= kept
    {
      var k :| k in Kept(list) && k.id == s.id;
      assert k == s;
    }
    assert Closed(list, kept);
    if kept == greatest {
      forall i, d | 0 <= i < |list| && list[i].id in greatest && d in list[i].deps
        ensures exists j :: 0 <= j <= i && list[j].id == d
      {
        KeptExactly(list, i);
      }
    }
    if EarlierOnly(list, greatest) {
      forall i | 0 <= i < |list| && list[i].id in greatest
        ensures list[i].id in kept
      {
        GreatestIsKept(list, greatest, i);
      }
    }
  }

  lemma {:induction false} GreatestIsKept(list: JudgeList, greatest: set<int>, i: nat)
    requires DistinctIds(list) && Closed(list, greatest) && EarlierOnly(list, greatest)
    requires i < |list| && list[i].id in greatest
    ensures list[i].id in Ids(Kept(list))
  {
    forall d | d in list[i].deps && d != list[i].id
      ensures exists j :: 0 <= j < i && list[j].id == d && d in Ids(Kept(list))
    {
      var j :| 0 <= j <= i && list[j].id == d;
      assert d in greatest;
      GreatestIsKept(list, greatest, j);
    }
    KeptExactly(list, i);
  }

  /** A dependency on a later subtask: nothing is kept of the first, although both form a closed set. */
  lemma ForwardDependencyIsPruned()
    ensures var list := [JudgeSubtask(0, [10], {1}), JudgeSubtask(1, [11], {})];
            Ids(Kept(list)) == {1} && GreatestClosed(list, {0, 1})
  {
    var list := [JudgeSubtask(0, [10], {1}), JudgeSubtask(1, [11], {})];
    hide Kept;
    KeptExactly(list, 0);
    KeptExactly(list, 1);
    KeptIsClosed(list);
    assert 1 in list[0].deps;
    assert forall id :: id in Ids(Kept(list)) ==> id == 0 || id == 1;
  }

  // ---------------------------------------------------------------- which testdata is judged

  /** The last subtask in processing order that contains t is a kept one. */
  ghost predicate LastOwnerKept(list: JudgeList, t: int) {
    exists i :: 0 <= i < |list| && t in list[i].testdatas && list[i].id in Ids(Kept(list))
      && forall j :: i < j < |list| && t in list[j].testdatas ==> list[j].id in Ids(Kept(list))
  }

  /** A subtask that does not contain t does not change who owns t last. */
  lemma LastOwnerOfPrefix(list: JudgeList, t: int)
    requires DistinctIds(list) && list != [] && t !in list[|list| - 1].testdatas
    ensures LastOwnerKept(list, t) <==> LastOwnerKept(list[..|list| - 1], t)
  {
    hide Kept, Ids;
    var n := |list| - 1;
    var prefix := list[..n];
    forall i | 0 <= i < n
      ensures list[i].id in Ids(Kept(list)) <==> prefix[i].id in Ids(Kept(prefix))
    {
      KeptOfPrefix(list, n, i);
    }
    if LastOwnerKept(prefix, t) {
      var i :| 0 <= i < n && t in prefix[i].testdatas && prefix[i].id in Ids(Kept(prefix))
        && forall j :: i < j < n && t in prefix[j].testdatas ==> prefix[j].id in Ids(Kept(prefix));
      assert t in list[i].testdatas;
      assert forall j :: i < j < |list| && t in list[j].testdatas ==> j < n && t in prefix[j].testdatas;
    }
    if LastOwnerKept(list, t) {
      var i :| 0 <= i < |list| && t in list[i].testdatas && list[i].id in Ids(Kept(list))
        && forall j :: i < j < |list| && t in list[j].testdatas ==> list[j].id in Ids(Kept(list));
      assert t in prefix[i].testdatas;
      assert forall j :: i < j < n && t in prefix[j].testdatas ==> t in list[j].testdatas;
    }
  }

  /** A testdata is judged exactly when the last subtask containing it is kept. */
  lemma {:induction false} NeedExactly(list: JudgeList, t: int)
    requires DistinctIds(list)
    ensures t in Need(list) <==> LastOwnerKept(list, t)
  {
    hide Kept, Ids;
    if list != [] {
      var c := list[|list| - 1];
      if t in c.testdatas {
        assert c.id in Ids(Kept(list)) <==> LastOwnerKept(list, t);
      } else {
        NeedExactly(list[..|list| - 1], t);
        LastOwnerOfPrefix(list, t);
        hide LastOwnerKept;
      }
    }
  }

  /** After the last kept subtask that contains t comes a pruned one that contains it too. */
  ghost predicate TakenAway(list: JudgeList, t: int) {
    exists i, j :: 0 <= i < j < |list|
      && t in list[i].testdatas && list[i].id in Ids(Kept(list))
      && t in list[j].testdatas && list[j].id !in Ids(Kept(list))
      && forall k :: i < k < |list| && t in list[k].testdatas ==> list[k].id !in Ids(Kept(list))
  }

  /** The last kept owner of a testdata below position n. */
  lemma {:induction false} LastKeptOwner(list: JudgeList, t: int, n: nat) returns (i: nat)
    requires n <= |list| && exists j :: 0 <= j < n && t in list[j].testdatas && list[j].id in Ids(Kept(list))
    ensures i < n && t in list[i].testdatas && list[i].id in Ids(Kept(list))
    ensures forall k :: i < k < n && t in list[k].testdatas ==> list[k].id !in Ids(Kept(list))
  {
    hide Kept, Ids;
    if t in list[n - 1].testdatas && list[n - 1].id in Ids(Kept(list)) {
      i := n - 1;
    } else {
      i := LastKeptOwner(list, t, n - 1);
    }
  }

  lemma KeptOwner(list: JudgeList, t: int)
    requires DistinctIds(list)
    ensures t in AllTestdata(Kept(list)) <==> exists j :: 0 <= j < |list| && t in list[j].testdatas && list[j].id in Ids(Kept(list))
  {
    KeptIsClosed(list);
    if t in AllTestdata(Kept(list)) {
      var s :| s in Kept(list) && t in s.testdatas;
      var j :| 0 <= j < |list| && list[j] == s;
      assert list[j].id in Ids(Kept(list));
    }
    if j :| 0 <= j < |list| && t in list[j].testdatas && list[j].id in Ids(Kept(list)) {
      var s :| s in Kept(list) && s.id == list[j].id;
      var k :| 0 <= k < |list| && list[k] == s;
      assert k == j;
    }
  }

  /** A testdata of a kept subtask is not judged exactly when a later pruned subtask takes it away. */
  lemma TakenAwayExactly(list: JudgeList, t: int)
    requires DistinctIds(list) && t in AllTestdata(Kept(list))
    ensures t !in Need(list) <==> TakenAway(list, t)
  {
    NeedExactly(list, t);
    KeptOwner(list, t);
    hide Kept, Ids, Need, AllTestdata, DistinctIds;
    var i := LastKeptOwner(list, t, |list|);
    if !LastOwnerKept(list, t) {
      var j :| i < j < |list| && t in list[j].testdatas && list[j].id !in Ids(Kept(list));
      assert TakenAway(list, t);
    }
  }

  /**
   The judged testdata belong to kept subtasks, and they are all testdata of kept subtasks exactly
   when none of them is taken away by a later pruned subtask.
   */
  lemma NeedWithinKept(list: JudgeList)
    requires DistinctIds(list)
    ensures Need(list) <= AllTestdata(Kept(list))
    ensures Need(list) == AllTestdata(Kept(list)) <==> forall t :: t in AllTestdata(Kept(list)) ==> !TakenAway(list, t)
  {
    hide Kept, Ids, Need, DistinctIds, TakenAway;
    forall t | t in Need(list)
      ensures t in AllTestdata(Kept(list))
    {
      NeedExactly(list, t);
      KeptOwner(list, t);
    }
    forall t | t in AllTestdata(Kept(list))
      ensures t !in Need(list) <==> TakenAway(list, t)
    {
      TakenAwayExactly(list, t);
    }
  }

  /** In particular they are all of them when no testdata is shared by a kept and a pruned subtask. */
  lemma NeedWithoutSharing(list: JudgeList)
    requires DistinctIds(list) && AllTestdata(Kept(list)) !! TestdataOutside(list, Ids(Kept(list)))
    ensures Need(list) == AllTestdata(Kept(list))
  {
    forall t | t in AllTestdata(Kept(list))
      ensures !TakenAway(list, t)
    {
      forall j | 0 <= j < |list| && t in list[j].testdatas
        ensures list[j].id in Ids(Kept(list))
      {
        assert list[j] in list;
        assert list[j].id !in Ids(Kept(list)) ==> t in TestdataOutside(list, Ids(Kept(list)));
      }
    }
    hide Kept, Ids, Need, AllTestdata, DistinctIds, TakenAway;
    NeedWithinKept(list);
  }

  /** A pruned subtask takes the only testdata of a kept one away: subtask 0 is kept and nothing is judged. */
  lemma SharedTestdataIsTakenAway()
    ensures var list := [JudgeSubtask(0, [10], {}), JudgeSubtask(1, [10], {2})];
            Ids(Kept(list)) == {0} && 10 in AllTestdata(Kept(list)) && TakenAway(list, 10) && Need(list) == {}
  {
    var list := [JudgeSubtask(0, [10], {}), JudgeSubtask(1, [10], {2})];
    hide Kept, Need;
    KeptExactly(list, 0);
    KeptExactly(list, 1);
    KeptIsClosed(list);
    assert 2 in list[1].deps;
    assert forall id :: id in Ids(Kept(list)) ==> id == 0 || id == 1;
    KeptOwner(list, 10);
    assert 10 in list[0].testdatas && 10 in list[1].testdatas;
    assert TakenAway(list, 10);
    forall t
      ensures t !in Need(list)
    {
      NeedExactly(list, t);
      TakenAwayExactly(list, 10);
    }
  }
}
