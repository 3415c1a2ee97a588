/**
 The problem and user tables of a contest after update_contest (src/services/contests.py).
 */
module ContestTables {
  import opened Collections
  import opened Scoring

  const STATUS_HIDDEN: int := 2

  datatype ProOptions = ProOptions(scoreType: int, challengeStyle: int)

  datatype Joint = Joint(scoreType: int, challengeStyle: int, order: int)

  datatype UpdateError = ProblemNotFound(pro: int) | HiddenProblem(pro: int) | AccountNotFound(acct: int)

  /** dicts in their iteration order */
  type ProList = seq<(int, ProOptions)>
  type UserList = seq<(int, Status)>

  /** The entries whose key passes, in order. */
  function Surviving<T>(list: seq<(int, T)>, ok: int -> bool): seq<(int, T)> {
    if list == [] then []
    else Surviving(list[..|list| - 1], ok) + (if ok(list[|list| - 1].0) then [list[|list| - 1]] else [])
  }

  function ProErrors(list: ProList, problems: map<int, int>): seq<UpdateError> {
    if list == [] then []
    else
      var pro := list[|list| - 1].0;
      ProErrors(list[..|list| - 1], problems)
      + (if pro !in problems then [ProblemNotFound(pro)]
         else if problems[pro] == STATUS_HIDDEN then [HiddenProblem(pro)]
         else [])
  }

  function UserErrors(list: UserList, accounts: set<int>): seq<UpdateError> {
    if list == [] then []
    else UserErrors(list[..|list| - 1], accounts)
         + (if list[|list| - 1].0 in accounts then [] else [AccountNotFound(list[|list| - 1].0)])
  }

  predicate ProOk(problems: map<int, int>, pro: int) {
    pro in problems && problems[pro] != STATUS_HIDDEN
  }

  function ProFilter(problems: map<int, int>): int -> bool { pro => ProOk(problems, pro) }

  function UserFilter(accounts: set<int>): int -> bool { acct => acct in accounts }

  /** contest.user_list[creator] = ADMIN: in place when present, at the end otherwise. */
  function WithCreator(list: UserList, creator: int): UserList {
    if list == [] then [(creator, Admin)]
    else if list[0].0 == creator then [(creator, Admin)] + list[1..]
    else [list[0]] + WithCreator(list[1..], creator)
  }

  /** The rows of a problem list, numbered from 0. */
  function Numbered(list: ProList): (rows: seq<(int, Joint)>)
    ensures |rows| == |list|
    ensures forall i :: 0 <= i < |rows| ==> rows[i] == (list[i].0, Joint(list[i].1.scoreType, list[i].1.challengeStyle, i))
  {
    seq(|list|, i requires 0 <= i < |list| => (list[i].0, Joint(list[i].1.scoreType, list[i].1.challengeStyle, i)))
  }

  /** The contest's rows in a table are exactly these. */
  ghost predicate RowsAre<V>(table: map<(int, int), V>, contest: int, rows: seq<(int, V)>) {
    && (forall x :: (contest, x) in table ==> exists i :: 0 <= i < |rows| && rows[i].0 == x)
    && (forall i :: 0 <= i < |rows| ==> (contest, rows[i].0) in table && table[(contest, rows[i].0)] == rows[i].1)
  }

  ghost predicate OthersUnchanged<V>(before: map<(int, int), V>, after: map<(int, int), V>, contest: int) {
    forall c, x :: c != contest ==>
      ((c, x) in after <==> (c, x) in before) && ((c, x) in before ==> after[(c, x)] == before[(c, x)])
  }

  /** The first rows have been upserted; rows of the contest that existed before may still be there. */
  ghost predicate Midway<V>(before: map<(int, int), V>, table: map<(int, int), V>, contest: int, rows: seq<(int, V)>) {
    && DistinctKeys(rows)
    && OthersUnchanged(before, table, contest)
    && (forall x :: (contest, x) in table ==> (contest, x) in before || exists i :: 0 <= i < |rows| && rows[i].0 == x)
    && (forall i :: 0 <= i < |rows| ==> (contest, rows[i].0) in table && table[(contest, rows[i].0)] == rows[i].1)
  }

  /** INSERT ... ON CONFLICT DO UPDATE */
  lemma Upsert<V>(before: map<(int, int), V>, table: map<(int, int), V>, contest: int, rows: seq<(int, V)>, x: int, v: V)
    requires Midway(before, table, contest, rows) && forall i :: 0 <= i < |rows| ==> rows[i].0 != x
    ensures Midway(before, table[(contest, x) := v], contest, rows + [(x, v)])
  {
    var table', rows' := table[(contest, x) := v], rows + [(x, v)];
    forall y | (contest, y) in table'
      ensures (contest, y) in before || exists i :: 0 <= i < |rows'| && rows'[i].0 == y
    {
      if y == x {
        assert rows'[|rows|].0 == y;
      } else if (contest, y) !in before {
        var i :| 0 <= i < |rows| && rows[i].0 == y;
        assert rows'[i].0 == y;
      }
    }
  }

  function WithoutRemoved<V>(table: map<(int, int), V>, contest: int, removed: set<int>): map<(int, int), V> {
    map k | k in table && !(k.0 == contest && k.1 in removed) :: table[k]
  }

  /** DELETE ... WHERE contest_id = $1 AND id = ANY(existing - current) */
  lemma DeleteRemoved<V>(before: map<(int, int), V>, table: map<(int, int), V>, contest: int, rows: seq<(int, V)>,
                         existing: set<int>, current: set<int>)
    requires Midway(before, table, contest, rows)
    requires forall x :: x in existing <==> (contest, x) in before
    requires forall x :: x in current <==> exists i :: 0 <= i < |rows| && rows[i].0 == x
    ensures RowsAre(WithoutRemoved(table, contest, existing - current), contest, rows)
    ensures OthersUnchanged(before, WithoutRemoved(table, contest, existing - current), contest)
  {
  }

  lemma KeysByPosition<T>(list: seq<(int, T)>)
    ensures forall x :: x in Keys(list) <==> exists i :: 0 <= i < |list| && list[i].0 == x
  {
    assert forall i :: 0 <= i < |list| ==> list[i] in list;
  }

  lemma {:induction false} SurvivorKeys<T>(list: seq<(int, T)>, ok: int -> bool, i: nat)
    requires i < |Surviving(list, ok)|
    ensures exists k :: 0 <= k < |list| && list[k].0 == Surviving(list, ok)[i].0
  {
    var before := Surviving(list[..|list| - 1], ok);
    if i < |before| {
      SurvivorKeys(list[..|list| - 1], ok, i);
      var k :| 0 <= k < |list| - 1 && list[..|list| - 1][k].0 == before[i].0;
      assert list[k].0 == before[i].0;
    } else {
      assert list[|list| - 1].0 == Surviving(list, ok)[i].0;
    }
  }

  /** A new key is not among the survivors so far. */
  lemma SurvivorsLackKey<T>(list: seq<(int, T)>, e: (int, T), ok: int -> bool)
    requires DistinctKeys(list + [e])
    ensures forall i :: 0 <= i < |Surviving(list, ok)| ==> Surviving(list, ok)[i].0 != e.0
  {
    forall i | 0 <= i < |Surviving(list, ok)|
      ensures Surviving(list, ok)[i].0 != e.0
    {
      SurvivorKeys(list, ok, i);
      var k :| 0 <= k < |list| && list[k].0 == Surviving(list, ok)[i].0;
      assert (list + [e])[k].0 != (list + [e])[|list|].0;
    }
  }

  lemma ProErrorsAdd(list: ProList, e: (int, ProOptions), problems: map<int, int>)
    ensures ProErrors(list + [e], problems) == ProErrors(list, problems) +
            (if e.0 !in problems then [ProblemNotFound(e.0)] else if problems[e.0] == STATUS_HIDDEN then [HiddenProblem(e.0)] else [])
  {
    assert (list + [e])[..|list|] == list;
  }

  lemma UserErrorsAdd(list: UserList, e: (int, Status), accounts: set<int>)
    ensures UserErrors(list + [e], accounts) == UserErrors(list, accounts) + if e.0 in accounts then [] else [AccountNotFound(e.0)]
  {
    assert (list + [e])[..|list|] == list;
  }

  lemma SurvivingAdd<T>(list: seq<(int, T)>, e: (int, T), ok: int -> bool)
    ensures Surviving(list + [e], ok) == if ok(e.0) then Surviving(list, ok) + [e] else Surviving(list, ok)
  {
    assert (list + [e])[..|list|] == list;
  }

  lemma {:induction false} SurvivingMembers<T>(list: seq<(int, T)>, ok: int -> bool)
    ensures forall e :: e in Surviving(list, ok) <==> e in list && ok(e.0)
  {
    if list != [] {
      SurvivingMembers(list[..|list| - 1], ok);
      assert list == list[..|list| - 1] + [list[|list| - 1]];
    }
  }

  /** The keys that do not pass, in order. */
  function Dropped<T>(list: seq<(int, T)>, ok: int -> bool): seq<int> {
    if list == [] then []
    else Dropped(list[..|list| - 1], ok) + (if ok(list[|list| - 1].0) then [] else [list[|list| - 1].0])
  }

  /** Every key is listed as dropped at most once, and exactly when it is in the list and does not pass. */
  lemma {:induction false} DroppedOnce<T>(list: seq<(int, T)>, ok: int -> bool)
    requires DistinctKeys(list)
    ensures Distinct(Dropped(list, ok))
    ensures forall x :: x in Dropped(list, ok) <==> (exists i :: 0 <= i < |list| && list[i].0 == x) && !ok(x)
    ensures |Dropped(list, ok)| + |Surviving(list, ok)| == |list|
  {
    if list != [] {
      var before, last := list[..|list| - 1], list[|list| - 1];
      DroppedOnce(before, ok);
      assert forall i :: 0 <= i < |before| ==> before[i] == list[i];
      assert last.0 !in Dropped(before, ok);
    }
  }

  function ErrorKey(e: UpdateError): int {
    match e
    case ProblemNotFound(pro) => pro
    case HiddenProblem(pro) => pro
    case AccountNotFound(acct) => acct
  }

  function ProError(problems: map<int, int>, pro: int): UpdateError {
    if pro !in problems then ProblemNotFound(pro) else HiddenProblem(pro)
  }

  lemma {:induction false} ProErrorsInOrder(list: ProList, problems: map<int, int>)
    ensures var dropped := Dropped(list, ProFilter(problems));
            && |ProErrors(list, problems)| == |dropped|
            && forall i :: 0 <= i < |dropped| ==> ProErrors(list, problems)[i] == ProError(problems, dropped[i])
  {
    if list != [] {
      ProErrorsInOrder(list[..|list| - 1], problems);
    }
  }

  lemma {:induction false} UserErrorsInOrder(list: UserList, accounts: set<int>)
    ensures var dropped := Dropped(list, UserFilter(accounts));
            && |UserErrors(list, accounts)| == |dropped|
            && forall i :: 0 <= i < |dropped| ==> UserErrors(list, accounts)[i] == AccountNotFound(dropped[i])
  {
    if list != [] {
      UserErrorsInOrder(list[..|list| - 1], accounts);
    }
  }

  /** The errors name exactly the keys that do not pass, each of them once. */
  ghost predicate NameDropped<T>(errors: seq<UpdateError>, list: seq<(int, T)>, ok: int -> bool) {
    && (forall e :: e in errors ==> !ok(ErrorKey(e)) && exists i :: 0 <= i < |list| && list[i].0 == ErrorKey(e))
    && (forall i :: 0 <= i < |list| && !ok(list[i].0) ==> exists j :: 0 <= j < |errors| && ErrorKey(errors[j]) == list[i].0)
    && (forall i, j :: 0 <= i < j < |errors| ==> ErrorKey(errors[i]) != ErrorKey(errors[j]))
  }

  lemma NamedInOrder<T>(errors: seq<UpdateError>, list: seq<(int, T)>, ok: int -> bool)
    requires DistinctKeys(list) && |errors| == |Dropped(list, ok)|
    requires forall i :: 0 <= i < |errors| ==> ErrorKey(errors[i]) == Dropped(list, ok)[i]
    ensures NameDropped(errors, list, ok)
  {
    var dropped := Dropped(list, ok);
    DroppedOnce(list, ok);
    hide Dropped, ErrorKey;
    forall e | e in errors
      ensures ErrorKey(e) in dropped
    {
      var i :| 0 <= i < |errors| && errors[i] == e;
      assert dropped[i] in dropped;
    }
    forall i | 0 <= i < |list| && !ok(list[i].0)
      ensures exists j :: 0 <= j < |errors| && ErrorKey(errors[j]) == list[i].0
    {
      assert list[i].0 in dropped;
      var j :| 0 <= j < |dropped| && dropped[j] == list[i].0;
      assert ErrorKey(errors[j]) == list[i].0;
    }
  }

  /** Each dropped problem is named by exactly one error of the right kind, and no other problem is. */
  lemma OneErrorPerDroppedProblem(list: ProList, problems: map<int, int>)
    requires DistinctKeys(list)
    ensures NameDropped(ProErrors(list, problems), list, ProFilter(problems))
    ensures forall e :: e in ProErrors(list, problems) ==> e == ProError(problems, ErrorKey(e))
    ensures |ProErrors(list, problems)| + |Surviving(list, ProFilter(problems))| == |list|
  {
    ProErrorsInOrder(list, problems);
    DroppedOnce(list, ProFilter(problems));
    NamedInOrder(ProErrors(list, problems), list, ProFilter(problems));
  }

  /** Each dropped account is named by exactly one error, and no other account is. */
  lemma OneErrorPerDroppedUser(list: UserList, accounts: set<int>)
    requires DistinctKeys(list)
    ensures NameDropped(UserErrors(list, accounts), list, UserFilter(accounts))
    ensures forall e :: e in UserErrors(list, accounts) ==> e.AccountNotFound?
    ensures |UserErrors(list, accounts)| + |Surviving(list, UserFilter(accounts))| == |list|
  {
    UserErrorsInOrder(list, accounts);
    DroppedOnce(list, UserFilter(accounts));
    NamedInOrder(UserErrors(list, accounts), list, UserFilter(accounts));
  }

  lemma {:induction false} WithCreatorEntries(list: UserList, creator: int)
    requires DistinctKeys(list)
    ensures DistinctKeys(WithCreator(list, creator))
    ensures forall e :: e in WithCreator(list, creator) <==> e == (creator, Admin) || (e in list && e.0 != creator)
  {
    if list != [] {
      var head, rest := list[0], list[1..];
      assert list == [head] + rest;
      HeadIsAlone(head, rest);
      assert forall e :: e in list <==> e == head || e in rest;
      if head.0 == creator {
        HeadStaysAlone((creator, Admin), rest);
      } else {
        WithCreatorEntries(rest, creator);
        HeadStaysAlone(head, WithCreator(rest, creator));
      }
    }
  }

  lemma HeadIsAlone(head: (int, Status), rest: UserList)
    requires DistinctKeys([head] + rest)
    ensures DistinctKeys(rest) && forall e :: e in rest ==> e.0 != head.0
  {
    var list := [head] + rest;
    forall i, j | 0 <= i < j < |rest|
      ensures rest[i].0 != rest[j].0
    {
      assert list[i + 1] == rest[i] && list[j + 1] == rest[j];
    }
    forall e | e in rest
      ensures e.0 != head.0
    {
      var k :| 0 <= k < |rest| && rest[k] == e;
      assert list[0] == head && list[k + 1] == e;
    }
  }

  lemma HeadStaysAlone(head: (int, Status), rest: UserList)
    requires DistinctKeys(rest) && forall e :: e in rest ==> e.0 != head.0
    ensures DistinctKeys([head] + rest)
  {
    assert forall k :: 0 <= k < |rest| ==> rest[k] in rest;
  }

  // ---------------------------------------------------------------- the outcome, told of the lists

  /** The i-th listed problem exists and is not hidden. */
  predicate Survives(list: ProList, problems: map<int, int>, i: nat) {
    i < |list| && list[i].0 in problems && problems[list[i].0] != 2
  }

  /** How many surviving entries are listed before the i-th. */
  ghost function SurvivorsBefore(list: ProList, problems: map<int, int>, i: nat): nat {
    |set j: nat | j < i && Survives(list, problems, j)|
  }

  lemma SurvivorsBeforeAdd(list: ProList, problems: map<int, int>, n: nat)
    ensures SurvivorsBefore(list, problems, n + 1) == SurvivorsBefore(list, problems, n) + if Survives(list, problems, n) then 1 else 0
  {
    hide Survives;
    var was, now := set j: nat | j < n && Survives(list, problems, j), set j: nat | j < n + 1 && Survives(list, problems, j);
    assert now == was + if Survives(list, problems, n) then {n} else {};
  }

  /** Of the first n entries exactly the surviving ones are there, each at its place. */
  ghost predicate InPlace(rows: ProList, list: ProList, problems: map<int, int>, n: nat)
    requires n <= |list|
  {
    && |rows| == SurvivorsBefore(list, problems, n)
    && forall i: nat :: i < n && Survives(list, problems, i) ==>
         SurvivorsBefore(list, problems, i) < |rows| && rows[SurvivorsBefore(list, problems, i)] == list[i]
  }

  lemma InPlaceAdd(rows: ProList, list: ProList, problems: map<int, int>, n: nat)
    requires n < |list| && InPlace(rows, list, problems, n)
    ensures InPlace(if Survives(list, problems, n) then rows + [list[n]] else rows, list, problems, n + 1)
  {
    SurvivorsBeforeAdd(list, problems, n);
    hide Survives, SurvivorsBefore;
  }

  lemma {:induction false} SurvivorsInOrder(list: ProList, problems: map<int, int>, n: nat)
    requires n <= |list|
    ensures InPlace(Surviving(list[..n], ProFilter(problems)), list, problems, n)
  {
    var ok := ProFilter(problems);
    if n == 0 {
      assert (set j: nat | j < 0 && Survives(list, problems, j)) == {};
    } else {
      SurvivorsInOrder(list, problems, n - 1);
      InPlaceAdd(Surviving(list[..n - 1], ok), list, problems, n - 1);
      assert list[..n] == list[..n - 1] + [list[n - 1]];
      SurvivingAdd(list[..n - 1], list[n - 1], ok);
      assert ok(list[n - 1].0) <==> Survives(list, problems, n - 1);
      hide *;
    }
  }

  /** The rows of the contest are those of the surviving entries, each numbered by the surviving entries before it. */
  ghost predicate ProblemsStored(joints: map<(int, int), Joint>, contest: int, list: ProList, problems: map<int, int>) {
    && (forall i: nat :: Survives(list, problems, i) ==>
          && (contest, list[i].0) in joints
          && joints[(contest, list[i].0)] == Joint(list[i].1.scoreType, list[i].1.challengeStyle, SurvivorsBefore(list, problems, i)))
    && (forall x :: (contest, x) in joints ==> exists i: nat :: Survives(list, problems, i) && list[i].0 == x)
  }

  lemma SurvivingIsStored(joints: map<(int, int), Joint>, contest: int, list: ProList, problems: map<int, int>)
    requires RowsAre(joints, contest, Numbered(Surviving(list, ProFilter(problems))))
    ensures ProblemsStored(joints, contest, list, problems)
  {
    hide Surviving, InPlace, RowsAre, SurvivorsBefore, ProFilter;
    var survivors := Surviving(list, ProFilter(problems));
    assert list[..|list|] == list;
    SurvivorsInOrder(list, problems, |list|);
    SurvivingMembers(list, ProFilter(problems));
    SurvivorsHaveRows(joints, contest, list, problems, survivors);
    forall x | (contest, x) in joints
      ensures exists i: nat :: Survives(list, problems, i) && list[i].0 == x
    {
      RowOfSurvivor(joints, contest, list, problems, survivors, x);
    }
  }

  lemma SurvivorsHaveRows(joints: map<(int, int), Joint>, contest: int, list: ProList, problems: map<int, int>, survivors: ProList)
    requires RowsAre(joints, contest, Numbered(survivors)) && InPlace(survivors, list, problems, |list|)
    ensures forall i: nat :: Survives(list, problems, i) ==>
              && (contest, list[i].0) in joints
              && joints[(contest, list[i].0)] == Joint(list[i].1.scoreType, list[i].1.challengeStyle, SurvivorsBefore(list, problems, i))
  {
    assert forall i: nat :: Survives(list, problems, i) ==> i < |list|;
    hide SurvivorsBefore, Survives;
    forall i: nat | Survives(list, problems, i)
      ensures (contest, list[i].0) in joints
      ensures joints[(contest, list[i].0)] == Joint(list[i].1.scoreType, list[i].1.challengeStyle, SurvivorsBefore(list, problems, i))
    {
      var k := SurvivorsBefore(list, problems, i);
      assert Numbered(survivors)[k].0 == list[i].0;
    }
  }

  lemma RowOfSurvivor(joints: map<(int, int), Joint>, contest: int, list: ProList, problems: map<int, int>, survivors: ProList, x: int)
    requires RowsAre(joints, contest, Numbered(survivors)) && (contest, x) in joints
    requires forall e :: e in survivors <==> e in list && ProFilter(problems)(e.0)
    ensures exists i: nat :: Survives(list, problems, i) && list[i].0 == x
  {
    var rows := Numbered(survivors);
    var k :| 0 <= k < |rows| && rows[k].0 == x;
    assert survivors[k] in survivors;
    var i :| 0 <= i < |list| && list[i] == survivors[k];
    assert Survives(list, problems, i);
  }

  /** The error fits the i-th listed problem: it is missing, or it is hidden. */
  ghost predicate Fits(e: UpdateError, list: ProList, problems: map<int, int>, i: nat)
    requires i < |list|
  {
    var pro := list[i].0;
    (e == ProblemNotFound(pro) && pro !in problems) || (e == HiddenProblem(pro) && pro in problems && problems[pro] == 2)
  }

  /** One error for each missing and each hidden problem of the list, of that kind. */
  ghost predicate ProblemsReported(errors: seq<UpdateError>, list: ProList, problems: map<int, int>) {
    && Distinct(errors)
    && forall e :: e in errors <==> exists i :: 0 <= i < |list| && Fits(e, list, problems, i)
  }

  lemma DroppedIsReported(list: ProList, problems: map<int, int>)
    requires DistinctKeys(list)
    ensures ProblemsReported(ProErrors(list, problems), list, problems)
  {
    OneErrorPerDroppedProblem(list, problems);
    var errors, ok := ProErrors(list, problems), ProFilter(problems);
    KeysByPosition(list);
    hide ProErrors, DistinctKeys, NameDropped, Distinct, Keys;
    NamedOnce(errors, list, ok);
    forall e: UpdateError
      ensures e in errors <==> exists i :: 0 <= i < |list| && Fits(e, list, problems, i)
    {
      NamedKeys(errors, list, ok, ErrorKey(e));
      if e in errors {
        var i :| 0 <= i < |list| && list[i].0 == ErrorKey(e);
        assert Fits(e, list, problems, i);
      }
    }
  }

  /** The requested accounts and the creator, as far as they exist, with their status; the creator is an admin. */
  ghost predicate UsersStored(users: map<(int, int), Status>, contest: int, creator: int, requested: UserList, accounts: set<int>) {
    && (forall acct :: (contest, acct) in users <==>
          acct in accounts && (acct == creator || exists i :: 0 <= i < |requested| && requested[i].0 == acct))
    && (creator in accounts ==> users[(contest, creator)] == Admin)
    && (forall i :: 0 <= i < |requested| && requested[i].0 in accounts && requested[i].0 != creator ==>
          users[(contest, requested[i].0)] == requested[i].1)
  }

  lemma SurvivorsAreStored(users: map<(int, int), Status>, contest: int, creator: int, requested: UserList, accounts: set<int>)
    requires DistinctKeys(requested)
    requires RowsAre(users, contest, Surviving(WithCreator(requested, creator), UserFilter(accounts)))
    ensures UsersStored(users, contest, creator, requested, accounts)
  {
    var list := WithCreator(requested, creator);
    var rows := Surviving(list, UserFilter(accounts));
    WithCreatorEntries(requested, creator);
    SurvivingMembers(list, UserFilter(accounts));
    hide Surviving, WithCreator, DistinctKeys;
    forall acct | (contest, acct) in users
      ensures acct in accounts && (acct == creator || exists i :: 0 <= i < |requested| && requested[i].0 == acct)
    {
      var k :| 0 <= k < |rows| && rows[k].0 == acct;
      assert rows[k] in rows;
    }
    if creator in accounts {
      RowAt(users, contest, rows, (creator, Admin));
    }
    forall i | 0 <= i < |requested| && requested[i].0 in accounts && requested[i].0 != creator
      ensures (contest, requested[i].0) in users && users[(contest, requested[i].0)] == requested[i].1
    {
      assert requested[i] in requested;
      RowAt(users, contest, rows, requested[i]);
    }
  }

  /** One error for each missing account, the creator included. */
  ghost predicate UsersReported(errors: seq<UpdateError>, creator: int, requested: UserList, accounts: set<int>) {
    && Distinct(errors)
    && forall e :: e in errors <==>
         e.AccountNotFound? && e.acct !in accounts && (e.acct == creator || exists i :: 0 <= i < |requested| && requested[i].0 == e.acct)
  }

  lemma CreatorKeys(creator: int, requested: UserList)
    requires DistinctKeys(requested)
    ensures Keys(WithCreator(requested, creator)) == Keys(requested) + {creator}
  {
    WithCreatorEntries(requested, creator);
    hide WithCreator;
    var list := WithCreator(requested, creator);
    assert (creator, Admin) in list;
    forall e | e in requested
      ensures e.0 in Keys(list)
    {
      assert e.0 != creator ==> e in list;
    }
  }

  /** The keys the errors name. */
  lemma NamedKeys<T>(errors: seq<UpdateError>, list: seq<(int, T)>, ok: int -> bool, x: int)
    requires NameDropped(errors, list, ok)
    ensures (exists e :: e in errors && ErrorKey(e) == x) <==> x in Keys(list) && !ok(x)
  {
    KeysByPosition(list);
    hide Keys, ErrorKey;
    if x in Keys(list) && !ok(x) {
      var i :| 0 <= i < |list| && list[i].0 == x;
      var j :| 0 <= j < |errors| && ErrorKey(errors[j]) == list[i].0;
      assert errors[j] in errors;
    }
  }

  lemma NamedOnce<T>(errors: seq<UpdateError>, list: seq<(int, T)>, ok: int -> bool)
    requires NameDropped(errors, list, ok)
    ensures Distinct(errors)
  {
    hide ErrorKey;
  }

  lemma MissingAreReported(creator: int, requested: UserList, accounts: set<int>)
    requires DistinctKeys(requested)
    ensures UsersReported(UserErrors(WithCreator(requested, creator), accounts), creator, requested, accounts)
  {
    var list, ok := WithCreator(requested, creator), UserFilter(accounts);
    var errors := UserErrors(list, accounts);
    WithCreatorEntries(requested, creator);
    OneErrorPerDroppedUser(list, accounts);
    CreatorKeys(creator, requested);
    KeysByPosition(requested);
    hide UserErrors, WithCreator, DistinctKeys, Keys, NameDropped, Distinct;
    NamedOnce(errors, list, ok);
    forall e: UpdateError
      ensures e in errors <==> e.AccountNotFound? && e.acct !in accounts && (e.acct in Keys(requested) || e.acct == creator)
    {
      NamedKeys(errors, list, ok, ErrorKey(e));
    }
  }

  /** contest_problem_joints and contest_users. */
  class Tables {
    var joints: map<(int, int), Joint>
    var users: map<(int, int), Status>

    constructor (joints: map<(int, int), Joint>, users: map<(int, int), Status>)
      ensures this.joints == joints && this.users == users
    {
      this.joints := joints;
      this.users := users;
    }

    /**
     The problem list part: afterwards the contest's rows are the surviving list, numbered in list
     order; entries that were dropped are reported; other contests keep their rows.
     */
    method UpdateProblems(contest: int, list: ProList, problems: map<int, int>)
      returns (survivors: ProList, errors: seq<UpdateError>)
      requires DistinctKeys(list)
      modifies this
      ensures survivors == Surviving(list, ProFilter(problems)) && errors == ProErrors(list, problems)
      ensures RowsAre(joints, contest, Numbered(survivors))
      ensures OthersUnchanged(old(joints), joints, contest)
      ensures users == old(users)
      ensures ProblemsStored(joints, contest, list, problems) && ProblemsReported(errors, list, problems)
    {
      hide Midway, Surviving, ProErrors, RowsAre, OthersUnchanged, ProblemsStored, ProblemsReported;
      var existing := set k | k in joints && k.0 == contest :: k.1;
      survivors, errors := UpsertProblems(contest, list, problems);
      var current := Keys(Numbered(survivors));
      KeysByPosition(Numbered(survivors));
      DeleteRemoved(old(joints), joints, contest, Numbered(survivors), existing, current);
      joints := WithoutRemoved(joints, contest, existing - current);
      SurvivingIsStored(joints, contest, list, problems);
      DroppedIsReported(list, problems);
    }

    /** The loop over the problem list. */
    method UpsertProblems(contest: int, list: ProList, problems: map<int, int>)
      returns (survivors: ProList, errors: seq<UpdateError>)
      requires DistinctKeys(list)
      modifies this
      ensures survivors == Surviving(list, ProFilter(problems)) && errors == ProErrors(list, problems)
      ensures Midway(old(joints), joints, contest, Numbered(survivors))
      ensures users == old(users)
    {
      hide Midway, Surviving, DistinctKeys, ProErrors, Keys;
      survivors, errors := [], [];
      var order := 0;
      NothingYet(joints, contest, problems);
      for i := 0 to |list|
        invariant survivors == Surviving(list[..i], ProFilter(problems)) && errors == ProErrors(list[..i], problems)
        invariant order == |survivors| && users == old(users)
        invariant Midway(old(joints), joints, contest, Numbered(survivors))
      {
        var (pro, v) := list[i];
        assert list[..i + 1] == list[..i] + [list[i]];
        SurvivingAdd(list[..i], list[i], ProFilter(problems));
        ProErrorsAdd(list[..i], list[i], problems);
        if pro !in problems {
          errors := errors + [ProblemNotFound(pro)];
          continue;
        }
        if problems[pro] == STATUS_HIDDEN {
          errors := errors + [HiddenProblem(pro)];
          continue;
        }
        PrefixDistinct(list, i);
        SurvivorsLackKey(list[..i], list[i], ProFilter(problems));
        Upsert(old(joints), joints, contest, Numbered(survivors), pro, Joint(v.scoreType, v.challengeStyle, order));
        assert Numbered(survivors + [list[i]]) == Numbered(survivors) + [(pro, Joint(v.scoreType, v.challengeStyle, order))];
        joints := joints[(contest, pro) := Joint(v.scoreType, v.challengeStyle, order)];
        survivors := survivors + [list[i]];
        order := order + 1;
      }
      assert list[..|list|] == list;
    }

    /**
     The user list part: the creator is stored as an admin when the account exists, unknown
     accounts are reported, everybody else keeps the listed status.
     */
    method UpdateUsers(contest: int, creator: int, requested: UserList, accounts: set<int>)
      returns (survivors: UserList, errors: seq<UpdateError>)
      requires DistinctKeys(requested)
      modifies this
      ensures survivors == Surviving(WithCreator(requested, creator), UserFilter(accounts))
      ensures errors == UserErrors(WithCreator(requested, creator), accounts)
      ensures RowsAre(users, contest, survivors)
      ensures UsersStored(users, contest, creator, requested, accounts) && UsersReported(errors, creator, requested, accounts)
      ensures OthersUnchanged(old(users), users, contest)
      ensures joints == old(joints)
    {
      hide Midway, Surviving, UserErrors, RowsAre, OthersUnchanged, UsersStored, UsersReported;
      var list := WithCreator(requested, creator);
      WithCreatorEntries(requested, creator);
      var existing := set k | k in users && k.0 == contest :: k.1;
      survivors, errors := UpsertUsers(contest, list, accounts);
      var current := Keys(survivors);
      KeysByPosition(survivors);
      DeleteRemoved(old(users), users, contest, survivors, existing, current);
      users := WithoutRemoved(users, contest, existing - current);
      SurvivorsAreStored(users, contest, creator, requested, accounts);
      MissingAreReported(creator, requested, accounts);
    }

    /** The loop over the user list. */
    method UpsertUsers(contest: int, list: UserList, accounts: set<int>)
      returns (survivors: UserList, errors: seq<UpdateError>)
      requires DistinctKeys(list)
      modifies this
      ensures survivors == Surviving(list, UserFilter(accounts)) && errors == UserErrors(list, accounts)
      ensures Midway(old(users), users, contest, survivors)
      ensures joints == old(joints)
    {
      hide Midway, Surviving, DistinctKeys, UserErrors, Keys;
      survivors, errors := [], [];
      NobodyYet(users, contest, accounts);
      for i := 0 to |list|
        invariant survivors == Surviving(list[..i], UserFilter(accounts)) && errors == UserErrors(list[..i], accounts)
        invariant joints == old(joints)
        invariant Midway(old(users), users, contest, survivors)
      {
        var (acct, status) := list[i];
        assert list[..i + 1] == list[..i] + [list[i]];
        SurvivingAdd(list[..i], list[i], UserFilter(accounts));
        UserErrorsAdd(list[..i], list[i], accounts);
        if acct !in accounts {
          errors := errors + [AccountNotFound(acct)];
          continue;
        }
        PrefixDistinct(list, i);
        SurvivorsLackKey(list[..i], list[i], UserFilter(accounts));
        Upsert(old(users), users, contest, survivors, acct, status);
        users := users[(contest, acct) := status];
        survivors := survivors + [list[i]];
      }
      assert list[..|list|] == list;
    }
  }

  lemma RowAt<V>(table: map<(int, int), V>, contest: int, rows: seq<(int, V)>, e: (int, V))
    requires RowsAre(table, contest, rows) && e in rows
    ensures (contest, e.0) in table && table[(contest, e.0)] == e.1
  {
    var k :| 0 <= k < |rows| && rows[k] == e;
  }

  lemma NothingYet(joints: map<(int, int), Joint>, contest: int, problems: map<int, int>)
    ensures Midway(joints, joints, contest, Numbered([]))
    ensures Surviving<ProOptions>([], ProFilter(problems)) == [] && ProErrors([], problems) == []
  {
  }

  lemma NobodyYet(users: map<(int, int), Status>, contest: int, accounts: set<int>)
    ensures Midway(users, users, contest, [])
    ensures Surviving<Status>([], UserFilter(accounts)) == [] && UserErrors([], accounts) == []
  {
  }

  lemma PrefixDistinct<T>(list: seq<(int, T)>, i: nat)
    requires DistinctKeys(list) && i < |list|
    ensures DistinctKeys(list[..i] + [list[i]])
  {
    assert list[..i] + [list[i]] == list[..i + 1];
  }
}
