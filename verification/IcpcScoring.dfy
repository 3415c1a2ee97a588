/**
 get_icpc_scores (src/services/contests.py): the query, with its row numbers, the join with the
 first accepted challenge and the outer join, against a left-to-right fold over the challenges.
 */
module IcpcScoring {
  import opened Wrappers
  import opened Scoring

  // ---------------------------------------------------------------- the query

  /** first_ac_challenges: an accepted row whose number is the least among accepted rows. */
  ghost predicate IsFirstAc(rows: Rows, c: Challenge) {
    && c in rows && c.state == STATE_AC
    && forall d :: d in rows && d.state == STATE_AC ==> RowNumber(rows, c) <= RowNumber(rows, d)
  }

  ghost predicate IsMaxId(rows: Rows, id: int) {
    (exists c :: c in rows && c.chalId == id) && forall c :: c in rows ==> c.chalId <= id
  }

  ghost predicate IsMaxTime(rows: Rows, t: int) {
    (exists c :: c in rows && c.timestamp == t) && forall c :: c in rows ==> c.timestamp <= t
  }

  /** EXTRACT(EPOCH FROM interval)::integer rounds to the nearest second; integer division by 60 truncates. */
  function Minutes(microseconds: int): int {
    if microseconds >= 0 then (microseconds + 500000) / 1000000 / 60
    else -((-microseconds + 500000) / 1000000 / 60)
  }

  /** Whole minutes of the elapsed time, which is first rounded to the nearest second. */
  lemma MinutesAreWhole(microseconds: nat)
    ensures Minutes(microseconds) >= 0 && Minutes(-(microseconds as int)) == -Minutes(microseconds)
    ensures Minutes(microseconds) * 60000000 <= microseconds + 500000 < (Minutes(microseconds) + 1) * 60000000
  {
    var seconds := (microseconds + 500000) / 1000000;
    assert seconds / 60 == Minutes(microseconds);
    assert seconds / 60 * 60 <= seconds < (seconds / 60 + 1) * 60;
  }

  function SpentTime(start: int, penalty: int, acceptedAt: int, failCnt: int): real {
    (Minutes(acceptedAt - start) + failCnt * penalty) as real
  }

  /** The row of one account: first_ac_challenges FULL OUTER JOIN acct_challenge_counts. */
  ghost predicate IsRow(rows: Rows, start: int, penalty: int, row: Option<Entry>) {
    match row
    case None => rows == {}
    case Some(e) =>
      && rows != {}
      && (forall f :: IsFirstAc(rows, f) ==>
            e == Entry(f.chalId, f.timestamp, RowNumber(rows, f) - 1, SpentTime(start, penalty, f.timestamp, RowNumber(rows, f) - 1)))
      && ((forall c :: c in rows ==> c.state != STATE_AC) ==>
            IsMaxId(rows, e.chalId) && IsMaxTime(rows, e.timestamp) && e.failCnt == |rows| && e.score == 0.0)
  }

  // ---------------------------------------------------------------- the fold

  /** What has been seen so far: failures and latest values until the first accepted challenge ends the count. */
  datatype Tally = Counting(failures: nat, latestId: int, latestTime: int) | Solved(entry: Entry)

  function Add(t: Tally, c: Challenge, start: int, penalty: int): Tally {
    match t
    case Solved(_) => t
    case Counting(failures, latestId, _) =>
      if c.state == STATE_AC then
        Solved(Entry(c.chalId, c.timestamp, failures, SpentTime(start, penalty, c.timestamp, failures)))
      else
        Counting(failures + 1, if failures == 0 || c.chalId > latestId then c.chalId else latestId, c.timestamp)
  }

  function Fold(q: seq<Challenge>, start: int, penalty: int): Tally {
    if q == [] then Counting(0, 0, 0) else Add(Fold(q[..|q| - 1], start, penalty), q[|q| - 1], start, penalty)
  }

  function FoldRow(q: seq<Challenge>, start: int, penalty: int): Option<Entry> {
    match Fold(q, start, penalty)
    case Solved(entry) => Some(entry)
    case Counting(failures, latestId, latestTime) =>
      if q == [] then None else Some(Entry(latestId, latestTime, failures, 0.0))
  }

  /** The tally agrees with the relational view of the rows read so far. */
  ghost predicate Agrees(t: Tally, rows: Rows, start: int, penalty: int) {
    match t
    case Counting(failures, latestId, latestTime) =>
      && (forall c :: c in rows ==> c.state != STATE_AC)
      && failures == |rows|
      && (rows != {} ==> IsMaxId(rows, latestId) && IsMaxTime(rows, latestTime))
    case Solved(e) =>
      exists f :: IsFirstAc(rows, f) && e == Entry(f.chalId, f.timestamp, RowNumber(rows, f) - 1,
                                                  SpentTime(start, penalty, f.timestamp, RowNumber(rows, f) - 1))
  }

  /** A later row leaves the first accepted row where it is. */
  lemma FirstAcStays(rows: Rows, c: Challenge, f: Challenge)
    requires IsFirstAc(rows, f) && f.timestamp < c.timestamp
    requires forall d :: d in rows ==> d.timestamp < c.timestamp
    ensures IsFirstAc(rows + {c}, f) && RowNumber(rows + {c}, f) == RowNumber(rows, f)
  {
    LaterRowsDoNotCount(rows, {c}, f);
    forall d | d in rows + {c} && d.state == STATE_AC
      ensures RowNumber(rows + {c}, f) <= RowNumber(rows + {c}, d)
    {
      if d == c {
        RowNumbersIncrease(rows + {c}, f, c);
      } else {
        LaterRowsDoNotCount(rows, {c}, d);
      }
    }
  }

  lemma FirstAcArrives(rows: Rows, c: Challenge)
    requires c.state == STATE_AC && (forall d :: d in rows ==> d.state != STATE_AC)
    requires forall d :: d in rows ==> d.timestamp < c.timestamp
    ensures IsFirstAc(rows + {c}, c) && RowNumber(rows + {c}, c) == |rows| + 1
  {
    assert (set d | d in rows + {c} && d.timestamp <= c.timestamp) == rows + {c};
  }

  lemma {:induction false} FoldAgrees(q: seq<Challenge>, start: int, penalty: int)
    requires Chronological(q)
    ensures Agrees(Fold(q, start, penalty), SetOf(q), start, penalty)
  {
    if q == [] {
      assert SetOf(q) == {};
    } else {
      var p, c := q[..|q| - 1], q[|q| - 1];
      ChronologicalPrefix(q);
      FoldAgrees(p, start, penalty);
      AddAgrees(Fold(p, start, penalty), SetOf(p), c, start, penalty);
    }
  }

  lemma AddAgrees(t: Tally, rows: Rows, c: Challenge, start: int, penalty: int)
    requires Agrees(t, rows, start, penalty) && forall d :: d in rows ==> d.timestamp < c.timestamp
    ensures Agrees(Add(t, c, start, penalty), rows + {c}, start, penalty)
  {
    match t
    case Solved(e) =>
      var f :| IsFirstAc(rows, f) && e == Entry(f.chalId, f.timestamp, RowNumber(rows, f) - 1,
                                                SpentTime(start, penalty, f.timestamp, RowNumber(rows, f) - 1));
      FirstAcStays(rows, c, f);
    case Counting(failures, latestId, latestTime) =>
      if c.state == STATE_AC {
        FirstAcArrives(rows, c);
      } else {
        var after := rows + {c};
        assert c in after;
        assert |after| == |rows| + 1;
        if rows != {} {
          var m :| m in rows && m.chalId == latestId;
          assert m in after;
        }
      }
  }

  /** Accepted rows with equal numbers are the same row. */
  lemma FirstAcUnique(rows: Rows, f: Challenge, g: Challenge)
    requires DistinctTimes(rows) && IsFirstAc(rows, f) && IsFirstAc(rows, g)
    ensures f == g
  {
    if f.timestamp < g.timestamp {
      RowNumbersIncrease(rows, f, g);
    } else if g.timestamp < f.timestamp {
      RowNumbersIncrease(rows, g, f);
    }
  }

  /** The fold returns the row of the query. */
  lemma FoldIsQuery(q: seq<Challenge>, start: int, penalty: int)
    requires Chronological(q)
    ensures IsRow(SetOf(q), start, penalty, FoldRow(q, start, penalty))
  {
    FoldAgrees(q, start, penalty);
    ChronologicalDistinct(q);
    var rows := SetOf(q);
    if q != [] {
      assert q[0] in rows;
    }
    match Fold(q, start, penalty)
    case Solved(e) =>
      var f :| IsFirstAc(rows, f) && e == Entry(f.chalId, f.timestamp, RowNumber(rows, f) - 1,
                                                SpentTime(start, penalty, f.timestamp, RowNumber(rows, f) - 1));
      forall g | IsFirstAc(rows, g)
        ensures g == f
      {
        FirstAcUnique(rows, f, g);
      }
    case Counting(_, _, _) =>
  }

  /** The query has exactly one row to return. */
  lemma RowUnique(rows: Rows, start: int, penalty: int, a: Option<Entry>, b: Option<Entry>)
    requires DistinctTimes(rows) && IsRow(rows, start, penalty, a) && IsRow(rows, start, penalty, b)
    ensures a == b
  {
    if rows != {} && exists c :: c in rows && c.state == STATE_AC {
      var q := Enumerate(rows);
      FoldAgrees(q, start, penalty);
    }
  }

  /** For every set of rows with distinct timestamps the query's row is what the fold computes. */
  lemma QueryIsFold(rows: Rows, start: int, penalty: int, row: Option<Entry>, q: seq<Challenge>)
    requires DistinctTimes(rows) && Chronological(q) && SetOf(q) == rows
    ensures IsRow(rows, start, penalty, row) <==> row == FoldRow(q, start, penalty)
  {
    FoldIsQuery(q, start, penalty);
    if IsRow(rows, start, penalty, row) {
      RowUnique(rows, start, penalty, row, FoldRow(q, start, penalty));
    }
  }

  /** fail_cnt counts exactly the rows before the first accepted one, none of which is accepted. */
  lemma FailuresBeforeFirstAc(rows: Rows, f: Challenge)
    requires DistinctTimes(rows) && IsFirstAc(rows, f)
    ensures RowNumber(rows, f) - 1 == |set d | d in rows && d.state != STATE_AC && d.timestamp < f.timestamp|
    ensures forall d :: d in rows && d.state == STATE_AC ==> f.timestamp <= d.timestamp
  {
    RowNumberIsCountBefore(rows, f);
    forall d | d in rows && d.state == STATE_AC
      ensures f.timestamp <= d.timestamp
    {
      if d.timestamp < f.timestamp {
        RowNumbersIncrease(rows, d, f);
      }
    }
    assert (set d | d in rows && d.timestamp < f.timestamp) == (set d | d in rows && d.state != STATE_AC && d.timestamp < f.timestamp);
  }

  /** The first accepted challenge, told of the timestamps. */
  lemma FirstAcExactly(rows: Rows, f: Challenge)
    requires DistinctTimes(rows)
    ensures IsFirstAc(rows, f) <==>
              f in rows && f.state == STATE_AC && forall d :: d in rows && d.state == STATE_AC ==> f.timestamp <= d.timestamp
  {
    if IsFirstAc(rows, f) {
      FailuresBeforeFirstAc(rows, f);
    } else if f in rows && f.state == STATE_AC && forall d :: d in rows && d.state == STATE_AC ==> f.timestamp <= d.timestamp {
      forall d | d in rows && d.state == STATE_AC
        ensures RowNumber(rows, f) <= RowNumber(rows, d)
      {
        if f.timestamp < d.timestamp {
          RowNumbersIncrease(rows, f, d);
        }
      }
    }
  }

  /** The challenges before f that were not accepted. */
  ghost function FailuresBefore(rows: Rows, f: Challenge): nat {
    |set d | d in rows && d.state != STATE_AC && d.timestamp < f.timestamp|
  }

  ghost function CostOf(minutes: int, failures: int, penalty: int): real {
    (minutes + failures * penalty) as real
  }

  /** Whole minutes of the elapsed microseconds, rounded to the nearest second before, and the penalty once per failure. */
  ghost predicate IsCost(score: real, elapsed: int, failures: int, penalty: int) {
    exists minutes: int ::
      score == CostOf(minutes, failures, penalty) && minutes * 60000000 <= elapsed + 500000 < (minutes + 1) * 60000000
  }

  /**
   What a solved problem costs: the whole minutes of the elapsed time, rounded to the nearest second
   before, and the penalty once for every challenge before the first accepted one.
   */
  lemma SolvedProblemCosts(rows: Rows, start: int, penalty: int, f: Challenge, row: Option<Entry>)
    requires DistinctTimes(rows) && IsRow(rows, start, penalty, row)
    requires f in rows && f.state == STATE_AC && start <= f.timestamp
    requires forall d :: d in rows && d.state == STATE_AC ==> f.timestamp <= d.timestamp
    ensures row.Some? && row.value.chalId == f.chalId && row.value.timestamp == f.timestamp
    ensures row.value.failCnt == FailuresBefore(rows, f)
    ensures IsCost(row.value.score, f.timestamp - start, row.value.failCnt, penalty)
  {
    hide *;
    RowIsThere(rows, start, penalty, f, row);
    FirstAcFailures(rows, f);
    RowOfFirstAc(rows, start, penalty, f, row.value);
    CostInMinutes(row.value.score, f.timestamp - start, row.value.failCnt, penalty);
  }

  lemma FirstAcFailures(rows: Rows, f: Challenge)
    requires DistinctTimes(rows) && f in rows && f.state == STATE_AC
    requires forall d :: d in rows && d.state == STATE_AC ==> f.timestamp <= d.timestamp
    ensures IsFirstAc(rows, f) && RowNumber(rows, f) - 1 == FailuresBefore(rows, f)
  {
    hide RowNumber, DistinctTimes, IsFirstAc;
    FirstAcExactly(rows, f);
    FailuresBeforeFirstAc(rows, f);
  }

  lemma RowIsThere(rows: Rows, start: int, penalty: int, f: Challenge, row: Option<Entry>)
    requires IsRow(rows, start, penalty, row) && f in rows
    ensures row.Some?
  {
    hide IsFirstAc, RowNumber, SpentTime;
  }

  lemma CostInMinutes(score: real, elapsed: nat, failures: int, penalty: int)
    requires score == CostOf(Minutes(elapsed), failures, penalty)
    ensures IsCost(score, elapsed, failures, penalty)
  {
    hide CostOf;
    MinutesAreWhole(elapsed);
  }

  lemma RowOfFirstAc(rows: Rows, start: int, penalty: int, f: Challenge, e: Entry)
    requires IsRow(rows, start, penalty, Some(e)) && IsFirstAc(rows, f)
    ensures e.chalId == f.chalId && e.timestamp == f.timestamp && e.failCnt == RowNumber(rows, f) - 1
    ensures e.score == CostOf(Minutes(f.timestamp - start), e.failCnt, penalty)
  {
    hide IsFirstAc, RowNumber, Minutes, IsMaxId, IsMaxTime;
  }

  /** An account that has not solved the problem has no score; its row counts all its valid challenges and names the latest. */
  lemma UnsolvedProblem(rows: Rows, start: int, penalty: int, row: Option<Entry>)
    requires forall c :: c in rows ==> c.state != STATE_AC
    ensures IsRow(rows, start, penalty, row) <==>
              if rows == {} then row == None
              else
                && row.Some? && row.value.score == 0.0 && row.value.failCnt == |rows|
                && (exists c :: c in rows && c.chalId == row.value.chalId)
                && (exists c :: c in rows && c.timestamp == row.value.timestamp)
                && forall c :: c in rows ==> c.chalId <= row.value.chalId && c.timestamp <= row.value.timestamp
  {
    assert forall f :: !IsFirstAc(rows, f);
  }

  lemma FirstAcUnaffected(rows: Rows, more: Rows, f: Challenge)
    requires DistinctTimes(rows) && IsFirstAc(rows, f)
    requires forall d :: d in more ==> d.timestamp > f.timestamp
    ensures IsFirstAc(rows + more, f)
  {
    FailuresBeforeFirstAc(rows, f);
    hide RowNumber;
    forall d | d in rows + more && d.state == STATE_AC
      ensures RowNumber(rows + more, f) <= RowNumber(rows + more, d)
    {
      assert f.timestamp <= d.timestamp;
      if f.timestamp < d.timestamp {
        RowNumbersIncrease(rows + more, f, d);
      } else {
        assert d == f;
      }
    }
  }

  /** The row of an account that has solved the problem. */
  function SolvedRow(f: Challenge, number: nat, start: int, penalty: int): Entry {
    Entry(f.chalId, f.timestamp, number - 1, SpentTime(start, penalty, f.timestamp, number - 1))
  }

  lemma RowWhenSolved(rows: Rows, f: Challenge, start: int, penalty: int, row: Option<Entry>)
    requires DistinctTimes(rows) && IsFirstAc(rows, f)
    ensures IsRow(rows, start, penalty, row) <==> row == Some(SolvedRow(f, RowNumber(rows, f), start, penalty))
  {
    hide RowNumber, SpentTime, IsMaxId, IsMaxTime, DistinctTimes;
    assert f in rows && f.state == STATE_AC;
    forall g | IsFirstAc(rows, g)
      ensures g == f
    {
      FirstAcUnique(rows, f, g);
    }
    hide IsFirstAc;
  }

  /** Whatever is submitted after the first accepted challenge, the row stays the same. */
  lemma LaterChallengesDoNotMatter(rows: Rows, more: Rows, f: Challenge, start: int, penalty: int, row: Option<Entry>)
    requires DistinctTimes(rows + more) && IsFirstAc(rows, f)
    requires forall d :: d in more ==> d.timestamp > f.timestamp
    ensures IsRow(rows, start, penalty, row) <==> IsRow(rows + more, start, penalty, row)
  {
    assert DistinctTimes(rows);
    hide *;
    FirstAcUnaffected(rows, more, f);
    LaterRowsDoNotCount(rows, more, f);
    RowWhenSolved(rows, f, start, penalty, row);
    RowWhenSolved(rows + more, f, start, penalty, row);
  }
}
