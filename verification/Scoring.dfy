/**
 The rows the contest scoring queries work on (src/services/contests.py): account windows, the
 challenges inside them, rounding, and chronological enumerations. Timestamps are microseconds and
 no two challenges of one account share one.
 */
module Scoring {
  import opened Collections
  import opened Wrappers

  /** Result states of src/services/chal.py that the queries mention. */
  const STATE_AC: int := 1
  const STATE_JUDGE: int := 100
  const STATE_NOTSTARTED: int := 101
  const INVALID_STATES: set<int> := {9, 10, 11, 12, 100, 101, 103}

  datatype Status = Rejected | Requested | Approved | Admin

  /** A challenge joined with its total result and its subtask results (subtask id to rate). */
  datatype Challenge = Challenge(
    chalId: int, acctId: int, proId: int, contestId: int, timestamp: int,
    state: int, rate: real, subtasks: map<int, real>)

  datatype Window = Window(start: int, end: int)

  /** One contest with its user rows and official sessions. */
  datatype Contest = Contest(
    contestId: int, flexible: bool, start: int, end: int, penalty: int,
    users: map<int, Status>, sessions: map<int, Window>)

  /** A row of a scoring result. */
  datatype Entry = Entry(chalId: int, timestamp: int, failCnt: int, score: real)

  type Rows = set<Challenge>

  /** The account_windows CTE in the official context; None when the account has no row. */
  function AccountWindow(contest: Contest, acct: int): Option<Window> {
    if acct !in contest.users then None
    else
      match contest.users[acct]
      case Approved =>
        if !contest.flexible then Some(Window(contest.start, contest.end))
        else if acct in contest.sessions then Some(contest.sessions[acct])
        else None
      case Admin => Some(Window(contest.start, contest.end))
      case _ => None
  }

  /** The time conditions all three queries share; `visible` is the viewer's elapsed time, if any. */
  predicate InWindow(contest: Contest, c: Challenge, before: int, visible: Option<int>) {
    match AccountWindow(contest, c.acctId)
    case None => false
    case Some(w) =>
      && c.contestId == contest.contestId
      && w.start <= c.timestamp < w.end && c.timestamp < before
      && (visible.Some? ==> c.timestamp <= w.start + visible.value)
  }

  /** The challenges of one account and problem inside the account's window. */
  function InContest(table: Rows, contest: Contest, acct: int, pro: int, before: int, visible: Option<int>): Rows {
    set c | c in table && c.acctId == acct && c.proId == pro && InWindow(contest, c, before, visible)
  }

  /** The valid_challenges CTE of the ICPC query, for one account. */
  function ValidChallenges(table: Rows, contest: Contest, acct: int, pro: int, before: int, visible: Option<int>): Rows {
    set c | c in InContest(table, contest, acct, pro, before, visible) && c.state !in INVALID_STATES
  }

  ghost predicate DistinctTimes(rows: Rows) {
    forall c, d :: c in rows && d in rows && c != d ==> c.timestamp != d.timestamp
  }

  /** Strictly increasing timestamps. */
  ghost predicate Chronological(q: seq<Challenge>) {
    forall i, j :: 0 <= i < j < |q| ==> q[i].timestamp < q[j].timestamp
  }

  ghost function SetOf(q: seq<Challenge>): Rows {
    set c | c in q
  }

  /** The rows with a timestamp up to c's own: ROW_NUMBER() OVER (ORDER BY timestamp). */
  ghost function RowNumber(rows: Rows, c: Challenge): nat {
    |set d | d in rows && d.timestamp <= c.timestamp|
  }

  /** COUNT(*) OVER (ORDER BY timestamp ROWS BETWEEN UNBOUNDED PRECEDING AND 1 PRECEDING) */
  ghost function CountBefore(rows: Rows, c: Challenge): nat {
    |set d | d in rows && d.timestamp < c.timestamp|
  }

  lemma RowNumberIsCountBefore(rows: Rows, c: Challenge)
    requires DistinctTimes(rows) && c in rows
    ensures RowNumber(rows, c) == CountBefore(rows, c) + 1
  {
    var upTo, before := set d | d in rows && d.timestamp <= c.timestamp, set d | d in rows && d.timestamp < c.timestamp;
    assert upTo == before + {c};
  }

  /** Rows that all come later do not change a row number. */
  lemma LaterRowsDoNotCount(rows: Rows, more: Rows, c: Challenge)
    requires forall d :: d in more ==> d.timestamp > c.timestamp
    ensures RowNumber(rows + more, c) == RowNumber(rows, c)
    ensures CountBefore(rows + more, c) == CountBefore(rows, c)
  {
    assert (set d | d in rows + more && d.timestamp <= c.timestamp) == (set d | d in rows && d.timestamp <= c.timestamp);
    assert (set d | d in rows + more && d.timestamp < c.timestamp) == (set d | d in rows && d.timestamp < c.timestamp);
  }

  /** Row numbers follow the timestamps. */
  lemma RowNumbersIncrease(rows: Rows, c: Challenge, d: Challenge)
    requires d in rows && c.timestamp < d.timestamp
    ensures RowNumber(rows, c) < RowNumber(rows, d)
  {
    var a, b := set e | e in rows && e.timestamp <= c.timestamp, set e | e in rows && e.timestamp <= d.timestamp;
    assert a <= b - {d};
    SubsetSize(a, b - {d});
  }

  lemma ChronologicalPrefix(q: seq<Challenge>)
    requires q != [] && Chronological(q)
    ensures Chronological(q[..|q| - 1])
    ensures SetOf(q) == SetOf(q[..|q| - 1]) + {q[|q| - 1]}
    ensures q[|q| - 1] !in SetOf(q[..|q| - 1])
    ensures forall c :: c in SetOf(q[..|q| - 1]) ==> c.timestamp < q[|q| - 1].timestamp
  {
    assert q == q[..|q| - 1] + [q[|q| - 1]];
  }

  /** A chronological list has distinct timestamps. */
  lemma ChronologicalDistinct(q: seq<Challenge>)
    requires Chronological(q)
    ensures DistinctTimes(SetOf(q))
  {
  }

  /** Every set of rows with distinct timestamps can be listed chronologically. */
  lemma {:induction false} Enumerate(rows: Rows) returns (q: seq<Challenge>)
    requires DistinctTimes(rows)
    ensures Chronological(q) && SetOf(q) == rows
    decreases |rows|
  {
    if rows == {} {
      q := [];
    } else {
      var last := Latest(rows);
      var before := Enumerate(rows - {last});
      q := before + [last];
      Append(before, last);
    }
  }

  /** A later challenge behind a chronological list. */
  lemma Append(before: seq<Challenge>, last: Challenge)
    requires Chronological(before) && forall c :: c in SetOf(before) ==> c.timestamp < last.timestamp
    ensures Chronological(before + [last]) && SetOf(before + [last]) == SetOf(before) + {last}
  {
    forall i | 0 <= i < |before|
      ensures before[i].timestamp < last.timestamp
    {
      assert before[i] in SetOf(before);
    }
    assert forall c :: c in before + [last] <==> c in before || c == last;
  }

  lemma {:induction false} Latest(rows: Rows) returns (last: Challenge)
    requires rows != {}
    ensures last in rows && forall c :: c in rows ==> c.timestamp <= last.timestamp
    decreases |rows|
  {
    var c :| c in rows;
    if rows == {c} {
      last := c;
    } else {
      assert rows - {c} != {} by {
        assert !(rows <= {c});
      }
      last := Latest(rows - {c});
      if last.timestamp < c.timestamp {
        last := c;
      }
    }
  }

  // ---------------------------------------------------------------- which challenges count

  /** The account may be scored in this window: an approved contestant in its own session or the fixed contest, an admin at any time of the contest. */
  ghost predicate Scored(contest: Contest, acct: int, start: int, end: int) {
    && acct in contest.users
    && ((start == contest.start && end == contest.end
         && (contest.users[acct] == Admin || (contest.users[acct] == Approved && !contest.flexible)))
        || (contest.users[acct] == Approved && contest.flexible
            && acct in contest.sessions && contest.sessions[acct] == Window(start, end)))
  }

  /** A challenge counts exactly when it was submitted inside a window of its account, before the cut-off, and is visible already. */
  lemma CountsExactly(table: Rows, contest: Contest, acct: int, pro: int, before: int, visible: Option<int>, c: Challenge)
    ensures c in InContest(table, contest, acct, pro, before, visible) <==>
              && c in table && c.acctId == acct && c.proId == pro && c.contestId == contest.contestId && c.timestamp < before
              && exists start, end :: Scored(contest, acct, start, end) && start <= c.timestamp < end
                   && (visible.Some? ==> c.timestamp - start <= visible.value)
    ensures c in ValidChallenges(table, contest, acct, pro, before, visible) <==>
              c in InContest(table, contest, acct, pro, before, visible) && c.state !in {9, 10, 11, 12, 100, 101, 103}
  {
    var w := AccountWindow(contest, acct);
    if w.Some? {
      assert Scored(contest, acct, w.value.start, w.value.end);
    }
    forall start, end | Scored(contest, acct, start, end)
      ensures w == Some(Window(start, end))
    {
    }
  }

  // ---------------------------------------------------------------- rounding

  function Pow10(p: nat): (r: int)
    ensures r >= 1
  {
    if p == 0 then 1 else 10 * Pow10(p - 1)
  }

  /** The nearest integer, halves up, divided back. */
  function Nearest(scaled: real, scale: real): real
    requires scale > 0.0
  {
    (scaled + 0.5).Floor as real / scale
  }

  /** To the nearest multiple of 1 / scale, halves away from zero. */
  function RoundTo(x: real, scale: real): real
    requires scale > 0.0
  {
    if x >= 0.0 then Nearest(x * scale, scale) else -Nearest(-x * scale, scale)
  }

  /** ROUND(numeric, digits) */
  function Round(x: real, digits: nat): real {
    RoundTo(x, Pow10(digits) as real)
  }

  lemma ScaleMonotone(x: real, y: real, scale: real)
    requires x <= y && scale > 0.0
    ensures x * scale <= y * scale && x / scale <= y / scale
  {
  }

  lemma FloorMonotone(a: real, b: real)
    requires a <= b
    ensures a.Floor <= b.Floor
  {
  }

  lemma NearestMonotone(a: real, b: real, scale: real)
    requires a <= b && scale > 0.0
    ensures Nearest(a, scale) <= Nearest(b, scale)
  {
    FloorMonotone(a + 0.5, b + 0.5);
    var low, high := (a + 0.5).Floor as real, (b + 0.5).Floor as real;
    ScaleMonotone(low, high, scale);
  }

  lemma NearestOfZero(scale: real)
    requires scale > 0.0
    ensures Nearest(0.0, scale) == 0.0
  {
  }

  lemma RoundToNonNegative(x: real, scale: real)
    requires x >= 0.0 && scale > 0.0
    ensures RoundTo(x, scale) >= 0.0
  {
    ScaleMonotone(0.0, x, scale);
    NearestOfZero(scale);
    NearestMonotone(0.0, x * scale, scale);
  }

  lemma RoundToOfNonNegative(x: real, scale: real)
    requires x >= 0.0 && scale > 0.0
    ensures RoundTo(x, scale) == Nearest(x * scale, scale)
  {
  }

  lemma RoundToMonotoneUp(x: real, y: real, scale: real)
    requires 0.0 <= x <= y && scale > 0.0
    ensures RoundTo(x, scale) <= RoundTo(y, scale)
  {
    hide Nearest, RoundTo;
    RoundToOfNonNegative(x, scale);
    RoundToOfNonNegative(y, scale);
    ScaleMonotone(x, y, scale);
    NearestMonotone(x * scale, y * scale, scale);
  }

  lemma RoundToNegative(x: real, scale: real)
    requires x < 0.0 && scale > 0.0
    ensures RoundTo(x, scale) == -RoundTo(-x, scale)
  {
    hide Nearest;
  }

  lemma RoundToMonotone(x: real, y: real, scale: real)
    requires x <= y && scale > 0.0
    ensures RoundTo(x, scale) <= RoundTo(y, scale)
  {
    hide RoundTo;
    if x >= 0.0 {
      RoundToMonotoneUp(x, y, scale);
    } else {
      RoundToNegative(x, scale);
      if y < 0.0 {
        RoundToNegative(y, scale);
        RoundToMonotoneUp(-y, -x, scale);
      } else {
        RoundToNonNegative(y, scale);
        RoundToNonNegative(-x, scale);
      }
    }
  }

  /** Rounding keeps the order. */
  lemma RoundMonotone(x: real, y: real, digits: nat)
    requires x <= y
    ensures Round(x, digits) <= Round(y, digits)
  {
    RoundToMonotone(x, y, Pow10(digits) as real);
  }

  lemma RoundOfZero(digits: nat)
    ensures Round(0.0, digits) == 0.0
  {
    NearestOfZero(Pow10(digits) as real);
  }

  // ---------------------------------------------------------------- what rounding means

  /** floor(scaled + 1/2) is a nearest integer, and the upper one of two. */
  lemma NearestIsNear(scaled: real, scale: real) returns (n: int)
    requires scale > 0.0
    ensures Nearest(scaled, scale) == n as real / scale && -0.5 < n as real - scaled <= 0.5
  {
    n := (scaled + 0.5).Floor;
  }

  lemma RoundToIsNearest(x: real, scale: real) returns (n: int)
    requires scale > 0.0
    ensures RoundTo(x, scale) == n as real / scale
    ensures x >= 0.0 ==> -0.5 < n as real - x * scale <= 0.5
    ensures x < 0.0 ==> -0.5 <= n as real - x * scale < 0.5
  {
    hide Nearest;
    if x >= 0.0 {
      RoundToOfNonNegative(x, scale);
      n := NearestIsNear(x * scale, scale);
    } else {
      RoundToNegative(x, scale);
      RoundToOfNonNegative(-x, scale);
      hide RoundTo;
      var up := NearestIsNear(-x * scale, scale);
      n := -up;
      NegatedProduct(x, scale);
      NegatedQuotient(up as real, scale);
      assert n as real == -(up as real);
    }
  }

  /** The rounded value is a nearest multiple of 10^-digits, and of two equally near ones that away from zero. */
  lemma RoundIsNearest(x: real, digits: nat) returns (n: int)
    ensures Round(x, digits) == n as real / Pow10(digits) as real
    ensures x >= 0.0 ==> -0.5 < n as real - x * Pow10(digits) as real <= 0.5
    ensures x < 0.0 ==> -0.5 <= n as real - x * Pow10(digits) as real < 0.5
  {
    hide RoundTo;
    n := RoundToIsNearest(x, Pow10(digits) as real);
  }

  lemma NegatedProduct(a: real, scale: real)
    ensures -a * scale == -(a * scale)
  {
  }

  lemma NegatedQuotient(a: real, scale: real)
    requires scale > 0.0
    ensures -(a / scale) == (-a) / scale
  {
  }

  /** Halves away from zero, to two decimals and to none. */
  lemma RoundExamples()
    ensures Round(2.345, 2) == 2.35 && Round(-2.345, 2) == -2.35 && Round(2.344, 2) == 2.34 && Round(7.5, 0) == 8.0
  {
    assert Pow10(0) == 1 && Pow10(1) == 10 && Pow10(2) == 100;
    assert (235.0).Floor == 235 && (234.9).Floor == 234 && (8.0).Floor == 8;
    assert 2.345 * 100.0 == 234.5 && 2.344 * 100.0 == 234.4;
    assert Nearest(234.5, 100.0) == 2.35 && Nearest(234.4, 100.0) == 2.34;
  }
}
