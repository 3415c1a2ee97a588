/**
 The reveal points of a flexible contest (src/services/contest_scoreboard.py): between two of them
 nothing on the scoreboard of the approved contestants changes, as far as it is computed from what
 had been submitted when the next reveal was looked up.
 */
module RevealPoints {
  import opened Collections
  import opened Wrappers
  import opened Scoring
  import opened IcpcScoring
  import opened IoiScoring
  import opened ScoreboardConnection
  import Reveal = ScoreboardReveal

  /** The joins and conditions that build_update and get_next_elapsed share. */
  predicate OnSession(contest: Contest, c: Challenge) {
    && c.contestId == contest.contestId
    && c.acctId in contest.sessions
    && c.acctId in contest.users && contest.users[c.acctId] == Approved
    && contest.sessions[c.acctId].start <= c.timestamp < contest.sessions[c.acctId].end
  }

  function Elapsed(contest: Contest, c: Challenge): int
    requires c.acctId in contest.sessions
  {
    c.timestamp - contest.sessions[c.acctId].start
  }

  predicate Judged(c: Challenge) {
    c.state != STATE_JUDGE && c.state != STATE_NOTSTARTED
  }

  /** get_next_elapsed: the least elapsed time in (after, limit] of a judged challenge. */
  ghost predicate IsNextElapsed(table: Rows, contest: Contest, after: int, limit: int, answer: Option<int>) {
    match answer
    case None => forall c :: c in table && OnSession(contest, c) && Judged(c) ==> !(after < Elapsed(contest, c) <= limit)
    case Some(n) =>
      && after < n <= limit
      && (exists c :: c in table && OnSession(contest, c) && Judged(c) && Elapsed(contest, c) == n)
      && (forall c :: c in table && OnSession(contest, c) && Judged(c) && after < Elapsed(contest, c) <= limit ==>
            n <= Elapsed(contest, c))
  }

  /** build_update: the elapsed time published for one challenge. */
  ghost predicate IsPublishedElapsed(table: Rows, contest: Contest, chalId: int, answer: Option<int>) {
    match answer
    case None => forall c :: c in table && c.chalId == chalId ==> !OnSession(contest, c)
    case Some(e) => exists c :: c in table && c.chalId == chalId && OnSession(contest, c) && Elapsed(contest, c) == e
  }

  /** Visible elapsed times from `after` up to, not including, the next reveal point. */
  ghost predicate BeforeNext(v: int, after: int, limit: int, next: Option<int>) {
    after <= v <= limit && (next.Some? ==> v < next.value)
  }

  /**
   What a result publishes is what the query can later find: a judged challenge is a candidate for
   the next reveal exactly when its update carries an elapsed time, and it is the same one.
   */
  lemma PublishedAgreesWithQuery(table: Rows, contest: Contest, c: Challenge, answer: Option<int>, after: int, limit: int)
    requires c in table && Judged(c) && forall d :: d in table && d.chalId == c.chalId ==> d == c
    requires IsPublishedElapsed(table, contest, c.chalId, answer)
    ensures answer.Some? <==> OnSession(contest, c)
    ensures answer.Some? && after < answer.value <= limit ==>
              forall next :: IsNextElapsed(table, contest, after, limit, next) ==> next.Some? && next.value <= answer.value
  {
  }

  /** An approved contestant has submitted the challenge `elapsed` after the start of its own session. */
  ghost predicate SubmittedAt(table: Rows, contest: Contest, c: Challenge, elapsed: int) {
    && c in table && c.contestId == contest.contestId
    && c.acctId in contest.users && contest.users[c.acctId] == Approved && c.acctId in contest.sessions
    && var session := contest.sessions[c.acctId];
       c.timestamp == session.start + elapsed && 0 <= elapsed && c.timestamp < session.end
  }

  /** Such a challenge that has a verdict. */
  ghost predicate RevealedAt(table: Rows, contest: Contest, c: Challenge, elapsed: int) {
    SubmittedAt(table, contest, c, elapsed) && c.state !in {100, 101}
  }

  /** What is published for a challenge is when it was submitted, on the clock of its own session, and nothing if that has no meaning. */
  lemma PublishedExactly(table: Rows, contest: Contest, chalId: int, answer: Option<int>)
    ensures IsPublishedElapsed(table, contest, chalId, answer) <==>
              if answer.Some? then exists c :: SubmittedAt(table, contest, c, answer.value) && c.chalId == chalId
              else forall c, e :: SubmittedAt(table, contest, c, e) ==> c.chalId != chalId
  {
    forall c, e
      ensures SubmittedAt(table, contest, c, e) <==> c in table && OnSession(contest, c) && e == Elapsed(contest, c)
    {
    }
    hide SubmittedAt;
    forall c | c in table && OnSession(contest, c)
      ensures SubmittedAt(table, contest, c, Elapsed(contest, c))
    {
    }
  }

  /** The next reveal point is the least elapsed time after the one asked for and within the limit at which such a challenge was submitted. */
  lemma NextElapsedExactly(table: Rows, contest: Contest, after: int, limit: int, answer: Option<int>)
    ensures IsNextElapsed(table, contest, after, limit, answer) <==>
              && (answer.Some? ==> after < answer.value <= limit && exists c :: RevealedAt(table, contest, c, answer.value))
              && forall c, e :: RevealedAt(table, contest, c, e) && after < e <= limit ==> answer.Some? && answer.value <= e
  {
    forall c, e
      ensures RevealedAt(table, contest, c, e) <==> c in table && OnSession(contest, c) && Judged(c) && e == Elapsed(contest, c)
    {
    }
    hide RevealedAt;
    if c :| c in table && OnSession(contest, c) && Judged(c) && after < Elapsed(contest, c) <= limit {
      assert RevealedAt(table, contest, c, Elapsed(contest, c));
    }
    forall c | c in table && OnSession(contest, c) && Judged(c)
      ensures RevealedAt(table, contest, c, Elapsed(contest, c))
    {
    }
  }

  /** What a page load computes with: the cut-off of the queries and the viewer's elapsed time. */
  datatype Moment = Moment(before: int, visible: int)

  predicate NotAfter(m: Moment, m': Moment) { m.before <= m'.before && m.visible <= m'.visible }

  function PageRows(table: Rows, contest: Contest, acct: int, pro: int, m: Moment): Rows {
    InContest(table, contest, acct, pro, m.before, Some(m.visible))
  }

  function ValidPageRows(table: Rows, contest: Contest, acct: int, pro: int, m: Moment): Rows {
    ValidChallenges(table, contest, acct, pro, m.before, Some(m.visible))
  }

  /** A challenge between the two cut-offs whose elapsed time was visible before it was submitted. */
  predicate Between(contest: Contest, c: Challenge, m: Moment, m': Moment) {
    OnSession(contest, c) && m.before <= c.timestamp < m'.before && Elapsed(contest, c) <= m.visible
  }

  /** A judged challenge of the account and problem that is between the two cut-offs. */
  predicate JudgedBetween(table: Rows, contest: Contest, acct: int, pro: int, m: Moment, m': Moment, c: Challenge) {
    c in table && c.acctId == acct && c.proId == pro && Judged(c) && Between(contest, c, m, m')
  }

  ghost predicate NoneBetween(table: Rows, contest: Contest, acct: int, pro: int, m: Moment, m': Moment) {
    forall c :: !JudgedBetween(table, contest, acct, pro, m, m', c)
  }

  /** The account is an approved contestant of a flexible contest, and the later page load comes before the next reveal point. */
  ghost predicate BeforeReveal(table: Rows, contest: Contest, acct: int, m: Moment, m': Moment, limit: int, next: Option<int>) {
    && contest.flexible && acct in contest.users && contest.users[acct] == Approved
    && NotAfter(m, m')
    && IsNextElapsed(table, contest, m.visible, limit, next) && BeforeNext(m'.visible, m.visible, limit, next)
  }

  lemma RowsGrow(table: Rows, contest: Contest, acct: int, pro: int, m: Moment, m': Moment)
    requires NotAfter(m, m')
    ensures PageRows(table, contest, acct, pro, m) <= PageRows(table, contest, acct, pro, m')
    ensures ValidPageRows(table, contest, acct, pro, m) <= ValidPageRows(table, contest, acct, pro, m')
  {
    InContestGrows(table, table, contest, acct, pro, m.before, m'.before, Some(m.visible), Some(m'.visible));
  }

  /** Before the next reveal point exactly the challenges between the cut-offs, and unjudged ones, can appear. */
  lemma WhatAppears(table: Rows, contest: Contest, acct: int, pro: int, m: Moment, m': Moment, limit: int, next: Option<int>, c: Challenge)
    requires BeforeReveal(table, contest, acct, m, m', limit, next)
    ensures c in PageRows(table, contest, acct, pro, m') && c !in PageRows(table, contest, acct, pro, m) ==> !Judged(c) || Between(contest, c, m, m')
    ensures c in table && c.acctId == acct && c.proId == pro && Between(contest, c, m, m') ==>
              c in PageRows(table, contest, acct, pro, m') && c !in PageRows(table, contest, acct, pro, m)
  {
    if c in PageRows(table, contest, acct, pro, m') {
      assert OnSession(contest, c);
    }
  }

  /** What a later page load adds before the next reveal point is unjudged exactly when no judged challenge lies between the cut-offs. */
  lemma OnlyUnjudgedAppearExactly(table: Rows, contest: Contest, acct: int, pro: int, m: Moment, m': Moment, limit: int, next: Option<int>)
    requires BeforeReveal(table, contest, acct, m, m', limit, next)
    ensures (forall c :: c in PageRows(table, contest, acct, pro, m') && c !in PageRows(table, contest, acct, pro, m) ==> !Judged(c)) <==>
              NoneBetween(table, contest, acct, pro, m, m')
  {
    hide PageRows, BeforeReveal, Between;
    forall c
      ensures JudgedBetween(table, contest, acct, pro, m, m', c) <==>
                c in PageRows(table, contest, acct, pro, m') && c !in PageRows(table, contest, acct, pro, m) && Judged(c)
    {
      RowsAreOwn(table, contest, acct, pro, m', c);
      WhatAppears(table, contest, acct, pro, m, m', limit, next, c);
    }
  }

  lemma RowsAreOwn(table: Rows, contest: Contest, acct: int, pro: int, m: Moment, c: Challenge)
    ensures c in PageRows(table, contest, acct, pro, m) ==> c in table && c.acctId == acct && c.proId == pro && c.timestamp < m.before
    ensures c in ValidPageRows(table, contest, acct, pro, m) <==> c in PageRows(table, contest, acct, pro, m) && c.state !in INVALID_STATES
  {
  }

  // ---------------------------------------------------------------- ICPC

  lemma FirstAcExists(rows: Rows, c: Challenge) returns (f: Challenge)
    requires DistinctTimes(rows) && c in rows && c.state == STATE_AC
    ensures IsFirstAc(rows, f)
  {
    var q := Enumerate(rows);
    FoldAgrees(q, 0, 0);
    f :| IsFirstAc(rows, f);
  }

  /** New challenges after all old ones change the row of an account that has not solved the problem. */
  lemma UnsolvedRowChanges(was: Rows, now: Rows, start: int, penalty: int, row: Option<Entry>, d: Challenge)
    requires was <= now && DistinctTimes(now) && d in now && d !in was
    requires forall c, e :: c in was && e in now && e !in was ==> c.timestamp < e.timestamp
    requires forall c :: c in was ==> c.state != STATE_AC
    requires IsRow(was, start, penalty, row)
    ensures !IsRow(now, start, penalty, row)
  {
    hide RowNumber, SpentTime, DistinctTimes;
    if g :| g in now && g.state == STATE_AC {
      var f := FirstAcExists(now, g);
      if row.Some? {
        var last :| last in was && last.timestamp == row.value.timestamp;
        assert last.timestamp < f.timestamp;
      }
    } else {
      SubsetSize(was + {d}, now);
    }
  }

  ghost predicate NoValidBetween(table: Rows, contest: Contest, acct: int, pro: int, m: Moment, m': Moment) {
    forall c :: c in table && c.acctId == acct && c.proId == pro && c.state !in INVALID_STATES ==> !Between(contest, c, m, m')
  }

  lemma ValidRowsSteady(table: Rows, contest: Contest, acct: int, pro: int, m: Moment, m': Moment, limit: int, next: Option<int>)
    requires BeforeReveal(table, contest, acct, m, m', limit, next)
    ensures ValidPageRows(table, contest, acct, pro, m') == ValidPageRows(table, contest, acct, pro, m) <==> NoValidBetween(table, contest, acct, pro, m, m')
    ensures forall d :: d in ValidPageRows(table, contest, acct, pro, m') && d !in ValidPageRows(table, contest, acct, pro, m) ==> m.before <= d.timestamp
  {
    RowsGrow(table, contest, acct, pro, m, m');
    hide PageRows, ValidPageRows, BeforeReveal;
    forall c
      ensures c in ValidPageRows(table, contest, acct, pro, m') && c !in ValidPageRows(table, contest, acct, pro, m) <==>
                c in table && c.acctId == acct && c.proId == pro && c.state !in INVALID_STATES && Between(contest, c, m, m')
    {
      RowsAreOwn(table, contest, acct, pro, m, c);
      RowsAreOwn(table, contest, acct, pro, m', c);
      WhatAppears(table, contest, acct, pro, m, m', limit, next, c);
    }
  }

  /**
   The ICPC row of every approved contestant is the same until the next reveal point exactly when
   the problem was solved before, or no valid challenge lies between the two cut-offs.
   */
  lemma IcpcRowIsSteadyExactly(table: Rows, contest: Contest, acct: int, pro: int, m: Moment, m': Moment,
                               limit: int, next: Option<int>, start: int, row: Option<Entry>)
    requires BeforeReveal(table, contest, acct, m, m', limit, next)
    requires DistinctTimes(ValidPageRows(table, contest, acct, pro, m'))
    requires IsRow(ValidPageRows(table, contest, acct, pro, m), start, contest.penalty, row)
    ensures IsRow(ValidPageRows(table, contest, acct, pro, m'), start, contest.penalty, row) <==>
              || (exists c :: c in ValidPageRows(table, contest, acct, pro, m) && c.state == STATE_AC)
              || NoValidBetween(table, contest, acct, pro, m, m')
  {
    var was, now := ValidPageRows(table, contest, acct, pro, m), ValidPageRows(table, contest, acct, pro, m');
    RowsGrow(table, contest, acct, pro, m, m');
    ValidRowsSteady(table, contest, acct, pro, m, m', limit, next);
    forall c, e | c in was && e in now && e !in was
      ensures c.timestamp < e.timestamp
    {
      RowsAreOwn(table, contest, acct, pro, m, c);
    }
    hide ValidPageRows, IsRow, BeforeReveal, NoValidBetween;
    if c :| c in was && c.state == STATE_AC {
      SolvedRowStays(was, now, start, contest.penalty, row, c);
    } else if now != was {
      var d :| d in now && d !in was;
      UnsolvedRowChanges(was, now, start, contest.penalty, row, d);
    }
  }

  /** New challenges after all old ones do not change the row of an account that has solved the problem. */
  lemma SolvedRowStays(was: Rows, now: Rows, start: int, penalty: int, row: Option<Entry>, c: Challenge)
    requires was <= now && DistinctTimes(now) && c in was && c.state == STATE_AC
    requires forall d, e :: d in was && e in now && e !in was ==> d.timestamp < e.timestamp
    ensures IsRow(was, start, penalty, row) <==> IsRow(now, start, penalty, row)
  {
    assert DistinctTimes(was);
    hide IsRow, RowNumber;
    var f := FirstAcExists(was, c);
    assert now == was + (now - was);
    LaterChallengesDoNotMatter(was, now - was, f, start, penalty, row);
  }

  // ---------------------------------------------------------------- IOI

  /** Results that stand in no judged state score nothing. */
  ghost predicate UnjudgedAreZero(rows: Rows) {
    forall c :: c in rows && !Judged(c) ==> c.rate == 0.0 && forall s :: s in c.subtasks ==> c.subtasks[s] == 0.0
  }

  lemma ScoreIsNonNegative(rows: Rows, digits: nat, row: Option<Entry>)
    requires NonNegativeRates(rows) && IsRow2013(rows, digits, row)
    ensures ScoreOf(row) >= 0.0
  {
    hide Round, CountBefore;
    if row.Some? {
      var c :| IsBest(rows, Total, c) && row.value.score == Round(c.rate, digits);
      RoundOfZero(digits);
      RoundMonotone(0.0, c.rate, digits);
    }
  }

  /** The first best challenge has the highest score. */
  lemma ScoreIsBest2013(rows: Rows, digits: nat, row: Option<Entry>)
    requires IsRow2013(rows, digits, row)
    ensures forall c :: c in rows ==> Round(c.rate, digits) <= ScoreOf(row)
    ensures row.Some? ==> exists c :: c in rows && ScoreOf(row) == Round(c.rate, digits)
    ensures row.None? ==> rows == {} && ScoreOf(row) == 0.0
  {
    hide Round, CountBefore;
    if row.Some? {
      var best :| IsBest(rows, Total, best) && row.value.score == Round(best.rate, digits);
      forall c | c in rows
        ensures Round(c.rate, digits) <= ScoreOf(row)
      {
        assert c == best || RanksBefore(best, c, Total);
        RoundMonotone(c.rate, best.rate, digits);
      }
    }
  }

  /** The IOI2013 score stays exactly when no added challenge scores higher. */
  lemma Score2013Exactly(rows: Rows, rows': Rows, digits: nat, row: Option<Entry>, row': Option<Entry>)
    requires rows <= rows' && NonNegativeRates(rows')
    requires IsRow2013(rows, digits, row) && IsRow2013(rows', digits, row')
    ensures ScoreOf(row) == ScoreOf(row') <==> forall c :: c in rows' && c !in rows ==> Round(c.rate, digits) <= ScoreOf(row)
  {
    hide IsRow2013, Round, ScoreOf, NonNegativeRates;
    RowsNonNegative(rows, rows');
    ScoreIsNonNegative(rows, digits, row);
    ScoreIsNonNegative(rows', digits, row');
    ScoreIsBest2013(rows, digits, row);
    ScoreIsBest2013(rows', digits, row');
    if row.Some? {
      var c :| c in rows && ScoreOf(row) == Round(c.rate, digits);
      assert c in rows';
    }
    if row'.Some? {
      var c' :| c' in rows' && ScoreOf(row') == Round(c'.rate, digits);
    }
  }

  lemma RowsNonNegative(rows: Rows, rows': Rows)
    requires rows <= rows' && NonNegativeRates(rows')
    ensures NonNegativeRates(rows)
  {
  }

  function BestRate(best: map<int, Challenge>, s: int): real {
    if s in best then RateOf(best[s], Subtask(s)) else 0.0
  }

  /** The best rate of a subtask grows, and stays exactly when no added challenge beats it. */
  lemma BestRateExactly(all: seq<int>, s: int, rows: Rows, best: map<int, Challenge>, rows': Rows, best': map<int, Challenge>)
    requires s in all && rows <= rows' && NonNegativeRates(rows')
    requires IsBestPerSubtask(rows, all, best) && IsBestPerSubtask(rows', all, best')
    ensures BestRate(best, s) <= BestRate(best', s)
    ensures BestRate(best, s) == BestRate(best', s) <==> forall c :: c in rows' && c !in rows && s in c.subtasks ==> c.subtasks[s] <= BestRate(best, s)
  {
    var m := Subtask(s);
    if s in best {
      assert best[s] in rows' && Has(best[s], m);
      assert s in best';
    }
    if s in best' {
      var c' := best'[s];
      assert c' in rows' && Has(c', m);
      forall c | c in rows' && s in c.subtasks
        ensures c.subtasks[s] <= BestRate(best', s)
      {
        assert Has(c, m);
        assert c == c' || RanksBefore(c', c, m);
      }
      if c' in rows {
        assert s in best && (best[s] == c' || RanksBefore(best[s], c', m));
      }
    }
  }

  /** Sums that grow subtask by subtask are equal only when every subtask's part is. */
  lemma {:induction false} SumBestEqual(all: seq<int>, n: nat, best: map<int, Challenge>, best': map<int, Challenge>)
    requires n <= |all| && forall s :: s in all ==> BestRate(best, s) <= BestRate(best', s)
    ensures SumBest(all[..n], best) <= SumBest(all[..n], best')
    ensures SumBest(all[..n], best) == SumBest(all[..n], best') <==> forall i :: 0 <= i < n ==> BestRate(best, all[i]) == BestRate(best', all[i])
  {
    if n > 0 {
      SumBestEqual(all, n - 1, best, best');
      SumBestUnfold(all, n, best);
      SumBestUnfold(all, n, best');
      assert all[n - 1] in all;
      hide SumBest, BestRate;
    }
  }

  lemma SumBestUnfold(all: seq<int>, n: nat, best: map<int, Challenge>)
    requires 0 < n <= |all|
    ensures SumBest(all[..n], best) == SumBest(all[..n - 1], best) + BestRate(best, all[n - 1])
  {
    assert all[..n][..n - 1] == all[..n - 1];
  }

  ghost predicate Beats(c: Challenge, subtasks: seq<int>, best: map<int, Challenge>) {
    exists s :: s in subtasks && s in c.subtasks && c.subtasks[s] > BestRate(best, s)
  }

  /** The IOI2017 sum stays exactly when no added challenge beats the best result of a subtask. */
  lemma Sum2017Exactly(rows: Rows, rows': Rows, subtasks: seq<int>, best: map<int, Challenge>, best': map<int, Challenge>)
    requires rows <= rows' && NonNegativeRates(rows')
    requires IsBestPerSubtask(rows, subtasks, best) && IsBestPerSubtask(rows', subtasks, best')
    ensures SumBest(subtasks, best) == SumBest(subtasks, best') <==> forall c :: c in rows' && c !in rows ==> !Beats(c, subtasks, best)
  {
    forall s | s in subtasks
      ensures BestRate(best, s) <= BestRate(best', s)
      ensures BestRate(best, s) == BestRate(best', s) <==> forall c :: c in rows' && c !in rows && s in c.subtasks ==> c.subtasks[s] <= BestRate(best, s)
    {
      BestRateExactly(subtasks, s, rows, best, rows', best');
    }
    hide BestRate, SumBest, IsBestPerSubtask, NonNegativeRates;
    SumBestEqual(subtasks, |subtasks|, best, best');
    assert subtasks[..|subtasks|] == subtasks;
    assert forall s :: s in subtasks <==> exists i :: 0 <= i < |subtasks| && subtasks[i] == s;
  }

  /**
   The IOI2013 score of every approved contestant is the same until the next reveal point exactly
   when no judged challenge between the two cut-offs scores higher.
   */
  lemma Ioi2013IsSteadyExactly(table: Rows, contest: Contest, acct: int, pro: int, m: Moment, m': Moment,
                               limit: int, next: Option<int>, digits: nat, row: Option<Entry>, row': Option<Entry>)
    requires BeforeReveal(table, contest, acct, m, m', limit, next) && NonNegativeRates(table) && UnjudgedAreZero(table)
    requires IsRow2013(PageRows(table, contest, acct, pro, m), digits, row)
    requires IsRow2013(PageRows(table, contest, acct, pro, m'), digits, row')
    ensures ScoreOf(row) == ScoreOf(row') <==>
              forall c :: JudgedBetween(table, contest, acct, pro, m, m', c) ==> Round(c.rate, digits) <= ScoreOf(row)
  {
    var was, now := PageRows(table, contest, acct, pro, m), PageRows(table, contest, acct, pro, m');
    RowsGrow(table, contest, acct, pro, m, m');
    PageRowsNonNegative(table, contest, acct, pro, m);
    PageRowsNonNegative(table, contest, acct, pro, m');
    ScoreIsNonNegative(was, digits, row);
    RoundOfZero(digits);
    hide PageRows, IsRow2013, Round, NonNegativeRates, BeforeReveal, ScoreOf, Between;
    Score2013Exactly(was, now, digits, row, row');
    forall c
      ensures c in now && c !in was ==> !Judged(c) || JudgedBetween(table, contest, acct, pro, m, m', c)
      ensures JudgedBetween(table, contest, acct, pro, m, m', c) ==> c in now && c !in was
    {
      WhatAppears(table, contest, acct, pro, m, m', limit, next, c);
      RowsAreOwn(table, contest, acct, pro, m', c);
    }
    forall c | c in now && c !in was && !Judged(c)
      ensures Round(c.rate, digits) <= ScoreOf(row)
    {
      RowsAreOwn(table, contest, acct, pro, m', c);
    }
  }

  lemma PageRowsNonNegative(table: Rows, contest: Contest, acct: int, pro: int, m: Moment)
    requires NonNegativeRates(table)
    ensures NonNegativeRates(PageRows(table, contest, acct, pro, m))
  {
  }

  /**
   The sum behind the IOI2017 score of every approved contestant is the same until the next reveal
   point exactly when no judged challenge between the two cut-offs beats the best result of a subtask.
   */
  lemma Ioi2017IsSteadyExactly(table: Rows, contest: Contest, acct: int, pro: int, m: Moment, m': Moment,
                               limit: int, next: Option<int>, subtasks: seq<int>, best: map<int, Challenge>, best': map<int, Challenge>)
    requires BeforeReveal(table, contest, acct, m, m', limit, next) && NonNegativeRates(table) && UnjudgedAreZero(table)
    requires IsBestPerSubtask(PageRows(table, contest, acct, pro, m), subtasks, best)
    requires IsBestPerSubtask(PageRows(table, contest, acct, pro, m'), subtasks, best')
    ensures SumBest(subtasks, best) == SumBest(subtasks, best') <==>
              forall c :: JudgedBetween(table, contest, acct, pro, m, m', c) ==> !Beats(c, subtasks, best)
  {
    var was, now := PageRows(table, contest, acct, pro, m), PageRows(table, contest, acct, pro, m');
    RowsGrow(table, contest, acct, pro, m, m');
    PageRowsNonNegative(table, contest, acct, pro, m);
    PageRowsNonNegative(table, contest, acct, pro, m');
    forall s
      ensures BestRate(best, s) >= 0.0
    {
      if s in best {
        assert best[s] in was;
      }
    }
    hide PageRows, NonNegativeRates, BeforeReveal, Between, IsBestPerSubtask, SumBest;
    Sum2017Exactly(was, now, subtasks, best, best');
    forall c
      ensures c in now && c !in was ==> !Beats(c, subtasks, best) || JudgedBetween(table, contest, acct, pro, m, m', c)
      ensures JudgedBetween(table, contest, acct, pro, m, m', c) ==> c in now && c !in was
    {
      WhatAppears(table, contest, acct, pro, m, m', limit, next, c);
      RowsAreOwn(table, contest, acct, pro, m', c);
    }
  }

  // ---------------------------------------------------------------- the board

  datatype ProblemScore = Icpc(pro: int) | Ioi2013(pro: int, digits: nat) | Ioi2017(pro: int, digits: nat, subtasks: seq<int>)

  /** start_time of account_windows. */
  function StartOf(contest: Contest, acct: int): int {
    var w := AccountWindow(contest, acct);
    if w.Some? then w.value.start else contest.start
  }

  /** The row of one account for one problem, by the problem's score type. */
  ghost predicate IsScoreRow(table: Rows, contest: Contest, acct: int, p: ProblemScore, m: Moment, row: Option<Entry>) {
    match p
    case Icpc(pro) => IsRow(ValidPageRows(table, contest, acct, pro, m), StartOf(contest, acct), contest.penalty, row)
    case Ioi2013(pro, digits) => IsRow2013(PageRows(table, contest, acct, pro, m), digits, row)
    case Ioi2017(pro, digits, subtasks) => IsRow2017(PageRows(table, contest, acct, pro, m), subtasks, digits, row)
  }

  /**
   What an ICPC problem costs an account that has solved it by the time of a page load: the whole
   minutes since the start of its own window and one penalty per failed challenge before.
   */
  lemma IcpcCostOfAccount(table: Rows, contest: Contest, acct: int, pro: int, m: Moment, start: int, end: int, f: Challenge, row: Option<Entry>)
    requires Scored(contest, acct, start, end) && IsScoreRow(table, contest, acct, Icpc(pro), m, row)
    requires var rows := ValidPageRows(table, contest, acct, pro, m);
             && DistinctTimes(rows) && f in rows && f.state == STATE_AC
             && forall d :: d in rows && d.state == STATE_AC ==> f.timestamp <= d.timestamp
    ensures row.Some? && row.value.timestamp == f.timestamp
    ensures var failures := FailuresBefore(ValidPageRows(table, contest, acct, pro, m), f);
            row.value.failCnt == failures && IsCost(row.value.score, f.timestamp - start, failures, contest.penalty)
  {
    assert StartOf(contest, acct) == start && start <= f.timestamp;
    hide ValidPageRows, IsRow, DistinctTimes, Scored, StartOf, IsCost, FailuresBefore;
    SolvedProblemCosts(ValidPageRows(table, contest, acct, pro, m), start, contest.penalty, f, row);
  }

  ghost predicate AccountTimesDiffer(table: Rows) {
    forall c, d :: c in table && d in table && c.acctId == d.acctId && c != d ==> c.timestamp != d.timestamp
  }

  /** What the steadiness of scores needs of the table. */
  ghost predicate ProperTable(table: Rows) {
    NonNegativeRates(table) && UnjudgedAreZero(table) && AccountTimesDiffer(table)
  }

  lemma ValidTimesDiffer(table: Rows, contest: Contest, acct: int, pro: int, m: Moment)
    requires AccountTimesDiffer(table)
    ensures DistinctTimes(ValidPageRows(table, contest, acct, pro, m))
  {
  }

  lemma IcpcScoreIsSteady(table: Rows, contest: Contest, acct: int, pro: int, m: Moment, m': Moment,
                          limit: int, next: Option<int>, row: Option<Entry>, row': Option<Entry>)
    requires ProperTable(table) && BeforeReveal(table, contest, acct, m, m', limit, next) && NoneBetween(table, contest, acct, pro, m, m')
    requires IsScoreRow(table, contest, acct, Icpc(pro), m, row) && IsScoreRow(table, contest, acct, Icpc(pro), m', row')
    ensures row == row'
  {
    ValidTimesDiffer(table, contest, acct, pro, m);
    forall c | c in table && c.acctId == acct && c.proId == pro && c.state !in INVALID_STATES
      ensures !Between(contest, c, m, m')
    {
      assert !JudgedBetween(table, contest, acct, pro, m, m', c);
    }
    ValidRowsSteady(table, contest, acct, pro, m, m', limit, next);
    hide ValidPageRows, BeforeReveal, IsRow;
    RowUnique(ValidPageRows(table, contest, acct, pro, m), StartOf(contest, acct), contest.penalty, row, row');
  }

  lemma Ioi2017ScoreIsSteady(table: Rows, contest: Contest, acct: int, p: ProblemScore, m: Moment, m': Moment,
                             limit: int, next: Option<int>, row: Option<Entry>, row': Option<Entry>)
    requires p.Ioi2017?
    requires ProperTable(table) && BeforeReveal(table, contest, acct, m, m', limit, next) && NoneBetween(table, contest, acct, p.pro, m, m')
    requires IsScoreRow(table, contest, acct, p, m, row) && IsScoreRow(table, contest, acct, p, m', row')
    ensures ScoreOf(row) == ScoreOf(row')
  {
    hide PageRows, BeforeReveal, Round, IsLast, SumBest, IsBestPerSubtask, ProperTable, NonNegativeRates, UnjudgedAreZero, JudgedBetween;
    var best :| IsBestPerSubtask(PageRows(table, contest, acct, p.pro, m), p.subtasks, best)
      && RowFromBest2017(PageRows(table, contest, acct, p.pro, m), p.subtasks, best, p.digits, row);
    var best' :| IsBestPerSubtask(PageRows(table, contest, acct, p.pro, m'), p.subtasks, best')
      && RowFromBest2017(PageRows(table, contest, acct, p.pro, m'), p.subtasks, best', p.digits, row');
    ProperRates(table);
    Ioi2017IsSteadyExactly(table, contest, acct, p.pro, m, m', limit, next, p.subtasks, best, best');
    SumBestOfNothing(p.subtasks);
    RoundOfZero(p.digits);
  }

  lemma ProperRates(table: Rows)
    requires ProperTable(table)
    ensures NonNegativeRates(table) && UnjudgedAreZero(table)
  {
  }

  /** With no judged challenge between the cut-offs a problem's score is the same until the next reveal point. */
  lemma ScoreIsSteady(table: Rows, contest: Contest, acct: int, p: ProblemScore, m: Moment, m': Moment,
                      limit: int, next: Option<int>, row: Option<Entry>, row': Option<Entry>)
    requires ProperTable(table) && BeforeReveal(table, contest, acct, m, m', limit, next) && NoneBetween(table, contest, acct, p.pro, m, m')
    requires IsScoreRow(table, contest, acct, p, m, row) && IsScoreRow(table, contest, acct, p, m', row')
    ensures ScoreOf(row) == ScoreOf(row') && (p.Icpc? ==> row == row')
  {
    match p
    case Icpc(pro) => IcpcScoreIsSteady(table, contest, acct, pro, m, m', limit, next, row, row');
    case Ioi2013(pro, digits) => Ioi2013IsSteadyExactly(table, contest, acct, pro, m, m', limit, next, digits, row, row');
    case Ioi2017(_, _, _) => Ioi2017ScoreIsSteady(table, contest, acct, p, m, m', limit, next, row, row');
  }

  /** The part of the board that belongs to one account. */
  ghost predicate IsBoardLine(table: Rows, contest: Contest, acct: int, problems: seq<ProblemScore>, m: Moment, rows: seq<Option<Entry>>) {
    |rows| == |problems| && forall i :: 0 <= i < |rows| ==> IsScoreRow(table, contest, acct, problems[i], m, rows[i])
  }

  function SumScores(rows: seq<Option<Entry>>): real {
    if rows == [] then 0.0 else SumScores(rows[..|rows| - 1]) + ScoreOf(rows[|rows| - 1])
  }

  /** Totals of two parts of a line add up, and the total of one problem is its score, or nothing without a row. */
  lemma {:induction false} ScoresAddUp(a: seq<Option<Entry>>, b: seq<Option<Entry>>)
    ensures SumScores(a + b) == SumScores(a) + SumScores(b)
    ensures |a| == 1 ==> SumScores(a) == if a[0].Some? then a[0].value.score else 0.0
  {
    if |a| == 1 {
      assert a[..0] == [];
    }
    if b == [] {
      assert a + b == a;
    } else {
      assert (a + b)[..|a + b| - 1] == a + b[..|b| - 1];
      ScoresAddUp(a, b[..|b| - 1]);
    }
  }

  /**
   The loop of ContestScoreboardHandler.post that adds up an account's problem scores; an account
   whose score start time is not known gets nothing.
   */
  method TotalScore(rows: seq<Option<Entry>>, scoreStart: Option<int>) returns (total: real)
    ensures total == if scoreStart.Some? then SumScores(rows) else 0.0
  {
    total := 0.0;
    for i := 0 to |rows|
      invariant total == if scoreStart.Some? then SumScores(rows[..i]) else 0.0
    {
      assert rows[..i + 1][..i] == rows[..i];
      if rows[i].None? {
        continue;
      }
      if scoreStart.None? {
        continue;
      }
      total := total + rows[i].value.score;
    }
    assert rows[..|rows|] == rows;
  }

  lemma {:induction false} EqualScoresAddUp(was: seq<Option<Entry>>, now: seq<Option<Entry>>)
    requires |was| == |now| && forall i :: 0 <= i < |was| ==> ScoreOf(was[i]) == ScoreOf(now[i])
    ensures SumScores(was) == SumScores(now)
  {
    if was != [] {
      EqualScoresAddUp(was[..|was| - 1], now[..|now| - 1]);
    }
  }

  /** The total of every approved contestant over all problems is steady too. */
  lemma TotalsAreSteady(table: Rows, contest: Contest, acct: int, problems: seq<ProblemScore>, m: Moment, m': Moment,
                        limit: int, next: Option<int>, was: seq<Option<Entry>>, now: seq<Option<Entry>>)
    requires ProperTable(table) && BeforeReveal(table, contest, acct, m, m', limit, next)
    requires forall p :: p in problems ==> NoneBetween(table, contest, acct, p.pro, m, m')
    requires IsBoardLine(table, contest, acct, problems, m, was) && IsBoardLine(table, contest, acct, problems, m', now)
    ensures SumScores(was) == SumScores(now)
    ensures forall i :: 0 <= i < |problems| && problems[i].Icpc? ==> was[i] == now[i]
  {
    hide ProperTable, BeforeReveal, NoneBetween, IsScoreRow, ScoreOf, SumScores;
    forall i | 0 <= i < |problems|
      ensures ScoreOf(was[i]) == ScoreOf(now[i]) && (problems[i].Icpc? ==> was[i] == now[i])
    {
      assert problems[i] in problems;
      ScoreIsSteady(table, contest, acct, problems[i], m, m', limit, next, was[i], now[i]);
    }
    EqualScoresAddUp(was, now);
  }

  /** What ContestScoreboardHandler.post computes with at time `now`; `endTime` is the contest end or the display time. */
  function PageAt(endTime: int, now: int, session: Window): Moment {
    Moment(Min(endTime, now), Reveal.PostVisibleElapsed(endTime, now, session.start, session.end))
  }

  /**
   A page load before the next reveal point shows every approved contestant's line as it was when the
   reveal was looked up, as far as it comes from the challenges that had been submitted by then.
   */
  lemma BoardIsSteadyForViewer(table: Rows, contest: Contest, acct: int, problems: seq<ProblemScore>, viewer: Window,
                               endTime: int, asked: int, later: int, next: Option<int>,
                               was: seq<Option<Entry>>, now: seq<Option<Entry>>)
    requires ProperTable(table) && forall c :: c in table ==> c.timestamp < asked
    requires contest.flexible && acct in contest.users && contest.users[acct] == Approved
    requires viewer.start <= viewer.end && asked <= later
    requires IsNextElapsed(table, contest, PageAt(endTime, asked, viewer).visible, viewer.end - viewer.start, next)
    requires next.Some? ==> PageAt(endTime, later, viewer).visible < next.value
    requires IsBoardLine(table, contest, acct, problems, PageAt(endTime, asked, viewer), was)
    requires IsBoardLine(table, contest, acct, problems, PageAt(endTime, later, viewer), now)
    ensures SumScores(was) == SumScores(now)
    ensures forall i :: 0 <= i < |problems| && problems[i].Icpc? ==> was[i] == now[i]
  {
    var m, m', limit := PageAt(endTime, asked, viewer), PageAt(endTime, later, viewer), viewer.end - viewer.start;
    assert BeforeReveal(table, contest, acct, m, m', limit, next);
    forall p | p in problems
      ensures NoneBetween(table, contest, acct, p.pro, m, m')
    {
      assert forall c :: c in table ==> !(m.before <= c.timestamp < m'.before);
    }
    hide BeforeReveal, NoneBetween, PageAt, IsBoardLine;
    TotalsAreSteady(table, contest, acct, problems, m, m', limit, next, was, now);
  }

  /**
   A challenge submitted after the first page load by a contestant who started later than the viewer
   is visible at once: no reveal point lies between the page loads, but the row appears.
   */
  lemma SubmittedInBetween() returns (table: Rows, contest: Contest, c: Challenge)
    ensures var m, m' := Moment(100, 100), Moment(110, 110);
            && BeforeReveal(table, contest, 5, m, m', 1000, None) && JudgedBetween(table, contest, 5, 1, m, m', c)
            && ValidPageRows(table, contest, 5, 1, m) == {} && ValidPageRows(table, contest, 5, 1, m') == {c}
  {
    c := Challenge(9, 5, 1, 3, 106, STATE_AC, 100.0, map[]);
    table := {c};
    contest := Contest(3, true, 0, 1000, 20, map[5 := Approved], map[5 := Window(105, 205)]);
    assert forall d :: d in table ==> d == c;
    var m, m' := Moment(100, 100), Moment(110, 110);
    assert c in ValidPageRows(table, contest, 5, 1, m');
  }
}
