/**
 The topcoder of a problem (src/services/rate.py): a query that first picks each account's best
 challenge and then the best of those, behind a cache that result changes clear.
 */
module Topcoder {
  import opened Wrappers
  import Scoring

  /** A challenge joined with its total result. */
  datatype Row = Row(chalId: int, acctId: int, proId: int, contestId: int, state: int, rate: real, time: int, memory: int)

  type Rows = seq<Row>

  ghost predicate DistinctIds(rows: Rows) {
    forall r, s :: r in rows && s in rows && r.chalId == s.chalId ==> r == s
  }

  /** rate DESC, time ASC, memory ASC, chal_id ASC */
  predicate Precedes(a: Row, b: Row) {
    || a.rate > b.rate
    || (a.rate == b.rate && a.time < b.time)
    || (a.rate == b.rate && a.time == b.time && a.memory < b.memory)
    || (a.rate == b.rate && a.time == b.time && a.memory == b.memory && a.chalId < b.chalId)
  }

  /** The WHERE clause. */
  function Accepted(table: Rows, pro: int): (rows: Rows)
    ensures forall r :: r in rows <==> r in table && r.state == Scoring.STATE_AC && r.contestId == 0 && r.proId == pro
  {
    if table == [] then []
    else
      var rest := Accepted(table[..|table| - 1], pro);
      var r := table[|table| - 1];
      assert table == table[..|table| - 1] + [r];
      if r.state == Scoring.STATE_AC && r.contestId == 0 && r.proId == pro then rest + [r] else rest
  }

  /** ORDER BY ... LIMIT 1 */
  function First(rows: Rows): Option<Row> {
    if rows == [] then None
    else
      var best := First(rows[..|rows| - 1]);
      if best.None? || Precedes(rows[|rows| - 1], best.value) then Some(rows[|rows| - 1]) else best
  }

  function Take(best: map<int, Row>, r: Row): map<int, Row> {
    if r.acctId in best && !Precedes(r, best[r.acctId]) then best else best[r.acctId := r]
  }

  /** DISTINCT ON (acct_id): the first row of every account. */
  function PerAccount(rows: Rows): map<int, Row> {
    if rows == [] then map[] else Take(PerAccount(rows[..|rows| - 1]), rows[|rows| - 1])
  }

  /** The row is there and comes before every other one. */
  ghost predicate IsBest(rows: Rows, r: Row) {
    r in rows && forall s :: s in rows && s != r ==> Precedes(r, s)
  }

  /** The order is total on different challenges, and transitive. */
  lemma PrecedesOrders(a: Row, b: Row, c: Row)
    ensures a.chalId != b.chalId ==> (Precedes(a, b) <==> !Precedes(b, a))
    ensures Precedes(a, b) && Precedes(b, c) ==> Precedes(a, c)
  {
  }

  /** Putting a row behind a list either leaves its best row or makes the new one the best. */
  lemma BestOfOneMore(before: Rows, best: Row, r: Row)
    requires DistinctIds(before + [r]) && IsBest(before, best)
    ensures IsBest(before + [r], if Precedes(r, best) then r else best)
  {
    var rows := before + [r];
    assert forall s :: s in rows <==> s in before || s == r;
    PrecedesOrders(best, r, r);
    if Precedes(r, best) {
      AllBehind(before, best, r);
    }
    hide Precedes;
  }

  lemma FirstOfNothing()
    ensures First([]) == None
  {
  }

  lemma FirstOfOneMore(before: Rows, r: Row)
    ensures var best := First(before);
            First(before + [r]) == if best.None? || Precedes(r, best.value) then Some(r) else best
  {
    assert (before + [r])[..|before|] == before;
    hide Precedes;
  }

  lemma {:induction false} FirstIsBest(rows: Rows)
    requires DistinctIds(rows)
    ensures First(rows).None? <==> rows == []
    ensures First(rows).Some? ==> IsBest(rows, First(rows).value)
  {
    hide Precedes, DistinctIds, IsBest, First;
    FirstOfNothing();
    if rows != [] {
      var before, r := rows[..|rows| - 1], rows[|rows| - 1];
      assert rows == before + [r];
      FirstOfOneMore(before, r);
      DistinctPrefix(before, r);
      FirstIsBest(before);
      if First(before).Some? {
        BestOfOneMore(before, First(before).value, r);
      } else {
        OnlyRowIsBest(r);
      }
    }
  }

  lemma DistinctPrefix(before: Rows, r: Row)
    requires DistinctIds(before + [r])
    ensures DistinctIds(before)
  {
    assert forall s :: s in before ==> s in before + [r];
  }

  lemma OnlyRowIsBest(r: Row)
    ensures IsBest([] + [r], r)
  {
  }

  /** Whoever precedes the best row precedes all rows. */
  lemma AllBehind(rows: Rows, best: Row, r: Row)
    requires IsBest(rows, best) && (best == r || Precedes(r, best))
    ensures forall s :: s in rows && s != r ==> Precedes(r, s)
  {
    forall s | s in rows && s != r
      ensures Precedes(r, s)
    {
      if s != best {
        PrecedesOrders(r, best, s);
      }
    }
    hide Precedes;
  }

  /** Each account is represented by the best of its own rows. */
  ghost predicate Represents(best: map<int, Row>, rows: Rows) {
    && (forall a :: a in best ==> best[a] in rows && best[a].acctId == a)
    && (forall r :: r in rows ==> r.acctId in best && (best[r.acctId] == r || Precedes(best[r.acctId], r)))
  }

  lemma {:induction false} PerAccountRepresents(rows: Rows)
    requires DistinctIds(rows)
    ensures Represents(PerAccount(rows), rows)
  {
    if rows != [] {
      var before, r := rows[..|rows| - 1], rows[|rows| - 1];
      assert rows == before + [r];
      PerAccountRepresents(before);
    }
  }

  /** The second stage: a representative that comes before all other representatives. */
  ghost predicate IsWinner(best: map<int, Row>, r: Row) {
    && r.acctId in best && best[r.acctId] == r
    && forall a :: a in best && best[a] != r ==> Precedes(r, best[a])
  }

  /**
   The two stages together find the single best accepted row outside contests: it exists whenever
   there is such a row, and no other row wins.
   */
  lemma TwoStagesFindGlobalBest(table: Rows, pro: int, r: Row)
    requires DistinctIds(table)
    ensures IsWinner(PerAccount(Accepted(table, pro)), r) <==> IsBest(Accepted(table, pro), r)
    ensures IsBest(Accepted(table, pro), r) <==> First(Accepted(table, pro)) == Some(r)
  {
    var rows := Accepted(table, pro);
    PerAccountRepresents(rows);
    FirstIsBest(rows);
    var best := PerAccount(rows);
    if IsWinner(best, r) {
      forall s | s in rows && s != r
        ensures Precedes(r, s)
      {
        var t := best[s.acctId];
        assert t == s || Precedes(t, s);
      }
    }
    if IsBest(rows, r) {
      assert best[r.acctId] in rows;
    }
  }

  /** The account the query returns, if any. */
  function QueryTopcoder(table: Rows, pro: int): Option<int> {
    var first := First(Accepted(table, pro));
    if first.None? then None else Some(first.value.acctId)
  }

  /** An accepted challenge of the problem outside contests. */
  ghost predicate Solves(table: Rows, pro: int, r: Row) {
    r in table && r.state == Scoring.STATE_AC && r.contestId == 0 && r.proId == pro
  }

  /** Its challenge has the highest rate, of those the shortest time, then the least memory, then the least id. */
  ghost predicate Leads(table: Rows, pro: int, r: Row) {
    && Solves(table, pro, r)
    && forall s :: Solves(table, pro, s) && s != r ==>
         && s.rate <= r.rate
         && (s.rate == r.rate ==> r.time <= s.time)
         && (s.rate == r.rate && s.time == r.time ==> r.memory <= s.memory)
         && (s.rate == r.rate && s.time == r.time && s.memory == r.memory ==> r.chalId < s.chalId)
  }

  /** The query answers with the account of the leading challenge, and with nobody only if nobody has solved the problem. */
  lemma QueryNamesLeader(table: Rows, pro: int)
    requires DistinctIds(table)
    ensures forall acct :: QueryTopcoder(table, pro) == Some(acct) <==> exists r :: Leads(table, pro, r) && r.acctId == acct
    ensures QueryTopcoder(table, pro).None? <==> forall r :: !Solves(table, pro, r)
  {
    var rows := Accepted(table, pro);
    FirstIsBest(rows);
    forall r
      ensures Leads(table, pro, r) <==> First(rows) == Some(r)
    {
      LeaderIsFirst(table, pro, r);
    }
    if rows != [] {
      assert rows[0] in rows && Solves(table, pro, rows[0]);
    }
  }

  lemma LeaderIsFirst(table: Rows, pro: int, r: Row)
    requires DistinctIds(table)
    ensures Leads(table, pro, r) <==> First(Accepted(table, pro)) == Some(r)
  {
    TwoStagesFindGlobalBest(table, pro, r);
    var rows := Accepted(table, pro);
    assert forall s :: s in rows <==> Solves(table, pro, s);
    forall s | s in rows && r in rows && s != r
      ensures s.chalId != r.chalId
    {
    }
  }

  /** The 'pro_topcoder' hash. The methods run without interruption here; TopcoderCache lets them interleave. */
  class RateService {
    var topcoders: map<int, Option<int>>

    constructor ()
      ensures topcoders == map[]
    {
      topcoders := map[];
    }

    /** get_pro_topcoder */
    method GetProTopcoder(table: Rows, pro: int) returns (topcoder: Option<int>)
      modifies this
      ensures pro in old(topcoders) ==> topcoder == old(topcoders)[pro] && topcoders == old(topcoders)
      ensures pro !in old(topcoders) ==>
                topcoder == QueryTopcoder(table, pro) && topcoders == old(topcoders)[pro := topcoder]
      ensures pro !in old(topcoders) && DistinctIds(table) ==>
                && (forall acct :: topcoder == Some(acct) <==> exists r :: Leads(table, pro, r) && r.acctId == acct)
                && (topcoder.None? <==> forall r :: !Solves(table, pro, r))
    {
      if pro in topcoders {
        return topcoders[pro];
      }
      if DistinctIds(table) {
        QueryNamesLeader(table, pro);
      }
      topcoder := QueryTopcoder(table, pro);
      topcoders := topcoders[pro := topcoder];
    }

    /** refresh_pro_topcoder */
    method RefreshProTopcoder(pro: int)
      modifies this
      ensures topcoders == old(topcoders) - {pro}
    {
      topcoders := topcoders - {pro};
    }
  }
}
