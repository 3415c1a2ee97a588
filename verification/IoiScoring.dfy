/**
 get_ioi2013_scores and get_ioi2017_scores (src/services/contests.py): the best challenge, and the
 sum over subtasks of the best rate, as ranked queries and as left-to-right folds.
 */
module IoiScoring {
  import opened Collections
  import opened Wrappers
  import opened Scoring

  // ---------------------------------------------------------------- ranking

  /** What a ranking orders by: the total rate, or the rate of one subtask. */
  datatype Measure = Total | Subtask(id: int)

  /** The challenge has a result of this kind. */
  predicate Has(c: Challenge, m: Measure) {
    m.Subtask? ==> m.id in c.subtasks
  }

  function RateOf(c: Challenge, m: Measure): real {
    match m
    case Total => c.rate
    case Subtask(id) => if id in c.subtasks then c.subtasks[id] else 0.0
  }

  /** ORDER BY rate DESC, timestamp ASC */
  predicate RanksBefore(c: Challenge, d: Challenge, m: Measure) {
    RateOf(c, m) > RateOf(d, m) || (RateOf(c, m) == RateOf(d, m) && c.timestamp < d.timestamp)
  }

  /** The row with rank 1. */
  ghost predicate IsBest(rows: Rows, m: Measure, c: Challenge) {
    && c in rows && Has(c, m)
    && forall d :: d in rows && Has(d, m) && d != c ==> RanksBefore(c, d, m)
  }

  ghost predicate IsBestOption(rows: Rows, m: Measure, best: Option<Challenge>) {
    match best
    case None => forall c :: c in rows ==> !Has(c, m)
    case Some(c) => IsBest(rows, m, c)
  }

  lemma BestUnique(rows: Rows, m: Measure, a: Option<Challenge>, b: Option<Challenge>)
    requires IsBestOption(rows, m, a) && IsBestOption(rows, m, b)
    ensures a == b
  {
  }

  /** One step of a running best: only a strictly better rate replaces an earlier one. */
  function Better(best: Option<Challenge>, c: Challenge, m: Measure): Option<Challenge> {
    if Has(c, m) && (best.None? || RateOf(c, m) > RateOf(best.value, m)) then Some(c) else best
  }

  function RunningBest(q: seq<Challenge>, m: Measure): Option<Challenge> {
    if q == [] then None else Better(RunningBest(q[..|q| - 1], m), q[|q| - 1], m)
  }

  /** The fold over the challenges in time order finds the row with rank 1. */
  lemma {:induction false} RunningBestIsRankOne(q: seq<Challenge>, m: Measure)
    requires Chronological(q)
    ensures IsBestOption(SetOf(q), m, RunningBest(q, m))
  {
    if q == [] {
      assert SetOf(q) == {};
    } else {
      ChronologicalPrefix(q);
      RunningBestIsRankOne(q[..|q| - 1], m);
    }
  }

  // ---------------------------------------------------------------- IOI2013

  /** The row of one account in get_ioi2013_scores. */
  ghost predicate IsRow2013(rows: Rows, digits: nat, row: Option<Entry>) {
    match row
    case None => rows == {}
    case Some(e) =>
      exists c :: IsBest(rows, Total, c) && e == Entry(c.chalId, c.timestamp, CountBefore(rows, c), Round(c.rate, digits))
  }

  /** Reads the challenges once, remembering the best and how many came before it. */
  datatype Running2013 = Running2013(seen: nat, best: Option<Challenge>, before: nat)

  function Add2013(r: Running2013, c: Challenge): Running2013 {
    if r.best.None? || c.rate > r.best.value.rate then Running2013(r.seen + 1, Some(c), r.seen)
    else r.(seen := r.seen + 1)
  }

  function Fold2013(q: seq<Challenge>): Running2013 {
    if q == [] then Running2013(0, None, 0) else Add2013(Fold2013(q[..|q| - 1]), q[|q| - 1])
  }

  function FoldRow2013(q: seq<Challenge>, digits: nat): Option<Entry> {
    var r := Fold2013(q);
    if r.best.None? then None
    else Some(Entry(r.best.value.chalId, r.best.value.timestamp, r.before, Round(r.best.value.rate, digits)))
  }

  /** All other rows come before the last one. */
  lemma CountBeforeLast(q: seq<Challenge>)
    requires q != [] && Chronological(q)
    ensures CountBefore(SetOf(q), q[|q| - 1]) == |SetOf(q[..|q| - 1])| == |SetOf(q)| - 1
  {
    ChronologicalPrefix(q);
    assert (set d | d in SetOf(q) && d.timestamp < q[|q| - 1].timestamp) == SetOf(q[..|q| - 1]);
  }

  lemma {:induction false} Fold2013Agrees(q: seq<Challenge>)
    requires Chronological(q)
    ensures Fold2013(q).seen == |SetOf(q)|
    ensures Fold2013(q).best == RunningBest(q, Total)
    ensures Fold2013(q).best.Some? ==> Fold2013(q).best.value in SetOf(q) && Fold2013(q).before == CountBefore(SetOf(q), Fold2013(q).best.value)
    ensures q != [] ==> Fold2013(q).best.Some?
  {
    if q == [] {
      assert SetOf(q) == {};
    } else {
      var p, c := q[..|q| - 1], q[|q| - 1];
      ChronologicalPrefix(q);
      Fold2013Agrees(p);
      var r := Fold2013(p);
      if r.best.Some? {
        LaterRowsDoNotCount(SetOf(p), {c}, r.best.value);
      }
      CountBeforeLast(q);
      hide Chronological, SetOf, CountBefore;
    }
  }

  /** The query's row is what the fold computes: the first challenge with the highest rate. */
  lemma Query2013IsFold(rows: Rows, digits: nat, row: Option<Entry>, q: seq<Challenge>)
    requires Chronological(q) && SetOf(q) == rows
    ensures IsRow2013(rows, digits, row) <==> row == FoldRow2013(q, digits)
  {
    Fold2013Agrees(q);
    RunningBestIsRankOne(q, Total);
    if q != [] {
      assert q[0] in rows;
    } else {
      assert rows == {};
    }
    var best := Fold2013(q).best;
    forall c | IsBest(rows, Total, c)
      ensures best == Some(c)
    {
      BestUnique(rows, Total, best, Some(c));
    }
  }

  /** The challenge the IOI2013 row is about: the earliest of those with the highest rate. */
  ghost predicate FirstOfHighest(rows: Rows, c: Challenge) {
    && c in rows
    && forall d :: d in rows ==> d.rate <= c.rate && (d.rate == c.rate ==> c.timestamp <= d.timestamp)
  }

  ghost function EntryOf(rows: Rows, c: Challenge, digits: nat): Entry {
    Entry(c.chalId, c.timestamp, |set d | d in rows && d.timestamp < c.timestamp|, Round(c.rate, digits))
  }

  /** The IOI2013 row, told of rates and timestamps; the other challenges before that one are its attempts. */
  lemma Row2013Exactly(rows: Rows, digits: nat, row: Option<Entry>)
    requires DistinctTimes(rows)
    ensures IsRow2013(rows, digits, row) <==>
              if row.None? then rows == {} else exists c :: FirstOfHighest(rows, c) && row == Some(EntryOf(rows, c, digits))
  {
    hide Round;
    forall c
      ensures IsBest(rows, Total, c) <==> FirstOfHighest(rows, c)
    {
      BestIsFirstOfHighest(rows, c);
    }
    hide IsBest, FirstOfHighest, DistinctTimes;
  }

  lemma BestIsFirstOfHighest(rows: Rows, c: Challenge)
    requires DistinctTimes(rows)
    ensures IsBest(rows, Total, c) <==> FirstOfHighest(rows, c)
  {
    if IsBest(rows, Total, c) {
      forall d | d in rows
        ensures d.rate <= c.rate && (d.rate == c.rate ==> c.timestamp <= d.timestamp)
      {
        assert d != c ==> RanksBefore(c, d, Total);
      }
    }
  }

  // ---------------------------------------------------------------- IOI2017

  /** best_individual_results: for each subtask with a result, the row with rank 1. */
  ghost predicate IsBestPerSubtask(rows: Rows, subtasks: seq<int>, best: map<int, Challenge>) {
    && (forall s :: s in best ==> s in subtasks && IsBest(rows, Subtask(s), best[s]))
    && (forall s :: s in subtasks && s !in best ==> forall c :: c in rows ==> s !in c.subtasks)
  }

  /** SUM(best_rate) */
  function SumBest(subtasks: seq<int>, best: map<int, Challenge>): real {
    if subtasks == [] then 0.0
    else SumBest(subtasks[..|subtasks| - 1], best) +
         var s := subtasks[|subtasks| - 1]; if s in best then RateOf(best[s], Subtask(s)) else 0.0
  }

  ghost predicate IsLast(best: map<int, Challenge>, id: int, time: int) {
    && (exists s :: s in best && best[s].chalId == id) && (forall s :: s in best ==> best[s].chalId <= id)
    && (exists s :: s in best && best[s].timestamp == time) && (forall s :: s in best ==> best[s].timestamp <= time)
  }

  /** The row of one account in get_ioi2017_scores. */
  ghost predicate IsRow2017(rows: Rows, subtasks: seq<int>, digits: nat, row: Option<Entry>) {
    exists best :: IsBestPerSubtask(rows, subtasks, best) && RowFromBest2017(rows, subtasks, best, digits, row)
  }

  /** aggregated_results and challenge_counts. */
  ghost predicate RowFromBest2017(rows: Rows, subtasks: seq<int>, best: map<int, Challenge>, digits: nat, row: Option<Entry>) {
    match row
    case None => best == map[]
    case Some(e) =>
      && best != map[]
      && IsLast(best, e.chalId, e.timestamp)
      && e.failCnt == |UpTo(rows, e.chalId)|
      && e.score == Round(SumBest(subtasks, best), digits)
  }

  /** The running best of every subtask at once. */
  function AddBest(best: map<int, Challenge>, c: Challenge, subtasks: seq<int>): map<int, Challenge> {
    map s | s in subtasks && (s in best || s in c.subtasks) ::
      if s in c.subtasks && (s !in best || c.subtasks[s] > RateOf(best[s], Subtask(s))) then c
      else if s in best then best[s] else c
  }

  function FoldBest(q: seq<Challenge>, subtasks: seq<int>): map<int, Challenge> {
    if q == [] then map[] else AddBest(FoldBest(q[..|q| - 1], subtasks), q[|q| - 1], subtasks)
  }

  lemma {:induction false} FoldBestPointwise(q: seq<Challenge>, subtasks: seq<int>, s: int)
    requires s in subtasks
    ensures RunningBest(q, Subtask(s)) == if s in FoldBest(q, subtasks) then Some(FoldBest(q, subtasks)[s]) else None
  {
    if q != [] {
      FoldBestPointwise(q[..|q| - 1], subtasks, s);
    }
  }

  lemma {:induction false} FoldBestDomain(q: seq<Challenge>, subtasks: seq<int>)
    ensures forall s :: s in FoldBest(q, subtasks) ==> s in subtasks
  {
  }

  /** One pass over the challenges finds the best result of every subtask, and nothing else does. */
  lemma BestPerSubtaskIsFold(rows: Rows, subtasks: seq<int>, best: map<int, Challenge>, q: seq<Challenge>)
    requires Chronological(q) && SetOf(q) == rows
    ensures IsBestPerSubtask(rows, subtasks, best) <==> best == FoldBest(q, subtasks)
  {
    var fold := FoldBest(q, subtasks);
    FoldBestDomain(q, subtasks);
    forall s | s in subtasks
      ensures IsBestOption(rows, Subtask(s), if s in fold then Some(fold[s]) else None)
    {
      FoldBestPointwise(q, subtasks, s);
      RunningBestIsRankOne(q, Subtask(s));
    }
    forall s | s in subtasks && s !in fold
      ensures forall c :: c in rows ==> s !in c.subtasks
    {
      assert IsBestOption(rows, Subtask(s), None);
      assert forall c :: c in rows ==> !Has(c, Subtask(s));
    }
    assert IsBestPerSubtask(rows, subtasks, fold);
    if IsBestPerSubtask(rows, subtasks, best) {
      BestPerSubtaskUnique(rows, subtasks, best, fold);
    }
  }

  lemma BestPerSubtaskUnique(rows: Rows, subtasks: seq<int>, a: map<int, Challenge>, b: map<int, Challenge>)
    requires IsBestPerSubtask(rows, subtasks, a) && IsBestPerSubtask(rows, subtasks, b)
    ensures a == b
  {
    forall s
      ensures s in a <==> s in b
      ensures s in a ==> a[s] == b[s]
    {
      if s in a {
        assert Has(a[s], Subtask(s));
      }
      if s in b {
        assert Has(b[s], Subtask(s));
      }
      if s in a && s in b {
        BestUnique(rows, Subtask(s), Some(a[s]), Some(b[s]));
      }
    }
  }

  /** The columns the aggregation takes the maximum of. */
  datatype Column = ChalId | Timestamp

  function At(c: Challenge, f: Column): int {
    match f
    case ChalId => c.chalId
    case Timestamp => c.timestamp
  }

  /** MAX over the best results of the listed subtasks. */
  function Highest(subtasks: seq<int>, best: map<int, Challenge>, f: Column): Option<int> {
    if subtasks == [] then None
    else
      var before, s := Highest(subtasks[..|subtasks| - 1], best, f), subtasks[|subtasks| - 1];
      if s in best && (before.None? || At(best[s], f) > before.value) then Some(At(best[s], f)) else before
  }

  /** How many challenges of the list have an id up to `id`. */
  function CountUpTo(q: seq<Challenge>, id: int): nat {
    if q == [] then 0 else CountUpTo(q[..|q| - 1], id) + if q[|q| - 1].chalId <= id then 1 else 0
  }

  /** One pass for the best results, then one over the subtasks and one for the count. */
  function FoldRow2017(q: seq<Challenge>, subtasks: seq<int>, digits: nat): Option<Entry> {
    var best := FoldBest(q, subtasks);
    var id, time := Highest(subtasks, best, ChalId), Highest(subtasks, best, Timestamp);
    if id.None? || time.None? then None
    else Some(Entry(id.value, time.value, CountUpTo(q, id.value), Round(SumBest(subtasks, best), digits)))
  }

  ghost predicate IsHighest(subtasks: seq<int>, best: map<int, Challenge>, f: Column, v: Option<int>) {
    match v
    case None => forall s :: s in subtasks ==> s !in best
    case Some(x) =>
      && (exists s :: s in subtasks && s in best && At(best[s], f) == x)
      && (forall s :: s in subtasks && s in best ==> At(best[s], f) <= x)
  }

  lemma {:induction false} HighestIsMax(subtasks: seq<int>, best: map<int, Challenge>, f: Column)
    ensures IsHighest(subtasks, best, f, Highest(subtasks, best, f))
  {
    if subtasks != [] {
      var before, last := subtasks[..|subtasks| - 1], subtasks[|subtasks| - 1];
      HighestIsMax(before, best, f);
      assert forall s :: s in subtasks <==> s in before || s == last;
    }
  }

  ghost function UpTo(rows: Rows, id: int): Rows {
    set c | c in rows && c.chalId <= id
  }

  lemma UpToAdd(rows: Rows, c: Challenge, id: int)
    requires c !in rows
    ensures |UpTo(rows + {c}, id)| == |UpTo(rows, id)| + if c.chalId <= id then 1 else 0
  {
    assert UpTo(rows + {c}, id) == UpTo(rows, id) + if c.chalId <= id then {c} else {};
  }

  lemma {:induction false} CountUpToCounts(q: seq<Challenge>, id: int)
    requires Chronological(q)
    ensures CountUpTo(q, id) == |UpTo(SetOf(q), id)|
  {
    if q == [] {
      assert UpTo(SetOf(q), id) == {};
    } else {
      hide Chronological, SetOf, UpTo;
      ChronologicalPrefix(q);
      CountUpToCounts(q[..|q| - 1], id);
      UpToAdd(SetOf(q[..|q| - 1]), q[|q| - 1], id);
    }
  }

  /** MAX(chal_id) and MAX(timestamp) are the two highest values. */
  lemma LastIsHighest(subtasks: seq<int>, best: map<int, Challenge>, id: int, time: int)
    requires forall s :: s in best ==> s in subtasks
    ensures IsLast(best, id, time) <==>
              Highest(subtasks, best, ChalId) == Some(id) && Highest(subtasks, best, Timestamp) == Some(time)
  {
    HighestIsMax(subtasks, best, ChalId);
    HighestIsMax(subtasks, best, Timestamp);
  }

  lemma HighestOfNothing(subtasks: seq<int>, best: map<int, Challenge>)
    requires forall s :: s in best ==> s in subtasks
    ensures best == map[] <==> Highest(subtasks, best, ChalId).None?
    ensures best == map[] <==> Highest(subtasks, best, Timestamp).None?
  {
    HighestIsMax(subtasks, best, ChalId);
    HighestIsMax(subtasks, best, Timestamp);
    if best != map[] {
      var s := SomeKey(best);
      assert s in subtasks;
    }
  }

  /** For every set of rows with distinct timestamps the query has exactly the row the fold computes. */
  lemma Query2017IsFold(rows: Rows, subtasks: seq<int>, digits: nat, row: Option<Entry>, q: seq<Challenge>)
    requires Chronological(q) && SetOf(q) == rows
    ensures IsRow2017(rows, subtasks, digits, row) <==> row == FoldRow2017(q, subtasks, digits)
  {
    hide IsBestPerSubtask, Round, SumBest, FoldBest, Highest, IsLast, Chronological, SetOf, CountUpTo, UpTo;
    var best := FoldBest(q, subtasks);
    BestPerSubtaskIsFold(rows, subtasks, best, q);
    FoldBestDomain(q, subtasks);
    HighestOfNothing(subtasks, best);
    forall other | IsBestPerSubtask(rows, subtasks, other)
      ensures other == best
    {
      BestPerSubtaskIsFold(rows, subtasks, other, q);
    }
    forall id, time
      ensures IsLast(best, id, time) <==>
                Highest(subtasks, best, ChalId) == Some(id) && Highest(subtasks, best, Timestamp) == Some(time)
    {
      LastIsHighest(subtasks, best, id, time);
    }
    forall id
      ensures CountUpTo(q, id) == |UpTo(rows, id)|
    {
      CountUpToCounts(q, id);
    }
    assert IsRow2017(rows, subtasks, digits, row) <==> RowFromBest2017(rows, subtasks, best, digits, row);
  }

  /** The best result of one subtask: the earliest of the challenges with its highest rate. */
  ghost predicate FirstOfBest(rows: Rows, s: int, c: Challenge) {
    && c in rows && s in c.subtasks
    && forall d :: d in rows && s in d.subtasks ==>
         d.subtasks[s] <= c.subtasks[s] && (d.subtasks[s] == c.subtasks[s] ==> c.timestamp <= d.timestamp)
  }

  /** For every listed subtask with a result its best one, and nothing else. */
  ghost predicate BestOnes(rows: Rows, subtasks: seq<int>, best: map<int, Challenge>) {
    && (forall s :: s in best <==> s in subtasks && exists c :: c in rows && s in c.subtasks)
    && (forall s :: s in best ==> FirstOfBest(rows, s, best[s]))
  }

  /** The part of one subtask in the sum. */
  ghost function PartOf(best: map<int, Challenge>, s: int): real {
    if s in best && s in best[s].subtasks then best[s].subtasks[s] else 0.0
  }

  /** Adds up from the other end. */
  ghost function SumParts(subtasks: seq<int>, best: map<int, Challenge>): real {
    if subtasks == [] then 0.0 else PartOf(best, subtasks[0]) + SumParts(subtasks[1..], best)
  }

  lemma {:induction false} SumBestSplits(a: seq<int>, b: seq<int>, best: map<int, Challenge>)
    ensures SumBest(a + b, best) == SumBest(a, best) + SumBest(b, best)
  {
    if b == [] {
      assert a + b == a;
    } else {
      assert (a + b)[..|a + b| - 1] == a + b[..|b| - 1];
      SumBestSplits(a, b[..|b| - 1], best);
    }
  }

  lemma {:induction false} SumBestIsSum(subtasks: seq<int>, best: map<int, Challenge>)
    requires forall s :: s in best ==> s in best[s].subtasks
    ensures SumBest(subtasks, best) == SumParts(subtasks, best)
  {
    if subtasks != [] {
      var s, rest := subtasks[0], subtasks[1..];
      assert subtasks == [s] + rest;
      SumBestSplits([s], rest, best);
      assert [s][..0] == [];
      assert SumBest([s], best) == PartOf(best, s);
      SumBestIsSum(rest, best);
    }
  }

  lemma BestOnesExactly(rows: Rows, subtasks: seq<int>, best: map<int, Challenge>)
    requires DistinctTimes(rows)
    ensures IsBestPerSubtask(rows, subtasks, best) <==> BestOnes(rows, subtasks, best)
  {
    forall s, c
      ensures IsBest(rows, Subtask(s), c) <==> FirstOfBest(rows, s, c)
    {
      BestIsFirstOfBest(rows, s, c);
    }
    hide IsBest;
  }

  lemma BestIsFirstOfBest(rows: Rows, s: int, c: Challenge)
    requires DistinctTimes(rows)
    ensures IsBest(rows, Subtask(s), c) <==> FirstOfBest(rows, s, c)
  {
    var m := Subtask(s);
    if IsBest(rows, m, c) {
      forall d | d in rows && s in d.subtasks
        ensures d.subtasks[s] <= c.subtasks[s] && (d.subtasks[s] == c.subtasks[s] ==> c.timestamp <= d.timestamp)
      {
        assert Has(d, m) && (d != c ==> RanksBefore(c, d, m));
      }
    }
    if FirstOfBest(rows, s, c) {
      forall d | d in rows && Has(d, m) && d != c
        ensures RanksBefore(c, d, m)
      {
        assert s in d.subtasks && c.timestamp != d.timestamp;
      }
    }
  }

  ghost predicate Aggregates(rows: Rows, subtasks: seq<int>, best: map<int, Challenge>, digits: nat, row: Option<Entry>) {
    if row.None? then best == map[]
    else
      && (exists s :: s in best && best[s].chalId == row.value.chalId)
      && (exists s :: s in best && best[s].timestamp == row.value.timestamp)
      && (forall s :: s in best ==> best[s].chalId <= row.value.chalId && best[s].timestamp <= row.value.timestamp)
      && row.value.failCnt == |set c | c in rows && c.chalId <= row.value.chalId|
      && row.value.score == Round(SumParts(subtasks, best), digits)
  }

  /**
   The IOI2017 row, told of rates, ids and timestamps: the rounded sum of the best rates, the highest
   id and the latest time among the best results, and the number of challenges up to that id.
   */
  lemma Row2017Exactly(rows: Rows, subtasks: seq<int>, digits: nat, row: Option<Entry>)
    requires DistinctTimes(rows)
    ensures IsRow2017(rows, subtasks, digits, row) <==>
              exists best :: BestOnes(rows, subtasks, best) && Aggregates(rows, subtasks, best, digits, row)
  {
    hide Round, DistinctTimes, SumBest, SumParts;
    forall best
      ensures IsBestPerSubtask(rows, subtasks, best) <==> BestOnes(rows, subtasks, best)
      ensures BestOnes(rows, subtasks, best) ==> SumBest(subtasks, best) == SumParts(subtasks, best)
    {
      BestOnesExactly(rows, subtasks, best);
      if BestOnes(rows, subtasks, best) {
        SumBestIsSum(subtasks, best);
      }
    }
    hide IsBestPerSubtask, BestOnes;
  }

  // ---------------------------------------------------------------- comparing scores

  /** What the scoreboard adds to the account's total: nothing when there is no row. */
  function ScoreOf(row: Option<Entry>): real {
    if row.Some? then row.value.score else 0.0
  }

  ghost predicate NonNegativeRates(rows: Rows) {
    forall c :: c in rows ==> c.rate >= 0.0 && forall s :: s in c.subtasks ==> c.subtasks[s] >= 0.0
  }

  lemma {:induction false} SumBestOfNothing(subtasks: seq<int>)
    ensures SumBest(subtasks, map[]) == 0.0
  {
    if subtasks != [] {
      SumBestOfNothing(subtasks[..|subtasks| - 1]);
    }
  }

  /** The best rates of more rows are at least as good, subtask by subtask. */
  lemma {:induction false} SumBestGrows(all: seq<int>, n: nat, rows: Rows, best: map<int, Challenge>, rows': Rows, best': map<int, Challenge>)
    requires n <= |all| && rows <= rows' && NonNegativeRates(rows')
    requires IsBestPerSubtask(rows, all, best) && IsBestPerSubtask(rows', all, best')
    ensures SumBest(all[..n], best) <= SumBest(all[..n], best')
  {
    if n > 0 {
      SumBestGrows(all, n - 1, rows, best, rows', best');
      assert all[..n][..n - 1] == all[..n - 1];
      var s := all[n - 1];
      assert s in all;
      if s in best {
        assert best[s] in rows' && Has(best[s], Subtask(s));
        assert s in best';
        assert best'[s] == best[s] || RanksBefore(best'[s], best[s], Subtask(s));
      } else if s in best' {
        assert best'[s] in rows' && Has(best'[s], Subtask(s));
      }
    }
  }

  /** The IOI2017 score never falls when challenges are added. */
  lemma Score2017Grows(rows: Rows, rows': Rows, subtasks: seq<int>, digits: nat, row: Option<Entry>, row': Option<Entry>)
    requires rows <= rows' && NonNegativeRates(rows')
    requires IsRow2017(rows, subtasks, digits, row) && IsRow2017(rows', subtasks, digits, row')
    ensures ScoreOf(row) <= ScoreOf(row')
  {
    hide IsBestPerSubtask, NonNegativeRates, Round, IsLast, SumBest;
    var best :| IsBestPerSubtask(rows, subtasks, best) && RowFromBest2017(rows, subtasks, best, digits, row);
    var best' :| IsBestPerSubtask(rows', subtasks, best') && RowFromBest2017(rows', subtasks, best', digits, row');
    SumBestGrows(subtasks, |subtasks|, rows, best, rows', best');
    assert subtasks[..|subtasks|] == subtasks;
    SumBestOfNothing(subtasks);
    RoundOfZero(digits);
    RoundMonotone(SumBest(subtasks, best), SumBest(subtasks, best'), digits);
  }

  /** Adding table rows, moving the cut-off or raising the visible elapsed time only adds challenges. */
  lemma InContestGrows(table: Rows, table': Rows, contest: Contest, acct: int, pro: int,
                       before: int, before': int, visible: Option<int>, visible': Option<int>)
    requires table <= table' && before <= before'
    requires visible'.Some? ==> visible.Some? && visible.value <= visible'.value
    ensures InContest(table, contest, acct, pro, before, visible) <= InContest(table', contest, acct, pro, before', visible')
  {
  }

  /** The sum of one challenge's own subtask rates. */
  function SumRates(c: Challenge, subtasks: seq<int>): real {
    if subtasks == [] then 0.0
    else SumRates(c, subtasks[..|subtasks| - 1]) + RateOf(c, Subtask(subtasks[|subtasks| - 1]))
  }

  /** The sum is that of the single rates, and a subtask without a result adds nothing. */
  lemma {:induction false} RatesAddUp(c: Challenge, a: seq<int>, b: seq<int>)
    ensures SumRates(c, a + b) == SumRates(c, a) + SumRates(c, b)
    ensures |a| == 1 ==> SumRates(c, a) == if a[0] in c.subtasks then c.subtasks[a[0]] else 0.0
  {
    if |a| == 1 {
      assert a[..0] == [];
    }
    if b == [] {
      assert a + b == a;
    } else {
      assert (a + b)[..|a + b| - 1] == a + b[..|b| - 1];
      RatesAddUp(c, a, b[..|b| - 1]);
    }
  }

  lemma {:induction false} OwnSumAtMostBest(all: seq<int>, n: nat, rows: Rows, best: map<int, Challenge>, c: Challenge)
    requires n <= |all| && c in rows && NonNegativeRates(rows) && IsBestPerSubtask(rows, all, best)
    ensures SumRates(c, all[..n]) <= SumBest(all[..n], best)
  {
    if n > 0 {
      OwnSumAtMostBest(all, n - 1, rows, best, c);
      assert all[..n][..n - 1] == all[..n - 1];
      var s := all[n - 1];
      assert s in all;
      if s in c.subtasks {
        assert s in best;
        assert Has(c, Subtask(s));
        assert best[s] == c || RanksBefore(best[s], c, Subtask(s));
      }
    }
  }

  /** IOI2017 never scores below IOI2013 when total rates are sums of non-negative subtask rates. */
  lemma Score2017AtLeast2013(rows: Rows, subtasks: seq<int>, digits: nat, row2013: Option<Entry>, row2017: Option<Entry>)
    requires NonNegativeRates(rows)
    requires forall c :: c in rows ==> c.rate == SumRates(c, subtasks)
    requires IsRow2013(rows, digits, row2013) && IsRow2017(rows, subtasks, digits, row2017)
    ensures ScoreOf(row2013) <= ScoreOf(row2017)
  {
    hide NonNegativeRates, Round, IsLast, SumBest, SumRates;
    var best :| IsBestPerSubtask(rows, subtasks, best) && RowFromBest2017(rows, subtasks, best, digits, row2017);
    SumBestOfNothing(subtasks);
    RoundOfZero(digits);
    assert subtasks[..|subtasks|] == subtasks;
    if row2013.Some? {
      var c :| IsBest(rows, Total, c) && row2013.value.score == Round(c.rate, digits);
      OwnSumAtMostBest(subtasks, |subtasks|, rows, best, c);
      RoundMonotone(c.rate, SumBest(subtasks, best), digits);
    } else {
      assert IsBestPerSubtask({}, subtasks, map[]);
      SumBestGrows(subtasks, |subtasks|, {}, map[], rows, best);
      RoundMonotone(0.0, SumBest(subtasks, best), digits);
    }
  }
}
