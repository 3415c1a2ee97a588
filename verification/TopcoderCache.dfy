/**
 The topcoder cache of one problem when calls interleave (src/services/rate.py): get_pro_topcoder
 waits after reading the cache, after its query and while it stores the answer; a new result is
 written first and its refresh clears the entry later.
 */
module TopcoderCache {
  import opened Wrappers
  import Scoring
  import opened Topcoder

  /** Results are counted; an answer is as old as the number of results its query has seen. */
  datatype Answer = Answer(topcoder: Option<int>, seen: nat)

  /** How far a get_pro_topcoder that missed the cache has got. */
  datatype Get = Missed | Queried(answer: Answer) | Returned

  /** `pending` are the results whose refresh is still to come. */
  datatype World = World(table: Rows, results: nat, cache: Option<Answer>, gets: seq<Get>, pending: set<nat>)

  datatype Event =
    | Result(table: Rows)
    | Refresh(result: nat)
    | Miss
    | Query(get: nat)
    | Store(get: nat)

  ghost predicate Step(pro: int, w: World, event: Event, w': World) {
    match event
    case Result(table) =>
      w' == w.(table := table, results := w.results + 1, pending := w.pending + {w.results + 1})
    case Refresh(result) =>
      result in w.pending && w' == w.(cache := None, pending := w.pending - {result})
    case Miss => w.cache.None? && w' == w.(gets := w.gets + [Missed])
    case Query(i) =>
      && i < |w.gets| && w.gets[i].Missed?
      && w' == w.(gets := w.gets[i := Queried(Answer(QueryTopcoder(w.table, pro), w.results))])
    case Store(i) =>
      && i < |w.gets| && w.gets[i].Queried?
      && w' == w.(cache := Some(w.gets[i].answer), gets := w.gets[i := Returned])
  }

  ghost predicate Init(w: World) {
    w.results == 0 && w.cache.None? && w.gets == [] && w.pending == {}
  }

  ghost predicate Run(pro: int, worlds: seq<World>, events: seq<Event>) {
    && |worlds| == |events| + 1
    && Init(worlds[0])
    && forall i :: 0 <= i < |events| ==> Step(pro, worlds[i], events[i], worlds[i + 1])
  }

  /** An answer that has seen all results is the one the query gives now. */
  ghost predicate Right(pro: int, w: World, a: Answer) {
    a.seen <= w.results && (a.seen == w.results ==> a.topcoder == QueryTopcoder(w.table, pro))
  }

  ghost predicate AnswersAreRight(pro: int, w: World) {
    && (w.cache.Some? ==> Right(pro, w, w.cache.value))
    && (forall i :: 0 <= i < |w.gets| && w.gets[i].Queried? ==> Right(pro, w, w.gets[i].answer))
  }

  lemma {:induction false} ReachableRight(pro: int, worlds: seq<World>, events: seq<Event>, k: nat)
    requires Run(pro, worlds, events) && k < |worlds|
    ensures AnswersAreRight(pro, worlds[k])
  {
    if k > 0 {
      ReachableRight(pro, worlds, events, k - 1);
      assert Step(pro, worlds[k - 1], events[k - 1], worlds[k - 1 + 1]);
    }
  }

  /** The entry, if there is one, is what the query would answer now. */
  ghost predicate Fresh(pro: int, w: World) {
    w.cache.Some? ==> w.cache.value.topcoder == QueryTopcoder(w.table, pro)
  }

  /** The entry, if there is one, has seen every result. */
  ghost predicate UpToDate(w: World) {
    w.cache.Some? ==> w.cache.value.seen == w.results
  }

  // ---------------------------------------------------------------- when an entry is out of date

  lemma {:induction false} ResultsGrow(pro: int, worlds: seq<World>, events: seq<Event>, a: nat, b: nat)
    requires Run(pro, worlds, events) && a <= b < |worlds|
    ensures worlds[a].results <= worlds[b].results
    ensures (forall j :: a <= j < b ==> !events[j].Result?) ==> worlds[a].results == worlds[b].results
    decreases b
  {
    if a < b {
      ResultsGrow(pro, worlds, events, a, b - 1);
      assert Step(pro, worlds[b - 1], events[b - 1], worlds[b - 1 + 1]);
    }
  }

  /** A get has the answer of the one query it made. */
  lemma {:induction false} AnswerOfQuery(pro: int, worlds: seq<World>, events: seq<Event>, k: nat, i: nat)
    requires Run(pro, worlds, events) && k < |worlds| && i < |worlds[k].gets|
    ensures worlds[k].gets[i].Missed? ==> forall q :: 0 <= q < k ==> events[q] != Query(i)
    ensures worlds[k].gets[i].Queried? ==>
              exists q :: 0 <= q < k && events[q] == Query(i) && worlds[k].gets[i].answer.seen == worlds[q].results
                && forall r :: 0 <= r < k && events[r] == Query(i) ==> r == q
  {
    if k > 0 {
      var w, event, w' := worlds[k - 1], events[k - 1], worlds[k];
      assert Step(pro, w, event, worlds[k - 1 + 1]);
      if i < |w.gets| {
        AnswerOfQuery(pro, worlds, events, k - 1, i);
      } else {
        NoQueryYet(pro, worlds, events, k - 1, i);
      }
    }
  }

  lemma {:induction false} NoQueryYet(pro: int, worlds: seq<World>, events: seq<Event>, k: nat, i: nat)
    requires Run(pro, worlds, events) && k < |worlds| && i >= |worlds[k].gets|
    ensures forall q :: 0 <= q < k ==> events[q] != Query(i)
  {
    if k > 0 {
      assert Step(pro, worlds[k - 1], events[k - 1], worlds[k - 1 + 1]);
      NoQueryYet(pro, worlds, events, k - 1, i);
    }
  }

  /** At step s a get stores what it had queried before step x. */
  ghost predicate StoresOlder(events: seq<Event>, x: nat, s: nat) {
    s < |events| && events[s].Store? && exists q :: 0 <= q < x && q < |events| && events[q] == Query(events[s].get)
  }

  ghost predicate Writes(event: Event) { event.Store? || event.Refresh? }

  /** The last write to the entry in [y, k) is such a store. */
  ghost predicate LastStoreIsOlder(events: seq<Event>, x: nat, y: nat, k: nat)
    requires k <= |events|
  {
    exists s :: y < s < k && StoresOlder(events, x, s) && forall r :: s < r < k ==> !Writes(events[r])
  }

  /** A store brings an answer that is out of date exactly when its query came before the last result. */
  lemma StoreExactly(pro: int, worlds: seq<World>, events: seq<Event>, x: nat, s: nat)
    requires Run(pro, worlds, events) && x < s < |events| && events[x].Result? && events[s].Store?
    requires forall j :: x < j < s ==> !events[j].Result?
    ensures UpToDate(worlds[s + 1]) <==> !StoresOlder(events, x, s)
  {
    var i := events[s].get;
    assert Step(pro, worlds[s], events[s], worlds[s + 1]) && Step(pro, worlds[x], events[x], worlds[x + 1]);
    AnswerOfQuery(pro, worlds, events, s, i);
    var q :| 0 <= q < s && events[q] == Query(i) && worlds[s].gets[i].answer.seen == worlds[q].results
      && forall r :: 0 <= r < s && events[r] == Query(i) ==> r == q;
    ResultsGrow(pro, worlds, events, x + 1, s);
    if q < x {
      ResultsGrow(pro, worlds, events, q, x);
    } else {
      ResultsGrow(pro, worlds, events, x + 1, q);
    }
  }

  lemma {:induction false} UpToDateExactly(pro: int, worlds: seq<World>, events: seq<Event>, x: nat, y: nat, k: nat)
    requires Run(pro, worlds, events) && x < y < k < |worlds|
    requires events[x].Result? && forall j :: x < j < k ==> !events[j].Result?
    requires events[y] == Refresh(worlds[x + 1].results)
    ensures UpToDate(worlds[k]) <==> !LastStoreIsOlder(events, x, y, k)
    decreases k
  {
    var w, event, w' := worlds[k - 1], events[k - 1], worlds[k];
    assert Step(pro, w, event, worlds[k - 1 + 1]);
    if k - 1 > y {
      UpToDateExactly(pro, worlds, events, x, y, k - 1);
      if event.Store? {
        StoreExactly(pro, worlds, events, x, k - 1);
      }
      LastStoreStep(events, x, y, k - 1);
    }
  }

  lemma LastStoreStep(events: seq<Event>, x: nat, y: nat, k: nat)
    requires y < k < |events|
    ensures LastStoreIsOlder(events, x, y, k + 1) <==>
              if Writes(events[k]) then StoresOlder(events, x, k) else LastStoreIsOlder(events, x, y, k)
  {
    hide StoresOlder;
    if Writes(events[k]) {
      if LastStoreIsOlder(events, x, y, k + 1) {
        var s :| y < s < k + 1 && StoresOlder(events, x, s) && forall r :: s < r < k + 1 ==> !Writes(events[r]);
        assert s == k;
      }
    } else {
      if LastStoreIsOlder(events, x, y, k + 1) {
        var s :| y < s < k + 1 && StoresOlder(events, x, s) && forall r :: s < r < k + 1 ==> !Writes(events[r]);
        assert s != k by {
          OlderIsWrite(events, x, s);
        }
      }
      if LastStoreIsOlder(events, x, y, k) {
        var s :| y < s < k && StoresOlder(events, x, s) && forall r :: s < r < k ==> !Writes(events[r]);
        assert forall r :: s < r < k + 1 ==> !Writes(events[r]);
      }
    }
  }

  lemma OlderIsWrite(events: seq<Event>, x: nat, s: nat)
    requires StoresOlder(events, x, s)
    ensures Writes(events[s])
  {
  }

  /**
   Once the last result (step x) has been followed by its refresh (step y), the cached entry has seen
   every result exactly unless the last write since then was a get storing what it had queried before
   that result; and an entry that has seen every result is the answer of the query.
   */
  lemma CachedIsCurrentExactly(pro: int, worlds: seq<World>, events: seq<Event>, x: nat, y: nat, k: nat)
    requires Run(pro, worlds, events) && x < y < k < |worlds|
    requires events[x].Result? && forall j :: x < j < k ==> !events[j].Result?
    requires events[y] == Refresh(worlds[x + 1].results)
    ensures UpToDate(worlds[k]) <==> !LastStoreIsOlder(events, x, y, k)
    ensures UpToDate(worlds[k]) ==> Fresh(pro, worlds[k])
  {
    UpToDateExactly(pro, worlds, events, x, y, k);
    ReachableRight(pro, worlds, events, k);
  }

  /** A get that has queried before a result and stores after its refresh leaves the old topcoder cached. */
  lemma StaleAnswerStays(pro: int) returns (worlds: seq<World>, events: seq<Event>)
    ensures Run(pro, worlds, events)
    ensures var last := worlds[|worlds| - 1]; last.pending == {} && !UpToDate(last) && !Fresh(pro, last)
  {
    var r := Row(1, 5, pro, 0, Scoring.STATE_AC, 100.0, 1, 1);
    var w0 := World([], 0, None, [], {});
    var w1 := w0.(gets := [Missed]);
    var w2 := w0.(gets := [Queried(Answer(None, 0))]);
    var w3 := w2.(table := [r], results := 1, pending := {1});
    var w4 := w3.(pending := {});
    var w5 := w4.(cache := Some(Answer(None, 0)), gets := [Returned]);
    assert QueryTopcoder([], pro) == None && QueryTopcoder([r], pro) == Some(5) by {
      OneRow(r, pro);
    }
    hide QueryTopcoder;
    worlds, events := [w0, w1, w2, w3, w4, w5], [Miss, Query(0), Result([r]), Refresh(1), Store(0)];
    assert Step(pro, w0, events[0], w1) && Step(pro, w1, events[1], w2) && Step(pro, w2, events[2], w3);
    assert w3.pending - {1} == {};
    assert Step(pro, w3, events[3], w4) && Step(pro, w4, events[4], w5);
  }

  lemma OneRow(r: Row, pro: int)
    requires r.state == Scoring.STATE_AC && r.contestId == 0 && r.proId == pro
    ensures QueryTopcoder([], pro) == None && QueryTopcoder([r], pro) == Some(r.acctId)
  {
    assert [r][..0] == [];
    assert Accepted([r], pro) == [r];
    assert First([r]) == Some(r);
  }
}
