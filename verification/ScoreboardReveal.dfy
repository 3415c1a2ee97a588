/**
 Delayed scoreboard reveal with atomic handlers (src/handlers/contests/scoreboard.py): in every
 reachable state each finished result the viewer may eventually see has been refreshed, or its
 message is still on the way, or a timer is armed for a moment that is not too late.

 The handlers are the functions of ScoreboardConnection, run without interruption. The viewer's
 session is fixed.
 */
module ScoreboardReveal {
  import opened Collections
  import opened Wrappers
  import opened ScoreboardConnection

  /**
   `finished` maps the challenges whose results stand in the database to their elapsed time on
   their owner's session; `inFlight` are results whose message has not been delivered; `covered`
   are finished results that a refresh, or the page load that goes with an init, has shown.
   */
  datatype World = World(conn: Conn, now: int, finished: map<int, int>, inFlight: map<int, int>, covered: set<int>, tasks: nat)

  datatype Event =
    | Tick(duration: nat)
    | Finish(chal: int, elapsed: nat)
    | Rejudge(chal: int)
    | Deliver(chal: int)
    | OtherMessage(update: Update)
    | Fire(next: Option<int>)
    | Configure(next: Option<int>)

  /** The answer of get_next_elapsed: the least elapsed time in (after, limit]. */
  ghost predicate NextElapsed(finished: map<int, int>, after: int, limit: int, answer: Option<int>) {
    match answer
    case None => forall chal :: chal in finished ==> !(after < finished[chal] <= limit)
    case Some(n) =>
      && after < n <= limit
      && (exists chal :: chal in finished && finished[chal] == n)
      && (forall chal :: chal in finished && after < finished[chal] <= limit ==> n <= finished[chal])
  }

  /** The query always has an answer. */
  lemma {:induction false} NextElapsedExists(finished: map<int, int>, after: int, limit: int) returns (answer: Option<int>)
    ensures NextElapsed(finished, after, limit, answer)
    decreases |finished|
  {
    if exists chal :: chal in finished && after < finished[chal] <= limit {
      var chal :| chal in finished && after < finished[chal] <= limit;
      var rest := finished - {chal};
      assert |rest| < |finished| by {
        assert rest.Keys == finished.Keys - {chal};
      }
      answer := NextElapsedExists(rest, after, limit);
      assert forall c :: c in finished <==> c in rest || c == chal;
      if answer.None? || finished[chal] < answer.value {
        answer := Some(finished[chal]);
      }
    } else {
      answer := None;
    }
  }

  /** The finished results a refresh shows to a viewer at elapsed time v. */
  ghost function VisibleAt(finished: map<int, int>, v: int): set<int> {
    set chal | chal in finished && finished[chal] <= v
  }

  ghost function Refreshed(w: World): World {
    w.(covered := w.covered + VisibleAt(w.finished, ViewerElapsed(w.conn, w.now)))
  }

  /** _schedule_next with the answer of its query. */
  ghost predicate Scheduled(w: World, after: int, next: Option<int>, w': World) {
    && NextElapsed(w.finished, Max(after, ViewerElapsed(w.conn, w.now)), SessionLength(w.conn), next)
    && w' == w.(conn := Armed(w.conn, next, w.now, w.tasks), tasks := w.tasks + 1)
  }

  /** message() with a result's elapsed time. */
  ghost function Messaged(w: World, update: Update): World {
    var w1 := if Forwards(w.conn, update, w.now) then Refreshed(w) else w;
    w1.(conn := AfterMessage(w.conn, update, w.now, w.tasks), tasks := w.tasks + 1)
  }

  ghost predicate Step(w: World, event: Event, w': World) {
    match event
    case Tick(duration) => w' == w.(now := w.now + duration)
    case Finish(chal, elapsed) =>
      w' == w.(finished := w.finished[chal := elapsed], inFlight := w.inFlight[chal := elapsed], covered := w.covered - {chal})
    case Rejudge(chal) => w' == w.(finished := w.finished - {chal}, covered := w.covered - {chal})
    case Deliver(chal) =>
      && chal in w.inFlight
      && w.conn.contestId.Some?
      && w' == Messaged(w, Update(w.conn.contestId.value, Some(w.inFlight[chal]))).(inFlight := w.inFlight - {chal})
    case OtherMessage(update) => w' == Messaged(w, update)
    case Fire(next) =>
      && w.conn.timer.Some? && w.conn.timer.value.wakeAt <= w.now
      && w.conn.timer.value.generation == w.conn.generation
      && Scheduled(Refreshed(w.(conn := TimerTaken(w.conn))), w.conn.timer.value.elapsed, next, w')
    case Configure(next) =>
      var c := Configured(Reset(w.conn), Session(w.conn.sessionStart, w.conn.sessionEnd));
      Scheduled(Refreshed(w.(conn := c)), 0, next, w')
  }

  /** A scoreboard page of a contestant whose session runs from start to end has just been set up. */
  ghost predicate Init(w: World) {
    exists before: World, next ::
      && before.conn.contestId.Some? && before.conn.isScoreboard
      && before.covered == {} && MessagesAgree(before)
      && Step(before, Configure(next), w)
  }

  /** A result's elapsed time is fixed by its submission, so messages and the database agree on it. */
  ghost predicate MessagesAgree(w: World) {
    forall chal :: chal in w.finished && chal in w.inFlight ==> w.finished[chal] == w.inFlight[chal]
  }

  ghost predicate Run(worlds: seq<World>, events: seq<Event>) {
    && |worlds| == |events| + 1
    && Init(worlds[0])
    && forall i :: 0 <= i < |events| ==> Step(worlds[i], events[i], worlds[i + 1])
  }

  /** The result can be revealed to the viewer before the viewer's session ends. */
  ghost predicate Revealable(w: World, chal: int) {
    chal in w.finished && w.finished[chal] <= SessionLength(w.conn)
  }

  ghost predicate TimerNoLaterThan(w: World, elapsed: int) {
    w.conn.scheduled.Some? && w.conn.scheduled.value <= elapsed
  }

  ghost predicate Consistent(w: World) {
    && w.conn.contestId.Some? && w.conn.isScoreboard && w.conn.forwardUpdates && w.conn.viewerRelative
    && (w.conn.scheduled.Some? <==> w.conn.timer.Some?)
    && (w.conn.timer.Some? ==>
          var t := w.conn.timer.value;
          && w.conn.scheduled == Some(t.elapsed)
          && t.generation == w.conn.generation
          && t.elapsed <= SessionLength(w.conn)
          && w.conn.sessionStart + t.elapsed <= t.wakeAt <= Max(w.conn.sessionStart + t.elapsed, w.now))
    && MessagesAgree(w)
  }

  ghost predicate AllCovered(w: World) {
    forall chal :: Revealable(w, chal) ==>
      chal in w.covered || chal in w.inFlight || TimerNoLaterThan(w, w.finished[chal])
  }

  lemma ScheduledCovers(w: World, after: int, next: Option<int>, w': World)
    requires w.conn.timer.None? && w.conn.scheduled.None?
    requires after <= ViewerElapsed(w.conn, w.now)
    requires VisibleAt(w.finished, ViewerElapsed(w.conn, w.now)) <= w.covered
    requires Scheduled(w, after, next, w')
    ensures AllCovered(w')
  {
    forall chal | Revealable(w', chal)
      ensures chal in w'.covered || TimerNoLaterThan(w', w'.finished[chal])
    {
      if w.finished[chal] <= ViewerElapsed(w.conn, w.now) {
        assert chal in VisibleAt(w.finished, ViewerElapsed(w.conn, w.now));
      }
    }
  }

  lemma MessageCovers(w: World, chal: int)
    requires Consistent(w) && AllCovered(w) && chal in w.inFlight
    ensures var w' := Messaged(w, Update(w.conn.contestId.value, Some(w.inFlight[chal]))).(inFlight := w.inFlight - {chal});
            AllCovered(w')
  {
    var update := Update(w.conn.contestId.value, Some(w.inFlight[chal]));
    var w' := Messaged(w, update).(inFlight := w.inFlight - {chal});
    forall c | Revealable(w', c)
      ensures c in w'.covered || c in w'.inFlight || TimerNoLaterThan(w', w'.finished[c])
    {
      assert Revealable(w, c);
      if c == chal && w.finished[c] <= ViewerElapsed(w.conn, w.now) {
        assert c in VisibleAt(w.finished, ViewerElapsed(w.conn, w.now));
      }
    }
  }

  lemma StepKeepsConsistent(w: World, event: Event, w': World)
    requires Consistent(w) && Step(w, event, w')
    ensures Consistent(w')
    ensures w'.conn.sessionStart == w.conn.sessionStart && w'.conn.sessionEnd == w.conn.sessionEnd
  {
    hide NextElapsed, VisibleAt;
  }

  lemma StepKeepsCovered(w: World, event: Event, w': World)
    requires Consistent(w) && AllCovered(w) && Step(w, event, w')
    ensures AllCovered(w')
  {
    match event
    case Deliver(chal) => MessageCovers(w, chal);
    case Fire(next) =>
      ScheduledCovers(Refreshed(w.(conn := TimerTaken(w.conn))), w.conn.timer.value.elapsed, next, w');
    case Configure(next) =>
      var c := Configured(Reset(w.conn), Session(w.conn.sessionStart, w.conn.sessionEnd));
      ScheduledCovers(Refreshed(w.(conn := c)), 0, next, w');
    case Tick(duration) =>
      assert forall chal :: Revealable(w', chal) ==> Revealable(w, chal);
    case Finish(chal, elapsed) =>
      assert forall c :: c != chal && Revealable(w', c) ==> Revealable(w, c);
    case Rejudge(chal) =>
      assert forall c :: Revealable(w', c) ==> c != chal && Revealable(w, c);
    case OtherMessage(update) =>
      assert forall chal :: Revealable(w', chal) ==> Revealable(w, chal);
  }

  lemma InitHolds(w: World)
    requires Init(w)
    ensures Consistent(w) && AllCovered(w)
  {
    var before: World, next: Option<int> :| before.conn.contestId.Some? && before.conn.isScoreboard
      && before.covered == {} && MessagesAgree(before)
      && Step(before, Configure(next), w);
    var c := Configured(Reset(before.conn), Session(before.conn.sessionStart, before.conn.sessionEnd));
    ScheduledCovers(Refreshed(before.(conn := c)), 0, next, w);
  }

  /**
   Coverage in every reachable state: a result that finished with elapsed time e inside the
   viewer's session has been shown by a refresh sent at viewer time e or later, or its message is
   still in flight, or a timer is armed at some elapsed time no greater than e.
   */
  lemma {:induction false} ReachableStatesCover(worlds: seq<World>, events: seq<Event>, k: nat)
    requires Run(worlds, events) && k < |worlds|
    ensures Consistent(worlds[k]) && AllCovered(worlds[k])
  {
    if k == 0 {
      InitHolds(worlds[0]);
    } else {
      ReachableStatesCover(worlds, events, k - 1);
      assert Step(worlds[k - 1], events[k - 1], worlds[k - 1 + 1]);
      StepKeepsConsistent(worlds[k - 1], events[k - 1], worlds[k]);
      StepKeepsCovered(worlds[k - 1], events[k - 1], worlds[k]);
    }
  }

  /** What has been shown was visible: no result is shown before the viewer's own clock has reached its elapsed time. */
  ghost predicate NothingEarly(w: World) {
    forall chal :: chal in w.covered ==> chal in w.finished && w.finished[chal] <= ViewerElapsed(w.conn, w.now)
  }

  lemma StepShowsNothingEarly(w: World, event: Event, w': World)
    requires Consistent(w) && NothingEarly(w) && Step(w, event, w')
    ensures NothingEarly(w')
  {
    hide NextElapsed, Arms;
    StepKeepsConsistent(w, event, w');
    assert w.now <= w'.now ==> ViewerElapsed(w.conn, w.now) <= ViewerElapsed(w.conn, w'.now);
  }

  /** In every reachable state. */
  lemma NothingIsShownEarly(worlds: seq<World>, events: seq<Event>, k: nat, chal: int)
    requires Run(worlds, events) && k < |worlds| && chal in worlds[k].covered
    ensures NothingEarly(worlds[k])
    ensures chal in worlds[k].finished
    ensures worlds[k].conn.sessionStart <= worlds[k].now ==> worlds[k].conn.sessionStart + worlds[k].finished[chal] <= worlds[k].now
  {
    NothingEarlyIn(worlds, events, k);
  }

  lemma {:induction false} NothingEarlyIn(worlds: seq<World>, events: seq<Event>, k: nat)
    requires Run(worlds, events) && k < |worlds|
    ensures NothingEarly(worlds[k])
  {
    hide NothingEarly, Consistent, AllCovered, Step, Init;
    if k == 0 {
      InitShowsNothingEarly(worlds[0]);
    } else {
      NothingEarlyIn(worlds, events, k - 1);
      ReachableStatesCover(worlds, events, k - 1);
      assert Step(worlds[k - 1], events[k - 1], worlds[k - 1 + 1]);
      StepShowsNothingEarly(worlds[k - 1], events[k - 1], worlds[k]);
    }
  }

  lemma InitShowsNothingEarly(w: World)
    requires Init(w)
    ensures NothingEarly(w)
  {
    hide NextElapsed, Arms;
  }

  /**
   Once the clock has passed e, an uncovered result whose message has been delivered has a timer
   that is due; that timer can fire, and however it fires the result is covered.
   */
  lemma DueTimerReveals(worlds: seq<World>, events: seq<Event>, k: nat, chal: int)
    requires Run(worlds, events) && k < |worlds|
    requires var w := worlds[k];
             && Revealable(w, chal) && chal !in w.inFlight && chal !in w.covered
             && w.conn.sessionStart + w.finished[chal] <= w.now
    ensures worlds[k].conn.timer.Some? && worlds[k].conn.timer.value.wakeAt <= worlds[k].now
    ensures exists next, after :: Step(worlds[k], Fire(next), after)
    ensures forall next, after :: Step(worlds[k], Fire(next), after) ==> chal in after.covered
  {
    ReachableStatesCover(worlds, events, k);
    var w := worlds[k];
    var fired := Refreshed(w.(conn := TimerTaken(w.conn)));
    var next := NextElapsedExists(w.finished, Max(w.conn.timer.value.elapsed, ViewerElapsed(fired.conn, w.now)), SessionLength(fired.conn));
    assert Step(w, Fire(next), fired.(conn := Armed(fired.conn, next, w.now, w.tasks), tasks := w.tasks + 1));
    assert chal in VisibleAt(w.finished, ViewerElapsed(w.conn, w.now));
  }

  /** A timer never fires before its elapsed time: what it refreshes is what the viewer may see. */
  lemma FireIsNotEarly(worlds: seq<World>, events: seq<Event>, k: nat, next: Option<int>)
    requires Run(worlds, events) && k < |events| && events[k] == Fire(next)
    ensures worlds[k].conn.timer.Some?
    ensures worlds[k].conn.sessionStart + worlds[k].conn.timer.value.elapsed <= worlds[k].now
    ensures ViewerElapsed(worlds[k].conn, worlds[k].now) >= worlds[k].conn.timer.value.elapsed
  {
    ReachableStatesCover(worlds, events, k);
    assert Step(worlds[k], events[k], worlds[k + 1]);
  }

  /** visible_elapsed of ContestScoreboardHandler.post. */
  function PostVisibleElapsed(endTime: int, resolvedAt: int, sessionStart: int, sessionEnd: int): int {
    Max(Min(Min(endTime, resolvedAt), sessionEnd) - sessionStart, 0)
  }

  /** Without display_time the page a refresh triggers shows exactly the viewer's elapsed time. */
  lemma PostShowsViewerElapsed(c: Conn, contestEnd: int, now: int)
    requires c.sessionEnd <= contestEnd
    ensures PostVisibleElapsed(contestEnd, now, c.sessionStart, c.sessionEnd) == ViewerElapsed(c, now)
  {
  }
}
