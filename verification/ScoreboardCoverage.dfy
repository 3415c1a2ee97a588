/**
 Which results the delayed scoreboard reveals to an open page when handlers interleave at every await
 (src/handlers/contests/scoreboard.py): ScoreboardTasks together with the results in the database,
 the published messages, and the page of a contestant, which stays open when the server has given up
 its connection state.

 A page loads its scores when it is opened and again after every refresh, some time later.
 */
module ScoreboardCoverage {
  import opened Collections
  import opened Wrappers
  import opened ScoreboardConnection
  import opened ScoreboardTasks
  import Reveal = ScoreboardReveal

  datatype Scored = Scored(contestId: int, elapsed: int)

  /** An open scoreboard page of a contestant whose session runs from start to end. */
  datatype Page = Page(contestId: int, start: int, end: int)

  /**
   `inFlight` are results whose message has not been delivered, `covered` those the page has shown;
   `reloading` says that the page is going to load its scores again.
   */
  datatype State = State(w: World, page: Option<Page>, finished: map<int, Scored>, inFlight: map<int, Scored>,
                         covered: set<int>, reloading: bool)

  /** A load of the page can leave another one under way. */
  datatype Move =
    | Finish(chal: int, result: Scored)
    | Rejudge(chal: int)
    | Deliver(chal: int)
    | Reload(more: bool)
    | Do(event: Event)

  // ---------------------------------------------------------------- the page

  ghost function Length(p: Page): int { p.end - p.start }

  /** The viewer's elapsed time, as the page load computes it. */
  ghost function Viewed(p: Page, now: int): int {
    Max(Min(now, p.end) - p.start, 0)
  }

  ghost predicate Visible(s: State, r: Scored)
    requires s.page.Some?
  {
    r.contestId == s.page.value.contestId && r.elapsed <= Viewed(s.page.value, s.w.now)
  }

  /** The finished results the open page may see now. */
  ghost function VisibleNow(s: State): set<int> {
    set chal | chal in s.finished && s.page.Some? && Visible(s, s.finished[chal])
  }

  /**
   A delivered result that the open page may see before the session ends, that it has not shown, and
   that a load under way would not show either.
   */
  ghost predicate Unshown(s: State, chal: int) {
    && s.page.Some? && chal in s.finished
    && s.finished[chal].contestId == s.page.value.contestId && s.finished[chal].elapsed <= Length(s.page.value)
    && chal !in s.covered && chal !in s.inFlight
    && !(s.reloading && Visible(s, s.finished[chal]))
  }

  // ---------------------------------------------------------------- the connection behind it

  ghost predicate Registered(w: World) { w.current.Some? && w.current.value < |w.conns| }

  ghost function Here(w: World): Conn
    requires Registered(w)
  {
    w.conns[w.current.value]
  }

  /** The registered connection reveals results on the viewer's own clock. */
  ghost predicate Watching(w: World) {
    Registered(w) && Here(w).isScoreboard && Here(w).viewerRelative
  }

  /** The init of the registered connection waits for the contest. */
  ghost predicate Loads(w: World, i: nat) {
    i < |w.tasks| && w.tasks[i].AwaitingContest? && w.current == Some(w.tasks[i].conn)
  }

  ghost predicate AnyLoading(w: World) { exists i: nat :: Loads(w, i) }

  ghost predicate AnyBusy(w: World) { exists i: nat :: Busy(w, i) }

  /** An init, a refresh or the lookup of the next reveal is under way. */
  ghost predicate UnderWay(w: World) { AnyBusy(w) || AnyLoading(w) }

  ghost function Scheduled(w: World): Option<int> {
    if Registered(w) then Here(w).scheduled else None
  }

  ghost predicate TimerSet(w: World) { Registered(w) && Here(w).timer.Some? }

  /** Something that will lead to another refresh. */
  ghost predicate Pending(w: World) { TimerSet(w) || UnderWay(w) }

  /** An unshown result of an open page that nothing will reveal. */
  ghost predicate Lost(s: State) {
    !Pending(s.w) && exists chal :: Unshown(s, chal)
  }

  /** Every unshown result has a timer that is not too late, or the next one is just being looked up. */
  ghost predicate OnTime(s: State) {
    forall chal :: Unshown(s, chal) ==>
      || (Scheduled(s.w).Some? && Scheduled(s.w).value <= s.finished[chal].elapsed)
      || UnderWay(s.w)
  }

  // ---------------------------------------------------------------- the moves

  /** The rows get_next_elapsed looks at. */
  ghost function RowsOf(finished: map<int, Scored>, contestId: Option<int>): map<int, int> {
    map chal | chal in finished && contestId == Some(finished[chal].contestId) :: finished[chal].elapsed
  }

  /** The update is sent to the page, which then loads its scores again. */
  ghost predicate Refreshes(s: State, update: Update) {
    Registered(s.w) && Forwards(Here(s.w), update, s.w.now)
  }

  ghost predicate Publishes(s: State, update: Update, s': State) {
    if Registered(s.w) then
      && Step(s.w, Message(update), s'.w)
      && s' == s.(w := s'.w, reloading := s.reloading || Refreshes(s, update))
    else
      s' == s
  }

  /** The page is opened by a scoreboard init and lasts until the viewer leaves it or the socket is gone. */
  ghost predicate PageAfter(s: State, event: Event, s': State) {
    match event
    case Register => s'.page == None
    case Unregister => s'.page == None
    case SendFailed(_) => s'.page == None
    case InitPlain(_) => s'.page == None
    case InitScoreboard(contestId) => s'.page.Some? ==> s'.page.value.contestId == contestId
    case _ => s'.page == s.page
  }

  /** A newly opened page has shown nothing and loads its scores; a refresh makes it load them again. */
  ghost predicate ScoresAfter(s: State, event: Event, s': State) {
    match event
    case InitScoreboard(_) => s'.covered == {} && s'.reloading
    case Wake(task) => s'.covered == s.covered && s'.reloading == (s.reloading || (Live(s.w, task) && s.w.current == Some(s.w.tasks[task].conn)))
    case _ => s'.covered == s.covered && s'.reloading == s.reloading
  }

  /** The contest is loaded as the viewer of the open page sees it, with the session it has, unless loading fails. */
  ghost predicate LoadAgrees(s: State, event: Event) {
    event.ContestLoaded? && Loads(s.w, event.task) ==>
      match s.page
      case None => !event.loaded.Session?
      case Some(p) =>
        event.loaded == Session(p.start, p.end) || event.loaded == LoadFailed || (event.loaded == PlainUpdates && p.end <= s.w.now)
  }

  /** A query for a scoreboard connection that is still current reads the rows of its contest. */
  ghost predicate QueryAgrees(s: State, event: Event) {
    event.QueryRuns? && Live(s.w, event.task) && s.w.tasks[event.task].Querying? ==>
      var t := s.w.tasks[event.task];
      var c := s.w.conns[t.conn];
      c.isScoreboard ==> Reveal.NextElapsed(RowsOf(s.finished, c.contestId), t.after, SessionLength(c), event.next)
  }

  ghost predicate Moves(s: State, move: Move, s': State) {
    match move
    case Finish(chal, result) =>
      s' == s.(finished := s.finished[chal := result], inFlight := s.inFlight[chal := result], covered := s.covered - {chal})
    case Rejudge(chal) => s' == s.(finished := s.finished - {chal}, covered := s.covered - {chal})
    case Deliver(chal) =>
      && chal in s.inFlight
      && Publishes(s.(inFlight := s.inFlight - {chal}), Update(s.inFlight[chal].contestId, Some(s.inFlight[chal].elapsed)), s')
    case Reload(more) => s' == s.(covered := s.covered + VisibleNow(s), reloading := s.reloading && more)
    case Do(event) =>
      if event.Message? then Publishes(s, event.update, s')
      else
        && Step(s.w, event, s'.w) && s'.finished == s.finished && s'.inFlight == s.inFlight
        && PageAfter(s, event, s') && ScoresAfter(s, event, s') && LoadAgrees(s, event) && QueryAgrees(s, event)
  }

  /** A result's elapsed time is fixed by its submission. */
  ghost predicate MessagesAgree(s: State) {
    forall chal :: chal in s.finished && chal in s.inFlight ==> s.finished[chal] == s.inFlight[chal]
  }

  ghost predicate Starts(s: State) {
    ScoreboardTasks.Init(s.w) && s.page.None? && MessagesAgree(s)
  }

  ghost predicate Runs(states: seq<State>, moves: seq<Move>) {
    && |states| == |moves| + 1
    && Starts(states[0])
    && forall i :: 0 <= i < |moves| ==> Moves(states[i], moves[i], states[i + 1])
  }

  // ---------------------------------------------------------------- what stays true

  /** The update a move publishes, if any. */
  ghost function Published(s: State, move: Move): Option<Update> {
    match move
    case Deliver(chal) => if chal in s.inFlight then Some(Update(s.inFlight[chal].contestId, Some(s.inFlight[chal].elapsed))) else None
    case Do(Message(update)) => Some(update)
    case _ => None
  }

  /** What one move does to the tasks and connections. */
  ghost function BaseEvent(s: State, move: Move): Event {
    if Published(s, move).Some? && Registered(s.w) then Message(Published(s, move).value)
    else if move.Do? && !move.event.Message? then move.event
    else Tick(0)
  }

  /** Every run of this machine is one of ScoreboardTasks, whose theorems therefore hold of it. */
  lemma IsBaseStep(s: State, move: Move, s': State)
    requires Moves(s, move, s')
    ensures Step(s.w, BaseEvent(s, move), s'.w)
  {
    assert s.w.(now := s.w.now + 0) == s.w;
  }

  ghost predicate RelativeForwards(w: World) {
    && (forall c :: 0 <= c < |w.conns| && w.conns[c].viewerRelative ==> w.conns[c].forwardUpdates)
    && (forall i :: 0 <= i < |w.tasks| && w.tasks[i].AwaitingContest? && w.tasks[i].conn < |w.conns| ==>
          w.conns[w.tasks[i].conn].forwardUpdates)
  }

  lemma StepForwards(w: World, event: Event, w': World)
    requires Invariant(w) && RelativeForwards(w) && Step(w, event, w')
    ensures RelativeForwards(w')
  {
    hide NobodyAhead, OneHolder, SleepersRecorded, TimersSleep, DroppedAreIdle, LogNotEarly, RefreshedIsAwake, RefreshOnce;
  }

  /** The registered connection and the open page belong together. */
  ghost predicate PageFits(s: State) {
    s.page.Some? && Registered(s.w) ==>
      && Here(s.w).isScoreboard && Here(s.w).contestId == Some(s.page.value.contestId)
      && (Here(s.w).viewerRelative ==> Here(s.w).sessionStart == s.page.value.start && Here(s.w).sessionEnd == s.page.value.end)
  }

  lemma MessageFits(s: State, move: Move, s': State)
    requires PageFits(s) && Moves(s, move, s') && Published(s, move).Some?
    ensures PageFits(s')
  {
    hide Arms, HoldsBack;
  }

  lemma EventFits(s: State, event: Event, s': State)
    requires Invariant(s.w) && PageFits(s) && Moves(s, Do(event), s') && !event.Message?
    ensures PageFits(s')
  {
    hide NobodyAhead, OneHolder, SleepersRecorded, TimersSleep, DroppedAreIdle, LogNotEarly, RefreshedIsAwake, RefreshOnce,
         QueryAgrees, ScoresAfter, HandlerIdle, Arms;
    if event.ContestLoaded? {
      LoadFits(s, event, s');
    }
  }

  /** Only the init of the registered connection changes its session, to that of the page. */
  lemma LoadFits(s: State, event: Event, s': State)
    requires Invariant(s.w) && PageFits(s) && Moves(s, Do(event), s') && event.ContestLoaded?
    ensures PageFits(s')
  {
    hide NobodyAhead, OneHolder, OneConfigurer, SleepersRecorded, TimersSleep, DroppedAreIdle, LogNotEarly, RefreshedIsAwake,
         RefreshOnce, QueryAgrees, ScoresAfter, HandlerIdle;
    assert s'.page == s.page && s'.w.current == s.w.current;
    hide PageAfter;
  }

  lemma FittingStep(s: State, move: Move, s': State)
    requires Invariant(s.w) && PageFits(s) && Moves(s, move, s')
    ensures PageFits(s')
  {
    if Published(s, move).Some? {
      MessageFits(s, move, s');
    } else if move.Do? {
      EventFits(s, move.event, s');
    }
    hide Invariant, Step, Published;
  }

  /** An answer that is still current names the first unshown result after the time it was asked for. */
  ghost predicate AnswerFits(s: State, i: nat)
    requires Busy(s.w, i) && s.w.tasks[i].Answered?
  {
    var t := s.w.tasks[i];
    s.page.Some? ==>
      && (t.next.Some? ==> t.after < t.next.value <= Length(s.page.value))
      && (forall chal :: Unshown(s, chal) && s.finished[chal].elapsed > t.after ==>
            t.next.Some? && t.next.value <= s.finished[chal].elapsed)
  }

  ghost predicate AnswersFit(s: State) {
    forall i: nat :: Busy(s.w, i) && s.w.tasks[i].Answered? ==> AnswerFits(s, i)
  }

  ghost predicate Sound(s: State) {
    Invariant(s.w) && LiveIsRelative(s.w) && RelativeForwards(s.w) && MessagesAgree(s) && PageFits(s) && AnswersFit(s)
  }

  // ---------------------------------------------------------------- the effects a move can have

  ghost predicate StillUnshown(s: State, s': State, chal: int) {
    Unshown(s, chal) && Unshown(s', chal) && s.finished[chal] == s'.finished[chal]
  }

  ghost predicate SameWait(w: World, w': World) {
    Scheduled(w') == Scheduled(w) && (TimerSet(w') <==> TimerSet(w)) && (UnderWay(w') <==> UnderWay(w))
  }

  ghost predicate NothingUnshown(s: State) { forall chal :: !Unshown(s, chal) }

  /** Nothing new is unshown unless the timer is early enough for it, and what is pending stays. */
  ghost predicate Steady(s: State, s': State) {
    || NothingUnshown(s')
    || (&& SameWait(s.w, s'.w)
        && forall chal :: Unshown(s', chal) ==>
             || StillUnshown(s, s', chal)
             || (Scheduled(s'.w).Some? && Scheduled(s'.w).value <= s'.finished[chal].elapsed))
  }

  /** A timer for elapsed time u takes the place of whatever was pending. */
  ghost predicate Rearmed(s: State, s': State, u: int) {
    && Scheduled(s'.w) == Some(u) && TimerSet(s'.w) && !UnderWay(s'.w)
    && (Scheduled(s.w).Some? ==> u < Scheduled(s.w).value)
    && (forall chal :: Unshown(s, chal) ==> StillUnshown(s, s', chal))
    && (forall chal :: Unshown(s', chal) ==> StillUnshown(s, s', chal) || s'.finished[chal].elapsed == u)
  }

  /** Nothing is pending any more, and the same results are unshown. */
  ghost predicate Ended(s: State, s': State) {
    && Scheduled(s'.w).None? && !Pending(s'.w)
    && (forall chal :: Unshown(s, chal) || Unshown(s', chal) ==> StillUnshown(s, s', chal))
  }

  /** A busy task of the registered connection leaves no room for a timer, an init or another busy task. */
  lemma BusyIsAlone(w: World, i: nat)
    requires Invariant(w) && Busy(w, i)
    ensures Registered(w) && Here(w).timer.None? && Here(w).scheduled.None?
    ensures forall j: nat :: Busy(w, j) ==> j == i
    ensures !AnyLoading(w)
  {
    hide NobodyAhead, OneConfigurer, SleepersRecorded, DroppedAreIdle, LogNotEarly, RefreshedIsAwake, RefreshOnce;
    assert TimerSleeps(w, w.current.value);
  }

  lemma ResultEffect(s: State, move: Move, s': State)
    requires Moves(s, move, s') && (move.Finish? || move.Rejudge? || move.Reload?)
    ensures Steady(s, s')
  {
    hide SameWait;
    SameWaitItself(s.w);
  }

  lemma SameWaitItself(w: World)
    ensures SameWait(w, w)
  {
  }

  // ---------------------------------------------------------------- messages

  /** The published update is held back and starts a new timer. */
  ghost predicate Rearms(s: State, update: Update) {
    s.page.Some? && Watching(s.w) && HoldsBack(Here(s.w), update, s.w.now) && Arms(Here(s.w), update.elapsed)
  }

  /** Nothing stands behind the open page: no connection that reveals results later, and no init. */
  ghost predicate Deaf(s: State) {
    s.page.Some? && !Watching(s.w) && !AnyLoading(s.w)
  }

  /** The delivered result is one the page has not shown, and the message does not make it show it. */
  ghost predicate Misses(s: State, chal: int) {
    && s.page.Some? && chal in s.inFlight && chal in s.finished
    && s.finished[chal].contestId == s.page.value.contestId && s.finished[chal].elapsed <= Length(s.page.value)
    && chal !in s.covered
    && !(Visible(s, s.finished[chal])
         && (s.reloading || Refreshes(s, Update(s.finished[chal].contestId, Some(s.finished[chal].elapsed)))))
  }

  /** Arming supersedes every busy task of the connection. */
  lemma ArmedIsIdle(w: World, c: nat, elapsed: Option<int>)
    requires Invariant(w) && IsCurrent(w, c) && Arms(w.conns[c], elapsed) && w.conns[c].viewerRelative
    ensures var w' := ArmedWorld(w, c, elapsed);
            w'.current == w.current && |w'.conns| == |w.conns| && w'.conns[c] == Armed(w.conns[c], elapsed, w.now, |w.tasks|) && !UnderWay(w')
  {
    hide OneHolder, OneConfigurer, SleepersRecorded, TimersSleep, DroppedAreIdle, LogNotEarly, RefreshedIsAwake, RefreshOnce;
    var w' := ArmedWorld(w, c, elapsed);
    forall j: nat
      ensures !Busy(w', j) && !Loads(w', j)
    {
      assert j < |w.tasks| ==> w'.tasks[j] == w.tasks[j];
    }
  }

  lemma NotArmed(w: World, c: nat, elapsed: Option<int>)
    requires IsCurrent(w, c) && !Arms(w.conns[c], elapsed)
    ensures ArmedWorld(w, c, elapsed) == w
  {
  }

  /** A connection whose init is loading, or which does not reveal later, arms nothing. */
  lemma MessageKeepsWorld(s: State, move: Move, s': State)
    requires Sound(s) && Moves(s, move, s') && Published(s, move).Some? && s.page.Some? && !Rearms(s, Published(s, move).value)
    ensures s'.w == s.w
  {
    hide Invariant, LiveIsRelative, AnswersFit, RelativeForwards, MessagesAgree;
    var update := Published(s, move).value;
    if Registered(s.w) {
      assert Step(s.w, Message(update), s'.w);
      if HoldsBack(Here(s.w), update, s.w.now) {
        NotArmed(s.w, s.w.current.value, update.elapsed);
      }
    }
  }

  /** Behind a page that is not deaf and not watched, an init is loading. */
  lemma LoadingHearsLater(s: State)
    requires Sound(s) && s.page.Some? && !Deaf(s) && !Watching(s.w)
    ensures UnderWay(s.w)
  {
  }

  /** A deaf page has no timer and no task behind it. */
  lemma DeafIsIdle(s: State)
    requires Sound(s) && Deaf(s)
    ensures !Pending(s.w) && Scheduled(s.w).None?
  {
    hide NobodyAhead, OneHolder, OneConfigurer, AwaitingIsQuiet, SleepersRecorded, DroppedAreIdle, LogNotEarly, RefreshedIsAwake,
         RefreshOnce, AnswersFit, RelativeForwards, MessagesAgree;
    if Registered(s.w) {
      assert TimerSleeps(s.w, s.w.current.value);
    }
    forall i: nat
      ensures !Busy(s.w, i)
    {
    }
  }

  lemma MessageRearms(s: State, move: Move, s': State)
    requires Sound(s) && Moves(s, move, s') && Published(s, move).Some? && Rearms(s, Published(s, move).value)
    ensures Rearmed(s, s', Published(s, move).value.elapsed.value)
  {
    var update := Published(s, move).value;
    assert Step(s.w, Message(update), s'.w);
    ArmedIsIdle(s.w, s.w.current.value, update.elapsed);
    hide Invariant, LiveIsRelative, AnswersFit, RelativeForwards, ArmedWorld, UnderWay, Step;
  }

  /** Unless it rearms, a message leaves everything steady for a page that is not deaf. */
  lemma MessageSteady(s: State, move: Move, s': State)
    requires Sound(s) && Moves(s, move, s') && Published(s, move).Some? && s.page.Some?
    requires !Rearms(s, Published(s, move).value) && !Deaf(s)
    ensures Steady(s, s') || (UnderWay(s.w) && UnderWay(s'.w))
  {
    MessageKeepsWorld(s, move, s');
    SameWaitItself(s.w);
    if !Watching(s.w) {
      LoadingHearsLater(s);
    } else {
      hide Invariant, LiveIsRelative, AnswersFit, RelativeForwards, SameWait, UnderWay, Step;
      forall chal | Unshown(s', chal)
        ensures StillUnshown(s, s', chal) || (Scheduled(s'.w).Some? && Scheduled(s'.w).value <= s'.finished[chal].elapsed)
      {
      }
    }
  }

  /** To a deaf page exactly the result that is missed becomes unshown. */
  lemma MessageMissed(s: State, move: Move, s': State)
    requires Sound(s) && Moves(s, move, s') && Published(s, move).Some? && Deaf(s) && NothingUnshown(s)
    ensures s'.w == s.w
    ensures NothingUnshown(s') <==> !(move.Deliver? && Misses(s, move.chal))
  {
    MessageKeepsWorld(s, move, s');
    hide Invariant, LiveIsRelative, AnswersFit, RelativeForwards, Step;
    if move.Deliver? {
      assert Misses(s, move.chal) <==> Unshown(s', move.chal);
      forall chal | chal != move.chal
        ensures !Unshown(s', chal)
      {
        assert !Unshown(s, chal);
      }
    } else {
      forall chal
        ensures !Unshown(s', chal)
      {
        assert !Unshown(s, chal);
      }
    }
  }

  // ---------------------------------------------------------------- events

  /** A lookup or an init fails; a failing query of a timer task also gives up the connection state. */
  ghost predicate Fails(w: World, event: Event) {
    match event
    case QueryFailed(task) => task < |w.tasks| && w.tasks[task].Querying? && (w.tasks[task].configuring ==> Busy(w, task))
    case ContestLoaded(task, loaded) => Loads(w, task) && loaded.LoadFailed?
    case ContestLoadRaised(task) => Loads(w, task)
    case _ => false
  }

  /** What is under way ends with nothing armed: it fails, the lookup finds nothing, or updates are passed on unfiltered. */
  ghost predicate Ends(w: World, event: Event) {
    || Fails(w, event)
    || (event.Answer? && Busy(w, event.task) && w.tasks[event.task].Answered? && w.tasks[event.task].next.None?)
    || (event.ContestLoaded? && Loads(w, event.task) && !event.loaded.Session?)
  }

  /** The lookup of the next reveal arms a timer. */
  ghost predicate Finds(w: World, event: Event) {
    event.Answer? && Busy(w, event.task) && w.tasks[event.task].Answered? && w.tasks[event.task].next.Some?
  }

  /** The event puts a task to work for the registered connection. */
  ghost predicate Engages(w: World, event: Event) {
    match event
    case Wake(task) => Live(w, task) && w.current == Some(w.tasks[task].conn)
    case SendDone(task) => Busy(w, task)
    case QueryRuns(task, _) => Busy(w, task)
    case ContestLoaded(task, loaded) => Loads(w, task) && loaded.Session?
    case InitScoreboard(_) => true
    case _ => false
  }

  /** The event closes the page. */
  ghost predicate Closes(event: Event) {
    event.Register? || event.Unregister? || event.SendFailed? || event.InitPlain?
  }

  lemma EngagedIsUnderWay(w: World, event: Event, w': World)
    requires Invariant(w) && LiveIsRelative(w) && Step(w, event, w') && Engages(w, event)
    ensures UnderWay(w')
  {
    hide NobodyAhead, OneHolder, OneConfigurer, SleepersRecorded, TimersSleep, DroppedAreIdle, LogNotEarly, RefreshedIsAwake,
         RefreshOnce, HandlerIdle;
    match event
    case Wake(task) => assert Busy(w', task);
    case SendDone(task) => assert Busy(w', task);
    case QueryRuns(task, _) => assert Busy(w', task);
    case ContestLoaded(task, _) => assert Busy(w', task);
    case InitScoreboard(_) => assert Loads(w', |w.tasks|);
  }

  /** What is pending does not change, as far as the registered connection is concerned. */
  lemma IdleEvent(w: World, event: Event, w': World)
    requires Invariant(w) && LiveIsRelative(w) && Step(w, event, w')
    requires !event.Message? && !Ends(w, event) && !Finds(w, event) && !Engages(w, event) && !Closes(event)
    ensures w'.current == w.current && (Registered(w) <==> Registered(w')) && (Registered(w) ==> Here(w') == Here(w))
    ensures forall i: nat :: Busy(w', i) <==> Busy(w, i)
    ensures forall i: nat :: Loads(w', i) <==> Loads(w, i)
    ensures forall i: nat :: Busy(w, i) ==> w'.tasks[i] == w.tasks[i]
  {
    hide NobodyAhead, OneConfigurer, SleepersRecorded, TimersSleep, DroppedAreIdle, LogNotEarly, RefreshedIsAwake, RefreshOnce;
  }

  lemma IdleWaits(w: World, w': World)
    requires (Registered(w) <==> Registered(w')) && (Registered(w) ==> Here(w') == Here(w))
    requires forall i: nat :: Busy(w', i) <==> Busy(w, i)
    requires forall i: nat :: Loads(w', i) <==> Loads(w, i)
    ensures SameWait(w, w')
  {
    hide Busy, Loads;
  }

  /** A lookup or an init that ends leaves no timer and no task behind. */
  lemma EndedIsIdle(w: World, event: Event, w': World)
    requires Invariant(w) && LiveIsRelative(w) && Step(w, event, w') && Ends(w, event)
    ensures Scheduled(w').None? && !Pending(w')
  {
    match event
    case Answer(task) => LookupIsIdle(w, event, task, w');
    case QueryFailed(task) =>
      if w.tasks[task].configuring {
        LookupIsIdle(w, event, task, w');
      } else {
        NobodyIsIdle(w');
      }
    case ContestLoaded(task, _) => InitIsIdle(w, event, task, w');
    case ContestLoadRaised(task) => InitIsIdle(w, event, task, w');
  }

  lemma NobodyIsIdle(w: World)
    requires w.current.None?
    ensures Scheduled(w).None? && !Pending(w)
  {
  }

  lemma LookupIsIdle(w: World, event: Event, task: nat, w': World)
    requires Invariant(w) && Step(w, event, w') && Ends(w, event) && Busy(w, task)
    requires event == Answer(task) || event == QueryFailed(task)
    requires event.QueryFailed? ==> w.tasks[task].Querying? && w.tasks[task].configuring
    ensures Scheduled(w').None? && !Pending(w')
  {
    BusyIsAlone(w, task);
    hide Invariant;
    assert w'.current == w.current && w'.conns == w.conns && w'.tasks == w.tasks[task := Done];
    hide Step, Ends;
    forall j: nat
      ensures !Busy(w', j) && !Loads(w', j)
    {
      assert j < |w.tasks| && j != task ==> w'.tasks[j] == w.tasks[j];
      assert Busy(w', j) ==> Busy(w, j);
      assert Loads(w', j) ==> Loads(w, j);
    }
  }

  /** While an init loads, nothing else is pending. */
  lemma LoadingIsAlone(w: World, task: nat)
    requires Invariant(w) && LiveIsRelative(w) && Loads(w, task)
    ensures Registered(w) && !Here(w).viewerRelative && Here(w).timer.None? && Here(w).scheduled.None? && !AnyBusy(w)
    ensures forall j: nat :: Loads(w, j) ==> j == task
  {
    hide NobodyAhead, OneHolder, SleepersRecorded, DroppedAreIdle, LogNotEarly, RefreshedIsAwake, RefreshOnce;
    assert TimerSleeps(w, w.current.value);
  }

  lemma InitIsIdle(w: World, event: Event, task: nat, w': World)
    requires Invariant(w) && LiveIsRelative(w) && Step(w, event, w') && Loads(w, task)
    requires event == ContestLoadRaised(task) || (event.ContestLoaded? && event.task == task && !event.loaded.Session?)
    ensures Scheduled(w').None? && !Pending(w')
  {
    LoadingIsAlone(w, task);
    hide Invariant, LiveIsRelative;
    assert w'.current == w.current && w'.tasks == w.tasks[task := Done] && |w'.conns| == |w.conns|;
    assert Here(w').generation == Here(w).generation && Here(w').timer.None? && Here(w').scheduled.None?;
    hide Step;
    forall j: nat
      ensures !Busy(w', j) && !Loads(w', j)
    {
      assert j < |w.tasks| && j != task ==> w'.tasks[j] == w.tasks[j];
      assert Busy(w', j) ==> Busy(w, j);
      assert Loads(w', j) ==> Loads(w, j);
    }
  }

  /** The timer armed by an answer is the next one, and the only thing pending. */
  lemma ArmedAfter(w: World, task: nat, w': World)
    requires Invariant(w) && Step(w, Answer(task), w') && Finds(w, Answer(task)) && Arms(Here(w), w.tasks[task].next)
    requires Here(w).viewerRelative
    ensures w'.current == w.current && Registered(w') && !UnderWay(w')
    ensures Here(w') == Armed(Here(w), w.tasks[task].next, w.now, |w.tasks|)
  {
    BusyIsAlone(w, task);
    hide OneHolder, OneConfigurer, AwaitingIsQuiet, SleepersRecorded, TimersSleep, DroppedAreIdle, LogNotEarly, RefreshedIsAwake, RefreshOnce;
    forall j: nat
      ensures !Busy(w', j) && !Loads(w', j)
    {
      assert j < |w.tasks| ==> j == task || w'.tasks[j] == w.tasks[j];
      assert Loads(w', j) ==> Loads(w, j);
    }
  }

  /** Events other than a refresh and a new page leave the same results unshown, up to the passing of time. */
  lemma EventKeepsUnshown(s: State, event: Event, s': State, chal: int)
    requires Moves(s, Do(event), s') && !event.Message? && !event.InitScoreboard? && !Closes(event)
    ensures Unshown(s', chal) ==> StillUnshown(s, s', chal)
    ensures !event.Tick? && !event.Wake? && Unshown(s, chal) ==> StillUnshown(s, s', chal)
  {
    hide QueryAgrees, LoadAgrees;
  }

  lemma EventEffect(s: State, event: Event, s': State)
    requires Sound(s) && Moves(s, Do(event), s') && !event.Message?
    ensures Closes(event) ==> NothingUnshown(s')
    ensures Engages(s.w, event) ==> UnderWay(s'.w)
    ensures s.page.Some? && Finds(s.w, event) ==> Rearmed(s, s', s.w.tasks[event.task].next.value)
    ensures Ends(s.w, event) ==> Ended(s, s')
    ensures !Closes(event) && !Engages(s.w, event) && !Finds(s.w, event) && !Ends(s.w, event) ==> Steady(s, s')
  {
    if Engages(s.w, event) {
      EngagedIsUnderWay(s.w, event, s'.w);
      EngagedIsOpen(s.w, event);
    } else if Ends(s.w, event) {
      EndedIsIdle(s.w, event, s'.w);
      EndedIsOpen(s.w, event);
      hide Sound, Pending, Scheduled, Unshown, Ends;
      forall chal
        ensures Unshown(s, chal) || Unshown(s', chal) ==> StillUnshown(s, s', chal)
      {
        EventKeepsUnshown(s, event, s', chal);
      }
    } else if s.page.Some? && Finds(s.w, event) {
      FoundRearms(s, event, s');
    } else if !Closes(event) && !Finds(s.w, event) {
      IdleEvent(s.w, event, s'.w);
      IdleWaits(s.w, s'.w);
      hide Sound, SameWait, Unshown, Ends, Finds, Engages, Busy, Loads;
      forall chal
        ensures Unshown(s', chal) ==> StillUnshown(s, s', chal)
      {
        EventKeepsUnshown(s, event, s', chal);
      }
    }
  }

  lemma EngagedIsOpen(w: World, event: Event)
    requires Engages(w, event)
    ensures !Closes(event) && !Ends(w, event) && !Finds(w, event) && !event.Message?
  {
  }

  lemma EndedIsOpen(w: World, event: Event)
    requires Ends(w, event)
    ensures !Closes(event) && !event.Message? && !event.InitScoreboard? && !event.Tick? && !event.Wake? && !Finds(w, event)
  {
  }

  lemma FoundRearms(s: State, event: Event, s': State)
    requires Sound(s) && Moves(s, Do(event), s') && s.page.Some? && Finds(s.w, event)
    ensures Rearmed(s, s', s.w.tasks[event.task].next.value)
  {
    var task := event.task;
    assert AnswerFits(s, task);
    BusyIsAlone(s.w, task);
    hide Invariant, RelativeForwards, MessagesAgree, AnswersFit;
    assert Here(s.w).viewerRelative;
    hide LiveIsRelative;
    ArmedAfter(s.w, task, s'.w);
    hide Step, Busy, Unshown, UnderWay, AnswerFits;
    forall chal
      ensures Unshown(s, chal) || Unshown(s', chal) ==> StillUnshown(s, s', chal)
    {
      EventKeepsUnshown(s, event, s', chal);
    }
  }

  // ---------------------------------------------------------------- answers keep fitting

  lemma MessageKeepsAnswers(s: State, move: Move, s': State, i: nat)
    requires Sound(s) && Moves(s, move, s') && Published(s, move).Some? && s'.page.Some?
    requires Busy(s'.w, i) && s'.w.tasks[i].Answered? && Invariant(s'.w)
    ensures AnswerFits(s', i)
  {
    BusyIsAlone(s'.w, i);
    if Rearms(s, Published(s, move).value) {
      MessageRearms(s, move, s');
    } else {
      MessageKeepsWorld(s, move, s');
      BusyIsWatched(s, i);
      assert AnswerFits(s, i);
      hide Invariant, LiveIsRelative, RelativeForwards, AnswersFit, Step, Busy;
      forall chal | Unshown(s', chal)
        ensures StillUnshown(s, s', chal)
      {
        MessageLeaves(s, move, s', chal);
      }
    }
  }

  /** A busy task stands behind an open page only as part of a watched connection. */
  lemma BusyIsWatched(s: State, i: nat)
    requires Sound(s) && s.page.Some? && Busy(s.w, i)
    ensures Watching(s.w) && Here(s.w).forwardUpdates && Here(s.w).contestId == Some(s.page.value.contestId)
    ensures Here(s.w).sessionStart == s.page.value.start && Here(s.w).sessionEnd == s.page.value.end && Here(s.w).scheduled.None?
  {
    BusyIsAlone(s.w, i);
    hide Invariant, MessagesAgree, AnswersFit;
  }

  /** With a watched connection and no timer, a message that does not rearm leaves nothing new unshown. */
  lemma MessageLeaves(s: State, move: Move, s': State, chal: int)
    requires MessagesAgree(s) && Moves(s, move, s') && Published(s, move).Some? && s.page.Some? && s'.w == s.w
    requires Watching(s.w) && Here(s.w).forwardUpdates && Here(s.w).contestId == Some(s.page.value.contestId)
    requires Here(s.w).sessionStart == s.page.value.start && Here(s.w).sessionEnd == s.page.value.end && Here(s.w).scheduled.None?
    requires !Rearms(s, Published(s, move).value) && Unshown(s', chal)
    ensures StillUnshown(s, s', chal)
  {
    hide Step;
  }

  lemma QueryAnswerFits(s: State, task: nat, next: Option<int>, s': State)
    requires Sound(s) && Moves(s, Do(QueryRuns(task, next)), s') && Busy(s.w, task) && Busy(s'.w, task) && s'.w.tasks[task].Answered?
    ensures AnswerFits(s', task)
  {
    if s.page.Some? {
      BusyIsWatched(s, task);
      hide Invariant, LiveIsRelative, RelativeForwards, AnswersFit, MessagesAgree;
      var t := s.w.tasks[task];
      assert s'.w == WithTask(s.w, task, Answered(t.conn, t.generation, t.configuring, t.after, next));
      var rows := RowsOf(s.finished, Here(s.w).contestId);
      assert Reveal.NextElapsed(rows, t.after, SessionLength(Here(s.w)), next);
      forall chal | Unshown(s', chal)
        ensures chal in rows && rows[chal] == s.finished[chal].elapsed
      {
      }
    }
  }

  /** The only way to come by an answer is the query. */
  lemma EngagedTask(w: World, event: Event, w': World, i: nat)
    requires Invariant(w) && LiveIsRelative(w) && Step(w, event, w') && Engages(w, event) && Invariant(w')
    requires Busy(w', i) && w'.tasks[i].Answered?
    ensures event.QueryRuns? && event.task == i && Busy(w, i)
  {
    BusyIsAlone(w', i);
    hide OneConfigurer, SleepersRecorded, TimersSleep, DroppedAreIdle, LogNotEarly, RefreshedIsAwake, RefreshOnce, HandlerIdle;
    if !event.InitScoreboard? {
      var task := match event
        case Wake(task) => task
        case SendDone(task) => task
        case QueryRuns(task, _) => task
        case ContestLoaded(task, _) => task;
      assert Busy(w', task);
      assert task == i;
    }
  }

  lemma EventKeepsAnswers(s: State, event: Event, s': State, i: nat)
    requires Sound(s) && Moves(s, Do(event), s') && !event.Message? && s'.page.Some?
    requires Busy(s'.w, i) && s'.w.tasks[i].Answered? && Invariant(s'.w)
    ensures AnswerFits(s', i)
  {
    EventEffect(s, event, s');
    if Engages(s.w, event) {
      EngagedTask(s.w, event, s'.w, i);
      QueryAnswerFits(s, event.task, event.next, s');
    } else if !Closes(event) && !Finds(s.w, event) && !Ends(s.w, event) {
      IdleEvent(s.w, event, s'.w);
      assert AnswerFits(s, i);
      hide Sound, Step, Busy;
      forall chal | Unshown(s', chal)
        ensures StillUnshown(s, s', chal)
      {
        EventKeepsUnshown(s, event, s', chal);
      }
    } else if Finds(s.w, event) {
      FoundKeepsPage(s, event, s');
    }
  }

  lemma FoundKeepsPage(s: State, event: Event, s': State)
    requires Moves(s, Do(event), s') && Finds(s.w, event)
    ensures s'.page == s.page
  {
  }

  lemma ResultKeepsAnswers(s: State, move: Move, s': State, i: nat)
    requires AnswersFit(s) && Moves(s, move, s') && (move.Finish? || move.Rejudge? || move.Reload?)
    requires Busy(s'.w, i) && s'.w.tasks[i].Answered?
    ensures AnswerFits(s', i)
  {
    assert AnswerFits(s, i);
    forall chal | Unshown(s', chal)
      ensures StillUnshown(s, s', chal)
    {
    }
  }

  lemma SoundStep(s: State, move: Move, s': State)
    requires Sound(s) && Moves(s, move, s')
    ensures Sound(s')
  {
    IsBaseStep(s, move, s');
    StepPreserves(s.w, BaseEvent(s, move), s'.w);
    StepRelative(s.w, BaseEvent(s, move), s'.w);
    StepForwards(s.w, BaseEvent(s, move), s'.w);
    FittingStep(s, move, s');
    assert MessagesAgree(s');
    forall i: nat | Busy(s'.w, i) && s'.w.tasks[i].Answered? && s'.page.Some?
      ensures AnswerFits(s', i)
    {
      if Published(s, move).Some? {
        MessageKeepsAnswers(s, move, s', i);
      } else if move.Do? {
        EventKeepsAnswers(s, move.event, s', i);
      } else if move.Finish? || move.Rejudge? || move.Reload? {
        ResultKeepsAnswers(s, move, s', i);
      }
    }
    hide Invariant, LiveIsRelative, RelativeForwards, Step, Moves, Busy, MessagesAgree, PageFits;
  }

  // ---------------------------------------------------------------- one move

  /**
   The move loses a reveal: a lookup or an init ends with nothing armed while a result is unshown, or
   a result is delivered that a page with nothing behind it misses.
   */
  ghost predicate Loses(s: State, move: Move) {
    || (move.Do? && Ends(s.w, move.event) && exists chal :: Unshown(s, chal))
    || (move.Deliver? && Deaf(s) && Misses(s, move.chal))
  }

  /** An update starts its timer while an earlier unshown result is being looked up. */
  ghost predicate Overtakes(s: State, move: Move) {
    && Published(s, move).Some? && Rearms(s, Published(s, move).value) && UnderWay(s.w)
    && exists chal :: Unshown(s, chal) && s.finished[chal].elapsed < Published(s, move).value.elapsed.value
  }

  /** The lookup was asked for later results only, although this one is unshown. */
  ghost predicate Overlooked(s: State, task: nat, chal: int)
    requires task < |s.w.tasks| && s.w.tasks[task].Answered?
  {
    Unshown(s, chal) && s.finished[chal].elapsed <= s.w.tasks[task].after
  }

  /** The answer of a current lookup leaves out a result that had been passed. */
  ghost predicate Overlooks(s: State, move: Move) {
    && move.Do? && move.event.Answer?
    && Busy(s.w, move.event.task) && s.w.tasks[move.event.task].Answered?
    && exists chal :: Overlooked(s, move.event.task, chal)
  }

  /** The move makes some reveal late. */
  ghost predicate Delays(s: State, move: Move) {
    Loses(s, move) || Overtakes(s, move) || Overlooks(s, move)
  }

  lemma NothingUnshownIsFine(s: State)
    requires NothingUnshown(s)
    ensures OnTime(s) && !Lost(s)
  {
  }

  lemma UnderWayIsFine(s: State)
    requires UnderWay(s.w)
    ensures OnTime(s) && !Lost(s)
  {
  }

  lemma SteadyIsFine(s: State, s': State)
    requires Steady(s, s') && Invariant(s'.w)
    ensures OnTime(s) ==> OnTime(s')
    ensures !Lost(s) ==> !Lost(s')
  {
    hide UnderWay, Unshown, NobodyAhead, OneHolder, OneConfigurer, AwaitingIsQuiet, SleepersRecorded, DroppedAreIdle, LogNotEarly,
         RefreshedIsAwake, RefreshOnce;
    if Registered(s'.w) {
      assert TimerSleeps(s'.w, s'.w.current.value);
    }
  }

  lemma RearmedExactly(s: State, s': State, u: int)
    requires Rearmed(s, s', u)
    ensures !Lost(s')
    ensures OnTime(s) ==> (OnTime(s') <==> !UnderWay(s.w) || forall chal :: Unshown(s, chal) ==> u <= s.finished[chal].elapsed)
  {
    hide Unshown, UnderWay;
  }

  lemma EndedExactly(s: State, s': State)
    requires Ended(s, s')
    ensures OnTime(s') <==> NothingUnshown(s)
    ensures Lost(s') <==> !NothingUnshown(s)
  {
    hide Unshown, UnderWay;
  }

  /** The answer of a lookup that finds something is late exactly for the results it overlooked. */
  lemma FindsInTime(s: State, event: Event)
    requires Sound(s) && s.page.Some? && Finds(s.w, event)
    ensures event.task < |s.w.tasks| && s.w.tasks[event.task].Answered? && s.w.tasks[event.task].next.Some?
    ensures (forall chal :: Unshown(s, chal) ==> s.w.tasks[event.task].next.value <= s.finished[chal].elapsed) <==> !Overlooks(s, Do(event))
  {
    assert event.task < |s.w.tasks|;
    assert AnswerFits(s, event.task);
    assert Busy(s.w, event.task);
    hide Unshown, Invariant, LiveIsRelative, RelativeForwards, Busy;
    forall chal | Unshown(s, chal)
      ensures s.w.tasks[event.task].next.value <= s.finished[chal].elapsed <==> !Overlooked(s, event.task, chal)
    {
    }
  }

  /** A lookup that finds nothing leaves unshown only what it overlooked. */
  lemma AnswerWithoutNext(s: State, event: Event)
    requires Sound(s) && event.Answer? && Ends(s.w, event)
    ensures event.task < |s.w.tasks| && s.w.tasks[event.task].Answered?
    ensures forall chal :: Unshown(s, chal) ==> Overlooked(s, event.task, chal)
  {
    assert AnswerFits(s, event.task);
    hide Invariant, LiveIsRelative, RelativeForwards, Busy;
  }

  lemma FindingWaits(w: World, event: Event)
    requires Finds(w, event)
    ensures UnderWay(w) && !Ends(w, event) && !Engages(w, event) && !Closes(event)
  {
  }

  lemma DoExactly(s: State, event: Event, s': State)
    requires Sound(s) && Moves(s, Do(event), s') && !event.Message? && Invariant(s'.w)
    ensures OnTime(s) ==> (OnTime(s') <==> !Delays(s, Do(event)))
    ensures !Lost(s) ==> (Lost(s') <==> Loses(s, Do(event)))
  {
    EventEffect(s, event, s');
    if Closes(event) {
      NothingUnshownIsFine(s');
    } else if Engages(s.w, event) {
      EngagedIsOpen(s.w, event);
      UnderWayIsFine(s');
    } else if Finds(s.w, event) {
      FindingWaits(s.w, event);
      FoundKeepsPage(s, event, s');
      if s.page.Some? {
        FindsInTime(s, event);
        hide Sound, Moves, Rearmed, Unshown, OnTime, Lost, Overlooks, Ends, Finds, UnderWay;
        RearmedExactly(s, s', s.w.tasks[event.task].next.value);
      } else {
        NothingUnshownIsFine(s');
      }
    } else if Ends(s.w, event) {
      EndedExactly(s, s');
      if event.Answer? {
        AnswerWithoutNext(s, event);
      }
      hide Sound, Moves, Ended, Unshown, OnTime, Lost, Ends, Finds, Busy, UnderWay;
    } else {
      SteadyIsFine(s, s');
      hide Sound, Moves, Steady, Unshown, OnTime, Lost, UnderWay;
    }
  }

  lemma MessageExactly(s: State, move: Move, s': State)
    requires Sound(s) && Moves(s, move, s') && Published(s, move).Some? && Invariant(s'.w)
    ensures OnTime(s) ==> (OnTime(s') <==> !Delays(s, move))
    ensures !Lost(s) ==> (Lost(s') <==> Loses(s, move))
  {
    var update := Published(s, move).value;
    NotOverlooking(s, move);
    if s.page.None? {
      MessageKeepsPage(s, move, s');
      NothingUnshownIsFine(s');
    } else if Rearms(s, update) {
      MessageRearms(s, move, s');
      hide Sound, Moves, Rearmed, Unshown, OnTime, Lost, UnderWay, Overlooks, Ends;
      RearmedExactly(s, s', update.elapsed.value);
    } else if Deaf(s) {
      DeafIsIdle(s);
      hide Sound, Moves, Unshown, Misses, Deaf, Rearms, UnderWay, Overlooks, Ends;
      if NothingUnshown(s) {
        NothingUnshownIsFine(s);
        MessageMissed(s, move, s');
      }
    } else {
      MessageSteady(s, move, s');
      hide Sound, Moves, Steady, Unshown, OnTime, Lost, Rearms, UnderWay, Overlooks, Ends;
      if UnderWay(s'.w) {
        UnderWayIsFine(s');
      } else {
        SteadyIsFine(s, s');
      }
    }
  }

  lemma NotOverlooking(s: State, move: Move)
    requires Published(s, move).Some?
    ensures !Overlooks(s, move) && (move.Do? ==> !Ends(s.w, move.event))
  {
  }

  lemma MessageKeepsPage(s: State, move: Move, s': State)
    requires Moves(s, move, s') && Published(s, move).Some?
    ensures s'.page == s.page && (s.page.None? ==> NothingUnshown(s'))
  {
  }

  /** Exactly these moves make a reveal late, and exactly these lose one. */
  lemma MoveExactly(s: State, move: Move, s': State)
    requires Sound(s) && Moves(s, move, s')
    ensures OnTime(s) ==> (OnTime(s') <==> !Delays(s, move))
    ensures !Lost(s) ==> (Lost(s') <==> Loses(s, move))
  {
    SoundStep(s, move, s');
    assert Invariant(s'.w);
    if Published(s, move).Some? {
      MessageExactly(s, move, s');
    } else if move.Do? {
      DoExactly(s, move.event, s');
    } else if move.Finish? || move.Rejudge? || move.Reload? {
      ResultEffect(s, move, s');
      hide Sound, Moves, Steady, Unshown, OnTime, Lost, UnderWay;
      SteadyIsFine(s, s');
    }
  }

  // ---------------------------------------------------------------- whole runs

  lemma {:induction false} ReachableIsSound(states: seq<State>, moves: seq<Move>, k: nat)
    requires Runs(states, moves) && k < |states|
    ensures Sound(states[k])
  {
    if k > 0 {
      ReachableIsSound(states, moves, k - 1);
      assert Moves(states[k - 1], moves[k - 1], states[k - 1 + 1]);
      SoundStep(states[k - 1], moves[k - 1], states[k]);
    }
  }

  lemma {:induction false} NotLostUpTo(states: seq<State>, moves: seq<Move>, k: nat)
    requires Runs(states, moves) && k < |states|
    ensures (forall i :: 0 <= i <= k ==> !Lost(states[i])) <==> forall j :: 0 <= j < k ==> !Loses(states[j], moves[j])
  {
    hide Sound, Lost, Loses;
    if k == 0 {
      NothingUnshownIsFine(states[0]);
    } else {
      NotLostUpTo(states, moves, k - 1);
      ReachableIsSound(states, moves, k - 1);
      assert Moves(states[k - 1], moves[k - 1], states[k - 1 + 1]);
      MoveExactly(states[k - 1], moves[k - 1], states[k]);
    }
  }

  lemma {:induction false} OnTimeUpTo(states: seq<State>, moves: seq<Move>, k: nat)
    requires Runs(states, moves) && k < |states|
    ensures (forall i :: 0 <= i <= k ==> OnTime(states[i])) <==> forall j :: 0 <= j < k ==> !Delays(states[j], moves[j])
  {
    hide Sound, OnTime, Delays;
    if k == 0 {
      NothingUnshownIsFine(states[0]);
    } else {
      OnTimeUpTo(states, moves, k - 1);
      ReachableIsSound(states, moves, k - 1);
      assert Moves(states[k - 1], moves[k - 1], states[k - 1 + 1]);
      MoveExactly(states[k - 1], moves[k - 1], states[k]);
    }
  }

  /**
   In every run: no open page ever loses a reveal exactly when no lookup and no init ends with nothing
   armed while a result is unshown, and no result is missed by a page with nothing behind it.
   */
  lemma NeverLostExactly(states: seq<State>, moves: seq<Move>)
    requires Runs(states, moves)
    ensures (forall k :: 0 <= k < |states| ==> !Lost(states[k])) <==> forall j :: 0 <= j < |moves| ==> !Loses(states[j], moves[j])
  {
    hide Lost, Loses, Moves;
    NotLostUpTo(states, moves, |moves|);
  }

  /** In every run: all reveals are on time in every state exactly when no move delays one. */
  lemma AlwaysOnTimeExactly(states: seq<State>, moves: seq<Move>)
    requires Runs(states, moves)
    ensures (forall k :: 0 <= k < |states| ==> OnTime(states[k])) <==> forall j :: 0 <= j < |moves| ==> !Delays(states[j], moves[j])
  {
    hide OnTime, Delays, Moves;
    OnTimeUpTo(states, moves, |moves|);
  }

  // ---------------------------------------------------------------- nothing early

  /** The open page has shown only results of its contest whose elapsed time the viewer had reached. */
  ghost predicate ShowsNothingEarly(s: State) {
    s.page.Some? ==> forall chal :: chal in s.covered ==>
      && chal in s.finished && s.finished[chal].contestId == s.page.value.contestId
      && s.finished[chal].elapsed <= Viewed(s.page.value, s.w.now)
  }

  lemma StepShowsNothingEarly(s: State, move: Move, s': State)
    requires ShowsNothingEarly(s) && Moves(s, move, s')
    ensures ShowsNothingEarly(s')
  {
    IsBaseStep(s, move, s');
    ClockAdvances(s.w, BaseEvent(s, move), s'.w);
    hide LoadAgrees, QueryAgrees, Step, BaseEvent;
  }

  lemma ClockAdvances(w: World, event: Event, w': World)
    requires Step(w, event, w')
    ensures w.now <= w'.now
  {
    hide Configured, Reset, Arms, Armed, Cancelled, HoldsBack;
  }

  /** In every run, whatever fails: no result is shown before the viewer's own clock has reached its elapsed time. */
  lemma {:induction false} NothingIsShownEarly(states: seq<State>, moves: seq<Move>, k: nat)
    requires Runs(states, moves) && k < |states|
    ensures ShowsNothingEarly(states[k])
  {
    if k > 0 {
      NothingIsShownEarly(states, moves, k - 1);
      assert Moves(states[k - 1], moves[k - 1], states[k - 1 + 1]);
      StepShowsNothingEarly(states[k - 1], moves[k - 1], states[k]);
    }
  }

  // ---------------------------------------------------------------- with an up-to-date page

  /** When the next reveal is about to be looked up, the page has shown, or is about to show, every delivered result that is visible. */
  ghost predicate PageIsUpToDate(s: State, move: Move) {
    move.Do? && s.page.Some?
    && (if move.event.SendDone? then Busy(s.w, move.event.task) else move.event.ContestLoaded? && Loads(s.w, move.event.task)) ==>
      forall chal :: Unshown(s, chal) ==> s.finished[chal].elapsed > Viewed(s.page.value, s.w.now)
  }

  /** The hypotheses of NoRevealIsLost, for one move. */
  ghost predicate Favourable(s: State, move: Move) {
    PageIsUpToDate(s, move) && (move.Do? ==> !Fails(s.w, move.event))
  }

  ghost predicate IsDue(w: World, i: nat)
    requires Live(w, i)
  {
    var t, viewer := w.tasks[i], ViewerElapsed(w.conns[w.tasks[i].conn], w.now);
    && (t.Sending? ==> t.elapsed <= viewer)
    && (t.Querying? || t.Answered? ==> t.after <= viewer)
  }

  /** Current tasks work for elapsed times the viewer has reached. */
  ghost predicate AllDue(w: World) {
    forall i: nat :: Live(w, i) ==> IsDue(w, i)
  }

  /** While a task is current the session bounds of its connection stay. */
  lemma LiveKeepsSession(w: World, event: Event, w': World, i: nat)
    requires Invariant(w) && Step(w, event, w') && Live(w, i) && Live(w', i)
    ensures w'.tasks[i].conn == w.tasks[i].conn && w.now <= w'.now
    ensures var c, c' := w.conns[w.tasks[i].conn], w'.conns[w.tasks[i].conn]; c'.sessionStart == c.sessionStart && c'.sessionEnd == c.sessionEnd
  {
    StepLive(w, event, w', i);
    hide NobodyAhead, OneHolder, OneConfigurer, SleepersRecorded, TimersSleep, DroppedAreIdle, LogNotEarly, RefreshedIsAwake, RefreshOnce, HandlerIdle;
  }

  /** A new task sleeps or waits for the contest. */
  lemma NewTaskIsIdle(w: World, event: Event, w': World, i: nat)
    requires Invariant(w) && Step(w, event, w') && |w.tasks| <= i < |w'.tasks|
    ensures w'.tasks[i].Sleeping? || w'.tasks[i].AwaitingContest?
  {
    StepTasks(w, event, w');
    hide Step, Invariant;
  }

  /** A task that sleeps on, or wakes up, or has its query answered, or starts to ask. */
  lemma DueTransition(w: World, event: Event, w': World, i: nat)
    requires Invariant(w) && Step(w, event, w') && i < |w.tasks| && Live(w', i)
    ensures var t, t' := w.tasks[i], w'.tasks[i];
            || t' == t
            || (t'.Sending? && t.Sleeping? && t'.elapsed == t.elapsed && t.wakeAt <= w.now && Live(w, i))
            || (t'.Querying? && w'.now == w.now && (t.AwaitingContest? || (t.Sending? && Live(w, i)))
                && t'.after == if t.Sending? then Max(t.elapsed, ViewerElapsed(w'.conns[t'.conn], w.now)) else ViewerElapsed(w'.conns[t'.conn], w.now))
            || (t'.Answered? && t.Querying? && t'.after == t.after)
  {
    hide NobodyAhead, OneHolder, OneConfigurer, AwaitingIsQuiet, SleepersRecorded, TimersSleep, DroppedAreIdle, LogNotEarly,
         RefreshedIsAwake, RefreshOnce, HandlerIdle, Armed, Arms, HoldsBack;
  }

  lemma StaysDue(w: World, event: Event, w': World, i: nat)
    requires Invariant(w) && AllDue(w) && Step(w, event, w') && Live(w', i)
    ensures IsDue(w', i)
  {
    if i >= |w.tasks| {
      NewTaskIsIdle(w, event, w', i);
    } else {
      StepLive(w, event, w', i);
      DueTransition(w, event, w', i);
      if Live(w, i) {
        LiveKeepsSession(w, event, w', i);
        assert IsDue(w, i);
        assert w.tasks[i].Sleeping? ==> SleeperRecorded(w, i);
      }
      hide Invariant, AllDue, Step;
    }
  }

  lemma StepDue(w: World, event: Event, w': World)
    requires Invariant(w) && AllDue(w) && Step(w, event, w')
    ensures AllDue(w')
  {
    forall i: nat | Live(w', i)
      ensures IsDue(w', i)
    {
      StaysDue(w, event, w', i);
    }
    hide Step, Invariant;
  }

  ghost predicate Asks(t: Task) { t.Querying? || t.Answered? }

  /** A lookup under way overlooks nothing. */
  ghost predicate NothingOverlooked(s: State) {
    forall i: nat, chal :: Busy(s.w, i) && Asks(s.w.tasks[i]) && Unshown(s, chal) ==> s.finished[chal].elapsed > s.w.tasks[i].after
  }

  /** A lookup starts from the viewer's elapsed time, and its query does not change what it asks for. */
  lemma AskedWhenDue(w: World, event: Event, w': World, i: nat)
    requires Invariant(w) && LiveIsRelative(w) && AllDue(w) && Step(w, event, w') && Engages(w, event) && Invariant(w')
    requires Busy(w', i) && Asks(w'.tasks[i])
    ensures event.SendDone? || event.ContestLoaded? ==> Registered(w') && w'.tasks[i].after == ViewerElapsed(Here(w'), w'.now) && w'.now == w.now
    ensures event.SendDone? || event.ContestLoaded? || event.QueryRuns?
    ensures event.QueryRuns? ==> Busy(w, i) && Asks(w.tasks[i]) && w.tasks[i].after == w'.tasks[i].after
  {
    BusyIsAlone(w', i);
    hide OneConfigurer, SleepersRecorded, TimersSleep, DroppedAreIdle, LogNotEarly, RefreshedIsAwake, RefreshOnce, HandlerIdle;
    if !event.InitScoreboard? {
      var task := match event
        case Wake(task) => task
        case SendDone(task) => task
        case QueryRuns(task, _) => task
        case ContestLoaded(task, _) => task;
      assert Busy(w', task);
      assert task == i;
      assert event.SendDone? ==> IsDue(w, i);
    }
  }

  /** The connection and the page agree on the viewer's elapsed time. */
  lemma SameClock(s: State, i: nat)
    requires Sound(s) && s.page.Some? && Busy(s.w, i)
    ensures Registered(s.w) && ViewerElapsed(Here(s.w), s.w.now) == Viewed(s.page.value, s.w.now)
  {
    BusyIsWatched(s, i);
    hide Sound;
  }

  lemma EventOverlooksNothing(s: State, event: Event, s': State, i: nat, chal: int)
    requires Sound(s) && NothingOverlooked(s) && AllDue(s.w) && Moves(s, Do(event), s') && PageIsUpToDate(s, Do(event)) && Sound(s')
    requires !event.Message? && Busy(s'.w, i) && Asks(s'.w.tasks[i]) && Unshown(s', chal)
    ensures s'.finished[chal].elapsed > s'.w.tasks[i].after
  {
    EventEffect(s, event, s');
    if Engages(s.w, event) {
      AskedWhenDue(s.w, event, s'.w, i);
      SameClock(s', i);
      hide Sound, Step, Unshown, Busy, QueryAgrees, LoadAgrees;
      EventKeepsUnshown(s, event, s', chal);
    } else if !Closes(event) && !Finds(s.w, event) && !Ends(s.w, event) {
      IdleEvent(s.w, event, s'.w);
      hide Sound, Step, Unshown, Busy;
      EventKeepsUnshown(s, event, s', chal);
    } else if Finds(s.w, event) {
      FoundKeepsPage(s, event, s');
    }
  }

  lemma OverlooksNothing(s: State, move: Move, s': State, i: nat, chal: int)
    requires Sound(s) && NothingOverlooked(s) && AllDue(s.w) && Moves(s, move, s') && PageIsUpToDate(s, move) && Sound(s')
    requires Busy(s'.w, i) && Asks(s'.w.tasks[i]) && Unshown(s', chal)
    ensures s'.finished[chal].elapsed > s'.w.tasks[i].after
  {
    if Published(s, move).Some? {
      MessageKeepsPage(s, move, s');
      if Rearms(s, Published(s, move).value) {
        MessageRearms(s, move, s');
      } else {
        MessageKeepsWorld(s, move, s');
        BusyIsWatched(s, i);
        MessageLeaves(s, move, s', chal);
        hide Sound, Moves, Unshown;
      }
    } else if move.Do? {
      EventOverlooksNothing(s, move.event, s', i, chal);
    } else {
      assert StillUnshown(s, s', chal);
      hide Sound, Unshown;
    }
  }

  /** The page has a connection that reveals later, or an init, or it may see everything and gets all updates. */
  ghost predicate Served(s: State) {
    s.page.Some? ==>
      || Watching(s.w)
      || AnyLoading(s.w)
      || (Registered(s.w) && Here(s.w).forwardUpdates && !Here(s.w).viewerRelative && s.page.value.end <= s.w.now)
  }

  lemma MessageServes(s: State, move: Move, s': State)
    requires Sound(s) && Served(s) && Moves(s, move, s') && Published(s, move).Some?
    ensures Served(s')
  {
    MessageKeepsPage(s, move, s');
    if s.page.Some? && !Rearms(s, Published(s, move).value) {
      MessageKeepsWorld(s, move, s');
      hide Sound, Moves;
    } else {
      hide Sound;
    }
  }

  /** An init that does not fail ends with a watched connection, or with a page that may see everything. */
  lemma LoadServes(s: State, event: Event, s': State)
    requires Sound(s) && Moves(s, Do(event), s') && !Fails(s.w, event) && event.ContestLoaded? && Loads(s.w, event.task)
    ensures Served(s')
  {
    LoadingIsAlone(s.w, event.task);
    hide Invariant, LiveIsRelative, AnswersFit, MessagesAgree;
    assert Here(s.w).forwardUpdates;
  }

  lemma EventServes(s: State, event: Event, s': State)
    requires Sound(s) && Served(s) && Moves(s, Do(event), s') && !event.Message? && !Fails(s.w, event)
    ensures Served(s')
  {
    if event.ContestLoaded? && Loads(s.w, event.task) {
      LoadServes(s, event, s');
    } else if event.InitScoreboard? {
      EngagedIsUnderWay(s.w, event, s'.w);
      InitIsLoading(s, event, s');
    } else if !Closes(event) {
      OthersKeepConnection(s.w, event, s'.w);
      hide Sound, Loads, QueryAgrees, LoadAgrees;
      assert s'.page == s.page && s.w.now <= s'.w.now;
    }
  }

  lemma InitIsLoading(s: State, event: Event, s': State)
    requires Moves(s, Do(event), s') && event.InitScoreboard?
    ensures AnyLoading(s'.w)
  {
    assert Loads(s'.w, |s.w.tasks|);
  }

  /** All other events leave the modes of the registered connection and its init alone. */
  lemma OthersKeepConnection(w: World, event: Event, w': World)
    requires Invariant(w) && LiveIsRelative(w) && Step(w, event, w') && !event.Message? && !Fails(w, event)
    requires !Closes(event) && !event.InitScoreboard? && !(event.ContestLoaded? && Loads(w, event.task))
    ensures w.now <= w'.now && w'.current == w.current && (Registered(w) ==> Registered(w'))
    ensures Registered(w) ==>
              var c, c' := Here(w), Here(w');
              c'.isScoreboard == c.isScoreboard && c'.viewerRelative == c.viewerRelative && c'.forwardUpdates == c.forwardUpdates
    ensures AnyLoading(w) ==> AnyLoading(w')
  {
    hide NobodyAhead, OneHolder, OneConfigurer, AwaitingIsQuiet, SleepersRecorded, TimersSleep, DroppedAreIdle, LogNotEarly,
         RefreshedIsAwake, RefreshOnce, HandlerIdle;
    if i: nat :| Loads(w, i) {
      assert Loads(w', i);
    }
  }

  lemma {:induction false} FavourableReach(states: seq<State>, moves: seq<Move>, k: nat)
    requires Runs(states, moves) && k < |states|
    requires forall j :: 0 <= j < |moves| ==> Favourable(states[j], moves[j])
    ensures Sound(states[k]) && AllDue(states[k].w) && NothingOverlooked(states[k]) && Served(states[k])
  {
    if k > 0 {
      FavourableReach(states, moves, k - 1);
      var s, move, s' := states[k - 1], moves[k - 1], states[k];
      assert Moves(s, move, states[k - 1 + 1]);
      assert Favourable(s, move);
      SoundStep(s, move, s');
      FavourableStep(s, move, s');
    }
  }

  lemma FavourableStep(s: State, move: Move, s': State)
    requires Sound(s) && AllDue(s.w) && NothingOverlooked(s) && Served(s) && Favourable(s, move) && Moves(s, move, s') && Sound(s')
    ensures AllDue(s'.w) && NothingOverlooked(s') && Served(s')
  {
    IsBaseStep(s, move, s');
    StepDue(s.w, BaseEvent(s, move), s'.w);
    if Published(s, move).Some? {
      MessageServes(s, move, s');
    } else if move.Do? {
      EventServes(s, move.event, s');
    }
    hide Sound, Unshown, Busy, AllDue, BaseEvent, Step, Fails;
    forall i: nat, chal | Busy(s'.w, i) && Asks(s'.w.tasks[i]) && Unshown(s', chal)
      ensures s'.finished[chal].elapsed > s'.w.tasks[i].after
    {
      OverlooksNothing(s, move, s', i, chal);
    }
  }

  /** A page that may see everything and gets all updates misses nothing. */
  lemma ServedMissesNothing(s: State, chal: int)
    requires Sound(s) && Served(s) && Deaf(s)
    ensures !Misses(s, chal)
  {
    hide Invariant, LiveIsRelative, RelativeForwards, AnswersFit, MessagesAgree, AnyLoading;
  }

  lemma FavourableEnds(s: State, event: Event, s': State, chal: int)
    requires Sound(s) && NothingOverlooked(s) && Favourable(s, Do(event)) && Moves(s, Do(event), s') && Ends(s.w, event)
    ensures !Unshown(s, chal)
  {
    if event.Answer? {
      AnswerWithoutNext(s, event);
    }
    hide Sound, Step, QueryAgrees;
  }

  lemma FavourableLosesNothing(s: State, move: Move, s': State)
    requires Sound(s) && NothingOverlooked(s) && Served(s) && Favourable(s, move) && Moves(s, move, s')
    ensures !Loses(s, move)
    ensures Delays(s, move) <==> Overtakes(s, move)
  {
    if move.Do? && Ends(s.w, move.event) {
      forall chal
        ensures !Unshown(s, chal)
      {
        EndedIsOpen(s.w, move.event);
        FavourableEnds(s, move.event, s', chal);
      }
    }
    if move.Deliver? && Deaf(s) {
      ServedMissesNothing(s, move.chal);
    }
    hide Sound, Moves, Ends, Favourable, Served, Deaf, Misses, Overtakes, Unshown;
  }

  /**
   Provided the page is up to date whenever the next reveal is looked up, and no query and no contest
   load fails, no interleaving loses a reveal of an open page; and all reveals are on time exactly as
   long as no update overtakes a lookup.
   */
  lemma NoRevealIsLost(states: seq<State>, moves: seq<Move>)
    requires Runs(states, moves)
    requires forall j :: 0 <= j < |moves| ==> Favourable(states[j], moves[j])
    ensures forall k :: 0 <= k < |states| ==> !Lost(states[k])
    ensures (forall k :: 0 <= k < |states| ==> OnTime(states[k])) <==> forall j :: 0 <= j < |moves| ==> !Overtakes(states[j], moves[j])
  {
    hide Sound, Lost, Loses, OnTime, Delays, Overtakes, Moves, Favourable, NothingOverlooked, AllDue, Served;
    forall j | 0 <= j < |moves|
      ensures !Loses(states[j], moves[j])
      ensures Delays(states[j], moves[j]) <==> Overtakes(states[j], moves[j])
    {
      FavourableReach(states, moves, j);
      FavourableLosesNothing(states[j], moves[j], states[j + 1]);
    }
    NeverLostExactly(states, moves);
    AlwaysOnTimeExactly(states, moves);
  }

  // ---------------------------------------------------------------- each hypothesis is needed

  type Results = map<int, Scored>

  ghost predicate AllFavourable(states: seq<State>, moves: seq<Move>)
    requires |states| == |moves| + 1
  {
    forall j :: 0 <= j < |moves| ==> Favourable(states[j], moves[j])
  }

  ghost predicate AllUpToDate(states: seq<State>, moves: seq<Move>)
    requires |states| == |moves| + 1
  {
    forall j :: 0 <= j < |moves| ==> PageIsUpToDate(states[j], moves[j])
  }

  ghost predicate NoneFails(states: seq<State>, moves: seq<Move>)
    requires |states| == |moves| + 1
  {
    forall j :: 0 <= j < |moves| && moves[j].Do? ==> !Fails(states[j].w, moves[j].event)
  }

  lemma FavourableParts(states: seq<State>, moves: seq<Move>)
    requires |states| == |moves| + 1
    ensures AllFavourable(states, moves) <==> AllUpToDate(states, moves) && NoneFails(states, moves)
  {
    hide PageIsUpToDate, Fails;
    if AllFavourable(states, moves) {
      forall j | 0 <= j < |moves|
        ensures PageIsUpToDate(states[j], moves[j]) && (moves[j].Do? ==> !Fails(states[j].w, moves[j].event))
      {
        assert Favourable(states[j], moves[j]);
      }
    }
  }

  lemma Extended(states: seq<State>, moves: seq<Move>, move: Move, s': State)
    requires Runs(states, moves) && Moves(states[|states| - 1], move, s')
    ensures Runs(states + [s'], moves + [move])
    ensures AllUpToDate(states, moves) && PageIsUpToDate(states[|states| - 1], move) ==> AllUpToDate(states + [s'], moves + [move])
    ensures NoneFails(states, moves) && (move.Do? ==> !Fails(states[|states| - 1].w, move.event)) ==> NoneFails(states + [s'], moves + [move])
  {
    hide Moves, PageIsUpToDate, Fails, Starts;
  }

  /** An open page of contest 1 with a session from 0 to 100. */
  ghost function Open(now: int, conns: seq<Conn>, tasks: seq<Task>, log: seq<Action>, finished: Results): State {
    State(World(now, Some(0), conns, tasks, log), Some(Page(1, 0, 100)), finished, map[], {}, false)
  }

  /** A connection whose init has begun, and one that watches with no timer, at generation 1. */
  ghost function Opening(): Conn { Conn(Some(1), true, true, false, 0, 0, None, None, 1) }

  ghost function Watcher(): Conn { Opening().(viewerRelative := true, sessionEnd := 100) }

  /** The page has loaded its scores at time 0, and its init waits for the contest at time `now`. */
  ghost function Loading(now: int, finished: Results): State {
    Open(now, [Opening()], [AwaitingContest(0)], [], finished)
  }

  ghost predicate NotYetVisible(finished: Results) {
    forall chal :: chal in finished ==> finished[chal].elapsed > 0
  }

  lemma LoadingRun(now: nat, finished: Results) returns (states: seq<State>, moves: seq<Move>)
    requires NotYetVisible(finished)
    ensures Runs(states, moves) && AllUpToDate(states, moves) && NoneFails(states, moves)
    ensures states[|states| - 1] == Loading(now, finished)
  {
    var w0 := World(0, None, [], [], []);
    var s0 := State(w0, None, finished, map[], {}, false);
    var s1 := s0.(w := World(0, Some(0), [FRESH], [], []));
    var s2 := Loading(0, finished).(reloading := true);
    var s3 := Loading(0, finished);
    var s4 := Loading(now, finished);
    assert Step(w0, Register, s1.w);
    assert Reset(FRESH.(contestId := Some(1), isScoreboard := true)) == Opening();
    assert Step(s1.w, InitScoreboard(1), s2.w);
    assert VisibleNow(s2) == {} by {
      forall chal
        ensures chal !in VisibleNow(s2)
      {
        if chal in finished {
          assert finished[chal].elapsed > 0;
        }
      }
    }
    assert Step(s3.w, Tick(now), s4.w);
    assert Moves(s0, Do(Register), s1) && Moves(s1, Do(InitScoreboard(1)), s2);
    assert Moves(s2, Reload(false), s3) && Moves(s3, Do(Tick(now)), s4);
    states, moves := [s0, s1, s2, s3, s4], [Do(Register), Do(InitScoreboard(1)), Reload(false), Do(Tick(now))];
    hide Moves, Step, NotYetVisible, Unshown;
  }

  /** The lookup of the first reveal has started. */
  ghost function LookingUp(now: int, finished: Results): State {
    Open(now, [Watcher()], [Querying(0, 1, true, ViewerElapsed(Watcher(), now))], [], finished)
  }

  lemma LookingUpStep(now: nat, finished: Results)
    requires NotYetVisible(finished)
    ensures Moves(Loading(now, finished), Do(ContestLoaded(0, Session(0, 100))), LookingUp(now, finished))
    ensures !Fails(Loading(now, finished).w, ContestLoaded(0, Session(0, 100)))
    ensures now == 0 ==> PageIsUpToDate(Loading(now, finished), Do(ContestLoaded(0, Session(0, 100))))
  {
    assert Configured(Opening(), Session(0, 100)) == Watcher();
    assert Step(Loading(now, finished).w, ContestLoaded(0, Session(0, 100)), LookingUp(now, finished).w);
    hide Step;
  }

  lemma LookingUpRun(now: nat, finished: Results) returns (states: seq<State>, moves: seq<Move>)
    requires NotYetVisible(finished)
    ensures Runs(states, moves) && NoneFails(states, moves) && states[|states| - 1] == LookingUp(now, finished)
    ensures now == 0 ==> AllUpToDate(states, moves)
  {
    states, moves := LoadingRun(now, finished);
    LookingUpStep(now, finished);
    hide Moves, Loading, LookingUp, PageIsUpToDate, Fails;
    Extended(states, moves, Do(ContestLoaded(0, Session(0, 100))), LookingUp(now, finished));
    states, moves := states + [LookingUp(now, finished)], moves + [Do(ContestLoaded(0, Session(0, 100)))];
  }

  // ---------------------------------------------------------------- failures

  /** A failing contest load of an init. */
  ghost predicate IsFailingLoad(event: Event) {
    event == ContestLoadRaised(0) || event == ContestLoaded(0, LoadFailed)
  }

  ghost function LoadHasFailed(event: Event): State {
    Open(0, [if event.ContestLoaded? then Opening().(forwardUpdates := false) else Opening()], [Done], [], map[7 := Scored(1, 10)])
  }

  lemma LoadFailedStep(event: Event)
    requires IsFailingLoad(event)
    ensures Moves(Loading(0, map[7 := Scored(1, 10)]), Do(event), LoadHasFailed(event)) && Lost(LoadHasFailed(event))
    ensures PageIsUpToDate(Loading(0, map[7 := Scored(1, 10)]), Do(event))
  {
    var s, s' := Loading(0, map[7 := Scored(1, 10)]), LoadHasFailed(event);
    assert Step(s.w, event, s'.w);
    hide Step;
    assert Unshown(s', 7);
    NothingBusy(s'.w);
    hide UnderWay;
  }

  lemma NothingBusy(w: World)
    requires forall t :: t in w.tasks ==> t.Done? || t.Sleeping?
    ensures !UnderWay(w)
  {
    forall i: nat
      ensures !Busy(w, i) && !Loads(w, i)
    {
      if i < |w.tasks| {
        assert w.tasks[i] in w.tasks;
      }
    }
  }

  /** A run that loses a reveal: the contest load of an init raises, or returns an error. */
  lemma FailedLoadLosesReveal(event: Event) returns (states: seq<State>, moves: seq<Move>)
    requires IsFailingLoad(event)
    ensures Runs(states, moves) && AllUpToDate(states, moves) && Lost(states[|states| - 1])
    ensures moves[|moves| - 1..] == [Do(event)] && NoneFails(states[..|states| - 1], moves[..|moves| - 1])
  {
    var before, earlier := LoadingRun(0, map[7 := Scored(1, 10)]);
    LoadFailedStep(event);
    hide Moves, Loading, LoadHasFailed, PageIsUpToDate, Fails, Lost;
    Extended(before, earlier, Do(event), LoadHasFailed(event));
    states, moves := before + [LoadHasFailed(event)], earlier + [Do(event)];
    assert states[..|states| - 1] == before && moves[..|moves| - 1] == earlier;
  }

  /** The query of the init has failed. */
  ghost function LookupHasFailed(): State {
    Open(0, [Watcher()], [Done], [], map[7 := Scored(1, 10)])
  }

  lemma LookupFailedStep()
    ensures Moves(LookingUp(0, map[7 := Scored(1, 10)]), Do(QueryFailed(0)), LookupHasFailed()) && Lost(LookupHasFailed())
    ensures PageIsUpToDate(LookingUp(0, map[7 := Scored(1, 10)]), Do(QueryFailed(0)))
  {
    assert Step(LookingUp(0, map[7 := Scored(1, 10)]).w, QueryFailed(0), LookupHasFailed().w);
    hide Step;
    assert Unshown(LookupHasFailed(), 7);
    NothingBusy(LookupHasFailed().w);
    hide UnderWay;
  }

  /** A run that loses a reveal: the query of an init fails, and nothing is pending afterwards. */
  lemma FailedLookupLosesReveal() returns (states: seq<State>, moves: seq<Move>)
    ensures Runs(states, moves) && AllUpToDate(states, moves) && Lost(states[|states| - 1])
    ensures moves[|moves| - 1..] == [Do(QueryFailed(0))] && NoneFails(states[..|states| - 1], moves[..|moves| - 1])
  {
    var before, earlier := LookingUpRun(0, map[7 := Scored(1, 10)]);
    LookupFailedStep();
    hide Moves, LookingUp, LookupHasFailed, PageIsUpToDate, Fails, Lost;
    Extended(before, earlier, Do(QueryFailed(0)), LookupHasFailed());
    states, moves := before + [LookupHasFailed()], earlier + [Do(QueryFailed(0))];
    assert states[..|states| - 1] == before && moves[..|moves| - 1] == earlier;
  }

  // ---------------------------------------------------------------- a failing query of a timer task

  ghost function Two(): Results { map[7 := Scored(1, 10), 8 := Scored(1, 20)] }

  /** A timer for elapsed time 10 is armed, generation 2. */
  ghost function Armed10(): Conn { Watcher().(scheduled := Some(10), timer := Some(Timer(1, 10, 2, 10)), generation := 2) }

  ghost function Timed(now: int): State {
    Open(now, [Armed10()], [Done, Sleeping(0, 10, 2, 10)], [Arm(0, 0)], Two())
  }

  ghost function Woken10(tasks: seq<Task>): State {
    Open(10, [Watcher().(generation := 2)], [Done] + tasks, [Arm(0, 0), Refresh(1, 0, 2, 10, 10)], Two()).(covered := {7})
  }

  ghost function GivenUp(): State {
    var s := Woken10([Done]);
    s.(w := s.w.(current := None, conns := [Watcher().(generation := 3)]))
  }

  lemma FindsTen()
    ensures Moves(LookingUp(0, Two()), Do(QueryRuns(0, Some(10))), Open(0, [Watcher()], [Answered(0, 1, true, 0, Some(10))], [], Two()))
  {
    var s, s' := LookingUp(0, Two()), Open(0, [Watcher()], [Answered(0, 1, true, 0, Some(10))], [], Two());
    var rows := RowsOf(Two(), Some(1));
    assert 7 in rows && rows[7] == 10;
    assert Reveal.NextElapsed(rows, 0, 100, Some(10));
    assert Step(s.w, QueryRuns(0, Some(10)), s'.w);
    hide Step, Live;
  }

  lemma ArmsTen()
    ensures Moves(Open(0, [Watcher()], [Answered(0, 1, true, 0, Some(10))], [], Two()), Do(Answer(0)), Timed(0))
  {
    var s := Open(0, [Watcher()], [Answered(0, 1, true, 0, Some(10))], [], Two());
    assert Armed(Watcher(), Some(10), 0, 1) == Armed10();
    assert ArmedWorld(WithTask(s.w, 0, Done), 0, Some(10)).(log := [Arm(0, 0)]) == Timed(0).w;
    assert Step(s.w, Answer(0), Timed(0).w);
    hide Step, ArmedWorld;
  }

  lemma WaitsTillTen()
    ensures Moves(Timed(0), Do(Tick(10)), Timed(10))
  {
  }

  lemma WakesAtTen()
    ensures Moves(Timed(10), Do(Wake(1)), Woken10([Sending(0, 10, 2)]).(covered := {}, reloading := true))
  {
    var s' := Woken10([Sending(0, 10, 2)]).(covered := {}, reloading := true);
    assert TimerTaken(Armed10()) == Watcher().(generation := 2);
    assert Step(Timed(10).w, Wake(1), s'.w);
    hide Step;
  }

  lemma ShowsSeven()
    ensures Moves(Woken10([Sending(0, 10, 2)]).(covered := {}, reloading := true), Reload(false), Woken10([Sending(0, 10, 2)]))
  {
    var s := Woken10([Sending(0, 10, 2)]).(covered := {}, reloading := true);
    assert VisibleNow(s) == {7};
  }

  lemma AsksAgain()
    ensures Moves(Woken10([Sending(0, 10, 2)]), Do(SendDone(1)), Woken10([Querying(0, 2, false, 10)]))
    ensures PageIsUpToDate(Woken10([Sending(0, 10, 2)]), Do(SendDone(1)))
  {
    assert Step(Woken10([Sending(0, 10, 2)]).w, SendDone(1), Woken10([Querying(0, 2, false, 10)]).w);
    hide Step;
  }

  lemma GivesUp()
    ensures Moves(Woken10([Querying(0, 2, false, 10)]), Do(QueryFailed(1)), GivenUp()) && Lost(GivenUp())
  {
    assert Step(Woken10([Querying(0, 2, false, 10)]).w, QueryFailed(1), GivenUp().w);
    hide Step;
    assert Unshown(GivenUp(), 8);
    NobodyIsIdle(GivenUp().w);
    hide Pending;
  }

  /** Neither a failure nor a moment at which the page must be up to date. */
  ghost predicate Harmless(move: Move) {
    move.Do? ==> !move.event.QueryFailed? && !move.event.ContestLoaded? && !move.event.ContestLoadRaised? && !move.event.SendDone?
  }

  lemma HarmlessIsFavourable(s: State, move: Move)
    requires Harmless(move)
    ensures PageIsUpToDate(s, move) && (move.Do? ==> !Fails(s.w, move.event))
  {
  }

  lemma ExtendedHarmlessly(states: seq<State>, moves: seq<Move>, move: Move, s': State) returns (states': seq<State>, moves': seq<Move>)
    requires Runs(states, moves) && Moves(states[|states| - 1], move, s') && Harmless(move)
    ensures states' == states + [s'] && moves' == moves + [move] && Runs(states', moves') && states'[|states'| - 1] == s'
    ensures AllUpToDate(states, moves) ==> AllUpToDate(states', moves')
    ensures NoneFails(states, moves) ==> NoneFails(states', moves')
  {
    HarmlessIsFavourable(states[|states| - 1], move);
    Extended(states, moves, move, s');
    states', moves' := states + [s'], moves + [move];
  }

  lemma TimedRun() returns (states: seq<State>, moves: seq<Move>)
    ensures Runs(states, moves) && AllUpToDate(states, moves) && NoneFails(states, moves) && states[|states| - 1] == Timed(10)
  {
    states, moves := LookingUpRun(0, Two());
    FindsTen();
    ArmsTen();
    WaitsTillTen();
    hide Moves, LookingUp, Timed, Open, AllUpToDate, NoneFails, Runs;
    var answered := Open(0, [Watcher()], [Answered(0, 1, true, 0, Some(10))], [], Two());
    states, moves := ExtendedHarmlessly(states, moves, Do(QueryRuns(0, Some(10))), answered);
    states, moves := ExtendedHarmlessly(states, moves, Do(Answer(0)), Timed(0));
    states, moves := ExtendedHarmlessly(states, moves, Do(Tick(10)), Timed(10));
  }

  lemma SentRun() returns (states: seq<State>, moves: seq<Move>)
    ensures Runs(states, moves) && AllUpToDate(states, moves) && NoneFails(states, moves)
    ensures states[|states| - 1] == Woken10([Sending(0, 10, 2)])
  {
    states, moves := TimedRun();
    WakesAtTen();
    ShowsSeven();
    hide Moves, Timed, Woken10, AllUpToDate, NoneFails, Runs;
    states, moves := ExtendedHarmlessly(states, moves, Do(Wake(1)), Woken10([Sending(0, 10, 2)]).(covered := {}, reloading := true));
    states, moves := ExtendedHarmlessly(states, moves, Reload(false), Woken10([Sending(0, 10, 2)]));
  }

  /**
   A run that loses a reveal: the query of a timer task fails, the server gives up the connection
   state, and the page stays open with the result at 20 unshown.
   */
  lemma FailedTimerQueryLosesReveal() returns (states: seq<State>, moves: seq<Move>)
    ensures Runs(states, moves) && AllUpToDate(states, moves) && Lost(states[|states| - 1])
    ensures moves[|moves| - 1..] == [Do(QueryFailed(1))] && NoneFails(states[..|states| - 1], moves[..|moves| - 1])
    ensures var last := states[|states| - 1]; last.page.Some? && last.w.current.None? && Unshown(last, 8)
  {
    var sent, earlier := SentRun();
    AsksAgain();
    GivesUp();
    GivenUpIsOpen();
    hide Moves, Woken10, GivenUp, PageIsUpToDate, Lost, Unshown, Runs, AllUpToDate, NoneFails;
    var asked := Woken10([Querying(0, 2, false, 10)]);
    Extended(sent, earlier, Do(SendDone(1)), asked);
    Extended(sent + [asked], earlier + [Do(SendDone(1))], Do(QueryFailed(1)), GivenUp());
    FailureIsUpToDate(asked, 1);
    states, moves := sent + [asked] + [GivenUp()], earlier + [Do(SendDone(1))] + [Do(QueryFailed(1))];
    assert states[..|states| - 1] == sent + [asked] && moves[..|moves| - 1] == earlier + [Do(SendDone(1))];
  }

  lemma FailureIsUpToDate(s: State, task: nat)
    ensures PageIsUpToDate(s, Do(QueryFailed(task)))
  {
  }

  lemma GivenUpIsOpen()
    ensures GivenUp().page.Some? && GivenUp().w.current.None? && Unshown(GivenUp(), 8)
  {
  }

  // ---------------------------------------------------------------- an old page, and an overtaken lookup

  lemma FindsNothingLater()
    ensures Moves(LookingUp(20, map[7 := Scored(1, 10)]), Do(QueryRuns(0, None)),
                  Open(20, [Watcher()], [Answered(0, 1, true, 20, None)], [], map[7 := Scored(1, 10)]))
  {
    var s, s' := LookingUp(20, map[7 := Scored(1, 10)]), Open(20, [Watcher()], [Answered(0, 1, true, 20, None)], [], map[7 := Scored(1, 10)]);
    assert Step(s.w, QueryRuns(0, None), s'.w);
    hide Step, Live;
  }

  lemma ArmsNothing()
    ensures Moves(Open(20, [Watcher()], [Answered(0, 1, true, 20, None)], [], map[7 := Scored(1, 10)]), Do(Answer(0)),
                  Open(20, [Watcher()], [Done], [], map[7 := Scored(1, 10)]))
    ensures Lost(Open(20, [Watcher()], [Done], [], map[7 := Scored(1, 10)]))
  {
    var s, s' := Open(20, [Watcher()], [Answered(0, 1, true, 20, None)], [], map[7 := Scored(1, 10)]), Open(20, [Watcher()], [Done], [], map[7 := Scored(1, 10)]);
    assert WithTask(s.w, 0, Done) == s'.w && ArmedWorld(s'.w, 0, None) == s'.w;
    assert Step(s.w, Answer(0), s'.w);
    hide Step, ArmedWorld;
    assert Unshown(s', 7);
    NothingBusy(s'.w);
    hide UnderWay;
  }

  /** A run without failures that loses a reveal: the page was loaded at elapsed time 0, the lookup starts at 20. */
  lemma StalePageLosesReveal() returns (states: seq<State>, moves: seq<Move>)
    ensures Runs(states, moves) && NoneFails(states, moves) && Lost(states[|states| - 1])
  {
    states, moves := LookingUpRun(20, map[7 := Scored(1, 10)]);
    FindsNothingLater();
    ArmsNothing();
    hide Moves, LookingUp, Open, Lost, NoneFails, Runs, AllUpToDate;
    var answered, done := Open(20, [Watcher()], [Answered(0, 1, true, 20, None)], [], map[7 := Scored(1, 10)]), Open(20, [Watcher()], [Done], [], map[7 := Scored(1, 10)]);
    states, moves := ExtendedHarmlessly(states, moves, Do(QueryRuns(0, None)), answered);
    states, moves := ExtendedHarmlessly(states, moves, Do(Answer(0)), done);
  }

  /** The result at 20 finishes while the one at 10 is being looked up, and again after it has been found. */
  ghost function Finishing(tasks: seq<Task>): State {
    Open(0, [Watcher()], tasks, [], Two()).(inFlight := map[8 := Scored(1, 20)])
  }

  ghost function Armed20(): Conn { Watcher().(scheduled := Some(20), timer := Some(Timer(1, 20, 2, 20)), generation := 2) }

  ghost function Overtaken(first: Task): State {
    Open(0, [Armed20()], [first, Sleeping(0, 20, 2, 20)], [], Two())
  }

  lemma Finishes()
    ensures Moves(LookingUp(0, map[7 := Scored(1, 10)]), Finish(8, Scored(1, 20)), Finishing([Querying(0, 1, true, 0)]))
  {
    assert map[7 := Scored(1, 10)][8 := Scored(1, 20)] == Two();
  }

  lemma FindsTenAgain()
    ensures Moves(Finishing([Querying(0, 1, true, 0)]), Do(QueryRuns(0, Some(10))), Finishing([Answered(0, 1, true, 0, Some(10))]))
  {
    var s, s' := Finishing([Querying(0, 1, true, 0)]), Finishing([Answered(0, 1, true, 0, Some(10))]);
    var rows := RowsOf(Two(), Some(1));
    assert 7 in rows && rows[7] == 10;
    assert Reveal.NextElapsed(rows, 0, 100, Some(10));
    assert Step(s.w, QueryRuns(0, Some(10)), s'.w);
    hide Step, Live;
  }

  lemma IsOvertaken()
    ensures Moves(Finishing([Answered(0, 1, true, 0, Some(10))]), Deliver(8), Overtaken(Answered(0, 1, true, 0, Some(10))))
  {
    var s, s' := Finishing([Answered(0, 1, true, 0, Some(10))]), Overtaken(Answered(0, 1, true, 0, Some(10)));
    assert s.inFlight - {8} == map[];
    assert HoldsBack(Watcher(), Update(1, Some(20)), 0) && Armed(Watcher(), Some(20), 0, 1) == Armed20();
    assert ArmedWorld(s.w, 0, Some(20)) == s'.w;
    assert Step(s.w, Message(Update(1, Some(20))), s'.w);
    hide Step, ArmedWorld, Armed;
  }

  lemma IsDiscarded()
    ensures Moves(Overtaken(Answered(0, 1, true, 0, Some(10))), Do(Answer(0)), Overtaken(Done))
    ensures Unshown(Overtaken(Done), 7) && Scheduled(Overtaken(Done).w) == Some(20) && !OnTime(Overtaken(Done))
  {
    var s := Overtaken(Answered(0, 1, true, 0, Some(10)));
    assert WithTask(s.w, 0, Done) == Overtaken(Done).w;
    assert Step(s.w, Answer(0), Overtaken(Done).w);
    hide Step;
    NothingBusy(Overtaken(Done).w);
    hide UnderWay;
  }

  /**
   A run without failures and with an up-to-date page that makes a reveal late: the query has found
   the result at 10, but before its answer is taken up the update for the result at 20 starts its own
   timer.
   */
  lemma UpdateDuringQueryDiscardsAnswer() returns (states: seq<State>, moves: seq<Move>)
    ensures Runs(states, moves) && AllUpToDate(states, moves) && NoneFails(states, moves)
    ensures var last := states[|states| - 1];
            Unshown(last, 7) && last.finished[7].elapsed == 10 && Scheduled(last.w) == Some(20) && !OnTime(last)
  {
    states, moves := LookingUpRun(0, map[7 := Scored(1, 10)]);
    Finishes();
    FindsTenAgain();
    IsOvertaken();
    IsDiscarded();
    assert Overtaken(Done).finished[7].elapsed == 10;
    hide Moves, LookingUp, Finishing, Overtaken, Unshown, OnTime, Runs, NoneFails, AllUpToDate;
    states, moves := ExtendedHarmlessly(states, moves, Finish(8, Scored(1, 20)), Finishing([Querying(0, 1, true, 0)]));
    states, moves := ExtendedHarmlessly(states, moves, Do(QueryRuns(0, Some(10))), Finishing([Answered(0, 1, true, 0, Some(10))]));
    states, moves := ExtendedHarmlessly(states, moves, Deliver(8), Overtaken(Answered(0, 1, true, 0, Some(10))));
    states, moves := ExtendedHarmlessly(states, moves, Do(Answer(0)), Overtaken(Done));
  }
}
