/**
 The per-connection state of ContestScoreboardCallback (src/handlers/contests/scoreboard.py) and the
 handlers that change it between two await points. Times and elapsed times are whole microseconds.

 Each method is specified by a function on `Conn` values, on which the two state machines of
 ScoreboardReveal and ScoreboardTasks are built.
 */
module ScoreboardConnection {
  import opened Collections
  import opened Wrappers

  /** A task created by _arm_elapsed: it wakes at `wakeAt` and then checks `generation`. */
  datatype Timer = Timer(id: nat, elapsed: int, generation: nat, wakeAt: int)

  datatype Conn = Conn(
    contestId: Option<int>, isScoreboard: bool, forwardUpdates: bool, viewerRelative: bool,
    sessionStart: int, sessionEnd: int, scheduled: Option<int>, timer: Option<Timer>, generation: nat)

  datatype Update = Update(contestId: int, elapsed: Option<int>)

  const FRESH: Conn := Conn(None, false, true, false, 0, 0, None, None, 0)

  /** _cancel_timer */
  function Cancelled(c: Conn): Conn {
    c.(generation := c.generation + 1, timer := None, scheduled := None)
  }

  /** _viewer_elapsed */
  function ViewerElapsed(c: Conn, now: int): (v: int)
    ensures v >= 0
    ensures c.sessionStart <= now <= c.sessionEnd ==> v == now - c.sessionStart
    ensures c.sessionStart <= c.sessionEnd <= now ==> v == c.sessionEnd - c.sessionStart
    ensures now <= c.sessionStart ==> v == 0
  {
    Max(Min(now, c.sessionEnd) - c.sessionStart, 0)
  }

  function SessionLength(c: Conn): int { c.sessionEnd - c.sessionStart }

  predicate Arms(c: Conn, elapsed: Option<int>) {
    && elapsed.Some? && elapsed.value <= SessionLength(c)
    && (c.scheduled.Some? ==> elapsed.value < c.scheduled.value)
  }

  /** The connection after _arm_elapsed; `id` names the task that may be created. */
  function Armed(c: Conn, elapsed: Option<int>, now: int, id: nat): Conn {
    if Arms(c, elapsed) then
      Cancelled(c).(scheduled := elapsed,
                    timer := Some(Timer(id, elapsed.value, c.generation + 1, Max(c.sessionStart + elapsed.value, now))))
    else c
  }

  /** Whether a published update is passed on to the browser at once. */
  predicate Forwards(c: Conn, update: Update, now: int) {
    && c.contestId == Some(update.contestId)
    && (c.isScoreboard ==> c.forwardUpdates)
    && (c.isScoreboard && c.viewerRelative ==> update.elapsed.Some? && update.elapsed.value <= ViewerElapsed(c, now))
  }

  /** Whether it is kept back until the viewer reaches the same elapsed time. */
  predicate HoldsBack(c: Conn, update: Update, now: int) {
    && c.contestId == Some(update.contestId)
    && c.isScoreboard && c.forwardUpdates && c.viewerRelative
    && update.elapsed.Some? && update.elapsed.value > ViewerElapsed(c, now)
  }

  /** The connection after message(). */
  function AfterMessage(c: Conn, update: Update, now: int, id: nat): Conn {
    if HoldsBack(c, update, now) then Armed(c, update.elapsed, now, id) else c
  }

  /** The connection when _notify_at_elapsed has passed its check and is about to send. */
  function TimerTaken(c: Conn): Conn {
    c.(timer := None, scheduled := None)
  }

  /** What _configure_scoreboard makes of the loaded contest. */
  datatype Loaded = LoadFailed | PlainUpdates | NotStarted | Session(start: int, end: int)

  /** The loaded contest as the account of the connection sees it; `session` is its official session. */
  datatype ContestView = ContestView(flexible: bool, isAdmin: bool, end: int, isApproved: bool, session: Option<(int, int)>)

  /** get_contest returns an error, or the contest. */
  function Outcome(contest: Option<ContestView>, now: int): Loaded {
    match contest
    case None => LoadFailed
    case Some(v) =>
      if !v.flexible || v.isAdmin || now >= v.end then PlainUpdates
      else if v.isApproved && v.session.Some? then Session(v.session.value.0, v.session.value.1)
      else NotStarted
  }

  /** The connection when _configure_scoreboard starts to wait for the contest. */
  function Reset(c: Conn): Conn {
    Cancelled(c).(forwardUpdates := true, viewerRelative := false, sessionStart := 0, sessionEnd := 0)
  }

  function Configured(c: Conn, loaded: Loaded): Conn {
    match loaded
    case LoadFailed => c.(forwardUpdates := false)
    case PlainUpdates => c
    case NotStarted => c.(forwardUpdates := false)
    case Session(start, end) => c.(viewerRelative := true, sessionStart := start, sessionEnd := end)
  }

  /** The viewer may see every result at once: the contest is not flexible, the account is an admin, or the contest has ended. */
  ghost predicate SeesEverything(v: ContestView, now: int) {
    !v.flexible || v.isAdmin || v.end <= now
  }

  /** A contestant on an own clock. */
  ghost predicate SeesLater(v: ContestView, now: int) {
    !SeesEverything(v, now) && v.isApproved && v.session.Some?
  }

  /** What a connection is after _configure_scoreboard, for every contest that may have been loaded. */
  lemma ConfiguredExactly(c: Conn, contest: Option<ContestView>, now: int)
    ensures var c' := Configured(Reset(c), Outcome(contest, now));
            && (c'.forwardUpdates <==> contest.Some? && (SeesEverything(contest.value, now) || SeesLater(contest.value, now)))
            && (c'.viewerRelative <==> contest.Some? && SeesLater(contest.value, now))
            && (c'.viewerRelative ==> contest.value.session == Some((c'.sessionStart, c'.sessionEnd)))
            && c'.timer.None? && c'.scheduled.None? && c'.generation == c.generation + 1
            && c'.contestId == c.contestId && c'.isScoreboard == c.isScoreboard
  {
  }

  /** The scoreboard page of a viewer who sees everything gets every update of its contest, whenever and with whatever elapsed time. */
  lemma EverythingIsForwarded(c: Conn, view: ContestView, now: int, update: Update, later: int)
    requires SeesEverything(view, now) && c.contestId == Some(update.contestId)
    ensures Forwards(Configured(Reset(c), Outcome(Some(view), now)), update, later)
    ensures !HoldsBack(Configured(Reset(c), Outcome(Some(view), now)), update, later)
  {
  }

  /** A viewer who sees results later gets exactly those already visible, and a viewer without a session none. */
  lemma VisibleIsForwarded(c: Conn, view: ContestView, now: int, update: Update, later: int)
    requires !SeesEverything(view, now) && c.isScoreboard && c.contestId == Some(update.contestId)
    ensures Forwards(Configured(Reset(c), Outcome(Some(view), now)), update, later) <==>
              && view.isApproved && view.session.Some? && update.elapsed.Some?
              && var (start, end) := view.session.value;
                 update.elapsed.value <= 0 || (start + update.elapsed.value <= later && update.elapsed.value <= end - start)
  {
  }

  /** _ContestScoreboardConnectionState, updated in place by the handlers. */
  class ConnectionState {
    var contestId: Option<int>
    var isScoreboard: bool
    var forwardUpdates: bool
    var viewerRelative: bool
    var sessionStart: int
    var sessionEnd: int
    var scheduledElapsed: Option<int>
    var timerTask: Option<Timer>
    var generation: nat

    function Value(): Conn
      reads this
    {
      Conn(contestId, isScoreboard, forwardUpdates, viewerRelative, sessionStart, sessionEnd,
           scheduledElapsed, timerTask, generation)
    }

    constructor ()
      ensures Value() == FRESH
    {
      contestId, isScoreboard, forwardUpdates, viewerRelative := None, false, true, false;
      sessionStart, sessionEnd, scheduledElapsed, timerTask, generation := 0, 0, None, None, 0;
    }

    /** `cancelled` is the task whose cancellation is requested. */
    method CancelTimer() returns (cancelled: Option<Timer>)
      modifies this
      ensures Value() == Cancelled(old(Value()))
      ensures cancelled == old(timerTask)
    {
      generation := generation + 1;
      cancelled := timerTask;
      timerTask := None;
      scheduledElapsed := None;
    }

    method ArmElapsed(elapsed: Option<int>, now: int, freshTask: nat) returns (cancelled: Option<Timer>)
      modifies this
      ensures Value() == Armed(old(Value()), elapsed, now, freshTask)
      ensures cancelled == if Arms(old(Value()), elapsed) then old(timerTask) else None
      ensures var arms := && elapsed.Some? && elapsed.value <= old(sessionEnd) - old(sessionStart)
                          && (old(scheduledElapsed).None? || elapsed.value < old(scheduledElapsed).value);
              if arms then
                && scheduledElapsed == elapsed && generation == old(generation) + 1 && cancelled == old(timerTask)
                && timerTask.Some? && timerTask.value.id == freshTask
                && timerTask.value.elapsed == elapsed.value && timerTask.value.generation == generation
                && timerTask.value.wakeAt >= now && timerTask.value.wakeAt >= sessionStart + elapsed.value
                && timerTask.value.wakeAt in {now, sessionStart + elapsed.value}
              else
                scheduledElapsed == old(scheduledElapsed) && generation == old(generation) && timerTask == old(timerTask)
      ensures contestId == old(contestId) && isScoreboard == old(isScoreboard) && forwardUpdates == old(forwardUpdates)
      ensures viewerRelative == old(viewerRelative) && sessionStart == old(sessionStart) && sessionEnd == old(sessionEnd)
    {
      cancelled := None;
      if elapsed.None? || elapsed.value > sessionEnd - sessionStart {
        return;
      }
      if scheduledElapsed.Some? && scheduledElapsed.value <= elapsed.value {
        return;
      }
      cancelled := CancelTimer();
      scheduledElapsed := elapsed;
      var delay := Max(sessionStart + elapsed.value - now, 0);
      timerTask := Some(Timer(freshTask, elapsed.value, generation, now + delay));
    }

    /** message(): the result says whether the update is forwarded. */
    method Message(update: Update, now: int, freshTask: nat) returns (forward: bool)
      modifies this
      ensures forward == Forwards(old(Value()), update, now)
      ensures Value() == AfterMessage(old(Value()), update, now, freshTask)
      ensures forward ==> Value() == old(Value())
      ensures forward <==>
                && old(contestId) == Some(update.contestId)
                && (|| !old(isScoreboard)
                    || (old(forwardUpdates) && !old(viewerRelative))
                    || (old(forwardUpdates) && update.elapsed.Some? && update.elapsed.value <= old(ViewerElapsed(Value(), now))))
      ensures Value() != old(Value()) ==>
                && !forward && old(viewerRelative) && update.elapsed.Some?
                && scheduledElapsed == update.elapsed && timerTask.Some?
      ensures old(contestId) == Some(update.contestId) && old(isScoreboard) && !forward && update.elapsed.Some?
              && old(forwardUpdates) && update.elapsed.value <= old(sessionEnd) - old(sessionStart) ==>
                scheduledElapsed.Some? && scheduledElapsed.value <= update.elapsed.value
    {
      if contestId.None? || update.contestId != contestId.value {
        return false;
      }
      if !isScoreboard {
        return true;
      }
      if !forwardUpdates {
        return false;
      }
      if !viewerRelative {
        return true;
      }
      if update.elapsed.None? {
        return false;
      }
      if update.elapsed.value <= ViewerElapsed(Value(), now) {
        return true;
      }
      var _ := ArmElapsed(update.elapsed, now, freshTask);
      return false;
    }

    /** The part of _notify_at_elapsed between waking up and sending; false means it gives up. */
    method TakeTimer(isCurrent: bool, expected: nat) returns (proceed: bool)
      modifies this
      ensures proceed == (isCurrent && old(generation) == expected)
      ensures Value() == if proceed then TimerTaken(old(Value())) else old(Value())
      ensures proceed ==> timerTask.None? && scheduledElapsed.None? && generation == old(generation)
    {
      if !isCurrent || generation != expected {
        return false;
      }
      timerTask := None;
      scheduledElapsed := None;
      return true;
    }

    /** _configure_scoreboard up to its first await. */
    method BeginConfigure() returns (cancelled: Option<Timer>)
      modifies this
      ensures Value() == Reset(old(Value())) && cancelled == old(timerTask)
      ensures forwardUpdates && !viewerRelative && timerTask.None? && scheduledElapsed.None? && generation == old(generation) + 1
      ensures sessionStart == sessionEnd == 0
      ensures contestId == old(contestId) && isScoreboard == old(isScoreboard)
    {
      cancelled := CancelTimer();
      forwardUpdates := true;
      viewerRelative := false;
      sessionStart := 0;
      sessionEnd := 0;
    }

    /**
     _configure_scoreboard after the contest has been loaded: reveals are scheduled exactly for an
     approved contestant with a session, in a flexible contest that has not ended, who is no admin.
     */
    method FinishConfigure(contest: Option<ContestView>, now: int) returns (schedule: bool)
      modifies this
      ensures Value() == Configured(old(Value()), Outcome(contest, now))
      ensures schedule <==>
                && contest.Some? && contest.value.flexible && !contest.value.isAdmin && now < contest.value.end
                && contest.value.isApproved && contest.value.session.Some?
      ensures forwardUpdates ==
                (old(forwardUpdates) && contest.Some?
                 && (|| !contest.value.flexible || contest.value.isAdmin || contest.value.end <= now
                     || (contest.value.isApproved && contest.value.session.Some?)))
      ensures viewerRelative == (old(viewerRelative) || schedule)
      ensures schedule ==> contest.value.session == Some((sessionStart, sessionEnd))
      ensures !schedule ==> sessionStart == old(sessionStart) && sessionEnd == old(sessionEnd)
      ensures timerTask == old(timerTask) && scheduledElapsed == old(scheduledElapsed) && generation == old(generation)
    {
      if contest.None? {
        forwardUpdates := false;
        return false;
      }
      var view := contest.value;
      if !view.flexible {
        return false;
      }
      if view.isAdmin {
        return false;
      }
      if now >= view.end {
        return false;
      }
      if !view.isApproved || view.session.None? {
        forwardUpdates := false;
        return false;
      }
      viewerRelative := true;
      sessionStart := view.session.value.0;
      sessionEnd := view.session.value.1;
      return true;
    }
  }
}
