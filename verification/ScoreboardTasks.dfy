/**
 Timer safety with every await point split (src/handlers/contests/scoreboard.py): timer tasks,
 configuration handlers, messages and disconnects of one websocket interleave arbitrarily.

 A websocket's own messages are handled one after the other, so at most one init is being
 processed at a time; published updates and the cleanup of a closed connection come in between.
 Each registration creates a new connection-state object; old ones stay reachable from old tasks.
 */
module ScoreboardTasks {
  import opened Collections
  import opened Wrappers
  import opened ScoreboardConnection

  /** Where a task is suspended. `conn` is the index of its connection-state object. */
  datatype Task =
    | Sleeping(conn: nat, elapsed: int, generation: nat, wakeAt: int)
    | Sending(conn: nat, elapsed: int, generation: nat)
    | Querying(conn: nat, generation: nat, configuring: bool, after: int)
    | Answered(conn: nat, generation: nat, configuring: bool, after: int, next: Option<int>)
    | AwaitingContest(conn: nat)
    | Done

  /** What a task has done: started a refresh, or armed a timer. */
  datatype Action =
    | Refresh(task: nat, conn: nat, generation: nat, at: int, notBefore: int)
    | Arm(task: nat, conn: nat)

  datatype World = World(now: int, current: Option<nat>, conns: seq<Conn>, tasks: seq<Task>, log: seq<Action>)

  datatype Event =
    | Tick(duration: nat)
    | Register
    | Unregister
    | InitPlain(contestId: int)
    | InitScoreboard(contestId: int)
    | ContestLoaded(task: nat, loaded: Loaded)
    | ContestLoadRaised(task: nat)
    | Message(update: Update)
    | Wake(task: nat)
    | CancelDelivered(task: nat)
    | SendDone(task: nat)
    | SendFailed(task: nat)
    | QueryRuns(task: nat, next: Option<int>)
    | Answer(task: nat)
    | QueryFailed(task: nat)

  /** The task works with a generation it has read. */
  predicate HasGeneration(t: Task) {
    t.Sleeping? || t.Sending? || t.Querying? || t.Answered?
  }

  /** An init message is still being processed. */
  ghost predicate Configuring(t: Task) {
    t.AwaitingContest? || ((t.Querying? || t.Answered?) && t.configuring)
  }

  ghost predicate HandlerIdle(w: World) {
    forall i :: 0 <= i < |w.tasks| ==> !Configuring(w.tasks[i])
  }

  ghost predicate IsCurrent(w: World, conn: nat) {
    w.current == Some(conn) && conn < |w.conns|
  }

  ghost function WithConn(w: World, conn: nat, c: Conn): World
    requires conn < |w.conns|
  {
    w.(conns := w.conns[conn := c])
  }

  ghost function WithTask(w: World, task: nat, t: Task): World
    requires task < |w.tasks|
  {
    w.(tasks := w.tasks[task := t])
  }

  /** unregister(): whatever object is registered is dropped and its timer cancelled. */
  ghost function Unregistered(w: World): World {
    if w.current.Some? && w.current.value < |w.conns|
    then WithConn(w, w.current.value, Cancelled(w.conns[w.current.value])).(current := None)
    else w.(current := None)
  }

  /** _arm_elapsed on connection `conn`; a new timer task gets the next task number. */
  ghost function ArmedWorld(w: World, conn: nat, elapsed: Option<int>): World
    requires conn < |w.conns|
  {
    var c := w.conns[conn];
    if !Arms(c, elapsed) then w
    else
      var c' := Armed(c, elapsed, w.now, |w.tasks|);
      WithConn(w, conn, c').(
        tasks := w.tasks + [Sleeping(conn, elapsed.value, c'.generation, c'.timer.value.wakeAt)])
  }

  ghost predicate Step(w: World, event: Event, w': World) {
    match event
    case Tick(duration) => w' == w.(now := w.now + duration)
    case Register =>
      && HandlerIdle(w)
      && var w1 := Unregistered(w); w' == w1.(conns := w1.conns + [FRESH], current := Some(|w1.conns|))
    case Unregister => w' == Unregistered(w)
    case InitPlain(contestId) =>
      && HandlerIdle(w) && w.current.Some? && IsCurrent(w, w.current.value)
      && var i := w.current.value;
         w' == WithConn(w, i, w.conns[i].(contestId := Some(contestId), isScoreboard := false))
    case InitScoreboard(contestId) =>
      && HandlerIdle(w) && w.current.Some? && IsCurrent(w, w.current.value)
      && var i := w.current.value;
         w' == WithConn(w, i, Reset(w.conns[i].(contestId := Some(contestId), isScoreboard := true)))
               .(tasks := w.tasks + [AwaitingContest(i)])
    case ContestLoaded(task, loaded) =>
      && task < |w.tasks| && w.tasks[task].AwaitingContest? && w.tasks[task].conn < |w.conns|
      && var i := w.tasks[task].conn;
         var c := Configured(w.conns[i], loaded);
         w' == WithTask(WithConn(w, i, c), task, if loaded.Session? then Querying(i, c.generation, true, ViewerElapsed(c, w.now)) else Done)
    case ContestLoadRaised(task) =>
      && task < |w.tasks| && w.tasks[task].AwaitingContest?
      && w' == WithTask(w, task, Done)
    case Message(update) =>
      && w.current.Some? && IsCurrent(w, w.current.value)
      && var i := w.current.value;
         w' == if HoldsBack(w.conns[i], update, w.now) then ArmedWorld(w, i, update.elapsed) else w
    case Wake(task) =>
      && task < |w.tasks| && w.tasks[task].Sleeping? && w.tasks[task].wakeAt <= w.now
      && var t := w.tasks[task];
         if IsCurrent(w, t.conn) && w.conns[t.conn].generation == t.generation then
           w' == WithTask(WithConn(w, t.conn, TimerTaken(w.conns[t.conn])), task, Sending(t.conn, t.elapsed, t.generation))
                 .(log := w.log + [Refresh(task, t.conn, t.generation, w.now, w.conns[t.conn].sessionStart + t.elapsed)])
         else
           w' == WithTask(w, task, Done)
    case CancelDelivered(task) =>
      && task < |w.tasks| && w.tasks[task].Sleeping? && w.tasks[task].conn < |w.conns|
      && !(w.conns[w.tasks[task].conn].timer.Some? && w.conns[w.tasks[task].conn].timer.value.id == task)
      && w' == WithTask(w, task, Done)
    case SendDone(task) =>
      && task < |w.tasks| && w.tasks[task].Sending? && w.tasks[task].conn < |w.conns|
      && var t := w.tasks[task];
         var c := w.conns[t.conn];
         w' == WithTask(w, task,
           if c.generation == t.generation && c.viewerRelative
           then Querying(t.conn, c.generation, false, Max(t.elapsed, ViewerElapsed(c, w.now))) else Done)
    case SendFailed(task) =>
      && task < |w.tasks| && w.tasks[task].Sending?
      && w' == WithTask(Unregistered(w), task, Done)
    case QueryRuns(task, next) =>
      && task < |w.tasks| && w.tasks[task].Querying?
      && var t := w.tasks[task];
         w' == WithTask(w, task, Answered(t.conn, t.generation, t.configuring, t.after, next))
    case Answer(task) =>
      && task < |w.tasks| && w.tasks[task].Answered?
      && var t := w.tasks[task];
         if IsCurrent(w, t.conn) && w.conns[t.conn].generation == t.generation then
           var w1 := ArmedWorld(WithTask(w, task, Done), t.conn, t.next);
           w' == if Arms(w.conns[t.conn], t.next) then w1.(log := w.log + [Arm(task, t.conn)]) else w1
         else
           w' == WithTask(w, task, Done)
    case QueryFailed(task) =>
      && task < |w.tasks| && w.tasks[task].Querying?
      && w' == WithTask(if w.tasks[task].configuring then w else Unregistered(w), task, Done)
  }

  ghost predicate Init(w: World) {
    w.current == None && w.conns == [] && w.tasks == [] && w.log == []
  }

  ghost predicate Run(worlds: seq<World>, events: seq<Event>) {
    && |worlds| == |events| + 1
    && Init(worlds[0])
    && forall i :: 0 <= i < |events| ==> Step(worlds[i], events[i], worlds[i + 1])
  }

  // ---------------------------------------------------------------- the invariant

  /** Task i works with the generation its connection is at. */
  ghost predicate Live(w: World, i: nat) {
    && i < |w.tasks| && HasGeneration(w.tasks[i])
    && w.tasks[i].conn < |w.conns|
    && w.tasks[i].generation == w.conns[w.tasks[i].conn].generation
  }

  ghost predicate InRange(w: World) {
    && (w.current.Some? ==> w.current.value < |w.conns|)
    && (forall i :: 0 <= i < |w.tasks| && !w.tasks[i].Done? ==> w.tasks[i].conn < |w.conns|)
  }

  ghost predicate NobodyAhead(w: World) {
    forall i :: 0 <= i < |w.tasks| && HasGeneration(w.tasks[i]) && w.tasks[i].conn < |w.conns| ==>
      w.tasks[i].generation <= w.conns[w.tasks[i].conn].generation
  }

  /** No two tasks hold the current generation of one connection. */
  ghost predicate OneHolder(w: World) {
    forall i: nat, j: nat :: Live(w, i) && Live(w, j) && w.tasks[i].conn == w.tasks[j].conn ==> i == j
  }

  ghost predicate OneConfigurer(w: World) {
    forall i, j :: 0 <= i < j < |w.tasks| ==> !(Configuring(w.tasks[i]) && Configuring(w.tasks[j]))
  }

  /** While an init waits for the contest, nothing holds the generation it has set. */
  ghost predicate AwaitingIsQuiet(w: World) {
    forall i :: 0 <= i < |w.tasks| && w.tasks[i].AwaitingContest? && w.tasks[i].conn < |w.conns| ==>
      && !w.conns[w.tasks[i].conn].viewerRelative
      && forall j: nat :: Live(w, j) ==> w.tasks[j].conn != w.tasks[i].conn
  }

  ghost predicate SleeperRecorded(w: World, i: nat)
    requires Live(w, i) && w.tasks[i].Sleeping?
  {
    var c, t := w.conns[w.tasks[i].conn], w.tasks[i];
    && c.sessionStart + t.elapsed <= t.wakeAt
    && t.elapsed <= SessionLength(c)
    && c.timer == Some(Timer(i, t.elapsed, t.generation, t.wakeAt))
    && c.scheduled == Some(t.elapsed)
  }

  /** A live sleeping task is the recorded timer, and was armed for the scheduled elapsed time. */
  ghost predicate SleepersRecorded(w: World) {
    forall i: nat :: Live(w, i) && w.tasks[i].Sleeping? ==> SleeperRecorded(w, i)
  }

  ghost predicate TimerSleeps(w: World, c: nat)
    requires c < |w.conns|
  {
    && (w.conns[c].scheduled.Some? <==> w.conns[c].timer.Some?)
    && (w.conns[c].timer.Some? ==>
          var i := w.conns[c].timer.value.id;
          Live(w, i) && w.tasks[i].Sleeping? && w.tasks[i].conn == c)
  }

  /** A recorded timer is a live sleeping task, so skipping a later reveal loses nothing. */
  ghost predicate TimersSleep(w: World) {
    forall c :: 0 <= c < |w.conns| ==> TimerSleeps(w, c)
  }

  /** A dropped connection-state object has no timer. */
  ghost predicate DroppedAreIdle(w: World) {
    forall c :: 0 <= c < |w.conns| && w.current != Some(c) ==> w.conns[c].timer.None?
  }

  /** Refreshes were not early, and belong to generations that have been reached. */
  ghost predicate LogNotEarly(w: World) {
    forall k :: 0 <= k < |w.log| && w.log[k].Refresh? ==>
      && w.log[k].notBefore <= w.log[k].at
      && w.log[k].conn < |w.conns| && w.log[k].generation <= w.conns[w.log[k].conn].generation
  }

  /** A generation that has refreshed has no sleeping task any more. */
  ghost predicate RefreshedIsAwake(w: World) {
    forall k, i :: 0 <= k < |w.log| && 0 <= i < |w.tasks| && w.log[k].Refresh? && w.tasks[i].Sleeping? ==>
      w.tasks[i].conn != w.log[k].conn || w.tasks[i].generation != w.log[k].generation
  }

  /** Each generation of a connection refreshes at most once. */
  ghost predicate RefreshOnce(w: World) {
    forall k, l :: 0 <= k < l < |w.log| && w.log[k].Refresh? && w.log[l].Refresh? ==>
      w.log[k].conn != w.log[l].conn || w.log[k].generation != w.log[l].generation
  }

  ghost predicate Invariant(w: World) {
    && InRange(w) && NobodyAhead(w) && OneHolder(w) && OneConfigurer(w) && AwaitingIsQuiet(w)
    && SleepersRecorded(w) && TimersSleep(w) && DroppedAreIdle(w)
    && LogNotEarly(w) && RefreshedIsAwake(w) && RefreshOnce(w)
  }

  lemma StepRange(w: World, event: Event, w': World)
    requires Invariant(w) && Step(w, event, w')
    ensures InRange(w') && |w'.conns| >= |w.conns| && |w'.tasks| >= |w.tasks|
  {
    hide NobodyAhead, OneHolder, OneConfigurer, AwaitingIsQuiet, SleepersRecorded, TimersSleep, LogNotEarly, RefreshedIsAwake, RefreshOnce;
  }

  /** A connection's generation counter never goes back. */
  lemma StepGenerations(w: World, event: Event, w': World)
    requires Invariant(w) && Step(w, event, w')
    ensures forall c :: 0 <= c < |w.conns| ==> c < |w'.conns| && w.conns[c].generation <= w'.conns[c].generation
  {
    hide NobodyAhead, OneHolder, OneConfigurer, AwaitingIsQuiet, SleepersRecorded, TimersSleep, DroppedAreIdle, LogNotEarly,
         RefreshedIsAwake, RefreshOnce, HandlerIdle;
  }

  /** How a step may change one task: it ends, goes on with the generation it holds, or an init goes on to its query. */
  ghost predicate Continues(w: World, t: Task, t': Task) {
    || t' == t
    || t'.Done?
    || (HasGeneration(t) && HasGeneration(t') && !t'.Sleeping? && (Configuring(t') ==> Configuring(t)) && t'.conn == t.conn && t'.generation == t.generation)
    || (t.AwaitingContest? && t.conn < |w.conns| && t'.Querying? && t'.conn == t.conn && t'.generation == w.conns[t.conn].generation && t'.configuring)
  }

  /** A new task is an init, or a timer of a generation its connection has just reached. */
  ghost predicate Starts(w: World, w': World, t: Task) {
    && !t.Done? && t.conn < |w.conns| && t.conn < |w'.conns|
    && w.conns[t.conn].generation < w'.conns[t.conn].generation
    && if t.AwaitingContest? then HandlerIdle(w) else t.Sleeping? && t.generation == w'.conns[t.conn].generation
  }

  lemma StepTasks(w: World, event: Event, w': World)
    requires Invariant(w) && Step(w, event, w')
    ensures |w.tasks| <= |w'.tasks| <= |w.tasks| + 1
    ensures forall i :: 0 <= i < |w.tasks| ==> Continues(w, w.tasks[i], w'.tasks[i])
    ensures |w'.tasks| > |w.tasks| ==> Starts(w, w', w'.tasks[|w.tasks|])
  {
    hide NobodyAhead, OneHolder, OneConfigurer, AwaitingIsQuiet, SleepersRecorded, TimersSleep, DroppedAreIdle, LogNotEarly,
         RefreshedIsAwake, RefreshOnce, HandlerIdle;
  }

  lemma StepAhead(w: World, event: Event, w': World)
    requires Invariant(w) && Step(w, event, w')
    ensures NobodyAhead(w')
  {
    hide Step, OneHolder, OneConfigurer, AwaitingIsQuiet, SleepersRecorded, TimersSleep, DroppedAreIdle, LogNotEarly,
         RefreshedIsAwake, RefreshOnce, HandlerIdle;
    StepGenerations(w, event, w');
    StepTasks(w, event, w');
  }

  /** A task that holds the current generation after the step held it before, unless it is new or was an init waiting for the contest. */
  lemma StepLive(w: World, event: Event, w': World, i: nat)
    requires Invariant(w) && Step(w, event, w') && Live(w', i) && i < |w.tasks|
    ensures w'.tasks[i].conn == w.tasks[i].conn < |w.conns| <= |w'.conns|
    ensures w'.tasks[i].generation == w.conns[w.tasks[i].conn].generation == w'.conns[w.tasks[i].conn].generation
    ensures Live(w, i) || w.tasks[i].AwaitingContest?
  {
    hide Step, OneHolder, OneConfigurer, AwaitingIsQuiet, SleepersRecorded, TimersSleep, DroppedAreIdle, LogNotEarly,
         RefreshedIsAwake, RefreshOnce, HandlerIdle;
    StepRange(w, event, w');
    StepGenerations(w, event, w');
    StepTasks(w, event, w');
    assert Continues(w, w.tasks[i], w'.tasks[i]);
  }

  lemma StepOneHolder(w: World, event: Event, w': World)
    requires Invariant(w) && Step(w, event, w')
    ensures OneHolder(w')
  {
    hide Step, NobodyAhead, SleepersRecorded, TimersSleep, DroppedAreIdle, LogNotEarly, RefreshedIsAwake, RefreshOnce, HandlerIdle;
    StepTasks(w, event, w');
    forall i: nat, j: nat | i < j && Live(w', i) && Live(w', j)
      ensures w'.tasks[i].conn != w'.tasks[j].conn
    {
      StepLive(w, event, w', i);
      if j < |w.tasks| {
        StepLive(w, event, w', j);
      }
    }
  }

  lemma StepOneConfigurer(w: World, event: Event, w': World)
    requires Invariant(w) && Step(w, event, w')
    ensures OneConfigurer(w')
  {
    hide Step, NobodyAhead, OneHolder, AwaitingIsQuiet, SleepersRecorded, TimersSleep, DroppedAreIdle, LogNotEarly,
         RefreshedIsAwake, RefreshOnce;
    StepTasks(w, event, w');
  }

  /** A new timer comes from a held-back update or from the answer of a query that is still current. */
  lemma StepNewTimer(w: World, event: Event, w': World)
    requires Invariant(w) && Step(w, event, w') && |w'.tasks| > |w.tasks| && w'.tasks[|w.tasks|].Sleeping?
    ensures w'.tasks[|w.tasks|].conn < |w.conns|
    ensures || w.conns[w'.tasks[|w.tasks|].conn].viewerRelative
            || (event.Answer? && Live(w, event.task) && w.tasks[event.task].conn == w'.tasks[|w.tasks|].conn)
  {
    hide NobodyAhead, OneHolder, OneConfigurer, AwaitingIsQuiet, SleepersRecorded, TimersSleep, DroppedAreIdle, LogNotEarly,
         RefreshedIsAwake, RefreshOnce, HandlerIdle;
  }

  lemma StepAwaitingFlag(w: World, event: Event, w': World, i: nat)
    requires Invariant(w) && Step(w, event, w') && i < |w'.tasks| && w'.tasks[i].AwaitingContest?
    ensures w'.tasks[i].conn < |w'.conns| && !w'.conns[w'.tasks[i].conn].viewerRelative
  {
    hide NobodyAhead, OneHolder, SleepersRecorded, TimersSleep, DroppedAreIdle, LogNotEarly, RefreshedIsAwake, RefreshOnce;
  }

  lemma StepAwaiting(w: World, event: Event, w': World)
    requires Invariant(w) && Step(w, event, w')
    ensures AwaitingIsQuiet(w')
  {
    hide Step, NobodyAhead, OneHolder, SleepersRecorded, TimersSleep, DroppedAreIdle, LogNotEarly, RefreshedIsAwake, RefreshOnce;
    StepTasks(w, event, w');
    forall i: nat | i < |w'.tasks| && w'.tasks[i].AwaitingContest?
      ensures w'.tasks[i].conn < |w'.conns| && !w'.conns[w'.tasks[i].conn].viewerRelative
      ensures forall j: nat :: Live(w', j) ==> w'.tasks[j].conn != w'.tasks[i].conn
    {
      StepAwaitingFlag(w, event, w', i);
      forall j: nat | Live(w', j)
        ensures w'.tasks[j].conn != w'.tasks[i].conn
      {
        if j < |w.tasks| {
          StepLive(w, event, w', j);
        } else {
          StepNewTimer(w, event, w');
        }
      }
    }
  }

  lemma StepSleepers(w: World, event: Event, w': World)
    requires Invariant(w) && Step(w, event, w')
    ensures SleepersRecorded(w')
  {
    forall i: nat | Live(w', i) && w'.tasks[i].Sleeping?
      ensures SleeperRecorded(w', i)
    {
      StepSleeper(w, event, w', i);
    }
    hide Step;
  }

  lemma StepSleeper(w: World, event: Event, w': World, i: nat)
    requires Invariant(w) && Step(w, event, w') && Live(w', i) && w'.tasks[i].Sleeping?
    ensures SleeperRecorded(w', i)
  {
    hide NobodyAhead, OneConfigurer, TimersSleep, DroppedAreIdle, LogNotEarly, RefreshedIsAwake, RefreshOnce, HandlerIdle;
    if i < |w.tasks| {
      StepLive(w, event, w', i);
      StepTasks(w, event, w');
      assert Continues(w, w.tasks[i], w'.tasks[i]);
      assert SleeperRecorded(w, i);
      hide SleepersRecorded;
    }
  }

  lemma StepTimers(w: World, event: Event, w': World)
    requires Invariant(w) && Step(w, event, w')
    ensures TimersSleep(w')
  {
    forall c | 0 <= c < |w'.conns|
      ensures TimerSleeps(w', c)
    {
      StepTimer(w, event, w', c);
    }
    hide Step;
  }

  lemma StepTimer(w: World, event: Event, w': World, c: nat)
    requires Invariant(w) && Step(w, event, w') && c < |w'.conns|
    ensures TimerSleeps(w', c)
  {
    TimerOf(w, c);
    SameConnections(w, event, w');
    hide Step;
    if event.Message? || event.Answer? {
      TimerAfterArming(w, event, w', c);
    } else if event.Wake? || event.SendFailed? || event.QueryFailed? || event.CancelDelivered? {
      TimerAfterWake(w, event, w', c);
    } else {
      TimerOtherwise(w, event, w', c);
    }
    hide Invariant, Step, TimerSleeps;
  }

  lemma TimerAfterArming(w: World, event: Event, w': World, c: nat)
    requires Invariant(w) && Step(w, event, w') && c < |w.conns| && c < |w'.conns| && TimerSleeps(w, c)
    requires event.Message? || event.Answer?
    ensures TimerSleeps(w', c)
  {
    hide NobodyAhead, OneConfigurer, AwaitingIsQuiet, OneHolder, TimersSleep, LogNotEarly, RefreshedIsAwake,
         RefreshOnce, HandlerIdle, SleepersRecorded;
  }

  lemma TimerAfterWake(w: World, event: Event, w': World, c: nat)
    requires Invariant(w) && Step(w, event, w') && c < |w.conns| && c < |w'.conns| && TimerSleeps(w, c)
    requires event.Wake? || event.SendFailed? || event.QueryFailed? || event.CancelDelivered?
    ensures TimerSleeps(w', c)
  {
    hide NobodyAhead, OneConfigurer, AwaitingIsQuiet, OneHolder, TimersSleep, LogNotEarly, RefreshedIsAwake,
         RefreshOnce, HandlerIdle, Armed, ArmedWorld, HoldsBack, Arms;
  }

  lemma TimerOtherwise(w: World, event: Event, w': World, c: nat)
    requires Invariant(w) && Step(w, event, w') && c < |w'.conns| && (c < |w.conns| ==> TimerSleeps(w, c))
    requires !event.Message? && !event.Answer? && !event.Wake? && !event.SendFailed? && !event.QueryFailed? && !event.CancelDelivered?
    ensures TimerSleeps(w', c)
  {
    hide NobodyAhead, OneConfigurer, AwaitingIsQuiet, OneHolder, TimersSleep, LogNotEarly, RefreshedIsAwake,
         RefreshOnce, HandlerIdle, Armed, ArmedWorld, HoldsBack, Arms;
  }

  lemma SameConnections(w: World, event: Event, w': World)
    requires Step(w, event, w')
    ensures event.Wake? || event.SendFailed? || event.QueryFailed? || event.CancelDelivered? || event.Message? || event.Answer? ==>
              |w'.conns| == |w.conns|
  {
    hide Armed, HoldsBack, Arms, Cancelled, TimerTaken;
  }

  lemma TimerOf(w: World, c: nat)
    requires TimersSleep(w)
    ensures c < |w.conns| ==> TimerSleeps(w, c)
  {
  }

  lemma StepDropped(w: World, event: Event, w': World)
    requires Invariant(w) && Step(w, event, w')
    ensures DroppedAreIdle(w')
  {
    hide NobodyAhead, OneHolder, OneConfigurer, AwaitingIsQuiet, SleepersRecorded, TimersSleep, LogNotEarly, RefreshedIsAwake, RefreshOnce;
  }

  lemma StepLog(w: World, event: Event, w': World)
    requires Invariant(w) && Step(w, event, w')
    ensures LogNotEarly(w')
  {
    hide OneHolder, OneConfigurer, AwaitingIsQuiet, TimersSleep, DroppedAreIdle, RefreshedIsAwake, RefreshOnce;
  }

  lemma StepAwake(w: World, event: Event, w': World)
    requires Invariant(w) && Step(w, event, w')
    ensures RefreshedIsAwake(w')
  {
    hide OneConfigurer, AwaitingIsQuiet, SleepersRecorded, TimersSleep, DroppedAreIdle, RefreshOnce;
  }

  lemma StepOnce(w: World, event: Event, w': World)
    requires Invariant(w) && Step(w, event, w')
    ensures RefreshOnce(w')
  {
    hide NobodyAhead, OneHolder, OneConfigurer, AwaitingIsQuiet, SleepersRecorded, TimersSleep, DroppedAreIdle, LogNotEarly, Armed, Cancelled;
  }

  lemma StepPreserves(w: World, event: Event, w': World)
    requires Invariant(w) && Step(w, event, w')
    ensures Invariant(w')
  {
    StepRange(w, event, w');
    StepAhead(w, event, w');
    StepOneHolder(w, event, w');
    StepOneConfigurer(w, event, w');
    StepAwaiting(w, event, w');
    StepSleepers(w, event, w');
    StepTimers(w, event, w');
    StepDropped(w, event, w');
    StepLog(w, event, w');
    StepAwake(w, event, w');
    StepOnce(w, event, w');
    hide Step;
  }

  lemma {:induction false} Reachable(worlds: seq<World>, events: seq<Event>, k: nat)
    requires Run(worlds, events) && k < |worlds|
    ensures Invariant(worlds[k])
  {
    if k > 0 {
      Reachable(worlds, events, k - 1);
      assert Step(worlds[k - 1], events[k - 1], worlds[k - 1 + 1]);
      StepPreserves(worlds[k - 1], events[k - 1], worlds[k]);
    }
  }

  // ---------------------------------------------------------------- main results

  /** In every reachable state at most one task per connection works with its current generation. */
  lemma AtMostOneHolder(worlds: seq<World>, events: seq<Event>, k: nat, i: nat, j: nat)
    requires Run(worlds, events) && k < |worlds|
    requires Live(worlds[k], i) && Live(worlds[k], j) && worlds[k].tasks[i].conn == worlds[k].tasks[j].conn
    ensures i == j
  {
    Reachable(worlds, events, k);
  }

  /** No refresh is ever sent before session_start plus the timer's elapsed time, and none is sent twice for one arming. */
  lemma RefreshesAreTimely(worlds: seq<World>, events: seq<Event>, k: nat)
    requires Run(worlds, events) && k < |worlds|
    ensures LogNotEarly(worlds[k]) && RefreshOnce(worlds[k])
    ensures forall a :: 0 <= a < |worlds[k].log| && worlds[k].log[a].Refresh? ==> worlds[k].log[a].notBefore <= worlds[k].log[a].at
  {
    Reachable(worlds, events, k);
  }

  /** A page of another kind gets every update of its contest from then on, and no other, and none is ever held back. */
  lemma PlainPageGetsEverything(w: World, contestId: int, w': World, update: Update, now: int)
    requires Step(w, InitPlain(contestId), w')
    ensures w'.current == w.current && w'.current.Some? && w'.current.value < |w'.conns|
    ensures Forwards(w'.conns[w'.current.value], update, now) <==> update.contestId == contestId
    ensures !HoldsBack(w'.conns[w'.current.value], update, now)
  {
  }

  /** A logged refresh is that of a due timer of the registered connection, and its bound is session start plus elapsed. */
  ghost predicate IsDueRefresh(w: World, a: Action) {
    && a.Refresh? && a.task < |w.tasks| && w.tasks[a.task].Sleeping?
    && w.current == Some(a.conn) && a.conn < |w.conns| && w.tasks[a.task].conn == a.conn
    && w.tasks[a.task].generation == a.generation == w.conns[a.conn].generation
    && w.tasks[a.task].wakeAt <= a.at == w.now
    && a.notBefore == w.conns[a.conn].sessionStart + w.tasks[a.task].elapsed
  }

  /** A logged arming puts a new sleeping task for the answer behind the registered connection. */
  ghost predicate IsArming(w: World, a: Action, w': World) {
    && a.Arm? && a.task < |w.tasks| && w.tasks[a.task].Answered? && w.tasks[a.task].next.Some?
    && w.current == Some(a.conn) && a.conn < |w.conns| == |w'.conns| && w.tasks[a.task].conn == a.conn
    && w'.conns[a.conn].scheduled == w.tasks[a.task].next
    && |w'.tasks| == |w.tasks| + 1 && w'.tasks[|w.tasks|].Sleeping?
    && w'.tasks[|w.tasks|].conn == a.conn && Some(w'.tasks[|w.tasks|].elapsed) == w.tasks[a.task].next
  }

  /** What the log records is what happens: a step adds nothing, a due refresh or an arming. */
  lemma LoggedIsDone(w: World, event: Event, w': World)
    requires Invariant(w) && Step(w, event, w')
    ensures || w'.log == w.log
            || exists a :: w'.log == w.log + [a] && (IsDueRefresh(w, a) || IsArming(w, a, w'))
    ensures event.Wake? && Live(w, event.task) && w.current == Some(w.tasks[event.task].conn) ==> w'.log != w.log
  {
    hide NobodyAhead, OneHolder, OneConfigurer, AwaitingIsQuiet, SleepersRecorded, TimersSleep, DroppedAreIdle, LogNotEarly,
         RefreshedIsAwake, RefreshOnce, HandlerIdle, Invariant;
    match event
    case Wake(task) =>
      if w'.log != w.log {
        var a := Refresh(task, w.tasks[task].conn, w.tasks[task].generation, w.now, w.conns[w.tasks[task].conn].sessionStart + w.tasks[task].elapsed);
        assert IsDueRefresh(w, a);
      }
    case Answer(task) =>
      if w'.log != w.log {
        assert IsArming(w, Arm(task, w.tasks[task].conn), w');
      }
    case _ =>
  }

  /**
   A scheduled elapsed time is always backed by a sleeping task of the current generation, so
   _arm_elapsed may ignore a later one.
   */
  lemma ScheduledIsBacked(worlds: seq<World>, events: seq<Event>, k: nat, c: nat)
    requires Run(worlds, events) && k < |worlds| && c < |worlds[k].conns| && worlds[k].conns[c].scheduled.Some?
    ensures exists i: nat :: Live(worlds[k], i) && worlds[k].tasks[i].Sleeping? && worlds[k].tasks[i].conn == c
              && worlds[k].tasks[i].elapsed == worlds[k].conns[c].scheduled.value
  {
    Reachable(worlds, events, k);
    assert TimerSleeps(worlds[k], c);
    assert Live(worlds[k], worlds[k].conns[c].timer.value.id);
  }

  /** The task belongs to a dropped connection-state object, or its generation has been superseded. */
  ghost predicate Stale(w: World, i: nat) {
    && i < |w.tasks|
    && (w.tasks[i].Done?
        || w.current != Some(w.tasks[i].conn)
        || (HasGeneration(w.tasks[i]) && w.tasks[i].conn < |w.conns|
            && w.tasks[i].generation < w.conns[w.tasks[i].conn].generation))
  }

  lemma StaleStep(w: World, event: Event, w': World, i: nat)
    requires Invariant(w) && Step(w, event, w') && Stale(w, i)
    ensures Stale(w', i)
    ensures |w.log| <= |w'.log| && w'.log[..|w.log|] == w.log
    ensures forall k :: |w.log| <= k < |w'.log| ==> w'.log[k].task != i
  {
    hide OneHolder, OneConfigurer, AwaitingIsQuiet, SleepersRecorded, TimersSleep, DroppedAreIdle, LogNotEarly, RefreshedIsAwake, RefreshOnce;
  }

  /** A stale task never again starts a refresh or arms a timer. */
  lemma {:induction false} StaleTaskStaysSilent(worlds: seq<World>, events: seq<Event>, k: nat, l: nat, i: nat)
    requires Run(worlds, events) && k <= l < |worlds| && Stale(worlds[k], i)
    ensures Stale(worlds[l], i)
    ensures |worlds[k].log| <= |worlds[l].log|
    ensures forall a :: |worlds[k].log| <= a < |worlds[l].log| ==> worlds[l].log[a].task != i
    decreases l
  {
    hide Step, Invariant, Stale, Init;
    if k < l {
      StaleTaskStaysSilent(worlds, events, k, l - 1, i);
      Reachable(worlds, events, l - 1);
      assert Step(worlds[l - 1], events[l - 1], worlds[l - 1 + 1]);
      StaleStep(worlds[l - 1], events[l - 1], worlds[l], i);
      hide Run;
      StillSilent(|worlds[k].log|, worlds[l - 1].log, worlds[l].log, i);
    }
  }

  lemma StillSilent(from: nat, before: seq<Action>, after: seq<Action>, i: nat)
    requires from <= |before| <= |after| && after[..|before|] == before
    requires forall a :: from <= a < |before| ==> before[a].task != i
    requires forall a :: |before| <= a < |after| ==> after[a].task != i
    ensures forall a :: from <= a < |after| ==> after[a].task != i
  {
    assert forall a :: 0 <= a < |before| ==> after[a] == after[..|before|][a];
  }

  /** The event arms a new timer on connection c, reconfigures it, or takes it away. */
  ghost predicate Supersedes(w: World, event: Event, w': World, c: nat) {
    c < |w.conns| && c < |w'.conns| && w.conns[c].generation < w'.conns[c].generation
  }

  /** Re-arming, reconfiguring and unregistering all supersede the connection they concern. */
  lemma WhatSupersedes(w: World, event: Event, w': World, c: nat)
    requires Invariant(w) && Step(w, event, w') && w.current == Some(c)
    ensures event.Unregister? || event.InitScoreboard? || event.Register? ==> Supersedes(w, event, w', c)
    ensures |w'.tasks| > |w.tasks| ==> Supersedes(w, event, w', c)
  {
    hide NobodyAhead, OneHolder, OneConfigurer, AwaitingIsQuiet, SleepersRecorded, TimersSleep, DroppedAreIdle, LogNotEarly, RefreshedIsAwake, RefreshOnce;
  }

  /** After that, every older task of the connection that works with a generation is stale. */
  lemma SupersededTasksAreStale(w: World, event: Event, w': World, c: nat, i: nat)
    requires Invariant(w) && Step(w, event, w') && Supersedes(w, event, w', c)
    requires i < |w.tasks| && HasGeneration(w.tasks[i]) && w.tasks[i].conn == c
    ensures Stale(w', i)
  {
    hide OneHolder, OneConfigurer, AwaitingIsQuiet, SleepersRecorded, TimersSleep, DroppedAreIdle, LogNotEarly, RefreshedIsAwake, RefreshOnce;
  }

  // ---------------------------------------------------------------- from waking up to arming the next timer

  /** Only a viewer-relative connection has current tasks, and only the registered one, except for an init that lost its connection. */
  ghost predicate LiveIsRelative(w: World) {
    forall i: nat :: Live(w, i) ==>
      && w.conns[w.tasks[i].conn].viewerRelative
      && (w.current == Some(w.tasks[i].conn) || Configuring(w.tasks[i]))
  }

  lemma StepRelative(w: World, event: Event, w': World)
    requires Invariant(w) && LiveIsRelative(w) && Step(w, event, w')
    ensures LiveIsRelative(w')
  {
    hide NobodyAhead, OneConfigurer, SleepersRecorded, TimersSleep, DroppedAreIdle, LogNotEarly, RefreshedIsAwake, RefreshOnce, HandlerIdle;
    forall i: nat | Live(w', i)
      ensures w'.conns[w'.tasks[i].conn].viewerRelative
      ensures w'.current == Some(w'.tasks[i].conn) || Configuring(w'.tasks[i])
    {
      LiveTaskIsRelative(w, event, w', i);
    }
  }

  lemma LiveTaskIsRelative(w: World, event: Event, w': World, i: nat)
    requires Invariant(w) && LiveIsRelative(w) && Step(w, event, w') && Live(w', i)
    ensures w'.conns[w'.tasks[i].conn].viewerRelative
    ensures w'.current == Some(w'.tasks[i].conn) || Configuring(w'.tasks[i])
  {
    hide NobodyAhead, OneHolder, OneConfigurer, AwaitingIsQuiet, SleepersRecorded, TimersSleep, DroppedAreIdle, LogNotEarly,
         RefreshedIsAwake, RefreshOnce, HandlerIdle;
    if i < |w.tasks| {
      StepLive(w, event, w', i);
    }
    if Live(w, i) {
      assert w.conns[w.tasks[i].conn].viewerRelative;
    }
  }

  lemma {:induction false} ReachableRelative(worlds: seq<World>, events: seq<Event>, k: nat)
    requires Run(worlds, events) && k < |worlds|
    ensures LiveIsRelative(worlds[k])
  {
    if k > 0 {
      ReachableRelative(worlds, events, k - 1);
      Reachable(worlds, events, k - 1);
      assert Step(worlds[k - 1], events[k - 1], worlds[k - 1 + 1]);
      StepRelative(worlds[k - 1], events[k - 1], worlds[k]);
    }
  }

  /** A task of the registered connection that sends, queries or has its answer, and is still current. */
  ghost predicate Busy(w: World, i: nat) {
    Live(w, i) && !w.tasks[i].Sleeping? && w.current == Some(w.tasks[i].conn)
  }

  /** The event is a held-back update that arms on connection c, or it reconfigures or drops c. */
  ghost predicate Interrupts(w: World, event: Event, c: nat) {
    && IsCurrent(w, c)
    && match event
       case Message(update) => HoldsBack(w.conns[c], update, w.now) && Arms(w.conns[c], update.elapsed)
       case Register => true
       case Unregister => true
       case InitScoreboard(_) => true
       case SendFailed(_) => true
       case QueryFailed(task) => task < |w.tasks| && w.tasks[task].Querying? && !w.tasks[task].configuring
       case _ => false
  }

  lemma BusyStep(w: World, event: Event, w': World, i: nat)
    requires Invariant(w) && Step(w, event, w') && Busy(w, i) && i < |w'.tasks| && !w'.tasks[i].Done?
    ensures w'.tasks[i].conn == w.tasks[i].conn
    ensures Busy(w', i) <==> !Interrupts(w, event, w.tasks[i].conn)
  {
    hide NobodyAhead, OneConfigurer, SleepersRecorded, TimersSleep, DroppedAreIdle, LogNotEarly, RefreshedIsAwake, RefreshOnce;
  }

  lemma {:induction false} TasksOnlyGrow(worlds: seq<World>, events: seq<Event>, a: nat, x: nat)
    requires Run(worlds, events) && a <= x < |worlds|
    ensures |worlds[a].tasks| <= |worlds[x].tasks|
    decreases x
  {
    if a < x {
      TasksOnlyGrow(worlds, events, a, x - 1);
      Reachable(worlds, events, x - 1);
      assert Step(worlds[x - 1], events[x - 1], worlds[x - 1 + 1]);
      StepTasks(worlds[x - 1], events[x - 1], worlds[x]);
    }
  }

  /** A task that is past its sleep and no longer current does not become current again. */
  lemma IdleStays(w: World, event: Event, w': World, i: nat)
    requires Invariant(w) && Step(w, event, w') && i < |w.tasks| && HasGeneration(w.tasks[i]) && !w.tasks[i].Sleeping?
    requires !Busy(w, i)
    ensures !Busy(w', i)
  {
    hide Step, OneHolder, OneConfigurer, AwaitingIsQuiet, SleepersRecorded, TimersSleep, DroppedAreIdle, LogNotEarly, RefreshedIsAwake, RefreshOnce;
    assert Stale(w, i);
    StaleStep(w, event, w', i);
  }

  lemma NotYetDone(w: World, event: Event, w': World, i: nat)
    requires Invariant(w) && Step(w, event, w') && i < |w.tasks| && i < |w'.tasks| && !w'.tasks[i].Done?
    ensures !w.tasks[i].Done?
    ensures HasGeneration(w.tasks[i]) && !w.tasks[i].Sleeping? ==>
              HasGeneration(w'.tasks[i]) && !w'.tasks[i].Sleeping? && w'.tasks[i].conn == w.tasks[i].conn
  {
    hide *;
    StepTasks(w, event, w');
    NotDoneContinues(w, w.tasks[i], w'.tasks[i]);
  }

  lemma NotDoneContinues(w: World, t: Task, t': Task)
    requires Continues(w, t, t') && !t'.Done?
    ensures !t.Done?
    ensures HasGeneration(t) && !t.Sleeping? ==> HasGeneration(t') && !t'.Sleeping? && t'.conn == t.conn
  {
  }

  lemma BusyTask(w: World, i: nat)
    requires Busy(w, i)
    ensures i < |w.tasks| && HasGeneration(w.tasks[i]) && !w.tasks[i].Sleeping?
  {
  }

  /** A task that has been busy since step a is still current exactly when nothing has interrupted its connection. */
  lemma {:induction false} BusyExactly(worlds: seq<World>, events: seq<Event>, a: nat, x: nat, i: nat)
    requires Run(worlds, events) && a <= x < |worlds| && Busy(worlds[a], i)
    requires i < |worlds[x].tasks| && !worlds[x].tasks[i].Done?
    ensures HasGeneration(worlds[x].tasks[i]) && !worlds[x].tasks[i].Sleeping? && worlds[x].tasks[i].conn == worlds[a].tasks[i].conn
    ensures Busy(worlds[x], i) <==> forall j :: a <= j < x ==> !Interrupts(worlds[j], events[j], worlds[a].tasks[i].conn)
    decreases x
  {
    hide Busy, Interrupts, Continues, Step, Invariant;
    BusyTask(worlds[a], i);
    if a < x {
      var w, event, w' := worlds[x - 1], events[x - 1], worlds[x];
      assert Step(w, event, worlds[x - 1 + 1]);
      Reachable(worlds, events, x - 1);
      TasksOnlyGrow(worlds, events, a, x - 1);
      NotYetDone(w, event, w', i);
      BusyExactly(worlds, events, a, x - 1, i);
      if Busy(w, i) {
        BusyStep(w, event, w', i);
      } else {
        IdleStays(w, event, w', i);
      }
      assert (forall j :: a <= j < x ==> !Interrupts(worlds[j], events[j], worlds[a].tasks[i].conn)) <==>
             (forall j :: a <= j < x - 1 ==> !Interrupts(worlds[j], events[j], worlds[a].tasks[i].conn))
             && !Interrupts(w, event, worlds[a].tasks[i].conn);
    }
  }

  /**
   Between a timer waking up (step a) and its refresh having been sent (step b) an update that is
   held back and arms suppresses the query for the next reveal, and only that, a reconfiguration or
   the end of the connection does.
   */
  lemma QueryStartsExactly(worlds: seq<World>, events: seq<Event>, a: nat, b: nat, i: nat)
    requires Run(worlds, events) && a < b < |events| && events[a] == Wake(i) && events[b] == SendDone(i)
    requires i < |worlds[a + 1].tasks| && worlds[a + 1].tasks[i].Sending?
    ensures i < |worlds[b + 1].tasks|
    ensures worlds[b + 1].tasks[i].Querying? <==> forall j :: a < j < b ==> !Interrupts(worlds[j], events[j], worlds[a + 1].tasks[i].conn)
  {
    Woken(worlds, events, a, i);
    assert Step(worlds[b], events[b], worlds[b + 1]);
    BusyExactly(worlds, events, a + 1, b, i);
    Reachable(worlds, events, b);
    ReachableRelative(worlds, events, b);
    hide Interrupts, Reset, Armed, Cancelled, HoldsBack;
  }

  /** The answer is armed exactly when it can be and nothing has interrupted the connection since the timer woke up. */
  lemma AnswerArmsExactly(worlds: seq<World>, events: seq<Event>, a: nat, d: nat, i: nat)
    requires Run(worlds, events) && a < d < |events| && events[a] == Wake(i) && events[d] == Answer(i)
    requires i < |worlds[a + 1].tasks| && worlds[a + 1].tasks[i].Sending?
    ensures i < |worlds[d].tasks| && worlds[d].tasks[i].Answered?
    ensures worlds[a + 1].tasks[i].conn < |worlds[d].conns|
    ensures worlds[d + 1].log == worlds[d].log + [Arm(i, worlds[a + 1].tasks[i].conn)] <==>
              && Arms(worlds[d].conns[worlds[a + 1].tasks[i].conn], worlds[d].tasks[i].next)
              && forall j :: a < j < d ==> !Interrupts(worlds[j], events[j], worlds[a + 1].tasks[i].conn)
  {
    Woken(worlds, events, a, i);
    assert Step(worlds[d], events[d], worlds[d + 1]);
    BusyExactly(worlds, events, a + 1, d, i);
    Reachable(worlds, events, d);
    hide Interrupts, Reset, Armed, Cancelled, HoldsBack, Arms;
  }

  lemma Woken(worlds: seq<World>, events: seq<Event>, a: nat, i: nat)
    requires Run(worlds, events) && a < |events| && events[a] == Wake(i)
    requires i < |worlds[a + 1].tasks| && worlds[a + 1].tasks[i].Sending?
    ensures Busy(worlds[a + 1], i)
  {
    Reachable(worlds, events, a);
    assert Step(worlds[a], events[a], worlds[a + 1]);
  }
}
