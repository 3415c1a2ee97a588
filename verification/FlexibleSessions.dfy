/**
 Start and Edit transactions on one contest (src/services/contests.py), interleaved statement by
 statement. Both take the row lock of the contest; membership changes do not. Other transactions
 see only committed rows.
 */
module FlexibleSessions {
  import opened Collections
  import opened Wrappers
  import opened Scoring

  /** The timing columns of the contest row. */
  datatype Settings = Settings(flexible: bool, start: int, end: int, duration: nat)

  /** The committed rows of one contest: settings, contest_users and official contest_sessions. */
  datatype Db = Db(settings: Settings, users: map<int, Status>, sessions: map<int, Window>)

  /** How far a transaction has got. */
  datatype Txn =
    | StartBegun(acct: int)
    | StartLocked(acct: int)
    | StartInserted(acct: int, inserted: Option<Window>)
    | EditBegun(wanted: Settings)
    | EditUpdated(wanted: Settings)
    | EditRecomputed(wanted: Settings, recomputed: map<int, Window>)
    | Ended

  datatype World = World(now: int, db: Db, lock: Option<nat>, txns: seq<Txn>)

  datatype Event =
    | Tick(duration: nat)
    | BeginStart(acct: int)
    | LockForStart(txn: nat)
    | InsertSession(txn: nat)
    | CommitStart(txn: nat)
    | BeginEdit(wanted: Settings)
    | UpdateContest(txn: nat)
    | UpdateSessions(txn: nat)
    | CommitEdit(txn: nat)
    | Rollback(txn: nat)
    | SetStatus(acct: int, status: Status)
    | RemoveMember(acct: int)

  /** LEAST(start_time + duration, contest_end) */
  function SessionEnd(s: Settings, start: int): int {
    Min(start + s.duration, s.end)
  }

  /** The conditions of INSERT ... SELECT ... ON CONFLICT DO NOTHING. */
  predicate Eligible(db: Db, acct: int, now: int) {
    && acct in db.users && db.users[acct] == Approved
    && db.settings.flexible && db.settings.duration > 0
    && db.settings.start <= now < db.settings.end
    && acct !in db.sessions
  }

  function NewSession(db: Db, acct: int, now: int): Option<Window> {
    if Eligible(db, acct, now) then Some(Window(now, SessionEnd(db.settings, now))) else None
  }

  function Recomputed(s: Settings, sessions: map<int, Window>): map<int, Window> {
    map acct | acct in sessions :: Window(sessions[acct].start, SessionEnd(s, sessions[acct].start))
  }

  predicate HasLock(t: Txn) {
    t.StartLocked? || t.StartInserted? || t.EditUpdated? || t.EditRecomputed?
  }

  /** An open transaction has written, or referenced, this account's rows. */
  predicate RowsBusy(t: Txn, acct: int) {
    || (t.StartInserted? && t.acct == acct && t.inserted.Some?)
    || (t.EditRecomputed? && acct in t.recomputed)
  }

  ghost predicate Step(w: World, event: Event, w': World) {
    match event
    case Tick(duration) => w' == w.(now := w.now + duration)
    case BeginStart(acct) => w' == w.(txns := w.txns + [StartBegun(acct)])
    case LockForStart(i) =>
      && i < |w.txns| && w.txns[i].StartBegun? && w.lock == None
      && w' == w.(lock := Some(i), txns := w.txns[i := StartLocked(w.txns[i].acct)])
    case InsertSession(i) =>
      && i < |w.txns| && w.txns[i].StartLocked?
      && w' == w.(txns := w.txns[i := StartInserted(w.txns[i].acct, NewSession(w.db, w.txns[i].acct, w.now))])
    case CommitStart(i) =>
      && i < |w.txns| && w.txns[i].StartInserted?
      && var sessions := if w.txns[i].inserted.Some? then w.db.sessions[w.txns[i].acct := w.txns[i].inserted.value] else w.db.sessions;
         w' == w.(db := w.db.(sessions := sessions), lock := None, txns := w.txns[i := Ended])
    case BeginEdit(wanted) => w' == w.(txns := w.txns + [EditBegun(wanted)])
    case UpdateContest(i) =>
      && i < |w.txns| && w.txns[i].EditBegun? && w.lock == None
      && w' == w.(lock := Some(i), txns := w.txns[i := EditUpdated(w.txns[i].wanted)])
    case UpdateSessions(i) =>
      && i < |w.txns| && w.txns[i].EditUpdated?
      && var wanted := w.txns[i].wanted;
         w' == w.(txns := w.txns[i := EditRecomputed(wanted, if wanted.flexible then Recomputed(wanted, w.db.sessions) else map[])])
    case CommitEdit(i) =>
      && i < |w.txns| && w.txns[i].EditRecomputed?
      && w' == w.(db := w.db.(settings := w.txns[i].wanted, sessions := w.db.sessions + w.txns[i].recomputed),
                  lock := None, txns := w.txns[i := Ended])
    case Rollback(i) =>
      && i < |w.txns| && w.txns[i] != Ended
      && w' == w.(lock := if HasLock(w.txns[i]) then None else w.lock, txns := w.txns[i := Ended])
    case SetStatus(acct, status) => w' == w.(db := w.db.(users := w.db.users[acct := status]))
    case RemoveMember(acct) =>
      && (forall i :: 0 <= i < |w.txns| ==> !RowsBusy(w.txns[i], acct))
      && w' == w.(db := w.db.(users := w.db.users - {acct}, sessions := w.db.sessions - {acct}))
  }

  /** A contest without sessions, and no transaction open. */
  ghost predicate Init(w: World) {
    w.lock == None && w.txns == [] && w.db.sessions == map[]
  }

  ghost predicate Run(worlds: seq<World>, events: seq<Event>) {
    && |worlds| == |events| + 1
    && Init(worlds[0])
    && forall i :: 0 <= i < |events| ==> Step(worlds[i], events[i], worlds[i + 1])
  }

  // ---------------------------------------------------------------- the invariant

  /** Every official session of a flexible contest ends where the current settings say. */
  ghost predicate EndsAgree(db: Db) {
    db.settings.flexible ==>
      forall acct :: acct in db.sessions ==> db.sessions[acct].end == SessionEnd(db.settings, db.sessions[acct].start)
  }

  /** The transaction recorded as holder is the only one in a locked phase. */
  ghost predicate LockAgrees(w: World) {
    && (w.lock.Some? ==> w.lock.value < |w.txns|)
    && forall i :: 0 <= i < |w.txns| ==> (HasLock(w.txns[i]) <==> w.lock == Some(i))
  }

  /** What an open transaction has written still fits the committed rows. */
  ghost predicate PendingFits(db: Db, t: Txn) {
    match t
    case StartInserted(acct, Some(s)) => db.settings.flexible && s.end == SessionEnd(db.settings, s.start) && acct !in db.sessions
    case EditRecomputed(wanted, recomputed) =>
      if wanted.flexible then recomputed == Recomputed(wanted, db.sessions) else recomputed == map[]
    case _ => true
  }

  ghost predicate Invariant(w: World) {
    && EndsAgree(w.db)
    && LockAgrees(w)
    && (forall i :: 0 <= i < |w.txns| ==> PendingFits(w.db, w.txns[i]))
  }

  lemma LockStays(w: World, event: Event, w': World)
    requires LockAgrees(w) && Step(w, event, w')
    ensures LockAgrees(w')
  {
    hide NewSession, Recomputed, RowsBusy;
  }

  /** What is committed keeps fitting the committed settings. */
  lemma EndsStay(w: World, event: Event, w': World)
    requires Invariant(w) && Step(w, event, w')
    ensures EndsAgree(w'.db)
  {
    hide NewSession, RowsBusy, LockAgrees, SessionEnd;
  }

  lemma WritesStay(w: World, event: Event, w': World, i: nat)
    requires Invariant(w) && Step(w, event, w') && i < |w'.txns|
    ensures PendingFits(w'.db, w'.txns[i])
  {
    if event.RemoveMember? {
      assert !RowsBusy(w.txns[i], event.acct) && PendingFits(w.db, w.txns[i]);
      if w.txns[i].EditRecomputed? && w.txns[i].wanted.flexible {
        assert event.acct !in w.db.sessions;
        assert w'.db.sessions == w.db.sessions;
      }
    } else if i < |w.txns| {
      assert HasLock(w.txns[i]) <==> w.lock == Some(i);
      assert PendingFits(w.db, w.txns[i]);
      hide RowsBusy, SessionEnd, EndsAgree;
    }
  }

  lemma StepPreserves(w: World, event: Event, w': World)
    requires Invariant(w) && Step(w, event, w')
    ensures Invariant(w')
  {
    LockStays(w, event, w');
    EndsStay(w, event, w');
    forall i | 0 <= i < |w'.txns|
      ensures PendingFits(w'.db, w'.txns[i])
    {
      WritesStay(w, event, w', i);
    }
    hide Step;
  }

  /**
   In every reachable state, so in particular whenever the lock is free, a flexible contest's
   official sessions all end at min(start + duration, contest end) for the committed settings.
   */
  lemma {:induction false} SessionEndsAreCurrent(worlds: seq<World>, events: seq<Event>, k: nat)
    requires Run(worlds, events) && k < |worlds|
    ensures Invariant(worlds[k])
    ensures worlds[k].db.settings.flexible ==>
              forall acct :: acct in worlds[k].db.sessions ==>
                var s := worlds[k].db.sessions[acct];
                s.end == Min(s.start + worlds[k].db.settings.duration, worlds[k].db.settings.end)
  {
    if k > 0 {
      SessionEndsAreCurrent(worlds, events, k - 1);
      assert Step(worlds[k - 1], events[k - 1], worlds[k - 1 + 1]);
      StepPreserves(worlds[k - 1], events[k - 1], worlds[k]);
    }
  }

  lemma StartTimeStep(w: World, event: Event, w': World, acct: int)
    requires Invariant(w) && Step(w, event, w') && acct in w.db.sessions
    ensures acct in w'.db.sessions ==> w'.db.sessions[acct].start == w.db.sessions[acct].start
    ensures acct !in w'.db.sessions ==> event == RemoveMember(acct) && acct !in w'.db.users
  {
    match event
    case CommitStart(i) => assert PendingFits(w.db, w.txns[i]);
    case CommitEdit(i) => assert PendingFits(w.db, w.txns[i]);
    case _ =>
  }

  /** A session's start never changes, and the session stays, while the membership row exists. */
  lemma {:induction false} StartTimeIsFixed(worlds: seq<World>, events: seq<Event>, first: nat, last: nat, acct: int)
    requires Run(worlds, events) && first <= last < |worlds| && acct in worlds[first].db.sessions
    requires forall k :: first <= k <= last ==> acct in worlds[k].db.users
    ensures acct in worlds[last].db.sessions
    ensures worlds[last].db.sessions[acct].start == worlds[first].db.sessions[acct].start
    decreases last
  {
    if first < last {
      hide Step, Invariant, Init, EndsAgree;
      StartTimeIsFixed(worlds, events, first, last - 1, acct);
      SessionEndsAreCurrent(worlds, events, last - 1);
      assert Step(worlds[last - 1], events[last - 1], worlds[last - 1 + 1]);
      StartTimeStep(worlds[last - 1], events[last - 1], worlds[last], acct);
    }
  }

  /** At step j a transaction that holds the lock starts the account's session at this very time. */
  ghost predicate StartedAt(worlds: seq<World>, events: seq<Event>, j: nat, acct: int, start: int) {
    && j < |events| && j < |worlds| && events[j].InsertSession?
    && var w, i := worlds[j], events[j].txn;
       && i < |w.txns| && w.txns[i] == StartLocked(acct) && w.lock == Some(i) && w.now == start
       && acct in w.db.users && w.db.users[acct] == Approved && acct !in w.db.sessions
       && w.db.settings.flexible && w.db.settings.duration > 0 && w.db.settings.start <= start < w.db.settings.end
  }

  ghost predicate WasStarted(worlds: seq<World>, events: seq<Event>, k: nat, acct: int, start: int) {
    exists j: nat :: j < k && StartedAt(worlds, events, j, acct, start)
  }

  lemma StartIsRecorded(worlds: seq<World>, events: seq<Event>, k: nat, i: nat)
    requires Run(worlds, events) && k + 1 < |worlds| && Invariant(worlds[k]) && i < |worlds[k + 1].txns|
    requires worlds[k + 1].txns[i].StartInserted? && worlds[k + 1].txns[i].inserted.Some?
    requires i < |worlds[k].txns| ==> worlds[k].txns[i] != worlds[k + 1].txns[i]
    ensures StartedAt(worlds, events, k, worlds[k + 1].txns[i].acct, worlds[k + 1].txns[i].inserted.value.start)
  {
    assert Step(worlds[k], events[k], worlds[k + 1]);
    hide Run, EndsAgree, Recomputed, SessionEnd;
  }

  /**
   Every stored session, and every one about to be stored, started at the time of an accepted start of
   its account: the account was approved and had no session, and the contest was flexible and running.
   */
  lemma {:induction false} SessionsWereStarted(worlds: seq<World>, events: seq<Event>, k: nat)
    requires Run(worlds, events) && k < |worlds|
    ensures forall acct :: acct in worlds[k].db.sessions ==> WasStarted(worlds, events, k, acct, worlds[k].db.sessions[acct].start)
    ensures forall j :: 0 <= j < k ==> worlds[j].now <= worlds[k].now
    ensures forall acct :: acct in worlds[k].db.sessions ==> worlds[k].db.sessions[acct].start <= worlds[k].now
    ensures forall i :: 0 <= i < |worlds[k].txns| && worlds[k].txns[i].StartInserted? && worlds[k].txns[i].inserted.Some? ==>
              WasStarted(worlds, events, k, worlds[k].txns[i].acct, worlds[k].txns[i].inserted.value.start)
  {
    if k > 0 {
      var w, w' := worlds[k - 1], worlds[k];
      SessionsWereStarted(worlds, events, k - 1);
      SessionEndsAreCurrent(worlds, events, k - 1);
      assert Step(w, events[k - 1], worlds[k - 1 + 1]);
      assert w.now <= w'.now;
      assert forall j: nat, acct, start :: StartedAt(worlds, events, j, acct, start) ==> worlds[j].now == start;
      hide Run, StartedAt, EndsAgree, SessionEnd, NewSession;
      forall i | 0 <= i < |w'.txns| && w'.txns[i].StartInserted? && w'.txns[i].inserted.Some?
        ensures WasStarted(worlds, events, k, w'.txns[i].acct, w'.txns[i].inserted.value.start)
      {
        if !(i < |w.txns| && w.txns[i] == w'.txns[i]) {
          StartIsRecorded(worlds, events, k - 1, i);
        }
      }
      forall acct | acct in w'.db.sessions
        ensures WasStarted(worlds, events, k, acct, w'.db.sessions[acct].start)
      {
        SessionComesFrom(w, events[k - 1], w', acct);
      }
    }
  }

  /** A session that is stored after a step was stored before with the same start, or is the one an open start had inserted. */
  lemma SessionComesFrom(w: World, event: Event, w': World, acct: int)
    requires Invariant(w) && Step(w, event, w') && acct in w'.db.sessions
    ensures || (acct in w.db.sessions && w.db.sessions[acct].start == w'.db.sessions[acct].start)
            || exists i :: 0 <= i < |w.txns| && w.txns[i].StartInserted? && w.txns[i].acct == acct
                 && w.txns[i].inserted.Some? && w.txns[i].inserted.value.start == w'.db.sessions[acct].start
  {
    if event.CommitEdit? {
      assert PendingFits(w.db, w.txns[event.txn]);
    }
  }

  ghost predicate MembersOnly(db: Db, t: Txn) {
    && (t.StartInserted? && t.inserted.Some? ==> t.acct in db.users)
    && (t.EditRecomputed? ==> forall acct :: acct in t.recomputed ==> acct in db.users)
  }

  lemma MembersStay(w: World, event: Event, w': World)
    requires Invariant(w) && Step(w, event, w')
    requires forall acct :: acct in w.db.sessions ==> acct in w.db.users
    requires forall i :: 0 <= i < |w.txns| ==> MembersOnly(w.db, w.txns[i])
    ensures forall acct :: acct in w'.db.sessions ==> acct in w'.db.users
    ensures forall i :: 0 <= i < |w'.txns| ==> MembersOnly(w'.db, w'.txns[i])
  {
    hide EndsAgree, SessionEnd, LockAgrees, PendingFits;
    if event.RemoveMember? {
      forall i | 0 <= i < |w'.txns|
        ensures MembersOnly(w'.db, w'.txns[i])
      {
        assert MembersOnly(w.db, w.txns[i]) && !RowsBusy(w.txns[i], event.acct);
      }
    } else if event.CommitStart? || event.CommitEdit? {
      assert MembersOnly(w.db, w.txns[event.txn]);
    }
  }

  /** No session outlives its membership, and none is stored without one. */
  lemma {:induction false} SessionsBelongToMembers(worlds: seq<World>, events: seq<Event>, k: nat)
    requires Run(worlds, events) && k < |worlds|
    ensures forall acct :: acct in worlds[k].db.sessions ==> acct in worlds[k].db.users
    ensures forall i :: 0 <= i < |worlds[k].txns| ==> MembersOnly(worlds[k].db, worlds[k].txns[i])
  {
    if k > 0 {
      SessionsBelongToMembers(worlds, events, k - 1);
      SessionEndsAreCurrent(worlds, events, k - 1);
      assert Step(worlds[k - 1], events[k - 1], worlds[k - 1 + 1]);
      hide Step, Invariant, MembersOnly;
      MembersStay(worlds[k - 1], events[k - 1], worlds[k]);
    }
  }

  /** At most one transaction is between taking the lock and its end. */
  lemma LockIsExclusive(worlds: seq<World>, events: seq<Event>, k: nat, i: nat, j: nat)
    requires Run(worlds, events) && k < |worlds| && i < |worlds[k].txns| && j < |worlds[k].txns|
    requires HasLock(worlds[k].txns[i]) && HasLock(worlds[k].txns[j])
    ensures i == j
  {
    SessionEndsAreCurrent(worlds, events, k);
  }

  // ---------------------------------------------------------------- why the lock is needed

  /** The same statements when nobody ever waits for the row lock. */
  ghost predicate UnlockedStep(w: World, event: Event, w': World) {
    Step(w.(lock := None), event, w')
  }

  ghost predicate UnlockedRun(worlds: seq<World>, events: seq<Event>) {
    && |worlds| == |events| + 1
    && Init(worlds[0])
    && forall i :: 0 <= i < |events| ==> UnlockedStep(worlds[i], events[i], worlds[i + 1])
  }

  ghost function Short(): Settings { Settings(true, 0, 1000, 60) }

  /** A contest of duration 600 with one approved contestant and no sessions. */
  ghost function Before(): Db { Db(Settings(true, 0, 1000, 600), map[7 := Approved], map[]) }

  ghost function StartDone(): Txn { StartInserted(7, Some(Window(10, 610))) }

  /** A Start inserts its session for the old settings. */
  lemma StartWithOldSettings()
    ensures UnlockedStep(World(10, Before(), None, []), BeginStart(7), World(10, Before(), None, [StartBegun(7)]))
    ensures UnlockedStep(World(10, Before(), None, [StartBegun(7)]), LockForStart(0), World(10, Before(), Some(0), [StartLocked(7)]))
    ensures UnlockedStep(World(10, Before(), Some(0), [StartLocked(7)]), InsertSession(0), World(10, Before(), None, [StartDone()]))
  {
  }

  /** An Edit shortens the duration and commits without seeing that session. */
  lemma EditMeanwhile()
    ensures UnlockedStep(World(10, Before(), None, [StartDone()]), BeginEdit(Short()), World(10, Before(), None, [StartDone(), EditBegun(Short())]))
    ensures UnlockedStep(World(10, Before(), None, [StartDone(), EditBegun(Short())]), UpdateContest(1),
                         World(10, Before(), Some(1), [StartDone(), EditUpdated(Short())]))
    ensures UnlockedStep(World(10, Before(), Some(1), [StartDone(), EditUpdated(Short())]), UpdateSessions(1),
                         World(10, Before(), None, [StartDone(), EditRecomputed(Short(), map[])]))
  {
    assert Recomputed(Short(), Before().sessions) == map[];
  }

  lemma CommitsInTheWrongOrder()
    ensures UnlockedStep(World(10, Before(), None, [StartDone(), EditRecomputed(Short(), map[])]), CommitEdit(1),
                         World(10, Before().(settings := Short()), None, [StartDone(), Ended]))
    ensures UnlockedStep(World(10, Before().(settings := Short()), None, [StartDone(), Ended]), CommitStart(0),
                         World(10, Before().(settings := Short(), sessions := map[7 := Window(10, 610)]), None, [Ended, Ended]))
  {
    assert Before().sessions + map[] == map[];
  }

  /**
   Without the row lock the property fails in a run: a Start has computed its end from the old
   settings and commits after an Edit has shortened the duration.
   */
  lemma UnlockedStartBreaksEnds() returns (worlds: seq<World>, events: seq<Event>)
    ensures UnlockedRun(worlds, events)
    ensures var last := worlds[|worlds| - 1]; last.txns == [Ended, Ended] && !EndsAgree(last.db)
  {
    hide UnlockedStep, StartDone, EndsAgree, Before, Short;
    StartWithOldSettings();
    EditMeanwhile();
    CommitsInTheWrongOrder();
    var last := World(10, Before().(settings := Short(), sessions := map[7 := Window(10, 610)]), None, [Ended, Ended]);
    assert !EndsAgree(last.db) && Init(World(10, Before(), None, [])) by {
      WrongEnd();
    }
    worlds := [World(10, Before(), None, []), World(10, Before(), None, [StartBegun(7)]), World(10, Before(), Some(0), [StartLocked(7)]),
               World(10, Before(), None, [StartDone()]), World(10, Before(), None, [StartDone(), EditBegun(Short())]),
               World(10, Before(), Some(1), [StartDone(), EditUpdated(Short())]),
               World(10, Before(), None, [StartDone(), EditRecomputed(Short(), map[])]),
               World(10, Before().(settings := Short()), None, [StartDone(), Ended]), last];
    events := [BeginStart(7), LockForStart(0), InsertSession(0), BeginEdit(Short()), UpdateContest(1), UpdateSessions(1), CommitEdit(1), CommitStart(0)];
  }

  lemma WrongEnd()
    ensures !EndsAgree(Before().(settings := Short(), sessions := map[7 := Window(10, 610)]))
    ensures Init(World(10, Before(), None, []))
  {
    var after := Before().(settings := Short(), sessions := map[7 := Window(10, 610)]);
    assert 7 in after.sessions && SessionEnd(after.settings, 10) == 70;
  }
}
