/**
 Access rights derived from the stored session (src/services/contest_access.py and
 src/services/contest_session.py), over all runs of FlexibleSessions. The contest object is taken
 to be loaded from one committed state.
 */
module ContestAccess {
  import opened Collections
  import opened Wrappers
  import opened Scoring
  import opened FlexibleSessions

  datatype Phase = BEFORE | RUNNING | ENDED

  datatype Permission =
    | MEMBER | PARTICIPANT | ADMIN
    | VIEW_PROBLEM_SET | VIEW_PROBLEM | SUBMIT | VIEW_SCOREBOARD | VIEW_QA | ASK_QUESTION

  datatype ContestSession = ContestSession(start: int, end: int, activated: bool)

  /** The loaded contest, as far as access depends on it. */
  datatype Contest = Contest(creator: int, isPublicScoreboard: bool, db: Db)

  function Fixed(c: Contest): ContestSession {
    ContestSession(c.db.settings.start, c.db.settings.end, true)
  }

  predicate HasStatus(c: Contest, acct: int, status: Status) {
    acct in c.db.users && c.db.users[acct] == status
  }

  predicate IsAdmin(c: Contest, acct: int) {
    acct == c.creator || HasStatus(c, acct, Admin)
  }

  predicate IsMember(c: Contest, acct: int) {
    HasStatus(c, acct, Approved) || HasStatus(c, acct, Admin)
  }

  /** ContestSession.for_account */
  function ForAccount(c: Contest, acct: int): ContestSession {
    if !c.db.settings.flexible then Fixed(c)
    else if HasStatus(c, acct, Approved) then
      if acct in c.db.sessions then ContestSession(c.db.sessions[acct].start, c.db.sessions[acct].end, true)
      else Fixed(c).(activated := false)
    else Fixed(c)
  }

  function PhaseAt(s: ContestSession, now: int): Phase {
    if !s.activated then BEFORE
    else if now >= s.end then ENDED
    else if now < s.start then BEFORE
    else if now < s.end then RUNNING
    else ENDED
  }

  function When(condition: bool, permissions: set<Permission>): set<Permission> {
    if condition then permissions else {}
  }

  /** ContestAccess.resolve */
  function Resolve(c: Contest, acct: int, now: int): set<Permission> {
    var session := ForAccount(c, acct);
    var phase := PhaseAt(session, now);
    var isMember, isParticipant, isAdmin := IsMember(c, acct), HasStatus(c, acct, Approved), IsAdmin(c, acct);
    var canViewEnded := phase.ENDED? && !(c.db.settings.flexible && isParticipant);
    var scoreboardIsAvailable :=
      if c.db.settings.flexible && !isAdmin
      then PhaseAt(Fixed(c), now).ENDED? || (isParticipant && session.activated)
      else !phase.BEFORE?;
    When(isMember, {MEMBER}) + When(isParticipant, {PARTICIPANT}) + When(isAdmin, {ADMIN})
    + When(canViewEnded || (phase.RUNNING? && isMember) || isAdmin, {VIEW_PROBLEM_SET})
    + When(isMember && (phase.RUNNING? || isAdmin), {VIEW_PROBLEM, SUBMIT})
    + When((scoreboardIsAvailable || isAdmin) && (c.isPublicScoreboard || isMember), {VIEW_SCOREBOARD})
    + When(!isAdmin, {VIEW_QA})
    + When(isParticipant, {ASK_QUESTION})
  }

  /** ContestAccess.can_start */
  predicate CanStart(c: Contest, acct: int, now: int) {
    && c.db.settings.flexible
    && PARTICIPANT in Resolve(c, acct, now)
    && !ForAccount(c, acct).activated
    && PhaseAt(Fixed(c), now).RUNNING?
  }

  /**
   Over every run of starts, edits and membership changes: a non-admin account of a flexible
   contest may submit exactly while its own session, cut off by the current settings, is running.
   */
  lemma SubmitExactlyInSession(worlds: seq<World>, events: seq<Event>, k: nat, c: Contest, acct: int, now: int)
    requires Run(worlds, events) && k < |worlds| && c.db == worlds[k].db
    requires c.db.settings.flexible && !IsAdmin(c, acct)
    ensures SUBMIT in Resolve(c, acct, now) <==>
              && acct in c.db.users && c.db.users[acct] == Approved
              && acct in c.db.sessions
              && c.db.sessions[acct].start <= now
              && now < Min(c.db.sessions[acct].start + c.db.settings.duration, c.db.settings.end)
    ensures SUBMIT in Resolve(c, acct, now) <==> VIEW_PROBLEM in Resolve(c, acct, now)
  {
    SessionEndsAreCurrent(worlds, events, k);
  }

  /** The other rights of a non-admin account in a flexible contest, in terms of the stored rows. */
  lemma ViewRightsExactly(c: Contest, acct: int, now: int)
    requires c.db.settings.flexible && !IsAdmin(c, acct)
    ensures var s := c.db.settings;
            var approved := acct in c.db.users && c.db.users[acct] == Approved;
            var started := approved && acct in c.db.sessions;
            && (VIEW_PROBLEM_SET in Resolve(c, acct, now) <==>
                  if approved then started && c.db.sessions[acct].start <= now < c.db.sessions[acct].end else s.end <= now)
            && (VIEW_SCOREBOARD in Resolve(c, acct, now) <==>
                  (s.end <= now || started) && (c.isPublicScoreboard || approved))
            && (ASK_QUESTION in Resolve(c, acct, now) <==> approved)
            && VIEW_QA in Resolve(c, acct, now) && ADMIN !in Resolve(c, acct, now)
  {
  }

  /** The roles, in terms of the stored rows; the creator is an admin without being a member. */
  lemma RolesExactly(c: Contest, acct: int, now: int)
    ensures var approved, admin := acct in c.db.users && c.db.users[acct] == Approved, acct in c.db.users && c.db.users[acct] == Admin;
            && (MEMBER in Resolve(c, acct, now) <==> approved || admin)
            && (PARTICIPANT in Resolve(c, acct, now) <==> approved)
            && (ADMIN in Resolve(c, acct, now) <==> admin || acct == c.creator)
  {
  }

  /** The rights of a non-admin account in a contest with fixed times. */
  lemma FixedRightsExactly(c: Contest, acct: int, now: int)
    requires !c.db.settings.flexible && ADMIN !in Resolve(c, acct, now)
    ensures var s := c.db.settings;
            var approved := acct in c.db.users && c.db.users[acct] == Approved;
            && (VIEW_PROBLEM_SET in Resolve(c, acct, now) <==> s.end <= now || (approved && s.start <= now))
            && (VIEW_PROBLEM in Resolve(c, acct, now) <==> approved && s.start <= now < s.end)
            && (SUBMIT in Resolve(c, acct, now) <==> approved && s.start <= now < s.end)
            && (VIEW_SCOREBOARD in Resolve(c, acct, now) <==> (s.start <= now || s.end <= now) && (c.isPublicScoreboard || approved))
            && (ASK_QUESTION in Resolve(c, acct, now) <==> approved)
            && VIEW_QA in Resolve(c, acct, now)
  {
  }

  /** The rights of an admin do not depend on the time. */
  lemma AdminRightsExactly(c: Contest, acct: int, now: int)
    requires ADMIN in Resolve(c, acct, now)
    ensures var approved, admin := acct in c.db.users && c.db.users[acct] == Approved, acct in c.db.users && c.db.users[acct] == Admin;
            && VIEW_PROBLEM_SET in Resolve(c, acct, now)
            && (VIEW_PROBLEM in Resolve(c, acct, now) <==> approved || admin)
            && (SUBMIT in Resolve(c, acct, now) <==> approved || admin)
            && (VIEW_SCOREBOARD in Resolve(c, acct, now) <==> c.isPublicScoreboard || approved || admin)
            && (ASK_QUESTION in Resolve(c, acct, now) <==> approved)
            && VIEW_QA !in Resolve(c, acct, now)
  {
  }

  /** The account_windows row of the same contest. */
  function ScoringWindow(c: Contest, contestId: int, penalty: int, acct: int): Option<Window> {
    AccountWindow(Scoring.Contest(contestId, c.db.settings.flexible, c.db.settings.start, c.db.settings.end, penalty,
                                  c.db.users, c.db.sessions), acct)
  }

  /**
   The right to submit and the scoreboard use the same window: a non-admin account may submit
   exactly at the moments its submissions count.
   */
  lemma SubmissionsCount(c: Contest, contestId: int, penalty: int, acct: int, now: int)
    requires !IsAdmin(c, acct)
    ensures SUBMIT in Resolve(c, acct, now) <==>
              match ScoringWindow(c, contestId, penalty, acct)
              case None => false
              case Some(w) => w.start <= now < w.end
  {
  }

  function Rank(p: Phase): nat {
    match p
    case BEFORE => 0
    case RUNNING => 1
    case ENDED => 2
  }

  /** As time grows an activated session moves from BEFORE over RUNNING to ENDED and never back. */
  lemma PhaseOnlyAdvances(s: ContestSession, now: int, later: int)
    requires s.activated && now <= later
    ensures Rank(PhaseAt(s, now)) <= Rank(PhaseAt(s, later))
    ensures PhaseAt(s, now) == RUNNING <==> s.start <= now < s.end
    ensures PhaseAt(s, now) == ENDED <==> s.end <= now
  {
  }

  /** can_start offers exactly the starts the insert accepts, up to the duration it does not look at. */
  lemma CanStartMatchesInsert(c: Contest, acct: int, now: int)
    ensures Eligible(c.db, acct, now) <==> CanStart(c, acct, now) && c.db.settings.duration > 0
  {
    hide When;
    WhenParticipant(c, acct, now);
  }

  lemma WhenParticipant(c: Contest, acct: int, now: int)
    ensures PARTICIPANT in Resolve(c, acct, now) <==> HasStatus(c, acct, Approved)
  {
  }

  /** can_start, in terms of the stored rows. */
  lemma CanStartExactly(c: Contest, acct: int, now: int)
    ensures CanStart(c, acct, now) <==>
              && c.db.settings.flexible && c.db.settings.start <= now < c.db.settings.end
              && acct in c.db.users && c.db.users[acct] == Approved && acct !in c.db.sessions
  {
    hide When;
    WhenParticipant(c, acct, now);
  }

  /** A start that is accepted lets the account submit from that very moment. */
  lemma StartGrantsSubmit(c: Contest, acct: int, now: int)
    requires Eligible(c.db, acct, now)
    ensures SUBMIT in Resolve(c, acct, now) ==> IsAdmin(c, acct)
    ensures var started := c.(db := c.db.(sessions := c.db.sessions[acct := NewSession(c.db, acct, now).value]));
            SUBMIT in Resolve(started, acct, now) && !CanStart(started, acct, now)
  {
  }
}
