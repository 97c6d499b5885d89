/** Session lifetime (`auth/unified.py`) and the two restriction gates in front of every
    route (`auth/twofa_enforcement.py`, `auth/password_change_gate.py`), over whole runs. */
module Sessions {
  import opened Prelude

  // ---- Session verification ----------------------------------------------------

  /** A stored time stamp; a malformed one is logged and its check skipped. */
  datatype Stamp = Absent | Malformed | At(time: int)

  /** The cookie session; `enrol` is the forced-enrolment flag. */
  datatype Session = Session(user: Option<int>, login: Stamp, last: Stamp, enrol: bool)

  const EMPTY: Session := Session(None, Absent, Absent, false)

  datatype Account = Account(active: bool, forceChange: bool)

  predicate Late(stamp: Stamp, now: int, limit: int) {
    stamp.At? && now - stamp.time > limit
  }

  /** The session after verification, and whether the request is authenticated. */
  function Verify(s: Session, accounts: map<int, Account>, now: int, lifetime: int, inactivity: int)
    : (r: (Session, bool))
  {
    if s.user.None? || s.user.value !in accounts || !accounts[s.user.value].active then (s, false)
    else if Late(s.login, now, lifetime) || Late(s.last, now, inactivity) then (EMPTY, false)
    else (s.(last := At(now)), true)
  }

  // ---- The gates ------------------------------------------------------------------

  datatype Method = GET | POST | OTHER

  const CONFIRM: string := "/api/v2/account/2fa/confirm"
  const REGISTER: string := "/api/v2/webauthn/register/verify"
  const LOGOUT: string := "/api/v2/auth/logout"
  const PASSWORD: string := "/api/v2/account/password"
  const PREFERENCES: string := "/api/v2/account/preferences"

  const ENROL_PATHS: set<string> :=
    {"/api/v2/account/2fa/enable", CONFIRM, "/api/v2/webauthn/register/options", REGISTER, LOGOUT}

  const PASSWORD_PATHS: set<string> := {PASSWORD, LOGOUT}

  datatype Verdict = Open | EnrolFirst | ChangeFirst

  predicate PasswordChangeAllows(enrol: bool, path: string, verb: Method) {
    path in PASSWORD_PATHS || (verb == GET && path == PREFERENCES) || (enrol && path in ENROL_PATHS)
  }

  /** The two gates in order. Only a session is held to the password change. */
  function Gate(enrol: bool, viaSession: bool, forceChange: bool, path: string, verb: Method): Verdict {
    if enrol && path !in ENROL_PATHS && !(verb == GET && path == PREFERENCES) then EnrolFirst
    else if viaSession && forceChange && !PasswordChangeAllows(enrol, path, verb) then ChangeFirst
    else Open
  }

  /** Exactly what passes the stacked gates, in each of the four states. */
  lemma GateOpens(path: string, verb: Method)
    ensures Gate(true, true, true, path, verb).Open?
       <==> path in ENROL_PATHS || (verb == GET && path == PREFERENCES)
    ensures Gate(true, true, false, path, verb) == Gate(true, true, true, path, verb)
    ensures Gate(false, true, true, path, verb).Open?
       <==> path in PASSWORD_PATHS || (verb == GET && path == PREFERENCES)
    ensures Gate(false, true, false, path, verb).Open?
    ensures forall enrol, viaSession, force :: Gate(enrol, viaSession, force, LOGOUT, verb).Open?
  {
  }

  // ---- Runs -----------------------------------------------------------------------

  /** One browser: its session and the accounts. */
  datatype Machine = Machine(session: Session, accounts: map<int, Account>)

  /** A request carries its time, the limits read for it, and whether the route itself
      succeeds once reached. */
  datatype Event =
    | Login(user: int, now: int, mustEnrol: bool)
    | Request(path: string, verb: Method, now: int, lifetime: int, inactivity: int, succeeds: bool)
    | SetAccount(user: int, account: Account)

  datatype Reply = Quiet | Unauthenticated | Blocked(verdict: Verdict) | Passed

  predicate Accepted(r: Reply) {
    r.Blocked? || r.Passed?
  }

  function Pending(m: Machine): bool {
    m.session.user.Some? && m.session.user.value in m.accounts && m.accounts[m.session.user.value].forceChange
  }

  /** What a route that succeeds does to the restrictions. */
  function Effect(m: Machine, path: string, verb: Method): Machine {
    if verb != POST then m
    else if path == CONFIRM || path == REGISTER then m.(session := m.session.(enrol := false))
    else if path == LOGOUT then m.(session := EMPTY)
    else if path == PASSWORD && m.session.user.Some? && m.session.user.value in m.accounts then
      var u := m.session.user.value;
      m.(accounts := m.accounts[u := m.accounts[u].(forceChange := false)])
    else m
  }

  function Handle(m: Machine, e: Event): (r: (Machine, Reply)) {
    match e
    case Login(u, now, mustEnrol) => (m.(session := Session(Some(u), At(now), At(now), mustEnrol)), Quiet)
    case SetAccount(u, a) => (m.(accounts := m.accounts[u := a]), Quiet)
    case Request(path, verb, now, lifetime, inactivity, succeeds) =>
      var (s, ok) := Verify(m.session, m.accounts, now, lifetime, inactivity);
      var m1 := m.(session := s);
      if !ok then (m1, Unauthenticated)
      else
        var v := Gate(s.enrol, true, Pending(m1), path, verb);
        if !v.Open? then (m1, Blocked(v))
        else if succeeds then (Effect(m1, path, verb), Passed)
        else (m1, Passed)
  }

  function After(m: Machine, run: seq<Event>): Machine {
    if run == [] then m else Handle(After(m, run[..|run| - 1]), run[|run| - 1]).0
  }

  /** The reply to event `i` of the run. */
  function ReplyTo(m: Machine, run: seq<Event>, i: nat): Reply
    requires i < |run|
  {
    Handle(After(m, run[..i]), run[i]).1
  }

  /** Index of the last login, if any. */
  ghost function LastLogin(run: seq<Event>): int {
    if run == [] then -1
    else if run[|run| - 1].Login? then |run| - 1
    else LastLogin(run[..|run| - 1])
  }

  /** Index of the last login or accepted request, if any. */
  ghost function LastSeen(m: Machine, run: seq<Event>): int {
    if run == [] then -1
    else
      var n := |run| - 1;
      if run[n].Login? || (run[n].Request? && Accepted(ReplyTo(m, run, n))) then n
      else LastSeen(m, run[..n])
  }

  /** Fresh browser: no session. */
  predicate Fresh(m: Machine) {
    m.session == EMPTY
  }

  /** A live session carries the stamps of its login and of the last accepted request. */
  lemma {:induction false} StampsAreTrue(m: Machine, run: seq<Event>)
    requires Fresh(m) && After(m, run).session.user.Some?
    ensures var s := After(m, run).session;
            var l, k := LastLogin(run), LastSeen(m, run);
            && 0 <= l <= k < |run| && run[l].Login? && s.user == Some(run[l].user) && s.login == At(run[l].now)
            && (run[k].Login? || run[k].Request?) && s.last == At(run[k].now)
            && (run[k].Login? <==> k == l)
  {
    var n := |run| - 1;
    if !run[n].Login? {
      StampsAreTrue(m, run[..n]);
      assert forall i | 0 <= i < n :: run[..n][i] == run[i];
    }
  }

  /** Every accepted request is within the lifetime of the login that opened the session and
      within the inactivity limit of the previous accepted request (or that login). */
  lemma AcceptedIsTimely(m: Machine, run: seq<Event>, i: nat)
    requires Fresh(m) && i < |run| && run[i].Request? && Accepted(ReplyTo(m, run, i))
    ensures var l, k := LastLogin(run[..i]), LastSeen(m, run[..i]);
            && 0 <= l <= k < i && run[l].Login? && (run[k].Login? || run[k].Request?)
            && run[i].now - run[l].now <= run[i].lifetime
            && run[i].now - run[k].now <= run[i].inactivity
  {
    var before := run[..i];
    StampsAreTrue(m, before);
    assert forall j | 0 <= j < i :: before[j] == run[j];
  }

  /** Without a session, nothing is accepted until a new login. */
  lemma {:induction false} DeadUntilLogin(m: Machine, run: seq<Event>)
    requires m.session.user.None? && forall i | 0 <= i < |run| :: !run[i].Login?
    ensures After(m, run).session.user.None?
    ensures forall i: nat | i < |run| :: !Accepted(ReplyTo(m, run, i))
  {
    if run != [] {
      var n := |run| - 1;
      DeadUntilLogin(m, run[..n]);
      forall i: nat | i < n ensures !Accepted(ReplyTo(m, run, i)) {
        assert run[..n][..i] == run[..i];
        assert !Accepted(ReplyTo(m, run[..n], i));
      }
    }
  }

  /** One late request ends the session for good: nothing after it is accepted before a new
      login, even if it arrives earlier by the clock or the limits are raised again. */
  lemma ExpiryIsFinal(m: Machine, late: Event, rest: seq<Event>)
    requires late.Request? && m.session.user.Some? && m.session.user.value in m.accounts
    requires m.accounts[m.session.user.value].active
    requires Late(m.session.login, late.now, late.lifetime) || Late(m.session.last, late.now, late.inactivity)
    requires forall i | 0 <= i < |rest| :: !rest[i].Login?
    ensures var m' := Handle(m, late).0;
            Handle(m, late).1 == Unauthenticated && forall i: nat | i < |rest| :: !Accepted(ReplyTo(m', rest, i))
  {
    DeadUntilLogin(Handle(m, late).0, rest);
  }

  /** A request that ends forced enrolment. */
  predicate Enrols(e: Event) {
    e.Request? && e.verb == POST && e.succeeds && (e.path == CONFIRM || e.path == REGISTER)
  }

  /** Of a session opened with forced enrolment: until an enrolment succeeds, whatever else
      happens, every request that passes is an enrolment path or a read of the preferences. */
  lemma {:induction false} RestrictedUntilEnrolled(m: Machine, login: Event, run: seq<Event>, i: nat)
    requires login.Login? && login.mustEnrol && i < |run|
    requires forall j | 0 <= j < i :: !run[j].Login? && !Enrols(run[j])
    requires ReplyTo(Handle(m, login).0, run, i).Passed?
    ensures run[i].path in ENROL_PATHS || (run[i].verb == GET && run[i].path == PREFERENCES)
  {
    FlagStays(Handle(m, login).0, run[..i]);
  }

  lemma {:induction false} FlagStays(m: Machine, run: seq<Event>)
    requires m.session.enrol || m.session.user.None?
    requires forall j | 0 <= j < |run| :: !run[j].Login? && !Enrols(run[j])
    ensures After(m, run).session.enrol || After(m, run).session.user.None?
  {
    if run != [] {
      FlagStays(m, run[..|run| - 1]);
    }
  }

  /** From every restricted state: enrol if that is asked for, then change the password, and
      the session is unrestricted. Both steps pass the gates. */
  lemma WayOut(m: Machine, now: int, lifetime: int, inactivity: int)
    requires Verify(m.session, m.accounts, now, lifetime, inactivity).1
    ensures var enrol := Request(CONFIRM, POST, now, lifetime, inactivity, true);
            var change := Request(PASSWORD, POST, now, lifetime, inactivity, true);
            var m1 := if m.session.enrol then Handle(m, enrol).0 else m;
            var m2 := Handle(m1, change).0;
            && (m.session.enrol ==> Handle(m, enrol).1 == Passed)
            && (inactivity >= 0 ==>
                  Handle(m1, change).1 == Passed && !m2.session.enrol && !Pending(m2)
                  && m2.session.user == m.session.user)
  {
  }

  // ---- The session object -----------------------------------------------------------

  class SessionStore {
    var session: Session
    var accounts: map<int, Account>

    /** `verify_session`: expiry clears the session, acceptance refreshes its last activity. */
    method VerifySession(now: int, lifetime: int, inactivity: int) returns (ok: bool)
      modifies `session
      ensures (session, ok) == old(Verify(session, accounts, now, lifetime, inactivity))
    {
      if session.user.None? {
        return false;
      }
      var u := session.user.value;
      if u !in accounts || !accounts[u].active {
        return false;
      }
      if session.login.At? && now - session.login.time > lifetime {
        session := EMPTY;
        return false;
      }
      if session.last.At? && now - session.last.time > inactivity {
        session := EMPTY;
        return false;
      }
      session := session.(last := At(now));
      return true;
    }
  }
}
