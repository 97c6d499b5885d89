/** Second factors under enforced 2FA (`auth/twofa_enforcement.py`): removals read their guard
    under the user row lock, except that a key found disabled is deleted without it
    (`api/v2/webauthn.py`); enrolments and logins interleave with them freely. */
module SecondFactor {
  import opened Prelude

  /** The account's factors and what decides whether one is required. `provider` is the
      SSO provider's own switch, if the account has a provider. */
  datatype Account = Account(exempt: bool, local: bool, provider: Option<bool>,
                             totp: bool, keys: map<int, bool>, keyChosen: bool)

  datatype Removal = DisableTotp | DeleteKey(key: int) | DisableKey(key: int)

  predicate Enforced(a: Account, globally: bool) {
    !a.exempt && (if a.local then globally else a.provider == Some(true))
  }

  /** An enabled key, other than `excluding`. */
  predicate HasKey(a: Account, excluding: Option<int>) {
    exists k | k in a.keys :: a.keys[k] && excluding != Some(k)
  }

  predicate HasFactor(a: Account) {
    a.totp || HasKey(a, None)
  }

  function Dropped(op: Removal): Option<int> {
    if op.DisableTotp? then None else Some(op.key)
  }

  predicate WouldLeaveNone(a: Account, globally: bool, op: Removal) {
    && (Enforced(a, globally) || (a.keyChosen && HasKey(a, None)))
    && !(a.totp && !op.DisableTotp?)
    && !HasKey(a, Dropped(op))
  }

  /** Whether a password login gets a session restricted to enrolment. */
  predicate MustEnrol(a: Account, globally: bool) {
    !HasFactor(a) && Enforced(a, globally)
  }

  function Remove(a: Account, globally: bool, op: Removal): Account {
    match op
    case DisableTotp =>
      a.(totp := false, keyChosen := a.keyChosen || (Enforced(a, globally) && HasKey(a, None)))
    case DeleteKey(k) => a.(keys := a.keys - {k}, keyChosen := a.keyChosen && HasKey(a, Some(k)))
    case DisableKey(k) =>
      a.(keys := if k in a.keys then a.keys[k := false] else a.keys,
         keyChosen := a.keyChosen && HasKey(a, Some(k)))
  }

  // ---- Interleavings ------------------------------------------------------------

  /** `Unlocked`: the key was found disabled, and is about to be deleted without the lock. */
  datatype Pc = Begin | Locked(refused: bool) | Unlocked | Over

  datatype Request = Request(op: Removal, pc: Pc)

  /** One account, the row lock on it, the removals in flight, and its password sessions
      (`true` while restricted to enrolment). */
  datatype State = State(account: Account, globally: bool, holder: Option<int>,
                         requests: map<int, Request>, sessions: map<int, bool>)

  datatype Event =
    | Submit(r: int, op: Removal)
    | Lock(r: int)
    | Commit(r: int)
    | Abandon(r: int)
    | FindDisabled(r: int, key: int)
    | CommitUnlocked(r: int)
    | Login(session: int)
    | Logout(session: int)
    | ConfirmTotp(session: int)
    | RegisterKey(session: int, key: int)
    | EnableKey(key: int)
    | ChooseKey(chosen: bool)

  /** The key is registered and enabled. */
  predicate On(a: Account, k: int) {
    k in a.keys && a.keys[k]
  }

  predicate AtUnlocked(s: State, r: int) {
    r in s.requests && s.requests[r].pc.Unlocked? && s.requests[r].op.DeleteKey?
  }

  predicate Enabled(s: State, e: Event) {
    match e
    case Submit(r, _) => r !in s.requests
    case Lock(r) => r in s.requests && s.requests[r].pc.Begin? && s.holder.None?
    case Commit(r) => r in s.requests && s.requests[r].pc == Locked(false)
    case Abandon(r) => r in s.requests && s.requests[r].pc.Locked?
    case FindDisabled(r, k) => r !in s.requests && k in s.account.keys && !s.account.keys[k]
    case CommitUnlocked(r) => AtUnlocked(s, r) && s.requests[r].op.key in s.account.keys
    case Login(_) => true
    case Logout(n) => n in s.sessions
    case ConfirmTotp(n) => n in s.sessions
    case RegisterKey(n, k) => n in s.sessions && k !in s.account.keys
    case EnableKey(k) => k in s.account.keys
    case ChooseKey(_) => s.holder.None?
  }

  function Do(s: State, e: Event): State {
    match e
    case Submit(r, op) => s.(requests := s.requests[r := Request(op, Begin)])
    case Lock(r) =>
      if r in s.requests then
        var op := s.requests[r].op;
        s.(holder := Some(r),
           requests := s.requests[r := Request(op, Locked(WouldLeaveNone(s.account, s.globally, op)))])
      else s
    case Commit(r) =>
      if r in s.requests then
        var op := s.requests[r].op;
        s.(account := Remove(s.account, s.globally, op), holder := None,
           requests := s.requests[r := Request(op, Over)])
      else s
    case Abandon(r) =>
      if r in s.requests then
        s.(holder := None, requests := s.requests[r := s.requests[r].(pc := Over)])
      else s
    case FindDisabled(r, k) => s.(requests := s.requests[r := Request(DeleteKey(k), Unlocked)])
    case CommitUnlocked(r) =>
      if r in s.requests then
        var op := s.requests[r].op;
        s.(account := Remove(s.account, s.globally, op), requests := s.requests[r := Request(op, Over)])
      else s
    case Login(n) => s.(sessions := s.sessions[n := MustEnrol(s.account, s.globally)])
    case Logout(n) => s.(sessions := s.sessions - {n})
    case ConfirmTotp(n) => s.(account := s.account.(totp := true), sessions := s.sessions[n := false])
    case RegisterKey(n, k) =>
      s.(account := s.account.(keys := s.account.keys[k := true],
                               keyChosen := s.account.keyChosen || (n in s.sessions && s.sessions[n])),
         sessions := s.sessions[n := false])
    case EnableKey(k) => s.(account := s.account.(keys := s.account.keys[k := true]))
    case ChooseKey(chosen) => s.(account := s.account.(keyChosen := chosen))
  }

  ghost predicate Next(s: State, s': State) {
    exists e :: Enabled(s, e) && s' == Do(s, e)
  }

  predicate Idle(s: State) {
    s.holder.None? && s.requests == map[] && s.sessions == map[]
  }

  /** A run under enforcement: nothing in flight and no session at the start. */
  ghost predicate IsTrace(t: seq<State>) {
    && t != [] && Idle(t[0]) && Enforced(t[0].account, t[0].globally)
    && forall i: nat | i + 1 < |t| :: StepAt(t, i)
  }

  ghost predicate StepAt(t: seq<State>, i: nat)
    requires i + 1 < |t|
  {
    Next(t[i], t[i + 1])
  }

  /** Some key is enabled while an unlocked removal of it is in flight. */
  ghost predicate Exposed(s: State) {
    exists r :: ExposedBy(s, r)
  }

  ghost predicate ExposedBy(s: State, r: int) {
    AtUnlocked(s, r) && On(s.account, s.requests[r].op.key)
  }

  /** Only the lock holder is past its guard, and what it may commit leaves a factor. */
  ghost predicate Inv(s: State) {
    && Enforced(s.account, s.globally)
    && (s.holder.Some? ==> s.holder.value in s.requests && s.requests[s.holder.value].pc.Locked?)
    && (forall r | r in s.requests && s.requests[r].pc.Locked? :: s.holder == Some(r))
    && (forall r | r in s.requests && s.requests[r].pc == Locked(false) ::
          HasFactor(Remove(s.account, s.globally, s.requests[r].op)))
    && (forall n | n in s.sessions && !s.sessions[n] :: HasFactor(s.account))
  }

  /** What a removal leaves, said of the account before it. */
  lemma LeavesFactorIff(a: Account, globally: bool, op: Removal)
    ensures HasFactor(Remove(a, globally, op)) <==> (a.totp && !op.DisableTotp?) || HasKey(a, Dropped(op))
  {
  }

  /** Under enforcement the guard refuses exactly the removals that leave no factor. */
  lemma GuardLeavesFactor(a: Account, globally: bool, op: Removal)
    requires Enforced(a, globally)
    ensures WouldLeaveNone(a, globally, op) <==> !HasFactor(Remove(a, globally, op))
  {
  }

  /** Adding a factor leaves every removal that was safe safe. */
  lemma MoreFactors(a: Account, b: Account, globally: bool, op: Removal)
    requires a.totp ==> b.totp
    requires forall k | On(a, k) :: On(b, k)
    ensures HasFactor(a) ==> HasFactor(b)
    ensures HasFactor(Remove(a, globally, op)) ==> HasFactor(Remove(b, globally, op))
  {
    LeavesFactorIff(a, globally, op);
    LeavesFactorIff(b, globally, op);
    assert forall k | k in a.keys && a.keys[k] :: On(a, k);
    assert forall k | On(b, k) :: k in b.keys && b.keys[k];
  }

  lemma GrowingHolds(s: State, s': State)
    requires Inv(s) && s'.globally == s.globally && Enforced(s'.account, s'.globally)
    requires s'.holder == s.holder && s'.requests == s.requests
    requires (s.account.totp ==> s'.account.totp) && forall k | On(s.account, k) :: On(s'.account, k)
    requires forall n | n in s'.sessions && !s'.sessions[n] :: (n in s.sessions && !s.sessions[n]) || HasFactor(s'.account)
    ensures Inv(s') && (HasFactor(s.account) ==> HasFactor(s'.account))
  {
    MoreFactors(s.account, s'.account, s.globally, DisableTotp);
    forall r | r in s'.requests && s'.requests[r].pc == Locked(false)
      ensures HasFactor(Remove(s'.account, s'.globally, s'.requests[r].op)) {
      MoreFactors(s.account, s'.account, s.globally, s.requests[r].op);
    }
  }

  /** Every event keeps the invariant and the last factor, except that an unlocked removal must not
      find its key enabled. */
  lemma StepHolds(s: State, e: Event)
    requires Inv(s) && Enabled(s, e)
    requires e.CommitUnlocked? ==> !ExposedBy(s, e.r)
    ensures Inv(Do(s, e)) && (HasFactor(s.account) ==> HasFactor(Do(s, e).account))
  {
    var s' := Do(s, e);
    if e.Lock? {
      GuardLeavesFactor(s.account, s.globally, s.requests[e.r].op);
    } else if e.ConfirmTotp? || e.EnableKey? || e.ChooseKey? {
      GrowingHolds(s, s');
    } else if e.RegisterKey? {
      assert s'.account.keys[e.key];
      GrowingHolds(s, s');
    } else if e.CommitUnlocked? {
      var mid := s.(account := s'.account);
      GrowingHolds(s, mid);
    }
  }

  ghost predicate UnexposedUntil(t: seq<State>, i: nat)
    requires i <= |t|
  {
    forall k | 0 <= k < i :: !Exposed(t[k])
  }

  lemma {:induction false} TraceHolds(t: seq<State>, i: nat)
    requires IsTrace(t) && i < |t| && UnexposedUntil(t, i)
    ensures Inv(t[i])
    ensures i > 0 && HasFactor(t[i - 1].account) ==> HasFactor(t[i].account)
  {
    if i > 0 {
      TraceHolds(t, i - 1);
      assert StepAt(t, i - 1);
      var e :| Enabled(t[i - 1], e) && t[i] == Do(t[i - 1], e);
      assert !Exposed(t[i - 1]);
      StepHolds(t[i - 1], e);
    }
  }

  /** In every interleaving under enforcement in which no key is enabled while an unlocked removal of
      it is in flight, an account that has a factor keeps one. */
  lemma {:induction false} FactorNeverLost(t: seq<State>, i: nat, j: nat)
    requires IsTrace(t) && i <= j < |t| && UnexposedUntil(t, j) && HasFactor(t[i].account)
    ensures HasFactor(t[j].account)
    decreases j
  {
    if i < j {
      FactorNeverLost(t, i, j - 1);
      TraceHolds(t, j);
    }
  }

  /** Then, too, an unrestricted password session belongs to an account that has a second factor. */
  lemma FullSessionHasFactor(t: seq<State>, i: nat, session: int)
    requires IsTrace(t) && i < |t| && UnexposedUntil(t, i)
    requires session in t[i].sessions && !t[i].sessions[session]
    ensures HasFactor(t[i].account)
  {
    TraceHolds(t, i);
  }

  /** Without the lock the guard would not do: on a TOTP and one key, both removals pass it,
      and together they leave nothing. */
  lemma GuardAloneIsNotEnough(key: int)
    ensures var a := Account(false, true, None, true, map[key := true], false);
            && Enforced(a, true) && HasFactor(a)
            && !WouldLeaveNone(a, true, DisableTotp) && !WouldLeaveNone(a, true, DeleteKey(key))
            && !HasFactor(Remove(Remove(a, true, DisableTotp), true, DeleteKey(key)))
  {
    var a := Account(false, true, None, true, map[key := true], false);
    assert key in a.keys && a.keys[key];
    GuardLeavesFactor(a, true, DisableTotp);
    GuardLeavesFactor(a, true, DeleteKey(key));
  }

  // ---- When removals can cost the last factor -----------------------------------------

  /** A step of a removal, which enables nothing. */
  predicate Removes(e: Event) {
    e.Submit? || e.Lock? || e.Commit? || e.Abandon? || e.FindDisabled? || e.CommitUnlocked?
  }

  ghost predicate Feasible(s: State, events: seq<Event>)
    decreases |events|
  {
    events != [] ==> Removes(events[0]) && Enabled(s, events[0]) && Feasible(Do(s, events[0]), events[1..])
  }

  ghost function After(s: State, events: seq<Event>): State
    decreases |events|
  {
    if events == [] then s else After(Do(s, events[0]), events[1..])
  }

  lemma {:induction false} AfterConcat(s: State, first: seq<Event>, rest: seq<Event>)
    requires Feasible(s, first) && Feasible(After(s, first), rest)
    ensures Feasible(s, first + rest) && After(s, first + rest) == After(After(s, first), rest)
    decreases |first|
  {
    if first == [] {
      assert first + rest == rest;
    } else {
      AfterConcat(Do(s, first[0]), first[1..], rest);
      assert (first + rest)[1..] == first[1..] + rest;
    }
  }

  lemma UnusedId(requests: map<int, Request>) returns (x: int)
    ensures x !in requests
  {
    var bound := AboveAll(requests.Keys);
    x := bound;
  }

  lemma {:induction false} AboveAll(ids: set<int>) returns (x: int)
    ensures forall i | i in ids :: i < x
  {
    x := 0;
    if i :| i in ids {
      var y := AboveAll(ids - {i});
      x := if i < y then y else i + 1;
      assert forall j | j in ids :: j == i || j in ids - {i};
    }
  }

  /** A removal that the guard lets through, from start to finish. */
  lemma LockedRemoval(s: State, op: Removal) returns (events: seq<Event>, x: int)
    requires s.holder.None? && !WouldLeaveNone(s.account, s.globally, op)
    ensures Feasible(s, events) && x !in s.requests
    ensures After(s, events) ==
            s.(account := Remove(s.account, s.globally, op), requests := s.requests[x := Request(op, Over)])
  {
    x := UnusedId(s.requests);
    events := [Submit(x, op), Lock(x), Commit(x)];
    var s1 := Do(s, Submit(x, op));
    var s2 := Do(s1, Lock(x));
    var s3 := Do(s2, Commit(x));
    assert events[1..] == [Lock(x), Commit(x)] && events[1..][1..] == [Commit(x)] && events[1..][1..][1..] == [];
    assert After(s3, []) == s3 && Feasible(s3, []);
    assert Feasible(s2, [Commit(x)]) && After(s2, [Commit(x)]) == s3;
    assert Feasible(s1, [Lock(x), Commit(x)]) && After(s1, [Lock(x), Commit(x)]) == s3;
    assert s3.requests == s.requests[x := Request(op, Over)];
  }

  ghost function Others(a: Account, key: int): set<int> {
    set k | k in a.keys && a.keys[k] && k != key
  }

  /** What is left to remove before the last factor is the key itself. */
  ghost function Left(a: Account, key: int): nat {
    |Others(a, key)| + if a.totp then 1 else 0
  }

  /** `op` removes a factor other than `key`. */
  ghost predicate Removable(a: Account, op: Removal, key: int) {
    (op.DisableTotp? && a.totp) || (op.DeleteKey? && op.key in Others(a, key))
  }

  lemma RemovingLeavesLess(a: Account, globally: bool, op: Removal, key: int)
    requires On(a, key) && Removable(a, op, key)
    ensures var b := Remove(a, globally, op);
            On(b, key) && Left(b, key) < Left(a, key) && !WouldLeaveNone(a, globally, op)
            && Enforced(b, globally) == Enforced(a, globally)
  {
    var b := Remove(a, globally, op);
    if op.DisableTotp? {
      assert Others(b, key) == Others(a, key);
    } else {
      assert Others(b, key) == Others(a, key) - {op.key};
    }
  }

  /** With the lock free, everything but the exposed key is removed under it, and then the key. */
  lemma {:induction false} RemoveAll(s: State, r: int) returns (events: seq<Event>)
    requires s.holder.None? && ExposedBy(s, r)
    ensures Feasible(s, events) && !HasFactor(After(s, events).account)
    decreases Left(s.account, s.requests[r].op.key)
  {
    var key := s.requests[r].op.key;
    if s.account.totp {
      events := RemoveOne(s, r, DisableTotp);
    } else if k :| k in Others(s.account, key) {
      events := RemoveOne(s, r, DeleteKey(k));
    } else {
      events := [CommitUnlocked(r)];
      assert events[1..] == [];
      var last := Do(s, events[0]);
      assert After(last, []) == last && Feasible(last, []);
      assert forall k | k in last.account.keys && last.account.keys[k] :: k in Others(s.account, key);
    }
  }

  lemma RemoveOne(s: State, r: int, op: Removal) returns (events: seq<Event>)
    requires s.holder.None? && ExposedBy(s, r)
    requires Removable(s.account, op, s.requests[r].op.key)
    ensures Feasible(s, events) && !HasFactor(After(s, events).account)
    decreases Left(s.account, s.requests[r].op.key), 0
  {
    RemovingLeavesLess(s.account, s.globally, op, s.requests[r].op.key);
    var first, x := LockedRemoval(s, op);
    var rest := RemoveAll(After(s, first), r);
    AfterConcat(s, first, rest);
    events := first + rest;
  }

  lemma {:induction false} UnexposedKeepsFactor(s: State, events: seq<Event>)
    requires Inv(s) && !Exposed(s) && HasFactor(s.account) && Feasible(s, events)
    ensures HasFactor(After(s, events).account)
    decreases |events|
  {
    if events != [] {
      var s' := Do(s, events[0]);
      StepHolds(s, events[0]);
      RemovalsExposeNothing(s, events[0]);
      UnexposedKeepsFactor(s', events[1..]);
    }
  }

  lemma RemovalsExposeNothing(s: State, e: Event)
    requires !Exposed(s) && Removes(e) && Enabled(s, e)
    ensures !Exposed(Do(s, e))
  {
    var s' := Do(s, e);
    forall r ensures !ExposedBy(s', r) {
      assert !ExposedBy(s, r);
    }
  }

  lemma LossFromIff(s: State)
    requires Inv(s) && HasFactor(s.account)
    ensures (exists events :: Feasible(s, events) && !HasFactor(After(s, events).account)) <==> Exposed(s)
  {
    if r :| ExposedBy(s, r) {
      if s.holder.None? {
        var events := RemoveAll(s, r);
        assert Feasible(s, events);
      } else {
        var free := [Abandon(s.holder.value)];
        assert free[1..] == [];
        var s' := Do(s, free[0]);
        assert After(s', []) == s' && Feasible(s', []) && ExposedBy(s', r);
        var rest := RemoveAll(s', r);
        AfterConcat(s, free, rest);
        assert Feasible(s, free + rest);
      }
    } else {
      forall events | Feasible(s, events) ensures HasFactor(After(s, events).account) {
        UnexposedKeepsFactor(s, events);
      }
    }
  }

  /** Wherever an interleaving stands that exposed nothing before, removals alone can cost the
      account its last factor, if and only if some key is enabled while an unlocked removal of it is
      in flight. */
  lemma LossPossibleIff(t: seq<State>, i: nat)
    requires IsTrace(t) && i < |t| && UnexposedUntil(t, i) && HasFactor(t[i].account)
    ensures (exists events :: Feasible(t[i], events) && !HasFactor(After(t[i], events).account)) <==> Exposed(t[i])
  {
    TraceHolds(t, i);
    LossFromIff(t[i]);
  }

  // ---- Schedules ------------------------------------------------------------------------

  /** One event of a schedule; one that is not enabled is passed over. */
  function Take(s: State, e: Event): State {
    if Enabled(s, e) then Do(s, e) else s
  }

  function Run(s: State, schedule: seq<Event>): State {
    if schedule == [] then s
    else Take(Run(s, schedule[..|schedule| - 1]), schedule[|schedule| - 1])
  }

  lemma RunSnoc(s: State, before: seq<Event>, e: Event)
    ensures Run(s, before + [e]) == Take(Run(s, before), e)
  {
    assert (before + [e])[..|before|] == before;
  }

  /** A disabled key is found, enabled, TOTP is dropped because the key is there, and the key goes. */
  function Overtaking(key: int): seq<Event> {
    [FindDisabled(1, key), EnableKey(key), Submit(2, DisableTotp), Lock(2), Commit(2), CommitUnlocked(1)]
  }

  /** The shortest run that costs the last factor: every event is enabled when its turn comes. */
  lemma UnlockedRemovalOvertaken(key: int)
    ensures var s := State(Account(false, true, None, true, map[key := false], false), true, None, map[], map[]);
            var run := Overtaking(key);
            && Idle(s) && Enforced(s.account, s.globally) && HasFactor(s.account)
            && (forall i | 0 <= i < |run| :: Enabled(Run(s, run[..i]), run[i]))
            && Exposed(Run(s, run[..2])) && !HasFactor(Run(s, run).account)
  {
    var s := State(Account(false, true, None, true, map[key := false], false), true, None, map[], map[]);
    var run := Overtaking(key);
    var s1 := Do(s, run[0]);
    var s2 := Do(s1, run[1]);
    var s5 := OvertakenTotp(s2, key);
    forall i | 0 <= i < |run| ensures run[..i + 1] == run[..i] + [run[i]] {
    }
    assert run[..0] == [] && run[..6] == run;
    RunSnoc(s, run[..0], run[0]);
    RunSnoc(s, run[..1], run[1]);
    assert Run(s, run[..1]) == s1 && Run(s, run[..2]) == s2 && ExposedBy(s2, 1);
    RunSnoc(s, run[..2], run[2]);
    RunSnoc(s, run[..3], run[3]);
    RunSnoc(s, run[..4], run[4]);
    RunSnoc(s, run[..5], run[5]);
    assert Run(s, run[..5]) == s5;
  }

  /** TOTP is dropped under the lock while the key is enabled, and the key alone is left. */
  lemma OvertakenTotp(s: State, key: int) returns (s': State)
    requires s.holder.None? && s.account.totp && s.account.keys == map[key := true]
    requires s.requests == map[1 := Request(DeleteKey(key), Unlocked)]
    ensures var s3 := Do(s, Submit(2, DisableTotp));
            var s4 := Do(s3, Lock(2));
            && Enabled(s, Submit(2, DisableTotp)) && Enabled(s3, Lock(2)) && Enabled(s4, Commit(2))
            && s' == Do(s4, Commit(2)) && Enabled(s', CommitUnlocked(1))
            && !HasFactor(Do(s', CommitUnlocked(1)).account)
  {
    assert On(s.account, key);
    s' := Do(Do(Do(s, Submit(2, DisableTotp)), Lock(2)), Commit(2));
  }

  predicate AllLocked(schedule: seq<Event>) {
    forall i | 0 <= i < |schedule| :: !schedule[i].FindDisabled?
  }

  /** No schedule without unlocked removals costs an account its last factor. */
  lemma {:induction false} LockedSchedulesKeepFactor(s: State, schedule: seq<Event>)
    requires Idle(s) && Enforced(s.account, s.globally)
    requires AllLocked(schedule)
    ensures var s' := Run(s, schedule);
            && Inv(s') && (HasFactor(s.account) ==> HasFactor(s'.account))
            && forall r | r in s'.requests :: !s'.requests[r].pc.Unlocked?
  {
    if schedule != [] {
      var before := schedule[..|schedule| - 1];
      LockedSchedulesKeepFactor(s, before);
      var e := schedule[|schedule| - 1];
      if Enabled(Run(s, before), e) {
        StepHolds(Run(s, before), e);
      }
    }
  }

  // ---- The guarded row ------------------------------------------------------------

  /** The row and its lock, as `lock_for_factor_change` and its callers use them. */
  class UserRow {
    var account: Account
    var globally: bool
    var holder: Option<int>
    var requests: map<int, Request>
    var sessions: map<int, bool>

    ghost function View(): State
      reads this
    {
      State(account, globally, holder, requests, sessions)
    }

    /** The guard is read after the lock is taken; under enforcement it refuses exactly what would
        leave the account, as it is under the lock, without a factor. */
    method LockForFactorChange(r: int) returns (refused: bool)
      requires Enabled(View(), Lock(r))
      modifies `holder, `requests
      ensures View() == Do(old(View()), Lock(r)) && requests[r].pc == Locked(refused)
      ensures Enforced(account, globally) ==>
                (refused <==> !HasFactor(Remove(account, globally, old(requests[r].op))))
    {
      holder := Some(r);
      var op := requests[r].op;
      refused := WouldLeaveNone(account, globally, op);
      requests := requests[r := Request(op, Locked(refused))];
      if Enforced(account, globally) {
        GuardLeavesFactor(account, globally, op);
      }
    }

    /** The removal itself. */
    method Drop(op: Removal)
      modifies `account
      ensures account == Remove(old(account), globally, op)
    {
      if op.DisableTotp? {
        if Enforced(account, globally) && HasKey(account, None) {
          account := account.(keyChosen := true);
        }
        account := account.(totp := false);
      } else {
        if !HasKey(account, Some(op.key)) {
          account := account.(keyChosen := false);
        }
        if op.DeleteKey? {
          account := account.(keys := account.keys - {op.key});
        } else if op.key in account.keys {
          account := account.(keys := account.keys[op.key := false]);
        }
      }
    }

    /** The commit of a removal, which gives the lock back if it was taken. */
    method CommitRemoval(r: int)
      requires Enabled(View(), Commit(r)) || Enabled(View(), CommitUnlocked(r))
      modifies `account, `holder, `requests
      ensures old(Enabled(View(), Commit(r))) ==> View() == Do(old(View()), Commit(r))
      ensures old(Enabled(View(), CommitUnlocked(r))) ==> View() == Do(old(View()), CommitUnlocked(r))
    {
      var q := requests[r];
      Drop(q.op);
      if q.pc.Locked? {
        holder := None;
      }
      requests := requests[r := Request(q.op, Over)];
    }

    /** One event: the code that serves it, or nothing when it is not enabled. */
    method Step(e: Event)
      modifies this
      ensures View() == Take(old(View()), e)
    {
      match e
      case Submit(r, op) => if r !in requests { requests := requests[r := Request(op, Begin)]; }
      case Lock(r) =>
        if r in requests && requests[r].pc.Begin? && holder.None? {
          var refused := LockForFactorChange(r);
        }
      case Commit(r) => if r in requests && requests[r].pc == Locked(false) { CommitRemoval(r); }
      case Abandon(r) =>
        if r in requests && requests[r].pc.Locked? {
          holder := None;
          requests := requests[r := requests[r].(pc := Over)];
        }
      case FindDisabled(r, k) =>
        if r !in requests && k in account.keys && !account.keys[k] {
          requests := requests[r := Request(DeleteKey(k), Unlocked)];
        }
      case CommitUnlocked(r) =>
        if r in requests && requests[r].pc.Unlocked? && requests[r].op.DeleteKey? && requests[r].op.key in account.keys {
          CommitRemoval(r);
        }
      case Login(n) =>
        sessions := sessions[n := !account.totp && !HasKey(account, None) && Enforced(account, globally)];
      case Logout(n) => sessions := sessions - {n};
      case ConfirmTotp(n) =>
        if n in sessions {
          account := account.(totp := true);
          sessions := sessions[n := false];
        }
      case RegisterKey(n, k) =>
        if n in sessions && k !in account.keys {
          account := account.(keys := account.keys[k := true]);
          if sessions[n] {
            account := account.(keyChosen := true);
          }
          sessions := sessions[n := false];
        }
      case EnableKey(k) => if k in account.keys { account := account.(keys := account.keys[k := true]); }
      case ChooseKey(chosen) => if holder.None? { account := account.(keyChosen := chosen); }
    }

    /** Any schedule of removals, enrolments and logins. If none of its removals skips the lock, an
        account under enforcement that has a factor keeps one. */
    method Serve(schedule: seq<Event>)
      requires Idle(View())
      modifies this
      ensures View() == Run(old(View()), schedule)
      ensures (old(Enforced(account, globally) && HasFactor(account)) && AllLocked(schedule)) ==> HasFactor(account)
    {
      for i := 0 to |schedule|
        invariant View() == Run(old(View()), schedule[..i])
      {
        assert schedule[..i + 1][..i] == schedule[..i];
        Step(schedule[i]);
      }
      assert schedule[..|schedule|] == schedule;
      if old(Enforced(account, globally)) && AllLocked(schedule) {
        LockedSchedulesKeepFactor(old(View()), schedule);
      }
    }
  }
}
