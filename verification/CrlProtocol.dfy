/** On-demand CRL generation (`api/cdp_routes.py`) as interleaved steps of any number of
    requests over one CRL store, a guarded table of per-CA locks and a clock.

    Outside the route: `get_latest_crl` returns the newest row; a generation that succeeds
    stores a non-empty CRL that expires a positive window after its own time stamp; other
    writers only add non-empty CRLs that do not expire before the one they replace. */
module CrlProtocol {
  import opened Prelude

  const LOCK_TIMEOUT: int := 30

  datatype Crl = Crl(nextUpdate: Option<int>, der: seq<bv8>)

  datatype CaInfo = CaInfo(hasPrivateKey: bool, cdpEnabled: bool, hasCertificate: bool, offline: bool)

  datatype Status = Ok | NotFound | Busy

  /** Where a request is in `get_crl`; each constructor names the step it takes next. */
  datatype Pc =
    | ReadLatest
    | CheckLatest
    | TakeGuard
    | LookUp
    | Install
    | DropGuard
    | Acquire(since: int)
    | ReRead
    | ReCheck
    | Stamp
    | Sign(at: int)
    | Release(reply: Status)
    | Done(status: Status)

  /** `crl` and `reread` are the two reads of the store, `lock` the lock object obtained.
      The rest records what the request saw: whether the CA resolved, whether it could
      sign, whether generation failed, and the time of the last expiry check. */
  datatype Request = Request(ca: int, pc: Pc, crl: Option<Crl>, reread: Option<Crl>, lock: nat,
                             known: bool, signable: bool, failed: bool, checkedAt: int)

  /** A successful generation by this route. */
  datatype Generation = Generation(ca: int, at: int, window: int)

  datatype State = State(
    clock: int,
    cas: map<int, CaInfo>,
    rows: map<int, seq<Crl>>,        // newest last
    guard: Option<int>,              // request holding the guard of the lock table
    table: map<int, nat>,            // CA to lock object
    held: map<nat, int>,             // held lock objects, with the request holding each
    nextLock: nat,                   // lock objects created so far
    requests: map<int, Request>,
    log: seq<Generation>)

  datatype Event =
    | Tick(to: int)
    | ChangeCa(ca: int, info: CaInfo)
    | OtherWrite(ca: int, crl: Crl)
    | Arrive(r: int, ca: int)
    | Act(r: int)
    | TimeOut(r: int)
    | Generated(r: int, window: int, der: seq<bv8>)
    | Failed(r: int)

  function Latest(s: State, ca: int): Option<Crl> {
    if ca in s.rows && s.rows[ca] != [] then Some(s.rows[ca][|s.rows[ca]| - 1]) else None
  }

  predicate Usable(c: Option<Crl>) {
    c.Some? && c.value.der != []
  }

  predicate Expired(c: Option<Crl>, now: int) {
    c.Some? && c.value.nextUpdate.Some? && c.value.nextUpdate.value <= now
  }

  predicate NeedsRegeneration(c: Option<Crl>, now: int) {
    !Usable(c) || Expired(c, now)
  }

  predicate CanSign(s: State, ca: int) {
    && ca in s.cas
    && s.cas[ca].hasPrivateKey && s.cas[ca].cdpEnabled && s.cas[ca].hasCertificate && !s.cas[ca].offline
  }

  function Append(s: State, ca: int, c: Crl): State {
    s.(rows := s.rows[ca := (if ca in s.rows then s.rows[ca] else []) + [c]])
  }

  function Put(s: State, r: int, q: Request): State {
    s.(requests := s.requests[r := q])
  }

  /** `c` is good until `t` at least. */
  predicate LastsUntil(c: Option<Crl>, t: int) {
    Usable(c) && (c.value.nextUpdate.Some? ==> c.value.nextUpdate.value >= t)
  }

  /** Other writers replace a CRL by a non-empty one that does not expire earlier. */
  predicate NoEarlier(was: Option<Crl>, c: Crl) {
    && c.der != []
    && (Usable(was) && c.nextUpdate.Some? ==>
          was.value.nextUpdate.Some? && c.nextUpdate.value >= was.value.nextUpdate.value)
  }

  ghost predicate Enabled(s: State, e: Event) {
    match e
    case Tick(to) => to >= s.clock
    case ChangeCa(_, _) => true
    case OtherWrite(ca, c) => NoEarlier(Latest(s, ca), c)
    case Arrive(r, _) => r !in s.requests
    case Act(r) =>
      r in s.requests &&
      (match s.requests[r].pc
       case TakeGuard => s.guard.None?
       case Acquire(_) => s.requests[r].lock !in s.held
       case Sign(_) => false
       case Done(_) => false
       case _ => true)
    case TimeOut(r) =>
      && r in s.requests && s.requests[r].pc.Acquire?
      && s.requests[r].lock in s.held && s.clock >= s.requests[r].pc.since + LOCK_TIMEOUT
    case Generated(r, window, der) =>
      r in s.requests && s.requests[r].pc.Sign? && window > 0 && der != []
    case Failed(r) =>
      r in s.requests && (s.requests[r].pc.Stamp? || s.requests[r].pc.Sign?)
  }

  /** What the request itself becomes by its next step. */
  function StepRequest(s: State, q: Request): Request {
    match q.pc
    case ReadLatest => q.(crl := Latest(s, q.ca), pc := CheckLatest)
    case CheckLatest =>
      if !NeedsRegeneration(q.crl, s.clock) then q.(checkedAt := s.clock, pc := Done(Ok))
      else if CanSign(s, q.ca) then q.(checkedAt := s.clock, pc := TakeGuard)
      else q.(checkedAt := s.clock, signable := false, pc := Done(if Usable(q.crl) then Ok else NotFound))
    case TakeGuard => q.(pc := LookUp)
    case LookUp =>
      if q.ca in s.table then q.(lock := s.table[q.ca], pc := DropGuard) else q.(pc := Install)
    case Install => q.(lock := s.nextLock, pc := DropGuard)
    case DropGuard => q.(pc := Acquire(s.clock))
    case Acquire(_) => q.(pc := ReRead)
    case ReRead => q.(reread := Latest(s, q.ca), pc := ReCheck)
    case ReCheck =>
      if NeedsRegeneration(q.reread, s.clock) then q.(checkedAt := s.clock, pc := Stamp)
      else q.(checkedAt := s.clock, crl := q.reread, pc := Release(Ok))
    case Stamp => q.(pc := Sign(s.clock))
    case Sign(_) => q
    case Release(reply) => q.(pc := Done(reply))
    case Done(_) => q
  }

  /** The next step of request `r`: its own record, then the guard, the table and the locks. */
  function Advance(s: State, r: int): State
    requires r in s.requests
  {
    var q := s.requests[r];
    var s' := Put(s, r, StepRequest(s, q));
    match q.pc
    case TakeGuard => s'.(guard := Some(r))
    case Install => s'.(table := s.table[q.ca := s.nextLock], nextLock := s.nextLock + 1)
    case DropGuard => s'.(guard := None)
    case Acquire(_) => s'.(held := s.held[q.lock := r])
    case Release(_) => s'.(held := s.held - {q.lock})
    case _ => s'
  }

  function Do(s: State, e: Event): State {
    match e
    case Tick(to) => s.(clock := to)
    case ChangeCa(ca, info) => s.(cas := s.cas[ca := info])
    case OtherWrite(ca, c) => Append(s, ca, c)
    case Arrive(r, ca) =>
      Put(s, r, Request(ca, if ca in s.cas then ReadLatest else Done(NotFound), None, None, 0,
                        ca in s.cas, true, false, s.clock))
    case Act(r) => if r in s.requests then Advance(s, r) else s
    case TimeOut(r) => if r in s.requests then Put(s, r, s.requests[r].(pc := Done(Busy))) else s
    case Generated(r, window, der) =>
      if r in s.requests && s.requests[r].pc.Sign? then
        var q := s.requests[r];
        var c := Crl(Some(q.pc.at + window), der);
        Put(Append(s, q.ca, c), r, q.(crl := Some(c), checkedAt := q.pc.at, pc := Release(Ok)))
          .(log := s.log + [Generation(q.ca, q.pc.at, window)])
      else s
    case Failed(r) =>
      if r in s.requests then
        var q := s.requests[r];
        Put(s, r, q.(failed := true, pc := Release(if Usable(q.crl) then Ok else NotFound)))
      else s
  }

  predicate Init(s: State) {
    s.guard.None? && s.table == map[] && s.held == map[] && s.requests == map[] && s.log == []
  }

  /** Every step of the trace is an enabled event; any CRLs, CAs and clock to start with. */
  ghost predicate IsTrace(t: seq<State>) {
    t != [] && Init(t[0]) && forall i: nat | i + 1 < |t| :: StepAt(t, i)
  }

  ghost predicate StepAt(t: seq<State>, i: nat)
    requires i + 1 < |t|
  {
    Next(t[i], t[i + 1])
  }

  ghost predicate Next(s: State, s': State) {
    exists e :: Enabled(s, e) && s' == Do(s, e)
  }

  // ---- Invariants -------------------------------------------------------------

  predicate InGuard(pc: Pc) {
    pc.LookUp? || pc.Install? || pc.DropGuard?
  }

  /** The request has a lock object. */
  predicate HasLock(pc: Pc) {
    pc.DropGuard? || pc.Acquire? || Critical(pc)
  }

  /** The request holds its CA's lock. */
  predicate Critical(pc: Pc) {
    pc.ReRead? || pc.ReCheck? || Generating(pc) || pc.Release?
  }

  /** The request is inside `generate_crl`. */
  predicate Generating(pc: Pc) {
    pc.Stamp? || pc.Sign?
  }

  ghost predicate LockInv(s: State) {
    && (forall c | c in s.table :: s.table[c] < s.nextLock)
    && (forall c, d | c in s.table && d in s.table && s.table[c] == s.table[d] :: c == d)
    && (s.guard.Some? ==> s.guard.value in s.requests && InGuard(s.requests[s.guard.value].pc))
    && (forall l | l in s.held :: s.held[l] in s.requests &&
                                  Critical(s.requests[s.held[l]].pc) && s.requests[s.held[l]].lock == l)
    && (forall r | r in s.requests :: RequestLockInv(s, r))
  }

  ghost predicate RequestLockInv(s: State, r: int)
    requires r in s.requests
  {
    var q := s.requests[r];
    && (InGuard(q.pc) ==> s.guard == Some(r))
    && (q.pc.Install? ==> q.ca !in s.table)
    && (HasLock(q.pc) ==> q.ca in s.table && q.lock == s.table[q.ca])
    && (Critical(q.pc) ==> q.lock in s.held && s.held[q.lock] == r)
  }

  /** Everything this route generated for `ca` has run out by `t`. */
  ghost predicate AllOver(log: seq<Generation>, ca: int, t: int) {
    forall g | g in log && g.ca == ca :: g.at + g.window <= t
  }

  /** `c` lasts as long as everything this route generated for `ca`. */
  ghost predicate Covers(log: seq<Generation>, ca: int, c: Option<Crl>) {
    forall g | g in log && g.ca == ca :: LastsUntil(c, g.at + g.window)
  }

  /** Generations for one CA are at least the earlier one's window apart. */
  ghost predicate Apart(log: seq<Generation>) {
    forall i, j | 0 <= i < j < |log| && log[i].ca == log[j].ca :: log[i].at + log[i].window <= log[j].at
  }

  ghost predicate GenerationInv(s: State) {
    && Apart(s.log)
    && (forall g | g in s.log :: g.window > 0)
    && (forall ca :: Covers(s.log, ca, Latest(s, ca)))
    && (forall r | r in s.requests :: RequestGenerationInv(s.log, s.clock, s.requests[r]))
  }

  ghost predicate RequestGenerationInv(log: seq<Generation>, clock: int, q: Request) {
    && (q.pc.ReCheck? ==> Covers(log, q.ca, q.reread))
    && (q.pc.Stamp? ==> AllOver(log, q.ca, clock))
    && (q.pc.Sign? ==> AllOver(log, q.ca, q.pc.at) && q.pc.at <= clock)
  }

  /** What a reply, or a reply about to be sent, guarantees. */
  ghost predicate ReplyInv(q: Request) {
    && (q.pc == Done(Ok) || q.pc == Release(Ok) ==>
          Usable(q.crl) && (!Expired(q.crl, q.checkedAt) || !q.signable || q.failed))
    && (q.pc == Done(NotFound) || q.pc == Release(NotFound) ==>
          !Usable(q.crl) && (!q.known || !q.signable || q.failed))
    && (q.pc.Release? ==> q.pc.reply != Busy)
  }

  ghost predicate Inv(s: State) {
    LockInv(s) && GenerationInv(s) && forall r | r in s.requests :: ReplyInv(s.requests[r])
  }

  /** Steps that touch neither the guard, the table nor the locks. */
  predicate Quiet(pc: Pc) {
    !pc.TakeGuard? && !pc.Install? && !pc.DropGuard? && !pc.Acquire? && !pc.Release?
  }

  /** Replacing a request's record by one in the same position towards guard and locks. */
  lemma LockPut(s: State, r: int, q': Request)
    requires LockInv(s) && r in s.requests
    requires var q := s.requests[r];
             && q'.ca == q.ca && InGuard(q'.pc) == InGuard(q.pc) && Critical(q'.pc) == Critical(q.pc)
             && (Critical(q.pc) ==> q'.lock == q.lock)
             && (q'.pc.Install? ==> q.ca !in s.table)
             && (HasLock(q'.pc) ==> q.ca in s.table && q'.lock == s.table[q.ca])
    ensures LockInv(Put(s, r, q'))
  {
  }

  lemma LockQuiet(s: State, r: int)
    requires LockInv(s) && Enabled(s, Act(r)) && Quiet(s.requests[r].pc)
    ensures LockInv(Advance(s, r))
  {
    assert RequestLockInv(s, r);
    LockPut(s, r, StepRequest(s, s.requests[r]));
  }

  lemma LockGuarded(s: State, r: int)
    requires LockInv(s) && Enabled(s, Act(r)) && s.requests[r].pc in {TakeGuard, DropGuard}
    ensures LockInv(Advance(s, r))
  {
  }

  lemma LockInstalled(s: State, r: int)
    requires LockInv(s) && Enabled(s, Act(r)) && s.requests[r].pc.Install?
    ensures LockInv(Advance(s, r))
  {
  }

  lemma LockTaken(s: State, r: int)
    requires LockInv(s) && Enabled(s, Act(r)) && s.requests[r].pc.Acquire?
    ensures LockInv(Advance(s, r))
  {
  }

  lemma LockReleased(s: State, r: int)
    requires LockInv(s) && Enabled(s, Act(r)) && s.requests[r].pc.Release?
    ensures LockInv(Advance(s, r))
  {
  }

  lemma LockAct(s: State, r: int)
    requires LockInv(s) && Enabled(s, Act(r))
    ensures LockInv(Advance(s, r))
  {
    match s.requests[r].pc
    case Install => LockInstalled(s, r);
    case Acquire(_) => LockTaken(s, r);
    case Release(_) => LockReleased(s, r);
    case TakeGuard => LockGuarded(s, r);
    case DropGuard => LockGuarded(s, r);
    case _ => LockQuiet(s, r);
  }

  lemma LockFinish(s: State, e: Event)
    requires LockInv(s) && Enabled(s, e) && (e.TimeOut? || e.Failed? || e.Generated?)
    ensures LockInv(Do(s, e))
  {
    assert RequestLockInv(s, e.r);
    LockPut(s, e.r, Do(s, e).requests[e.r]);
    var s' := Put(s, e.r, Do(s, e).requests[e.r]);
    forall x | x in s'.requests ensures RequestLockInv(Do(s, e), x) {
      assert RequestLockInv(s', x);
    }
  }

  lemma LockStep(s: State, e: Event)
    requires LockInv(s) && Enabled(s, e)
    ensures LockInv(Do(s, e))
  {
    if e.Act? {
      LockAct(s, e.r);
    } else if e.TimeOut? || e.Failed? || e.Generated? {
      LockFinish(s, e);
    } else {
      LockOther(s, e);
    }
  }

  lemma LockOther(s: State, e: Event)
    requires LockInv(s) && Enabled(s, e)
    requires e.Tick? || e.ChangeCa? || e.OtherWrite? || e.Arrive?
    ensures LockInv(Do(s, e))
  {
  }

  lemma ReplyAct(s: State, q: Request)
    requires ReplyInv(q)
    ensures ReplyInv(StepRequest(s, q))
  {
  }

  lemma ReplyStep(s: State, e: Event)
    requires (forall r | r in s.requests :: ReplyInv(s.requests[r])) && Enabled(s, e)
    ensures forall r | r in Do(s, e).requests :: ReplyInv(Do(s, e).requests[r])
  {
    if e.Act? {
      ReplyAct(s, s.requests[e.r]);
    }
  }

  /** A re-check that fails finds everything generated so far run out. */
  lemma GenerationAct(s: State, q: Request)
    requires RequestGenerationInv(s.log, s.clock, q) && Covers(s.log, q.ca, Latest(s, q.ca))
    ensures RequestGenerationInv(s.log, s.clock, StepRequest(s, q))
  {
  }

  lemma GenerationOther(s: State, e: Event)
    requires GenerationInv(s) && Enabled(s, e) && !e.Act? && !e.Generated?
    ensures GenerationInv(Do(s, e))
  {
    var s' := Do(s, e);
    forall ca ensures Covers(s.log, ca, Latest(s', ca)) {
      assert Covers(s.log, ca, Latest(s, ca));
    }
    forall x | x in s'.requests ensures RequestGenerationInv(s'.log, s'.clock, s'.requests[x]) {
      assert x in s.requests ==> RequestGenerationInv(s.log, s.clock, s.requests[x]);
    }
  }

  lemma GenerationStored(s: State, e: Event)
    requires LockInv(s) && GenerationInv(s) && Enabled(s, e) && e.Generated?
    ensures GenerationInv(Do(s, e))
  {
    var s' := Do(s, e);
    var r, q := e.r, s.requests[e.r];
    assert RequestGenerationInv(s.log, s.clock, q) && RequestLockInv(s, r);
    forall ca ensures Covers(s'.log, ca, Latest(s', ca)) {
      assert Covers(s.log, ca, Latest(s, ca));
    }
    forall x | x in s'.requests ensures RequestGenerationInv(s'.log, s'.clock, s'.requests[x]) {
      if x != r {
        assert RequestGenerationInv(s.log, s.clock, s.requests[x]) && RequestLockInv(s, x);
      }
    }
  }

  lemma GenerationStep(s: State, e: Event)
    requires LockInv(s) && GenerationInv(s) && Enabled(s, e)
    ensures GenerationInv(Do(s, e))
  {
    if e.Act? {
      var s' := Do(s, e);
      assert s'.log == s.log && s'.clock == s.clock && s'.rows == s.rows;
      assert forall ca :: Latest(s', ca) == Latest(s, ca);
      GenerationAct(s, s.requests[e.r]);
    } else if e.Generated? {
      GenerationStored(s, e);
    } else {
      GenerationOther(s, e);
    }
  }

  lemma InitHolds(s: State)
    requires Init(s)
    ensures Inv(s)
  {
  }

  lemma NextHolds(s: State, s': State)
    requires Inv(s) && Next(s, s')
    ensures Inv(s')
  {
    var e :| Enabled(s, e) && s' == Do(s, e);
    LockStep(s, e);
    GenerationStep(s, e);
    ReplyStep(s, e);
  }

  lemma {:induction false} TraceHolds(t: seq<State>, i: nat)
    requires IsTrace(t) && i < |t|
    ensures Inv(t[i])
  {
    if i == 0 {
      InitHolds(t[0]);
    } else {
      TraceHolds(t, i - 1);
      assert StepAt(t, i - 1);
      NextHolds(t[i - 1], t[i]);
    }
  }

  // ---- What holds in every interleaving -----------------------------------------

  /** At most one request per CA is inside `generate_crl`. */
  lemma OneGenerationAtATime(t: seq<State>, i: nat, r1: int, r2: int)
    requires IsTrace(t) && i < |t| && r1 in t[i].requests && r2 in t[i].requests
    requires Generating(t[i].requests[r1].pc) && Generating(t[i].requests[r2].pc)
    requires t[i].requests[r1].ca == t[i].requests[r2].ca
    ensures r1 == r2
  {
    TraceHolds(t, i);
    assert RequestLockInv(t[i], r1) && RequestLockInv(t[i], r2);
  }

  /** Successful generations for one CA are at least the earlier CRL's window apart, and
      each window is positive. */
  lemma OneGenerationPerWindow(t: seq<State>, i: nat, a: nat, b: nat)
    requires IsTrace(t) && i < |t| && a < b < |t[i].log| && t[i].log[a].ca == t[i].log[b].ca
    ensures t[i].log[a].at < t[i].log[a].at + t[i].log[a].window <= t[i].log[b].at
  {
    TraceHolds(t, i);
  }

  /** A request that has replied holds neither the guard nor any lock. */
  lemma RepliedHoldsNothing(t: seq<State>, i: nat, r: int)
    requires IsTrace(t) && i < |t| && r in t[i].requests && t[i].requests[r].pc.Done?
    ensures t[i].guard != Some(r) && forall l | l in t[i].held :: t[i].held[l] != r
  {
    TraceHolds(t, i);
  }

  /** The lock object of a CA never changes, and no two CAs share one. */
  lemma {:induction false} OneLockForEver(t: seq<State>, i: nat, j: nat, ca: int, other: int)
    requires IsTrace(t) && i <= j < |t| && ca in t[i].table
    ensures ca in t[j].table && t[j].table[ca] == t[i].table[ca]
    ensures other in t[j].table && t[j].table[other] == t[i].table[ca] ==> other == ca
    decreases j
  {
    TraceHolds(t, j);
    if i < j {
      OneLockForEver(t, i, j - 1, ca, other);
      TraceHolds(t, j - 1);
      assert StepAt(t, j - 1);
      KeepsLock(t[j - 1], t[j], ca);
    }
  }

  /** Only the installation of a missing lock changes the table. */
  lemma TableKept(s: State, e: Event)
    ensures Do(s, e).table == s.table || (e.Act? && e.r in s.requests && s.requests[e.r].pc.Install?)
  {
  }

  lemma KeepsLock(s: State, s': State, ca: int)
    requires LockInv(s) && Next(s, s') && ca in s.table
    ensures ca in s'.table && s'.table[ca] == s.table[ca]
  {
    var e :| Enabled(s, e) && s' == Do(s, e);
    TableKept(s, e);
    if s'.table != s.table {
      assert RequestLockInv(s, e.r);
    }
  }

  /** A 200 carries a non-empty CRL, unexpired at its last check unless the CA could not sign
      or this request's own generation failed. A 404 means no usable CRL was read, and the CA
      is unknown, cannot sign, or the generation failed. */
  lemma RepliesAreSound(t: seq<State>, i: nat, r: int)
    requires IsTrace(t) && i < |t| && r in t[i].requests
    ensures var q := t[i].requests[r];
            && (q.pc == Done(Ok) ==> Usable(q.crl) && (!Expired(q.crl, q.checkedAt) || !q.signable || q.failed))
            && (q.pc == Done(NotFound) ==> !Usable(q.crl) && (!q.known || !q.signable || q.failed))
  {
    TraceHolds(t, i);
    assert ReplyInv(t[i].requests[r]);
  }

  /** A 503 is sent only while another request is in its critical section for the same CA. */
  lemma BusyMeansAnother(t: seq<State>, i: nat, r: int)
    requires IsTrace(t) && i < |t| && Enabled(t[i], TimeOut(r))
    ensures exists x :: x in t[i].requests && x != r && Critical(t[i].requests[x].pc) &&
                        t[i].requests[x].ca == t[i].requests[r].ca
  {
    var s := t[i];
    TraceHolds(t, i);
    assert RequestLockInv(s, r);
    var x := s.held[s.requests[r].lock];
    assert RequestLockInv(s, x);
  }

  /** Steps a request still has ahead of it, at most. */
  function Rank(pc: Pc): nat {
    match pc
    case ReadLatest => 12
    case CheckLatest => 11
    case TakeGuard => 10
    case LookUp => 9
    case Install => 8
    case DropGuard => 7
    case Acquire(_) => 6
    case ReRead => 5
    case ReCheck => 4
    case Stamp => 3
    case Sign(_) => 2
    case Release(_) => 1
    case Done(_) => 0
  }

  /** A step a request takes by itself. */
  predicate ByRequest(e: Event) {
    e.Act? || e.TimeOut? || e.Generated? || e.Failed?
  }

  /** Every step of a request brings it closer to its reply and moves no other request. */
  lemma StepsRunOut(s: State, e: Event)
    requires Enabled(s, e) && ByRequest(e)
    ensures var s' := Do(s, e);
            && s'.requests.Keys == s.requests.Keys
            && Rank(s'.requests[e.r].pc) < Rank(s.requests[e.r].pc)
            && forall x | x in s.requests && x != e.r :: s'.requests[x] == s.requests[x]
  {
    if e.Act? {
      ActRanksDown(s, s.requests[e.r]);
    }
  }

  lemma ActRanksDown(s: State, q: Request)
    requires !q.pc.Done? && !q.pc.Sign?
    ensures Rank(StepRequest(s, q).pc) < Rank(q.pc)
  {
  }

  /** How often request `r` moves along the trace. */
  ghost function Moves(t: seq<State>, r: int): nat
    requires t != []
  {
    if |t| == 1 then 0
    else
      var s, s' := t[|t| - 2], t[|t| - 1];
      Moves(t[..|t| - 1], r) + (if r in s.requests && (r in s'.requests ==> s'.requests[r] != s.requests[r]) then 1 else 0)
  }

  ghost function Ahead(s: State, r: int): nat {
    if r in s.requests then Rank(s.requests[r].pc) else 12
  }

  lemma MoveRanksDown(s: State, s': State, r: int)
    requires Next(s, s')
    ensures r in s.requests ==> r in s'.requests
    ensures Ahead(s', r) <= Ahead(s, r)
    ensures r in s.requests && s'.requests[r] != s.requests[r] ==> Ahead(s', r) < Ahead(s, r)
  {
    var e :| Enabled(s, e) && s' == Do(s, e);
    if ByRequest(e) {
      StepsRunOut(s, e);
    }
  }

  /** In every interleaving a request moves at most 12 times, each time bringing its reply closer. */
  lemma {:induction false} RequestsRunOut(t: seq<State>, r: int)
    requires IsTrace(t)
    ensures Moves(t, r) + Ahead(t[|t| - 1], r) <= 12
  {
    if |t| > 1 {
      var n := |t| - 1;
      var front := t[..n];
      assert forall i: nat | i + 1 < n :: StepAt(t, i) ==> StepAt(front, i);
      RequestsRunOut(front, r);
      assert StepAt(t, n - 1);
      MoveRanksDown(t[n - 1], t[n], r);
    }
  }

  // ---- Schedules --------------------------------------------------------------------

  /** One event of a schedule; one that is not enabled is passed over. */
  ghost function Take(s: State, e: Event): State {
    if Enabled(s, e) then Do(s, e) else s
  }

  ghost function Run(s: State, schedule: seq<Event>): State {
    if schedule == [] then s
    else Take(Run(s, schedule[..|schedule| - 1]), schedule[|schedule| - 1])
  }

  /** What any schedule reaches, a trace reaches. */
  lemma {:induction false} RunIsTraced(s: State, schedule: seq<Event>) returns (t: seq<State>)
    requires Init(s)
    ensures IsTrace(t) && t[0] == s && t[|t| - 1] == Run(s, schedule)
  {
    if schedule == [] {
      t := [s];
    } else {
      var e := schedule[|schedule| - 1];
      t := RunIsTraced(s, schedule[..|schedule| - 1]);
      var last := t[|t| - 1];
      if Enabled(last, e) {
        var t' := t + [Do(last, e)];
        forall i: nat | i + 1 < |t'| ensures StepAt(t', i) {
          if i + 1 < |t| {
            assert StepAt(t, i);
          }
        }
        t := t';
      }
    }
  }

  /** What any trace reaches, a schedule reaches. */
  lemma {:induction false} TraceIsScheduled(t: seq<State>) returns (schedule: seq<Event>)
    requires IsTrace(t)
    ensures Run(t[0], schedule) == t[|t| - 1]
  {
    schedule := [];
    if |t| > 1 {
      var n := |t| - 1;
      var front := t[..n];
      assert forall i: nat | i + 1 < n :: StepAt(t, i) ==> StepAt(front, i);
      var before := TraceIsScheduled(front);
      assert StepAt(t, n - 1);
      var e :| Enabled(t[n - 1], e) && t[n] == Do(t[n - 1], e);
      schedule := before + [e];
      assert schedule[..|before|] == before;
    }
  }

  /** No deadlock: while some request has not replied, some request can step. */
  lemma NoDeadlock(t: seq<State>, i: nat, r: int)
    requires IsTrace(t) && i < |t| && r in t[i].requests && !t[i].requests[r].pc.Done?
    ensures exists e :: ByRequest(e) && Enabled(t[i], e)
  {
    var s := t[i];
    TraceHolds(t, i);
    var x := match s.requests[r].pc
      case TakeGuard => if s.guard.Some? then s.guard.value else r
      case Acquire(_) => if s.requests[r].lock in s.held then s.held[s.requests[r].lock] else r
      case _ => r;
    assert RequestLockInv(s, x);
    if s.requests[x].pc.Sign? {
      assert Enabled(s, Failed(x));
    } else {
      assert Enabled(s, Act(x));
    }
  }
}
