/** The route of `api/cdp_routes.py` as code over shared fields. Each handler is the code a
    request runs between two scheduling points, and is proved to be one step of the protocol;
    `Serve` runs any schedule of them and is proved to reach what the protocol reaches. */
module CdpServer {
  import opened Prelude
  import opened CrlProtocol

  class Server {
    var clock: int
    var cas: map<int, CaInfo>
    var rows: map<int, seq<Crl>>
    var guard: Option<int>
    var table: map<int, nat>
    var held: map<nat, int>
    var nextLock: nat
    var requests: map<int, Request>
    ghost var log: seq<Generation>

    ghost function View(): State
      reads this
    {
      State(clock, cas, rows, guard, table, held, nextLock, requests, log)
    }

    ghost predicate At(r: int, pc: Pc)
      reads this
    {
      r in requests && requests[r].pc == pc
    }

    constructor (clock: int, cas: map<int, CaInfo>, rows: map<int, seq<Crl>>)
      ensures Init(View()) && View().clock == clock && View().cas == cas && View().rows == rows
    {
      this.clock, this.cas, this.rows := clock, cas, rows;
      guard, table, held, nextLock, requests, log := None, map[], map[], 0, map[], [];
    }

    method GetLatest(ca: int) returns (c: Option<Crl>)
      ensures c == Latest(View(), ca)
    {
      c := if ca in rows && rows[ca] != [] then Some(rows[ca][|rows[ca]| - 1]) else None;
    }

    /** Resolve the CA: an unknown one is a 404 at once. */
    method Resolve(r: int, ca: int)
      requires r !in requests
      modifies `requests
      ensures Enabled(old(View()), Arrive(r, ca)) && View() == Do(old(View()), Arrive(r, ca))
    {
      var q := Request(ca, Done(NotFound), None, None, 0, false, true, false, clock);
      if ca in cas {
        q := q.(pc := ReadLatest, known := true);
      }
      requests := requests[r := q];
    }

    /** First read of the store. */
    method ReadCached(r: int)
      requires At(r, ReadLatest)
      modifies `requests
      ensures Enabled(old(View()), Act(r)) && View() == Do(old(View()), Act(r))
    {
      var c := GetLatest(requests[r].ca);
      requests := requests[r := requests[r].(crl := c, pc := CheckLatest)];
    }

    /** Serve it, go for the lock, or settle for what was read. */
    method Decide(r: int)
      requires At(r, CheckLatest)
      modifies `requests
      ensures Enabled(old(View()), Act(r)) && View() == Do(old(View()), Act(r))
    {
      var q := requests[r].(checkedAt := clock);
      var missing := q.crl.None? || q.crl.value.der == [];
      var expired := q.crl.Some? && q.crl.value.nextUpdate.Some? && q.crl.value.nextUpdate.value <= clock;
      if missing || expired {
        if q.ca in cas && cas[q.ca].hasPrivateKey && cas[q.ca].cdpEnabled && cas[q.ca].hasCertificate
           && !cas[q.ca].offline {
          q := q.(pc := TakeGuard);
        } else if missing {
          q := q.(signable := false, pc := Done(NotFound));
        } else {
          q := q.(signable := false, pc := Done(Ok));
        }
      } else {
        q := q.(pc := Done(Ok));
      }
      requests := requests[r := q];
    }

    /** `_crl_lock_for`: enter the guard. */
    method EnterGuard(r: int)
      requires At(r, TakeGuard) && guard.None?
      modifies `requests, `guard
      ensures Enabled(old(View()), Act(r)) && View() == Do(old(View()), Act(r))
    {
      guard := Some(r);
      requests := requests[r := requests[r].(pc := LookUp)];
    }

    /** `_crl_lock_for`: read the table. */
    method LookUpLock(r: int)
      requires At(r, LookUp)
      modifies `requests
      ensures Enabled(old(View()), Act(r)) && View() == Do(old(View()), Act(r))
    {
      var q := requests[r];
      if q.ca in table {
        requests := requests[r := q.(lock := table[q.ca], pc := DropGuard)];
      } else {
        requests := requests[r := q.(pc := Install)];
      }
    }

    /** `_crl_lock_for`: create and record the lock that was missing. */
    method InstallLock(r: int)
      requires At(r, Install)
      modifies `requests, `table, `nextLock
      ensures Enabled(old(View()), Act(r)) && View() == Do(old(View()), Act(r))
    {
      var lock := nextLock;
      nextLock := nextLock + 1;
      table := table[requests[r].ca := lock];
      requests := requests[r := requests[r].(lock := lock, pc := DropGuard)];
    }

    /** `_crl_lock_for`: leave the guard and start waiting for the lock. */
    method LeaveGuard(r: int)
      requires At(r, DropGuard)
      modifies `requests, `guard
      ensures Enabled(old(View()), Act(r)) && View() == Do(old(View()), Act(r))
    {
      guard := None;
      requests := requests[r := requests[r].(pc := Acquire(clock))];
    }

    /** The lock is free: take it. Still held past the timeout: shed load. */
    method TryAcquire(r: int)
      requires r in requests && requests[r].pc.Acquire?
      requires requests[r].lock in held ==> clock >= requests[r].pc.since + LOCK_TIMEOUT
      modifies `requests, `held
      ensures var e := if old(requests[r].lock in held) then TimeOut(r) else Act(r);
              Enabled(old(View()), e) && View() == Do(old(View()), e)
    {
      var q := requests[r];
      if q.lock in held {
        requests := requests[r := q.(pc := Done(Busy))];
      } else {
        held := held[q.lock := r];
        requests := requests[r := q.(pc := ReRead)];
      }
    }

    /** Second read of the store, under the lock. */
    method ReadAgain(r: int)
      requires At(r, ReRead)
      modifies `requests
      ensures Enabled(old(View()), Act(r)) && View() == Do(old(View()), Act(r))
    {
      var c := GetLatest(requests[r].ca);
      requests := requests[r := requests[r].(reread := c, pc := ReCheck)];
    }

    /** Generate, or serve what the previous holder stored. */
    method DecideAgain(r: int)
      requires At(r, ReCheck)
      modifies `requests
      ensures Enabled(old(View()), Act(r)) && View() == Do(old(View()), Act(r))
    {
      var q := requests[r].(checkedAt := clock);
      var c := q.reread;
      if c.None? || c.value.der == [] || (c.value.nextUpdate.Some? && c.value.nextUpdate.value <= clock) {
        q := q.(pc := Stamp);
      } else {
        q := q.(crl := c, pc := Release(Ok));
      }
      requests := requests[r := q];
    }

    /** Generation reads the clock. */
    method TakeStamp(r: int)
      requires At(r, Stamp)
      modifies `requests
      ensures Enabled(old(View()), Act(r)) && View() == Do(old(View()), Act(r))
    {
      requests := requests[r := requests[r].(pc := Sign(clock))];
    }

    /** Generation commits its row. */
    method Commit(r: int, window: int, der: seq<bv8>)
      requires r in requests && requests[r].pc.Sign? && window > 0 && der != []
      modifies `requests, `rows, `log
      ensures Enabled(old(View()), Generated(r, window, der))
      ensures View() == Do(old(View()), Generated(r, window, der))
    {
      var q := requests[r];
      var c := Crl(Some(q.pc.at + window), der);
      var earlier := if q.ca in rows then rows[q.ca] else [];
      rows := rows[q.ca := earlier + [c]];
      requests := requests[r := q.(crl := Some(c), checkedAt := q.pc.at, pc := Release(Ok))];
      log := log + [Generation(q.ca, q.pc.at, window)];
    }

    /** Generation raises: the CRL of the first read, if any, is better than nothing. */
    method Raise(r: int)
      requires r in requests && (requests[r].pc.Stamp? || requests[r].pc.Sign?)
      modifies `requests
      ensures Enabled(old(View()), Failed(r)) && View() == Do(old(View()), Failed(r))
    {
      var q := requests[r].(failed := true);
      if q.crl.None? || q.crl.value.der == [] {
        q := q.(pc := Release(NotFound));
      } else {
        q := q.(pc := Release(Ok));
      }
      requests := requests[r := q];
    }

    /** The `finally` clause, then the reply. */
    method Finish(r: int)
      requires r in requests && requests[r].pc.Release?
      modifies `requests, `held
      ensures Enabled(old(View()), Act(r)) && View() == Do(old(View()), Act(r))
    {
      var q := requests[r];
      held := held - {q.lock};
      requests := requests[r := q.(pc := Done(q.pc.reply))];
    }

    // ---- Running a schedule ------------------------------------------------------------

    /** The code request `r` runs next, if it can run. */
    method Advance(r: int)
      requires r in requests
      modifies this
      ensures View() == Take(old(View()), Act(r))
    {
      match requests[r].pc
      case ReadLatest => ReadCached(r);
      case CheckLatest => Decide(r);
      case TakeGuard => if guard.None? { EnterGuard(r); }
      case LookUp => LookUpLock(r);
      case Install => InstallLock(r);
      case DropGuard => LeaveGuard(r);
      case Acquire(_) => if requests[r].lock !in held { TryAcquire(r); }
      case ReRead => ReadAgain(r);
      case ReCheck => DecideAgain(r);
      case Stamp => TakeStamp(r);
      case Sign(_) =>
      case Release(_) => Finish(r);
      case Done(_) =>
    }

    /** Another writer of the store adds a row. */
    method Write(ca: int, c: Crl)
      requires NoEarlier(Latest(View(), ca), c)
      modifies `rows
      ensures View() == Do(old(View()), OtherWrite(ca, c))
    {
      rows := rows[ca := (if ca in rows then rows[ca] else []) + [c]];
    }

    /** One event: the handler that serves it, or nothing when it is not enabled. */
    method Step(e: Event)
      modifies this
      ensures View() == Take(old(View()), e)
    {
      match e
      case Tick(to) => if to >= clock { clock := to; }
      case ChangeCa(ca, info) => cas := cas[ca := info];
      case OtherWrite(ca, c) =>
        var was := GetLatest(ca);
        if NoEarlier(was, c) { Write(ca, c); }
      case Arrive(r, ca) => if r !in requests { Resolve(r, ca); }
      case Act(r) => if r in requests { Advance(r); }
      case TimeOut(r) =>
        if r in requests && requests[r].pc.Acquire? && requests[r].lock in held
           && clock >= requests[r].pc.since + LOCK_TIMEOUT {
          TryAcquire(r);
        }
      case Generated(r, window, der) =>
        if r in requests && requests[r].pc.Sign? && window > 0 && der != [] { Commit(r, window, der); }
      case Failed(r) =>
        if r in requests && (requests[r].pc.Stamp? || requests[r].pc.Sign?) { Raise(r); }
    }

    /** Any schedule of any number of requests. The state reached is the protocol's, so what holds
        of every trace holds of the server: generations for one CA are a window apart, at most one
        request per CA is generating, and a request that has replied holds nothing. */
    method Serve(schedule: seq<Event>)
      requires Init(View())
      modifies this
      ensures View() == Run(old(View()), schedule)
      ensures forall a, b | 0 <= a < b < |log| && log[a].ca == log[b].ca ::
                log[a].at < log[a].at + log[a].window <= log[b].at
      ensures forall r1, r2 | r1 in requests && r2 in requests && requests[r1].ca == requests[r2].ca
                && Generating(requests[r1].pc) && Generating(requests[r2].pc) :: r1 == r2
      ensures forall l | l in held :: held[l] in requests && !requests[held[l]].pc.Done?
    {
      for i := 0 to |schedule|
        invariant View() == Run(old(View()), schedule[..i])
      {
        assert schedule[..i + 1][..i] == schedule[..i];
        Step(schedule[i]);
      }
      assert schedule[..|schedule|] == schedule;
      ghost var t := RunIsTraced(old(View()), schedule);
      ServerIsSafe(View(), t);
    }
  }

  lemma ServerIsSafe(s: State, t: seq<State>)
    requires IsTrace(t) && t[|t| - 1] == s
    ensures forall a, b | 0 <= a < b < |s.log| && s.log[a].ca == s.log[b].ca ::
              s.log[a].at < s.log[a].at + s.log[a].window <= s.log[b].at
    ensures forall r1, r2 | r1 in s.requests && r2 in s.requests && s.requests[r1].ca == s.requests[r2].ca
              && Generating(s.requests[r1].pc) && Generating(s.requests[r2].pc) :: r1 == r2
    ensures forall l | l in s.held :: s.held[l] in s.requests && !s.requests[s.held[l]].pc.Done?
  {
    var i := |t| - 1;
    forall a: nat, b: nat | a < b < |s.log| && s.log[a].ca == s.log[b].ca
      ensures s.log[a].at < s.log[a].at + s.log[a].window <= s.log[b].at {
      OneGenerationPerWindow(t, i, a, b);
    }
    forall r1, r2 | r1 in s.requests && r2 in s.requests && s.requests[r1].ca == s.requests[r2].ca
                    && Generating(s.requests[r1].pc) && Generating(s.requests[r2].pc)
      ensures r1 == r2 {
      OneGenerationAtATime(t, i, r1, r2);
    }
    TraceHolds(t, i);
  }
}
