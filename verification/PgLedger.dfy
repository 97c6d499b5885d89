/** The PostgreSQL path of `migration_runner.py`: each migration and its ledger row are one
    transaction, so a crash falls between transactions. */
module PgLedger {
  import opened Prelude
  import opened Ledger

  /** Migrations at this number or above must declare `pg_compatible`. */
  const REQUIRED_FROM: int := 20

  /** A migration file: whether it loads, what it declares, and its upgrade as a function that
      may raise (`None`). */
  datatype Module<!S> = Module(loads: bool, pgCompatible: bool, upgrade: Option<S -> Option<S>>)

  predicate Refused<S>(m: Module<S>, name: string) {
    !m.pgCompatible && IndexOf(name) >= REQUIRED_FROM
  }

  /** What the migration does to the schema when it succeeds. */
  function Effect<S>(m: Module<S>, schema: S): Option<S> {
    if m.pgCompatible && m.upgrade.Some? then m.upgrade.value(schema) else Some(schema)
  }

  /** One migration; `None` when it stops the list, with nothing changed. */
  function Apply<S>(mods: string -> Module<S>, name: string, db: Db<S>): Option<Db<S>> {
    var m := mods(name);
    if !m.loads || Refused(m, name) then None
    else
      var s := Effect(m, db.schema);
      if s.None? then None else Some(db.(schema := s.value, ledger := db.ledger + {name}))
  }

  /** The list in order, stopping at the first failure. */
  function Run<S>(mods: string -> Module<S>, pending: seq<string>, db: Db<S>): (Db<S>, bool) {
    if pending == [] then (db, true)
    else
      var next := Apply(mods, pending[0], db);
      if next.None? then (db, false) else Run(mods, pending[1..], next.value)
  }

  /** Where a boot is cut short: never, before the tracking table exists, or after so many
      transactions. */
  datatype Stop = Never | BeforeTracking | After(steps: nat)

  function Reached(pending: seq<string>, stop: Stop): seq<string> {
    if stop.After? && stop.steps < |pending| then pending[..stop.steps] else pending
  }

  function Boot<S>(mods: string -> Module<S>, all: seq<string>, db: Db<S>, stop: Stop): (Db<S>, bool) {
    if Fresh(db) then (db, true)
    else if stop.BeforeTracking? then (db, false)
    else Run(mods, Reached(Pending(all, db.ledger), stop), db.(tracked := true))
  }

  /** The database after boots cut short as listed. */
  function Crashes<S>(mods: string -> Module<S>, all: seq<string>, db: Db<S>, stops: seq<Stop>): Db<S> {
    if stops == [] then db
    else Boot(mods, all, Crashes(mods, all, db, stops[..|stops| - 1]), stops[|stops| - 1]).0
  }

  // ---- Reference: folding the recorded migrations over the schema --------------------

  ghost function Fold<S>(mods: string -> Module<S>, names: seq<string>, schema: S): Option<S> {
    if names == [] then Some(schema)
    else
      var s := Effect(mods(names[0]), schema);
      if s.None? then None else Fold(mods, names[1..], s.value)
  }

  /** How many of the pending migrations succeed before the list stops. */
  function Progress<S>(mods: string -> Module<S>, pending: seq<string>, db: Db<S>): (j: nat)
    ensures j <= |pending|
  {
    if pending == [] then 0
    else
      var next := Apply(mods, pending[0], db);
      if next.None? then 0 else 1 + Progress(mods, pending[1..], next.value)
  }

  ghost predicate Allowed<S>(mods: string -> Module<S>, names: seq<string>) {
    forall n | n in names :: mods(n).loads && !Refused(mods(n), n)
  }

  /** One more name in front of a prefix. */
  lemma PrefixCons<S>(mods: string -> Module<S>, pending: seq<string>, j: nat)
    requires pending != [] && j < |pending|
    ensures var rest := pending[1..][..j];
            && pending[..j + 1] == [pending[0]] + rest
            && Elems(pending[..j + 1]) == {pending[0]} + Elems(rest)
            && (Allowed(mods, pending[..j + 1]) <==> Allowed(mods, [pending[0]]) && Allowed(mods, rest))
  {
    assert pending[..j + 1] == [pending[0]] + pending[1..][..j];
    ElemsCons(pending[0], pending[1..][..j]);
    assert pending[0] in [pending[0]];
  }

  /** Whatever the point a run reaches: the names recorded are a prefix of the pending list, none
      of them refused, and the schema is the starting schema folded over them. A failure stops the
      list at the first migration that cannot be applied. */
  lemma {:induction false} RunIsFold<S>(mods: string -> Module<S>, pending: seq<string>, db: Db<S>)
    ensures var j := Progress(mods, pending, db);
            var (db', ok) := Run(mods, pending, db);
            && db'.ledger == db.ledger + Elems(pending[..j])
            && Fold(mods, pending[..j], db.schema) == Some(db'.schema)
            && Allowed(mods, pending[..j])
            && (ok <==> j == |pending|)
            && (!ok ==> Apply(mods, pending[j], db').None?)
            && db'.tracked == db.tracked && db'.hasData == db.hasData
  {
    if pending == [] {
      assert db.ledger + Elems(pending[..0]) == db.ledger;
    } else {
      var next := Apply(mods, pending[0], db);
      if next.None? {
        assert db.ledger + Elems(pending[..0]) == db.ledger;
      } else {
        var rest := pending[1..];
        RunIsFold(mods, rest, next.value);
        PrefixCons(mods, pending, Progress(mods, rest, next.value));
      }
    }
  }

  /** Running a prefix and then what is left is running the list. */
  lemma {:induction false} RunSplits<S>(mods: string -> Module<S>, pending: seq<string>, db: Db<S>, k: nat)
    requires k <= |pending|
    ensures var j := Progress(mods, pending[..k], db);
            Run(mods, pending, db) == Run(mods, pending[j..], Run(mods, pending[..k], db).0)
  {
    if k == 0 {
      assert pending[0..] == pending;
    } else {
      assert pending[..k][0] == pending[0] && pending[..k][1..] == pending[1..][..k - 1];
      var next := Apply(mods, pending[0], db);
      if next.Some? {
        RunSplits(mods, pending[1..], next.value, k - 1);
        var j := Progress(mods, pending[1..][..k - 1], next.value);
        assert pending[1..][j..] == pending[j + 1..];
      } else {
        assert pending[0..] == pending;
      }
    }
  }

  /** `db'` is `db` with the first `j` pending migrations applied and recorded, none refused. */
  ghost predicate AtPrefix<S>(mods: string -> Module<S>, pending: seq<string>, db: Db<S>, db': Db<S>, j: nat) {
    && j <= |pending|
    && db'.ledger == db.ledger + Elems(pending[..j])
    && Fold(mods, pending[..j], db.schema) == Some(db'.schema)
    && forall n | n in pending[..j] :: !Refused(mods(n), n)
  }

  /** The state at any crash point of any boot. */
  lemma BootAtCrash<S>(mods: string -> Module<S>, all: seq<string>, db: Db<S>, stop: Stop)
    requires NoDup(all)
    ensures exists j: nat :: AtPrefix(mods, Pending(all, db.ledger), db, Boot(mods, all, db, stop).0, j)
  {
    var pending := Pending(all, db.ledger);
    if Fresh(db) || stop.BeforeTracking? {
      assert db.ledger + Elems(pending[..0]) == db.ledger;
      assert AtPrefix(mods, pending, db, Boot(mods, all, db, stop).0, 0);
    } else {
      var part := Reached(pending, stop);
      RunIsFold(mods, part, db.(tracked := true));
      var j := Progress(mods, part, db.(tracked := true));
      assert part[..j] == pending[..j];
      assert AtPrefix(mods, pending, db, Boot(mods, all, db, stop).0, j);
    }
  }

  /** One crash, then an uninterrupted boot, is the uninterrupted boot. */
  lemma RerunAfterCrash<S>(mods: string -> Module<S>, all: seq<string>, db: Db<S>, stop: Stop)
    requires NoDup(all)
    ensures Boot(mods, all, Boot(mods, all, db, stop).0, Never) == Boot(mods, all, db, Never)
  {
    if !Fresh(db) && !stop.BeforeTracking? {
      var pending := Pending(all, db.ledger);
      var part := Reached(pending, stop);
      var start := db.(tracked := true);
      var j := Progress(mods, part, start);
      RunIsFold(mods, part, start);
      var mid := Run(mods, part, start).0;
      assert part == pending[..|part|] && part[..j] == pending[..j];
      PendingAfter(all, db.ledger, j);
      RunSplits(mods, pending, start, |part|);
      assert mid.(tracked := true) == mid;
    }
  }

  /** Any schedule of crashes followed by one boot that is left alone ends in the schema and
      the ledger of a single uninterrupted boot. */
  lemma {:induction false} AnyCrashSchedule<S>(mods: string -> Module<S>, all: seq<string>, db: Db<S>, stops: seq<Stop>)
    requires NoDup(all)
    ensures Boot(mods, all, Crashes(mods, all, db, stops), Never) == Boot(mods, all, db, Never)
  {
    if stops != [] {
      AnyCrashSchedule(mods, all, db, stops[..|stops| - 1]);
      RerunAfterCrash(mods, all, Crashes(mods, all, db, stops[..|stops| - 1]), stops[|stops| - 1]);
    }
  }

  /** `mark_all_applied` after the schema is built: only files added later ever run. */
  lemma FreshInstallRunsOnlyNewFiles<S>(mods: string -> Module<S>, all: seq<string>, later: seq<string>, db: Db<S>)
    requires NoDup(all + later) && db.ledger == {}
    ensures var installed := Marked(db, all);
            && Boot(mods, all, installed, Never) == (installed, true)
            && Boot(mods, all + later, installed, Never) == Run(mods, later, installed)
  {
    var installed := Marked(db, all);
    assert all + [] == all;
    PendingSkips(all, [], installed.ledger);
    assert installed.(tracked := true) == installed;
    assert NoDup(all + later) ==> forall n | n in later :: n !in all by {
      assert forall j | 0 <= j < |later| :: (all + later)[|all| + j] == later[j];
      assert forall i | 0 <= i < |all| :: (all + later)[i] == all[i];
    }
    PendingSkips(all, later, installed.ledger);
  }

  function Marked<S>(db: Db<S>, all: seq<string>): Db<S> {
    db.(tracked := true, ledger := db.ledger + set n | n in all)
  }

  // ---- The runner ---------------------------------------------------------------

  class Database<S> {
    var schema: S
    var tracked: bool
    var hasData: bool
    var ledger: set<string>

    constructor (db: Db<S>)
      ensures View() == db
    {
      schema, tracked, hasData, ledger := db.schema, db.tracked, db.hasData, db.ledger;
    }

    ghost function View(): Db<S>
      reads this
    {
      Db(schema, tracked, hasData, ledger)
    }

    /** `_run_pending_pg`; a dry run changes nothing and reports success. */
    method RunPending(mods: string -> Module<S>, pending: seq<string>, dryRun: bool) returns (ok: bool)
      modifies `schema, `ledger
      ensures (View(), ok) == if dryRun then (old(View()), true) else Run(mods, pending, old(View()))
    {
      for i := 0 to |pending|
        invariant dryRun ==> View() == old(View())
        invariant !dryRun ==> Run(mods, pending, old(View())) == Run(mods, pending[i..], View())
      {
        if dryRun {
          continue;
        }
        var name := pending[i];
        assert pending[i..][0] == name && pending[i..][1..] == pending[i + 1..];
        var m := mods(name);
        if !m.loads {
          return false;
        }
        var index := MigrationIndex(name);
        if !m.pgCompatible && index >= REQUIRED_FROM {
          return false;
        }
        if m.pgCompatible && m.upgrade.Some? {
          var next := m.upgrade.value(schema);
          if next.None? {
            return false;
          }
          schema := next.value;
        }
        ledger := ledger + {name};
      }
      return true;
    }

    /** `run_all_migrations` on PostgreSQL. */
    method RunAll(mods: string -> Module<S>, all: seq<string>, dryRun: bool) returns (ok: bool)
      modifies this
      ensures !dryRun ==> (View(), ok) == Boot(mods, all, old(View()), Never)
      ensures dryRun ==> ok && View() == old(if Fresh(View()) then View() else View().(tracked := true))
    {
      if !tracked && !hasData {
        return true;
      }
      tracked := true;
      var pending := ComputePending(all, ledger);
      if pending == [] {
        return true;
      }
      ok := RunPending(mods, pending, dryRun);
    }

    method MarkAllApplied(all: seq<string>)
      modifies this
      ensures View() == Marked(old(View()), all)
    {
      tracked := true;
      for i := 0 to |all|
        invariant View() == old(View()).(tracked := true, ledger := old(ledger) + set n | n in all[..i])
      {
        assert all[..i + 1] == all[..i] + [all[i]];
        ledger := ledger + {all[i]};
      }
      assert all[..|all|] == all;
    }
  }
}
