/** The SQLite path of `migration_runner.py`: an upgrade commits before it is recorded, so a
    crash can fall between the two. */
module SqliteLedger {
  import opened Prelude
  import opened Ledger

  /** How running a migration file ends: its schema change committed, an integrity error, an
      "already exists" error, any other error, or no upgrade to run. The three errors are
      rolled back. */
  datatype Outcome<S> = Done(schema: S) | Integrity | Exists | Broken | NoUpgrade

  /** One migration: the database after it and whether the list goes on. */
  function Step<S>(run: (string, S) -> Outcome<S>, name: string, db: Db<S>): (Db<S>, bool) {
    match run(name, db.schema)
    case Done(s) => (db.(schema := s, ledger := db.ledger + {name}), true)
    case Integrity => (db, true)
    case Exists => (db.(ledger := db.ledger + {name}), true)
    case Broken => (db, false)
    case NoUpgrade => (db, false)
  }

  function Run<S>(run: (string, S) -> Outcome<S>, pending: seq<string>, db: Db<S>): (Db<S>, bool) {
    if pending == [] then (db, true)
    else
      var (next, ok) := Step(run, pending[0], db);
      if ok then Run(run, pending[1..], next) else (next, false)
  }

  /** A crash once `steps` migrations are through; with `midway`, after the next one's schema
      change is committed and before its name is recorded. */
  datatype Crash = Crash(steps: nat, midway: bool)

  function Cut<S>(run: (string, S) -> Outcome<S>, pending: seq<string>, db: Db<S>, crash: Crash): Db<S> {
    if pending == [] then db
    else if crash.steps == 0 then
      if crash.midway && run(pending[0], db.schema).Done?
      then db.(schema := run(pending[0], db.schema).schema)
      else db
    else
      var (next, ok) := Step(run, pending[0], db);
      if ok then Cut(run, pending[1..], next, crash.(steps := crash.steps - 1)) else next
  }

  function Boot<S>(run: (string, S) -> Outcome<S>, all: seq<string>, db: Db<S>): (Db<S>, bool) {
    if Fresh(db) then (db, true) else Run(run, Pending(all, db.ledger), db.(tracked := true))
  }

  function CrashedBoot<S>(run: (string, S) -> Outcome<S>, all: seq<string>, db: Db<S>, crash: Crash): Db<S> {
    if Fresh(db) then db else Cut(run, Pending(all, db.ledger), db.(tracked := true), crash)
  }

  function Crashes<S>(run: (string, S) -> Outcome<S>, all: seq<string>, db: Db<S>, crashes: seq<Crash>): Db<S> {
    if crashes == [] then db
    else CrashedBoot(run, all, Crashes(run, all, db, crashes[..|crashes| - 1]), crashes[|crashes| - 1])
  }

  /** Running the upgrade again on its own result changes nothing, if it succeeds. */
  ghost predicate SafeAgain<S>(run: (string, S) -> Outcome<S>, name: string, s: S) {
    var first := run(name, s);
    first.Done? ==>
      var again := run(name, first.schema);
      again.Done? ==> again.schema == first.schema
  }

  /** Every listed upgrade is safe to repeat on every schema. */
  ghost predicate Idempotent<S(!new)>(run: (string, S) -> Outcome<S>, all: seq<string>) {
    forall name, s | name in all :: SafeAgain(run, name, s)
  }

  /** An integrity error leaves the name unrecorded, so the file runs again whenever a boot
      follows; having clashed on `s`, it changes nothing on `t`. */
  ghost predicate SteadyAt<S>(run: (string, S) -> Outcome<S>, name: string, s: S, t: S) {
    run(name, s).Integrity? && run(name, t).Done? ==> run(name, t).schema == t
  }

  /** The schema the listed files lead to from `s`, if each of them succeeds in turn. */
  ghost function Lead<S>(run: (string, S) -> Outcome<S>, names: seq<string>, s: S): Option<S> {
    if names == [] then Some(s)
    else
      var first := run(names[0], s);
      if first.Done? then Lead(run, names[1..], first.schema) else None
  }

  /** If the first file clashes on `s`, it changes nothing where the others lead. */
  ghost predicate SteadyHead<S>(run: (string, S) -> Outcome<S>, names: seq<string>, s: S) {
    names != [] && Lead(run, names[1..], s).Some? ==> SteadyAt(run, names[0], s, Lead(run, names[1..], s).value)
  }

  /** A file that clashes on some schema changes none that later files of the list lead to from
      there, whichever of them those are. */
  ghost predicate Steady<S(!new)>(run: (string, S) -> Outcome<S>, all: seq<string>) {
    forall applied, s :: SteadyHead(run, Pending(all, applied), s)
  }

  /** A file that clashes on some schema changes none at all. */
  ghost predicate AlwaysSteady<S(!new)>(run: (string, S) -> Outcome<S>) {
    forall name, s, t :: SteadyAt(run, name, s, t)
  }

  // ---- Runs ------------------------------------------------------------------------

  /** What a run leaves: a pending name is recorded exactly when its turn came and its upgrade
      raised no integrity error; a failure stops the list at that name. */
  lemma {:induction false} RunRecords<S>(run: (string, S) -> Outcome<S>, pending: seq<string>, db: Db<S>, i: nat)
    requires NoDup(pending) && i < |pending| && pending[i] !in db.ledger
    ensures var (db', ok) := Run(run, pending, db);
            var (before, reached) := Run(run, pending[..i], db);
            var (_, through) := Step(run, pending[i], before);
            && db.ledger <= db'.ledger <= db.ledger + Elems(pending)
            && (pending[i] in db'.ledger <==>
                  reached && through && !run(pending[i], before.schema).Integrity?)
            && (!reached ==> db' == before)
            && (reached && !through ==> !ok && db' == before)
            && (ok ==> reached && through)
  {
    var (next, ok) := Step(run, pending[0], db);
    LedgerGrows(run, pending, db);
    LedgerGrows(run, pending[1..], next);
    if i == 0 {
      assert pending[0] !in pending[1..];
    } else {
      assert pending[..i][0] == pending[0] && pending[..i][1..] == pending[1..][..i - 1];
      if ok {
        RunRecords(run, pending[1..], next, i - 1);
      } else {
        LedgerGrows(run, pending[..i], db);
      }
    }
  }

  lemma {:induction false} LedgerGrows<S>(run: (string, S) -> Outcome<S>, pending: seq<string>, db: Db<S>)
    ensures db.ledger <= Run(run, pending, db).0.ledger <= db.ledger + Elems(pending)
  {
    if pending != [] {
      LedgerGrows(run, pending[1..], Step(run, pending[0], db).0);
    }
  }

  // ---- Crashes -----------------------------------------------------------------------

  lemma {:induction false} PendingTwice(all: seq<string>, was: set<string>, now: set<string>)
    ensures Pending(Pending(all, was), now) == Pending(all, was + now)
  {
    if all != [] {
      PendingTwice(all[1..], was, now);
    }
  }

  /** What holds of a list holds of what is pending from it. */
  lemma SteadyPending<S(!new)>(run: (string, S) -> Outcome<S>, all: seq<string>, applied: set<string>)
    requires Steady(run, all)
    ensures Steady(run, Pending(all, applied))
  {
    forall more, s ensures SteadyHead(run, Pending(Pending(all, applied), more), s) {
      PendingTwice(all, applied, more);
      assert SteadyHead(run, Pending(all, applied + more), s);
    }
  }

  lemma SteadyTail<S(!new)>(run: (string, S) -> Outcome<S>, all: seq<string>)
    requires NoDup(all) && all != [] && Steady(run, all)
    ensures Steady(run, all[1..])
  {
    assert all[0] !in all[1..];
    PendingKeeps(all[1..], {all[0]});
    SteadyPending(run, all, {all[0]});
  }

  /** A run never looks at the ledger. */
  lemma {:induction false} RunIgnoresLedger<S>(run: (string, S) -> Outcome<S>, pending: seq<string>, db: Db<S>, name: string)
    ensures var (a, ok) := Run(run, pending, db);
            Run(run, pending, db.(ledger := db.ledger + {name})) == (a.(ledger := a.ledger + {name}), ok)
  {
    var more := db.(ledger := db.ledger + {name});
    if pending != [] {
      var (next, ok) := Step(run, pending[0], db);
      var (next', ok') := Step(run, pending[0], more);
      assert next'.ledger == next.ledger + {name};
      assert next' == next.(ledger := next.ledger + {name}) && ok' == ok;
      if ok {
        RunIgnoresLedger(run, pending[1..], next, name);
      }
    }
  }

  lemma {:induction false} CutLedger<S>(run: (string, S) -> Outcome<S>, pending: seq<string>, db: Db<S>, crash: Crash)
    ensures var cut := Cut(run, pending, db, crash);
            && db.ledger <= cut.ledger <= db.ledger + Elems(pending)
            && cut.tracked == db.tracked && cut.hasData == db.hasData
  {
    if pending != [] && crash.steps > 0 {
      CutLedger(run, pending[1..], Step(run, pending[0], db).0, crash.(steps := crash.steps - 1));
    }
  }

  /** The name raises an integrity error on some schema. */
  ghost predicate MayClash<S(!new)>(run: (string, S) -> Outcome<S>, name: string) {
    exists s :: run(name, s).Integrity?
  }

  /** The same schema, and the same names recorded but for some that may clash. With always steady
      files nothing that `a` records is missing from `b`. */
  ghost predicate Matches<S(!new)>(run: (string, S) -> Outcome<S>, a: Db<S>, b: Db<S>) {
    && a.schema == b.schema && a.tracked == b.tracked && a.hasData == b.hasData
    && (forall n | (n in a.ledger) != (n in b.ledger) :: MayClash(run, n))
    && (AlwaysSteady(run) ==> a.ledger <= b.ledger)
  }

  /** Finishing succeeds only if the uninterrupted run does, and then with the same result. */
  ghost predicate Finishes<S(!new)>(run: (string, S) -> Outcome<S>, whole: (Db<S>, bool), rest: (Db<S>, bool)) {
    rest.1 ==> whole.1 && Matches(run, whole.0, rest.0)
  }

  /** A crash between commit and record, then the same migration again. */
  lemma MidwayThenFinish<S(!new)>(run: (string, S) -> Outcome<S>, pending: seq<string>, db: Db<S>)
    requires Idempotent(run, pending) && pending != [] && run(pending[0], db.schema).Done?
    ensures var cut := db.(schema := run(pending[0], db.schema).schema);
            Finishes(run, Run(run, pending, db), Run(run, pending, cut))
  {
    var name, s := pending[0], run(pending[0], db.schema).schema;
    var cut := db.(schema := s);
    assert SafeAgain(run, name, db.schema);
    RunIgnoresLedger(run, pending[1..], cut, name);
    if run(name, s).Integrity? {
      assert MayClash(run, name);
      assert AlwaysSteady(run) ==> SteadyAt(run, name, s, db.schema);
    }
  }

  /** The files a crashed run applied, all of `pending` but some, lead from its first schema to its
      last. */
  lemma {:induction false} CutLeads<S>(run: (string, S) -> Outcome<S>, pending: seq<string>, db: Db<S>, crash: Crash)
    returns (skipped: set<string>)
    requires NoDup(pending)
    ensures Lead(run, Pending(pending, skipped), db.schema) == Some(Cut(run, pending, db, crash).schema)
  {
    skipped := Elems(pending);
    assert pending + [] == pending;
    PendingSkips(pending, [], skipped);
    if pending != [] {
      var name, rest := pending[0], pending[1..];
      var (next, ok) := Step(run, name, db);
      assert name !in rest;
      if crash.steps > 0 && ok {
        var x := CutLeads(run, rest, next, crash.(steps := crash.steps - 1));
        PendingIgnores(rest, x - {name}, name);
        assert x - {name} + {name} == x + {name};
        PendingIgnores(rest, x, name);
        skipped := if run(name, db.schema).Done? then x - {name} else x + {name};
      } else if crash.steps == 0 && crash.midway && run(name, db.schema).Done? {
        skipped := Elems(rest);
        assert rest + [] == rest;
        PendingSkips(rest, [], skipped);
        assert Pending(pending, skipped) == [name] && [name][1..] == [];
      }
    }
  }

  /** A migration that raised an integrity error runs again first and changes nothing. */
  lemma ClashThenFinish<S(!new)>(run: (string, S) -> Outcome<S>, name: string, s: S, rest: seq<string>, cut: Db<S>,
                                 whole: (Db<S>, bool))
    requires SteadyAt(run, name, s, cut.schema) && run(name, s).Integrity?
    requires Finishes(run, whole, Run(run, rest, cut))
    ensures Finishes(run, whole, Run(run, [name] + rest, cut))
  {
    RunIgnoresLedger(run, rest, cut, name);
    assert ([name] + rest)[1..] == rest;
    assert MayClash(run, name);
  }

  lemma ClashedCut<S(!new)>(run: (string, S) -> Outcome<S>, pending: seq<string>, db: Db<S>, crash: Crash)
    requires NoDup(pending) && pending != [] && Steady(run, pending) && run(pending[0], db.schema).Integrity?
    requires var cut := Cut(run, pending[1..], db, crash);
             Finishes(run, Run(run, pending[1..], db), Run(run, Pending(pending[1..], cut.ledger), cut))
    ensures var cut := Cut(run, pending[1..], db, crash);
            Finishes(run, Run(run, pending[1..], db), Run(run, [pending[0]] + Pending(pending[1..], cut.ledger), cut))
  {
    var name, rest := pending[0], pending[1..];
    var cut := Cut(run, rest, db, crash);
    var x := CutLeads(run, rest, db, crash);
    PendingIgnores(rest, x - {name}, name);
    assert name !in rest && x - {name} + {name} == x + {name};
    PendingIgnores(rest, x, name);
    assert SteadyHead(run, Pending(pending, x - {name}), db.schema);
    ClashThenFinish(run, name, db.schema, Pending(rest, cut.ledger), cut, Run(run, rest, db));
  }

  /** A run that gets past its first migration: only an integrity error leaves that one pending. */
  lemma CutStep<S>(run: (string, S) -> Outcome<S>, pending: seq<string>, db: Db<S>, crash: Crash)
    requires NoDup(pending) && pending != [] && pending[0] !in db.ledger
    requires crash.steps > 0 && Step(run, pending[0], db).1
    ensures var next := Step(run, pending[0], db).0;
            var cut := Cut(run, pending[1..], next, crash.(steps := crash.steps - 1));
            && Cut(run, pending, db, crash) == cut && Run(run, pending, db) == Run(run, pending[1..], next)
            && Pending(pending, cut.ledger) ==
               if run(pending[0], db.schema).Integrity? then [pending[0]] + Pending(pending[1..], cut.ledger)
               else Pending(pending[1..], cut.ledger)
  {
    assert pending[0] !in pending[1..];
    CutLedger(run, pending[1..], Step(run, pending[0], db).0, crash.(steps := crash.steps - 1));
  }

  /** A crashed run, and then a run of what is left. */
  lemma {:induction false} CutThenFinish<S(!new)>(run: (string, S) -> Outcome<S>, pending: seq<string>, db: Db<S>,
                                                  crash: Crash)
    requires Idempotent(run, pending) && Steady(run, pending) && NoDup(pending)
    requires forall n | n in pending :: n !in db.ledger
    ensures var cut := Cut(run, pending, db, crash);
            Finishes(run, Run(run, pending, db), Run(run, Pending(pending, cut.ledger), cut))
  {
    if pending != [] && crash.steps > 0 && Step(run, pending[0], db).1 {
      var next, less := Step(run, pending[0], db).0, crash.(steps := crash.steps - 1);
      CutStep(run, pending, db, crash);
      SteadyTail(run, pending);
      assert forall n | n in pending[1..] :: n in pending && n != pending[0];
      CutThenFinish(run, pending[1..], next, less);
      if run(pending[0], db.schema).Integrity? {
        ClashedCut(run, pending, db, less);
      }
    } else {
      PendingKeeps(pending, db.ledger);
      if pending != [] && crash.steps == 0 && crash.midway && run(pending[0], db.schema).Done? {
        MidwayThenFinish(run, pending, db);
      }
    }
  }

  lemma CrashThenFinish<S(!new)>(run: (string, S) -> Outcome<S>, all: seq<string>, db: Db<S>, crash: Crash)
    requires NoDup(all) && Idempotent(run, all) && Steady(run, all)
    ensures Finishes(run, Boot(run, all, db), Boot(run, all, CrashedBoot(run, all, db, crash)))
  {
    if !Fresh(db) {
      var start := db.(tracked := true);
      var pending := Pending(all, db.ledger);
      PendingNoDup(all, db.ledger);
      SteadyPending(run, all, db.ledger);
      CutThenFinish(run, pending, start, crash);
      CutLedger(run, pending, start, crash);
      var cut := Cut(run, pending, start, crash);
      PendingTwice(all, db.ledger, cut.ledger);
      assert db.ledger + cut.ledger == cut.ledger;
      assert cut.(tracked := true) == cut;
    }
  }

  /** Idempotent and steady upgrades: any schedule of crashes that ends in a successful boot
      reaches the schema of the uninterrupted boot, which succeeds too; their ledgers differ only
      in names that may clash. */
  lemma {:induction false} AnyCrashSchedule<S(!new)>(run: (string, S) -> Outcome<S>, all: seq<string>, db: Db<S>,
                                                     crashes: seq<Crash>)
    requires NoDup(all) && Idempotent(run, all) && Steady(run, all)
    requires Boot(run, all, Crashes(run, all, db, crashes)).1
    ensures Boot(run, all, db).1
    ensures Matches(run, Boot(run, all, db).0, Boot(run, all, Crashes(run, all, db, crashes)).0)
  {
    if crashes != [] {
      var front := crashes[..|crashes| - 1];
      CrashThenFinish(run, all, Crashes(run, all, db, front), crashes[|crashes| - 1]);
      AnyCrashSchedule(run, all, db, front);
    }
  }

  // ---- When crashes are harmless, exactly ----------------------------------------------

  ghost predicate Agrees<S>(run: (string, S) -> Outcome<S>, all: seq<string>, db: Db<S>, crashes: seq<Crash>) {
    var last := Boot(run, all, Crashes(run, all, db, crashes));
    last.1 ==> last.0.schema == Boot(run, all, db).0.schema
  }

  /** Of this list of files, in every database and crash schedule: success means the right schema. */
  ghost predicate CrashSafe<S(!new)>(run: (string, S) -> Outcome<S>, all: seq<string>) {
    forall db, crashes :: Agrees(run, all, db, crashes)
  }

  lemma RunSingle<S>(run: (string, S) -> Outcome<S>, name: string, db: Db<S>)
    ensures Run(run, [name], db) == Step(run, name, db)
  {
  }

  /** An upgrade that is not safe to repeat ends elsewhere after a crash between its commit and
      its record. */
  lemma NotIdempotentDiverges<S>(run: (string, S) -> Outcome<S>, all: seq<string>, name: string, db: Db<S>)
    requires !SafeAgain(run, name, db.schema) && !Fresh(db) && Pending(all, db.ledger) == [name]
    ensures !Agrees(run, all, db, [Crash(0, true)])
  {
    var start := db.(tracked := true);
    var cut := start.(schema := run(name, db.schema).schema);
    assert [Crash(0, true)][..0] == [];
    assert Crashes(run, all, db, [Crash(0, true)]) == cut;
    RunSingle(run, name, start);
    RunSingle(run, name, cut);
  }

  lemma {:induction false} LeadRuns<S>(run: (string, S) -> Outcome<S>, names: seq<string>, db: Db<S>)
    requires Lead(run, names, db.schema).Some?
    ensures var after := db.(schema := Lead(run, names, db.schema).value, ledger := db.ledger + Elems(names));
            Run(run, names, db) == (after, true) && Cut(run, names, db, Crash(|names|, false)) == after
  {
    if names == [] {
      assert db.ledger + Elems(names) == db.ledger;
    } else {
      var next := Step(run, names[0], db).0;
      LeadRuns(run, names[1..], next);
      assert db.ledger + Elems(names) == next.ledger + Elems(names[1..]);
    }
  }

  /** An integrity error on one schema and a change on one that the later files lead to: the step is
      not recorded, runs again at the next boot on the newer schema, and then changes it. */
  lemma NotSteadyDiverges<S>(run: (string, S) -> Outcome<S>, all: seq<string>, db: Db<S>)
    requires NoDup(all) && db.tracked && !SteadyHead(run, Pending(all, db.ledger), db.schema)
    ensures !Agrees(run, all, db, [Crash(|Pending(all, db.ledger)|, false)])
  {
    var pending := Pending(all, db.ledger);
    var name, names, crash := pending[0], pending[1..], Crash(|pending|, false);
    var first := db.(schema := Lead(run, names, db.schema).value, ledger := db.ledger + Elems(names));
    LeadRuns(run, names, db);
    assert db.(tracked := true) == db && first.(tracked := true) == first;
    assert Boot(run, all, db) == (first, true);
    assert [crash][..0] == [];
    assert Crashes(run, all, db, [crash]) == first;
    PendingNoDup(all, db.ledger);
    OnlyHeadPending(all, db.ledger);
    RunSingle(run, name, first);
  }

  /** With all but the first of what was pending recorded, the first is left. */
  lemma OnlyHeadPending(all: seq<string>, applied: set<string>)
    requires NoDup(all) && Pending(all, applied) != []
    ensures var pending := Pending(all, applied);
            Pending(all, applied + Elems(pending[1..])) == [pending[0]]
  {
    var pending := Pending(all, applied);
    var names := pending[1..];
    PendingNoDup(all, applied);
    assert pending[0] !in names && names + [] == names;
    PendingSkips(names, [], Elems(names));
    PendingTwice(all, applied, Elems(names));
  }

  lemma {:induction false} OnlyPending(all: seq<string>, name: string, applied: set<string>)
    requires NoDup(all) && name in all && name !in applied && forall n | n in all && n != name :: n in applied
    ensures Pending(all, applied) == [name]
  {
    var rest := all[1..];
    if all[0] == name {
      assert name !in rest && rest + [] == rest;
      PendingSkips(rest, [], applied);
    } else {
      OnlyPending(rest, name, applied);
    }
  }

  /** Of every list of files: crashes are harmless if and only if every upgrade is idempotent and a
      file that clashes changes nothing that later files of the list lead to from there. */
  lemma CrashSafeIff<S(!new)>(run: (string, S) -> Outcome<S>, all: seq<string>)
    requires NoDup(all)
    ensures CrashSafe(run, all) <==> Idempotent(run, all) && Steady(run, all)
  {
    if Idempotent(run, all) && Steady(run, all) {
      forall db, crashes ensures Agrees(run, all, db, crashes) {
        if Boot(run, all, Crashes(run, all, db, crashes)).1 {
          AnyCrashSchedule(run, all, db, crashes);
        }
      }
    } else if !Idempotent(run, all) {
      var name, s :| name in all && !SafeAgain(run, name, s);
      OnlyPending(all, name, Elems(all) - {name});
      NotIdempotentDiverges(run, all, name, Db(s, true, true, Elems(all) - {name}));
    } else {
      var applied, s :| !SteadyHead(run, Pending(all, applied), s);
      NotSteadyDiverges(run, all, Db(s, true, true, applied));
    }
  }

  lemma PendingPair(a: string, b: string, applied: set<string>)
    ensures Pending([a, b], applied) ==
            (if a in applied then [] else [a]) + (if b in applied then [] else [b])
  {
    assert [a, b][1..] == [b] && [b][1..] == [];
    assert Pending([b], applied) == if b in applied then [] else [b];
  }

  /** Two files on schema 0: `clashing` clashes there and takes 1 to 2, `other` takes 0 to 1. With
      `clashing` first a restart ends elsewhere; with `other` first no crash does any harm. */
  lemma OrderMatters(clashing: string, other: string, run: (string, int) -> Outcome<int>)
    requires clashing != other
    requires forall n, s :: run(n, s) ==
               if n == clashing then (if s == 0 then Integrity else if s == 1 then Done(2) else Done(s))
               else (if s == 0 then Done(1) else Done(s))
    ensures !CrashSafe(run, [clashing, other]) && CrashSafe(run, [other, clashing])
  {
    var bad, good := [clashing, other], [other, clashing];
    PendingKeeps(bad, {});
    assert bad[1..] == [other] && [other][1..] == [];
    assert Lead(run, [other], 0) == Some(1);
    assert !SteadyHead(run, Pending(bad, {}), 0);
    CrashSafeIff(run, bad);
    forall applied, s ensures SteadyHead(run, Pending(good, applied), s) {
      PendingPair(other, clashing, applied);
      assert Lead(run, [], s) == Some(s);
    }
    CrashSafeIff(run, good);
  }

  // ---- The runner ------------------------------------------------------------------

  class Database<S> {
    var schema: S
    var tracked: bool
    var hasData: bool
    var ledger: set<string>

    constructor (db: Db<S>)
      ensures View() == db
    {
      schema, tracked, hasData, ledger := db.schema, db.tracked, db.hasData, db.ledger;
    }

    ghost function View(): Db<S>
      reads this
    {
      Db(schema, tracked, hasData, ledger)
    }

    /** `_run_one_sqlite`. */
    method RunOne(run: (string, S) -> Outcome<S>, name: string, dryRun: bool) returns (ok: bool)
      modifies `schema, `ledger
      ensures (View(), ok) == if dryRun then (old(View()), true) else Step(run, name, old(View()))
    {
      if dryRun {
        return true;
      }
      var outcome := run(name, schema);
      if outcome.NoUpgrade? {
        return false;
      }
      if outcome.Done? {
        schema := outcome.schema;
        ledger := ledger + {name};
        return true;
      }
      if outcome.Integrity? {
        return true;
      }
      if outcome.Exists? {
        ledger := ledger + {name};
        return true;
      }
      return false;
    }

    /** `_run_pending_sqlite`. */
    method RunPending(run: (string, S) -> Outcome<S>, pending: seq<string>, dryRun: bool) returns (ok: bool)
      modifies `schema, `ledger
      ensures (View(), ok) == if dryRun then (old(View()), true) else Run(run, pending, old(View()))
    {
      for i := 0 to |pending|
        invariant dryRun ==> View() == old(View())
        invariant !dryRun ==> Run(run, pending, old(View())) == Run(run, pending[i..], View())
      {
        assert pending[i..][0] == pending[i] && pending[i..][1..] == pending[i + 1..];
        ok := RunOne(run, pending[i], dryRun);
        if !ok {
          return false;
        }
      }
      return true;
    }

    /** `run_all_migrations` on SQLite. */
    method RunAll(run: (string, S) -> Outcome<S>, all: seq<string>, dryRun: bool) returns (ok: bool)
      modifies this
      ensures !dryRun ==> (View(), ok) == Boot(run, all, old(View()))
      ensures dryRun ==> ok && View() == old(if Fresh(View()) then View() else View().(tracked := true))
    {
      if !tracked && !hasData {
        return true;
      }
      tracked := true;
      var pending := ComputePending(all, ledger);
      if pending == [] {
        return true;
      }
      ok := RunPending(run, pending, dryRun);
    }
  }
}
