/** What both migration paths of `migration_runner.py` share: the pending list, the state of
    the database at boot, and the number a migration file name starts with. */
module Ledger {
  import opened Prelude
  import opened Decimal

  /** `schema` is abstract; `ledger` is the set of names in `_migrations`. */
  datatype Db<S> = Db(schema: S, tracked: bool, hasData: bool, ledger: set<string>)

  /** No tracking table and no business table: the schema is built elsewhere. */
  predicate Fresh<S>(db: Db<S>) {
    !db.tracked && !db.hasData
  }

  /** The names not yet applied, in file order. */
  function Pending(all: seq<string>, applied: set<string>): (r: seq<string>)
    ensures forall n :: n in r <==> n in all && n !in applied
  {
    if all == [] then []
    else if all[0] in applied then Pending(all[1..], applied)
    else [all[0]] + Pending(all[1..], applied)
  }

  method ComputePending(all: seq<string>, applied: set<string>) returns (r: seq<string>)
    ensures r == Pending(all, applied)
  {
    r := [];
    var i := |all|;
    while i > 0
      invariant 0 <= i <= |all|
      invariant r == Pending(all[i..], applied)
    {
      i := i - 1;
      assert all[i..][1..] == all[i + 1..];
      if all[i] !in applied {
        r := [all[i]] + r;
      }
    }
    assert all[0..] == all;
  }

  lemma {:induction false} PendingNoDup(all: seq<string>, applied: set<string>)
    requires NoDup(all)
    ensures NoDup(Pending(all, applied))
  {
    if all != [] {
      PendingNoDup(all[1..], applied);
      assert all[0] !in all[1..];
    }
  }

  lemma {:induction false} PendingKeeps(names: seq<string>, applied: set<string>)
    requires forall n | n in names :: n !in applied
    ensures Pending(names, applied) == names
  {
    if names != [] {
      PendingKeeps(names[1..], applied);
    }
  }

  lemma {:induction false} PendingSkips(done: seq<string>, later: seq<string>, applied: set<string>)
    requires forall n | n in done :: n in applied
    requires forall n | n in later :: n !in applied
    ensures Pending(done + later, applied) == later
  {
    if done == [] {
      assert done + later == later;
      PendingKeeps(later, applied);
    } else {
      PendingSkips(done[1..], later, applied);
      assert (done + later)[1..] == done[1..] + later;
    }
  }

  lemma {:induction false} PendingIgnores(all: seq<string>, applied: set<string>, name: string)
    requires name !in all
    ensures Pending(all, applied + {name}) == Pending(all, applied)
  {
    if all != [] {
      PendingIgnores(all[1..], applied, name);
    }
  }

  /** Recording the first `j` pending names leaves the rest pending, in order. */
  lemma {:induction false} PendingAfter(all: seq<string>, applied: set<string>, j: nat)
    requires NoDup(all) && j <= |Pending(all, applied)|
    ensures Pending(all, applied + Elems(Pending(all, applied)[..j])) == Pending(all, applied)[j..]
  {
    if j == 0 {
      assert applied + Elems(Pending(all, applied)[..0]) == applied;
    } else if all[0] in applied {
      PendingAfter(all[1..], applied, j);
    } else {
      var rest := Pending(all[1..], applied);
      PendingAfter(all[1..], applied, j - 1);
      var now := applied + Elems(rest[..j - 1]);
      assert ([all[0]] + rest)[..j] == [all[0]] + rest[..j - 1];
      ElemsCons(all[0], rest[..j - 1]);
      assert applied + Elems(Pending(all, applied)[..j]) == now + {all[0]};
      PendingIgnores(all[1..], now, all[0]);
    }
  }

  // ---- Migration numbers --------------------------------------------------------

  /** The leading digits. */
  function Leading(name: string): (r: string)
    ensures |r| <= |name| && r == name[..|r|] && AllDigits(r)
    ensures |r| < |name| ==> !Digit(name[|r|])
  {
    if name == [] || !Digit(name[0]) then [] else [name[0]] + Leading(name[1..])
  }

  /** The number, or -1 when the name starts with no digit. */
  function IndexOf(name: string): int {
    if Leading(name) == [] then -1 else Value(Leading(name))
  }

  method MigrationIndex(name: string) returns (index: int)
    ensures index == IndexOf(name)
  {
    var i := 0;
    var value := 0;
    while i < |name| && Digit(name[i])
      invariant 0 <= i <= |Leading(name)|
      invariant value == Value(Leading(name)[..i])
      decreases |name| - i
    {
      var lead := Leading(name);
      assert i < |lead|;
      assert lead[..i + 1][..i] == lead[..i] && lead[i] == name[i];
      value := 10 * value + (name[i] as int - '0' as int);
      i := i + 1;
    }
    var lead := Leading(name);
    assert i == |lead| && lead[..i] == lead;
    index := if i == 0 then -1 else value;
  }
}
