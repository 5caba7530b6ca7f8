/**
 Applying schema migrations, cut short at any statement by a crash or an error. The database keeps a version and
 a dirty flag; a log records what was done to it. One run holds the database lock, so runs follow one another.
 */
module MigrationRuns {

  /** The one migration that can be run again when it was left half done. */
  const RESUMABLE: nat := 12

  datatype Event =
    | Dirtied(version: nat)
    | Began(version: nat)
    | Applied(version: nat)
    | Cleaned(version: nat)

  /** A database that was never migrated has version -1. */
  datatype Db = Db(version: int, dirty: bool, log: seq<Event>)

  const EMPTY := Db(-1, false, [])

  datatype Outcome = Done(changed: bool) | Cut | Dirty | Ahead

  function Act(db: Db, e: Event): Db {
    match e
    case Dirtied(v) => Db(v, true, db.log + [e])
    case Cleaned(v) => Db(v, false, db.log + [e])
    case _ => db.(log := db.log + [e])
  }

  /** As many of the actions as the budget allows. */
  function Perform(db: Db, actions: seq<Event>, budget: nat): Db
    decreases |actions|
  {
    if actions == [] || budget == 0 then db else Perform(Act(db, actions[0]), actions[1..], budget - 1)
  }

  function Rest(v: nat): seq<Event> { [Began(v), Applied(v), Cleaned(v)] }

  function Whole(v: nat): seq<Event> { [Dirtied(v)] + Rest(v) }

  function Climb(db: Db, next: nat, target: nat, budget: nat): (Db, bool)
    decreases target + 1 - next
  {
    if next > target then (db, true)
    else if budget < 4 then (Perform(db, Whole(next), budget), false)
    else Climb(Perform(db, Whole(next), 4), next + 1, target, budget - 4)
  }

  function Next(version: int): nat { if version + 1 < 1 then 1 else version + 1 }

  function Up(db: Db, target: nat, budget: nat): (Db, Outcome) {
    if db.version > target then (db, Ahead)
    else if db.dirty && db.version != RESUMABLE then (db, Dirty)
    else if db.dirty && budget < 3 then (Perform(db, Rest(RESUMABLE), budget), Cut)
    else
      var resumed := if db.dirty then Perform(db, Rest(RESUMABLE), 3) else db;
      var (db', whole) := Climb(resumed, Next(resumed.version), target, if db.dirty then budget - 3 else budget);
      (db', if whole then Done(db.version != target || db.dirty) else Cut)
  }

  datatype Attempt = Attempt(target: nat, budget: nat)

  /** Runs of any binaries, each cut wherever it is cut. */
  function Runs(db: Db, attempts: seq<Attempt>): Db
    decreases |attempts|
  {
    if attempts == [] then db else Runs(Up(db, attempts[0].target, attempts[0].budget).0, attempts[1..])
  }

  // The runner.

  class Driver {
    var version: int
    var dirty: bool
    var log: seq<Event>

    ghost function Snapshot(): Db
      reads this
    {
      Db(version, dirty, log)
    }

    constructor ()
      ensures Snapshot() == EMPTY
    {
      version, dirty, log := -1, false, [];
    }

    method SetVersion(v: nat, isDirty: bool)
      modifies this
      ensures Snapshot() == Act(old(Snapshot()), if isDirty then Dirtied(v) else Cleaned(v))
    {
      version, dirty, log := v, isDirty, log + [if isDirty then Dirtied(v) else Cleaned(v)];
    }

    /** The statements of one migration: the run may be cut before, between and after them. */
    method RunRest(v: nat, budget: nat) returns (left: nat, ok: bool)
      modifies this
      ensures Snapshot() == Perform(old(Snapshot()), Rest(v), budget)
      ensures ok == (budget >= 3) && (ok ==> left == budget - 3)
    {
      ghost var db := Snapshot();
      PerformRest(db, v, budget);
      if budget == 0 { return 0, false; }
      log := log + [Began(v)];
      if budget == 1 { return 0, false; }
      log := log + [Applied(v)];
      if budget == 2 { return 0, false; }
      SetVersion(v, false);
      return budget - 3, true;
    }

    method Migrate(v: nat, budget: nat) returns (left: nat, ok: bool)
      modifies this
      ensures Snapshot() == Perform(old(Snapshot()), Whole(v), budget)
      ensures ok == (budget >= 4) && (ok ==> left == budget - 4)
    {
      if budget == 0 { return 0, false; }
      SetVersion(v, true);
      assert Whole(v)[1..] == Rest(v);
      left, ok := RunRest(v, budget - 1);
    }

    method Run(target: nat, budget: nat) returns (outcome: Outcome)
      modifies this
      ensures (Snapshot(), outcome) == Up(old(Snapshot()), target, budget)
    {
      if version > target { return Ahead; }
      var originalVersion, originalDirty, left := version, dirty, budget;
      if dirty {
        if version != RESUMABLE { return Dirty; }
        var ok: bool;
        left, ok := RunRest(RESUMABLE, left);
        if !ok { return Cut; }
      }
      ghost var db, allowed := Snapshot(), left;
      var next := Next(version);
      while next <= target
        invariant next >= 1
        invariant Climb(db, Next(db.version), target, allowed) == Climb(Snapshot(), next, target, left)
      {
        ghost var before, given := Snapshot(), left;
        PerformWhole(before, next, left);
        var ok: bool;
        left, ok := Migrate(next, left);
        if !ok { return Cut; }
        next := next + 1;
      }
      return Done(originalVersion != target || originalDirty);
    }
  }

  lemma PerformRest(db: Db, v: nat, budget: nat)
    ensures var e := db.log;
            Perform(db, Rest(v), budget)
            == if budget == 0 then db
               else if budget == 1 then db.(log := e + [Began(v)])
               else if budget == 2 then db.(log := e + [Began(v)] + [Applied(v)])
               else Db(v, false, e + [Began(v)] + [Applied(v)] + [Cleaned(v)])
  {
    var r := Rest(v);
    var db1 := Act(db, Began(v));
    var db2 := Act(db1, Applied(v));
    assert r[1..] == [Applied(v), Cleaned(v)] && r[1..][1..] == [Cleaned(v)] && r[1..][1..][1..] == [];
    if budget >= 2 {
      assert Perform(db, r, budget) == Perform(db2, [Cleaned(v)], budget - 2);
      if budget >= 3 {
        assert Perform(db2, [Cleaned(v)], budget - 2) == Act(db2, Cleaned(v)) by {
          assert [Cleaned(v)][1..] == [];
        }
      }
    }
  }

  /** More budget than four makes no difference to one migration. */
  lemma PerformWhole(db: Db, v: nat, budget: nat)
    ensures budget >= 4 ==> Perform(db, Whole(v), budget) == Perform(db, Whole(v), 4)
  {
    assert Whole(v)[1..] == Rest(v);
    if budget >= 4 {
      PerformRest(Act(db, Dirtied(v)), v, budget - 1);
      PerformRest(Act(db, Dirtied(v)), v, 3);
    }
  }
}
