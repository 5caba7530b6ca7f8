/** Crash safety of the migration runner: what the log of any sequence of cut runs looks like. */
module MigrationSafety {
  import opened MigrationRuns
  import opened Options

  /** Where the schema stands according to its log: the level, and how far the level's own migration has got. */
  datatype Mark = Mark(level: nat, dirty: bool, begun: bool, applied: bool)

  predicate Legal(m: Mark, e: Event) {
    match e
    case Dirtied(v) => !m.dirty && v == m.level + 1
    case Began(v) => m.dirty && v == m.level && (!m.begun || v == RESUMABLE)
    case Applied(v) => m.dirty && v == m.level && m.begun && !m.applied
    case Cleaned(v) => m.dirty && v == m.level && m.applied
  }

  function After(m: Mark, e: Event): Mark {
    match e
    case Dirtied(v) => Mark(v, true, false, false)
    case Began(v) => m.(begun := true, applied := false)
    case Applied(v) => m.(applied := true)
    case Cleaned(v) => Mark(v, false, false, false)
  }

  /** The mark a log leaves, unless one of its events was not legal. */
  function Follow(log: seq<Event>): Option<Mark> {
    if log == [] then Some(Mark(0, false, false, false))
    else
      match Follow(log[..|log| - 1])
      case None => None
      case Some(before) => if Legal(before, log[|log| - 1]) then Some(After(before, log[|log| - 1])) else None
  }

  /** The version and the flag of the database are those of its log. */
  ghost predicate Kept(db: Db, m: Mark) {
    && Follow(db.log) == Some(m) && db.dirty == m.dirty
    && (if m.level == 0 then db.version == -1 && !db.dirty else db.version == m.level)
  }

  ghost predicate Safe(db: Db) { exists m :: Kept(db, m) }

  lemma ActKept(db: Db, m: Mark, e: Event)
    requires Kept(db, m) && Legal(m, e)
    ensures Kept(Act(db, e), After(m, e))
  {
    assert (db.log + [e])[..|db.log|] == db.log;
    assert Follow(db.log) == Some(m);
  }

  lemma RestKept(db: Db, m: Mark, v: nat, budget: nat)
    requires Kept(db, m) && m.dirty && m.level == v && (!m.begun || v == RESUMABLE)
    ensures Safe(Perform(db, Rest(v), budget))
    ensures budget >= 3 ==> Kept(Perform(db, Rest(v), budget), Mark(v, false, false, false))
    ensures budget >= 3 ==> |Perform(db, Rest(v), budget).log| == |db.log| + 3
  {
    PerformRest(db, v, budget);
    hide Kept, Perform;
    var db1, m1 := Act(db, Began(v)), After(m, Began(v));
    var db2, m2 := Act(db1, Applied(v)), After(m1, Applied(v));
    ActKept(db, m, Began(v));
    ActKept(db1, m1, Applied(v));
    ActKept(db2, m2, Cleaned(v));
  }

  lemma WholeKept(db: Db, m: Mark, v: nat, budget: nat)
    requires Kept(db, m) && !m.dirty && v == m.level + 1
    ensures Safe(Perform(db, Whole(v), budget))
    ensures budget >= 4 ==> Kept(Perform(db, Whole(v), budget), Mark(v, false, false, false))
    ensures budget >= 4 ==> |Perform(db, Whole(v), budget).log| == |db.log| + 4
  {
    assert Whole(v)[1..] == Rest(v);
    if budget > 0 {
      ActKept(db, m, Dirtied(v));
      RestKept(Act(db, Dirtied(v)), After(m, Dirtied(v)), v, budget - 1);
    }
  }

  lemma {:induction false} ClimbKept(db: Db, m: Mark, next: nat, target: nat, budget: nat)
    requires Kept(db, m) && !m.dirty && next == m.level + 1
    ensures var (db', whole) := Climb(db, next, target, budget);
            && Safe(db')
            && (whole && target >= m.level ==> Kept(db', Mark(target, false, false, false)))
            && (whole <==> budget >= 4 * (target + 1 - next))
            && (whole ==> |db'.log| == |db.log| + 4 * (if next <= target then target + 1 - next else 0))
    decreases target + 1 - next
  {
    hide Kept, Perform;
    if next <= target {
      WholeKept(db, m, next, budget);
      WholeKept(db, m, next, 4);
      if budget >= 4 {
        ClimbKept(Perform(db, Whole(next), 4), Mark(next, false, false, false), next + 1, target, budget - 4);
      }
    } else {
      CleanMark(db, m);
    }
  }

  lemma CleanMark(db: Db, m: Mark)
    requires Kept(db, m) && !m.dirty
    ensures m == Mark(m.level, false, false, false)
  {
    if db.log != [] {
      var e := db.log[|db.log| - 1];
      assert m == After(Follow(db.log[..|db.log| - 1]).value, e);
    }
  }

  /**
   A run keeps the log legal wherever it is cut. It is refused if the database is ahead of the binary, or dirty at a
   version that cannot be run again; otherwise it leaves the database clean at the target if and only if it is not cut,
   within four actions for each version and three more to resume one. It reports a change if it did anything.
   */
  lemma UpSafe(db: Db, m: Mark, target: nat, budget: nat)
    requires Kept(db, m)
    ensures var (db', outcome) := Up(db, target, budget);
            && Safe(db')
            && (outcome == Ahead <==> db.version > target)
            && (outcome == Dirty <==> db.version <= target && db.dirty && db.version != RESUMABLE)
            && (outcome.Ahead? || outcome.Dirty? ==> db' == db)
            && (outcome.Done? ==> Kept(db', Mark(target, false, false, false)))
            && (outcome.Cut? <==>
                  && db.version <= target && (db.dirty ==> db.version == RESUMABLE)
                  && budget < (if db.dirty then 3 else 0) + 4 * (target - m.level))
            && (outcome.Done? && target >= 1 ==> (outcome.changed <==> db' != db))
  {
    hide Perform;
    if db.version <= target && !(db.dirty && db.version != RESUMABLE) {
      if db.dirty {
        RestKept(db, m, RESUMABLE, budget);
        RestKept(db, m, RESUMABLE, 3);
        if budget >= 3 {
          var resumed := Perform(db, Rest(RESUMABLE), 3);
          ClimbKept(resumed, Mark(RESUMABLE, false, false, false), Next(resumed.version), target, budget - 3);
        }
      } else {
        ClimbKept(db, m, Next(db.version), target, budget);
      }
    }
  }

  lemma {:induction false} RunsSafe(db: Db, attempts: seq<Attempt>)
    requires Safe(db)
    ensures Safe(Runs(db, attempts))
    decreases |attempts|
  {
    hide Safe, Up;
    if attempts != [] {
      OneSafe(db, attempts[0]);
      RunsSafe(Up(db, attempts[0].target, attempts[0].budget).0, attempts[1..]);
    }
  }

  lemma OneSafe(db: Db, a: Attempt)
    requires Safe(db)
    ensures Safe(Up(db, a.target, a.budget).0)
  {
    var m :| Kept(db, m);
    UpSafe(db, m, a.target, a.budget);
  }

  // What a legal log means.

  function Count(log: seq<Event>, e: Event): nat {
    if log == [] then 0 else Count(log[..|log| - 1], e) + (if log[|log| - 1] == e then 1 else 0)
  }

  predicate CompletedBefore(log: seq<Event>, v: nat, i: nat)
    requires i <= |log|
  {
    forall u :: 1 <= u < v ==> Applied(u) in log[..i] && Cleaned(u) in log[..i]
  }

  /** Every event stands on the completion of all lower versions, and only the resumable version begins twice. */
  ghost predicate Orderly(log: seq<Event>) {
    && (forall i :: 0 <= i < |log| ==> CompletedBefore(log, log[i].version, i))
    && (forall i, j :: 0 <= i < j < |log| ==> log[i].version <= log[j].version)
    && (forall v :: v != RESUMABLE ==> Count(log, Began(v)) <= 1)
  }

  ghost predicate Reached(log: seq<Event>, m: Mark) {
    && CompletedBefore(log, if m.dirty then m.level else m.level + 1, |log|)
    && (forall i :: 0 <= i < |log| ==> 1 <= log[i].version <= m.level)
    && (forall v :: v > m.level || (v == m.level && m.dirty && !m.begun) ==> Count(log, Began(v)) == 0)
    && (m.applied ==> Applied(m.level) in log)
    && (m.dirty ==> m.level >= 1)
  }

  lemma CompletedLater(log: seq<Event>, e: Event, v: nat, i: nat)
    requires i <= |log| && CompletedBefore(log, v, i)
    ensures CompletedBefore(log + [e], v, i)
    ensures CompletedBefore(log + [e], v, |log| + 1)
  {
    assert (log + [e])[..i] == log[..i];
    forall u | 1 <= u < v ensures Applied(u) in log + [e] && Cleaned(u) in log + [e] {
      assert Applied(u) in log[..i] && Cleaned(u) in log[..i];
    }
    assert (log + [e])[..|log| + 1] == log + [e];
  }

  lemma {:induction false} LegalIsOrderly(log: seq<Event>, m: Mark)
    requires Follow(log) == Some(m)
    ensures Orderly(log) && Reached(log, m)
  {
    if log != [] {
      var front, e := log[..|log| - 1], log[|log| - 1];
      assert log == front + [e];
      var before := Follow(front).value;
      LegalIsOrderly(front, before);
      OrderlyStep(front, before, e);
    }
  }

  lemma OrderlyStep(front: seq<Event>, before: Mark, e: Event)
    requires Orderly(front) && Reached(front, before) && Legal(before, e)
    ensures Orderly(front + [e]) && Reached(front + [e], After(before, e))
  {
    hide CompletedBefore, Count;
    var log := front + [e];
    forall i | 0 <= i < |log| ensures CompletedBefore(log, log[i].version, i) {
      if i < |front| {
        CompletedLater(front, e, front[i].version, i);
      } else {
        CompletedLater(front, e, e.version, |front|);
      }
    }
    CountGrows(front, e);
    CompletedStep(front, before, e);
  }

  lemma CompletedStep(front: seq<Event>, before: Mark, e: Event)
    requires Reached(front, before) && Legal(before, e)
    ensures var log, m := front + [e], After(before, e);
            CompletedBefore(log, if m.dirty then m.level else m.level + 1, |log|)
  {
    hide Count;
    var log := front + [e];
    CompletedLater(front, e, if before.dirty then before.level else before.level + 1, |front|);
    if e.Cleaned? {
      assert log[|front|] == e && Applied(e.version) in front;
      LevelCompleted(log, e.version);
    }
  }

  lemma CountGrows(front: seq<Event>, e: Event)
    ensures forall x :: Count(front + [e], x) == Count(front, x) + (if e == x then 1 else 0)
  {
    assert (front + [e])[..|front|] == front;
  }

  lemma LevelCompleted(log: seq<Event>, v: nat)
    requires CompletedBefore(log, v, |log|) && Applied(v) in log && Cleaned(v) in log
    ensures CompletedBefore(log, v + 1, |log|)
  {
    assert log[..|log|] == log;
  }

  // Over every sequence of runs.

  /** Clean at v means that 1 to v have all been completed; a dirty database has completed what lies below. */
  lemma CleanMeansCompleted(attempts: seq<Attempt>, v: nat)
    ensures var db := Runs(EMPTY, attempts);
            1 <= v <= db.version && (db.dirty ==> v < db.version) ==> Applied(v) in db.log && Cleaned(v) in db.log
  {
    var db := Runs(EMPTY, attempts);
    EmptySafe();
    RunsSafe(EMPTY, attempts);
    var m :| Kept(db, m);
    LegalIsOrderly(db.log, m);
    assert db.log[..|db.log|] == db.log;
  }

  lemma EmptySafe()
    ensures Safe(EMPTY)
  {
    assert Kept(EMPTY, Mark(0, false, false, false));
  }

  /**
   A version never starts unless all lower ones have been completed, versions are worked on in ascending order, and
   only version 12 is ever started again.
   */
  lemma StartedInOrder(attempts: seq<Attempt>)
    ensures Orderly(Runs(EMPTY, attempts).log)
  {
    hide Orderly;
    EmptySafe();
    RunsSafe(EMPTY, attempts);
    var m :| Kept(Runs(EMPTY, attempts), m);
    LegalIsOrderly(Runs(EMPTY, attempts).log, m);
  }
}
