/** What the alert protocol promises, over every run of any number of workers and administrators. */
module AlertTheorems {
  import opened Options
  import opened AlertModel
  import opened AlertCoupling
  import opened AlertProtocol

  /**
   Lease fencing. The applied evaluations of a rule form a serial history: each one directly follows
   its own claim, with no other claim, evaluation or edit of that rule in between and within the lease,
   and the cutoffs do not go back. Unless the rule was edited in between, they are at least 30 seconds apart.
   */
  lemma SerialHistory(steps: seq<Step>, id: nat, i: nat, j: nat)
    requires var h := History(Run(INITIAL, steps), id); i < j < |h| && h[i].Judged? && h[j].Judged?
    ensures var h := History(Run(INITIAL, steps), id);
            && OwnClaimBefore(h, j)
            && h[i].cutoff <= h[j].cutoff
            && (Unedited(h, i, j) ==> h[i].cutoff + INTERVAL <= h[j].cutoff)
            && h[j].cutoff + DELAY <= h[j].at
  {
    InitialSafe();
    RunSafe(INITIAL, steps);
    hide Run, Coupled, LeaseOk, WaitOk;
    var sys := Run(INITIAL, steps);
    SameKeys(sys.db);
    assert RuleOk(sys, id);
  }

  /**
   An apply changes the database if and only if its claim is the last event of its rule and has not expired; and then
   it always does, since it gives the lease up. Applied late, or a second time, it changes nothing.
   */
  lemma StaleWorkerChangesNothing(steps: seq<Step>, owner: string, value: real, known: bool)
    requires CanApply(Run(INITIAL, steps), owner)
    ensures var sys := Run(INITIAL, steps);
            var w := sys.works[owner];
            var h := History(sys, w.rule);
            var sys' := Exec(sys, Apply(owner, value, known));
            && (sys'.db != sys.db <==> h != [] && h[|h| - 1] == Leased(owner, w.at) && sys.clock < w.at + LEASE)
            && (sys'.db == sys.db <==> sys' == sys)
  {
    hide Run, Safe, Exec, History;
    InitialSafe();
    RunSafe(INITIAL, steps);
    ChangesIffFenced(Run(INITIAL, steps), owner, value, known);
  }

  lemma ChangesIffFenced(sys: System, owner: string, value: real, known: bool)
    requires Safe(sys) && CanApply(sys, owner)
    ensures var w := sys.works[owner];
            var h := History(sys, w.rule);
            var sys' := Exec(sys, Apply(owner, value, known));
            && (sys'.db != sys.db <==> h != [] && h[|h| - 1] == Leased(owner, w.at) && sys.clock < w.at + LEASE)
            && (sys'.db == sys.db <==> sys' == sys)
  {
    hide Safe, Evaluated, Condition, Fenced;
    FenceMeaning(sys, owner);
    var w := sys.works[owner];
    if Fenced(sys.db, w.rule, w.revision.value, owner, sys.clock) {
      GivesUpLease(sys, owner, value, known);
    }
  }

  lemma GivesUpLease(sys: System, owner: string, value: real, known: bool)
    requires Safe(sys) && CanApply(sys, owner)
    requires var w := sys.works[owner]; Fenced(sys.db, w.rule, w.revision.value, owner, sys.clock)
    ensures var w := sys.works[owner];
            Evaluated(sys.db, w.rule, w.cutoff.value, value, known, sys.clock) != sys.db
  {
    hide Coupled, RuleOk, Evaluated, Judge;
    var w := sys.works[owner];
    EvaluationFrame(sys.db, w.rule, w.cutoff.value, value, known, sys.clock);
    assert sys.db.states[w.rule].owner == Some(owner);
  }

  lemma {:induction false} SteadySpan(cs: seq<int>, k: nat, i: nat)
    requires k <= i < |cs| && Steady(cs, k)
    ensures (i - k) * INTERVAL <= cs[i] - cs[k] <= (i - k) * MAX_GAP
    decreases i
  {
    if i > k {
      SteadySpan(cs, k, i - 1);
    }
  }

  /**
   Firing needs continuous evidence. When applying an evaluation inserts an incident at cutoff c, the rule's
   history ends in an unbroken run of known and true evaluations under the rule's revision, the first of them
   at least the rule's hold before c, neighbours 30 to 65 seconds apart, and the last of them this one.
   So a five-minute rule needs at least six evaluations in a row, and a one-minute rule two.
   */
  lemma FiringHasEvidence(steps: seq<Step>, owner: string, value: real, known: bool)
    requires CanApply(Run(INITIAL, steps), owner)
    requires Exec(Run(INITIAL, steps), Apply(owner, value, known)).db.nextIncident
             != Run(INITIAL, steps).db.nextIncident
    ensures var sys := Run(INITIAL, steps);
            var id, c := sys.works[owner].rule, sys.works[owner].cutoff.value;
            && id in sys.db.rules
            && var r := sys.db.rules[id];
               var cs := Streak(History(Exec(sys, Apply(owner, value, known)), id), r.revision);
               exists k, p :: Backs(cs, k, p, c) && c - p >= r.spec.hold * SECOND
                              && r.spec.hold <= (|cs| - 1 - k) * 65
                              && (r.spec.hold == 300 ==> |cs| - k >= 6) && (r.spec.hold == 60 ==> |cs| - k >= 2)
  {
    hide Run, Safe, Exec, History, Streak, Backs;
    InitialSafe();
    RunSafe(INITIAL, steps);
    Evidence(Run(INITIAL, steps), owner, value, known);
  }

  lemma TriggerMeans(r: Rule, st: State, cutoff: int, value: real, known: bool)
    ensures Judge(r.spec, st, cutoff, value, known).1 == Trigger
            <==> && known && Condition(r.spec, value) && st.phase != Firing
                 && cutoff - Since(st, cutoff) >= r.spec.hold * SECOND
  {}

  lemma OnlyTriggerInserts(db: Db, id: nat, cutoff: int, value: real, known: bool, now: int)
    requires id in db.rules && id in db.states
    ensures Evaluated(db, id, cutoff, value, known, now).nextIncident != db.nextIncident
            <==> Judge(db.rules[id].spec, db.states[id].state, cutoff, value, known).1 == Trigger
  {
    hide Judge;
  }

  // When a rule fires.

  /** What an operator compares: above, below and at the threshold, and the three complements. */
  lemma ConditionMeans(spec: Spec, v: real)
    ensures spec.operator == Gt ==> (Condition(spec, v) <==> spec.threshold < v)
    ensures spec.operator == Lt ==> (Condition(spec, v) <==> v < spec.threshold)
    ensures spec.operator == Eq ==> (Condition(spec, v) <==> v == spec.threshold)
    ensures spec.operator == Lte ==> (Condition(spec, v) <==> !(spec.threshold < v))
    ensures spec.operator == Gte ==> (Condition(spec, v) <==> !(v < spec.threshold))
    ensures spec.operator == Neq ==> (Condition(spec, v) <==> v < spec.threshold || spec.threshold < v)
  {}

  lemma InsideIsNoStart(cs: seq<int>, k: nat, k0: nat)
    requires Steady(cs, k) && k < k0 < |cs|
    ensures !Starts(cs, k0)
  {
    assert cs[k0 - 1 + 1] - cs[k0 - 1] <= MAX_GAP;
  }

  /** The wait began no later than any steady part of the streak. */
  lemma WaitIsLongest(cs: seq<int>, since: int, c: int, k: nat, p: int)
    requires Awaited(cs, since, c) && Backs(cs, k, p, c)
    ensures since <= p
  {
    var k0: nat :| Backs(cs, k0, since, c) && Starts(cs, k0);
    if k < k0 {
      InsideIsNoStart(cs, k, k0);
      assert false;
    }
    SteadySpan(cs, k0, k);
  }

  /** The streak that ends with this evaluation has held steady for the rule's hold. */
  ghost predicate Lasted(cs: seq<int>, c: int, hold: nat) {
    exists k, p :: Backs(cs, k, p, c) && c - p >= hold * SECOND
  }

  lemma LastedIff(cs: seq<int>, since: int, c: int, hold: nat)
    requires Awaited(cs, since, c)
    ensures Lasted(cs, c, hold) <==> c - since >= hold * SECOND
  {
    if Lasted(cs, c, hold) {
      var k, p :| Backs(cs, k, p, c) && c - p >= hold * SECOND;
      WaitIsLongest(cs, since, c, k, p);
    }
    if c - since >= hold * SECOND {
      var k :| Backs(cs, k, since, c) && Starts(cs, k);
    }
  }

  /** A rule without a firing incident gets one from this evaluation, and nothing else is inserted. */
  predicate Fires(db: Db, db': Db, id: nat, c: int, value: real) {
    var i := db.nextIncident;
    && id in db.rules && id in db'.states && i !in db.incidents
    && db'.nextIncident == i + 1 && db'.audits == db.audits + [Triggered(i)]
    && db'.incidents.Keys == db.incidents.Keys + {i}
    && (forall j :: j in db.incidents ==> db'.incidents[j] == db.incidents[j])
    && db'.states[id].state.phase == Firing && db'.states[id].state.active == Some(i)
    && var inc := db'.incidents[i];
       && inc.rule == id && inc.revision == db.rules[id].revision && inc.spec == db.rules[id].spec
       && inc.status == IsFiring && inc.firstTriggered == inc.lastTriggered == inc.lastEvaluated == c
       && inc.value == value && inc.evaluations == 1 && inc.recoveredAt == inc.closedAt == None
  }

  /** Nothing fires: no incident comes, goes or changes, and the trail stays as it is. */
  predicate StaysQuiet(db: Db, db': Db, id: nat) {
    && db'.nextIncident == db.nextIncident && db'.audits == db.audits && db'.incidents == db.incidents
    && id in db'.states && db'.states[id].state.phase != Firing && db'.states[id].state.active == None
  }

  /**
   A rule fires exactly when its evidence is complete. Applied under an unexpired claim that is the rule's last event,
   an evaluation of a rule without a firing incident inserts one if and only if the value is known and meets the
   condition, and the history with this evaluation ends in a steady streak that has lasted for the hold.
   */
  lemma FiresExactly(steps: seq<Step>, owner: string, value: real, known: bool)
    requires CanApply(Run(INITIAL, steps), owner)
    requires var sys := Run(INITIAL, steps);
             var w := sys.works[owner];
             var h := History(sys, w.rule);
             && h != [] && h[|h| - 1] == Leased(owner, w.at) && sys.clock < w.at + LEASE
             && forall i :: !FiringFor(sys.db, i, w.rule)
    ensures var sys := Run(INITIAL, steps);
            var id, c := sys.works[owner].rule, sys.works[owner].cutoff.value;
            var sys' := Exec(sys, Apply(owner, value, known));
            && id in sys.db.rules
            && var r := sys.db.rules[id];
               var lasted := Lasted(Streak(History(sys', id), r.revision), c, r.spec.hold);
               if known && Condition(r.spec, value) && lasted then Fires(sys.db, sys'.db, id, c, value)
               else StaysQuiet(sys.db, sys'.db, id)
  {
    hide Run, Safe, Exec, History, Streak, Lasted, FiringFor;
    InitialSafe();
    RunSafe(INITIAL, steps);
    FiresHere(Run(INITIAL, steps), owner, value, known);
  }

  lemma FiresHere(sys: System, owner: string, value: real, known: bool)
    requires Safe(sys) && CanApply(sys, owner)
    requires var w := sys.works[owner];
             var h := History(sys, w.rule);
             && h != [] && h[|h| - 1] == Leased(owner, w.at) && sys.clock < w.at + LEASE
             && forall i :: !FiringFor(sys.db, i, w.rule)
    ensures var id, c := sys.works[owner].rule, sys.works[owner].cutoff.value;
            var sys' := Exec(sys, Apply(owner, value, known));
            && id in sys.db.rules
            && var r := sys.db.rules[id];
               var lasted := Lasted(Streak(History(sys', id), r.revision), c, r.spec.hold);
               if known && Condition(r.spec, value) && lasted then Fires(sys.db, sys'.db, id, c, value)
               else StaysQuiet(sys.db, sys'.db, id)
  {
    hide Coupled, Judge, Evaluated, Since, RowOk, SerialOk, RowsOk, Condition, Streak, Awaited, Lasted, FiringFor,
      Fires, StaysQuiet;
    FenceMeaning(sys, owner);
    var w := sys.works[owner];
    var id, c := w.rule, w.cutoff.value;
    var r, row, h := sys.db.rules[id], sys.db.states[id], History(sys, id);
    RowIsOk(sys.db, id);
    CoupledRule(sys.db, id);
    assert RuleOk(sys, id);
    TriggerMeans(r, row.state, c, value, known);
    StreakBacks(r, row, h, c);
    var e := Judged(owner, r.revision, c, known, Condition(r.spec, value), value, sys.clock);
    StreakGrows(h, r.revision, e);
    LastedIff(Streak(h, r.revision) + [c], Since(row.state, c), c, r.spec.hold);
    NotFiringMeans(sys.db, id, c, value, known, sys.clock);
  }

  lemma NotFiringMeans(db: Db, id: nat, c: int, value: real, known: bool, now: int)
    requires Coupled(db) && id in db.rules && id in db.states
    requires RowOk(db.rules[id], db.states[id].state) && db.states[id].state.phase != Firing
    ensures var db' := Evaluated(db, id, c, value, known, now);
            if Judge(db.rules[id].spec, db.states[id].state, c, value, known).1 == Trigger
            then Fires(db, db', id, c, value) else StaysQuiet(db, db', id)
  {
    hide Registry, IncidentsOk, AllAudited, RowsOk;
  }

  lemma Evidence(sys: System, owner: string, value: real, known: bool)
    requires Safe(sys) && CanApply(sys, owner)
    requires Exec(sys, Apply(owner, value, known)).db.nextIncident != sys.db.nextIncident
    ensures var id, c := sys.works[owner].rule, sys.works[owner].cutoff.value;
            && id in sys.db.rules
            && var r := sys.db.rules[id];
               var cs := Streak(History(Exec(sys, Apply(owner, value, known)), id), r.revision);
               exists k, p :: Backs(cs, k, p, c) && c - p >= r.spec.hold * SECOND
                              && r.spec.hold <= (|cs| - 1 - k) * 65
                              && (r.spec.hold == 300 ==> |cs| - k >= 6) && (r.spec.hold == 60 ==> |cs| - k >= 2)
  {
    hide Coupled, Judge, Evaluated, Since, RowOk, SerialOk, RowsOk, Condition, Streak, Backs;
    FenceMeaning(sys, owner);
    var w := sys.works[owner];
    var id, c := w.rule, w.cutoff.value;
    var r, row, h := sys.db.rules[id], sys.db.states[id], History(sys, id);
    RowIsOk(sys.db, id);
    assert RuleOk(sys, id);
    OnlyTriggerInserts(sys.db, id, c, value, known, sys.clock);
    TriggerMeans(r, row.state, c, value, known);
    StreakBacks(r, row, h, c);
    var e := Judged(owner, r.revision, c, known, Condition(r.spec, value), value, sys.clock);
    StreakGrows(h, r.revision, e);
    var cs, p := Streak(h, r.revision) + [c], Since(row.state, c);
    assert Awaited(cs, p, c);
    var k :| Backs(cs, k, p, c) && Starts(cs, k);
    EnoughLinks(cs, k, p, c, r.spec.hold);
  }

  lemma EnoughLinks(cs: seq<int>, k: nat, p: int, c: int, hold: nat)
    requires Backs(cs, k, p, c) && c - p >= hold * SECOND
    ensures hold <= (|cs| - 1 - k) * 65
  {
    SteadySpan(cs, k, |cs| - 1);
  }

  predicate FiringFor(db: Db, i: nat, id: nat) {
    i in db.incidents && db.incidents[i].rule == id && db.incidents[i].status == IsFiring
  }

  /** The coupling of rules, states, incidents and audits holds in every reachable state. */
  lemma CoupledAlways(steps: seq<Step>, id: nat)
    requires id in Run(INITIAL, steps).db.rules
    ensures var db := Run(INITIAL, steps).db;
            && id in db.states && RowOk(db.rules[id], db.states[id].state)
            && (db.states[id].state.phase == Firing <==>
                  exists i :: FiringFor(db, i, id))
            && (forall i, j :: FiringFor(db, i, id) && FiringFor(db, j, id) ==> i == j)
            && |LiveRules(db.rules)| <= MAX_RULES
  {
    InitialSafe();
    RunSafe(INITIAL, steps);
    hide Run, Safe;
    SafeIsCoupled(Run(INITIAL, steps));
    CoupledRule(Run(INITIAL, steps).db, id);
  }

  lemma SafeIsCoupled(sys: System)
    requires Safe(sys)
    ensures Coupled(sys.db)
  {
    hide Coupled, RuleOk;
  }

  lemma CoupledRule(db: Db, id: nat)
    requires Coupled(db) && id in db.rules
    ensures id in db.states && RowOk(db.rules[id], db.states[id].state)
    ensures db.states[id].state.phase == Firing <==> exists i :: FiringFor(db, i, id)
    ensures forall i, j :: FiringFor(db, i, id) && FiringFor(db, j, id) ==> i == j
    ensures |LiveRules(db.rules)| <= MAX_RULES
  {
    hide AllAudited, LiveRules;
    var st := db.states[id].state;
    if st.active.Some? {
      assert FiringFor(db, st.active.value, id);
    }
  }

  /** Every incident is triggered once in the audit trail, and resolved once if and only if it is resolved. */
  lemma AuditedAlways(steps: seq<Step>, i: nat)
    ensures var db := Run(INITIAL, steps).db; Audited(db.incidents, db.audits, i)
  {
    InitialSafe();
    RunSafe(INITIAL, steps);
    hide Run, RuleOk, Audited;
  }

  predicate SameIncident(db: Db, db': Db, i: nat) {
    i in db.incidents && i in db'.incidents && db'.incidents[i] == db.incidents[i]
  }

  lemma EvaluationKeepsResolved(db: Db, id: nat, cutoff: int, value: real, known: bool, now: int, i: nat)
    requires Coupled(db) && id in db.rules && db.rules[id].enabled
    requires i in db.incidents && db.incidents[i].status != IsFiring
    ensures SameIncident(db, Evaluated(db, id, cutoff, value, known, now), i)
  {
    hide AllAudited, Registry, RowOk, Judge;
    RowIsOk(db, id);
    JudgedOk(db.rules[id], db.states[id].state, cutoff, value, known);
  }

  lemma MutationKeepsResolved(db: Db, id: nat, actor: nat, superAdmin: bool, action: Action, input: Input, now: int,
                              i: nat)
    requires i in db.incidents && db.incidents[i].status != IsFiring
    ensures SameIncident(db, Mutated(db, id, actor, superAdmin, action, input, now).0, i)
  {
    hide ValidInput, NameTaken, LiveRules;
  }

  /** Recovered and closed are final: no step touches a resolved incident again. */
  lemma ResolvedIsFinal(sys: System, step: Step, i: nat)
    requires Safe(sys) && i in sys.db.incidents && sys.db.incidents[i].status != IsFiring
    ensures SameIncident(sys.db, Exec(sys, step).db, i)
  {
    hide RuleOk, Coupled, Evaluated, Mutated, Condition;
    match step
    case Apply(owner, value, known) =>
      if CanApply(sys, owner) {
        var w := sys.works[owner];
        if Fenced(sys.db, w.rule, w.revision.value, owner, sys.clock) {
          EvaluationKeepsResolved(sys.db, w.rule, w.cutoff.value, value, known, sys.clock, i);
        }
      }
    case Mutate(id, actor, superAdmin, action, input) =>
      MutationKeepsResolved(sys.db, id, actor, superAdmin, action, input, sys.clock, i);
    case _ =>
  }

  /** An unknown evaluation or a false one ends the wait: the rule is not pending after it, and has no streak. */
  lemma WaitRestarts(sys: System, owner: string, value: real, known: bool)
    requires Safe(sys) && CanApply(sys, owner)
    requires var w := sys.works[owner]; Fenced(sys.db, w.rule, w.revision.value, owner, sys.clock)
    requires var w := sys.works[owner]; !known || !Condition(sys.db.rules[w.rule].spec, value)
    ensures var id, sys' := sys.works[owner].rule, Exec(sys, Apply(owner, value, known));
            && id in sys'.db.states && sys'.db.states[id].state.phase != Pending
            && sys'.db.states[id].state.pendingSince.None?
            && forall revision :: Streak(History(sys', id), revision) == []
  {
    hide Coupled, RuleOk, RowsOk, Evaluated, Streak;
    var w := sys.works[owner];
    RowIsOk(sys.db, w.rule);
    EvaluationFrame(sys.db, w.rule, w.cutoff.value, value, known, sys.clock);
    var e := Judged(owner, w.revision.value, w.cutoff.value, known,
                    Condition(sys.db.rules[w.rule].spec, value), value, sys.clock);
    forall revision ensures Streak(History(sys, w.rule) + [e], revision) == [] {
      StreakGrows(History(sys, w.rule), revision, e);
    }
  }
}
