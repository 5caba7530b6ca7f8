/**
 How rules, states, incidents and the audit trail hang together, and that claims, evaluations and
 mutations keep it so. No database uniqueness constraint is needed for it.
 */
module AlertCoupling {
  import opened Options
  import opened AlertModel

  function Triggers(audits: seq<Audit>, i: nat): nat {
    if audits == [] then 0
    else
      var last := audits[|audits| - 1];
      Triggers(audits[..|audits| - 1], i) + if last == Triggered(i) then 1 else 0
  }

  function Resolutions(audits: seq<Audit>, i: nat): nat {
    if audits == [] then 0
    else
      var last := audits[|audits| - 1];
      Resolutions(audits[..|audits| - 1], i) + if last.Resolved? && last.incident == i then 1 else 0
  }

  lemma Appended(audits: seq<Audit>, a: Audit, i: nat)
    ensures Triggers(audits + [a], i) == Triggers(audits, i) + if a == Triggered(i) then 1 else 0
    ensures Resolutions(audits + [a], i)
         == Resolutions(audits, i) + if a.Resolved? && a.incident == i then 1 else 0
  {
    assert (audits + [a])[..|audits|] == audits;
  }

  predicate RowOk(r: Rule, st: State) {
    && (st.phase == Firing <==> st.active.Some?)
    && (st.phase == Pending <==> st.pendingSince.Some?)
    && (st.phase == Disabled <==> !r.enabled)
    && (r.deleted ==> !r.enabled)
  }

  /** The incident of a firing rule is its only firing incident. */
  predicate IncidentsOk(states: map<nat, Row>, incidents: map<nat, Incident>) {
    && (forall id :: id in states && states[id].state.active.Some? ==>
          var i := states[id].state.active.value;
          i in incidents && incidents[i].rule == id && incidents[i].status == IsFiring)
    && (forall i :: i in incidents && incidents[i].status == IsFiring ==>
          incidents[i].rule in states && states[incidents[i].rule].state.active == Some(i))
  }

  /** One trigger for every incident; one resolution once it is resolved, and none before. */
  predicate Audited(incidents: map<nat, Incident>, audits: seq<Audit>, i: nat) {
    && Triggers(audits, i) == (if i in incidents then 1 else 0)
    && Resolutions(audits, i) == (if i in incidents && incidents[i].status != IsFiring then 1 else 0)
  }

  ghost predicate AllAudited(incidents: map<nat, Incident>, audits: seq<Audit>) {
    forall i :: Audited(incidents, audits, i)
  }

  predicate RowsOk(rules: map<nat, Rule>, states: map<nat, Row>) {
    rules.Keys == states.Keys && forall id :: id in rules ==> RowOk(rules[id], states[id].state)
  }

  /** At most 32 live rules, all with different names. */
  predicate Registry(rules: map<nat, Rule>) {
    && |LiveRules(rules)| <= MAX_RULES
    && (forall a, b :: a in LiveRules(rules) && b in LiveRules(rules) && rules[a].spec.name == rules[b].spec.name
          ==> a == b)
  }

  ghost predicate Coupled(db: Db) {
    && RowsOk(db.rules, db.states)
    && Registry(db.rules)
    && (forall id :: id in db.rules ==> id < db.nextRule)
    && IncidentsOk(db.states, db.incidents)
    && (forall i :: i in db.incidents ==> i < db.nextIncident)
    && AllAudited(db.incidents, db.audits)
  }

  lemma EmptyCoupled()
    ensures Coupled(Db(map[], map[], map[], [], 1, 1))
  {}

  lemma ClaimCoupled(db: Db, id: nat, owner: string, now: int)
    requires Coupled(db)
    ensures Coupled(Claimed(db, id, owner, now))
  {
    hide Registry, AllAudited, RowOk;
  }

  // The audit trail follows the incidents.

  lemma AuditTouched(incidents: map<nat, Incident>, audits: seq<Audit>, i: nat, inc: Incident)
    requires AllAudited(incidents, audits) && i in incidents && inc.status == incidents[i].status
    ensures AllAudited(incidents[i := inc], audits)
  {
    hide Triggers, Resolutions;
    var next := incidents[i := inc];
    forall j ensures Audited(next, audits, j) {
      assert Audited(incidents, audits, j);
    }
  }

  lemma AuditResolved(incidents: map<nat, Incident>, audits: seq<Audit>, i: nat, inc: Incident, actor: nat)
    requires AllAudited(incidents, audits) && i in incidents && incidents[i].status == IsFiring
    requires inc.status != IsFiring
    ensures AllAudited(incidents[i := inc], audits + [Resolved(i, inc.status, actor)])
  {
    hide Triggers, Resolutions;
    var next, noted := incidents[i := inc], audits + [Resolved(i, inc.status, actor)];
    forall j ensures Audited(next, noted, j) {
      assert Audited(incidents, audits, j);
      Appended(audits, Resolved(i, inc.status, actor), j);
    }
  }

  lemma AuditTriggered(incidents: map<nat, Incident>, audits: seq<Audit>, i: nat, inc: Incident)
    requires AllAudited(incidents, audits) && i !in incidents && inc.status == IsFiring
    ensures AllAudited(incidents[i := inc], audits + [Triggered(i)])
  {
    hide Triggers, Resolutions;
    var next, noted := incidents[i := inc], audits + [Triggered(i)];
    forall j ensures Audited(next, noted, j) {
      assert Audited(incidents, audits, j);
      Appended(audits, Triggered(i), j);
    }
  }

  lemma AuditNoted(incidents: map<nat, Incident>, audits: seq<Audit>, a: Audit)
    requires AllAudited(incidents, audits) && a.RuleChanged?
    ensures AllAudited(incidents, audits + [a])
  {
    hide Triggers, Resolutions;
    var noted := audits + [a];
    forall j ensures Audited(incidents, noted, j) {
      assert Audited(incidents, audits, j);
      Appended(audits, a, j);
    }
  }

  // The state rows follow the incidents.

  lemma RowKept(states: map<nat, Row>, incidents: map<nat, Incident>, id: nat, row: Row)
    requires IncidentsOk(states, incidents) && id in states && row.state.active == states[id].state.active
    ensures IncidentsOk(states[id := row], incidents)
  {}

  lemma RowTouched(states: map<nat, Row>, incidents: map<nat, Incident>, id: nat, row: Row, i: nat, inc: Incident)
    requires IncidentsOk(states, incidents) && id in states && i in incidents
    requires row.state.active == states[id].state.active
    requires inc.rule == incidents[i].rule && inc.status == incidents[i].status
    ensures IncidentsOk(states[id := row], incidents[i := inc])
  {}

  lemma RowResolved(states: map<nat, Row>, incidents: map<nat, Incident>, id: nat, row: Row, i: nat, inc: Incident)
    requires IncidentsOk(states, incidents) && id in states && states[id].state.active == Some(i)
    requires row.state.active.None? && inc.status != IsFiring
    ensures IncidentsOk(states[id := row], incidents[i := inc])
  {}

  lemma RowTriggered(states: map<nat, Row>, incidents: map<nat, Incident>, id: nat, row: Row, i: nat, inc: Incident)
    requires IncidentsOk(states, incidents) && id in states && states[id].state.active.None? && i !in incidents
    requires row.state.active == Some(i) && inc.rule == id && inc.status == IsFiring
    ensures IncidentsOk(states[id := row], incidents[i := inc])
  {}

  lemma ActiveIsFiring(db: Db, id: nat, i: nat)
    requires Coupled(db) && id in db.states && db.states[id].state.active == Some(i)
    ensures i in db.incidents && db.incidents[i].rule == id && db.incidents[i].status == IsFiring
  {}

  // Evaluations.

  /** The evaluation state stays right for an enabled rule, and the effect is about its own incident. */
  lemma JudgedOk(r: Rule, st: State, cutoff: int, value: real, known: bool)
    requires RowOk(r, st) && r.enabled
    ensures var (st', effect) := Judge(r.spec, st, cutoff, value, known);
            match effect
            case Quiet => RowOk(r, st') && st'.active == st.active
            case Again(i) => RowOk(r, st') && st'.active == st.active == Some(i)
            case Recover(i) => RowOk(r, st') && st.active == Some(i) && st'.active.None?
            case Trigger => st.active.None? && forall i :: RowOk(r, st'.(active := Some(i)))
            case Panic => false
  {}

  lemma RowPut(db: Db, id: nat, row: Row)
    requires Coupled(db) && id in db.rules && RowOk(db.rules[id], row.state)
    ensures RowsOk(db.rules, db.states[id := row])
  {
    hide RowOk, Registry, IncidentsOk, AllAudited;
  }

  lemma EvaluationCoupled(db: Db, id: nat, cutoff: int, value: real, known: bool, now: int)
    requires Coupled(db) && id in db.rules && db.rules[id].enabled
    ensures Coupled(Evaluated(db, id, cutoff, value, known, now))
  {
    hide AllAudited, Registry, IncidentsOk, RowOk, Judge;
    var db' := Evaluated(db, id, cutoff, value, known, now);
    var (st, effect) := Judge(db.rules[id].spec, db.states[id].state, cutoff, value, known);
    JudgedOk(db.rules[id], db.states[id].state, cutoff, value, known);
    RowPut(db, id, db'.states[id]);
    var row := db'.states[id];
    match effect
    case Quiet => RowKept(db.states, db.incidents, id, row);
    case Recover(i) =>
      ActiveIsFiring(db, id, i);
      AuditResolved(db.incidents, db.audits, i, db'.incidents[i], 0);
      RowResolved(db.states, db.incidents, id, row, i, db'.incidents[i]);
    case Again(i) =>
      ActiveIsFiring(db, id, i);
      AuditTouched(db.incidents, db.audits, i, db'.incidents[i]);
      RowTouched(db.states, db.incidents, id, row, i, db'.incidents[i]);
    case Trigger =>
      AuditTriggered(db.incidents, db.audits, db.nextIncident, db'.incidents[db.nextIncident]);
      RowTriggered(db.states, db.incidents, id, row, db.nextIncident, db'.incidents[db.nextIncident]);
    case Panic =>
  }

  lemma ApplyCoupled(db: Db, id: nat, revision: nat, owner: string, cutoff: int, value: real, known: bool, now: int)
    requires Coupled(db)
    ensures Coupled(Applied(db, id, revision, owner, cutoff, value, known, now))
  {
    hide Coupled, Evaluated;
    if Fenced(db, id, revision, owner, now) {
      EvaluationCoupled(db, id, cutoff, value, known, now);
    }
  }

  // Mutations.

  lemma RegistryPut(rules: map<nat, Rule>, id: nat, r: Rule)
    requires Registry(rules)
    requires if id in rules then !rules[id].deleted else |LiveRules(rules)| < MAX_RULES && !r.deleted
    requires !r.deleted ==> !NameTaken(rules, r.spec.name, id)
    ensures Registry(rules[id := r])
  {
    assert LiveRules(rules[id := r]) == if r.deleted then LiveRules(rules) - {id} else LiveRules(rules) + {id};
    assert id in rules ==> LiveRules(rules) + {id} == LiveRules(rules);
  }

  lemma CreateCoupled(db: Db, actor: nat, input: Input, now: int)
    requires Coupled(db) && input.enabled.Some?
    ensures Coupled(Created(db, actor, input, now).0)
  {
    hide AllAudited, Registry, NameTaken, LiveRules;
    var (db', answer) := Created(db, actor, input, now);
    if answer == Ok {
      RegistryPut(db.rules, db.nextRule, db'.rules[db.nextRule]);
      AuditNoted(db.incidents, db.audits, RuleChanged(Create, db.nextRule, 1, actor));
    }
  }

  /** Closing writes the incident and its audit; the state row still has to let go of it. */
  lemma ClosingAudited(db: Db, id: nat, action: Action, actor: nat, now: int)
    requires Coupled(db) && id in db.states
    ensures var db1 := IncidentClosed(db, id, action, actor, now);
            && db1 == db.(incidents := db1.incidents, audits := db1.audits)
            && AllAudited(db1.incidents, db1.audits)
            && db1.incidents.Keys == db.incidents.Keys
            && (forall row: Row :: row.state.active.None? ==> IncidentsOk(db.states[id := row], db1.incidents))
  {
    hide AllAudited, Registry, RowOk, IncidentsOk;
    var active := db.states[id].state.active;
    if active.Some? {
      var i := active.value;
      ActiveIsFiring(db, id, i);
      var inc := IncidentClosed(db, id, action, actor, now).incidents[i];
      AuditResolved(db.incidents, db.audits, i, inc, actor);
      forall row: Row | row.state.active.None? ensures IncidentsOk(db.states[id := row], db.incidents[i := inc]) {
        RowResolved(db.states, db.incidents, id, row, i, inc);
      }
    } else {
      forall row: Row | row.state.active.None? ensures IncidentsOk(db.states[id := row], db.incidents) {
        RowKept(db.states, db.incidents, id, row);
      }
    }
  }

  lemma ChangeCoupled(db: Db, id: nat, actor: nat, action: Action, input: Input, now: int)
    requires Coupled(db) && action != Create
    ensures Coupled(Changed(db, id, actor, action, input, now).0)
  {
    hide AllAudited, Registry, IncidentsOk, NameTaken, LiveRules, IncidentClosed;
    var (db', answer) := Changed(db, id, actor, action, input, now);
    if answer == Ok {
      assert RowOk(db.rules[id], db.states[id].state);
      RegistryPut(db.rules, id, db'.rules[id]);
      if action == Enable {
        RowLet(db, id, db'.states[id]);
        AuditNoted(db.incidents, db.audits, RuleChanged(action, id, db'.rules[id].revision, actor));
      } else {
        ClosingAudited(db, id, action, actor, now);
        var db1 := IncidentClosed(db, id, action, actor, now);
        AuditNoted(db1.incidents, db1.audits, RuleChanged(action, id, db'.rules[id].revision, actor));
      }
    }
  }

  /** Enabling keeps a firing rule's incident, and no other rule has one. */
  lemma RowLet(db: Db, id: nat, row: Row)
    requires Coupled(db) && id in db.states
    requires row.state.active == if db.states[id].state.phase == Firing then db.states[id].state.active else None
    ensures IncidentsOk(db.states[id := row], db.incidents)
  {
    assert RowOk(db.rules[id], db.states[id].state);
    RowKept(db.states, db.incidents, id, row);
  }

  lemma MutationCoupled(db: Db, id: nat, actor: nat, superAdmin: bool, action: Action, input: Input, now: int)
    requires Coupled(db)
    ensures Coupled(Mutated(db, id, actor, superAdmin, action, input, now).0)
  {
    hide Coupled, Created, Changed;
    if action == Create && input.enabled.Some? {
      CreateCoupled(db, actor, input, now);
    } else if action != Create {
      ChangeCoupled(db, id, actor, action, input, now);
    }
  }
}
