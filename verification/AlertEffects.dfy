/** What a mutation writes, and what an evaluation does to a rule that fires and to one that does not. */
module AlertEffects {
  import opened Options
  import opened AlertModel
  import opened AlertCoupling

  // Mutations.

  /** The rule as the mutation leaves it: what the input replaces, what is switched, and what stays. */
  predicate WrittenRight(db: Db, db': Db, id: nat, action: Action, input: Input)
    requires action != Create ==> id in db.rules
    requires id in db'.rules && (action == Create ==> input.enabled.Some?)
  {
    var r' := db'.rules[id];
    && r'.spec == (if action in {Create, Update} then input.spec else db.rules[id].spec)
    && r'.enabled == (match action
                      case Create => input.enabled.value
                      case Update => db.rules[id].enabled
                      case Enable => true
                      case Disable => false
                      case Delete => false)
    && r'.revision == (if action == Create then 1 else db.rules[id].revision + 1)
    && (r'.deleted <==> action == Delete)
  }

  /** The evaluation starts over, unless a firing rule is enabled again. */
  predicate StateReset(st': State, enabled: bool) {
    && st'.phase == (if enabled then Normal else Disabled) && st'.data == Unknown
    && st'.pendingSince == None && st'.active == None && st'.lastValue == None
    && st'.lastEvaluated == None && st'.lastSuccess == None && st'.error == None
  }

  /** An edit, a disabling and a deletion close the firing incident, with the reason, and say so in the trail. */
  predicate ClosedRight(db: Db, db': Db, id: nat, action: Action, actor: nat, now: int)
    requires id in db.states
  {
    var active := db.states[id].state.active;
    if action == Enable || active.None? then db'.incidents == db.incidents && |db'.audits| == |db.audits| + 1
    else
      && IncidentEnds(db.incidents, db'.incidents, active.value, action, now)
      && |db'.audits| == |db.audits| + 2 && db'.audits[|db.audits|] == Resolved(active.value, Closed, actor)
  }

  predicate IncidentEnds(was: map<nat, Incident>, now: map<nat, Incident>, i: nat, action: Action, at: int) {
    && i in was && now.Keys == was.Keys
    && (forall j :: j in was && j != i ==> now[j] == was[j])
    && now[i] == was[i].(status := Closed, closedAt := Some(at), reason := now[i].reason)
    && now[i].reason == (match action
                         case Disable => "rule_disabled"
                         case Delete => "rule_deleted"
                         case _ => "rule_updated")
  }

  lemma ClosingMeans(db: Db, id: nat, action: Action, actor: nat, now: int)
    requires Coupled(db) && id in db.states
    ensures var db1, active := IncidentClosed(db, id, action, actor, now), db.states[id].state.active;
            if active.None? then db1 == db
            else
              && db1 == db.(incidents := db1.incidents, audits := db.audits + [Resolved(active.value, Closed, actor)])
              && IncidentEnds(db.incidents, db1.incidents, active.value, action, now)
  {
    if db.states[id].state.active.Some? {
      ActiveIsFiring(db, id, db.states[id].state.active.value);
    }
    hide Coupled;
  }

  predicate Rejected(action: Action, input: Input) {
    if action in {Create, Update} then !ValidInput(input, action == Create) else input.revision == 0
  }

  /** The first obstacle decides the answer. */
  lemma MutationAnswers(db: Db, id: nat, actor: nat, superAdmin: bool, action: Action, input: Input, now: int)
    requires Coupled(db)
    ensures var (db', answer) := Mutated(db, id, actor, superAdmin, action, input, now);
            && (answer == Invalid <==> Rejected(action, input))
            && (answer == Denied <==> !Rejected(action, input) && !superAdmin)
            && (!Rejected(action, input) && superAdmin ==>
                  && (answer == LimitReached <==> action == Create && |LiveRules(db.rules)| >= MAX_RULES)
                  && (answer == NotFound <==> action != Create && !Live(db, id))
                  && (answer == Conflict <==>
                        if action == Create then
                          |LiveRules(db.rules)| < MAX_RULES && NameTaken(db.rules, input.spec.name, db.nextRule)
                        else
                          Live(db, id)
                          && (db.rules[id].revision != input.revision
                              || (action == Update && NameTaken(db.rules, input.spec.name, id)))))
            && (answer != Ok ==> db' == db)
  {
    hide AllAudited, IncidentsOk, ValidInput, LiveRules, RowOk;
    if Live(db, id) {
      OwnName(db, id);
    }
  }

  lemma OwnName(db: Db, id: nat)
    requires Coupled(db) && Live(db, id)
    ensures id in db.states && !NameTaken(db.rules, db.rules[id].spec.name, id)
  {
    hide AllAudited, IncidentsOk, RowOk;
  }

  /** What a successful mutation leaves behind. */
  lemma MutationMeans(db: Db, id: nat, actor: nat, superAdmin: bool, action: Action, input: Input, now: int)
    requires Coupled(db) && Mutated(db, id, actor, superAdmin, action, input, now).1 == Ok
    ensures var db' := Mutated(db, id, actor, superAdmin, action, input, now).0;
            MutatedRight(db, db', id, actor, action, input, now)
  {
    hide AllAudited, ValidInput, LiveRules, NameTaken, RowOk, MutatedRight;
    if action == Create {
      CreationMeans(db, id, actor, input, now);
    } else {
      ChangeMeans(db, id, actor, action, input, now);
    }
  }

  /** Everything a successful mutation does to the rule and its state. */
  predicate RuleMutated(db: Db, db': Db, id: nat, action: Action, input: Input) {
    var target := if action == Create then db.nextRule else id;
    && target in db'.rules && target in db'.states
    && (if action == Create then target !in db.rules && input.enabled.Some? else Live(db, id) && id in db.states)
    && (Live(db', target) <==> action != Delete)
    && WrittenRight(db, db', target, action, input)
    && (if action == Enable && db.states[id].state.phase == Firing
        then db'.states[target].state == db.states[id].state
        else StateReset(db'.states[target].state, db'.rules[target].enabled))
    && db'.nextRule == db.nextRule + (if action == Create then 1 else 0)
  }

  /** And to the incidents and the trail. */
  predicate TrailMutated(db: Db, db': Db, id: nat, actor: nat, action: Action, now: int) {
    var target := if action == Create then db.nextRule else id;
    && target in db'.rules && db'.nextIncident == db.nextIncident
    && (if action == Create then db'.incidents == db.incidents && |db'.audits| == |db.audits| + 1
        else id in db.states && ClosedRight(db, db', id, action, actor, now))
    && |db.audits| < |db'.audits| && db'.audits[..|db.audits|] == db.audits
    && db'.audits[|db'.audits| - 1] == RuleChanged(action, target, db'.rules[target].revision, actor)
  }

  predicate MutatedRight(db: Db, db': Db, id: nat, actor: nat, action: Action, input: Input, now: int) {
    RuleMutated(db, db', id, action, input) && TrailMutated(db, db', id, actor, action, now)
  }

  lemma CreationMeans(db: Db, id: nat, actor: nat, input: Input, now: int)
    requires Coupled(db) && ValidInput(input, true) && Created(db, actor, input, now).1 == Ok
    ensures MutatedRight(db, Created(db, actor, input, now).0, id, actor, Create, input, now)
  {
    InputMeans(input, true);
    hide AllAudited, ValidInput, LiveRules, NameTaken, RowOk, IncidentsOk;
  }

  lemma ChangeMeans(db: Db, id: nat, actor: nat, action: Action, input: Input, now: int)
    requires Coupled(db) && action != Create && Changed(db, id, actor, action, input, now).1 == Ok
    ensures MutatedRight(db, Changed(db, id, actor, action, input, now).0, id, actor, action, input, now)
  {
    hide Coupled, Changed, RuleMutated, TrailMutated;
    RuleChanges(db, id, actor, action, input, now);
    TrailChanges(db, id, actor, action, input, now);
  }

  lemma RuleChanges(db: Db, id: nat, actor: nat, action: Action, input: Input, now: int)
    requires Coupled(db) && action != Create && Changed(db, id, actor, action, input, now).1 == Ok
    ensures RuleMutated(db, Changed(db, id, actor, action, input, now).0, id, action, input)
  {
    hide Coupled, NameTaken;
  }

  lemma TrailChanges(db: Db, id: nat, actor: nat, action: Action, input: Input, now: int)
    requires Coupled(db) && action != Create && Changed(db, id, actor, action, input, now).1 == Ok
    ensures TrailMutated(db, Changed(db, id, actor, action, input, now).0, id, actor, action, now)
  {
    ClosingMeans(db, id, action, actor, now);
    hide Coupled, NameTaken, IncidentClosed, IncidentEnds;
  }

  /** Which windows and holds a rule may have, and which thresholds and names. */
  lemma InputMeans(input: Input, create: bool)
    ensures var s := input.spec;
            ValidInput(input, create) <==>
              && (s.window, s.hold) in {(60, 0), (60, 60), (300, 0), (300, 60), (300, 300), (900, 0), (900, 60),
                                        (900, 300)}
              && s.threshold <= 1_000_000_000_000_000.0 && -s.threshold <= 1_000_000_000_000_000.0
              && !(forall i :: 0 <= i < |s.name| ==> Space(s.name[i]))
              && !(exists i :: 0 <= i < |s.name| && Control(s.name[i]))
              && Utf8Length(s.name) <= 80
              && input.catalogued
              && (create <==> input.enabled.Some?) && (create <==> input.revision == 0)
  {
    var s := input.spec;
    if |s.name| > 0 {
      assert Utf8Length(s.name) >= 1;
    }
  }

  // Evaluations.

  /** What an applied evaluation writes into the state row, whatever the rule was doing. */
  predicate SeenRight(r: Rule, st: State, st': State, c: int, value: real, known: bool) {
    && st'.lastEvaluated == Some(c)
    && (if known then
          st'.data == Known && st'.error == None && st'.lastValue == Some(value) && st'.lastSuccess == Some(c)
        else
          && st'.error == Some(r.spec.source) && st'.lastValue == st.lastValue && st'.lastSuccess == st.lastSuccess
          && st'.data == (if st.phase == Firing then Stale else Unknown))
  }

  predicate OnlyIncident(db: Db, db': Db, i: nat) {
    && i in db.incidents && db'.incidents.Keys == db.incidents.Keys
    && forall j :: j in db.incidents && j != i ==> db'.incidents[j] == db.incidents[j]
  }

  /**
   A firing rule goes on firing while the value is unknown or meets the condition, and each known value is entered
   in its incident; the first that does not meet it recovers the incident. The incidents of others stay as they are.
   */
  predicate FiringGoesOn(db: Db, db': Db, id: nat, c: int, value: real, known: bool, met: bool)
    requires id in db.states && id in db'.states && db.states[id].state.active.Some?
  {
    var i, st' := db.states[id].state.active.value, db'.states[id].state;
    && OnlyIncident(db, db', i) && db'.nextIncident == db.nextIncident
    && var inc := db.incidents[i];
       if !known then
         db'.incidents[i] == inc && db'.audits == db.audits && st'.phase == Firing && st'.active == Some(i)
       else if met then
         && db'.incidents[i] == inc.(lastTriggered := c, lastEvaluated := c, value := value,
                                     evaluations := inc.evaluations + 1)
         && db'.audits == db.audits && st'.phase == Firing && st'.active == Some(i)
       else
         && db'.incidents[i] == inc.(status := Recovered, recoveredAt := Some(c), lastEvaluated := c, value := value,
                                     evaluations := inc.evaluations + 1)
         && db'.audits == db.audits + [Resolved(i, Recovered, 0)] && st'.phase == Normal && st'.active == None
  }

  lemma EvaluationMeans(db: Db, id: nat, c: int, value: real, known: bool, now: int)
    requires Coupled(db) && id in db.rules && db.rules[id].enabled
    ensures var db' := Evaluated(db, id, c, value, known, now);
            && id in db.states && id in db'.states && db'.nextRule == db.nextRule
            && SeenRight(db.rules[id], db.states[id].state, db'.states[id].state, c, value, known)
            && db'.states[id].owner == None && db'.states[id].until == None && db'.states[id].next == now + INTERVAL
            && (db.states[id].state.phase == Firing ==>
                  && db.states[id].state.active.Some?
                  && FiringGoesOn(db, db', id, c, value, known, Condition(db.rules[id].spec, value)))
            && (db.states[id].state.phase != Firing && known && Condition(db.rules[id].spec, value) ==>
                  db'.states[id].state.phase in {Pending, Firing})
            && (db.states[id].state.phase != Firing && !(known && Condition(db.rules[id].spec, value)) ==>
                  db'.states[id].state.phase == Normal)
  {
    hide AllAudited, Registry, Condition;
    assert RowOk(db.rules[id], db.states[id].state);
  }
}
