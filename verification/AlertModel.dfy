/**
 Alert rules, their evaluation state, their incidents and the audit trail, with the three
 transactions that change them: a scheduler's lease claim, the application of an evaluation,
 and an administrator's mutation. Times are whole microseconds.
 */
module AlertModel {
  import opened Options

  const SECOND: nat := 1_000_000
  const LEASE: nat := 10 * SECOND
  const INTERVAL: nat := 30 * SECOND
  const DELAY: nat := 15 * SECOND
  const MAX_GAP: nat := 65 * SECOND
  const MAX_RULES: nat := 32

  datatype Operator = Gt | Gte | Lt | Lte | Eq | Neq
  datatype Severity = Warning | Critical
  datatype Source = Metrics | Logs | Events

  /** What an administrator writes. The hold is how long the condition must last before the rule fires. */
  datatype Spec = Spec(name: string, severity: Severity, source: Source, selector: string,
                       operator: Operator, threshold: real, window: nat, hold: nat)

  datatype Rule = Rule(spec: Spec, enabled: bool, revision: nat, deleted: bool)

  datatype Phase = Disabled | Normal | Pending | Firing
  datatype DataStatus = Unknown | Known | Stale
  datatype State = State(phase: Phase, data: DataStatus, pendingSince: Option<int>, active: Option<nat>,
                         lastValue: Option<real>, lastEvaluated: Option<int>, lastSuccess: Option<int>,
                         error: Option<Source>)
  /** A state row with its lease. */
  datatype Row = Row(state: State, owner: Option<string>, until: Option<int>, next: int)

  datatype Status = IsFiring | Recovered | Closed
  datatype Incident = Incident(rule: nat, revision: nat, spec: Spec, status: Status,
                               firstTriggered: int, lastTriggered: int, lastEvaluated: int,
                               recoveredAt: Option<int>, closedAt: Option<int>, reason: string,
                               value: real, evaluations: nat)

  datatype Action = Create | Update | Enable | Disable | Delete
  datatype Audit =
    | RuleChanged(action: Action, rule: nat, revision: nat, actor: nat)
    | Triggered(incident: nat)
    | Resolved(incident: nat, status: Status, actor: nat)

  datatype Db = Db(rules: map<nat, Rule>, states: map<nat, Row>, incidents: map<nat, Incident>,
                   audits: seq<Audit>, nextRule: nat, nextIncident: nat)

  function Condition(spec: Spec, v: real): bool {
    match spec.operator
    case Gt => v > spec.threshold
    case Gte => v >= spec.threshold
    case Lt => v < spec.threshold
    case Lte => v <= spec.threshold
    case Eq => v == spec.threshold
    case Neq => v != spec.threshold
  }

  predicate Live(db: Db, id: nat) {
    id in db.rules && !db.rules[id].deleted
  }

  // Claiming a rule.

  predicate Claimable(db: Db, id: nat, now: int) {
    && Live(db, id) && id in db.states && db.rules[id].enabled
    && db.states[id].next <= now
    && (db.states[id].until.None? || db.states[id].until.value <= now)
  }

  function Claimed(db: Db, id: nat, owner: string, now: int): Db {
    if !Claimable(db, id, now) then db
    else db.(states := db.states[id := db.states[id].(owner := Some(owner), until := Some(now + LEASE))])
  }

  // Applying an evaluation.

  datatype Effect = Quiet | Recover(incident: nat) | Again(incident: nat) | Trigger | Panic

  /** The transition of the evaluation state alone. The incident of a trigger is filled in by its insert. */
  function Judge(spec: Spec, st: State, cutoff: int, value: real, known: bool): (State, Effect) {
    var seen := st.(lastEvaluated := Some(cutoff), error := None, data := Known);
    if !known then
      if st.phase == Firing then (seen.(error := Some(spec.source), data := Stale), Quiet)
      else (seen.(error := Some(spec.source), data := Unknown, phase := Normal, pendingSince := None), Quiet)
    else
      var good := seen.(lastSuccess := Some(cutoff), lastValue := Some(value));
      if !Condition(spec, value) then
        (good.(phase := Normal, pendingSince := None, active := None),
         if st.active.Some? then Recover(st.active.value) else Quiet)
      else if st.phase == Firing then
        (good, if st.active.Some? then Again(st.active.value) else Panic)
      else
        var since := Since(st, cutoff);
        if cutoff - since >= spec.hold * SECOND then (good.(phase := Firing, pendingSince := None), Trigger)
        else (good.(phase := Pending, pendingSince := Some(since)), Quiet)
  }

  /** A gap in the evaluations is not evidence of a lasting condition: the wait starts again. */
  function Since(st: State, cutoff: int): int {
    if st.pendingSince.None? || st.lastEvaluated.None? || cutoff - st.lastEvaluated.value > MAX_GAP then cutoff
    else st.pendingSince.value
  }

  function Write(db: Db, id: nat, st: State, now: int): Db
    requires id in db.states
  {
    db.(states := db.states[id := db.states[id].(state := st, owner := None, until := None, next := now + INTERVAL)])
  }

  function Evaluated(db: Db, id: nat, cutoff: int, value: real, known: bool, now: int): Db
    requires id in db.rules && id in db.states
  {
    var r := db.rules[id];
    var (st, effect) := Judge(r.spec, db.states[id].state, cutoff, value, known);
    match effect
    case Quiet => Write(db, id, st, now)
    case Panic => db
    case Recover(i) =>
      var incidents := if i !in db.incidents then db.incidents
        else db.incidents[i := db.incidents[i].(status := Recovered, recoveredAt := Some(cutoff),
                                                lastEvaluated := cutoff, value := value,
                                                evaluations := db.incidents[i].evaluations + 1)];
      Write(db.(incidents := incidents, audits := db.audits + [Resolved(i, Recovered, 0)]), id, st, now)
    case Again(i) =>
      var incidents := if i !in db.incidents then db.incidents
        else db.incidents[i := db.incidents[i].(lastTriggered := cutoff, lastEvaluated := cutoff, value := value,
                                                evaluations := db.incidents[i].evaluations + 1)];
      Write(db.(incidents := incidents), id, st, now)
    case Trigger =>
      var i := db.nextIncident;
      var inc := Incident(id, r.revision, r.spec, IsFiring, cutoff, cutoff, cutoff, None, None, "", value, 1);
      Write(db.(incidents := db.incidents[i := inc], audits := db.audits + [Triggered(i)], nextIncident := i + 1),
            id, st.(active := Some(i)), now)
  }

  /** The fence: the rule as it is now, leased to this owner, unexpired, at the revision the owner read. */
  predicate Fenced(db: Db, id: nat, revision: nat, owner: string, now: int) {
    && Live(db, id) && id in db.states
    && db.states[id].owner == Some(owner)
    && db.states[id].until.Some? && db.states[id].until.value > now
    && db.rules[id].revision == revision && db.rules[id].enabled
  }

  function Applied(db: Db, id: nat, revision: nat, owner: string, cutoff: int, value: real, known: bool, now: int): Db {
    if Fenced(db, id, revision, owner, now) then Evaluated(db, id, cutoff, value, known, now) else db
  }

  // Mutations.

  /** `catalogued` says that the source's catalog accepts the selector and reducer. */
  datatype Input = Input(spec: Spec, enabled: Option<bool>, revision: nat, catalogued: bool)

  datatype Answer = Ok | Invalid | Denied | NotFound | Conflict | LimitReached

  predicate Space(c: char) {
    c in {' ', '\U{a0}', '\U{1680}', '\U{2028}', '\U{2029}', '\U{202f}', '\U{205f}', '\U{3000}'}
    || '\U{2000}' <= c <= '\U{200a}'
  }

  predicate Control(c: char) { c < ' ' || '\U{7f}' <= c <= '\U{9f}' }

  /** The length of a text in bytes of UTF-8. */
  function Utf8Length(s: string): nat {
    if s == "" then 0
    else
      var c := s[|s| - 1];
      Utf8Length(s[..|s| - 1])
      + (if c < '\U{80}' then 1 else if c < '\U{800}' then 2 else if c < '\U{10000}' then 3 else 4)
  }

  predicate ValidInput(input: Input, create: bool) {
    var s := input.spec;
    && 1 <= Utf8Length(s.name) <= 80
    && (forall i :: 0 <= i < |s.name| ==> !Control(s.name[i]))
    && (exists i :: 0 <= i < |s.name| && !Space(s.name[i]))
    && -1_000_000_000_000_000.0 <= s.threshold <= 1_000_000_000_000_000.0
    && s.window in {60, 300, 900} && s.hold in {0, 60, 300} && s.hold <= s.window
    && (if create then input.enabled.Some? && input.revision == 0 else input.enabled.None? && input.revision != 0)
    && input.catalogued
  }

  function LiveRules(rules: map<nat, Rule>): set<nat> { set id | id in rules && !rules[id].deleted }

  predicate NameTaken(rules: map<nat, Rule>, name: string, except: nat) {
    exists id :: id in rules && id != except && !rules[id].deleted && rules[id].spec.name == name
  }

  function Fresh(enabled: bool): State {
    State(if enabled then Normal else Disabled, Unknown, None, None, None, None, None, None)
  }

  function Created(db: Db, actor: nat, input: Input, now: int): (Db, Answer)
    requires input.enabled.Some?
  {
    var id := db.nextRule;
    if |LiveRules(db.rules)| >= MAX_RULES then (db, LimitReached)
    else if NameTaken(db.rules, input.spec.name, id) then (db, Conflict)
    else
      (db.(rules := db.rules[id := Rule(input.spec, input.enabled.value, 1, false)],
           states := db.states[id := Row(Fresh(input.enabled.value), None, None, now)],
           audits := db.audits + [RuleChanged(Create, id, 1, actor)],
           nextRule := id + 1), Ok)
  }

  function Reason(action: Action): string {
    match action
    case Disable => "rule_disabled"
    case Delete => "rule_deleted"
    case _ => "rule_updated"
  }

  /** Close the rule's incident, if it has one. The update is guarded; the audit is not. */
  function IncidentClosed(db: Db, id: nat, action: Action, actor: nat, now: int): Db
    requires id in db.states
  {
    var active := db.states[id].state.active;
    if active.None? then db
    else
      var i := active.value;
      var incidents := if i in db.incidents && db.incidents[i].status == IsFiring
        then db.incidents[i := db.incidents[i].(status := Closed, closedAt := Some(now), reason := Reason(action))]
        else db.incidents;
      db.(incidents := incidents, audits := db.audits + [Resolved(i, Closed, actor)])
  }

  function Changed(db: Db, id: nat, actor: nat, action: Action, input: Input, now: int): (Db, Answer)
    requires action != Create
  {
    if !Live(db, id) || id !in db.states then (db, NotFound)
    else if db.rules[id].revision != input.revision then (db, Conflict)
    else
      var db1 := if action == Enable then db else IncidentClosed(db, id, action, actor, now);
      var r := db.rules[id];
      var st := db.states[id].state;
      var r' := Rule(if action == Update then input.spec else r.spec,
                     if action == Update then r.enabled else action == Enable,
                     r.revision + 1, action == Delete);
      if !r'.deleted && NameTaken(db.rules, r'.spec.name, id) then (db, Conflict)
      else
        var st' := if action == Enable && st.phase == Firing then st else Fresh(r'.enabled);
        (db1.(rules := db1.rules[id := r'],
              states := db1.states[id := Row(st', None, None, now)],
              audits := db1.audits + [RuleChanged(action, id, r'.revision, actor)]), Ok)
  }

  function Mutated(db: Db, id: nat, actor: nat, superAdmin: bool, action: Action, input: Input, now: int)
    : (Db, Answer)
  {
    if (if action in {Create, Update} then !ValidInput(input, action == Create) else input.revision == 0)
    then (db, Invalid)
    else if !superAdmin then (db, Denied)
    else if action == Create then Created(db, actor, input, now)
    else Changed(db, id, actor, action, input, now)
  }
}
