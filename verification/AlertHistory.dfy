/**
 The tables against the history. In every reachable state a rule is what its history of edits makes it, a lease and the
 next evaluation are what its last event says, and an incident tells the story of its evaluations.
 */
module AlertHistory {
  import opened Options
  import opened AlertModel
  import opened AlertCoupling
  import opened AlertProtocol
  import opened AlertEffects
  import opened AlertTheorems

  // Rules.

  function EditCount(h: seq<Event>): nat {
    if h == [] then 0 else EditCount(h[..|h| - 1]) + (if h[|h| - 1].Edited? then 1 else 0)
  }

  predicate Wrote(e: Event) { e.Edited? && e.action in {Create, Update} }

  predicate Switched(e: Event) { e.Edited? && e.action != Update }

  /** The last edit that wrote the rule's content, and the last one that decided whether it is enabled. */
  predicate LastWrite(h: seq<Event>, n: nat) { WrittenAt(h, n, |h|) }

  predicate WrittenAt(h: seq<Event>, n: nat, t: nat)
    requires t <= |h|
  {
    n < t && Wrote(h[n]) && forall j :: n < j < t ==> !Wrote(h[j])
  }

  predicate LastSwitch(h: seq<Event>, n: nat) {
    n < |h| && Switched(h[n]) && forall j :: n < j < |h| ==> !Switched(h[j])
  }

  predicate On(e: Event)
    requires e.Edited?
  {
    e.action == Enable || (e.action == Create && e.input.enabled == Some(true))
  }

  predicate Removed(h: seq<Event>) { exists n :: 0 <= n < |h| && h[n].Edited? && h[n].action == Delete }

  ghost predicate RuleTold(r: Rule, h: seq<Event>) {
    && r.revision == EditCount(h)
    && (exists n: nat :: LastWrite(h, n) && r.spec == h[n].input.spec)
    && (exists n: nat :: LastSwitch(h, n) && r.enabled == On(h[n]))
    && (r.deleted <==> Removed(h))
  }

  lemma WriteGrows(h: seq<Event>, e: Event, n: nat)
    ensures if Wrote(e) then LastWrite(h + [e], |h|) else (LastWrite(h, n) ==> LastWrite(h + [e], n))
    ensures if Switched(e) then LastSwitch(h + [e], |h|) else (LastSwitch(h, n) ==> LastSwitch(h + [e], n))
  {}

  lemma RemovedGrows(h: seq<Event>, e: Event)
    ensures Removed(h + [e]) <==> Removed(h) || (e.Edited? && e.action == Delete)
    ensures EditCount(h + [e]) == EditCount(h) + (if e.Edited? then 1 else 0)
  {
    assert (h + [e])[..|h|] == h;
    if Removed(h) {
      var n :| 0 <= n < |h| && h[n].Edited? && h[n].action == Delete;
      assert (h + [e])[n] == h[n];
    }
    if e.Edited? && e.action == Delete {
      assert (h + [e])[|h|] == e;
    }
  }

  /** A claim or an evaluation does not touch the rule. */
  lemma RuleStays(r: Rule, h: seq<Event>, e: Event)
    requires RuleTold(r, h) && !e.Edited?
    ensures RuleTold(r, h + [e])
  {
    var n: nat :| LastWrite(h, n) && r.spec == h[n].input.spec;
    var m: nat :| LastSwitch(h, m) && r.enabled == On(h[m]);
    WriteGrows(h, e, n);
    WriteGrows(h, e, m);
    RemovedGrows(h, e);
    assert (h + [e])[n] == h[n] && (h + [e])[m] == h[m];
  }

  lemma RuleEdited(db: Db, db': Db, id: nat, h: seq<Event>, e: Event)
    requires e.Edited? && id in db'.rules && (e.action == Create ==> e.input.enabled.Some? && h == [])
    requires e.action != Create ==> id in db.rules && RuleTold(db.rules[id], h) && !db.rules[id].deleted
    requires WrittenRight(db, db', id, e.action, e.input)
    ensures RuleTold(db'.rules[id], h + [e])
  {
    var h', r' := h + [e], db'.rules[id];
    RemovedGrows(h, e);
    if e.action in {Create, Update} {
      WriteGrows(h, e, 0);
      assert LastWrite(h', |h|) && r'.spec == h'[|h|].input.spec;
    } else {
      var n: nat :| LastWrite(h, n) && db.rules[id].spec == h[n].input.spec;
      WriteGrows(h, e, n);
      assert LastWrite(h', n) && r'.spec == h'[n].input.spec;
    }
    if e.action != Update {
      WriteGrows(h, e, 0);
      assert LastSwitch(h', |h|) && r'.enabled == On(h'[|h|]);
    } else {
      var m: nat :| LastSwitch(h, m) && db.rules[id].enabled == On(h[m]);
      WriteGrows(h, e, m);
      assert LastSwitch(h', m) && r'.enabled == On(h'[m]);
    }
  }

  // Leases and pace.

  /** What the last event of a rule says about its lease and its next evaluation. */
  predicate PaceTold(row: Row, h: seq<Event>, clock: int) {
    && h != []
    && match h[|h| - 1]
       case Edited(_, _, at) => at <= clock && row.next == at && row.owner == None && row.until == None
       case Judged(_, _, _, _, _, _, at) =>
         at <= clock && row.next == at + INTERVAL && row.owner == None && row.until == None
       case Leased(owner, at) =>
         at <= clock && row.next <= at && row.owner == Some(owner) && row.until == Some(at + LEASE)
  }

  // Incidents.

  function KnownCount(h: seq<Event>, t: nat, u: nat): nat
    requires t <= u <= |h|
  {
    if t == u then 0
    else KnownCount(h, t, u - 1) + (if h[u - 1].Judged? && h[u - 1].known then 1 else 0)
  }

  /** From t up to u the rule fires: every known value meets the condition, and nobody edits but to enable it. */
  predicate FiresFrom(h: seq<Event>, t: nat, u: nat)
    requires t <= u <= |h|
  {
    forall k :: t <= k < u ==>
      && (h[k].Judged? && h[k].known ==> h[k].met)
      && (h[k].Edited? ==> h[k].action == Enable)
  }

  predicate LastKnown(h: seq<Event>, p: nat, u: nat)
    requires u <= |h|
  {
    && p < u && h[p].Judged? && h[p].known
    && forall k :: p < k < u ==> !(h[k].Judged? && h[k].known)
  }

  /**
   An incident that began with the evaluation at t, had lasted up to u, and has counted so many of its evaluations;
   the last of these to meet the condition is the one at p.
   */
  predicate Lasting(inc: Incident, h: seq<Event>, t: nat, u: nat, p: nat, counted: nat) {
    && t < u <= |h| && h[t].Judged? && h[t].known && h[t].met
    && inc.firstTriggered == h[t].cutoff && inc.revision == h[t].revision
    && FiresFrom(h, t, u) && counted == KnownCount(h, t, u)
    && t <= p && LastKnown(h, p, u) && inc.lastTriggered == h[p].cutoff
  }

  /** How an incident goes on, or how it ended at u. */
  predicate Told(inc: Incident, h: seq<Event>, t: nat, u: nat, p: nat) {
    match inc.status
    case IsFiring =>
      && u == |h| && Lasting(inc, h, t, u, p, inc.evaluations)
      && inc.lastEvaluated == inc.lastTriggered && inc.value == h[p].value
      && inc.recoveredAt == None && inc.closedAt == None
    case Recovered =>
      && u < |h| && inc.evaluations > 0 && Lasting(inc, h, t, u, p, inc.evaluations - 1)
      && h[u].Judged? && h[u].known && !h[u].met
      && inc.recoveredAt == Some(h[u].cutoff) && inc.lastEvaluated == h[u].cutoff && inc.value == h[u].value
      && inc.closedAt == None
    case Closed =>
      && u < |h| && Lasting(inc, h, t, u, p, inc.evaluations)
      && h[u].Edited? && h[u].action in {Update, Disable, Delete}
      && inc.closedAt == Some(h[u].at) && inc.lastEvaluated == inc.lastTriggered && inc.value == h[p].value
      && inc.recoveredAt == None
      && inc.reason == (match h[u].action
                        case Disable => "rule_disabled"
                        case Delete => "rule_deleted"
                        case _ => "rule_updated")
  }

  /** The incident carries the rule as it was written when it fired. */
  ghost predicate Names(inc: Incident, h: seq<Event>, t: nat) {
    t <= |h| && exists n: nat :: WrittenAt(h, n, t) && inc.spec == h[n].input.spec
  }

  ghost predicate Story(inc: Incident, h: seq<Event>) {
    exists t: nat, u: nat, p: nat :: Told(inc, h, t, u, p) && Names(inc, h, t)
  }

  lemma NamesKept(inc: Incident, inc': Incident, h: seq<Event>, e: Event, t: nat)
    requires Names(inc, h, t) && inc'.spec == inc.spec
    ensures Names(inc', h + [e], t)
  {
    var n: nat :| WrittenAt(h, n, t) && inc.spec == h[n].input.spec;
    assert forall k :: 0 <= k < t ==> (h + [e])[k] == h[k];
    assert WrittenAt(h + [e], n, t);
  }

  /** How the next event of its rule moves a firing incident. */
  predicate Moves(inc: Incident, e: Event, inc': Incident) {
    match e
    case Leased(_, _) => inc' == inc
    case Edited(action, _, at) =>
      if action == Enable then inc' == inc
      else
        && action in {Update, Disable, Delete}
        && inc' == inc.(status := Closed, closedAt := Some(at), reason := inc'.reason)
        && inc'.reason == (match action
                           case Disable => "rule_disabled"
                           case Delete => "rule_deleted"
                           case _ => "rule_updated")
    case Judged(_, _, cutoff, known, met, value, _) =>
      if !known then inc' == inc
      else if met then inc' == inc.(lastTriggered := cutoff, lastEvaluated := cutoff, value := value,
                                    evaluations := inc.evaluations + 1)
      else inc' == inc.(status := Recovered, recoveredAt := Some(cutoff), lastEvaluated := cutoff,
                        value := value, evaluations := inc.evaluations + 1)
  }

  lemma {:induction false} KnownKept(h: seq<Event>, e: Event, t: nat, u: nat)
    requires t <= u <= |h|
    ensures KnownCount(h + [e], t, u) == KnownCount(h, t, u)
    ensures FiresFrom(h + [e], t, u) <==> FiresFrom(h, t, u)
    ensures forall p: nat :: LastKnown(h + [e], p, u) <==> LastKnown(h, p, u)
    decreases u
  {
    assert forall k :: 0 <= k < u ==> (h + [e])[k] == h[k];
    if t < u {
      KnownKept(h, e, t, u - 1);
    }
  }

  lemma LastingKept(inc: Incident, h: seq<Event>, e: Event, t: nat, u: nat, p: nat, counted: nat)
    requires Lasting(inc, h, t, u, p, counted)
    ensures Lasting(inc, h + [e], t, u, p, counted)
  {
    KnownKept(h, e, t, u);
  }

  /** What is over stays as it was told. */
  lemma OverStays(inc: Incident, h: seq<Event>, e: Event)
    requires Story(inc, h) && inc.status != IsFiring
    ensures Story(inc, h + [e])
  {
    hide Lasting;
    var t: nat, u: nat, p: nat :| Told(inc, h, t, u, p) && Names(inc, h, t);
    LastingKept(inc, h, e, t, u, p, if inc.status == Recovered then inc.evaluations - 1 else inc.evaluations);
    assert (h + [e])[u] == h[u];
    LastingBounds(inc, h, t, u, p, if inc.status == Recovered then inc.evaluations - 1 else inc.evaluations);
    assert (h + [e])[p] == h[p];
    assert Told(inc, h + [e], t, u, p);
    NamesKept(inc, inc, h, e, t);
  }

  lemma LastingBounds(inc: Incident, h: seq<Event>, t: nat, u: nat, p: nat, counted: nat)
    requires Lasting(inc, h, t, u, p, counted)
    ensures t <= p < u <= |h| && h[p].Judged?
  {}

  /** What a firing incident makes of the next event. */
  lemma FiringMoves(inc: Incident, h: seq<Event>, e: Event, inc': Incident)
    requires Story(inc, h) && inc.status == IsFiring && Moves(inc, e, inc')
    ensures Story(inc', h + [e])
  {
    var t: nat, u: nat, p: nat :| Told(inc, h, t, u, p) && Names(inc, h, t);
    KnownKept(h, e, t, u);
    NamesKept(inc, inc', h, e, t);
    hide Names;
    var h' := h + [e];
    assert h'[p] == h[p] && h'[|h|] == e && h'[t] == h[t];
    if inc'.status != IsFiring {
      assert Told(inc', h', t, u, p);
    } else {
      assert KnownCount(h', t, u + 1) == KnownCount(h', t, u) + (if e.Judged? && e.known then 1 else 0);
      var p' := if e.Judged? && e.known then |h| else p;
      assert FiresFrom(h', t, u + 1);
      assert LastKnown(h', p', u + 1);
      assert Told(inc', h', t, u + 1, p');
    }
  }

  lemma StoryBegins(inc: Incident, h: seq<Event>, e: Event)
    requires e.Judged? && e.known && e.met && inc.status == IsFiring
    requires inc.firstTriggered == inc.lastTriggered == inc.lastEvaluated == e.cutoff && inc.revision == e.revision
    requires inc.value == e.value && inc.evaluations == 1 && inc.recoveredAt == None && inc.closedAt == None
    requires Names(inc, h, |h|)
    ensures Story(inc, h + [e])
  {
    NamesKept(inc, inc, h, e, |h|);
    hide Names;
    var h', t := h + [e], |h|;
    assert h'[t] == e;
    assert KnownCount(h', t, t) == 0 && KnownCount(h', t, t + 1) == 1;
    assert Told(inc, h', t, t + 1, t);
  }

  // The whole system.

  ghost predicate RuleRecounted(sys: System, id: nat)
    requires id in sys.db.rules && id in sys.db.states
  {
    RuleTold(sys.db.rules[id], History(sys, id)) && PaceTold(sys.db.states[id], History(sys, id), sys.clock)
  }

  ghost predicate Storied(sys: System, i: nat)
    requires i in sys.db.incidents
  {
    Story(sys.db.incidents[i], History(sys, sys.db.incidents[i].rule))
  }

  ghost predicate RulesTold(sys: System) {
    forall id :: id in sys.db.rules ==> id in sys.db.states && RuleRecounted(sys, id)
  }

  ghost predicate StoriesTold(sys: System) { forall i :: i in sys.db.incidents ==> Storied(sys, i) }

  ghost predicate Recounted(sys: System) { RulesTold(sys) && StoriesTold(sys) }

  lemma RuleHere(sys: System, id: nat)
    requires RulesTold(sys) && id in sys.db.rules
    ensures id in sys.db.states && RuleTold(sys.db.rules[id], History(sys, id))
    ensures PaceTold(sys.db.states[id], History(sys, id), sys.clock)
  {
    hide RuleTold;
  }

  /** One event of one rule: its firing incident moves with it, the other incidents stay, and one may be new. */
  lemma StoriesGoOn(sys: System, sys': System, id: nat, e: Event)
    requires StoriesTold(sys) && sys'.history == Noted(sys, id, e)
    requires forall i :: i in sys.db.incidents ==> i in sys'.db.incidents
    requires forall i :: i in sys.db.incidents ==>
               if FiringFor(sys.db, i, id) then Moves(sys.db.incidents[i], e, sys'.db.incidents[i])
               else sys'.db.incidents[i] == sys.db.incidents[i]
    requires forall i :: i in sys'.db.incidents && i !in sys.db.incidents ==> Storied(sys', i)
    ensures StoriesTold(sys')
  {
    hide Story, Moves;
    forall i | i in sys.db.incidents ensures Storied(sys', i) {
      var inc, inc' := sys.db.incidents[i], sys'.db.incidents[i];
      assert Storied(sys, i);
      if FiringFor(sys.db, i, id) {
        MovesInPlace(inc, e, inc');
        FiringMoves(inc, History(sys, id), e, inc');
      } else if inc.rule == id {
        OverStays(inc, History(sys, id), e);
      }
    }
  }

  lemma MovesInPlace(inc: Incident, e: Event, inc': Incident)
    requires Moves(inc, e, inc')
    ensures inc'.rule == inc.rule
  {}

  /** The rules of the others stay as they were told. */
  lemma RulesGoOn(sys: System, sys': System, id: nat, e: Event)
    requires RulesTold(sys) && sys'.history == Noted(sys, id, e) && sys'.clock == sys.clock
    requires id in sys'.db.rules && id in sys'.db.states
    requires RuleTold(sys'.db.rules[id], History(sys, id) + [e])
    requires PaceTold(sys'.db.states[id], History(sys, id) + [e], sys.clock)
    requires sys'.db.rules == sys.db.rules[id := sys'.db.rules[id]]
    requires sys'.db.states == sys.db.states[id := sys'.db.states[id]]
    ensures RulesTold(sys')
  {
    hide Storied, RuleTold, PaceTold;
    forall other | other in sys'.db.rules ensures other in sys'.db.states && RuleRecounted(sys', other) {
      assert other != id ==> RuleRecounted(sys, other);
    }
  }

  lemma ClaimRecounts(sys: System, id: nat, owner: string)
    requires Safe(sys) && Recounted(sys)
    ensures Recounted(Exec(sys, Claim(id, owner)))
  {
    hide Safe, RulesTold, StoriesTold, RuleTold;
    var sys' := Exec(sys, Claim(id, owner));
    if sys' != sys {
      var e := Leased(owner, sys.clock);
      RuleHere(sys, id);
      RuleStays(sys.db.rules[id], History(sys, id), e);
      assert sys'.db.rules == sys.db.rules[id := sys'.db.rules[id]];
      RulesGoOn(sys, sys', id, e);
      StoriesGoOn(sys, sys', id, e);
    }
  }

  /** An applied evaluation moves the firing incident of its rule, or begins one, or leaves the incidents alone. */
  lemma ApplyRecounts(sys: System, owner: string, value: real, known: bool)
    requires Safe(sys) && Recounted(sys)
    ensures Recounted(Exec(sys, Apply(owner, value, known)))
  {
    hide Safe, RulesTold, StoriesTold, RuleTold, Coupled, Evaluated, Condition, Fenced, Judge;
    if CanApply(sys, owner) {
      var w := sys.works[owner];
      if Fenced(sys.db, w.rule, w.revision.value, owner, sys.clock) {
        FencedHere(sys, owner);
        var id, c, met := w.rule, w.cutoff.value, Condition(sys.db.rules[w.rule].spec, value);
        var e := Judged(owner, w.revision.value, c, known, met, value, sys.clock);
        var sys' := Exec(sys, Apply(owner, value, known));
        EvaluationFrame(sys.db, id, c, value, known, sys.clock);
        RuleHere(sys, id);
        RuleStays(sys.db.rules[id], History(sys, id), e);
        assert sys'.db.rules == sys.db.rules[id := sys'.db.rules[id]];
        assert sys'.db.states == sys.db.states[id := sys'.db.states[id]];
        RulesGoOn(sys, sys', id, e);
        EvaluationStories(sys, sys', id, e);
      }
    }
  }

  lemma FencedHere(sys: System, owner: string)
    requires Safe(sys) && CanApply(sys, owner)
    requires var w := sys.works[owner]; Fenced(sys.db, w.rule, w.revision.value, owner, sys.clock)
    ensures var w := sys.works[owner];
            && w.rule in sys.db.rules && w.rule in sys.db.states && sys.db.rules[w.rule].enabled
            && sys.db.rules[w.rule].revision == w.revision.value && Coupled(sys.db)
  {
    hide Coupled, RuleOk;
  }

  lemma EvaluationStories(sys: System, sys': System, id: nat, e: Event)
    requires Coupled(sys.db) && Recounted(sys) && id in sys.db.rules && sys.db.rules[id].enabled && id in sys.db.states
    requires e.Judged? && e.met == Condition(sys.db.rules[id].spec, e.value) && e.revision == sys.db.rules[id].revision
    requires sys'.history == Noted(sys, id, e)
    requires sys'.db == Evaluated(sys.db, id, e.cutoff, e.value, e.known, sys.clock)
    ensures StoriesTold(sys')
  {
    hide Story, Evaluated, Condition, RuleTold, RulesTold, StoriesTold, Coupled;
    EvaluationMeans(sys.db, id, e.cutoff, e.value, e.known, sys.clock);
    CoupledRule(sys.db, id);
    var db, db' := sys.db, sys'.db;
    if db.states[id].state.phase == Firing {
      ActiveIsFiring(db, id, db.states[id].state.active.value);
      StoriesGoOn(sys, sys', id, e);
    } else {
      NotFiringMeans(db, id, e.cutoff, e.value, e.known, sys.clock);
      TriggerMeans(db.rules[id], db.states[id].state, e.cutoff, e.value, e.known);
      if Fires(db, db', id, e.cutoff, e.value) {
        RuleHere(sys, id);
        RuleNames(db.rules[id], db'.incidents[db.nextIncident], History(sys, id));
        StoryBegins(db'.incidents[db.nextIncident], History(sys, id), e);
      }
      StoriesGoOn(sys, sys', id, e);
    }
  }

  lemma RuleNames(r: Rule, inc: Incident, h: seq<Event>)
    requires RuleTold(r, h) && inc.spec == r.spec
    ensures Names(inc, h, |h|)
  {
    var n: nat :| LastWrite(h, n) && r.spec == h[n].input.spec;
    assert WrittenAt(h, n, |h|);
  }

  lemma MutateRecounts(sys: System, id: nat, actor: nat, superAdmin: bool, action: Action, input: Input)
    requires Safe(sys) && Recounted(sys)
    ensures Recounted(Exec(sys, Mutate(id, actor, superAdmin, action, input)))
  {
    hide RulesTold, StoriesTold, RuleTold, Coupled, RuleOk, Mutated;
    var answer := Mutated(sys.db, id, actor, superAdmin, action, input, sys.clock).1;
    var sys' := Exec(sys, Mutate(id, actor, superAdmin, action, input));
    MutationFrame(sys.db, id, actor, superAdmin, action, input, sys.clock);
    if answer == Ok {
      MutationMeans(sys.db, id, actor, superAdmin, action, input, sys.clock);
      var target := if action == Create then sys.db.nextRule else id;
      EditRecounts(sys, sys', id, target, actor, Edited(action, input, sys.clock));
    }
  }

  lemma EditRecounts(sys: System, sys': System, id: nat, target: nat, actor: nat, e: Event)
    requires Safe(sys) && Recounted(sys) && e.Edited? && e.at == sys.clock
    requires MutatedRight(sys.db, sys'.db, id, actor, e.action, e.input, sys.clock)
    requires target == if e.action == Create then sys.db.nextRule else id
    requires sys' == sys.(db := sys'.db, history := Noted(sys, target, e))
    requires sys'.db.rules.Keys == sys.db.rules.Keys + {target} && sys'.db.states.Keys == sys.db.states.Keys + {target}
    requires forall other :: other in sys.db.rules && other != target ==> sys'.db.rules[other] == sys.db.rules[other]
    requires forall other :: other in sys.db.states && other != target ==> sys'.db.states[other] == sys.db.states[other]
    requires sys'.db.states[target] == Row(sys'.db.states[target].state, None, None, sys.clock)
    ensures Recounted(sys')
  {
    hide RulesTold, StoriesTold, RuleTold, Coupled, RuleOk, WrittenRight, StateReset, ClosedRight;
    var h := History(sys, target);
    if e.action != Create {
      RuleHere(sys, id);
    } else {
      assert target !in sys.db.rules ==> target !in sys.history;
    }
    RuleEdited(sys.db, sys'.db, target, h, e);
    assert sys'.db.rules == sys.db.rules[target := sys'.db.rules[target]];
    assert sys'.db.states == sys.db.states[target := sys'.db.states[target]];
    RulesGoOn(sys, sys', target, e);
    EditStories(sys, sys', id, target, actor, e);
  }

  lemma EditStories(sys: System, sys': System, id: nat, target: nat, actor: nat, e: Event)
    requires Coupled(sys.db) && StoriesTold(sys) && e.Edited? && e.at == sys.clock
    requires MutatedRight(sys.db, sys'.db, id, actor, e.action, e.input, sys.clock)
    requires target == if e.action == Create then sys.db.nextRule else id
    requires sys'.history == Noted(sys, target, e)
    ensures StoriesTold(sys')
  {
    hide StoriesTold, WrittenRight, StateReset, Coupled;
    if e.action == Create {
      forall i | FiringFor(sys.db, i, target) ensures false {
        FiringHasRule(sys.db, i);
      }
    } else {
      SameKeys(sys.db);
      CoupledRule(sys.db, id);
      FiringIsActive(sys.db, id);
    }
    StoriesGoOn(sys, sys', target, e);
  }

  lemma FiringHasRule(db: Db, i: nat)
    requires Coupled(db) && i in db.incidents && db.incidents[i].status == IsFiring
    ensures db.incidents[i].rule in db.rules && db.nextRule !in db.rules
  {
    hide RowOk, Registry, AllAudited;
  }

  lemma FiringIsActive(db: Db, id: nat)
    requires Coupled(db) && id in db.states
    ensures forall i: nat :: FiringFor(db, i, id) <==> db.states[id].state.active == Some(i)
  {
    hide RowOk, Registry, AllAudited;
  }

  lemma PlainRecounts(sys: System, step: Step)
    requires Recounted(sys) && (step.Tick? || step.Fetch? || step.Cut?)
    ensures Recounted(Exec(sys, step))
  {
    hide Story, RuleTold;
    var sys' := Exec(sys, step);
    forall id | id in sys'.db.rules ensures id in sys'.db.states && RuleRecounted(sys', id) {
      assert RuleRecounted(sys, id);
    }
    forall i | i in sys'.db.incidents ensures Storied(sys', i) {
      assert Storied(sys, i);
    }
  }

  lemma {:induction false} RunRecounts(sys: System, steps: seq<Step>)
    requires Safe(sys) && Recounted(sys)
    ensures Safe(Run(sys, steps)) && Recounted(Run(sys, steps))
    decreases |steps|
  {
    hide Safe, Recounted, Exec;
    if steps != [] {
      StepSafe(sys, steps[0]);
      match steps[0] {
        case Claim(id, owner) => ClaimRecounts(sys, id, owner);
        case Apply(owner, value, known) => ApplyRecounts(sys, owner, value, known);
        case Mutate(id, actor, superAdmin, action, input) =>
          MutateRecounts(sys, id, actor, superAdmin, action, input);
        case _ => PlainRecounts(sys, steps[0]);
      }
      RunRecounts(Exec(sys, steps[0]), steps[1..]);
    }
  }

  // Over every run.

  lemma Reachable(steps: seq<Step>)
    ensures Safe(Run(INITIAL, steps)) && Recounted(Run(INITIAL, steps))
  {
    InitialSafe();
    RunRecounts(INITIAL, steps);
  }

  /**
   A rule is what its history made it: its content that of the last creation or update, enabled as it was last
   switched, at a revision that counts its edits, and deleted if one of them deleted it.
   */
  lemma RuleIsItsHistory(steps: seq<Step>, id: nat)
    requires id in Run(INITIAL, steps).db.rules
    ensures var sys := Run(INITIAL, steps); RuleTold(sys.db.rules[id], History(sys, id))
  {
    Reachable(steps);
    hide Run, Safe, RuleTold;
    RuleHere(Run(INITIAL, steps), id);
  }

  /** A rule is due from its edit on, thirty seconds after an evaluation, ten after a claim that came to nothing. */
  predicate Overdue(h: seq<Event>, now: int)
    requires h != []
  {
    match h[|h| - 1]
    case Edited(_, _, _) => true
    case Judged(_, _, _, _, _, _, at) => at + INTERVAL <= now
    case Leased(_, at) => at + LEASE <= now
  }

  /**
   Every rule keeps being evaluated: a claim succeeds if and only if the rule is neither removed nor switched off and
   is due after the last thing that happened to it. A worker that dies holds it up for ten seconds.
   */
  lemma ClaimedIffOverdue(steps: seq<Step>, id: nat)
    requires id in Run(INITIAL, steps).db.rules
    ensures var sys := Run(INITIAL, steps);
            var h := History(sys, id);
            && h != []
            && (Claimable(sys.db, id, sys.clock)
                <==> !Removed(h) && (exists n: nat :: LastSwitch(h, n) && On(h[n])) && Overdue(h, sys.clock))
  {
    Reachable(steps);
    hide Run, Safe, RuleTold;
    var sys := Run(INITIAL, steps);
    RuleHere(sys, id);
    RuleSwitched(sys.db.rules[id], History(sys, id));
    hide LastSwitch, Removed;
  }

  lemma RuleSwitched(r: Rule, h: seq<Event>)
    requires RuleTold(r, h)
    ensures r.deleted <==> Removed(h)
    ensures r.enabled <==> exists n: nat :: LastSwitch(h, n) && On(h[n])
  {
    hide Removed;
    var n: nat :| LastSwitch(h, n) && r.enabled == On(h[n]);
    forall m: nat | LastSwitch(h, m) ensures m == n {
      OneLastSwitch(h, m, n);
    }
  }

  lemma OneLastSwitch(h: seq<Event>, m: nat, n: nat)
    requires LastSwitch(h, m) && LastSwitch(h, n)
    ensures m == n
  {}

  /**
   An incident tells the story of its evaluations. It began at an evaluation that met the condition, under the rule as
   it was written then; it counts the known evaluations since, and shows the last. It recovered at the first that did
   not meet the condition, or was closed by the first edit that did not just enable the rule; else it still goes on.
   */
  lemma IncidentIsItsStory(steps: seq<Step>, i: nat)
    requires i in Run(INITIAL, steps).db.incidents
    ensures var sys := Run(INITIAL, steps); Story(sys.db.incidents[i], History(sys, sys.db.incidents[i].rule))
  {
    Reachable(steps);
    hide Run, Safe, Story;
    assert Storied(Run(INITIAL, steps), i);
  }

  lemma RunFirst(sys: System, first: Step, rest: seq<Step>)
    ensures Run(sys, [first] + rest) == Run(Exec(sys, first), rest)
  {
    hide Exec;
    assert ([first] + rest)[1..] == rest;
  }

  lemma FiveSteps(sys: System, a: Step, b: Step, c: Step, d: Step, e: Step)
    ensures Run(sys, [a, b, c, d, e]) == Exec(Exec(Exec(Exec(Exec(sys, a), b), c), d), e)
  {
    var s1 := Exec(sys, a);
    var s2 := Exec(s1, b);
    var s3 := Exec(s2, c);
    var s4 := Exec(s3, d);
    hide Exec;
    RunFirst(sys, a, [b, c, d, e]);
    RunFirst(s1, b, [c, d, e]);
    RunFirst(s2, c, [d, e]);
    RunFirst(s3, d, [e]);
    RunFirst(s4, e, []);
    assert [e] == [e] + [];
  }

  /** The first rule, as it is created. */
  lemma FirstRule(elapsed: nat, input: Input, actor: nat)
    requires ValidInput(input, true) && input.enabled == Some(true)
    ensures var sys := Exec(Exec(INITIAL, Tick(elapsed)), Mutate(0, actor, true, Create, input));
            && sys.db.rules == map[1 := Rule(input.spec, true, 1, false)]
            && sys.db.states == map[1 := Row(Fresh(true), None, None, elapsed)]
            && sys.db.incidents == map[] && sys.clock == elapsed && sys.works == map[]
  {
    hide ValidInput;
    assert LiveRules(INITIAL.db.rules) == {};
  }

  lemma FirstClaim(sys: System, owner: string)
    requires sys.works == map[] && Claimable(sys.db, 1, sys.clock)
    ensures var sys' := Exec(Exec(Exec(sys, Claim(1, owner)), Fetch(owner)), Cut(owner));
            && sys'.db == Claimed(sys.db, 1, owner, sys.clock) && sys'.clock == sys.clock
            && owner in sys'.works
            && sys'.works[owner] == Work(1, sys.clock, Some(sys.db.rules[1].revision), Some(sys.clock - DELAY))
  {}

  lemma ClaimFires(sys: System, elapsed: nat, spec: Spec, owner: string, value: real)
    requires CanApply(sys, owner) && sys.works[owner] == Work(1, elapsed, Some(1), Some(elapsed - DELAY))
    requires sys.clock == elapsed && spec.hold == 0 && Condition(spec, value)
    requires sys.db.rules == map[1 := Rule(spec, true, 1, false)] && sys.db.incidents == map[]
    requires sys.db.states == map[1 := Row(Fresh(true), Some(owner), Some(elapsed + LEASE), elapsed)]
    ensures Fires(sys.db, Exec(sys, Apply(owner, value, true)).db, 1, elapsed - DELAY, value)
  {
    hide Condition;
  }

  /** The theorems are not empty: a rule without a hold can be claimed as soon as it is there, and fires at once. */
  lemma FiresAtOnce(elapsed: nat, input: Input, actor: nat, owner: string, value: real)
    requires ValidInput(input, true) && input.enabled == Some(true) && input.spec.hold == 0
    requires Condition(input.spec, value)
    ensures var sys := Run(INITIAL, [Tick(elapsed), Mutate(0, actor, true, Create, input), Claim(1, owner),
                                     Fetch(owner), Cut(owner)]);
            CanApply(sys, owner) && Fires(sys.db, Exec(sys, Apply(owner, value, true)).db, 1, elapsed - DELAY, value)
  {
    hide ValidInput, Condition, Exec, Run;
    var start := Exec(Exec(INITIAL, Tick(elapsed)), Mutate(0, actor, true, Create, input));
    FirstRule(elapsed, input, actor);
    FirstClaim(start, owner);
    FiveSteps(INITIAL, Tick(elapsed), Mutate(0, actor, true, Create, input), Claim(1, owner), Fetch(owner), Cut(owner));
    ClaimFires(Exec(Exec(Exec(start, Claim(1, owner)), Fetch(owner)), Cut(owner)), elapsed, input.spec, owner, value);
  }
}
