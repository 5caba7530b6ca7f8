/** The alert repository: the three transactions, run on the tables in place. */
module AlertStore {
  import opened Options
  import opened AlertModel

  class Store {
    var rules: map<nat, Rule>
    var states: map<nat, Row>
    var incidents: map<nat, Incident>
    var audits: seq<Audit>
    var nextRule: nat
    var nextIncident: nat

    ghost function Snapshot(): Db
      reads this
    {
      Db(rules, states, incidents, audits, nextRule, nextIncident)
    }

    constructor ()
      ensures Snapshot() == Db(map[], map[], map[], [], 1, 1)
    {
      rules, states, incidents, audits, nextRule, nextIncident := map[], map[], map[], [], 1, 1;
    }

    method Claim(id: nat, owner: string, now: int) returns (won: bool)
      modifies this`states
      ensures won == Claimable(old(Snapshot()), id, now)
      ensures Snapshot() == Claimed(old(Snapshot()), id, owner, now)
    {
      won := false;
      if id in rules && id in states && !rules[id].deleted && rules[id].enabled {
        var row := states[id];
        if row.next <= now && (row.until.None? || row.until.value <= now) {
          states := states[id := row.(owner := Some(owner), until := Some(now + LEASE))];
          won := true;
        }
      }
    }

    method Apply(id: nat, revision: nat, owner: string, cutoff: int, value: real, known: bool, now: int)
      modifies this
      ensures Snapshot() == Applied(old(Snapshot()), id, revision, owner, cutoff, value, known, now)
    {
      if id !in rules || id !in states || rules[id].deleted { return; }
      var r, row := rules[id], states[id];
      if row.owner != Some(owner) || row.until.None? || row.until.value <= now || r.revision != revision || !r.enabled {
        return;
      }
      var st := row.state.(lastEvaluated := Some(cutoff), error := None, data := Known);
      if !known {
        st := st.(error := Some(r.spec.source), data := Unknown);
        if st.phase == Firing {
          st := st.(data := Stale);
        } else {
          st := st.(phase := Normal, pendingSince := None);
        }
      } else {
        st := st.(lastSuccess := Some(cutoff), lastValue := Some(value));
        if !Condition(r.spec, value) {
          if st.active.Some? {
            var i := st.active.value;
            if i in incidents {
              incidents := incidents[i := incidents[i].(status := Recovered, recoveredAt := Some(cutoff),
                                                        lastEvaluated := cutoff, value := value,
                                                        evaluations := incidents[i].evaluations + 1)];
            }
            audits := audits + [Resolved(i, Recovered, 0)];
          }
          st := st.(phase := Normal, pendingSince := None, active := None);
        } else if st.phase == Firing {
          if st.active.None? { return; }
          var i := st.active.value;
          if i in incidents {
            incidents := incidents[i := incidents[i].(lastTriggered := cutoff, lastEvaluated := cutoff, value := value,
                                                      evaluations := incidents[i].evaluations + 1)];
          }
        } else {
          if st.pendingSince.None? || row.state.lastEvaluated.None?
             || cutoff - row.state.lastEvaluated.value > MAX_GAP {
            st := st.(pendingSince := Some(cutoff));
          }
          st := st.(phase := Pending);
          if cutoff - st.pendingSince.value >= r.spec.hold * SECOND {
            var i := nextIncident;
            incidents := incidents[i := Incident(id, r.revision, r.spec, IsFiring, cutoff, cutoff, cutoff,
                                                 None, None, "", value, 1)];
            nextIncident := i + 1;
            st := st.(active := Some(i), phase := Firing, pendingSince := None);
            audits := audits + [Triggered(i)];
          }
        }
      }
      states := states[id := Row(st, None, None, now + INTERVAL)];
    }

    method CloseIncident(id: nat, action: Action, actor: nat, now: int)
      requires id in states
      modifies this`incidents, this`audits
      ensures Snapshot() == IncidentClosed(old(Snapshot()), id, action, actor, now)
    {
      var active := states[id].state.active;
      if active.None? { return; }
      var i := active.value;
      if i in incidents && incidents[i].status == IsFiring {
        incidents := incidents[i := incidents[i].(status := Closed, closedAt := Some(now), reason := Reason(action))];
      }
      audits := audits + [Resolved(i, Closed, actor)];
    }

    method Mutate(id: nat, actor: nat, superAdmin: bool, action: Action, input: Input, now: int) returns (a: Answer)
      modifies this
      ensures (Snapshot(), a) == Mutated(old(Snapshot()), id, actor, superAdmin, action, input, now)
    {
      hide Control, Space;
      var create := action == Create;
      if create || action == Update {
        if !ValidInput(input, create) { return Invalid; }
      } else if input.revision == 0 {
        return Invalid;
      }
      if !superAdmin { return Denied; }
      if create {
        a := Insert(actor, input, now);
      } else {
        a := Change(id, actor, action, input, now);
      }
    }

    method Insert(actor: nat, input: Input, now: int) returns (a: Answer)
      requires input.enabled.Some?
      modifies this
      ensures (Snapshot(), a) == Created(old(Snapshot()), actor, input, now)
    {
      var live := set id | id in rules && !rules[id].deleted;
      assert live == LiveRules(rules);
      if |live| >= MAX_RULES { return LimitReached; }
      var id := nextRule;
      if exists other :: other in rules && other != id && !rules[other].deleted
                         && rules[other].spec.name == input.spec.name {
        return Conflict;
      }
      rules := rules[id := Rule(input.spec, input.enabled.value, 1, false)];
      nextRule := id + 1;
      var phase := Normal;
      if !input.enabled.value {
        phase := Disabled;
      }
      states := states[id := Row(State(phase, Unknown, None, None, None, None, None, None), None, None, now)];
      audits := audits + [RuleChanged(Create, id, 1, actor)];
      return Ok;
    }

    method Change(id: nat, actor: nat, action: Action, input: Input, now: int) returns (a: Answer)
      requires action != Create
      modifies this
      ensures (Snapshot(), a) == Changed(old(Snapshot()), id, actor, action, input, now)
    {
      if id !in rules || id !in states || rules[id].deleted { return NotFound; }
      var r, row := rules[id], states[id];
      if r.revision != input.revision { return Conflict; }
      var incidents0, audits0 := incidents, audits;
      if action != Enable {
        CloseIncident(id, action, actor, now);
      }
      if action == Update {
        r := r.(spec := input.spec);
      } else {
        r := r.(enabled := action == Enable);
      }
      r := r.(revision := r.revision + 1, deleted := action == Delete);
      if !r.deleted && exists other :: other in rules && other != id && !rules[other].deleted
                                       && rules[other].spec.name == r.spec.name {
        incidents, audits := incidents0, audits0;
        return Conflict;
      }
      rules := rules[id := r];
      var st := row.state;
      if action != Enable || st.phase != Firing {
        st := Fresh(r.enabled);
      }
      states := states[id := Row(st, None, None, now)];
      audits := audits + [RuleChanged(action, id, r.revision, actor)];
      return Ok;
    }
  }
}
