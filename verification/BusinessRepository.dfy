/**
 The repository as the service runs it: tables changed in place, a rollback where a transaction
 fails half way, and loops over query results. Each method is the transition of the same name.
 Where a query has an order, the loops are proved for every order.
 */
module BusinessRepository {
  import opened Options
  import opened MapSums
  import opened Identifiers
  import opened BusinessState
  import opened LedgerInvariant

  datatype Amount = Amount(groups: nat, bytes: nat)

  class Repository {
    const limits: Limits
    var reqs: map<ReqKey, Req>
    var apps: map<AppKey, AppRow>
    var commands: map<CommandKey, CommandRow>
    var failures: set<FailureKey>
    var parking: map<ParkKey, Parked>
    var budget: map<string, Budget>

    ghost function State(): Store
      reads this
    {
      Store(reqs, apps, commands, failures, parking, budget)
    }

    constructor (limits: Limits)
      ensures State() == EMPTY && this.limits == limits
    {
      this.limits := limits;
      reqs, apps, commands, failures, parking, budget := map[], map[], map[], {}, map[], map[];
    }

    static lemma WrapPlus(a: nat, b: nat)
      ensures Wrap(0) == 0 && Wrap(Wrap(a) + b) == Wrap(a + b)
    {}

    /** Scan all budget rows under lock. The sums are unsigned 64-bit sums. */
    method ScanBudgets(epoch: string) returns (found: bool, open: nat, groups: nat, bytes: nat)
      ensures found == (epoch in budget)
      ensures found ==> open == budget[epoch].open
      ensures groups == Wrap(Sum(budget, GroupsOf())) && bytes == Wrap(Sum(budget, BytesOf()))
    {
      hide Sum, Wrap;
      found, open, groups, bytes := false, 0, 0, 0;
      var rest := budget;
      ghost var g: nat, b: nat := 0, 0;
      WrapPlus(0, 0);
      while rest != map[]
        invariant forall e :: e in rest ==> e in budget && rest[e] == budget[e]
        invariant found == (epoch in budget && epoch !in rest)
        invariant found ==> open == budget[epoch].open
        invariant g + Sum(rest, GroupsOf()) == Sum(budget, GroupsOf()) && groups == Wrap(g)
        invariant b + Sum(rest, BytesOf()) == Sum(budget, BytesOf()) && bytes == Wrap(b)
        decreases |rest|
      {
        var e :| e in rest;
        SumRemove(rest, GroupsOf(), e);
        SumRemove(rest, BytesOf(), e);
        if e == epoch {
          found, open := true, rest[e].open;
        }
        WrapPlus(g, rest[e].groups);
        WrapPlus(b, rest[e].bytes);
        groups, bytes := Wrap(groups + rest[e].groups), Wrap(bytes + rest[e].bytes);
        g, b := g + rest[e].groups, b + rest[e].bytes;
        rest := rest - {e};
      }
      SumEmpty(rest, GroupsOf());
      SumEmpty(rest, BytesOf());
    }

    method EnsureBudget(epoch: string)
      modifies this`budget
      ensures budget == Ensured(old(budget), epoch)
    {
      if epoch !in budget {
        budget := budget[epoch := ZERO];
      }
    }

    /** The update of the charge; false when a check constraint rejects the row. */
    method Account(epoch: string, charge: nat) returns (ok: bool)
      requires epoch in budget
      modifies this`budget
      ensures var b := old(budget)[epoch];
              var b' := b.(open := b.open + 1, groups := b.groups + 1, bytes := b.bytes + charge);
              ok == RowAllowed(b') && budget == if ok then old(budget)[epoch := b'] else old(budget)
    {
      var b := budget[epoch];
      b := b.(open := b.open + 1, groups := b.groups + 1, bytes := b.bytes + charge);
      ok := RowAllowed(b);
      if ok {
        budget := budget[epoch := b];
      }
    }

    method RegisterRequirement(q: Requirement) returns (o: Outcome)
      modifies this
      ensures (State(), o) == Registered(limits, old(State()), q)
    {
      hide Sum, ValidRequirement;
      if !ValidRequirement(q) {
        return Invalid;
      }
      var payload := if q.payload == 0 then 1 else q.payload;
      IsPayload(q);
      if q.key in reqs {
        return Done;
      }
      var reqs0, budget0 := reqs, budget;
      reqs := reqs[q.key := Req(q.version, payload, None, None, true, false)];
      EnsureBudget(q.key.epoch);
      var _, open, groups, bytes := ScanBudgets(q.key.epoch);
      var charge := Cost(payload);
      if open >= limits.open || groups >= limits.groups || charge > limits.bytes || bytes > limits.bytes - charge {
        reqs, budget := reqs0, budget0;
        return BudgetExceeded;
      }
      var ok := Account(q.key.epoch, charge);
      if !ok {
        reqs, budget := reqs0, budget0;
        return StoreError;
      }
      return Done;
    }

    static lemma IsPayload(q: Requirement)
      requires ValidRequirement(q)
      ensures q.payload >= 0
    {}

    /** Insert the receipt and the requirement. What it inserted is undone by the caller's rollback. */
    method ReservePostCreate(r: Reservation) returns (o: Outcome)
      modifies this`commands, this`reqs
      ensures var c := r.command;
              o == if !ValidReservation(r) then Invalid
                   else if c.key in old(commands) then StoreError
                   else if KeyHashTaken(old(State()), r) then (if c.keyHash.Some? then CommandExists else StoreError)
                   else if r.requirement.key in old(reqs) then StoreError
                   else Done
      ensures o == Done ==>
                var c := r.command;
                && commands == old(commands)[c.key := CommandRow(c.user, c.kind, r.keyHash, r.digest, c.post,
                                               Some(c.event), "succeeded", Some(r.now + RETENTION))]
                && reqs == old(reqs)[r.requirement.key := Req(r.requirement.version, r.payload, None, None, true,
                                                              false)]
    {
      hide ValidCommand, ValidRequirement, ValidDigest;
      if !ValidReservation(r) {
        return Invalid;
      }
      var c := r.command;
      if c.key in commands {
        return StoreError;
      }
      if r.keyHash.Some? && exists k :: k in commands && k.epoch == c.key.epoch && commands[k].user == c.user
                                        && commands[k].kind == c.kind && commands[k].keyHash == r.keyHash {
        return if c.keyHash.Some? then CommandExists else StoreError;
      }
      commands := commands[c.key := CommandRow(c.user, c.kind, r.keyHash, r.digest, c.post, Some(c.event),
                                               "succeeded", Some(r.now + RETENTION))];
      if r.requirement.key in reqs {
        return StoreError;
      }
      reqs := reqs[r.requirement.key := Req(r.requirement.version, r.payload, None, None, true, false)];
      return Done;
    }

    /** Charge the reservation under the budget lock. */
    method AccountPostCreate(r: Reservation) returns (o: Outcome)
      requires ValidReservation(r)
      modifies this`budget
      ensures var ready := Ensured(old(budget), r.command.key.epoch);
              o == if !Affordable(limits, ready, r.command.key.epoch, r.payload) then BudgetExceeded
                   else if !RowAllowed(Charge(ready[r.command.key.epoch], r.payload)) then StoreError
                   else Done
      ensures o == Done ==>
                var ready := Ensured(old(budget), r.command.key.epoch);
                budget == ready[r.command.key.epoch := Charge(ready[r.command.key.epoch], r.payload)]
    {
      hide Sum, ValidCommand, ValidRequirement, ValidDigest;
      EnsureBudget(r.command.key.epoch);
      var found, open, groups, bytes := ScanBudgets(r.command.key.epoch);
      if !found || open >= limits.open || groups >= limits.groups || Cost(r.payload) > limits.bytes
         || bytes > limits.bytes - Cost(r.payload) {
        return BudgetExceeded;
      }
      var ok := Account(r.command.key.epoch, Cost(r.payload));
      return if ok then Done else StoreError;
    }

    static function Charge(b: Budget, payload: nat): Budget {
      b.(open := b.open + 1, groups := b.groups + 1, bytes := b.bytes + Cost(payload))
    }

    method CreatePost(r: Reservation) returns (o: Outcome)
      modifies this
      ensures (State(), o) == Created(limits, old(State()), r)
    {
      hide Sum, ValidReservation, KeyHashTaken, Affordable;
      var commands0, reqs0, budget0 := commands, reqs, budget;
      o := ReservePostCreate(r);
      if o == Done {
        o := AccountPostCreate(r);
      }
      if o != Done {
        commands, reqs, budget := commands0, reqs0, budget0;
      }
    }

    method RecordApplication(a: Application, now: int) returns (o: Outcome)
      modifies this
      ensures (State(), o) == Applied(old(State()), a, now)
    {
      hide ValidApplication;
      if !ValidApplication(a) {
        return Invalid;
      }
      var completedAt := now;
      if a.completedAt.Some? {
        completedAt := a.completedAt.value;
      }
      var k := a.key.req;
      if k !in reqs {
        return RequirementAbsent;
      }
      var r := reqs[k];
      var inserted := a.key !in apps;
      var apps0 := apps;
      if inserted {
        apps := apps[a.key := AppRow(a.result, a.version, completedAt)];
      }
      if !inserted || r.closedAt.Some? {
        return Done;
      }
      reqs := reqs[k := r.(closedAt := Some(completedAt), retainUntil := Some(completedAt + RETENTION),
                           reserved := true)];
      if k.epoch in budget {
        var b := budget[k.epoch];
        b := b.(open := if b.open > 0 then b.open - 1 else 0);
        if !r.reserved {
          b := b.(groups := b.groups + 1, bytes := b.bytes + Cost(r.payload));
        }
        if !RowAllowed(b) {
          reqs, apps := reqs[k := r], apps0;
          assert reqs == old(reqs);
          return StoreError;
        }
        budget := budget[k.epoch := b];
      }
      return Done;
    }

    static ghost function Held(totals: map<string, Amount>, e: string): Amount {
      if e in totals then totals[e] else Amount(0, 0)
    }

    static function Added(totals: map<string, Amount>, k: ReqKey, r: Req): (t: map<string, Amount>)
      ensures k.epoch in t
    {
      var v := if k.epoch in totals then totals[k.epoch] else Amount(0, 0);
      totals[k.epoch := Amount(v.groups + 1, v.bytes + Cost(r.payload))]
    }

    static lemma OneAdded(totals: map<string, Amount>, rest: map<ReqKey, Req>, k: ReqKey, e: string,
                          ids: seq<string>, now: int)
      requires k in rest && Due(k, rest[k], ids, now)
      ensures var t := Added(totals, k, rest[k]);
              && Held(t, e).groups + Sum(rest - {k}, DueGroups(e, ids, now))
                 == Held(totals, e).groups + Sum(rest, DueGroups(e, ids, now))
              && Held(t, e).bytes + Sum(rest - {k}, DueBytes(e, ids, now))
                 == Held(totals, e).bytes + Sum(rest, DueBytes(e, ids, now))
    {
      hide Sum;
      SumRemove(rest, DueGroups(e, ids, now), k);
      SumRemove(rest, DueBytes(e, ids, now), k);
    }

    static lemma DueRows(reqs: map<ReqKey, Req>, rows: map<ReqKey, Req>, e: string, ids: seq<string>, now: int)
      requires rows == map k | k in reqs && Due(k, reqs[k], ids, now) :: reqs[k]
      ensures Sum(rows, DueGroups(e, ids, now)) == Sum(reqs, DueGroups(e, ids, now))
      ensures Sum(rows, DueBytes(e, ids, now)) == Sum(reqs, DueBytes(e, ids, now))
    {
      hide Sum, Due;
      var gone := set k | k in reqs && !Due(k, reqs[k], ids, now);
      assert rows == reqs - gone;
      SumDrop(reqs, DueGroups(e, ids, now), gone);
      SumDrop(reqs, DueBytes(e, ids, now), gone);
    }

    /** The per-epoch totals of the locked rows, in whichever order the rows arrive. */
    method Totals(ids: seq<string>, now: int) returns (totals: map<string, Amount>)
      ensures forall e :: Held(totals, e) == Amount(Sum(reqs, DueGroups(e, ids, now)), Sum(reqs, DueBytes(e, ids, now)))
      ensures totals == map[] ==> forall k :: k in reqs ==> !Due(k, reqs[k], ids, now)
    {
      hide Sum, Due;
      totals := map[];
      var rest := map k | k in reqs && Due(k, reqs[k], ids, now) :: reqs[k];
      ghost var rows := rest;
      while rest != map[]
        invariant forall k :: k in rest ==> k in reqs && rest[k] == reqs[k] && Due(k, reqs[k], ids, now)
        invariant forall e :: Held(totals, e).groups + Sum(rest, DueGroups(e, ids, now))
                              == Sum(rows, DueGroups(e, ids, now))
        invariant forall e :: Held(totals, e).bytes + Sum(rest, DueBytes(e, ids, now))
                              == Sum(rows, DueBytes(e, ids, now))
        invariant totals == map[] ==> rest == rows
        decreases |rest|
      {
        var k :| k in rest;
        ghost var totals0, rest0 := totals, rest;
        totals := Added(totals, k, rest[k]);
        rest := rest - {k};
        forall e
          ensures Held(totals, e).groups + Sum(rest, DueGroups(e, ids, now)) == Sum(rows, DueGroups(e, ids, now))
          ensures Held(totals, e).bytes + Sum(rest, DueBytes(e, ids, now)) == Sum(rows, DueBytes(e, ids, now))
        {
          OneAdded(totals0, rest0, k, e, ids, now);
        }
      }
      forall e
        ensures Held(totals, e) == Amount(Sum(reqs, DueGroups(e, ids, now)), Sum(reqs, DueBytes(e, ids, now)))
      {
        SumEmpty(rest, DueGroups(e, ids, now));
        SumEmpty(rest, DueBytes(e, ids, now));
        DueRows(reqs, rows, e, ids, now);
      }
    }

    static ghost function Lowered(b: Budget, v: Amount): Budget {
      b.(groups := Less(b.groups, v.groups), bytes := Less(b.bytes, v.bytes))
    }

    method Discharge(totals: map<string, Amount>)
      modifies this`budget
      ensures budget == map e | e in old(budget) :: Lowered(old(budget)[e], Held(totals, e))
    {
      var epochs := totals.Keys;
      while epochs != {}
        invariant epochs <= totals.Keys
        invariant budget.Keys == old(budget).Keys
        invariant forall e :: e in budget ==>
                    budget[e] == if e in epochs then old(budget)[e] else Lowered(old(budget)[e], Held(totals, e))
        decreases |epochs|
      {
        var e :| e in epochs;
        if e in budget {
          var b, v := budget[e], totals[e];
          budget := budget[e := b.(groups := Less(b.groups, v.groups), bytes := Less(b.bytes, v.bytes))];
        }
        epochs := epochs - {e};
      }
    }

    method ReleaseRetention(ids: seq<string>, now: int) returns (o: Outcome)
      modifies this
      ensures (State(), o) == Released(old(State()), ids, now)
    {
      hide Sum, ValidUuid, Due;
      if exists id :: id in ids && !ValidUuid(id) {
        return Invalid;
      }
      var totals := Totals(ids, now);
      ghost var s := State();
      assert forall e :: e in budget ==> Discharged(s, e, ids, now) == Lowered(budget[e], Held(totals, e));
      if totals == map[] {
        assert Marked(reqs, ids, now) == reqs;
        assert budget == map e | e in s.budget :: Discharged(s, e, ids, now);
        return Done;
      }
      reqs := Marked(reqs, ids, now);
      Discharge(totals);
      assert budget == map e | e in s.budget :: Discharged(s, e, ids, now);
      return Done;
    }

    /** The query results are arguments: the picked rows, and the receipts without an event. */
    method CleanupExpired(batch: int, picked: seq<ReqKey>, orphans: set<CommandKey>,
                          ghost outbox: set<string>, ghost locked: set<ReqKey>, ghost now: int)
      returns (o: Outcome, count: int)
      requires Picked(State(), batch, picked, outbox, now) && Filled(State(), batch, picked, outbox, now, locked)
      requires Orphans(WithoutEvents(State(), Events(picked)), batch, orphans, now)
      requires OrphansFilled(WithoutEvents(State(), Events(picked)), batch, orphans, now)
      modifies this
      ensures (State(), o) == Cleaned(old(State()), batch, picked, orphans)
      ensures count == if o == Done then |picked| + |orphans| else 0
      ensures o == Done ==> forall k :: Eligible(State(), outbox, now, k) ==>
                k in locked || (|picked| == batch && NoneLater(old(State()), picked, k))
      ensures o == Done ==> forall c :: Orphan(State(), now, c) ==>
                |orphans| == batch && OrphansFirst(old(State()), orphans, c)
    {
      if 1 <= batch <= 500 {
        CleanupExhausts(State(), batch, picked, orphans, outbox, now, locked);
      }
      hide Picked, Orphans, Orphan, Eligible, Filled, NoneLater, OrphansFilled, OrphansFirst;
      if batch < 1 || batch > 500 {
        return Invalid, 0;
      }
      var ids := {};
      for i := 0 to |picked|
        invariant ids == Events(picked[..i])
      {
        assert Events(picked[..i + 1]) == Events(picked[..i]) + {picked[i].event} by {
          assert picked[..i + 1][i] == picked[i];
          assert forall j :: 0 <= j < i ==> picked[..i + 1][j] == picked[..i][j];
        }
        ids := ids + {picked[i].event};
      }
      assert picked[..|picked|] == picked;
      apps := map k | k in apps && k.req.event !in ids :: apps[k];
      failures := set k | k in failures && k.event !in ids;
      reqs := map k | k in reqs && k.event !in ids :: reqs[k];
      commands := map c | c in commands && !(commands[c].event.Some? && commands[c].event.value in ids) :: commands[c];
      commands := commands - orphans;
      return Done, |picked| + |orphans|;
    }

    method ParkMessage(current: string, m: Message) returns (o: Outcome)
      modifies this
      ensures (State(), o) == Parking(old(State()), current, m)
    {
      hide SafeReason;
      if !ValidMessage(m) {
        return Invalid;
      }
      var key := ParkKey(m.digest, SafeReason(m.reason));
      var budget0 := budget;
      EnsureBudget(current);
      var b := budget[current];
      if b.parkedMessages >= MAX_PARKED || b.parkedBytes > MAX_PARKED_BYTES - m.size {
        budget := budget0;
        return ParkingFull;
      }
      var source := m.source;
      if source == "" && m.epoch != "" && m.epoch != current {
        source := m.epoch;
      }
      var inserted := key !in parking && m.schema <= 2 && m.attempts <= 1000;
      if !inserted {
        return Done;
      }
      b := b.(parkedMessages := b.parkedMessages + 1, parkedBytes := b.parkedBytes + m.size);
      if !RowAllowed(b) {
        budget := budget0;
        return StoreError;
      }
      parking := parking[key := Parked(current, source, m.size)];
      budget := budget[current := b];
      return Done;
    }
  }
}
