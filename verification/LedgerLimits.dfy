/**
 With fixed limits, and every requirement reserved when it is inserted, no run exceeds a limit,
 and no unsigned sum in the admission check wraps.
 */
module LedgerLimits {
  import opened Options
  import opened MapSums
  import opened Identifiers
  import opened Numbers
  import opened BusinessState
  import opened LedgerInvariant

  ghost predicate Within(l: Limits, budget: map<string, Budget>) {
    && (forall e :: e in budget ==> budget[e].open <= l.open)
    && Sum(budget, GroupsOf()) <= l.groups
    && Sum(budget, BytesOf()) <= l.bytes
  }

  predicate AllReserved(s: Store) {
    forall k :: k in s.reqs ==> s.reqs[k].reserved
  }

  ghost predicate Sound(l: Limits, s: Store) {
    Consistent(s) && AllReserved(s) && Within(l, s.budget)
  }

  lemma EmptySound(l: Limits)
    ensures Sound(l, EMPTY)
  {
    EmptyConsistent();
  }

  lemma BudgetPut(budget: map<string, Budget>, e: string, b: Budget)
    ensures var was := if e in budget then budget[e] else ZERO;
            && Sum(budget[e := b], GroupsOf()) + was.groups == Sum(budget, GroupsOf()) + b.groups
            && Sum(budget[e := b], BytesOf()) + was.bytes == Sum(budget, BytesOf()) + b.bytes
  {
    hide Sum;
    SumPut(budget, GroupsOf(), e, b);
    SumPut(budget, BytesOf(), e, b);
  }

  lemma OpenedWithin(l: Limits, budget: map<string, Budget>, e: string)
    requires Within(l, budget)
    ensures Within(l, Ensured(budget, e))
    ensures Sum(Ensured(budget, e), GroupsOf()) == Sum(budget, GroupsOf())
    ensures Sum(Ensured(budget, e), BytesOf()) == Sum(budget, BytesOf())
  {
    hide Sum;
    BudgetPut(budget, e, ZERO);
  }

  /** A charge is refused exactly when it would take some counter over its limit. */
  lemma AdmissionExact(l: Limits, budget: map<string, Budget>, e: string, payload: nat)
    requires Within(l, budget) && e in budget
    ensures var b := budget[e];
            Affordable(l, budget, e, payload)
            <==> Within(l, budget[e := Plus(b, Budget(1, 1, Cost(payload), 0, 0))])
  {
    hide Sum;
    BudgetPut(budget, e, Plus(budget[e], Budget(1, 1, Cost(payload), 0, 0)));
    var after := budget[e := Plus(budget[e], Budget(1, 1, Cost(payload), 0, 0))];
    assert after[e].open == budget[e].open + 1;
  }

  lemma ChargedWithin(l: Limits, s: Store, after: Store, e: string, payload: nat)
    requires Within(l, s.budget) && after.budget == Ensured(s.budget, e)
    ensures Within(l, Charged(l, s, after, e, payload).0.budget)
  {
    hide Sum, Within, Affordable;
    OpenedWithin(l, s.budget, e);
    AdmissionExact(l, after.budget, e, payload);
  }

  lemma RegisterSound(l: Limits, s: Store, q: Requirement)
    requires Sound(l, s)
    ensures Sound(l, Registered(l, s, q).0)
  {
    hide Sum, Within, Consistent, Affordable;
    RegisterBalances(l, s, q);
    if ValidRequirement(q) && q.key !in s.reqs {
      var payload := if q.payload == 0 then 1 else q.payload;
      var after := s.(reqs := s.reqs[q.key := Req(q.version, payload, None, None, true, false)],
                      budget := Ensured(s.budget, q.key.epoch));
      ChargedWithin(l, s, after, q.key.epoch, payload);
    }
  }

  lemma CreateSound(l: Limits, s: Store, r: Reservation)
    requires Sound(l, s)
    ensures Sound(l, Created(l, s, r).0)
  {
    hide Sum, Within, Consistent, Affordable, KeyHashTaken, ValidCommand;
    CreateBalances(l, s, r);
    if ValidReservation(r) {
      var c := r.command;
      var after := s.(
        commands := s.commands[c.key := CommandRow(c.user, c.kind, r.keyHash, r.digest, c.post, Some(c.event),
                                                   "succeeded", Some(r.now + RETENTION))],
        reqs := s.reqs[r.requirement.key := Req(r.requirement.version, r.payload, None, None, true, false)],
        budget := Ensured(s.budget, c.key.epoch));
      ChargedWithin(l, s, after, c.key.epoch, r.payload);
    }
  }

  lemma LoweredWithin(l: Limits, budget: map<string, Budget>, budget': map<string, Budget>)
    requires Within(l, budget) && budget'.Keys == budget.Keys
    requires forall e :: e in budget ==>
               && budget'[e].open <= budget[e].open && budget'[e].groups <= budget[e].groups
               && budget'[e].bytes <= budget[e].bytes
    ensures Within(l, budget')
  {
    hide Sum;
    SumLe(budget, budget', GroupsOf());
    SumLe(budget, budget', BytesOf());
  }

  /** Closing a reserved requirement cannot fail: it only lowers the open counter. */
  lemma CloseLowers(s: Store, k: ReqKey)
    requires Consistent(s) && k in s.reqs && s.reqs[k].reserved
    ensures k.epoch in s.budget
    ensures RowAllowed(Closed(s.budget[k.epoch], s.reqs[k]))
    ensures var b := s.budget[k.epoch];
            Closed(b, s.reqs[k]) == b.(open := if b.open > 0 then b.open - 1 else 0)
  {}

  lemma ApplySound(l: Limits, s: Store, a: Application, now: int)
    requires Sound(l, s)
    ensures Sound(l, Applied(s, a, now).0)
  {
    hide Sum, Within, Consistent, ValidApplication, Closed, RowAllowed;
    ApplyBalances(s, a, now);
    var s' := Applied(s, a, now).0;
    if s'.budget != s.budget {
      CloseLowers(s, a.key.req);
      LoweredWithin(l, s.budget, s'.budget);
    }
  }

  lemma ReleaseSound(l: Limits, s: Store, ids: seq<string>, now: int)
    requires Sound(l, s)
    ensures Sound(l, Released(s, ids, now).0)
  {
    hide Sum, Within, Consistent, ValidUuid, Due;
    ReleaseBalances(s, ids, now);
    LoweredWithin(l, s.budget, Released(s, ids, now).0.budget);
  }

  /** The budget rows differ at most in what is parked. */
  predicate SameLedger(budget: map<string, Budget>, budget': map<string, Budget>) {
    budget'.Keys == budget.Keys && forall e :: e in budget ==>
      budget'[e] == budget[e].(parkedMessages := budget'[e].parkedMessages, parkedBytes := budget'[e].parkedBytes)
  }

  lemma ParkLeavesLedger(s: Store, current: string, m: Message)
    ensures Parking(s, current, m).0.reqs == s.reqs
    ensures var budget := Parking(s, current, m).0.budget;
            budget == s.budget || SameLedger(Ensured(s.budget, current), budget)
  {
    hide ValidMessage, SafeReason, RowAllowed, SameLedger;
    var ready, budget := Ensured(s.budget, current), Parking(s, current, m).0.budget;
    LedgerSame(ready);
    if budget != s.budget && budget != ready {
      RowParked(ready, current, budget[current]);
    }
  }

  lemma RowParked(budget: map<string, Budget>, e: string, b: Budget)
    requires e in budget && b == budget[e].(parkedMessages := b.parkedMessages, parkedBytes := b.parkedBytes)
    ensures SameLedger(budget, budget[e := b])
  {}

  lemma LedgerSame(budget: map<string, Budget>)
    ensures SameLedger(budget, budget)
  {}

  lemma ParkSound(l: Limits, s: Store, current: string, m: Message)
    requires Sound(l, s)
    ensures Sound(l, Parking(s, current, m).0)
  {
    hide Sum, Within, Consistent, Parking;
    ParkBalances(s, current, m);
    ParkLeavesLedger(s, current, m);
    OpenedWithin(l, s.budget, current);
    if Parking(s, current, m).0.budget != s.budget {
      LoweredWithin(l, Ensured(s.budget, current), Parking(s, current, m).0.budget);
    }
  }

  lemma StepSound(l: Limits, s: Store, step: Step)
    requires Sound(l, s)
    ensures Sound(l, Exec(l, s, step))
  {
    hide Sum, Within, Consistent, Picked, Orphans;
    StepBalances(l, s, step);
    match step
    case Register(q) => RegisterSound(l, s, q);
    case Create(r) => CreateSound(l, s, r);
    case Apply(a, now) => ApplySound(l, s, a, now);
    case Release(ids, now) => ReleaseSound(l, s, ids, now);
    case Cleanup(batch, picked, orphans, outbox, now) =>
    case Park(current, m) => ParkSound(l, s, current, m);
    case OpenEpoch(epoch) => OpenedWithin(l, s.budget, epoch);
    case RecordFailure(_) =>
  }

  lemma {:induction false} RunSound(l: Limits, s: Store, steps: seq<Step>)
    requires Sound(l, s)
    ensures Sound(l, Run(l, s, steps))
    decreases |steps|
  {
    hide Sound, Exec;
    if steps != [] {
      StepSound(l, s, steps[0]);
      RunSound(l, Exec(l, s, steps[0]), steps[1..]);
    }
  }

  /** In every state that the transactions can reach from empty tables, each counter is its count. */
  lemma CountersAreCounts(l: Limits, steps: seq<Step>, e: string)
    requires e in Run(l, EMPTY, steps).budget
    ensures var s := Run(l, EMPTY, steps);
            s.budget[e] == Budget(Sum(s.reqs, OpenIn(e)), Sum(s.reqs, HeldIn(e)), Sum(s.reqs, BytesIn(e)),
                                  Sum(s.parking, ParkedIn(e)), Sum(s.parking, ParkedBytesIn(e)))
  {
    EmptyConsistent();
    LedgerConserved(l, EMPTY, steps);
    hide Sum, Run;
  }

  /** The limits, as a client sees them, in every state that the transactions can reach. */
  lemma LimitsHold(l: Limits, steps: seq<Step>, e: string)
    ensures var s := Run(l, EMPTY, steps);
            && Sum(s.reqs, OpenIn(e)) <= l.open
            && Sum(s.budget, GroupsOf()) <= l.groups < U64
            && Sum(s.budget, BytesOf()) <= l.bytes < U64
            && Sum(s.parking, ParkedIn(e)) <= MAX_PARKED
            && Sum(s.parking, ParkedBytesIn(e)) <= MAX_PARKED_BYTES
  {
    EmptySound(l);
    RunSound(l, EMPTY, steps);
    hide Sum, Run;
    var s := Run(l, EMPTY, steps);
    if e !in s.budget {
      NothingCounted(s, e);
    }
  }

  /**
   A parked message is in the table once parking has succeeded if and only if its schema version is at most 2 and its
   attempts are at most 1000, or the same payload was parked for that reason before. Any other is lost without an error.
   */
  lemma ParkedIffStorable(s: Store, current: string, m: Message)
    requires Parking(s, current, m).1 == Done
    ensures var key := ParkKey(m.digest, SafeReason(m.reason));
            && (key in Parking(s, current, m).0.parking <==> key in s.parking || Storable(m))
            && (key !in Parking(s, current, m).0.parking ==> Parking(s, current, m).0.parking == s.parking)
  {
    hide ValidMessage, SafeReason, RowAllowed;
  }

  lemma SameEpoch(r: Reservation)
    requires ValidReservation(r)
    ensures r.requirement.key.epoch == r.command.key.epoch
  {}

  /** Both charging paths decide alike, and leave the same budget. */
  lemma SameDecision(l: Limits, s: Store, q: Requirement, r: Reservation)
    requires ValidRequirement(q) && ValidReservation(r) && q.key !in s.reqs
    requires q.key == r.requirement.key && (if q.payload == 0 then 1 else q.payload) == r.payload
    requires r.command.key !in s.commands && !KeyHashTaken(s, r)
    ensures Registered(l, s, q).1 == Created(l, s, r).1
    ensures Registered(l, s, q).0.budget == Created(l, s, r).0.budget
  {
    hide Sum, ValidRequirement, ValidReservation, KeyHashTaken, Affordable, RowAllowed;
    SameEpoch(r);
  }
}
