/** What each ledger transaction does, said of the tables and not of the code, for every state that is consistent. */
module LedgerEffects {
  import opened Options
  import opened MapSums
  import opened Identifiers
  import opened BusinessState
  import opened LedgerInvariant
  import opened LedgerLimits

  // New requirements.

  /** A new requirement is open, reserved and unreleased; the other rows and tables stay. */
  predicate Opens(s: Store, s': Store, k: ReqKey, version: nat, payload: nat) {
    && k !in s.reqs && s'.reqs.Keys == s.reqs.Keys + {k}
    && s'.reqs[k].version == version && s'.reqs[k].payload == payload
    && s'.reqs[k].closedAt.None? && s'.reqs[k].retainUntil.None? && s'.reqs[k].reserved && !s'.reqs[k].released
    && (forall j :: j in s.reqs ==> s'.reqs[j] == s.reqs[j])
    && s'.apps == s.apps && s'.failures == s.failures && s'.parking == s.parking
    && s'.budget.Keys == s.budget.Keys + {k.epoch}
  }

  /** With one more open requirement of this size in the epoch, every limit and every check constraint still holds. */
  ghost predicate Fits(l: Limits, s: Store, e: string, payload: nat) {
    var b := Recount(s.reqs, s.parking, e);
    && b.open + 1 <= l.open && b.open + 1 <= MAX_OPEN && b.groups + 1 <= MAX_GROUPS
    && b.bytes + Cost(payload) <= MAX_BYTES
    && Sum(s.budget, GroupsOf()) + 1 <= l.groups && Sum(s.budget, BytesOf()) + Cost(payload) <= l.bytes
  }

  lemma ChargedIff(l: Limits, s: Store, after: Store, e: string, payload: nat)
    requires Sound(l, s) && after.budget == Ensured(s.budget, e)
    ensures var (s', o) := Charged(l, s, after, e, payload);
            && (o == Done <==> Fits(l, s, e, payload))
            && (o != Done ==> s' == s && o in {BudgetExceeded, StoreError})
            && (o == Done ==> s' == after.(budget := s'.budget) && s'.budget.Keys == after.budget.Keys)
  {
    hide Sum, Recount, Share, Evidenced, LifeCycle;
    OpenedWithin(l, s.budget, e);
    EpochOpened(s, e);
  }

  /**
   Registering is idempotent on the key; a new requirement is inserted if and only if the limits allow it, an empty
   payload counted as one byte, and a refusal changes nothing.
   */
  lemma RegisterMeans(l: Limits, s: Store, q: Requirement)
    requires Sound(l, s)
    ensures var (s', o) := Registered(l, s, q);
            && (o == Invalid <==> !ValidRequirement(q))
            && (o == Done <==> ValidRequirement(q)
                               && (q.key in s.reqs || Fits(l, s, q.key.epoch, if q.payload < 1 then 1 else q.payload)))
            && (o != Done || q.key in s.reqs ==> s' == s)
            && (o == Done && q.key !in s.reqs ==>
                  Opens(s, s', q.key, q.version, if q.payload < 1 then 1 else q.payload) && s'.commands == s.commands)
  {
    hide Sum, Sound, Fits, Charged, ValidKey;
    if ValidRequirement(q) && q.key !in s.reqs {
      var payload := if q.payload == 0 then 1 else q.payload;
      var after := s.(reqs := s.reqs[q.key := Req(q.version, payload, None, None, true, false)],
                      budget := Ensured(s.budget, q.key.epoch));
      ChargedIff(l, s, after, q.key.epoch, payload);
    }
  }

  /**
   A post is created if and only if its command key, its idempotency key and its requirement are new and the limits
   allow one more requirement; then its receipt and its requirement are there, and otherwise nothing has changed.
   */
  lemma CreateMeans(l: Limits, s: Store, r: Reservation)
    requires Sound(l, s)
    ensures var (s', o) := Created(l, s, r);
            var key := r.command.key;
            && (o == Invalid <==> !ValidReservation(r))
            && (o == Done <==> ValidReservation(r) && key !in s.commands && !KeyHashTaken(s, r)
                               && r.requirement.key !in s.reqs && Fits(l, s, key.epoch, r.payload))
            && (o != Done ==> s' == s)
            && (o == CommandExists <==> ValidReservation(r) && key !in s.commands && KeyHashTaken(s, r)
                                        && r.command.keyHash.Some?)
            && (o == Done ==>
                  && Opens(s, s', r.requirement.key, r.requirement.version, r.payload)
                  && s'.commands.Keys == s.commands.Keys + {key}
                  && (forall k :: k in s.commands ==> s'.commands[k] == s.commands[k])
                  && var row := s'.commands[key];
                     && row.user == r.command.user && row.kind == r.command.kind && row.post == r.command.post
                     && row.keyHash == r.keyHash && row.digest == r.digest && row.event == Some(r.command.event)
                     && row.status == "succeeded" && row.retainedUntil == Some(r.now + RETENTION))
  {
    hide Sum, Sound, Fits, Charged, ValidCommand, ValidRequirement, KeyHashTaken;
    if ValidReservation(r) {
      SameEpoch(r);
      var c := r.command;
      var after := s.(
        commands := s.commands[c.key := CommandRow(c.user, c.kind, r.keyHash, r.digest, c.post, Some(c.event),
                                                   "succeeded", Some(r.now + RETENTION))],
        reqs := s.reqs[r.requirement.key := Req(r.requirement.version, r.payload, None, None, true, false)],
        budget := Ensured(s.budget, c.key.epoch));
      ChargedIff(l, s, after, c.key.epoch, r.payload);
    }
  }

  // Application evidence.

  /**
   The evidence is recorded: once the call has succeeded there is a row for this requirement and generation, the old
   one if there was one. A requirement that was open is closed by its first evidence, whether or not its epoch has a
   budget row, and nothing else is touched.
   */
  lemma RecordMeans(s: Store, a: Application, now: int)
    requires forall e :: e in s.budget ==> RowAllowed(s.budget[e])
    ensures var (s', o) := Applied(s, a, now);
            var k, at := a.key.req, if a.completedAt.None? then now else a.completedAt.value;
            && (o == Invalid <==> !ValidApplication(a))
            && (o == RequirementAbsent <==> ValidApplication(a) && k !in s.reqs)
            && (o == StoreError <==>
                  && ValidApplication(a) && k in s.reqs && s.reqs[k].closedAt.None? && a.key !in s.apps
                  && !s.reqs[k].reserved && k.epoch in s.budget
                  && (s.budget[k.epoch].groups + 1 > MAX_GROUPS
                      || s.budget[k.epoch].bytes + Cost(s.reqs[k].payload) > MAX_BYTES))
            && (o != Done ==> s' == s && o in {Invalid, RequirementAbsent, StoreError})
            && (o == Done ==>
                  && s'.apps.Keys == s.apps.Keys + {a.key}
                  && (forall j :: j in s.apps ==> s'.apps[j] == s.apps[j])
                  && (a.key !in s.apps ==>
                        s'.apps[a.key].result == a.result && s'.apps[a.key].version == a.version
                        && s'.apps[a.key].completedAt == at)
                  && s'.reqs.Keys == s.reqs.Keys && (forall j :: j in s.reqs && j != k ==> s'.reqs[j] == s.reqs[j])
                  && (s.reqs[k].closedAt.Some? || a.key in s.apps ==> s'.reqs[k] == s.reqs[k])
                  && (s.reqs[k].closedAt.None? && a.key !in s.apps ==>
                        s'.reqs[k] == Req(s.reqs[k].version, s.reqs[k].payload, Some(at), Some(at + RETENTION), true,
                                          s.reqs[k].released))
                  && s'.commands == s.commands && s'.failures == s.failures && s'.parking == s.parking)
  {
    hide ValidApplication;
    var k := a.key.req;
    if !ValidApplication(a) || k !in s.reqs {
    } else if a.key in s.apps || s.reqs[k].closedAt.Some? {
    } else if k.epoch in s.budget && !RowAllowed(Closed(s.budget[k.epoch], s.reqs[k])) {
    } else {
    }
  }

  // Retention.

  /** A row of epoch e that is released afterwards and was not before. */
  predicate Freed(e: string, after: map<ReqKey, Req>, k: ReqKey, r: Req) {
    k.epoch == e && !r.released && k in after && after[k].released
  }

  function GroupsFreed(e: string, after: map<ReqKey, Req>): (ReqKey, Req) -> nat {
    (k: ReqKey, r: Req) => if Freed(e, after, k, r) then 1 else 0
  }

  function BytesFreed(e: string, after: map<ReqKey, Req>): (ReqKey, Req) -> nat {
    (k: ReqKey, r: Req) => if Freed(e, after, k, r) then Cost(r.payload) else 0
  }

  /** The counters of an epoch together with what has been given back are what they were. */
  ghost predicate GivenBack(s: Store, s': Store, e: string)
    requires e in s.budget && e in s'.budget
  {
    && s'.budget[e] == s.budget[e].(groups := s'.budget[e].groups, bytes := s'.budget[e].bytes)
    && s'.budget[e].groups + Sum(s.reqs, GroupsFreed(e, s'.reqs)) == s.budget[e].groups
    && s'.budget[e].bytes + Sum(s.reqs, BytesFreed(e, s'.reqs)) == s.budget[e].bytes
  }

  lemma ReleaseGivesBack(s: Store, ids: seq<string>, now: int, e: string)
    requires Consistent(s) && e in s.budget
    ensures GivenBack(s, Released(s, ids, now).0, e)
  {
    hide Sum, Recount, ValidUuid, Evidenced;
    var (s', o) := Released(s, ids, now);
    if o == Done {
      DueIsHeld(s, e, ids, now);
      SumsAgree(s.reqs, DueGroups(e, ids, now), GroupsFreed(e, s'.reqs));
      SumsAgree(s.reqs, DueBytes(e, ids, now), BytesFreed(e, s'.reqs));
    } else {
      SumZero(s.reqs, GroupsFreed(e, s'.reqs));
      SumZero(s.reqs, BytesFreed(e, s'.reqs));
    }
  }

  /** Released afterwards is what was released before, or is closed, of a named event and past its retention. */
  predicate MarkedRight(s: Store, s': Store, ids: seq<string>, now: int) {
    && s'.reqs.Keys == s.reqs.Keys
    && forall k :: k in s.reqs ==>
         && s'.reqs[k] == s.reqs[k].(released := s'.reqs[k].released)
         && (s'.reqs[k].released <==>
               || s.reqs[k].released
               || (k.event in ids && s.reqs[k].closedAt.Some? && s.reqs[k].retainUntil.Some?
                   && s.reqs[k].retainUntil.value <= now))
  }

  lemma ReleaseMarks(s: Store, ids: seq<string>, now: int)
    requires forall k :: k in s.reqs ==> LifeCycle(s.reqs[k])
    requires Released(s, ids, now).1 == Done
    ensures MarkedRight(s, Released(s, ids, now).0, ids, now)
  {
    hide ValidUuid, Discharged;
  }

  /**
   A release marks exactly the closed requirements of the named events whose retention is over, in all epochs, and
   gives back to each epoch the charges of the rows that it marked there: no more, no less.
   */
  lemma ReleaseMeans(s: Store, ids: seq<string>, now: int)
    requires Consistent(s)
    ensures var (s', o) := Released(s, ids, now);
            && (o == Done <==> forall id :: id in ids ==> ValidUuid(id))
            && (o != Done ==> s' == s && o == Invalid)
            && s'.apps == s.apps && s'.commands == s.commands && s'.failures == s.failures && s'.parking == s.parking
            && s'.reqs.Keys == s.reqs.Keys && s'.budget.Keys == s.budget.Keys
            && (o == Done ==> MarkedRight(s, s', ids, now))
            && (forall e :: e in s.budget ==> GivenBack(s, s', e))
  {
    hide Sum, Recount, ValidUuid, Evidenced, GivenBack, Discharged, LifeCycle, Due, RowAllowed, MarkedRight;
    var (s', o) := Released(s, ids, now);
    if o == Done {
      ReleaseMarks(s, ids, now);
    }
    forall e | e in s.budget ensures GivenBack(s, s', e) {
      ReleaseGivesBack(s, ids, now, e);
    }
  }

  lemma {:induction false} SumsAgree(m: map<ReqKey, Req>, v: (ReqKey, Req) -> nat, w: (ReqKey, Req) -> nat)
    requires forall k :: k in m ==> v(k, m[k]) == w(k, m[k])
    ensures Sum(m, v) == Sum(m, w)
    decreases |m|
  {
    hide Sum;
    if m == map[] {
      SumEmpty(m, v);
      SumEmpty(m, w);
    } else {
      var k :| k in m;
      SumRemove(m, v, k);
      SumRemove(m, w, k);
      SumsAgree(m - {k}, v, w);
    }
  }

  /** Releasing in two goes is releasing at once, in whichever order. */
  lemma ReleaseSplits(s: Store, xs: seq<string>, ys: seq<string>, now: int)
    requires Consistent(s) && forall id :: id in xs + ys ==> ValidUuid(id)
    ensures Released(Released(s, xs, now).0, ys, now).0 == Released(s, xs + ys, now).0
  {
    hide Sum, Recount, ValidUuid, Released, GivenBack, Consistent, MarkedRight;
    var s1 := Released(s, xs, now).0;
    ReleaseBalances(s, xs, now);
    ReleaseBalances(s1, ys, now);
    ReleaseBalances(s, xs + ys, now);
    ReleaseMeans(s, xs, now);
    ReleaseMeans(s1, ys, now);
    ReleaseMeans(s, xs + ys, now);
    var two, one := Released(s1, ys, now).0, Released(s, xs + ys, now).0;
    MarkedTwice(s, s1, two, one, xs, ys, now);
    SameRecount(two, one);
  }

  lemma MarkedTwice(s: Store, s1: Store, two: Store, one: Store, xs: seq<string>, ys: seq<string>, now: int)
    requires MarkedRight(s, s1, xs, now) && MarkedRight(s1, two, ys, now) && MarkedRight(s, one, xs + ys, now)
    ensures two.reqs == one.reqs
  {
    forall k | k in s.reqs ensures two.reqs[k] == one.reqs[k] {
      assert k.event in xs + ys <==> k.event in xs || k.event in ys;
    }
  }

  lemma SameRecount(s: Store, t: Store)
    requires Consistent(s) && Consistent(t)
    requires s.reqs == t.reqs && s.parking == t.parking && s.budget.Keys == t.budget.Keys
    ensures s.budget == t.budget
  {
    hide Sum, Recount, Evidenced;
  }

  // Expired evidence.

  predicate PickedEvent(picked: seq<ReqKey>, event: string) { exists k :: k in picked && k.event == event }

  /** Of a picked event nothing is left in any of the four tables; of the others only the orphaned receipts go. */
  lemma CleanMeans(s: Store, batch: int, picked: seq<ReqKey>, orphans: set<CommandKey>, outbox: set<string>, now: int)
    requires Picked(s, batch, picked, outbox, now)
    requires Orphans(WithoutEvents(s, Events(picked)), batch, orphans, now)
    ensures var (s', o) := Cleaned(s, batch, picked, orphans);
            && (o == Done <==> 1 <= batch <= 500) && (o != Done ==> s' == s && o == Invalid)
            && s'.parking == s.parking && s'.budget == s.budget
            && (o == Done ==>
                  && (forall k :: k in s'.reqs <==> k in s.reqs && !PickedEvent(picked, k.event))
                  && (forall a :: a in s'.apps <==> a in s.apps && !PickedEvent(picked, a.req.event))
                  && (forall f :: f in s'.failures <==> f in s.failures && !PickedEvent(picked, f.event))
                  && (forall c :: c in s'.commands <==>
                        c in s.commands && c !in orphans
                        && (s.commands[c].event.None? || !PickedEvent(picked, s.commands[c].event.value)))
                  && (forall k :: k in s'.reqs ==> s'.reqs[k] == s.reqs[k])
                  && (forall a :: a in s'.apps ==> s'.apps[a] == s.apps[a])
                  && (forall c :: c in s'.commands ==> s'.commands[c] == s.commands[c]))
  {
    hide Picked, Orphans;
    forall e ensures e in Events(picked) <==> PickedEvent(picked, e) {
      if PickedEvent(picked, e) {
        var k :| k in picked && k.event == e;
        var i :| 0 <= i < |picked| && picked[i] == k;
      }
    }
  }

  /** Retention is counted from the moment a requirement was closed. */
  predicate Retained(s: Store) {
    forall k :: k in s.reqs && s.reqs[k].closedAt.Some? ==>
      s.reqs[k].retainUntil == Some(s.reqs[k].closedAt.value + RETENTION)
  }

  lemma StepRetains(l: Limits, s: Store, step: Step)
    requires Retained(s)
    ensures Retained(Exec(l, s, step))
  {
    hide Sum, Applied, Registered, Created, Parking, ValidUuid, Picked, Orphans, Due;
    match step
    case Register(q) => RegisterRetains(l, s, q);
    case Create(r) => CreateRetains(l, s, r);
    case Apply(a, now) => ApplyRetains(s, a, now);
    case Park(current, m) => ParkLeavesLedger(s, current, m);
    case _ =>
  }

  lemma RegisterRetains(l: Limits, s: Store, q: Requirement)
    requires Retained(s)
    ensures Retained(Registered(l, s, q).0)
  {
    hide Sum, ValidRequirement, Affordable, RowAllowed;
  }

  lemma CreateRetains(l: Limits, s: Store, r: Reservation)
    requires Retained(s)
    ensures Retained(Created(l, s, r).0)
  {
    hide Sum, ValidReservation, Affordable, RowAllowed, KeyHashTaken;
  }

  lemma ApplyRetains(s: Store, a: Application, now: int)
    requires Retained(s)
    ensures Retained(Applied(s, a, now).0)
  {
    hide ValidApplication, RowAllowed, Closed;
  }

  lemma {:induction false} RunRetains(l: Limits, s: Store, steps: seq<Step>)
    requires Retained(s)
    ensures Retained(Run(l, s, steps))
    decreases |steps|
  {
    hide Exec, Retained;
    if steps != [] {
      StepRetains(l, s, steps[0]);
      RunRetains(l, Exec(l, s, steps[0]), steps[1..]);
    }
  }

  /** Nothing holds the event any more: its requirements were closed a retention ago and its receipts have run out. */
  predicate Spent(s: Store, outbox: set<string>, now: int, event: string) {
    && event !in outbox
    && (forall k :: k in s.reqs && k.event == event ==>
          s.reqs[k].released && s.reqs[k].closedAt.Some? && s.reqs[k].closedAt.value + RETENTION <= now)
    && (forall c :: c in s.commands && s.commands[c].event == Some(event) ==>
          s.commands[c].retainedUntil.Some? && s.commands[c].retainedUntil.value <= now)
  }

  /**
   In every reachable state, a clean-up leaves a row of a spent event only if the row was locked elsewhere, or if the
   batch was full with rows that come no later in the query's order.
   */
  lemma SpentIsCleaned(l: Limits, steps: seq<Step>, batch: int, picked: seq<ReqKey>, orphans: set<CommandKey>,
                       outbox: set<string>, now: int, locked: set<ReqKey>, k: ReqKey)
    requires 1 <= batch <= 500
    requires var s := Run(l, EMPTY, steps);
             && Picked(s, batch, picked, outbox, now) && Filled(s, batch, picked, outbox, now, locked)
             && Orphans(WithoutEvents(s, Events(picked)), batch, orphans, now)
             && OrphansFilled(WithoutEvents(s, Events(picked)), batch, orphans, now)
    requires k in Cleaned(Run(l, EMPTY, steps), batch, picked, orphans).0.reqs
    requires Spent(Cleaned(Run(l, EMPTY, steps), batch, picked, orphans).0, outbox, now, k.event)
    ensures k in locked || (|picked| == batch && NoneLater(Run(l, EMPTY, steps), picked, k))
  {
    RunRetains(l, EMPTY, steps);
    hide Run, Picked, Filled, Orphans, OrphansFilled, NoneLater;
    var s := Run(l, EMPTY, steps);
    CleanupExhausts(s, batch, picked, orphans, outbox, now, locked);
    var s' := Cleaned(s, batch, picked, orphans).0;
    assert Retained(s');
    assert Eligible(s', outbox, now, k);
  }

  // Parked messages.

  /**
   A message is parked while there is room for it among the messages parked in the current epoch, whatever epoch it
   comes from, unless the same payload is there for that reason or its row breaks a constraint of the table.
   */
  lemma ParkMeans(s: Store, current: string, m: Message)
    requires Consistent(s)
    ensures var (s', o) := Parking(s, current, m);
            var key := ParkKey(m.digest, SafeReason(m.reason));
            var room := Sum(s.parking, ParkedIn(current)) < MAX_PARKED
                        && Sum(s.parking, ParkedBytesIn(current)) + m.size <= MAX_PARKED_BYTES;
            && (o == Invalid <==> !ValidMessage(m))
            && (o == ParkingFull <==> ValidMessage(m) && !room)
            && (o == Done <==> ValidMessage(m) && room)
            && (o != Done ==> s' == s)
            && s'.reqs == s.reqs && s'.apps == s.apps && s'.commands == s.commands && s'.failures == s.failures
            && (o == Done ==> s'.budget.Keys == s.budget.Keys + {current})
            && (o == Done && (key in s.parking || m.schema > 2 || m.attempts > 1000) ==> s'.parking == s.parking)
            && (o == Done && key !in s.parking && m.schema <= 2 && m.attempts <= 1000 ==>
                  && s'.parking.Keys == s.parking.Keys + {key}
                  && (forall k :: k in s.parking ==> s'.parking[k] == s.parking[k])
                  && s'.parking[key].epoch == current && s'.parking[key].size == m.size
                  && s'.parking[key].source == (if m.source != "" || m.epoch == current then m.source else m.epoch))
  {
    hide Sum, ValidMessage, SafeReason, Consistent, Parking, RowAllowed;
    ParkAnswers(s, current, m);
    if Parking(s, current, m).1 == Done {
      ParkFiles(s, current, m);
    }
  }

  lemma ParkAnswers(s: Store, current: string, m: Message)
    requires Consistent(s)
    ensures var (s', o) := Parking(s, current, m);
            var room := Sum(s.parking, ParkedIn(current)) < MAX_PARKED
                        && Sum(s.parking, ParkedBytesIn(current)) + m.size <= MAX_PARKED_BYTES;
            && o == (if !ValidMessage(m) then Invalid else if room then Done else ParkingFull)
            && (o != Done ==> s' == s)
            && s'.reqs == s.reqs && s'.apps == s.apps && s'.commands == s.commands && s'.failures == s.failures
  {
    hide Sum, ValidMessage, SafeReason, Consistent;
    RowSays(s, current);
  }

  lemma ParkFiles(s: Store, current: string, m: Message)
    requires Parking(s, current, m).1 == Done
    ensures var s', key := Parking(s, current, m).0, ParkKey(m.digest, SafeReason(m.reason));
            && s'.budget.Keys == s.budget.Keys + {current}
            && s'.parking == (
                 if key in s.parking || m.schema > 2 || m.attempts > 1000 then s.parking
                 else s.parking[key := Parked(current, if m.source != "" || m.epoch == current then m.source
                                                       else m.epoch, m.size)])
  {
    hide ValidMessage, SafeReason, RowAllowed;
  }

  /** What the row of the current epoch says about its parked messages. */
  lemma RowSays(s: Store, current: string)
    requires Consistent(s)
    ensures var b := Ensured(s.budget, current)[current];
            && RowAllowed(b) && b.parkedMessages == Sum(s.parking, ParkedIn(current))
            && b.parkedBytes == Sum(s.parking, ParkedBytesIn(current))
  {
    hide Sum, Evidenced, LifeCycle;
    EpochOpened(s, current);
  }
}
