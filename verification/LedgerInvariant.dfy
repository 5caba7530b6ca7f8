/**
 The budget rows are a cache of sums over the requirement and parking tables. Every transaction,
 in every interleaving and over any number of epochs, keeps the cache exact.
 */
module LedgerInvariant {
  import opened Options
  import opened MapSums
  import opened Identifiers
  import opened BusinessState

  /** What one requirement row contributes to the counters of epoch e. */
  function Share(e: string, k: ReqKey, r: Req): Budget {
    if k.epoch != e then ZERO
    else
      var held := r.reserved && !r.released;
      Budget(if r.closedAt.None? then 1 else 0, if held then 1 else 0, if held then Cost(r.payload) else 0, 0, 0)
  }

  function Plus(a: Budget, b: Budget): Budget {
    Budget(a.open + b.open, a.groups + b.groups, a.bytes + b.bytes,
           a.parkedMessages + b.parkedMessages, a.parkedBytes + b.parkedBytes)
  }

  function OpenIn(e: string): (ReqKey, Req) -> nat { (k: ReqKey, r: Req) => Share(e, k, r).open }
  function HeldIn(e: string): (ReqKey, Req) -> nat { (k: ReqKey, r: Req) => Share(e, k, r).groups }
  function BytesIn(e: string): (ReqKey, Req) -> nat { (k: ReqKey, r: Req) => Share(e, k, r).bytes }

  function ParkedIn(e: string): (ParkKey, Parked) -> nat {
    (k: ParkKey, p: Parked) => if p.epoch == e then 1 else 0
  }

  function ParkedBytesIn(e: string): (ParkKey, Parked) -> nat {
    (k: ParkKey, p: Parked) => if p.epoch == e then p.size else 0
  }

  /** What the row of epoch e has to say, recomputed from the tables. */
  ghost function Recount(reqs: map<ReqKey, Req>, parking: map<ParkKey, Parked>, e: string): Budget {
    Budget(Sum(reqs, OpenIn(e)), Sum(reqs, HeldIn(e)), Sum(reqs, BytesIn(e)),
           Sum(parking, ParkedIn(e)), Sum(parking, ParkedBytesIn(e)))
  }

  ghost predicate Balanced(s: Store) {
    && (forall e :: e in s.budget ==> s.budget[e] == Recount(s.reqs, s.parking, e))
    && (forall k :: k in s.reqs ==> k.epoch in s.budget)
    && (forall k :: k in s.parking ==> s.parking[k].epoch in s.budget)
  }

  predicate LifeCycle(r: Req) {
    && (r.closedAt.Some? <==> r.retainUntil.Some?)
    && (r.closedAt.Some? ==> r.reserved)
    && (r.released ==> r.closedAt.Some?)
  }

  /** Evidence rows exist only for requirements that are there and closed. */
  predicate Evidenced(s: Store) {
    forall a :: a in s.apps ==> a.req in s.reqs && s.reqs[a.req].closedAt.Some?
  }

  ghost predicate Consistent(s: Store) {
    && Balanced(s)
    && (forall k :: k in s.reqs ==> LifeCycle(s.reqs[k]))
    && (forall e :: e in s.budget ==> RowAllowed(s.budget[e]))
    && Evidenced(s)
  }

  lemma EmptyConsistent()
    ensures Consistent(EMPTY)
  {}

  lemma NothingCounted(s: Store, e: string)
    requires Balanced(s) && e !in s.budget
    ensures Recount(s.reqs, s.parking, e) == ZERO
  {
    hide Sum;
    SumZero(s.reqs, OpenIn(e));
    SumZero(s.reqs, HeldIn(e));
    SumZero(s.reqs, BytesIn(e));
    SumZero(s.parking, ParkedIn(e));
    SumZero(s.parking, ParkedBytesIn(e));
  }

  lemma EpochOpened(s: Store, e: string)
    requires Consistent(s)
    ensures Consistent(s.(budget := Ensured(s.budget, e)))
  {
    hide Sum;
    if e !in s.budget {
      NothingCounted(s, e);
    }
  }

  /** How the counters of an epoch move when one requirement row is written. */
  lemma RowWritten(s: Store, k: ReqKey, r: Req, e: string)
    ensures var now := Recount(s.reqs[k := r], s.parking, e);
            var was := Recount(s.reqs, s.parking, e);
            if k in s.reqs then Plus(now, Share(e, k, s.reqs[k])) == Plus(was, Share(e, k, r))
            else now == Plus(was, Share(e, k, r))
  {
    hide Sum;
    SumPut(s.reqs, OpenIn(e), k, r);
    SumPut(s.reqs, HeldIn(e), k, r);
    SumPut(s.reqs, BytesIn(e), k, r);
  }

  lemma RowCharged(s: Store, s': Store, k: ReqKey, r: Req)
    requires Consistent(s) && k !in s.reqs && k.epoch in s.budget && LifeCycle(r)
    requires RowAllowed(Plus(s.budget[k.epoch], Share(k.epoch, k, r)))
    requires s' == s.(commands := s'.commands, reqs := s.reqs[k := r],
                      budget := s.budget[k.epoch := Plus(s.budget[k.epoch], Share(k.epoch, k, r))])
    ensures Consistent(s')
  {
    hide Sum, Recount;
    forall e | e in s'.budget ensures s'.budget[e] == Recount(s'.reqs, s'.parking, e) {
      RowWritten(s, k, r, e);
    }
  }

  /** A new reserved row together with its charge. */
  lemma ChargeBalances(l: Limits, s: Store, after: Store, k: ReqKey, r: Req)
    requires Consistent(s)
    requires k !in s.reqs && r.closedAt.None? && r.retainUntil.None? && r.reserved && !r.released
    requires after == s.(commands := after.commands, reqs := s.reqs[k := r], budget := Ensured(s.budget, k.epoch))
    ensures Consistent(Charged(l, s, after, k.epoch, r.payload).0)
  {
    hide Sum, Consistent, Affordable;
    EpochOpened(s, k.epoch);
    var ready := s.(budget := Ensured(s.budget, k.epoch));
    var s' := Charged(l, s, after, k.epoch, r.payload).0;
    if s' != s {
      RowCharged(ready, s', k, r);
    }
  }

  lemma RegisterBalances(l: Limits, s: Store, q: Requirement)
    requires Consistent(s)
    ensures Consistent(Registered(l, s, q).0)
  {
    hide Sum, Recount, Charged;
    if ValidRequirement(q) && q.key !in s.reqs {
      var payload := if q.payload == 0 then 1 else q.payload;
      var r := Req(q.version, payload, None, None, true, false);
      ChargeBalances(l, s, s.(reqs := s.reqs[q.key := r], budget := Ensured(s.budget, q.key.epoch)), q.key, r);
    }
  }

  lemma CreateBalances(l: Limits, s: Store, r: Reservation)
    requires Consistent(s)
    ensures Consistent(Created(l, s, r).0)
  {
    hide Sum, Recount, Charged;
    if ValidReservation(r) && r.requirement.key !in s.reqs {
      var c := r.command;
      var row := Req(r.requirement.version, r.payload, None, None, true, false);
      var commands := s.commands[c.key := CommandRow(c.user, c.kind, r.keyHash, r.digest, c.post, Some(c.event),
                                                     "succeeded", Some(r.now + RETENTION))];
      ChargeBalances(l, s, s.(commands := commands, reqs := s.reqs[r.requirement.key := row],
                              budget := Ensured(s.budget, c.key.epoch)), r.requirement.key, row);
    }
  }

  /** Closing a requirement never finds its epoch's open counter at zero. */
  lemma OpenCounted(s: Store, k: ReqKey)
    requires Consistent(s) && k in s.reqs && s.reqs[k].closedAt.None?
    ensures k.epoch in s.budget && s.budget[k.epoch].open >= 1
  {
    SumAtLeast(s.reqs, OpenIn(k.epoch), k);
  }

  predicate Closing(s: Store, k: ReqKey, r: Req) {
    && k in s.reqs && s.reqs[k].closedAt.None? && k.epoch in s.budget
    && r == s.reqs[k].(closedAt := r.closedAt, retainUntil := r.retainUntil, reserved := true)
    && r.closedAt.Some? && r.retainUntil.Some?
  }

  lemma ClosedCounts(s: Store, k: ReqKey, r: Req, e: string)
    requires Consistent(s) && Closing(s, k, r) && e in s.budget
    ensures Recount(s.reqs[k := r], s.parking, e)
         == if e == k.epoch then Closed(s.budget[e], s.reqs[k]) else s.budget[e]
  {
    hide Sum, Recount;
    OpenCounted(s, k);
    RowWritten(s, k, r, e);
  }

  lemma RowClosed(s: Store, s': Store, k: ReqKey, r: Req)
    requires Consistent(s) && Closing(s, k, r)
    requires RowAllowed(Closed(s.budget[k.epoch], s.reqs[k]))
    requires s' == s.(apps := s'.apps, reqs := s.reqs[k := r],
                      budget := s.budget[k.epoch := Closed(s.budget[k.epoch], s.reqs[k])])
    requires forall a :: a in s'.apps ==> a in s.apps || a.req == k
    ensures Consistent(s')
  {
    hide Sum, Recount, Closed, RowAllowed;
    forall e | e in s'.budget ensures s'.budget[e] == Recount(s'.reqs, s'.parking, e) {
      ClosedCounts(s, k, r, e);
    }
  }

  lemma ApplyBalances(s: Store, a: Application, now: int)
    requires Consistent(s)
    ensures Consistent(Applied(s, a, now).0)
  {
    hide Sum, Recount, ValidApplication, Closed;
    var k := a.key.req;
    var s' := Applied(s, a, now).0;
    if s'.reqs != s.reqs {
      RowClosed(s, s', k, s'.reqs[k]);
    }
  }

  /** What a release subtracts is held by the counters it subtracts from: the subtraction never saturates. */
  lemma DueIsHeld(s: Store, e: string, ids: seq<string>, now: int)
    requires Consistent(s) && e in s.budget
    ensures Sum(s.reqs, DueGroups(e, ids, now)) <= s.budget[e].groups
    ensures Sum(s.reqs, DueBytes(e, ids, now)) <= s.budget[e].bytes
    ensures Discharged(s, e, ids, now) == Recount(Marked(s.reqs, ids, now), s.parking, e)
  {
    hide Sum, Evidenced, RowAllowed;
    var reqs := Marked(s.reqs, ids, now);
    SumSame(s.reqs, reqs, OpenIn(e));
    SumShift(s.reqs, reqs, HeldIn(e), DueGroups(e, ids, now));
    SumShift(s.reqs, reqs, BytesIn(e), DueBytes(e, ids, now));
  }

  lemma ReleaseBalances(s: Store, ids: seq<string>, now: int)
    requires Consistent(s)
    ensures Consistent(Released(s, ids, now).0)
  {
    hide Sum, Recount, ValidUuid;
    forall e | e in s.budget
      ensures Discharged(s, e, ids, now) == Recount(Marked(s.reqs, ids, now), s.parking, e)
    {
      DueIsHeld(s, e, ids, now);
    }
  }

  /** Deleting all rows of the picked events deletes nothing that is counted or still protected. */
  lemma OnlyExpiredGo(s: Store, batch: int, picked: seq<ReqKey>, outbox: set<string>, now: int)
    requires Picked(s, batch, picked, outbox, now)
    ensures forall k :: k in s.reqs && k.event in Events(picked) ==> Expired(s.reqs[k], now)
    ensures forall c :: c in s.commands && s.commands[c].event.Some? && s.commands[c].event.value in Events(picked) ==>
              s.commands[c].retainedUntil.Some? && s.commands[c].retainedUntil.value <= now
    ensures Events(picked) !! outbox
  {
    forall e | e in Events(picked) ensures exists k :: k in picked && k.event == e {
      var i :| 0 <= i < |picked| && picked[i].event == e;
      assert picked[i] in picked;
    }
  }

  lemma RowsDropped(s: Store, gone: set<ReqKey>, e: string)
    requires forall k :: k in s.reqs && k in gone ==> Share(e, k, s.reqs[k]) == ZERO
    ensures Recount(s.reqs - gone, s.parking, e) == Recount(s.reqs, s.parking, e)
  {
    hide Sum;
    SumDrop(s.reqs, OpenIn(e), gone);
    SumDrop(s.reqs, HeldIn(e), gone);
    SumDrop(s.reqs, BytesIn(e), gone);
  }

  lemma EventsDropped(s: Store, s': Store, ids: set<string>)
    requires Consistent(s)
    requires forall k :: k in s.reqs && k.event in ids ==> s.reqs[k].closedAt.Some? && s.reqs[k].released
    requires s' == WithoutEvents(s, ids).(commands := s'.commands)
    ensures Consistent(s')
  {
    hide Sum, Recount;
    var gone := set k | k in s.reqs && k.event in ids;
    assert s'.reqs == s.reqs - gone;
    forall e | e in s.budget ensures Recount(s'.reqs, s.parking, e) == s.budget[e] {
      RowsDropped(s, gone, e);
    }
  }

  lemma CleanupBalances(s: Store, batch: int, picked: seq<ReqKey>, orphans: set<CommandKey>,
                        outbox: set<string>, now: int)
    requires Consistent(s) && Picked(s, batch, picked, outbox, now)
    ensures Consistent(Cleaned(s, batch, picked, orphans).0)
    ensures Cleaned(s, batch, picked, orphans).0.budget == s.budget
  {
    hide Sum, Consistent, Picked;
    if 1 <= batch <= 500 {
      OnlyExpiredGo(s, batch, picked, outbox, now);
      EventsDropped(s, Cleaned(s, batch, picked, orphans).0, Events(picked));
    }
  }

  /** Nothing is left to do for the requirement, and nothing to keep it for. */
  predicate Over(r: Req, now: int) {
    match r
    case Req(_, _, Some(_), Some(until), _, true) => until <= now
    case _ => false
  }

  /**
   Although the deletion goes by event, across all epochs and consumers, it is never early:
   what it removes is closed, released and past its retention, or a receipt whose retention has passed.
   It keeps the other rows, the failures recorded of events that were not picked, and every budget row.
   */
  lemma CleanupNeverEarly(s: Store, batch: int, picked: seq<ReqKey>, orphans: set<CommandKey>,
                          outbox: set<string>, now: int)
    requires Picked(s, batch, picked, outbox, now)
    requires Orphans(WithoutEvents(s, Events(picked)), batch, orphans, now)
    ensures var s' := Cleaned(s, batch, picked, orphans).0;
            && s'.budget == s.budget && s'.parking == s.parking
            && s'.reqs.Keys <= s.reqs.Keys && s'.commands.Keys <= s.commands.Keys && s'.apps.Keys <= s.apps.Keys
            && (forall k :: k in s'.reqs ==> s'.reqs[k] == s.reqs[k])
            && (forall c :: c in s'.commands ==> s'.commands[c] == s.commands[c])
            && (forall k :: k in s.reqs && k !in s'.reqs ==> Over(s.reqs[k], now) && k.event !in outbox)
            && (forall a :: a in s.apps && a !in s'.apps && a.req in s.reqs ==> Over(s.reqs[a.req], now))
            && (forall c :: c in s.commands && c !in s'.commands ==>
                  s.commands[c].retainedUntil.Some? && s.commands[c].retainedUntil.value <= now)
            && (1 <= batch <= 500 ==> forall k :: k in picked ==> k !in s'.reqs)
            && s'.failures <= s.failures
            && (forall f :: f in s.failures && f !in s'.failures ==> exists k :: k in picked && k.event == f.event)
  {
    hide Picked;
    OnlyExpiredGo(s, batch, picked, outbox, now);
    forall k | k in picked ensures k.event in Events(picked) {
      var i :| 0 <= i < |picked| && picked[i] == k;
    }
    forall e | e in Events(picked) ensures exists k :: k in picked && k.event == e {
      var i :| 0 <= i < |picked| && picked[i].event == e;
      assert picked[i] in picked;
    }
  }

  ghost predicate NoneLater(s: Store, picked: seq<ReqKey>, k: ReqKey) {
    k in s.reqs && s.reqs[k].retainUntil.Some? ==>
      forall p :: p in picked && p in s.reqs && s.reqs[p].retainUntil.Some? ==> !Sooner(s, k, p)
  }

  /**
   The clean-up is not lazy either: a row that is left and could go was locked elsewhere, or the batch was full with
   rows that are no later than it. A receipt without an event that is left and could go was left for a full batch of
   receipts whose retention ended no later.
   */
  lemma CleanupExhausts(s: Store, batch: int, picked: seq<ReqKey>, orphans: set<CommandKey>,
                        outbox: set<string>, now: int, locked: set<ReqKey>)
    requires 1 <= batch <= 500
    requires Picked(s, batch, picked, outbox, now) && Filled(s, batch, picked, outbox, now, locked)
    requires Orphans(WithoutEvents(s, Events(picked)), batch, orphans, now)
    requires OrphansFilled(WithoutEvents(s, Events(picked)), batch, orphans, now)
    ensures var s' := Cleaned(s, batch, picked, orphans).0;
            && (forall k :: Eligible(s', outbox, now, k) ==>
                  k in locked || (|picked| == batch && NoneLater(s, picked, k)))
            && (forall c :: Orphan(s', now, c) ==> |orphans| == batch && OrphansFirst(s, orphans, c))
  {
    var s' := Cleaned(s, batch, picked, orphans).0;
    OrphansExhausted(s, batch, picked, orphans, now);
    forall k | Eligible(s', outbox, now, k) ensures k in locked || (|picked| == batch && NoneLater(s, picked, k)) {
      StillEligible(s, batch, picked, orphans, outbox, now, k);
    }
  }

  ghost predicate OrphansFirst(s: Store, orphans: set<CommandKey>, c: CommandKey) {
    c in s.commands && s.commands[c].retainedUntil.Some? ==>
      forall o :: o in orphans && o in s.commands && s.commands[o].retainedUntil.Some? ==> NoLater(s, o, c)
  }

  lemma OrphansExhausted(s: Store, batch: int, picked: seq<ReqKey>, orphans: set<CommandKey>, now: int)
    requires 1 <= batch <= 500
    requires Orphans(WithoutEvents(s, Events(picked)), batch, orphans, now)
    requires OrphansFilled(WithoutEvents(s, Events(picked)), batch, orphans, now)
    ensures forall c :: Orphan(Cleaned(s, batch, picked, orphans).0, now, c) ==>
              |orphans| == batch && OrphansFirst(s, orphans, c)
  {
    var s' := Cleaned(s, batch, picked, orphans).0;
    var kept := WithoutEvents(s, Events(picked));
    forall c | Orphan(s', now, c) ensures |orphans| == batch && OrphansFirst(s, orphans, c) {
      assert Orphan(kept, now, c) && c !in orphans;
      forall o | o in orphans ensures NoLater(kept, o, c) && kept.commands[o] == s.commands[o] {
        assert Orphan(kept, now, o);
      }
    }
  }

  lemma StillEligible(s: Store, batch: int, picked: seq<ReqKey>, orphans: set<CommandKey>,
                      outbox: set<string>, now: int, k: ReqKey)
    requires 1 <= batch <= 500 && Orphans(WithoutEvents(s, Events(picked)), batch, orphans, now)
    requires Eligible(Cleaned(s, batch, picked, orphans).0, outbox, now, k)
    ensures Eligible(s, outbox, now, k) && k !in picked
  {
    var s' := Cleaned(s, batch, picked, orphans).0;
    forall p | p in picked ensures p.event in Events(picked) {
      var i :| 0 <= i < |picked| && picked[i] == p;
    }
    assert k.event !in Events(picked);
    forall c | c in s.commands && s.commands[c].event == Some(k.event) ensures c in s'.commands {}
    forall p | p in s.reqs && p.event == k.event ensures p in s'.reqs {}
  }

  lemma MessageWritten(s: Store, key: ParkKey, p: Parked, e: string)
    requires key !in s.parking
    ensures Recount(s.reqs, s.parking[key := p], e)
         == Plus(Recount(s.reqs, s.parking, e), if p.epoch == e then Budget(0, 0, 0, 1, p.size) else ZERO)
  {
    hide Sum;
    SumPut(s.parking, ParkedIn(e), key, p);
    SumPut(s.parking, ParkedBytesIn(e), key, p);
  }

  lemma MessageCharged(s: Store, s': Store, current: string, key: ParkKey, p: Parked)
    requires Consistent(s) && key !in s.parking && current in s.budget && p.epoch == current
    requires RowAllowed(Plus(s.budget[current], Budget(0, 0, 0, 1, p.size)))
    requires s' == s.(parking := s.parking[key := p],
                      budget := s.budget[current := Plus(s.budget[current], Budget(0, 0, 0, 1, p.size))])
    ensures Consistent(s')
  {
    hide Sum, Recount;
    forall e | e in s'.budget ensures s'.budget[e] == Recount(s'.reqs, s'.parking, e) {
      MessageWritten(s, key, p, e);
    }
  }

  lemma ParkBalances(s: Store, current: string, m: Message)
    requires Consistent(s)
    ensures Consistent(Parking(s, current, m).0)
  {
    hide Sum, Consistent, SafeReason, ValidMessage, SourceEpoch;
    EpochOpened(s, current);
    var s' := Parking(s, current, m).0;
    var key := ParkKey(m.digest, SafeReason(m.reason));
    if s'.parking != s.parking {
      MessageCharged(s.(budget := Ensured(s.budget, current)), s', current, key, s'.parking[key]);
    }
  }

  lemma StepBalances(l: Limits, s: Store, step: Step)
    requires Consistent(s)
    ensures Consistent(Exec(l, s, step))
  {
    hide Sum, Recount;
    match step
    case Register(q) => RegisterBalances(l, s, q);
    case Create(r) => CreateBalances(l, s, r);
    case Apply(a, now) => ApplyBalances(s, a, now);
    case Release(ids, now) => ReleaseBalances(s, ids, now);
    case Cleanup(batch, picked, orphans, outbox, now) =>
      if Picked(s, batch, picked, outbox, now) {
        CleanupBalances(s, batch, picked, orphans, outbox, now);
      }
    case Park(current, m) => ParkBalances(s, current, m);
    case OpenEpoch(epoch) => EpochOpened(s, epoch);
    case RecordFailure(_) =>
  }

  /** Ledger conservation over every run. */
  lemma {:induction false} LedgerConserved(l: Limits, s: Store, steps: seq<Step>)
    requires Consistent(s)
    ensures Consistent(Run(l, s, steps))
    decreases |steps|
  {
    hide Sum;
    if steps != [] {
      StepBalances(l, s, steps[0]);
      LedgerConserved(l, Exec(l, s, steps[0]), steps[1..]);
    }
  }
}
