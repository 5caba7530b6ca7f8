/**
 Application records are redelivered, reordered and repeated for several projection generations.
 The first valid record of a requirement closes it, and nothing that follows moves the ledger again.
 */
module LedgerConfluence {
  import opened Options
  import opened MapSums
  import opened BusinessState
  import opened LedgerInvariant
  import opened LedgerLimits
  import opened LedgerEffects

  datatype Delivery = Delivery(a: Application, now: int) {
    predicate For(k: ReqKey) { ValidApplication(a) && a.key.req == k }
    function At(): int { if a.completedAt.Some? then a.completedAt.value else now }
  }

  function Delivered(s: Store, ds: seq<Delivery>): Store
    decreases |ds|
  {
    if ds == [] then s else Delivered(Applied(s, ds[0].a, ds[0].now).0, ds[1..])
  }

  /** The completion time of the first record in the schedule that names k. */
  function First(ds: seq<Delivery>, k: ReqKey): Option<int> {
    if ds == [] then None
    else if ds[0].For(k) then Some(ds[0].At())
    else First(ds[1..], k)
  }

  /** What a whole schedule does to one requirement row. */
  function Settled(r: Req, first: Option<int>): Req {
    if r.closedAt.Some? || first.None? then r
    else r.(closedAt := first, retainUntil := Some(first.value + RETENTION), reserved := true)
  }

  ghost predicate Ready(s: Store) {
    Consistent(s) && AllReserved(s)
  }

  lemma RecordedIsClosed(s: Store, key: AppKey)
    requires Consistent(s)
    ensures key in s.apps ==> key.req in s.reqs && s.reqs[key.req].closedAt.Some?
  {}

  lemma OneDelivery(s: Store, d: Delivery)
    requires Ready(s)
    ensures var s' := Applied(s, d.a, d.now).0;
            && s'.reqs.Keys == s.reqs.Keys && s'.budget.Keys == s.budget.Keys && s'.parking == s.parking
            && forall k :: k in s.reqs ==>
                 s'.reqs[k] == Settled(s.reqs[k], if d.For(k) then Some(d.At()) else None)
  {
    hide Sum, Consistent, ValidApplication, Closed, RowAllowed;
    if d.a.key.req in s.reqs {
      CloseLowers(s, d.a.key.req);
      RecordedIsClosed(s, d.a.key);
    }
  }

  lemma OneReady(s: Store, d: Delivery)
    requires Ready(s)
    ensures Ready(Applied(s, d.a, d.now).0)
  {
    hide Sum, Consistent, Applied;
    OneDelivery(s, d);
    ApplyBalances(s, d.a, d.now);
  }

  /** Each requirement closes exactly once, at the time of its first record. */
  lemma {:induction false} ClosesOnce(s: Store, ds: seq<Delivery>)
    requires Ready(s)
    ensures var s' := Delivered(s, ds);
            && Ready(s')
            && s'.reqs.Keys == s.reqs.Keys && s'.budget.Keys == s.budget.Keys && s'.parking == s.parking
            && forall k :: k in s.reqs ==> s'.reqs[k] == Settled(s.reqs[k], First(ds, k))
    decreases |ds|
  {
    hide Ready, Applied;
    if ds != [] {
      OneDelivery(s, ds[0]);
      OneReady(s, ds[0]);
      ClosesOnce(Applied(s, ds[0].a, ds[0].now).0, ds[1..]);
    }
  }

  // The evidence.

  /** The first delivery of the schedule that brings this evidence. */
  predicate Brings(ds: seq<Delivery>, i: nat, key: AppKey) {
    i < |ds| && ValidApplication(ds[i].a) && ds[i].a.key == key
  }

  predicate BringsFirst(ds: seq<Delivery>, i: nat, key: AppKey) {
    Brings(ds, i, key) && forall j :: 0 <= j < i ==> !Brings(ds, j, key)
  }

  lemma BringsNext(ds: seq<Delivery>, key: AppKey)
    requires ds != []
    ensures BringsFirst(ds, 0, key) <==> Brings(ds, 0, key)
    ensures forall i: nat :: BringsFirst(ds, i, key) ==> i < |ds| && (i == 0 || !Brings(ds, 0, key))
    ensures forall i: nat :: BringsFirst(ds, i + 1, key) <==> !Brings(ds, 0, key) && BringsFirst(ds[1..], i, key)
  {
    hide ValidApplication;
    forall i: nat ensures Brings(ds, i + 1, key) <==> Brings(ds[1..], i, key) {}
    forall i: nat
      ensures BringsFirst(ds, i + 1, key) <==> !Brings(ds, 0, key) && BringsFirst(ds[1..], i, key)
    {
      if BringsFirst(ds, i + 1, key) {
        forall j | 0 <= j < i ensures !Brings(ds[1..], j, key) {
          assert !Brings(ds, j + 1, key);
        }
      }
      if !Brings(ds, 0, key) && BringsFirst(ds[1..], i, key) {
        forall j | 0 <= j < i + 1 ensures !Brings(ds, j, key) {
          if j > 0 {
            assert !Brings(ds[1..], j - 1, key);
          }
        }
      }
    }
  }

  /** One piece of evidence is recorded as the schedule brought it first, or as it was before the schedule. */
  ghost predicate RecordedRight(s: Store, s': Store, ds: seq<Delivery>, key: AppKey) {
    && (key in s'.apps <==> key in s.apps || (key.req in s.reqs && exists i: nat :: BringsFirst(ds, i, key)))
    && (key in s.apps && key in s'.apps ==> s'.apps[key] == s.apps[key])
    && (key !in s.apps && key in s'.apps ==> forall i: nat :: BringsFirst(ds, i, key) ==>
          s'.apps[key] == AppRow(ds[i].a.result, ds[i].a.version, ds[i].At()))
  }

  /**
   The evidence of a schedule is complete and nothing is made up: what is recorded afterwards is what was recorded
   before, and every valid delivery for a requirement that exists, each generation as it was delivered first.
   */
  lemma {:induction false} EvidenceComplete(s: Store, ds: seq<Delivery>, key: AppKey)
    requires Ready(s)
    ensures RecordedRight(s, Delivered(s, ds), ds, key)
    decreases |ds|
  {
    hide Ready, Applied, RecordedRight, BringsFirst;
    if ds == [] {
      NothingBrought(s, key);
    } else {
      var s1 := Applied(s, ds[0].a, ds[0].now).0;
      OneReady(s, ds[0]);
      EvidenceComplete(s1, ds[1..], key);
      OneRecorded(s, ds[0]);
      RecordedStep(s, s1, Delivered(s1, ds[1..]), ds, key);
    }
  }

  lemma NothingBrought(s: Store, key: AppKey)
    ensures RecordedRight(s, s, [], key)
  {}

  lemma RowsAllowed(s: Store)
    requires Consistent(s)
    ensures forall e :: e in s.budget ==> RowAllowed(s.budget[e])
  {
    hide Balanced, LifeCycle, Evidenced;
  }

  lemma OneRecorded(s: Store, d: Delivery)
    requires Ready(s)
    ensures var s' := Applied(s, d.a, d.now).0;
            && s'.reqs.Keys == s.reqs.Keys
            && s'.apps == if !ValidApplication(d.a) || d.a.key.req !in s.reqs || d.a.key in s.apps then s.apps
                          else s.apps[d.a.key := AppRow(d.a.result, d.a.version, d.At())]
  {
    hide Sum, Consistent, ValidApplication;
    RowsAllowed(s);
    RecordMeans(s, d.a, d.now);
    if d.a.key.req in s.reqs {
      assert s.reqs[d.a.key.req].reserved;
    }
  }

  lemma RecordedStep(s: Store, s1: Store, s2: Store, ds: seq<Delivery>, key: AppKey)
    requires ds != [] && s1.reqs.Keys == s.reqs.Keys && RecordedRight(s1, s2, ds[1..], key)
    requires var a := ds[0].a;
             s1.apps == if !ValidApplication(a) || a.key.req !in s.reqs || a.key in s.apps then s.apps
                        else s.apps[a.key := AppRow(a.result, a.version, ds[0].At())]
    ensures RecordedRight(s, s2, ds, key)
  {
    hide ValidApplication, BringsFirst;
    BringsNext(ds, key);
    if exists i: nat :: BringsFirst(ds, i, key) {
      var i: nat :| BringsFirst(ds, i, key);
      assert i > 0 ==> BringsFirst(ds[1..], i - 1, key);
    }
    if exists i: nat :: BringsFirst(ds[1..], i, key) {
      var i: nat :| BringsFirst(ds[1..], i, key);
      assert BringsFirst(ds, 0, key) || BringsFirst(ds, i + 1, key);
    }
    forall i: nat | BringsFirst(ds, i, key) && key !in s.apps && key in s2.apps
      ensures s2.apps[key] == AppRow(ds[i].a.result, ds[i].a.version, ds[i].At())
    {
      if i > 0 {
        assert BringsFirst(ds[1..], i - 1, key);
      }
    }
  }

  function OpenSet(s: Store): set<ReqKey> {
    set k | k in s.reqs && s.reqs[k].closedAt.None?
  }

  lemma SharesDecide(s: Store, t: Store, e: string)
    requires t.reqs.Keys == s.reqs.Keys && t.parking == s.parking
    requires forall k :: k in s.reqs ==> Share(e, k, t.reqs[k]) == Share(e, k, s.reqs[k])
    ensures Recount(t.reqs, t.parking, e) == Recount(s.reqs, s.parking, e)
  {
    hide Sum;
    SumSame(s.reqs, t.reqs, OpenIn(e));
    SumSame(s.reqs, t.reqs, HeldIn(e));
    SumSame(s.reqs, t.reqs, BytesIn(e));
  }

  lemma SameOpenSameBudget(s: Store, t: Store)
    requires Consistent(s) && Consistent(t)
    requires t.reqs.Keys == s.reqs.Keys && t.budget.Keys == s.budget.Keys && t.parking == s.parking
    requires forall k :: k in s.reqs ==>
               t.reqs[k] == s.reqs[k].(closedAt := t.reqs[k].closedAt, retainUntil := t.reqs[k].retainUntil)
    requires OpenSet(s) == OpenSet(t)
    ensures t.budget == s.budget
  {
    hide Sum, Recount;
    forall e | e in s.budget ensures t.budget[e] == s.budget[e] {
      forall k | k in s.reqs ensures Share(e, k, t.reqs[k]) == Share(e, k, s.reqs[k]) {
        assert k in OpenSet(s) <==> k in OpenSet(t);
      }
      SharesDecide(s, t, e);
    }
  }

  /**
   Two schedules, in any order and with any repetition, leave the same open requirements if and only if
   they name the same open requirements; and then they leave the same budget rows.
   */
  lemma Confluent(s: Store, ds: seq<Delivery>, es: seq<Delivery>)
    requires Ready(s)
    ensures var t, u := Delivered(s, ds), Delivered(s, es);
            && (OpenSet(t) == OpenSet(u)
                <==> forall k :: k in OpenSet(s) ==> (First(ds, k).Some? <==> First(es, k).Some?))
            && (OpenSet(t) == OpenSet(u) ==> t.budget == u.budget)
  {
    hide Sum, Consistent, Delivered, First;
    ClosesOnce(s, ds);
    ClosesOnce(s, es);
    var t, u := Delivered(s, ds), Delivered(s, es);
    forall k | k in s.reqs
      ensures k in OpenSet(t) <==> k in OpenSet(s) && First(ds, k).None?
      ensures k in OpenSet(u) <==> k in OpenSet(s) && First(es, k).None?
    {
    }
    if OpenSet(t) == OpenSet(u) {
      SameOpenSameBudget(t, u);
    }
  }
}
