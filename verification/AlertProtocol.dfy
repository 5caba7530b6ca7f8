/**
 Many scheduler workers and administrators on one database with one clock. A worker claims a rule,
 reads it, fixes its cutoff, evaluates outside any transaction and then applies. Per rule, a history
 records what happened to it in order.
 */
module AlertProtocol {
  import opened Options
  import opened AlertModel
  import opened AlertCoupling

  datatype Event =
    | Leased(owner: string, at: int)
    | Judged(owner: string, revision: nat, cutoff: int, known: bool, met: bool, value: real, at: int)
    | Edited(action: Action, input: Input, at: int)

  /** One evaluation in flight: its rule, its claim, and what it has read so far. */
  datatype Work = Work(rule: nat, at: int, revision: Option<nat>, cutoff: Option<int>)

  datatype System = System(db: Db, clock: int, works: map<string, Work>, history: map<nat, seq<Event>>)

  datatype Step =
    | Tick(elapsed: nat)
    | Claim(id: nat, owner: string)
    | Fetch(owner: string)
    | Cut(owner: string)
    | Apply(owner: string, value: real, known: bool)
    | Mutate(id: nat, actor: nat, superAdmin: bool, action: Action, input: Input)

  const INITIAL := System(Db(map[], map[], map[], [], 1, 1), 0, map[], map[])

  function History(sys: System, id: nat): seq<Event> {
    if id in sys.history then sys.history[id] else []
  }

  function Noted(sys: System, id: nat, e: Event): map<nat, seq<Event>> {
    sys.history[id := History(sys, id) + [e]]
  }

  function Exec(sys: System, step: Step): System {
    match step
    case Tick(elapsed) => sys.(clock := sys.clock + elapsed)
    case Claim(id, owner) =>
      // The owner is random, hence new.
      if owner in sys.works || !Claimable(sys.db, id, sys.clock) then sys
      else sys.(db := Claimed(sys.db, id, owner, sys.clock),
                works := sys.works[owner := Work(id, sys.clock, None, None)],
                history := Noted(sys, id, Leased(owner, sys.clock)))
    case Fetch(owner) =>
      if owner !in sys.works || sys.works[owner].revision.Some? || !Live(sys.db, sys.works[owner].rule) then sys
      else
        var w := sys.works[owner];
        sys.(works := sys.works[owner := w.(revision := Some(sys.db.rules[w.rule].revision))])
    case Cut(owner) =>
      if owner !in sys.works || sys.works[owner].revision.None? || sys.works[owner].cutoff.Some? then sys
      else sys.(works := sys.works[owner := sys.works[owner].(cutoff := Some(sys.clock - DELAY))])
    case Apply(owner, value, known) =>
      if !CanApply(sys, owner) then sys
      else
        var w := sys.works[owner];
        var db' := Applied(sys.db, w.rule, w.revision.value, owner, w.cutoff.value, value, known, sys.clock);
        if !Fenced(sys.db, w.rule, w.revision.value, owner, sys.clock) then sys.(db := db')
        else
          var met := Condition(sys.db.rules[w.rule].spec, value);
          sys.(db := db', history := Noted(sys, w.rule,
            Judged(owner, w.revision.value, w.cutoff.value, known, met, value, sys.clock)))
    case Mutate(id, actor, superAdmin, action, input) =>
      var (db', answer) := Mutated(sys.db, id, actor, superAdmin, action, input, sys.clock);
      if answer != Ok then sys.(db := db')
      else
        var target := if action == Create then sys.db.nextRule else id;
        sys.(db := db', history := Noted(sys, target, Edited(action, input, sys.clock)))
  }

  /** The worker has read the rule and fixed its cutoff. It may apply late, or more than once. */
  predicate CanApply(sys: System, owner: string) {
    owner in sys.works && sys.works[owner].revision.Some? && sys.works[owner].cutoff.Some?
  }

  function Run(sys: System, steps: seq<Step>): System
    decreases |steps|
  {
    if steps == [] then sys else Run(Exec(sys, steps[0]), steps[1..])
  }

  // The evidence.

  /**
   The cutoffs of the unbroken run of known and true evaluations at the end of a history, under one
   revision, oldest first. A claim does not break it; an unknown, a false or an edit does.
   */
  function Streak(h: seq<Event>, revision: nat): seq<int> {
    if h == [] then [] else Extended(Streak(h[..|h| - 1], revision), revision, h[|h| - 1])
  }

  function Extended(cs: seq<int>, revision: nat, e: Event): seq<int> {
    match e
    case Leased(_, _) => cs
    case Judged(_, rev, cutoff, known, met, _, _) => if known && met && rev == revision then cs + [cutoff] else []
    case Edited(_, _, _) => []
  }

  /** From position k on, neighbouring cutoffs are at least 30 and at most 65 seconds apart. */
  predicate Steady(cs: seq<int>, k: nat) {
    forall i :: k <= i < |cs| - 1 ==> INTERVAL <= cs[i + 1] - cs[i] <= MAX_GAP
  }

  /** The streak backs a wait that began at p and was last confirmed at c. */
  predicate Backs(cs: seq<int>, k: nat, p: int, c: int) {
    k < |cs| && cs[k] == p && cs[|cs| - 1] == c && Steady(cs, k)
  }

  // The invariant, rule by rule.

  /** A lease is held by exactly the worker whose claim is the last thing that happened to the rule. */
  predicate LeaseOk(r: Rule, row: Row, h: seq<Event>, works: map<string, Work>, id: nat) {
    if row.owner.None? then
      row.until.None? && (h == [] || !h[|h| - 1].Leased?)
    else
      var o := row.owner.value;
      && o in works && works[o].rule == id
      && h != [] && h[|h| - 1] == Leased(o, works[o].at)
      && row.until == Some(works[o].at + LEASE) && row.next <= works[o].at
      && r.enabled && !r.deleted
      && (works[o].revision.Some? ==> works[o].revision.value == r.revision)
  }

  /** Every applied evaluation follows its own claim, and the cutoffs never go back. */
  predicate SerialOk(row: Row, h: seq<Event>, clock: int) {
    && (forall j :: 0 <= j < |h| && h[j].Judged? ==> OwnClaimBefore(h, j) && CutoffOk(h[j], row.next, clock))
    && (forall i, j :: 0 <= i < j < |h| && h[i].Judged? && h[j].Judged? ==> h[i].cutoff <= h[j].cutoff)
    && SpacedOk(row, h)
  }

  predicate Unedited(h: seq<Event>, i: nat, j: nat)
    requires i <= j <= |h|
  {
    forall k :: i <= k < j ==> !h[k].Edited?
  }

  /** Without an edit in between, neighbouring cutoffs are at least the interval apart. */
  predicate SpacedOk(row: Row, h: seq<Event>) {
    && (forall j :: 0 <= j < |h| && h[j].Judged? && Unedited(h, j, |h|) ==> h[j].cutoff + DELAY + INTERVAL <= row.next)
    && (forall i, j :: 0 <= i < j < |h| && h[i].Judged? && h[j].Judged? && Unedited(h, i, j) ==>
          h[i].cutoff + INTERVAL <= h[j].cutoff)
  }

  lemma SpacedGrows(row: Row, h: seq<Event>, row': Row, e: Event)
    requires SpacedOk(row, h)
    requires match e
             case Leased(_, _) => row'.next == row.next
             case Judged(_, _, cutoff, _, _, _, _) =>
               row.next <= cutoff + DELAY && cutoff + DELAY + INTERVAL <= row'.next
             case Edited(_, _, _) => true
    ensures SpacedOk(row', h + [e])
  {
    var h' := h + [e];
    forall i, j | 0 <= i < j <= |h| ensures Unedited(h', i, j) <==> Unedited(h, i, j) {
      assert forall k :: i <= k < j ==> h'[k] == h[k];
    }
    forall j | 0 <= j < |h| && Unedited(h', j, |h'|) ensures Unedited(h, j, |h|) && !e.Edited? {
      assert h'[|h|] == e;
      assert forall k :: j <= k < |h| ==> h'[k] == h[k];
    }
  }

  /** The event just before an applied evaluation is the claim of its own worker, still unexpired. */
  predicate OwnClaimBefore(h: seq<Event>, j: nat)
    requires j < |h| && h[j].Judged?
  {
    j > 0 && h[j - 1].Leased? && h[j - 1].owner == h[j].owner && h[j - 1].at <= h[j].at < h[j - 1].at + LEASE
  }

  predicate CutoffOk(e: Event, next: int, clock: int)
    requires e.Judged?
  {
    e.cutoff + DELAY <= e.at <= clock && e.cutoff + DELAY <= next
  }

  /** A wait starts where the streak does, or after a gap in it. */
  predicate Starts(cs: seq<int>, k: nat) {
    k < |cs| && (k > 0 ==> cs[k] - cs[k - 1] > MAX_GAP)
  }

  ghost predicate Awaited(cs: seq<int>, p: int, c: int) {
    exists k :: Backs(cs, k, p, c) && Starts(cs, k)
  }

  ghost predicate Backed(r: Rule, st: State, h: seq<Event>) {
    && st.pendingSince.Some? && st.lastEvaluated.Some?
    && Awaited(Streak(h, r.revision), st.pendingSince.value, st.lastEvaluated.value)
  }

  ghost predicate WaitOk(r: Rule, row: Row, h: seq<Event>) {
    && (row.state.phase == Pending ==>
          Backed(r, row.state, h) && row.state.lastEvaluated.value + DELAY + INTERVAL <= row.next)
    && (row.state.phase != Pending && row.state.phase != Firing ==> Streak(h, r.revision) == [])
  }

  ghost predicate RuleOk(sys: System, id: nat)
    requires id in sys.db.rules && id in sys.db.states
  {
    var r, row, h := sys.db.rules[id], sys.db.states[id], History(sys, id);
    LeaseOk(r, row, h, sys.works, id) && SerialOk(row, h, sys.clock) && WaitOk(r, row, h)
  }

  predicate WorkOk(w: Work, clock: int) {
    && w.at <= clock
    && (w.cutoff.Some? ==> w.revision.Some? && w.at <= w.cutoff.value + DELAY <= clock)
  }

  ghost predicate Safe(sys: System) {
    && Coupled(sys.db)
    && (forall id :: id in sys.db.rules ==> RuleOk(sys, id))
    && (forall id :: id in sys.history ==> id in sys.db.rules)
    && (forall o :: o in sys.works ==> WorkOk(sys.works[o], sys.clock) && sys.works[o].rule in sys.db.rules)
  }

  lemma InitialSafe()
    ensures Safe(INITIAL)
  {
    EmptyCoupled();
  }

  // One rule at a time.

  lemma StreakGrows(h: seq<Event>, revision: nat, e: Event)
    ensures Streak(h + [e], revision) == Extended(Streak(h, revision), revision, e)
  {
    assert (h + [e])[..|h|] == h;
  }

  /** The claim becomes the last event; nothing else about the rule moves. */
  lemma ClaimedRule(r: Rule, row: Row, h: seq<Event>, owner: string, at: int)
    requires SerialOk(row, h, at) && WaitOk(r, row, h)
    ensures var row' := row.(owner := Some(owner), until := Some(at + LEASE));
            SerialOk(row', h + [Leased(owner, at)], at) && WaitOk(r, row', h + [Leased(owner, at)])
  {
    StreakGrows(h, r.revision, Leased(owner, at));
    SpacedGrows(row, h, row.(owner := Some(owner), until := Some(at + LEASE)), Leased(owner, at));
    hide SpacedOk;
    var h' := h + [Leased(owner, at)];
    forall j | 0 <= j < |h'| && h'[j].Judged? ensures OwnClaimBefore(h', j) {
      assert OwnClaimBefore(h, j);
    }
  }

  lemma EditedRule(row: Row, h: seq<Event>, r': Rule, row': Row, e: Event)
    requires e.Edited? && SerialOk(row, h, e.at) && row'.state.phase != Pending && row'.next == e.at
    ensures SerialOk(row', h + [e], e.at) && WaitOk(r', row', h + [e])
  {
    SpacedGrows(row, h, row', e);
    StreakGrows(h, r'.revision, e);
    hide SpacedOk;
    var h' := h + [e];
    forall j | 0 <= j < |h'| && h'[j].Judged? ensures OwnClaimBefore(h', j) {
      assert OwnClaimBefore(h, j);
    }
  }

  lemma WaitGoesOn(cs: seq<int>, p: int, c: int, cutoff: int)
    requires Awaited(cs, p, c) && c + INTERVAL <= cutoff
    ensures cs != [] && cs[|cs| - 1] == c
    ensures cutoff - c <= MAX_GAP ==> Awaited(cs + [cutoff], p, cutoff)
  {
    var k :| Backs(cs, k, p, c) && Starts(cs, k);
    if cutoff - c <= MAX_GAP {
      assert Backs(cs + [cutoff], k, p, cutoff) && Starts(cs + [cutoff], k);
    }
  }

  lemma WaitAnew(cs: seq<int>, cutoff: int)
    requires cs != [] ==> cutoff - cs[|cs| - 1] > MAX_GAP
    ensures Awaited(cs + [cutoff], cutoff, cutoff)
  {
    assert Backs(cs + [cutoff], |cs|, cutoff, cutoff) && Starts(cs + [cutoff], |cs|);
  }

  /** The wait continues from a steady streak, or starts with this evaluation. */
  lemma StreakBacks(r: Rule, row: Row, h: seq<Event>, cutoff: int)
    requires WaitOk(r, row, h) && RowOk(r, row.state) && row.state.phase != Firing
    requires row.next <= cutoff + DELAY
    ensures Awaited(Streak(h, r.revision) + [cutoff], Since(row.state, cutoff), cutoff)
  {
    hide Awaited, Streak;
    var cs := Streak(h, r.revision);
    if row.state.phase == Pending {
      WaitGoesOn(cs, row.state.pendingSince.value, row.state.lastEvaluated.value, cutoff);
    }
    if row.state.phase != Pending || cutoff - row.state.lastEvaluated.value > MAX_GAP {
      WaitAnew(cs, cutoff);
    }
  }

  lemma JudgedSerial(row: Row, h: seq<Event>, e: Event, row': Row)
    requires e.Judged? && SerialOk(row, h, e.at) && h != []
    requires h[|h| - 1].Leased? && h[|h| - 1].owner == e.owner
    requires row.next <= h[|h| - 1].at <= e.cutoff + DELAY <= e.at < h[|h| - 1].at + LEASE
    requires e.at + INTERVAL <= row'.next
    ensures SerialOk(row', h + [e], e.at)
  {
    SpacedGrows(row, h, row', e);
    hide SpacedOk;
    var h' := h + [e];
    forall j | 0 <= j < |h'| && h'[j].Judged? ensures OwnClaimBefore(h', j) && CutoffOk(h'[j], row'.next, e.at) {
      assert j < |h| ==> OwnClaimBefore(h, j) && CutoffOk(h[j], row.next, e.at);
    }
    forall j | 0 <= j < |h| && h[j].Judged? ensures h[j].cutoff <= e.cutoff {
      assert CutoffOk(h[j], row.next, e.at);
    }
  }

  lemma JudgedPending(r: Rule, st: State, cutoff: int, value: real, known: bool)
    requires Judge(r.spec, st, cutoff, value, known).0.phase == Pending
    ensures known && Condition(r.spec, value) && st.phase != Firing
    ensures var st' := Judge(r.spec, st, cutoff, value, known).0;
            st'.pendingSince == Some(Since(st, cutoff)) && st'.lastEvaluated == Some(cutoff)
  {}

  lemma JudgedWait(r: Rule, row: Row, h: seq<Event>, owner: string, cutoff: int, value: real, known: bool, now: int,
                   row': Row)
    requires RowOk(r, row.state) && WaitOk(r, row, h)
    requires row.next <= cutoff + DELAY <= now && row'.next == now + INTERVAL
    requires row'.state == Judge(r.spec, row.state, cutoff, value, known).0.(active := row'.state.active)
    ensures WaitOk(r, row', h + [Judged(owner, r.revision, cutoff, known, Condition(r.spec, value), value, now)])
  {
    var e := Judged(owner, r.revision, cutoff, known, Condition(r.spec, value), value, now);
    StreakGrows(h, r.revision, e);
    hide Streak, Judge, Condition, Awaited, Since, RowOk;
    if row'.state.phase == Pending {
      JudgedPending(r, row.state, cutoff, value, known);
      StreakBacks(r, row, h, cutoff);
    } else if row'.state.phase != Firing {
      JudgedNormal(r, row.state, cutoff, value, known);
    }
  }

  lemma JudgedNormal(r: Rule, st: State, cutoff: int, value: real, known: bool)
    requires Judge(r.spec, st, cutoff, value, known).0.phase !in {Pending, Firing}
    ensures !known || !Condition(r.spec, value)
  {}

  // What each transaction leaves alone.

  lemma EvaluationFrame(db: Db, id: nat, cutoff: int, value: real, known: bool, now: int)
    requires Coupled(db) && id in db.rules && db.rules[id].enabled
    ensures var db' := Evaluated(db, id, cutoff, value, known, now);
            && db'.rules == db.rules && db'.states.Keys == db.states.Keys
            && (forall other :: other in db.states && other != id ==> db'.states[other] == db.states[other])
            && (var st := Judge(db.rules[id].spec, db.states[id].state, cutoff, value, known).0;
                db'.states[id] == Row(st.(active := db'.states[id].state.active), None, None, now + INTERVAL))
  {
    assert RowOk(db.rules[id], db.states[id].state);
    hide Coupled, Judge;
    JudgedOk(db.rules[id], db.states[id].state, cutoff, value, known);
  }

  lemma MutationFrame(db: Db, id: nat, actor: nat, superAdmin: bool, action: Action, input: Input, now: int)
    ensures var (db', answer) := Mutated(db, id, actor, superAdmin, action, input, now);
            var target := if action == Create then db.nextRule else id;
            if answer != Ok then db' == db
            else
              && db'.rules.Keys == db.rules.Keys + {target} && db'.states.Keys == db.states.Keys + {target}
              && (action != Create ==> target in db.rules && target in db.states)
              && (forall other :: other in db.rules && other != target ==> db'.rules[other] == db.rules[other])
              && (forall other :: other in db.states && other != target ==> db'.states[other] == db.states[other])
              && db'.states[target] == Row(db'.states[target].state, None, None, now)
              && db'.states[target].state.phase != Pending
  {
    hide ValidInput, NameTaken, LiveRules;
  }

  // The steps.

  lemma Untouched(sys: System, sys': System, id: nat)
    requires id in sys.db.rules && id in sys.db.states && RuleOk(sys, id) && sys.clock <= sys'.clock
    requires id in sys'.db.rules && id in sys'.db.states
    requires sys'.db.rules[id] == sys.db.rules[id] && sys'.db.states[id] == sys.db.states[id]
    requires History(sys', id) == History(sys, id)
    requires forall o :: o in sys.works && sys.db.states[id].owner == Some(o) ==>
               o in sys'.works && sys'.works[o] == sys.works[o]
    ensures RuleOk(sys', id)
  {
    hide WaitOk;
  }

  lemma TickSafe(sys: System, elapsed: nat)
    requires Safe(sys)
    ensures Safe(Exec(sys, Tick(elapsed)))
  {
    hide Coupled, RuleOk;
    var sys' := Exec(sys, Tick(elapsed));
    assert RowsOk(sys.db.rules, sys.db.states) by { SameKeys(sys.db); }
    forall id | id in sys'.db.rules ensures RuleOk(sys', id) {
      Untouched(sys, sys', id);
    }
  }

  lemma SameKeys(db: Db)
    requires Coupled(db)
    ensures RowsOk(db.rules, db.states)
    ensures db.nextRule !in db.rules
  {}

  lemma ClaimSafe(sys: System, id: nat, owner: string)
    requires Safe(sys)
    ensures Safe(Exec(sys, Claim(id, owner)))
  {
    hide Coupled, RuleOk, RowsOk;
    SameKeys(sys.db);
    ClaimCoupled(sys.db, id, owner, sys.clock);
    var sys' := Exec(sys, Claim(id, owner));
    SameKeys(sys'.db);
    if sys' != sys {
      forall other | other in sys'.db.rules && other != id ensures RuleOk(sys', other) {
        Untouched(sys, sys', other);
      }
      ClaimedLease(sys, id, owner);
    }
  }

  lemma ClaimedLease(sys: System, id: nat, owner: string)
    requires Claimable(sys.db, id, sys.clock) && owner !in sys.works && RuleOk(sys, id)
    ensures RuleOk(Exec(sys, Claim(id, owner)), id)
  {
    ClaimedRule(sys.db.rules[id], sys.db.states[id], History(sys, id), owner, sys.clock);
    hide SerialOk, WaitOk;
  }

  /** A worker learns something: the rule's revision as it is now, or its own cutoff. */
  lemma WorkerSafe(sys: System, owner: string, w: Work)
    requires Safe(sys) && owner in sys.works && WorkOk(w, sys.clock)
    requires w.rule == sys.works[owner].rule && w.at == sys.works[owner].at
    requires w.revision == sys.works[owner].revision
             || (w.rule in sys.db.rules && w.revision == Some(sys.db.rules[w.rule].revision))
    ensures Safe(sys.(works := sys.works[owner := w]))
  {
    hide Coupled, RowsOk, SerialOk, WaitOk;
    SameKeys(sys.db);
    var sys' := sys.(works := sys.works[owner := w]);
    forall id | id in sys'.db.rules ensures RuleOk(sys', id) {
      assert RuleOk(sys, id);
    }
  }

  lemma FetchSafe(sys: System, owner: string)
    requires Safe(sys)
    ensures Safe(Exec(sys, Fetch(owner)))
  {
    hide Coupled, RuleOk;
    if owner in sys.works && Live(sys.db, sys.works[owner].rule) {
      var w := sys.works[owner];
      WorkerSafe(sys, owner, w.(revision := Some(sys.db.rules[w.rule].revision)));
    }
  }

  lemma CutSafe(sys: System, owner: string)
    requires Safe(sys)
    ensures Safe(Exec(sys, Cut(owner)))
  {
    hide Coupled, RuleOk;
    if owner in sys.works && sys.works[owner].revision.Some? {
      WorkerSafe(sys, owner, sys.works[owner].(cutoff := Some(sys.clock - DELAY)));
    }
  }

  /** The fence says exactly that the worker's own claim is the last event of the rule and has not expired. */
  lemma FenceMeaning(sys: System, owner: string)
    requires Safe(sys) && CanApply(sys, owner)
    ensures var w := sys.works[owner];
            var h := History(sys, w.rule);
            && w.rule in sys.db.rules && w.rule in sys.db.states
            && (Fenced(sys.db, w.rule, w.revision.value, owner, sys.clock)
                <==> h != [] && h[|h| - 1] == Leased(owner, w.at) && sys.clock < w.at + LEASE)
  {
    hide Coupled, SerialOk, WaitOk, RowsOk;
    SameKeys(sys.db);
    assert RuleOk(sys, sys.works[owner].rule);
  }

  lemma AppliedRule(sys: System, owner: string, value: real, known: bool)
    requires Safe(sys) && CanApply(sys, owner)
    requires var w := sys.works[owner]; Fenced(sys.db, w.rule, w.revision.value, owner, sys.clock)
    ensures var id, sys' := sys.works[owner].rule, Exec(sys, Apply(owner, value, known));
            id in sys'.db.rules && id in sys'.db.states && RuleOk(sys', id)
  {
    hide Coupled, Judge, Evaluated, RowsOk, SerialOk, WaitOk, RowOk, Condition;
    FenceMeaning(sys, owner);
    var w := sys.works[owner];
    var id, cutoff := w.rule, w.cutoff.value;
    var r, row, h := sys.db.rules[id], sys.db.states[id], History(sys, id);
    RowIsOk(sys.db, id);
    assert RuleOk(sys, id);
    EvaluationFrame(sys.db, id, cutoff, value, known, sys.clock);
    var row' := Evaluated(sys.db, id, cutoff, value, known, sys.clock).states[id];
    var e := Judged(owner, r.revision, cutoff, known, Condition(r.spec, value), value, sys.clock);
    JudgedSerial(row, h, e, row');
    JudgedWait(r, row, h, owner, cutoff, value, known, sys.clock, row');
  }

  lemma RowIsOk(db: Db, id: nat)
    requires Coupled(db) && id in db.rules
    ensures id in db.states && RowOk(db.rules[id], db.states[id].state)
  {}

  lemma ApplySafe(sys: System, owner: string, value: real, known: bool)
    requires Safe(sys)
    ensures Safe(Exec(sys, Apply(owner, value, known)))
  {
    hide Coupled, Judge, Evaluated, RowsOk, RuleOk, RowOk, Condition, Fenced;
    SameKeys(sys.db);
    if CanApply(sys, owner) {
      var w, sys' := sys.works[owner], Exec(sys, Apply(owner, value, known));
      ApplyCoupled(sys.db, w.rule, w.revision.value, owner, w.cutoff.value, value, known, sys.clock);
      SameKeys(sys'.db);
      if Fenced(sys.db, w.rule, w.revision.value, owner, sys.clock) {
        AppliedRule(sys, owner, value, known);
        FencedEnabled(sys.db, w.rule, w.revision.value, owner, sys.clock);
        EvaluationFrame(sys.db, w.rule, w.cutoff.value, value, known, sys.clock);
        forall id | id in sys'.db.rules && id != w.rule ensures RuleOk(sys', id) {
          Untouched(sys, sys', id);
        }
      }
    }
  }

  lemma FencedEnabled(db: Db, id: nat, revision: nat, owner: string, now: int)
    requires Fenced(db, id, revision, owner, now)
    ensures id in db.rules && db.rules[id].enabled
  {}

  lemma MutateSafe(sys: System, id: nat, actor: nat, superAdmin: bool, action: Action, input: Input)
    requires Safe(sys)
    ensures Safe(Exec(sys, Mutate(id, actor, superAdmin, action, input)))
  {
    hide Coupled, Safe, Mutated;
    MutationCoupledHere(sys, id, actor, superAdmin, action, input);
    MutationFrame(sys.db, id, actor, superAdmin, action, input, sys.clock);
    var sys' := Exec(sys, Mutate(id, actor, superAdmin, action, input));
    if Mutated(sys.db, id, actor, superAdmin, action, input, sys.clock).1 == Ok {
      EditSafe(sys, sys', if action == Create then sys.db.nextRule else id, Edited(action, input, sys.clock));
    }
  }

  lemma MutationCoupledHere(sys: System, id: nat, actor: nat, superAdmin: bool, action: Action, input: Input)
    requires Safe(sys)
    ensures Coupled(Mutated(sys.db, id, actor, superAdmin, action, input, sys.clock).0)
  {
    hide Coupled, RuleOk, Mutated;
    MutationCoupled(sys.db, id, actor, superAdmin, action, input, sys.clock);
  }

  /** One rule's row is rewritten with its lease cleared; all others are left alone. */
  lemma EditSafe(sys: System, sys': System, id: nat, e: Event)
    requires Safe(sys) && Coupled(sys'.db)
    requires e.Edited? && e.at == sys.clock && sys' == sys.(db := sys'.db, history := Noted(sys, id, e))
    requires sys'.db.rules.Keys == sys.db.rules.Keys + {id} && sys'.db.states.Keys == sys.db.states.Keys + {id}
    requires forall other :: other in sys.db.rules && other != id ==> sys'.db.rules[other] == sys.db.rules[other]
    requires forall other :: other in sys.db.states && other != id ==> sys'.db.states[other] == sys.db.states[other]
    requires sys'.db.states[id] == Row(sys'.db.states[id].state, None, None, sys.clock)
    requires sys'.db.states[id].state.phase != Pending
    ensures Safe(sys')
  {
    hide Coupled, RowsOk, RuleOk;
    SameKeys(sys.db);
    forall other | other in sys'.db.rules && other != id ensures RuleOk(sys', other) {
      Untouched(sys, sys', other);
    }
    MutatedRule(sys, sys', id, e);
  }

  lemma MutatedRule(sys: System, sys': System, id: nat, e: Event)
    requires id in sys.db.rules ==> id in sys.db.states && RuleOk(sys, id)
    requires id !in sys.db.rules ==> id !in sys.history
    requires id in sys'.db.rules && id in sys'.db.states
    requires e.Edited? && e.at == sys.clock && sys' == sys.(db := sys'.db, history := Noted(sys, id, e))
    requires sys'.db.states[id] == Row(sys'.db.states[id].state, None, None, sys.clock)
    requires sys'.db.states[id].state.phase != Pending
    ensures RuleOk(sys', id)
  {
    hide WaitOk;
    var row := if id in sys.db.states && id in sys.db.rules then sys.db.states[id] else sys'.db.states[id];
    EditedRule(row, History(sys, id), sys'.db.rules[id], sys'.db.states[id], e);
  }

  lemma StepSafe(sys: System, step: Step)
    requires Safe(sys)
    ensures Safe(Exec(sys, step))
  {
    hide Safe, Exec;
    match step
    case Tick(elapsed) => TickSafe(sys, elapsed);
    case Claim(id, owner) => ClaimSafe(sys, id, owner);
    case Fetch(owner) => FetchSafe(sys, owner);
    case Cut(owner) => CutSafe(sys, owner);
    case Apply(owner, value, known) => ApplySafe(sys, owner, value, known);
    case Mutate(id, actor, superAdmin, action, input) => MutateSafe(sys, id, actor, superAdmin, action, input);
  }

  lemma {:induction false} RunSafe(sys: System, steps: seq<Step>)
    requires Safe(sys)
    ensures Safe(Run(sys, steps))
    decreases |steps|
  {
    hide Safe, Exec;
    if steps != [] {
      StepSafe(sys, steps[0]);
      RunSafe(Exec(sys, steps[0]), steps[1..]);
    }
  }
}
