/**
 Which final values could a register have, given only the start and completion times of the writes to it?
 The audit answers with a candidate set; here that answer is compared with the runs themselves.
 A register is one like, bookmark or follow (present or not), or the text of one post.
 */
module RegisterAudit {
  import opened Options

  /** A write that may have taken effect anywhere between its start and its completion, or never if uncertain. */
  datatype Write<V> = Write(value: V, started: real, completed: real, uncertain: bool)

  predicate Timed<V>(ws: seq<Write<V>>) {
    forall i :: 0 <= i < |ws| ==> 0.0 <= ws[i].started <= ws[i].completed
  }

  predicate SomeCertain<V>(ws: seq<Write<V>>) {
    exists i :: 0 <= i < |ws| && !ws[i].uncertain
  }

  /** Some certain write started after time zero. */
  predicate CertainAfterZero<V>(ws: seq<Write<V>>) {
    exists i :: 0 <= i < |ws| && !ws[i].uncertain && ws[i].started > 0.0
  }

  // What the audit computes.

  function NewestStart<V>(ws: seq<Write<V>>): Option<real> {
    if ws == [] then None
    else
      var newest, w := NewestStart(ws[..|ws| - 1]), ws[|ws| - 1];
      if w.uncertain || (newest.Some? && newest.value >= w.started) then newest else Some(w.started)
  }

  /** The newest start of a certain write; zero stands for none. */
  function Latest<V>(ws: seq<Write<V>>): real {
    match NewestStart(ws)
    case Some(t) => t
    case None => 0.0
  }

  function Candidates<V(==)>(ws: seq<Write<V>>): set<V> {
    set w | w in ws && w.completed >= Latest(ws) :: w.value
  }

  predicate AcceptsPresence(ws: seq<Write<bool>>, present: bool) {
    Latest(ws) == 0.0 || present in Candidates(ws)
  }

  // What a run can do.

  datatype Effect = Effect(write: nat, at: real)

  ghost predicate Sorted(es: seq<Effect>) {
    forall i, j :: 0 <= i < j < |es| ==> es[i].at <= es[j].at
  }

  ghost predicate Distinct(es: seq<Effect>) {
    forall i, j :: 0 <= i < j < |es| ==> es[i].write != es[j].write
  }

  ghost predicate Within<V>(ws: seq<Write<V>>, e: Effect) {
    e.write < |ws| && ws[e.write].started <= e.at <= ws[e.write].completed
  }

  ghost predicate Happens(es: seq<Effect>, write: nat) {
    exists k :: 0 <= k < |es| && es[k].write == write
  }

  /** Effect points in order: each write at most once and within its interval, each certain write once. */
  ghost predicate Schedule<V>(ws: seq<Write<V>>, es: seq<Effect>) {
    && Sorted(es) && Distinct(es)
    && (forall k :: 0 <= k < |es| ==> Within(ws, es[k]))
    && (forall i :: 0 <= i < |ws| && !ws[i].uncertain ==> Happens(es, i))
  }

  ghost function Replay<V>(ws: seq<Write<V>>, es: seq<Effect>, initial: V): V
    requires forall k :: 0 <= k < |es| ==> es[k].write < |ws|
  {
    if es == [] then initial else Replay(ws, es[1..], ws[es[0].write].value)
  }

  ghost predicate Explains<V>(ws: seq<Write<V>>, es: seq<Effect>, initial: V, final: V) {
    Schedule(ws, es) && Replay(ws, es, initial) == final
  }

  ghost predicate Explainable<V(!new)>(ws: seq<Write<V>>, final: V) {
    exists es, initial :: Explains(ws, es, initial, final)
  }

  // The newest start.

  lemma {:induction false} NewestStartIsMax<V>(ws: seq<Write<V>>)
    ensures NewestStart(ws).None? <==> !SomeCertain(ws)
    ensures forall i :: 0 <= i < |ws| && !ws[i].uncertain ==> ws[i].started <= Latest(ws)
    ensures SomeCertain(ws) ==> exists i :: 0 <= i < |ws| && !ws[i].uncertain && ws[i].started == Latest(ws)
  {
    if ws != [] {
      var n := |ws| - 1;
      NewestStartIsMax(ws[..n]);
      assert SomeCertain(ws[..n]) ==> SomeCertain(ws);
      assert !ws[n].uncertain ==> SomeCertain(ws);
      if SomeCertain(ws[..n]) {
        var i :| 0 <= i < n && !ws[..n][i].uncertain && ws[..n][i].started == Latest(ws[..n]);
        assert !ws[i].uncertain && ws[i].started == Latest(ws[..n]);
      }
    }
  }

  // From a run to the candidates.

  lemma {:induction false} LastEffectWins<V>(ws: seq<Write<V>>, es: seq<Effect>, initial: V)
    requires forall k :: 0 <= k < |es| ==> es[k].write < |ws|
    ensures Replay(ws, es, initial) == if es == [] then initial else ws[es[|es| - 1].write].value
  {
    if es != [] {
      LastEffectWins(ws, es[1..], ws[es[0].write].value);
    }
  }

  /** The last effect belongs to a write that completed after the newest certain start. */
  lemma LastEffectIsRecent<V>(ws: seq<Write<V>>, es: seq<Effect>)
    requires Schedule(ws, es) && SomeCertain(ws)
    ensures es != [] && ws[es[|es| - 1].write].completed >= Latest(ws)
  {
    NewestStartIsMax(ws);
    var i :| 0 <= i < |ws| && !ws[i].uncertain && ws[i].started == Latest(ws);
    assert Happens(es, i);
    var k :| 0 <= k < |es| && es[k].write == i;
    assert Within(ws, es[k]) && Within(ws, es[|es| - 1]);
  }

  lemma RunEndsInCandidates<V>(ws: seq<Write<V>>, es: seq<Effect>, initial: V)
    requires Schedule(ws, es) && SomeCertain(ws)
    ensures Replay(ws, es, initial) in Candidates(ws)
  {
    LastEffectWins(ws, es, initial);
    LastEffectIsRecent(ws, es);
    assert ws[es[|es| - 1].write] in ws;
  }

  // From a candidate to a run: the certain writes in order of their starts, the chosen write last.

  ghost function Inserted(es: seq<Effect>, e: Effect): seq<Effect> {
    if es == [] || es[|es| - 1].at <= e.at then es + [e]
    else Inserted(es[..|es| - 1], e) + [es[|es| - 1]]
  }

  lemma {:induction false} InsertedMembers(es: seq<Effect>, e: Effect)
    ensures forall x :: x in Inserted(es, e) <==> x in es || x == e
  {
    if es != [] && es[|es| - 1].at > e.at {
      InsertedMembers(es[..|es| - 1], e);
      assert es == es[..|es| - 1] + [es[|es| - 1]];
    }
  }

  lemma {:induction false} InsertedOrder(es: seq<Effect>, e: Effect)
    requires Sorted(es) && Distinct(es) && forall k :: 0 <= k < |es| ==> es[k].write != e.write
    ensures Sorted(Inserted(es, e)) && Distinct(Inserted(es, e))
  {
    InsertedMembers(es, e);
    if es != [] && es[|es| - 1].at > e.at {
      var front, last := es[..|es| - 1], es[|es| - 1];
      InsertedOrder(front, e);
      InsertedMembers(front, e);
      var into := Inserted(front, e);
      forall i | 0 <= i < |into| ensures into[i].at <= last.at && into[i].write != last.write {
        assert into[i] in into;
      }
    }
  }

  ghost function ByStart<V>(ws: seq<Write<V>>, skip: nat, n: nat): seq<Effect>
    requires n <= |ws|
  {
    if n == 0 then []
    else if n - 1 == skip || ws[n - 1].uncertain then ByStart(ws, skip, n - 1)
    else Inserted(ByStart(ws, skip, n - 1), Effect(n - 1, ws[n - 1].started))
  }

  ghost predicate StartOf<V>(ws: seq<Write<V>>, skip: nat, n: nat, e: Effect) {
    e.write < n <= |ws| && e.write != skip && !ws[e.write].uncertain && e.at == ws[e.write].started
  }

  lemma {:induction false} ByStartOrder<V>(ws: seq<Write<V>>, skip: nat, n: nat)
    requires n <= |ws|
    ensures Sorted(ByStart(ws, skip, n)) && Distinct(ByStart(ws, skip, n))
    ensures forall e :: e in ByStart(ws, skip, n) <==> StartOf(ws, skip, n, e)
  {
    if n > 0 {
      ByStartOrder(ws, skip, n - 1);
      if n - 1 != skip && !ws[n - 1].uncertain {
        var es, e := ByStart(ws, skip, n - 1), Effect(n - 1, ws[n - 1].started);
        forall k | 0 <= k < |es| ensures es[k].write != e.write {
          assert StartOf(ws, skip, n - 1, es[k]);
        }
        InsertedOrder(es, e);
        InsertedMembers(es, e);
      }
    }
  }

  lemma ChosenLast<V>(ws: seq<Write<V>>, c: nat, starts: seq<Effect>, at: real)
    requires c < |ws| && ws[c].started <= at <= ws[c].completed && Timed(ws)
    requires forall i :: 0 <= i < |ws| && !ws[i].uncertain ==> ws[i].started <= at
    requires Sorted(starts) && Distinct(starts)
    requires forall e :: e in starts <==> StartOf(ws, c, |ws|, e)
    ensures Schedule(ws, starts + [Effect(c, at)])
  {
    var es := starts + [Effect(c, at)];
    forall k | 0 <= k < |starts|
      ensures Within(ws, starts[k]) && starts[k].at <= at && starts[k].write != c
    {
      assert StartOf(ws, c, |ws|, starts[k]);
    }
    forall i | 0 <= i < |ws| && !ws[i].uncertain ensures Happens(es, i) {
      if i == c {
        assert es[|es| - 1].write == i;
      } else {
        assert StartOf(ws, c, |ws|, Effect(i, ws[i].started));
        var k :| 0 <= k < |starts| && starts[k] == Effect(i, ws[i].started);
        assert es[k].write == i;
      }
    }
  }

  lemma CandidateHasRun<V>(ws: seq<Write<V>>, c: nat, initial: V) returns (es: seq<Effect>)
    requires Timed(ws) && c < |ws| && ws[c].completed >= Latest(ws)
    ensures Explains(ws, es, initial, ws[c].value)
    ensures forall k :: 0 <= k < |es| ==> es[k].write == c || !ws[es[k].write].uncertain
  {
    hide ByStart, Latest, Schedule, Replay;
    var starts := ByStart(ws, c, |ws|);
    ByStartOrder(ws, c, |ws|);
    NewestStartIsMax(ws);
    es := starts + [Effect(c, ws[c].completed)];
    ChosenLast(ws, c, starts, ws[c].completed);
    ScheduleInRange(ws, es);
    LastEffectWins(ws, es, initial);
    forall k | 0 <= k < |starts| ensures StartOf(ws, c, |ws|, starts[k]) {
      assert starts[k] in starts;
    }
  }

  lemma ScheduleInRange<V>(ws: seq<Write<V>>, es: seq<Effect>)
    requires Schedule(ws, es)
    ensures forall k :: 0 <= k < |es| ==> es[k].write < |ws|
  {
    forall k | 0 <= k < |es| ensures es[k].write < |ws| {
      assert Within(ws, es[k]);
    }
  }

  // Exactness.

  /** With at least one certain write, the candidates are exactly the values a run can end in. */
  lemma CandidatesExact<V(!new)>(ws: seq<Write<V>>, final: V)
    requires Timed(ws) && SomeCertain(ws)
    ensures final in Candidates(ws) <==> Explainable(ws, final)
  {
    if Explainable(ws, final) {
      var es, initial :| Explains(ws, es, initial, final);
      RunEndsInCandidates(ws, es, initial);
    }
    if final in Candidates(ws) {
      var w :| w in ws && w.completed >= Latest(ws) && w.value == final;
      var c :| 0 <= c < |ws| && ws[c] == w;
      var es := CandidateHasRun(ws, c, final);
    }
  }

  /** Without one, every value is possible: nothing need have happened. */
  lemma UncertainExplainsAll<V(!new)>(ws: seq<Write<V>>, final: V)
    requires !SomeCertain(ws)
    ensures Explainable(ws, final)
  {
    assert Explains(ws, [], final, final);
  }

  /** A run that happened is never flagged. */
  lemma PresenceNeverFlagged(ws: seq<Write<bool>>, es: seq<Effect>, initial: bool)
    requires Timed(ws) && Schedule(ws, es)
    ensures AcceptsPresence(ws, Replay(ws, es, initial))
  {
    NewestStartIsMax(ws);
    if SomeCertain(ws) {
      RunEndsInCandidates(ws, es, initial);
    }
  }

  /** Both kinds of write have been made, a put and a delete. */
  predicate BothMethods(ws: seq<Write<bool>>) {
    (exists i :: 0 <= i < |ws| && ws[i].value) && (exists i :: 0 <= i < |ws| && !ws[i].value)
  }

  /**
   The presence check is exact, with one exception. Zero stands both for "no certain write" and for a certain
   write that started at time zero; in the second case the check also lets through the value nobody wrote.
   */
  lemma PresenceExact(ws: seq<Write<bool>>)
    requires Timed(ws)
    ensures (forall present :: AcceptsPresence(ws, present) <==> Explainable(ws, present))
            <==> (!SomeCertain(ws) || CertainAfterZero(ws) || BothMethods(ws))
  {
    LatestAfterZero(ws);
    if Latest(ws) == 0.0 {
      AllCandidates(ws, false);
      AllCandidates(ws, true);
    }
    hide Latest, Candidates, Explainable;
    forall present: bool
      ensures SomeCertain(ws) ==> (present in Candidates(ws) <==> Explainable(ws, present))
      ensures !SomeCertain(ws) ==> Explainable(ws, present)
    {
      if SomeCertain(ws) {
        CandidatesExact(ws, present);
      } else {
        UncertainExplainsAll(ws, present);
      }
    }
  }

  /** If the newest certain start is zero, every write is recent enough to be a candidate. */
  lemma AllCandidates<V>(ws: seq<Write<V>>, v: V)
    requires Timed(ws) && Latest(ws) == 0.0
    ensures v in Candidates(ws) <==> exists i :: 0 <= i < |ws| && ws[i].value == v
  {
    if exists i :: 0 <= i < |ws| && ws[i].value == v {
      var i :| 0 <= i < |ws| && ws[i].value == v;
      assert ws[i] in ws;
    }
  }

  lemma LatestAfterZero<V>(ws: seq<Write<V>>)
    requires Timed(ws)
    ensures Latest(ws) >= 0.0
    ensures Latest(ws) > 0.0 <==> CertainAfterZero(ws)
    ensures CertainAfterZero(ws) ==> SomeCertain(ws)
  {
    NewestStartIsMax(ws);
  }

  /** One confirmed like from time zero: the audit would also accept that it is gone, and no run ends so. */
  lemma ZeroStartLetsThrough(completed: real)
    requires completed >= 0.0
    ensures var ws := [Write(true, 0.0, completed, false)];
            Timed(ws) && AcceptsPresence(ws, false) && !Explainable(ws, false)
  {
    var ws := [Write(true, 0.0, completed, false)];
    assert !ws[0].uncertain;
    LatestAfterZero(ws);
    CandidatesExact(ws, false);
  }
}
