/**
 The audit of a post that is edited and deleted in one load test. Only its author deletes a post, once, and nothing is
 edited afterwards. The audit wants the row gone after a confirmed deletion, and it wants a row with the text of an
 edit wherever there was an edit: so it flags every run that does both. This module says exactly when no run is flagged.
 */
module DeleteAudit {
  import opened EditAudit
  import opened Options
  import opened RegisterAudit

  /** A deletion, and who asks for it. */
  type Deletion = Write<nat>

  datatype Fate = Kept | Deleted(deletion: nat, at: real)

  // The runs.

  predicate AllUncertain(ds: seq<Deletion>, but: int) {
    forall i :: 0 <= i < |ds| && i != but ==> ds[i].uncertain
  }

  ghost predicate AllBefore(es: seq<Effect>, at: real) {
    forall k :: 0 <= k < |es| ==> es[k].at <= at
  }

  /** A correct run: the edits take effect in some order, and then at most one deletion by the author does. */
  ghost predicate Run(ws: seq<Write<Text>>, ds: seq<Deletion>, author: nat, es: seq<Effect>, fate: Fate) {
    && Schedule(ws, es)
    && match fate
       case Kept => AllUncertain(ds, -1)
       case Deleted(d, at) =>
         && d < |ds| && ds[d].value == author && ds[d].started <= at <= ds[d].completed
         && AllUncertain(ds, d) && AllBefore(es, at)
  }

  ghost function Left(ws: seq<Write<Text>>, es: seq<Effect>, fate: Fate, before: Post): Option<Post>
    requires Schedule(ws, es)
  {
    ScheduleInRange(ws, es);
    if fate.Kept? then Some(Edits(ws, es, before)) else None
  }

  // The audit.

  predicate AcceptsDeletion(d: Deletion, found: Option<Post>) {
    found.None? || (d.uncertain && found.value.author == d.value)
  }

  /** Posts without an edit in the log are not looked at for their text. */
  predicate Accepts(ws: seq<Write<Text>>, ds: seq<Deletion>, found: Option<Post>, baseline: Option<Post>) {
    && (ws != [] ==> AcceptsEdit(ws, found, baseline))
    && forall i :: 0 <= i < |ds| ==> AcceptsDeletion(ds[i], found)
  }

  ghost predicate NoRunFlagged(ws: seq<Write<Text>>, ds: seq<Deletion>, before: Post, baseline: Option<Post>) {
    forall es, fate :: Run(ws, ds, before.author, es, fate) ==> Accepts(ws, ds, Left(ws, es, fate, before), baseline)
  }

  // The condition.

  /** Some deletion by the author can be the only one, and come after every certain edit. */
  predicate CanBeDeleted(ws: seq<Write<Text>>, ds: seq<Deletion>, author: nat) {
    exists d :: 0 <= d < |ds| && DeletionFits(ws, ds, author, d)
  }

  predicate DeletionFits(ws: seq<Write<Text>>, ds: seq<Deletion>, author: nat, d: nat)
    requires d < |ds|
  {
    && ds[d].value == author && AllUncertain(ds, d)
    && forall i :: 0 <= i < |ws| && !ws[i].uncertain ==> ws[i].started <= ds[d].completed
  }

  predicate AllBy(ds: seq<Deletion>, author: nat) {
    forall i :: 0 <= i < |ds| ==> ds[i].value == author
  }

  ghost predicate NoFalseAlarmAtAll(ws: seq<Write<Text>>, ds: seq<Deletion>, before: Post, captured: bool) {
    && (AllUncertain(ds, -1) ==> AllBy(ds, before.author) && (ws != [] ==> NoFalseAlarm(ws, before, captured)))
    && (ws != [] ==> !CanBeDeleted(ws, ds, before.author))
  }

  // Its two halves.

  /** A post that some run deletes: the certain edits take effect at their starts, then the deletion at its end. */
  lemma DeletedRun(ws: seq<Write<Text>>, ds: seq<Deletion>, author: nat, d: nat) returns (es: seq<Effect>)
    requires Timed(ws) && Timed(ds) && d < |ds| && DeletionFits(ws, ds, author, d)
    ensures Run(ws, ds, author, es, Deleted(d, ds[d].completed))
  {
    es := ByStart(ws, |ws|, |ws|);
    ByStartOrder(ws, |ws|, |ws|);
    forall k | 0 <= k < |es| ensures Within(ws, es[k]) && es[k].at <= ds[d].completed {
      assert es[k] in es && StartOf(ws, |ws|, |ws|, es[k]);
    }
    forall i | 0 <= i < |ws| && !ws[i].uncertain ensures Happens(es, i) {
      assert StartOf(ws, |ws|, |ws|, Effect(i, ws[i].started));
      var k :| 0 <= k < |es| && es[k] == Effect(i, ws[i].started);
    }
  }

  lemma RunDeletes(ws: seq<Write<Text>>, ds: seq<Deletion>, author: nat, es: seq<Effect>, fate: Fate)
    requires Run(ws, ds, author, es, fate) && fate.Deleted?
    ensures CanBeDeleted(ws, ds, author)
  {
    var d := fate.deletion;
    forall i | 0 <= i < |ws| && !ws[i].uncertain ensures ws[i].started <= ds[d].completed {
      assert Happens(es, i);
      var k :| 0 <= k < |es| && es[k].write == i;
      assert Within(ws, es[k]);
    }
    assert DeletionFits(ws, ds, author, d);
  }

  /** In the runs that keep the post, what remains is the check of the edits and of who asked for the deletions. */
  lemma KeptPasses(ws: seq<Write<Text>>, ds: seq<Deletion>, es: seq<Effect>, before: Post, baseline: Option<Post>)
    requires Schedule(ws, es) && AllUncertain(ds, -1)
    ensures Accepts(ws, ds, Left(ws, es, Kept, before), baseline)
            <==> AllBy(ds, before.author) && (ws != [] ==> RunPasses(ws, es, before, baseline))
  {
    hide Schedule, AcceptsEdit;
    ScheduleInRange(ws, es);
    RevisionCounts(ws, es, before);
  }

  lemma Unflagged(ws: seq<Write<Text>>, ds: seq<Deletion>, before: Post, baseline: Option<Post>)
    requires Timed(ws) && before.revision >= 1 && (baseline == None || baseline == Some(before))
    requires NoFalseAlarmAtAll(ws, ds, before, baseline.Some?)
    ensures NoRunFlagged(ws, ds, before, baseline)
  {
    hide NoFalseAlarm, AcceptsEdit, Schedule, CanBeDeleted;
    forall es, fate | Run(ws, ds, before.author, es, fate)
      ensures Accepts(ws, ds, Left(ws, es, fate, before), baseline)
    {
      if fate.Kept? {
        KeptPasses(ws, ds, es, before, baseline);
        if ws != [] {
          RunIsSafe(ws, es, before, baseline);
        }
      } else {
        RunDeletes(ws, ds, before.author, es, fate);
      }
    }
  }

  lemma Flagged(ws: seq<Write<Text>>, ds: seq<Deletion>, before: Post, baseline: Option<Post>)
    requires Timed(ws) && Timed(ds) && before.revision >= 1 && (baseline == None || baseline == Some(before))
    requires !NoFalseAlarmAtAll(ws, ds, before, baseline.Some?)
    ensures !NoRunFlagged(ws, ds, before, baseline)
  {
    hide NoFalseAlarm, Schedule, Edits, RunPasses;
    if ws != [] && CanBeDeleted(ws, ds, before.author) {
      var d :| 0 <= d < |ds| && DeletionFits(ws, ds, before.author, d);
      var es := DeletedRun(ws, ds, before.author, d);
      assert !AcceptsEdit(ws, None, baseline);
      assert !Accepts(ws, ds, Left(ws, es, Deleted(d, ds[d].completed), before), baseline);
    } else {
      var es := KeptFlagged(ws, ds, before, baseline);
      assert Run(ws, ds, before.author, es, Kept);
    }
  }

  lemma KeptFlagged(ws: seq<Write<Text>>, ds: seq<Deletion>, before: Post, baseline: Option<Post>)
    returns (es: seq<Effect>)
    requires Timed(ws) && before.revision >= 1 && (baseline == None || baseline == Some(before))
    requires AllUncertain(ds, -1)
    requires AllBy(ds, before.author) ==> ws != [] && !NoFalseAlarm(ws, before, baseline.Some?)
    ensures Schedule(ws, es) && !Accepts(ws, ds, Left(ws, es, Kept, before), baseline)
  {
    hide NoFalseAlarm, Edits, RunPasses, Timed;
    if !AllBy(ds, before.author) {
      es := AnySchedule(ws);
    } else {
      NeverFlaggedIff(ws, before, baseline);
      es :| Schedule(ws, es) && !RunPasses(ws, es, before, baseline);
    }
    KeptPasses(ws, ds, es, before, baseline);
  }

  lemma AnySchedule(ws: seq<Write<Text>>) returns (es: seq<Effect>)
    requires Timed(ws)
    ensures Schedule(ws, es)
  {
    if SomeCertain(ws) {
      es := CertainOnly(ws);
    } else {
      es := [];
    }
  }

  /**
   No correct run of these edits and deletions is flagged if and only if: where no deletion is certain, all were asked
   for by the author and the edits alone raise no false alarm; and where there is an edit, no deletion can come last.
   */
  lemma NoRunFlaggedIff(ws: seq<Write<Text>>, ds: seq<Deletion>, before: Post, baseline: Option<Post>)
    requires Timed(ws) && Timed(ds) && before.revision >= 1
    requires baseline == None || baseline == Some(before)
    ensures NoRunFlagged(ws, ds, before, baseline) <==> NoFalseAlarmAtAll(ws, ds, before, baseline.Some?)
  {
    hide *;
    if NoFalseAlarmAtAll(ws, ds, before, baseline.Some?) {
      Unflagged(ws, ds, before, baseline);
    } else {
      Flagged(ws, ds, before, baseline);
    }
  }

  /** One confirmed edit and then one confirmed deletion by the author: the run is correct, and flagged. */
  lemma EditThenDeletionIsFlagged(before: Post, text: Text, baseline: Option<Post>)
    requires before.revision >= 1 && (baseline == None || baseline == Some(before))
    ensures var ws, ds := [Write(text, 1.0, 2.0, false)], [Write(before.author, 3.0, 4.0, false)];
            && Run(ws, ds, before.author, [Effect(0, 1.0)], Deleted(0, 3.0))
            && !NoRunFlagged(ws, ds, before, baseline)
  {
    var ws, ds := [Write(text, 1.0, 2.0, false)], [Write(before.author, 3.0, 4.0, false)];
    var es := [Effect(0, 1.0)];
    assert Within(ws, es[0]) && es[0].write == 0;
    assert DeletionFits(ws, ds, before.author, 0);
    NoRunFlaggedIff(ws, ds, before, baseline);
  }
}
