/**
 The audit of post edits. The server leaves a post alone when an edit repeats the text it already has, while
 the audit demands that the revision has moved: so there are correct runs that the audit flags. This module
 says exactly for which posts that cannot happen.
 */
module EditAudit {
  import opened Options
  import opened RegisterAudit

  datatype Text = Text(title: string, content: string)
  datatype Post = Post(author: nat, text: Text, editedAt: Option<real>, revision: nat)

  // The server.

  function Edited(post: Post, text: Text, at: real): Post {
    if post.text == text then post
    else post.(text := text, editedAt := Some(at), revision := post.revision + 1)
  }

  ghost function Edits(ws: seq<Write<Text>>, es: seq<Effect>, post: Post): Post
    requires forall k :: 0 <= k < |es| ==> es[k].write < |ws|
  {
    if es == [] then post else Edits(ws, es[1..], Edited(post, ws[es[0].write].value, es[0].at))
  }

  // The audit.

  predicate Unchanged(ws: seq<Write<Text>>, found: Option<Post>, baseline: Option<Post>) {
    Latest(ws) == 0.0 && baseline.Some? && found == baseline
  }

  predicate AcceptsEdit(ws: seq<Write<Text>>, found: Option<Post>, baseline: Option<Post>) {
    || Unchanged(ws, found, baseline)
    || (found.Some? && found.value.revision >= 2 && found.value.text in Candidates(ws))
  }

  /** The post as it was before the writes, together with whether it was captured, rules out a false alarm. */
  ghost predicate NoFalseAlarm(ws: seq<Write<Text>>, before: Post, captured: bool) {
    if captured && !CertainAfterZero(ws) then true
    else if SomeCertain(ws) then
      before.revision >= 2 || exists i :: 0 <= i < |ws| && !ws[i].uncertain && ws[i].value != before.text
    else
      before.revision >= 2 && exists i :: 0 <= i < |ws| && ws[i].value == before.text
  }

  ghost predicate CorrectRunsPass(ws: seq<Write<Text>>, before: Post, baseline: Option<Post>) {
    forall es :: Schedule(ws, es) ==> RunPasses(ws, es, before, baseline)
  }

  ghost predicate RunPasses(ws: seq<Write<Text>>, es: seq<Effect>, before: Post, baseline: Option<Post>)
    requires Schedule(ws, es)
  {
    ScheduleInRange(ws, es);
    AcceptsEdit(ws, Some(Edits(ws, es, before)), baseline)
  }

  // What a run of edits leaves behind.

  ghost predicate Repeats(ws: seq<Write<Text>>, es: seq<Effect>, text: Text)
    requires forall k :: 0 <= k < |es| ==> es[k].write < |ws|
  {
    forall k :: 0 <= k < |es| ==> ws[es[k].write].value == text
  }

  /** How many of the edits change the text they find, and when the last of these did. */
  ghost function Changes(ws: seq<Write<Text>>, es: seq<Effect>, text: Text): nat
    requires forall k :: 0 <= k < |es| ==> es[k].write < |ws|
  {
    if es == [] then 0
    else Changes(ws, es[1..], ws[es[0].write].value) + (if ws[es[0].write].value == text then 0 else 1)
  }

  ghost predicate ChangesAt(ws: seq<Write<Text>>, es: seq<Effect>, text: Text, k: nat)
    requires forall i :: 0 <= i < |es| ==> es[i].write < |ws|
  {
    k < |es| && ws[es[k].write].value != (if k == 0 then text else ws[es[k - 1].write].value)
  }

  /** Every edit that changes the text it finds counts one revision; the last of them says when the post was edited. */
  lemma {:induction false} RevisionCounts(ws: seq<Write<Text>>, es: seq<Effect>, before: Post)
    requires forall k :: 0 <= k < |es| ==> es[k].write < |ws|
    ensures var after := Edits(ws, es, before);
            && after.revision == before.revision + Changes(ws, es, before.text)
            && after.author == before.author
            && (Changes(ws, es, before.text) == 0 ==> after.editedAt == before.editedAt)
            && (Changes(ws, es, before.text) > 0 ==>
                  exists k: nat :: ChangesAt(ws, es, before.text, k) && after.editedAt == Some(es[k].at)
                                   && forall j: nat :: ChangesAt(ws, es, before.text, j) ==> j <= k)
  {
    if es != [] {
      var text := ws[es[0].write].value;
      RevisionCounts(ws, es[1..], Edited(before, text, es[0].at));
      forall j: nat ensures ChangesAt(ws, es, before.text, j + 1) <==> ChangesAt(ws, es[1..], text, j) {}
      if Changes(ws, es[1..], text) > 0 {
        var k: nat :| ChangesAt(ws, es[1..], text, k) && Edits(ws, es, before).editedAt == Some(es[1..][k].at)
                      && forall j: nat :: ChangesAt(ws, es[1..], text, j) ==> j <= k;
        assert ChangesAt(ws, es, before.text, k + 1) && es[k + 1] == es[1..][k];
        forall j: nat | ChangesAt(ws, es, before.text, j) ensures j <= k + 1 {
          assert j > 0 ==> ChangesAt(ws, es[1..], text, j - 1);
        }
      } else if text != before.text {
        assert ChangesAt(ws, es, before.text, 0);
        forall j: nat | ChangesAt(ws, es, before.text, j) ensures j <= 0 {
          if j > 0 {
            assert ChangesAt(ws, es[1..], text, j - 1);
            ChangesSome(ws, es[1..], text, j - 1);
          }
        }
      }
    }
  }

  lemma {:induction false} ChangesSome(ws: seq<Write<Text>>, es: seq<Effect>, text: Text, k: nat)
    requires forall i :: 0 <= i < |es| ==> es[i].write < |ws|
    requires ChangesAt(ws, es, text, k)
    ensures Changes(ws, es, text) > 0
  {
    if k > 0 {
      ChangesSome(ws, es[1..], ws[es[0].write].value, k - 1);
    }
  }

  /** The text is that of the last edit; the revision moves unless every edit repeats the text. */
  lemma {:induction false} EditsMeaning(ws: seq<Write<Text>>, es: seq<Effect>, before: Post)
    requires forall k :: 0 <= k < |es| ==> es[k].write < |ws|
    ensures var after := Edits(ws, es, before);
            && after.text == Replay(ws, es, before.text)
            && after.revision >= before.revision
            && (if Repeats(ws, es, before.text) then after == before else after.revision > before.revision)
  {
    if es != [] {
      var next := Edited(before, ws[es[0].write].value, es[0].at);
      EditsMeaning(ws, es[1..], next);
      if ws[es[0].write].value == before.text {
        if Repeats(ws, es[1..], before.text) {
          forall k | 0 <= k < |es| ensures ws[es[k].write].value == before.text {
            if k > 0 {
              assert es[k] == es[1..][k - 1];
            }
          }
        } else {
          var k :| 0 <= k < |es| - 1 && ws[es[1..][k].write].value != before.text;
          assert ws[es[k + 1].write].value != before.text;
        }
      }
    }
  }

  /** Whether one run passes: its last text is a candidate, and its revision has moved or may stand. */
  lemma RunPassesIff(ws: seq<Write<Text>>, es: seq<Effect>, before: Post, baseline: Option<Post>)
    requires Timed(ws) && Schedule(ws, es) && before.revision >= 1
    requires baseline == None || baseline == Some(before)
    requires es != [] || SomeCertain(ws)
    requires forall k :: 0 <= k < |es| ==> es[k].write < |ws|
    ensures RunPasses(ws, es, before, baseline)
            <==> before.revision >= 2 || !Repeats(ws, es, before.text) || (Latest(ws) == 0.0 && baseline.Some?)
  {
    hide Latest, Replay, Edits, Schedule;
    EditsMeaning(ws, es, before);
    RunEndsSomewhere(ws, es, before.text);
  }

  lemma RunEndsSomewhere(ws: seq<Write<Text>>, es: seq<Effect>, before: Text)
    requires Timed(ws) && Schedule(ws, es) && (es != [] || SomeCertain(ws))
    requires forall k :: 0 <= k < |es| ==> es[k].write < |ws|
    ensures Replay(ws, es, before) in Candidates(ws)
  {
    if SomeCertain(ws) {
      RunEndsInCandidates(ws, es, before);
    } else {
      LatestAfterZero(ws);
      LastEffectWins(ws, es, before);
      assert ws[es[|es| - 1].write] in ws;
    }
  }

  /** A schedule of the certain edits alone. */
  lemma CertainOnly(ws: seq<Write<Text>>) returns (es: seq<Effect>)
    requires Timed(ws) && SomeCertain(ws)
    ensures Schedule(ws, es)
    ensures forall k :: 0 <= k < |es| ==> es[k].write < |ws| && !ws[es[k].write].uncertain
  {
    NewestStartIsMax(ws);
    var c :| 0 <= c < |ws| && !ws[c].uncertain && ws[c].started == Latest(ws);
    es := CandidateHasRun(ws, c, ws[c].value);
    ScheduleInRange(ws, es);
  }

  lemma CertainFalseAlarm(ws: seq<Write<Text>>, before: Post, baseline: Option<Post>)
    requires Timed(ws) && SomeCertain(ws) && before.revision >= 1
    requires baseline == None || baseline == Some(before)
    requires !NoFalseAlarm(ws, before, baseline.Some?)
    ensures !CorrectRunsPass(ws, before, baseline)
  {
    LatestAfterZero(ws);
    var es := CertainOnly(ws);
    assert Repeats(ws, es, before.text);
    RunPassesIff(ws, es, before, baseline);
  }

  lemma UncertainFalseAlarm(ws: seq<Write<Text>>, before: Post, baseline: Option<Post>)
    requires Timed(ws) && !SomeCertain(ws) && before.revision >= 1
    requires baseline == None || baseline == Some(before)
    requires !NoFalseAlarm(ws, before, baseline.Some?)
    ensures !CorrectRunsPass(ws, before, baseline)
  {
    LatestAfterZero(ws);
    assert Schedule(ws, []);
    assert !RunPasses(ws, [], before, baseline);
  }

  lemma RunIsSafe(ws: seq<Write<Text>>, es: seq<Effect>, before: Post, baseline: Option<Post>)
    requires Timed(ws) && Schedule(ws, es) && before.revision >= 1
    requires baseline == None || baseline == Some(before)
    requires NoFalseAlarm(ws, before, baseline.Some?)
    ensures RunPasses(ws, es, before, baseline)
  {
    ScheduleInRange(ws, es);
    LatestAfterZero(ws);
    if es != [] || SomeCertain(ws) {
      RunPassesIff(ws, es, before, baseline);
      if SomeCertain(ws) && before.revision < 2 && !(Latest(ws) == 0.0 && baseline.Some?) {
        var i :| 0 <= i < |ws| && !ws[i].uncertain && ws[i].value != before.text;
        assert Happens(es, i);
      }
    } else if baseline == None {
      var i :| 0 <= i < |ws| && ws[i].value == before.text;
      assert ws[i] in ws;
    }
  }

  /**
   No correct run of these edits on this post is flagged, if and only if: the post was captured beforehand and
   no certain edit started after time zero; or some edit is certain, and the post had been edited before or a
   certain edit differs from it; or none is certain, and the post had been edited before and one repeats it.
   */
  lemma NeverFlaggedIff(ws: seq<Write<Text>>, before: Post, baseline: Option<Post>)
    requires Timed(ws) && before.revision >= 1
    requires baseline == None || baseline == Some(before)
    ensures CorrectRunsPass(ws, before, baseline) <==> NoFalseAlarm(ws, before, baseline.Some?)
  {
    hide NoFalseAlarm, RunPasses, Schedule;
    if NoFalseAlarm(ws, before, baseline.Some?) {
      forall es | Schedule(ws, es) ensures RunPasses(ws, es, before, baseline) {
        RunIsSafe(ws, es, before, baseline);
      }
    } else if SomeCertain(ws) {
      CertainFalseAlarm(ws, before, baseline);
    } else {
      UncertainFalseAlarm(ws, before, baseline);
    }
  }

  /** One confirmed edit that repeats the text of a post never edited before: the run is correct, and flagged. */
  lemma RepeatedTextIsFlagged(before: Post, started: real, completed: real)
    requires before.revision == 1 && 0.0 < started <= completed
    ensures !CorrectRunsPass([Write(before.text, started, completed, false)], before, Some(before))
  {
    var ws := [Write(before.text, started, completed, false)];
    assert !ws[0].uncertain && ws[0].started > 0.0;
    NeverFlaggedIff(ws, before, Some(before));
  }

  /** An accepted post that was not simply left alone carries a text that some run could have ended in. */
  lemma AcceptedTextExplained(ws: seq<Write<Text>>, found: Option<Post>, baseline: Option<Post>)
    requires Timed(ws) && AcceptsEdit(ws, found, baseline) && !Unchanged(ws, found, baseline)
    ensures found.Some? && Explainable(ws, found.value.text)
  {
    if SomeCertain(ws) {
      CandidatesExact(ws, found.value.text);
    } else {
      UncertainExplainsAll(ws, found.value.text);
    }
  }
}
