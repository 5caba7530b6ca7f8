/** The audit's verdicts: for every indexed resource, its writes are compared with what the database holds. */
module AuditVerdicts {
  import opened EditAudit
  import opened Options
  import opened RegisterAudit
  import opened WriteAccounts
  import opened WriteIntake

  const EXAMPLES: nat := 50

  predicate Interaction(key: Key) { key.kind in {Like, Bookmark, Follow} }

  /** The writes of one resource, in index order. */
  function Writes<V>(entries: seq<Entry>, key: Key, value: Entry -> V): seq<Write<V>> {
    if entries == [] then []
    else
      var front, e := Writes(entries[..|entries| - 1], key, value), entries[|entries| - 1];
      if e.key == key then front + [Write(value(e), e.started, e.completed, e.uncertain)] else front
  }

  function PutOf(e: Entry): bool { e.put }

  function TextOf(e: Entry): Text { e.expected }

  function Presences(entries: seq<Entry>, key: Key): seq<Write<bool>> { Writes(entries, key, PutOf) }

  function Texts(entries: seq<Entry>, key: Key): seq<Write<Text>> { Writes(entries, key, TextOf) }

  function InteractionKeys(entries: seq<Entry>): set<Key> {
    set e | e in entries && Interaction(e.key) :: e.key
  }

  function EditKeys(entries: seq<Entry>): set<Key> {
    set e | e in entries && e.key.kind == PostUpdate :: e.key
  }

  predicate AcceptsInteraction(entries: seq<Entry>, present: set<Key>, key: Key) {
    AcceptsPresence(Presences(entries, key), key in present)
  }

  function Find(posts: map<nat, Post>, id: nat): Option<Post> {
    if id in posts then Some(posts[id]) else None
  }

  predicate AcceptsPost(entries: seq<Entry>, posts: map<nat, Post>, baseline: map<nat, Post>, key: Key) {
    AcceptsEdit(Texts(entries, key), Find(posts, key.first), Find(baseline, key.first))
  }

  // The queries, as loops over the index.

  method NewestOf(entries: seq<Entry>, key: Key) returns (latest: real)
    ensures latest == Latest(Presences(entries, key))
    ensures latest == Latest(Texts(entries, key))
  {
    var newest: Option<real> := None;
    for i := 0 to |entries|
      invariant newest == NewestStart(Presences(entries[..i], key)) == NewestStart(Texts(entries[..i], key))
    {
      var e := entries[i];
      assert entries[..i + 1][..i] == entries[..i];
      WritesGrow(entries[..i], e, key);
      if e.key == key && !e.uncertain && (newest.None? || newest.value < e.started) {
        newest := Some(e.started);
      }
    }
    assert entries[..|entries|] == entries;
    latest := if newest.Some? then newest.value else 0.0;
  }

  lemma WritesGrow(entries: seq<Entry>, e: Entry, key: Key)
    ensures NewestStart(Presences(entries + [e], key))
            == Newer(NewestStart(Presences(entries, key)), e, key)
    ensures NewestStart(Texts(entries + [e], key)) == Newer(NewestStart(Texts(entries, key)), e, key)
  {
    assert (entries + [e])[..|entries|] == entries;
    var ps, ts := Presences(entries, key), Texts(entries, key);
    var p := Write(e.put, e.started, e.completed, e.uncertain);
    var t := Write(e.expected, e.started, e.completed, e.uncertain);
    assert (ps + [p])[..|ps|] == ps && (ts + [t])[..|ts|] == ts;
  }

  function Newer(newest: Option<real>, e: Entry, key: Key): Option<real> {
    if e.key != key || e.uncertain || (newest.Some? && newest.value >= e.started) then newest else Some(e.started)
  }

  lemma {:induction false} WritesMembers<V>(entries: seq<Entry>, key: Key, value: Entry -> V)
    ensures forall w :: w in Writes(entries, key, value) <==> From(entries, key, value, w)
  {
    if entries != [] {
      var front, e := entries[..|entries| - 1], entries[|entries| - 1];
      WritesMembers(front, key, value);
      assert entries == front + [e];
      forall w ensures w in Writes(entries, key, value) <==> From(entries, key, value, w) {
        if From(entries, key, value, w) {
          var x :| x in entries && IsWrite(x, key, value, w);
          assert x in front ==> From(front, key, value, w);
        }
        if w in Writes(entries, key, value) {
          assert From(front, key, value, w) || IsWrite(e, key, value, w);
        }
      }
    }
  }

  predicate IsWrite<V(==)>(e: Entry, key: Key, value: Entry -> V, w: Write<V>) {
    e.key == key && w == Write(value(e), e.started, e.completed, e.uncertain)
  }

  predicate From<V(==)>(entries: seq<Entry>, key: Key, value: Entry -> V, w: Write<V>) {
    exists e :: e in entries && IsWrite(e, key, value, w)
  }

  /** Some write of the resource that completed after `latest` carries this value. */
  predicate Carried<V(==)>(entries: seq<Entry>, key: Key, latest: real, value: Entry -> V, v: V) {
    exists e :: e in entries && Carries(e, key, latest, value, v)
  }

  predicate Carries<V(==)>(e: Entry, key: Key, latest: real, value: Entry -> V, v: V) {
    e.key == key && e.completed >= latest && value(e) == v
  }

  lemma CarriedGrows<V>(entries: seq<Entry>, e: Entry, key: Key, latest: real, value: Entry -> V)
    ensures forall v :: Carried(entries + [e], key, latest, value, v)
              <==> Carried(entries, key, latest, value, v) || Carries(e, key, latest, value, v)
  {
    forall v ensures Carried(entries, key, latest, value, v) ==> Carried(entries + [e], key, latest, value, v) {}
    assert e in entries + [e];
  }

  lemma CarriedIsCandidate<V>(entries: seq<Entry>, key: Key, value: Entry -> V, v: V)
    ensures var ws := Writes(entries, key, value);
            v in Candidates(ws) <==> Carried(entries, key, Latest(ws), value, v)
  {
    var ws := Writes(entries, key, value);
    WritesMembers(entries, key, value);
    hide Writes, Latest;
    if v in Candidates(ws) {
      var w :| w in ws && w.completed >= Latest(ws) && w.value == v;
      assert From(entries, key, value, w);
    }
    if Carried(entries, key, Latest(ws), value, v) {
      var e :| e in entries && Carries(e, key, Latest(ws), value, v);
      var w := Write(value(e), e.started, e.completed, e.uncertain);
      assert IsWrite(e, key, value, w) && From(entries, key, value, w);
    }
  }

  lemma PutIsCandidate(entries: seq<Entry>, key: Key)
    ensures var ws := Presences(entries, key);
            forall v :: v in Candidates(ws) <==> Carried(entries, key, Latest(ws), PutOf, v)
  {
    var latest := Latest(Presences(entries, key));
    forall v ensures v in Candidates(Presences(entries, key)) <==> Carried(entries, key, latest, PutOf, v) {
      CarriedIsCandidate(entries, key, PutOf, v);
    }
  }

  lemma TextIsCandidate(entries: seq<Entry>, key: Key)
    ensures var ws := Texts(entries, key);
            forall v :: v in Candidates(ws) <==> Carried(entries, key, Latest(ws), TextOf, v)
  {
    var latest := Latest(Texts(entries, key));
    forall v ensures v in Candidates(Texts(entries, key)) <==> Carried(entries, key, latest, TextOf, v) {
      CarriedIsCandidate(entries, key, TextOf, v);
    }
  }

  method JudgeInteraction(entries: seq<Entry>, present: set<Key>, key: Key) returns (ok: bool)
    ensures ok == AcceptsInteraction(entries, present, key)
  {
    var latest := NewestOf(entries, key);
    var candidates: set<bool> := {};
    for i := 0 to |entries|
      invariant forall v :: v in candidates <==> Carried(entries[..i], key, latest, PutOf, v)
    {
      var e := entries[i];
      assert entries[..i + 1] == entries[..i] + [e];
      CarriedGrows(entries[..i], e, key, latest, PutOf);
      if e.key == key && e.completed >= latest {
        candidates := candidates + {e.put};
      }
    }
    assert entries[..|entries|] == entries;
    PutIsCandidate(entries, key);
    if latest == 0.0 {
      candidates := candidates + {false, true};
    }
    ok := (key in present) in candidates;
  }

  method JudgePost(entries: seq<Entry>, posts: map<nat, Post>, baseline: map<nat, Post>, key: Key) returns (ok: bool)
    ensures ok == AcceptsPost(entries, posts, baseline, key)
  {
    var latest := NewestOf(entries, key);
    var candidates: seq<Text> := [];
    for i := 0 to |entries|
      invariant forall v :: v in candidates <==> Carried(entries[..i], key, latest, TextOf, v)
    {
      var e := entries[i];
      assert entries[..i + 1] == entries[..i] + [e];
      CarriedGrows(entries[..i], e, key, latest, TextOf);
      if e.key == key && e.completed >= latest {
        candidates := candidates + [e.expected];
      }
    }
    assert entries[..|entries|] == entries;
    TextIsCandidate(entries, key);
    var row, previous := Find(posts, key.first), Find(baseline, key.first);
    var untouched := latest == 0.0 && previous.Some? && row == previous;
    ok := untouched || (row.Some? && row.value.revision >= 2 && row.value.text in candidates);
  }

  // The report.

  function FlaggedInteractions(entries: seq<Entry>, present: set<Key>): set<Key> {
    set key | key in InteractionKeys(entries) && !AcceptsInteraction(entries, present, key)
  }

  function FlaggedPosts(entries: seq<Entry>, posts: map<nat, Post>, baseline: map<nat, Post>): set<Key> {
    set key | key in EditKeys(entries) && !AcceptsPost(entries, posts, baseline, key)
  }

  lemma FlaggedInteractionsMeaning(entries: seq<Entry>, present: set<Key>)
    ensures FlaggedInteractions(entries, present) <= InteractionKeys(entries)
    ensures forall key :: key in InteractionKeys(entries) ==>
              (key in FlaggedInteractions(entries, present) <==> !AcceptsInteraction(entries, present, key))
  {}

  lemma FlaggedPostsMeaning(entries: seq<Entry>, posts: map<nat, Post>, baseline: map<nat, Post>)
    ensures FlaggedPosts(entries, posts, baseline) <= EditKeys(entries)
    ensures forall key :: key in EditKeys(entries) ==>
              (key in FlaggedPosts(entries, posts, baseline) <==> !AcceptsPost(entries, posts, baseline, key))
  {}

  class Report {
    var verified: nat
    var failures: nat
    var examples: seq<Key>

    constructor ()
      ensures verified == failures == 0 && examples == []
    {
      verified, failures, examples := 0, 0, [];
    }

    /** Every mismatch is counted; the first fifty are kept as examples. */
    method Mismatch(key: Key)
      modifies this`failures, this`examples
      ensures failures == old(failures) + 1
      ensures examples == if |old(examples)| < EXAMPLES then old(examples) + [key] else old(examples)
    {
      failures := failures + 1;
      if |examples| < EXAMPLES {
        examples := examples + [key];
      }
    }

    method CheckPosts(entries: seq<Entry>, posts: map<nat, Post>, baseline: map<nat, Post>)
      modifies this
      ensures failures == old(failures) + |FlaggedPosts(entries, posts, baseline)|
      ensures verified == old(verified) + |EditKeys(entries) - FlaggedPosts(entries, posts, baseline)|
      ensures forall key :: key in examples && key !in old(examples) ==> key in FlaggedPosts(entries, posts, baseline)
    {
      hide AcceptsPost, FlaggedPosts, EditKeys;
      FlaggedPostsMeaning(entries, posts, baseline);
      var todo := EditKeys(entries);
      ghost var flagged := FlaggedPosts(entries, posts, baseline);
      assert todo * flagged == flagged;
      while todo != {}
        invariant todo <= EditKeys(entries)
        invariant failures + |todo * flagged| == old(failures) + |flagged|
        invariant verified + |todo - flagged| == old(verified) + |EditKeys(entries) - flagged|
        invariant forall key :: key in examples && key !in old(examples) ==> key in flagged
        decreases |todo|
      {
        var key :| key in todo;
        OneLess(todo, flagged, key);
        todo := todo - {key};
        var ok := JudgePost(entries, posts, baseline, key);
        if ok {
          verified := verified + 1;
        } else {
          Mismatch(key);
        }
      }
    }

    method CheckInteractions(entries: seq<Entry>, present: set<Key>)
      modifies this
      ensures failures == old(failures) + |FlaggedInteractions(entries, present)|
      ensures verified == old(verified) + |InteractionKeys(entries) - FlaggedInteractions(entries, present)|
      ensures forall key :: key in examples && key !in old(examples) ==> key in FlaggedInteractions(entries, present)
    {
      hide AcceptsInteraction, FlaggedInteractions, InteractionKeys;
      FlaggedInteractionsMeaning(entries, present);
      var todo := InteractionKeys(entries);
      ghost var flagged := FlaggedInteractions(entries, present);
      assert todo * flagged == flagged;
      while todo != {}
        invariant todo <= InteractionKeys(entries)
        invariant failures + |todo * flagged| == old(failures) + |flagged|
        invariant verified + |todo - flagged| == old(verified) + |InteractionKeys(entries) - flagged|
        invariant forall key :: key in examples && key !in old(examples) ==> key in flagged
        decreases |todo|
      {
        var key :| key in todo;
        OneLess(todo, flagged, key);
        todo := todo - {key};
        var ok := JudgeInteraction(entries, present, key);
        if ok {
          verified := verified + 1;
        } else {
          Mismatch(key);
        }
      }
    }
  }

  lemma OneLess(todo: set<Key>, flagged: set<Key>, key: Key)
    requires key in todo
    ensures |(todo - {key}) * flagged| == |todo * flagged| - (if key in flagged then 1 else 0)
    ensures |(todo - {key}) - flagged| == |todo - flagged| - (if key in flagged then 0 else 1)
  {
    if key in flagged {
      assert (todo - {key}) * flagged == todo * flagged - {key} && (todo - {key}) - flagged == todo - flagged;
    } else {
      assert (todo - {key}) * flagged == todo * flagged && (todo - {key}) - flagged == todo - flagged - {key};
    }
  }

  // What the report means.

  /** Every indexed write completed no earlier than it started, and started after time zero. */
  predicate AfterZero(entries: seq<Entry>) {
    forall i :: 0 <= i < |entries| ==> 0.0 < entries[i].started <= entries[i].completed
  }

  lemma WritesTimed<V>(entries: seq<Entry>, key: Key, value: Entry -> V)
    requires AfterZero(entries)
    ensures Timed(Writes(entries, key, value))
    ensures SomeCertain(Writes(entries, key, value)) ==> CertainAfterZero(Writes(entries, key, value))
  {
    WritesMembers(entries, key, value);
    var ws := Writes(entries, key, value);
    forall i | 0 <= i < |ws| ensures 0.0 < ws[i].started <= ws[i].completed {
      assert ws[i] in ws;
      assert From(entries, key, value, ws[i]);
      var e :| e in entries && IsWrite(e, key, value, ws[i]);
    }
  }

  /**
   With all times after zero, the report of the likes, bookmarks and follows is exact: a resource is flagged if
   and only if no order of effects of its indexed writes could have left what the database holds.
   */
  lemma FlaggedIffImpossible(entries: seq<Entry>, present: set<Key>, key: Key)
    requires AfterZero(entries) && key in InteractionKeys(entries)
    ensures key in FlaggedInteractions(entries, present) <==> !Explainable(Presences(entries, key), key in present)
  {
    hide AcceptsPresence, Explainable;
    WritesTimed(entries, key, PutOf);
    PresenceExact(Presences(entries, key));
  }

  /** The same of the whole audit: from the request log to the verdict. */
  lemma AuditExact(log: seq<Event>, now: real, present: set<Key>, key: Key)
    requires Ordered(log, now) && key in InteractionKeys(Built(log, now).entries)
    ensures var entries := Built(log, now).entries;
            key in FlaggedInteractions(entries, present) <==> !Explainable(Presences(entries, key), key in present)
  {
    hide Ordered, Built, Explainable, FlaggedInteractions, InteractionKeys;
    var entries := Built(log, now).entries;
    forall i | 0 <= i < |entries| ensures 0.0 < entries[i].started <= entries[i].completed {
      IndexTimed(log, now, entries[i]);
    }
    FlaggedIffImpossible(entries, present, key);
  }

  /** A post that was left as some correct run leaves it is flagged only if it can raise a false alarm. */
  lemma PostsFlaggedOnlyByFalseAlarm(entries: seq<Entry>, posts: map<nat, Post>, baseline: map<nat, Post>, key: Key,
                                     es: seq<Effect>, before: Post)
    requires AfterZero(entries) && before.revision >= 1 && Schedule(Texts(entries, key), es)
    requires key.first in baseline ==> baseline[key.first] == before
    requires forall k :: 0 <= k < |es| ==> es[k].write < |Texts(entries, key)|
    requires key.first in posts && posts[key.first] == Edits(Texts(entries, key), es, before)
    requires NoFalseAlarm(Texts(entries, key), before, key.first in baseline)
    ensures key !in FlaggedPosts(entries, posts, baseline)
  {
    WritesTimed(entries, key, TextOf);
    RunIsSafe(Texts(entries, key), es, before, Find(baseline, key.first));
  }

  /** Every edited post is judged: with no row, or at revision one and changed, it is flagged. */
  lemma EveryEditIsJudged(entries: seq<Entry>, posts: map<nat, Post>, baseline: map<nat, Post>, e: Entry)
    requires AfterZero(entries) && e in entries && e.key.kind == PostUpdate
    ensures e.key.first !in posts ==> e.key in FlaggedPosts(entries, posts, baseline)
    ensures e.key.first in posts && posts[e.key.first].revision < 2 && !e.uncertain ==>
              e.key in FlaggedPosts(entries, posts, baseline)
  {
    var ws := Texts(entries, e.key);
    WritesTimed(entries, e.key, TextOf);
    WritesMembers(entries, e.key, TextOf);
    var w := Write(e.expected, e.started, e.completed, e.uncertain);
    assert IsWrite(e, e.key, TextOf, w) && From(entries, e.key, TextOf, w);
    assert w in ws;
    LatestAfterZero(ws);
  }
}
