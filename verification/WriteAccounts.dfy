/** The audit's index against the request log it was read from: nothing is lost and nothing is invented. */
module WriteAccounts {
  import opened Options
  import opened WriteIntake

  predicate Ending(e: Event) { e.Outcome? || e.Cancel? || e.Broken? }

  /** The start that is still waiting for its end just before position i, for one request. */
  function Opener(log: seq<Event>, i: nat, id: string): (p: Option<nat>)
    requires i <= |log|
    ensures p.Some? ==> p.value < i && log[p.value].Start? && log[p.value].id == id
  {
    if i == 0 then None
    else if log[i - 1].Start? && log[i - 1].id == id then Some(i - 1)
    else if Ending(log[i - 1]) && log[i - 1].id == id then None
    else Opener(log, i - 1, id)
  }

  /** The start that the event at position q brings to its end. */
  function Closes(log: seq<Event>, q: nat): (p: Option<nat>)
    requires q < |log|
    ensures p.Some? ==> p.value < q && log[p.value].Start?
  {
    if Ending(log[q]) then Opener(log, q, log[q].id) else None
  }

  predicate Confirmed(e: Event) { e.Outcome? && e.success && e.write }

  /** A write stopped by the load generator, or answered by a server error or not at all. */
  predicate Doubtful(original: Request, e: Event) {
    || (e.Outcome? && e.write && !e.success && !(1 <= e.status <= 499))
    || (e.Cancel? && e.byStop && original.write)
  }

  /** What the event at q puts into the index: the write it ends, with its start and its target. */
  function EntryAt(log: seq<Event>, q: nat, end: real): Option<Entry>
    requires q < |log|
  {
    match Closes(log, q)
    case None => None
    case Some(p) =>
      var original := log[p].request;
      if Confirmed(log[q]) then
        var target := log[q].target;
        if !target.Mapped? then None
        else Some(Entry(target.key, original.at, log[q].at, original.put, target.expected, false))
      else if Doubtful(original, log[q]) && original.target.Mapped? then
        Some(Entry(original.target.key, original.at, end, original.put, original.target.expected, true))
      else None
  }

  // While the log is read.

  ghost predicate PendingOk(log: seq<Event>, i: nat, pending: map<string, Request>)
    requires i <= |log|
  {
    && (forall id :: id in pending ==> Opener(log, i, id).Some?)
    && (forall id :: Opener(log, i, id).Some? ==> Waits(log, i, pending, id))
  }

  predicate Waits(log: seq<Event>, i: nat, pending: map<string, Request>, id: string)
    requires i <= |log|
  {
    var p := Opener(log, i, id);
    p.Some? && id in pending && pending[id] == log[p.value].request
  }

  lemma {:induction false} PendingFollowsLog(log: seq<Event>, i: nat)
    requires i <= |log|
    ensures PendingOk(log, i, TakenAll(log[..i]).pending)
  {
    if i > 0 {
      PendingFollowsLog(log, i - 1);
      assert log[..i][..i - 1] == log[..i - 1];
      var before, after := TakenAll(log[..i - 1]).pending, TakenAll(log[..i]).pending;
      forall id | Opener(log, i, id).Some? ensures Waits(log, i, after, id) {
        assert (log[i - 1].Start? && log[i - 1].id == id) || Waits(log, i - 1, before, id);
      }
    }
  }

  predicate CertainFrom(log: seq<Event>, q: nat, e: Entry)
    requires q < |log|
  {
    Confirmed(log[q]) && EntryAt(log, q, 0.0) == Some(e)
  }

  predicate DoubtFrom(log: seq<Event>, q: nat, original: Request)
    requires q < |log|
  {
    Closes(log, q).Some? && log[Closes(log, q).value].request == original && Doubtful(original, log[q])
  }

  /** The entries are those of the confirmed writes read so far, the doubtful ones are set aside. */
  ghost predicate ReadSoFar(log: seq<Event>, i: nat, s: State)
    requires i <= |log|
  {
    && (forall e :: e in s.entries <==> exists q :: 0 <= q < i && CertainFrom(log, q, e))
    && (forall r :: r in s.canceled + s.uncertain <==> exists q :: 0 <= q < i && DoubtFrom(log, q, r))
  }

  lemma TakenStep(log: seq<Event>, i: nat, s: State)
    requires i < |log| && PendingOk(log, i, s.pending)
    ensures var s' := Taken(s, log[i]);
            && (forall e :: e in s'.entries <==> e in s.entries || CertainFrom(log, i, e))
            && (forall r :: r in s'.canceled + s'.uncertain <==> r in s.canceled + s.uncertain || DoubtFrom(log, i, r))
  {
    hide Opener;
    if Ending(log[i]) {
      var id := log[i].id;
      assert Closes(log, i).Some? ==> Waits(log, i, s.pending, id);
    }
  }

  lemma ReadOneMore(log: seq<Event>, i: nat, s: State, s': State)
    requires i < |log| && ReadSoFar(log, i, s)
    requires forall e :: e in s'.entries <==> e in s.entries || CertainFrom(log, i, e)
    requires forall r :: r in s'.canceled + s'.uncertain <==> r in s.canceled + s.uncertain || DoubtFrom(log, i, r)
    ensures ReadSoFar(log, i + 1, s')
  {
    hide CertainFrom, DoubtFrom;
  }

  lemma {:induction false} EntriesFollowLog(log: seq<Event>, i: nat)
    requires i <= |log|
    ensures ReadSoFar(log, i, TakenAll(log[..i]))
  {
    hide Taken, CertainFrom, DoubtFrom, PendingOk;
    if i > 0 {
      EntriesFollowLog(log, i - 1);
      PendingFollowsLog(log, i - 1);
      assert log[..i][..i - 1] == log[..i - 1];
      var s := TakenAll(log[..i - 1]);
      TakenStep(log, i - 1, s);
      ReadOneMore(log, i - 1, s, TakenAll(log[..i]));
    }
  }

  // Once it has been read.

  predicate Lands(r: Request, e: Entry, end: real) {
    r.target.Mapped? && e == Entry(r.target.key, r.at, end, r.put, r.target.expected, true)
  }

  predicate SomeLands(rs: seq<Request>, e: Entry, end: real) {
    exists r :: r in rs && Lands(r, e, end)
  }

  lemma {:induction false} ResolvedEntries(s: State, originals: seq<Request>)
    ensures var s' := ResolvedAll(s, originals);
            && s'.end == s.end
            && forall e :: e in s'.entries <==> e in s.entries || SomeLands(originals, e, s.end)
  {
    if originals != [] {
      var front, last := originals[..|originals| - 1], originals[|originals| - 1];
      ResolvedEntries(s, front);
      assert originals == front + [last];
      forall e ensures SomeLands(originals, e, s.end) <==> SomeLands(front, e, s.end) || Lands(last, e, s.end) {
        assert last in originals;
      }
    }
  }

  ghost predicate FromLog(log: seq<Event>, q: nat, e: Entry, end: real) {
    q < |log| && EntryAt(log, q, end) == Some(e)
  }

  /** The index is exact: it holds an entry if and only if some event of the log ends a write with that entry. */
  lemma IndexExact(log: seq<Event>, now: real, e: Entry)
    ensures var s := Built(log, now); e in s.entries <==> exists q: nat :: FromLog(log, q, e, s.end)
  {
    var s := Ended(TakenAll(log), now);
    EntriesFollowLog(log, |log|);
    assert log[..|log|] == log;
    ResolvedEntries(s, s.canceled + s.uncertain);
    hide TakenAll, ResolvedAll, Opener, Closes;
    if exists q :: 0 <= q < |log| && CertainFrom(log, q, e) {
      var q :| 0 <= q < |log| && CertainFrom(log, q, e);
      assert FromLog(log, q, e, s.end);
    }
    if SomeLands(s.canceled + s.uncertain, e, s.end) {
      var r :| r in s.canceled + s.uncertain && Lands(r, e, s.end);
      var q :| 0 <= q < |log| && DoubtFrom(log, q, r);
      assert FromLog(log, q, e, s.end);
    }
    if exists q: nat :: FromLog(log, q, e, s.end) {
      var q: nat :| FromLog(log, q, e, s.end);
      var r := log[Closes(log, q).value].request;
      assert CertainFrom(log, q, e) || (DoubtFrom(log, q, r) && Lands(r, e, s.end));
    }
  }

  /** Times are positive and in order: a request starts before now and ends no earlier than it started. */
  predicate Ordered(log: seq<Event>, now: real) {
    && (forall p :: 0 <= p < |log| && log[p].Start? ==> 0.0 < log[p].request.at <= now)
    && (forall q :: 0 <= q < |log| && log[q].Outcome? && Closes(log, q).Some? ==>
          log[Closes(log, q).value].request.at <= log[q].at)
  }

  lemma IndexTimed(log: seq<Event>, now: real, e: Entry)
    requires Ordered(log, now) && e in Built(log, now).entries
    ensures 0.0 < e.started <= e.completed
  {
    IndexExact(log, now, e);
    var s := Built(log, now);
    var q: nat :| FromLog(log, q, e, s.end);
    if !Confirmed(log[q]) {
      DoubtReachesNow(log, now, q);
    }
  }

  lemma DoubtReachesNow(log: seq<Event>, now: real, q: nat)
    requires q < |log| && Closes(log, q).Some?
    requires Doubtful(log[Closes(log, q).value].request, log[q])
    ensures Built(log, now).end >= now
  {
    var s := Ended(TakenAll(log), now);
    EntriesFollowLog(log, |log|);
    assert log[..|log|] == log;
    ResolvedEntries(s, s.canceled + s.uncertain);
    hide TakenAll, ResolvedAll, Opener, Closes;
    var r := log[Closes(log, q).value].request;
    assert DoubtFrom(log, q, r);
    assert r in s.canceled + s.uncertain;
  }

  // What an error-free audit has accounted for.

  predicate Clean(s: State) { s.errors == NO_ERRORS }

  lemma {:induction false} CleanBefore(log: seq<Event>, i: nat)
    requires i <= |log| && Clean(TakenAll(log))
    ensures Clean(TakenAll(log[..i]))
    decreases |log| - i
  {
    if i == |log| {
      assert log[..i] == log;
    } else {
      CleanBefore(log, i + 1);
      assert log[..i + 1][..i] == log[..i];
    }
  }

  lemma {:induction false} CleanResolved(s: State, originals: seq<Request>)
    requires Clean(ResolvedAll(s, originals))
    ensures Clean(s)
    ensures forall r :: r in originals ==> r.target.Mapped? || r.target.Absent?
  {
    if originals != [] {
      var front, last := originals[..|originals| - 1], originals[|originals| - 1];
      CleanResolved(s, front);
      assert originals == front + [last];
    }
  }

  predicate Ends(log: seq<Event>, p: nat, q: nat) {
    q < |log| && Closes(log, q) == Some(p)
  }

  /** Reading without an error, no start is dropped: it has been ended, or it still waits. */
  lemma {:induction false} StartsKept(log: seq<Event>, p: nat, i: nat)
    requires p < i <= |log| && log[p].Start? && Clean(TakenAll(log))
    ensures Opener(log, i, log[p].id) == Some(p) || exists q: nat :: q < i && Ends(log, p, q)
  {
    if i > p + 1 {
      StartsKept(log, p, i - 1);
      if Opener(log, i - 1, log[p].id) == Some(p) {
        CleanBefore(log, i);
        PendingFollowsLog(log, i - 1);
        assert log[..i][..i - 1] == log[..i - 1];
        assert Waits(log, i - 1, TakenAll(log[..i - 1]).pending, log[p].id);
        assert Ending(log[i - 1]) && log[i - 1].id == log[p].id ==> Ends(log, p, i - 1);
      }
    }
  }

  /** Refused: the server answered with a failure of its own choosing, or the log does not call it a write. */
  predicate Refused(e: Event) {
    e.Outcome? && (!e.write || (!e.success && 1 <= e.status <= 499))
  }

  /**
   An audit without event errors has accounted for every write that was started: some event ended it, and that
   event put it into the index, or says that the server refused it, or belongs to a create that never landed.
   */
  lemma NothingLost(log: seq<Event>, now: real, p: nat)
    requires Clean(Built(log, now)) && p < |log| && log[p].Start? && log[p].request.write
    ensures exists q: nat :: Ends(log, p, q)
              && (FromIndex(log, now, q) || Refused(log[q]) || log[p].request.target.Absent?)
  {
    var s := Ended(TakenAll(log), now);
    CleanResolved(s, s.canceled + s.uncertain);
    StartsKept(log, p, |log|);
    if Opener(log, |log|, log[p].id) == Some(p) {
      StillOpen(log, p);
    } else {
      var q: nat :| q < |log| && Ends(log, p, q);
      EndAccounted(log, now, p, q);
    }
  }

  lemma StillOpen(log: seq<Event>, p: nat)
    requires p < |log| && log[p].Start? && log[p].request.write && Opener(log, |log|, log[p].id) == Some(p)
    ensures |OpenWrites(TakenAll(log).pending)| > 0
  {
    PendingFollowsLog(log, |log|);
    assert log[..|log|] == log;
    assert Waits(log, |log|, TakenAll(log).pending, log[p].id);
    assert log[p].id in OpenWrites(TakenAll(log).pending);
  }

  ghost predicate FromIndex(log: seq<Event>, now: real, q: nat)
    requires q < |log|
  {
    var s := Built(log, now);
    var e := EntryAt(log, q, s.end);
    e.Some? && e.value in s.entries
  }

  /** What an event that ends a write without an error can be. */
  lemma CleanEnd(s: State, e: Event, original: Request)
    requires Ending(e) && e.id in s.pending && s.pending[e.id] == original && original.write && Clean(Taken(s, e))
    ensures (Confirmed(e) && e.target.Mapped?) || Doubtful(original, e) || Refused(e)
  {}

  lemma EndAccounted(log: seq<Event>, now: real, p: nat, q: nat)
    requires Clean(Built(log, now)) && Ends(log, p, q) && log[p].request.write
    ensures FromIndex(log, now, q) || Refused(log[q]) || log[p].request.target.Absent?
  {
    hide ResolvedAll, Opener, Taken, Refused;
    var s := Ended(TakenAll(log), now);
    CleanResolved(s, s.canceled + s.uncertain);
    CleanBefore(log, q + 1);
    assert log[..q + 1][..q] == log[..q];
    PendingFollowsLog(log, q);
    assert Waits(log, q, TakenAll(log[..q]).pending, log[q].id);
    CleanEnd(TakenAll(log[..q]), log[q], log[p].request);
    var e := EntryAt(log, q, Built(log, now).end);
    if e.Some? {
      IndexExact(log, now, e.value);
      assert FromLog(log, q, e.value, Built(log, now).end);
    } else if Doubtful(log[p].request, log[q]) {
      DoubtSetAside(log, p, q);
    }
  }

  lemma DoubtSetAside(log: seq<Event>, p: nat, q: nat)
    requires Ends(log, p, q) && Doubtful(log[p].request, log[q])
    ensures var s := TakenAll(log); log[p].request in s.canceled + s.uncertain
  {
    EntriesFollowLog(log, |log|);
    assert log[..|log|] == log;
    hide TakenAll;
    assert DoubtFrom(log, q, log[p].request);
  }

  // What the counters say.

  /** The faults of a log, and its completed requests. */
  datatype Fault = Malformed | Orphaned | Unmappable | Abandoned | Completed | DoubtUnmappable | DoubtAmbiguous

  predicate HasFault(log: seq<Event>, q: nat, fault: Fault)
    requires q < |log|
  {
    var e, p := log[q], Closes(log, q);
    match fault
    case Malformed =>
      e.Invalid? || (e.Broken? && p.Some?) || (e.Start? && Opener(log, q, e.id).Some?)
    case Orphaned => Ending(e) && p.None?
    case Unmappable => p.Some? && Confirmed(e) && !e.target.Mapped?
    case Abandoned => p.Some? && e.Cancel? && !e.byStop && log[p.value].request.write
    case Completed => p.Some? && (e.Outcome? || (e.Broken? && e.ended.Some?))
    case DoubtUnmappable => p.Some? && Doubtful(log[p.value].request, e) && log[p.value].request.target.Unmapped?
    case DoubtAmbiguous => p.Some? && Doubtful(log[p.value].request, e) && log[p.value].request.target.Ambiguous?
  }

  /** Where a log has a fault, up to position i. */
  function Faults(log: seq<Event>, i: nat, fault: Fault): set<nat>
    requires i <= |log|
  {
    set q | 0 <= q < i && HasFault(log, q, fault)
  }

  /** The starts that are still waiting at the end, by their requests. */
  function Unended(log: seq<Event>): set<string> {
    set p | 0 <= p < |log| && log[p].Start? && log[p].request.write && Opener(log, |log|, log[p].id) == Some(p)
      :: log[p].id
  }

  function Having(rs: seq<Request>, ambiguous: bool): nat {
    if rs == [] then 0
    else
      Having(rs[..|rs| - 1], ambiguous)
      + (if (if ambiguous then rs[|rs| - 1].target.Ambiguous? else rs[|rs| - 1].target.Unmapped?) then 1 else 0)
  }

  lemma {:induction false} HavingJoin(rs: seq<Request>, more: seq<Request>, ambiguous: bool)
    ensures Having(rs + more, ambiguous) == Having(rs, ambiguous) + Having(more, ambiguous)
  {
    if more == [] {
      assert rs + more == rs;
    } else {
      var n := |more| - 1;
      assert (rs + more)[..|rs + more| - 1] == rs + more[..n];
      HavingJoin(rs, more[..n], ambiguous);
    }
  }

  lemma HavingOne(rs: seq<Request>, r: Request, ambiguous: bool)
    ensures Having(rs + [r], ambiguous)
            == Having(rs, ambiguous)
               + (if (if ambiguous then r.target.Ambiguous? else r.target.Unmapped?) then 1 else 0)
  {
    assert (rs + [r])[..|rs|] == rs;
  }

  lemma FaultsGrow(log: seq<Event>, i: nat, fault: Fault)
    requires i < |log|
    ensures |Faults(log, i + 1, fault)| == |Faults(log, i, fault)| + (if HasFault(log, i, fault) then 1 else 0)
  {
    hide HasFault;
    if HasFault(log, i, fault) {
      assert Faults(log, i + 1, fault) == Faults(log, i, fault) + {i} && i !in Faults(log, i, fault);
    } else {
      assert Faults(log, i + 1, fault) == Faults(log, i, fault);
    }
  }

  predicate TalliedRight(log: seq<Event>, i: nat, s: State)
    requires i <= |log|
  {
    && s.errors == Errors(|Faults(log, i, Malformed)|, |Faults(log, i, Orphaned)|, |Faults(log, i, Unmappable)|,
                          |Faults(log, i, Abandoned)|)
    && s.count == |Faults(log, i, Completed)|
    && Having(s.canceled, false) + Having(s.uncertain, false) == |Faults(log, i, DoubtUnmappable)|
    && Having(s.canceled, true) + Having(s.uncertain, true) == |Faults(log, i, DoubtAmbiguous)|
  }

  lemma TalliedStep(log: seq<Event>, i: nat, s: State)
    requires i < |log| && PendingOk(log, i, s.pending) && TalliedRight(log, i, s)
    ensures TalliedRight(log, i + 1, Taken(s, log[i]))
  {
    hide Opener, Faults, Having;
    forall fault
      ensures |Faults(log, i + 1, fault)| == |Faults(log, i, fault)| + (if HasFault(log, i, fault) then 1 else 0)
    {
      FaultsGrow(log, i, fault);
    }
    forall r, ambiguous: bool
      ensures Having(s.canceled + [r], ambiguous) == Having(s.canceled, ambiguous)
              + (if (if ambiguous then r.target.Ambiguous? else r.target.Unmapped?) then 1 else 0)
      ensures Having(s.uncertain + [r], ambiguous) == Having(s.uncertain, ambiguous)
              + (if (if ambiguous then r.target.Ambiguous? else r.target.Unmapped?) then 1 else 0)
    {
      HavingOne(s.canceled, r, ambiguous);
      HavingOne(s.uncertain, r, ambiguous);
    }
    if Ending(log[i]) {
      assert Closes(log, i).Some? ==> Waits(log, i, s.pending, log[i].id);
    }
  }

  lemma {:induction false} TallyFollowsLog(log: seq<Event>, i: nat)
    requires i <= |log|
    ensures TalliedRight(log, i, TakenAll(log[..i]))
  {
    hide Taken, HasFault, PendingOk;
    if i > 0 {
      TallyFollowsLog(log, i - 1);
      PendingFollowsLog(log, i - 1);
      assert log[..i][..i - 1] == log[..i - 1];
      TalliedStep(log, i - 1, TakenAll(log[..i - 1]));
    } else {
      NoFaults(log);
    }
  }

  lemma NoFaults(log: seq<Event>)
    ensures forall fault :: Faults(log, 0, fault) == {}
  {}

  lemma {:induction false} ResolvedErrors(s: State, originals: seq<Request>)
    ensures var s' := ResolvedAll(s, originals);
            && s'.errors == s.errors.(unknown := s.errors.unknown + Having(originals, false),
                                      unfinished := s.errors.unfinished + Having(originals, true))
            && s'.count == s.count
  {
    if originals != [] {
      ResolvedErrors(s, originals[..|originals| - 1]);
    }
  }

  lemma UnendedWait(log: seq<Event>)
    ensures OpenWrites(TakenAll(log).pending) == Unended(log)
  {
    PendingFollowsLog(log, |log|);
    assert log[..|log|] == log;
    hide TakenAll;
    var pending := TakenAll(log).pending;
    forall id ensures id in OpenWrites(pending) <==> id in Unended(log) {
      if Opener(log, |log|, id).Some? {
        assert Waits(log, |log|, pending, id);
      }
    }
  }

  /**
   The error counters are the faults of the log: malformed lines, repeated starts and ends that cannot be read; ends
   without a start; writes whose target is not known; and writes that were cancelled, that never ended, or whose
   outcome cannot be told.
   */
  lemma ErrorsAreFaults(log: seq<Event>, now: real)
    ensures var s, n := Built(log, now), |log|;
            && s.errors.invalid == |Faults(log, n, Malformed)|
            && s.errors.orphan == |Faults(log, n, Orphaned)|
            && s.errors.unknown == |Faults(log, n, Unmappable)| + |Faults(log, n, DoubtUnmappable)|
            && s.errors.unfinished
               == |Faults(log, n, Abandoned)| + |Unended(log)| + |Faults(log, n, DoubtAmbiguous)|
            && s.count == |Faults(log, n, Completed)|
  {
    hide HasFault, Having, Faults, Unended, ResolvedAll, TakenAll;
    var s := Ended(TakenAll(log), now);
    TallyFollowsLog(log, |log|);
    assert log[..|log|] == log;
    UnendedWait(log);
    ResolvedErrors(s, s.canceled + s.uncertain);
    HavingJoin(s.canceled, s.uncertain, false);
    HavingJoin(s.canceled, s.uncertain, true);
  }

  /** When the event at q brought a request to its end, if it says so. */
  function EndedAt(log: seq<Event>, q: nat): Option<real>
    requires q < |log|
  {
    if Closes(log, q).None? then None
    else if log[q].Outcome? then Some(log[q].at)
    else if log[q].Broken? then log[q].ended
    else None
  }

  ghost predicate LatestUpTo(log: seq<Event>, i: nat, end: real)
    requires i <= |log|
  {
    && end >= 0.0 && (forall q :: 0 <= q < i && EndedAt(log, q).Some? ==> EndedAt(log, q).value <= end)
    && (end == 0.0 || exists q :: 0 <= q < i && EndedAt(log, q) == Some(end))
  }

  lemma {:induction false} EndFollowsLog(log: seq<Event>, i: nat)
    requires i <= |log|
    ensures LatestUpTo(log, i, TakenAll(log[..i]).end)
  {
    if i > 0 {
      EndFollowsLog(log, i - 1);
      PendingFollowsLog(log, i - 1);
      assert log[..i][..i - 1] == log[..i - 1];
      EndStep(log, i - 1, TakenAll(log[..i - 1]));
    }
  }

  lemma EndStep(log: seq<Event>, i: nat, s: State)
    requires i < |log| && PendingOk(log, i, s.pending) && LatestUpTo(log, i, s.end)
    ensures LatestUpTo(log, i + 1, Taken(s, log[i]).end)
  {
    hide Opener;
    if Ending(log[i]) {
      assert Closes(log, i).Some? ==> Waits(log, i, s.pending, log[i].id);
    }
    var end := Taken(s, log[i]).end;
    assert EndedAt(log, i).Some? ==> end == Later(s.end, EndedAt(log, i).value);
    assert EndedAt(log, i).None? ==> end == s.end;
    if end != 0.0 && end == s.end {
      var q :| 0 <= q < i && EndedAt(log, q) == Some(end);
    }
  }

  /** The window ends with the last completion, and at the present if some write is in doubt. */
  lemma WindowEnd(log: seq<Event>, now: real)
    ensures var s, t := Built(log, now), TakenAll(log);
            && LatestUpTo(log, |log|, t.end)
            && (s.end == t.end || s.end == now) && s.end >= t.end
            && (s.end != t.end ==> exists q: nat, r: Request :: q < |log| && DoubtFrom(log, q, r))
            && (forall q: nat, r: Request :: q < |log| && DoubtFrom(log, q, r) ==> s.end >= now)
  {
    EndFollowsLog(log, |log|);
    EntriesFollowLog(log, |log|);
    assert log[..|log|] == log;
    var s := Ended(TakenAll(log), now);
    ResolvedEntries(s, s.canceled + s.uncertain);
    hide TakenAll, ResolvedAll, DoubtFrom, LatestUpTo;
    if s.canceled + s.uncertain != [] {
      var r := (s.canceled + s.uncertain)[0];
      assert r in s.canceled + s.uncertain;
      var q :| 0 <= q < |log| && DoubtFrom(log, q, r);
    }
    forall q: nat, r: Request | q < |log| && DoubtFrom(log, q, r) ensures s.end >= now {
      assert r in s.canceled + s.uncertain;
    }
  }
}
