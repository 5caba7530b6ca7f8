/**
 How the audit reads the request log of a load test: which writes it takes as certain, which as uncertain,
 and what it counts as an error. Malformed lines are events of their own; setup traffic is skipped.
 */
module WriteIntake {
  import opened EditAudit
  import opened Options

  datatype Kind = Like | Bookmark | Follow | PostUpdate | PostCreate | CommentCreate | PostDelete
  datatype Key = Key(kind: Kind, first: nat, second: nat)

  /**
   Where a write went. A create that was not confirmed is looked up in the database once the log has been read:
   it may be absent, or it may be impossible to tell.
   */
  datatype Target = Mapped(key: Key, expected: Text) | Unmapped | Absent | Ambiguous

  datatype Request = Request(at: real, write: bool, put: bool, target: Target)

  datatype Event =
    | Setup
    | Invalid
    | Start(id: string, request: Request)
    | Outcome(id: string, at: real, success: bool, write: bool, status: nat, target: Target)
    | Cancel(id: string, byStop: bool)
    // An outcome that fails on the way: its start has been taken off, and its time has been read or not.
    | Broken(id: string, ended: Option<real>)

  datatype Entry = Entry(key: Key, started: real, completed: real, put: bool, expected: Text, uncertain: bool)

  datatype Errors = Errors(invalid: nat, orphan: nat, unknown: nat, unfinished: nat)

  const NO_ERRORS := Errors(0, 0, 0, 0)

  datatype State = State(pending: map<string, Request>, entries: seq<Entry>, canceled: seq<Request>,
                         uncertain: seq<Request>, errors: Errors, end: real, count: nat)

  const EMPTY := State(map[], [], [], [], NO_ERRORS, 0.0, 0)

  function Later(a: real, b: real): real { if a >= b then a else b }

  /** The index takes a write whose resource is known; anything else is an error. */
  function Inserted(s: State, target: Target, original: Request, completed: real, uncertain: bool): State {
    if target.Mapped? then
      s.(entries := s.entries + [Entry(target.key, original.at, completed, original.put, target.expected, uncertain)])
    else s.(errors := s.errors.(unknown := s.errors.unknown + 1))
  }

  /** A write that failed with a server error, or without a status, may still have been applied. */
  predicate Unsure(e: Event)
    requires e.Outcome?
  {
    !e.success && e.write && (e.status == 0 || e.status >= 500)
  }

  function Taken(s: State, e: Event): State {
    match e
    case Setup => s
    case Invalid => s.(errors := s.errors.(invalid := s.errors.invalid + 1))
    case Start(id, request) =>
      var errors := if id in s.pending then s.errors.(invalid := s.errors.invalid + 1) else s.errors;
      s.(errors := errors, pending := s.pending[id := request])
    case Outcome(id, at, success, write, status, target) =>
      if id !in s.pending then s.(errors := s.errors.(orphan := s.errors.orphan + 1))
      else
        var original := s.pending[id];
        var s' := s.(pending := s.pending - {id}, end := Later(s.end, at), count := s.count + 1);
        if success && write then Inserted(s', target, original, at, false)
        else if Unsure(e) then s'.(uncertain := s.uncertain + [original])
        else s'
    case Cancel(id, byStop) =>
      if id !in s.pending then s.(errors := s.errors.(orphan := s.errors.orphan + 1))
      else
        var original := s.pending[id];
        var s' := s.(pending := s.pending - {id});
        if !original.write then s'
        else if byStop then s'.(canceled := s.canceled + [original])
        else s'.(errors := s.errors.(unfinished := s.errors.unfinished + 1))
    case Broken(id, ended) =>
      if id !in s.pending then s.(errors := s.errors.(orphan := s.errors.orphan + 1))
      else
        var s' := s.(pending := s.pending - {id}, errors := s.errors.(invalid := s.errors.invalid + 1));
        if ended.Some? then s'.(end := Later(s.end, ended.value), count := s.count + 1) else s'
  }

  function TakenAll(log: seq<Event>): State {
    if log == [] then EMPTY else Taken(TakenAll(log[..|log| - 1]), log[|log| - 1])
  }

  function OpenWrites(pending: map<string, Request>): set<string> {
    set id | id in pending && pending[id].write
  }

  /** What never ended is an error, and the window of the uncertain writes reaches to now. */
  function Ended(s: State, now: real): State {
    s.(errors := s.errors.(unfinished := s.errors.unfinished + |OpenWrites(s.pending)|),
       end := if s.canceled + s.uncertain != [] then Later(s.end, now) else s.end)
  }

  function Resolved(s: State, original: Request): State {
    match original.target
    case Absent => s
    case Ambiguous => s.(errors := s.errors.(unfinished := s.errors.unfinished + 1))
    case _ => Inserted(s, original.target, original, s.end, true)
  }

  function ResolvedAll(s: State, originals: seq<Request>): State {
    if originals == [] then s
    else Resolved(ResolvedAll(s, originals[..|originals| - 1]), originals[|originals| - 1])
  }

  function Built(log: seq<Event>, now: real): State {
    var s := Ended(TakenAll(log), now);
    ResolvedAll(s, s.canceled + s.uncertain)
  }

  // The reader itself.

  class Reader {
    var pending: map<string, Request>
    var entries: seq<Entry>
    var canceled: seq<Request>
    var uncertain: seq<Request>
    var errors: Errors
    var end: real
    var count: nat

    ghost function Snapshot(): State
      reads this
    {
      State(pending, entries, canceled, uncertain, errors, end, count)
    }

    constructor ()
      ensures Snapshot() == EMPTY
    {
      pending, entries, canceled, uncertain, errors, end, count := map[], [], [], [], NO_ERRORS, 0.0, 0;
    }

    method Insert(target: Target, original: Request, completed: real, isUncertain: bool) returns (known: bool)
      modifies this`entries, this`errors
      ensures known == target.Mapped?
      ensures Snapshot() == Inserted(old(Snapshot()), target, original, completed, isUncertain)
    {
      if !target.Mapped? {
        errors := errors.(unknown := errors.unknown + 1);
        return false;
      }
      entries := entries + [Entry(target.key, original.at, completed, original.put, target.expected, isUncertain)];
      return true;
    }

    method Take(e: Event)
      modifies this
      ensures Snapshot() == Taken(old(Snapshot()), e)
    {
      match e
      case Setup =>
      case Invalid => errors := errors.(invalid := errors.invalid + 1);
      case Start(id, request) =>
        if id in pending {
          errors := errors.(invalid := errors.invalid + 1);
        }
        pending := pending[id := request];
      case Outcome(id, at, success, write, status, target) =>
        if id !in pending {
          errors := errors.(orphan := errors.orphan + 1);
          return;
        }
        var original := pending[id];
        pending := pending - {id};
        end := Later(end, at);
        count := count + 1;
        if success && write {
          var _ := Insert(target, original, at, false);
        } else if write && (status == 0 || status >= 500) {
          uncertain := uncertain + [original];
        }
      case Cancel(id, byStop) =>
        if id !in pending {
          errors := errors.(orphan := errors.orphan + 1);
          return;
        }
        var original := pending[id];
        pending := pending - {id};
        if original.write {
          if byStop {
            canceled := canceled + [original];
          } else {
            errors := errors.(unfinished := errors.unfinished + 1);
          }
        }
      case Broken(id, ended) =>
        if id !in pending {
          errors := errors.(orphan := errors.orphan + 1);
          return;
        }
        pending := pending - {id};
        if ended.Some? {
          end := Later(end, ended.value);
          count := count + 1;
        }
        errors := errors.(invalid := errors.invalid + 1);
    }

    method TakeAll(log: seq<Event>)
      requires Snapshot() == EMPTY
      modifies this
      ensures Snapshot() == TakenAll(log)
    {
      hide Taken;
      for i := 0 to |log|
        invariant Snapshot() == TakenAll(log[..i])
      {
        assert log[..i + 1][..i] == log[..i];
        Take(log[i]);
      }
      assert log[..|log|] == log;
    }

    method Resolve(originals: seq<Request>)
      modifies this`entries, this`errors
      ensures Snapshot() == ResolvedAll(old(Snapshot()), originals)
    {
      hide Inserted;
      ghost var s := Snapshot();
      for i := 0 to |originals|
        invariant Snapshot() == ResolvedAll(s, originals[..i])
      {
        assert originals[..i + 1][..i] == originals[..i];
        var original := originals[i];
        if original.target.Ambiguous? {
          errors := errors.(unfinished := errors.unfinished + 1);
        } else if !original.target.Absent? {
          var _ := Insert(original.target, original, end, true);
        }
      }
      assert originals[..|originals|] == originals;
    }

    method Build(log: seq<Event>, now: real)
      requires Snapshot() == EMPTY
      modifies this
      ensures Snapshot() == Built(log, now)
    {
      hide TakenAll, ResolvedAll;
      TakeAll(log);
      errors := errors.(unfinished := errors.unfinished + |OpenWrites(pending)|);
      if canceled != [] || uncertain != [] {
        end := Later(end, now);
      }
      Resolve(canceled + uncertain);
    }
  }
}
