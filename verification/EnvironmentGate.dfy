/**
 The environment row: one data epoch, ready or restoring, with a mode. It decides which event
 envelopes are admitted, and restores replace the epoch.
 */
module EnvironmentGate {
  import opened Options
  import opened Identifiers

  datatype Status = Ready | Restoring
  datatype Mode = LegacyV1 | V2
  datatype Environment = Environment(epoch: string, status: Status, mode: Mode, v1: bool, revision: string,
                                     operation: Option<string>)

  datatype GateOutcome = Changed | Unchanged | BadArgument | NotReady | EpochMismatch | NotDrained

  predicate ValidOperation(id: string) {
    |id| == 64 && forall i :: 0 <= i < 64 ==> LowerHex(id[i])
  }

  predicate ValidRevision(revision: string) {
    0 < |revision| <= 64
  }

  datatype Step =
    | Ensure(initial: string)
    | SetMode(mode: Mode, revision: string, v1: bool)
    | ActivateV2(revision: string, pendingLegacy: nat)
    | BeginRestore(operation: string, expected: string, epoch: string)
    | MarkReady(operation: string, epoch: string)

  function Exec(row: Option<Environment>, step: Step): (Option<Environment>, GateOutcome) {
    match step
    case Ensure(initial) =>
      if row.Some? then (row, Unchanged)
      else (Some(Environment(initial, Ready, LegacyV1, true, "phase-24-01", None)), Changed)
    case SetMode(mode, revision, v1) =>
      if !ValidRevision(revision) then (row, BadArgument)
      else if row.None? then (row, Unchanged)
      else (Some(row.value.(mode := mode, revision := revision, v1 := v1)), Changed)
    case ActivateV2(revision, pending) =>
      if !ValidRevision(revision) then (row, BadArgument)
      else if row.None? || row.value.status != Ready then (row, NotReady)
      else if row.value.mode == V2 && !row.value.v1 then (row, Unchanged)
      else if pending > 0 then (row, NotDrained)
      else (Some(row.value.(mode := V2, revision := revision, v1 := false)), Changed)
    case BeginRestore(operation, expected, epoch) =>
      if !ValidUuid(expected) || !ValidUuid(epoch) || epoch == expected || !ValidOperation(operation)
      then (row, BadArgument)
      else if row.None? then (row, NotReady)
      else if row.value.epoch != expected || row.value.status != Ready then (row, EpochMismatch)
      else (Some(row.value.(epoch := epoch, status := Restoring, operation := Some(operation))), Changed)
    case MarkReady(operation, epoch) =>
      if !ValidOperation(operation) || !ValidUuid(epoch) then (row, BadArgument)
      else if row.Some? && row.value.status == Restoring && row.value.epoch == epoch
              && row.value.operation == Some(operation)
      then (Some(row.value.(status := Ready, operation := None)), Changed)
      else (row, NotReady)
  }

  /** Which steps take effect, and why the others do not. */
  predicate AnsweredRight(row: Option<Environment>, step: Step, o: GateOutcome) {
    match step
    case Ensure(_) => o == if row.None? then Changed else Unchanged
    case SetMode(_, revision, _) =>
      (o == BadArgument <==> revision == "" || |revision| > 64) && (o == Changed <==> o != BadArgument && row.Some?)
      && o in {Changed, Unchanged, BadArgument}
    case ActivateV2(revision, pending) =>
      && (o == BadArgument <==> revision == "" || |revision| > 64)
      && (o == NotReady <==> o != BadArgument && (row.None? || row.value.status == Restoring))
      && (o == Changed <==>
            && o != BadArgument && row.Some? && row.value.status == Ready && pending == 0
            && (row.value.mode == LegacyV1 || row.value.v1))
      && (o == NotDrained <==>
            && o != BadArgument && row.Some? && row.value.status == Ready && pending > 0
            && (row.value.mode == LegacyV1 || row.value.v1))
      && o != EpochMismatch
    case BeginRestore(operation, expected, epoch) =>
      && (o == BadArgument <==>
            !ValidUuid(expected) || !ValidUuid(epoch) || !ValidOperation(operation) || epoch == expected)
      && (o == NotReady <==> o != BadArgument && row.None?)
      && (o == Changed <==>
            o != BadArgument && row.Some? && row.value.status == Ready && row.value.epoch == expected)
      && o in {BadArgument, NotReady, EpochMismatch, Changed}
    case MarkReady(operation, epoch) =>
      && (o == BadArgument <==> !ValidUuid(epoch) || !ValidOperation(operation))
      && (o == Changed <==>
            && o != BadArgument && row.Some? && row.value.status == Restoring
            && row.value.operation == Some(operation) && row.value.epoch == epoch)
      && o in {BadArgument, NotReady, Changed}
  }

  /** What a step that takes effect writes, field by field. */
  predicate WrittenRight(row: Option<Environment>, step: Step, row': Environment)
    requires row.None? ==> step.Ensure?
  {
    match step
    case Ensure(initial) =>
      && row'.epoch == initial && row'.status == Ready && row'.mode == LegacyV1 && row'.v1
      && row'.revision == "phase-24-01" && row'.operation == None
    case SetMode(mode, revision, v1) =>
      && row'.mode == mode && row'.v1 == v1 && row'.revision == revision
      && row'.epoch == row.value.epoch && row'.status == row.value.status && row'.operation == row.value.operation
    case ActivateV2(revision, _) =>
      && row'.mode == V2 && !row'.v1 && row'.revision == revision
      && row'.epoch == row.value.epoch && row'.status == row.value.status && row'.operation == row.value.operation
    case BeginRestore(operation, _, epoch) =>
      && row'.epoch == epoch && row'.status == Restoring && row'.operation == Some(operation)
      && row'.mode == row.value.mode && row'.v1 == row.value.v1 && row'.revision == row.value.revision
    case MarkReady(_, epoch) =>
      && row'.epoch == row.value.epoch && row'.status == Ready && row'.operation == None
      && row'.mode == row.value.mode && row'.v1 == row.value.v1 && row'.revision == row.value.revision
  }

  /** The cut-over waits until the legacy messages are drained, and a restore must name the epoch it replaces. */
  lemma StepMeans(row: Option<Environment>, step: Step)
    ensures var (row', o) := Exec(row, step);
            && AnsweredRight(row, step, o)
            && (o != Changed ==> row' == row)
            && (o == Changed ==> row'.Some? && (row.None? ==> step.Ensure?) && WrittenRight(row, step, row'.value))
  {
    hide ValidUuid, ValidOperation;
  }

  /** The row that the process keeps. */
  class Gate {
    var row: Option<Environment>

    constructor ()
      ensures row == None
    {
      row := None;
    }

    method Run(step: Step) returns (o: GateOutcome)
      modifies this
      ensures (row, o) == Exec(old(row), step)
      ensures o != Changed ==> row == old(row)
      ensures old(row).Some? ==>
                && row.Some?
                && (row.value.epoch != old(row).value.epoch ==> step.BeginRestore? && row.value.status == Restoring)
    {
      match step {
        case Ensure(initial) => o := EnsureRow(initial);
        case SetMode(mode, revision, v1) => o := ChangeMode(mode, revision, v1);
        case ActivateV2(revision, pending) => o := Activate(revision, pending);
        case BeginRestore(operation, expected, epoch) => o := Restore(operation, expected, epoch);
        case MarkReady(operation, epoch) => o := Finish(operation, epoch);
      }
    }

    method EnsureRow(initial: string) returns (o: GateOutcome)
      modifies this
      ensures (row, o) == Exec(old(row), Ensure(initial))
    {
      o := Unchanged;
      if row.None? {
        row, o := Some(Environment(initial, Ready, LegacyV1, true, "phase-24-01", None)), Changed;
      }
    }

    method ChangeMode(mode: Mode, revision: string, v1: bool) returns (o: GateOutcome)
      modifies this
      ensures (row, o) == Exec(old(row), SetMode(mode, revision, v1))
    {
      if !ValidRevision(revision) { return BadArgument; }
      if row.None? { return Unchanged; }
      row := Some(row.value.(mode := mode, revision := revision, v1 := v1));
      return Changed;
    }

    method Activate(revision: string, pending: nat) returns (o: GateOutcome)
      modifies this
      ensures (row, o) == Exec(old(row), ActivateV2(revision, pending))
    {
      if !ValidRevision(revision) { return BadArgument; }
      if row.None? || row.value.status != Ready { return NotReady; }
      if row.value.mode == V2 && !row.value.v1 { return Unchanged; }
      if pending > 0 { return NotDrained; }
      row := Some(row.value.(mode := V2, v1 := false, revision := revision));
      return Changed;
    }

    method Restore(operation: string, expected: string, epoch: string) returns (o: GateOutcome)
      modifies this
      ensures (row, o) == Exec(old(row), BeginRestore(operation, expected, epoch))
    {
      if !ValidUuid(expected) || !ValidUuid(epoch) || epoch == expected || !ValidOperation(operation) {
        return BadArgument;
      }
      if row.None? { return NotReady; }
      if row.value.epoch != expected || row.value.status != Ready { return EpochMismatch; }
      row := Some(row.value.(epoch := epoch, status := Restoring, operation := Some(operation)));
      return Changed;
    }

    method Finish(operation: string, epoch: string) returns (o: GateOutcome)
      modifies this
      ensures (row, o) == Exec(old(row), MarkReady(operation, epoch))
    {
      if !ValidOperation(operation) || !ValidUuid(epoch) { return BadArgument; }
      if row.None? || row.value.status != Restoring || row.value.epoch != epoch
         || row.value.operation != Some(operation) {
        return NotReady;
      }
      row := Some(row.value.(status := Ready, operation := None));
      return Changed;
    }
  }

  // Admission.

  datatype Envelope = Envelope(wellFormed: bool, version: nat, epoch: string, event: string, kind: string)
  datatype Decision = Accept | Park | Refuse(reason: GateOutcome)

  function CheckEnvelope(row: Option<Environment>, e: Envelope): (d: Decision)
    ensures d == Accept <==>
              && e.wellFormed && row.Some? && row.value.status == Ready
              && (if e.version == 1 then row.value.mode == LegacyV1 && row.value.v1
                  else e.version == 2 && e.epoch == row.value.epoch)
  {
    if !e.wellFormed then Refuse(BadArgument)
    else if row.None? then Refuse(NotReady)
    else if e.version == 1 then
      if row.value.status == Ready && row.value.mode == LegacyV1 && row.value.v1 then Accept else Park
    else if e.version != 2 then Park
    else if e.epoch != row.value.epoch then Park
    else if row.value.status != Ready then Refuse(NotReady)
    else Accept
  }

  /** What is parked can be looked at later; what is refused was not a message for this environment, or not now. */
  lemma EnvelopeMeans(row: Option<Environment>, e: Envelope)
    ensures CheckEnvelope(row, e) == Refuse(BadArgument) <==> !e.wellFormed
    ensures CheckEnvelope(row, e) == Refuse(NotReady) <==>
              e.wellFormed && (row.None? || (e.version == 2 && InEpoch(row, e.epoch) && row.value.status == Restoring))
    ensures CheckEnvelope(row, e) == Park <==>
              && e.wellFormed && row.Some?
              && (if e.version == 1 then row.value.status == Restoring || !V1Open(row)
                  else e.version > 2 || e.version == 0 || !InEpoch(row, e.epoch))
  {}

  // Runs: the row after the first |steps| steps.

  function After(row: Option<Environment>, steps: seq<Step>): Option<Environment>
    decreases |steps|
  {
    if steps == [] then row
    else Exec(After(row, steps[..|steps| - 1]), steps[|steps| - 1]).0
  }

  function At(row: Option<Environment>, steps: seq<Step>, i: nat): Option<Environment>
    requires i <= |steps|
  {
    After(row, steps[..i])
  }

  lemma Unfold(row: Option<Environment>, steps: seq<Step>, i: nat)
    requires 0 < i <= |steps|
    ensures At(row, steps, i) == Exec(At(row, steps, i - 1), steps[i - 1]).0
  {
    assert steps[..i][..i - 1] == steps[..i - 1];
  }

  /** Step n is a restore that took effect and named epoch e. */
  predicate Restores(row: Option<Environment>, steps: seq<Step>, n: nat, e: string)
    requires n < |steps|
  {
    steps[n].BeginRestore? && steps[n].epoch == e && Exec(At(row, steps, n), steps[n]).1 == Changed
  }

  predicate AnyRestore(row: Option<Environment>, steps: seq<Step>, n: nat)
    requires n < |steps|
  {
    steps[n].BeginRestore? && Restores(row, steps, n, steps[n].epoch)
  }

  predicate InEpoch(row: Option<Environment>, e: string) {
    row.Some? && row.value.epoch == e
  }

  lemma RestoreNames(row: Option<Environment>, steps: seq<Step>, n: nat, e: string)
    requires n < |steps| && Restores(row, steps, n, e)
    ensures AnyRestore(row, steps, n) && InEpoch(At(row, steps, n + 1), e)
  {
    Unfold(row, steps, n + 1);
  }

  lemma OnlyRestoresMove(row: Option<Environment>, steps: seq<Step>, n: nat)
    requires n < |steps| && At(row, steps, n).Some?
    ensures At(row, steps, n + 1).Some?
    ensures AnyRestore(row, steps, n) || At(row, steps, n + 1).value.epoch == At(row, steps, n).value.epoch
    ensures AnyRestore(row, steps, n) ==> Restores(row, steps, n, At(row, steps, n + 1).value.epoch)
  {
    Unfold(row, steps, n + 1);
  }

  predicate LastRestore(row: Option<Environment>, steps: seq<Step>, m: nat, n: nat, j: nat, e: string)
    requires j <= |steps|
  {
    m <= n < j && Restores(row, steps, n, e) && forall later :: n < later < j ==> !AnyRestore(row, steps, later)
  }

  /** Once there is a row, only a restore changes the epoch: the epoch is the one named by the last restore. */
  lemma {:induction false} EpochIsLastRestore(row: Option<Environment>, steps: seq<Step>, m: nat, j: nat)
    requires m <= j <= |steps| && At(row, steps, m).Some?
    ensures At(row, steps, j).Some?
    ensures var now := At(row, steps, j).value.epoch;
            || (now == At(row, steps, m).value.epoch && forall n :: m <= n < j ==> !AnyRestore(row, steps, n))
            || (exists n :: LastRestore(row, steps, m, n, j, now))
    decreases j
  {
    hide At, Restores, AnyRestore, Exec, After;
    if m < j {
      var last := j - 1;
      EpochIsLastRestore(row, steps, m, last);
      OnlyRestoresMove(row, steps, last);
      var now := At(row, steps, j).value.epoch;
      if AnyRestore(row, steps, last) {
        assert LastRestore(row, steps, m, last, j, now);
      } else if n :| LastRestore(row, steps, m, n, last, now) {
        assert LastRestore(row, steps, m, n, j, now);
      }
    }
  }

  lemma LastRestoreDecides(row: Option<Environment>, steps: seq<Step>, m: nat, n: nat, j: nat, e: string)
    requires j <= |steps| && LastRestore(row, steps, m, n, j, e)
    ensures InEpoch(At(row, steps, j), e)
  {
    hide At, Restores, AnyRestore, Exec, After;
    RestoreNames(row, steps, n, e);
    var next := n + 1;
    EpochIsLastRestore(row, steps, next, j);
    var now := At(row, steps, j).value.epoch;
    if later :| LastRestore(row, steps, next, later, j, now) {
      RestoreNames(row, steps, later, now);
    }
  }

  /** The envelopes of a superseded epoch come back into their epoch exactly when a later restore names it again. */
  lemma SupersededReturnsIff(row: Option<Environment>, steps: seq<Step>, m: nat, j: nat, e: string)
    requires m <= j <= |steps| && At(row, steps, m).Some? && At(row, steps, m).value.epoch != e
    ensures InEpoch(At(row, steps, j), e) <==> exists n :: LastRestore(row, steps, m, n, j, e)
  {
    hide At, LastRestore, AnyRestore, Exec, After;
    EpochIsLastRestore(row, steps, m, j);
    if n :| LastRestore(row, steps, m, n, j, e) {
      LastRestoreDecides(row, steps, m, n, j, e);
    }
  }

  /** Every restore names an epoch that the row has not had before. */
  predicate FreshRestores(row: Option<Environment>, steps: seq<Step>) {
    forall n, i :: 0 <= i <= n < |steps| && AnyRestore(row, steps, n) ==> !InEpoch(At(row, steps, i), steps[n].epoch)
  }

  /** With fresh restores, no envelope of a superseded epoch is ever accepted again. */
  lemma SupersededStaysOut(row: Option<Environment>, steps: seq<Step>, i: nat, m: nat, j: nat, e: Envelope)
    requires FreshRestores(row, steps)
    requires i <= m <= j <= |steps|
    requires InEpoch(At(row, steps, i), e.epoch)
    requires At(row, steps, m).Some? && At(row, steps, m).value.epoch != e.epoch
    ensures e.version != 1 ==> CheckEnvelope(At(row, steps, j), e) != Accept
  {
    SupersededReturnsIff(row, steps, m, j, e.epoch);
    if InEpoch(At(row, steps, j), e.epoch) {
      var n :| LastRestore(row, steps, m, n, j, e.epoch);
      RestoreNames(row, steps, n, e.epoch);
    }
  }

  /** The way from one epoch into another: a restore and its end. */
  function Move(operation: string, from: string, to: string): seq<Step> {
    [BeginRestore(operation, from, to), MarkReady(operation, to)]
  }

  lemma Moved(env: Environment, operation: string, to: string)
    requires env.status == Ready && ValidUuid(env.epoch) && ValidUuid(to) && to != env.epoch
    requires ValidOperation(operation)
    ensures var env' := env.(epoch := to, status := Ready, operation := None);
            After(Some(env), Move(operation, env.epoch, to)) == Some(env')
  {
    var steps := Move(operation, env.epoch, to);
    assert steps[..2] == steps;
    Unfold(Some(env), steps, 1);
    Unfold(Some(env), steps, 2);
  }

  lemma {:induction false} AfterBoth(row: Option<Environment>, first: seq<Step>, second: seq<Step>)
    ensures After(row, first + second) == After(After(row, first), second)
    decreases |second|
  {
    if second == [] {
      assert first + second == first;
    } else {
      var n := |second| - 1;
      assert (first + second)[..|first + second| - 1] == first + second[..n];
      AfterBoth(row, first, second[..n]);
    }
  }

  /**
   Freshness is the caller's part: a restore only has to name another epoch than the current one. From every ready
   state, in its epoch A, a restore into any other epoch B supersedes A and a second one brings A back: the envelopes
   of A are accepted, then parked, then accepted again.
   */
  lemma StaleEpochReadmitted(env: Environment, e: Envelope, other: string, operation: string, operation': string)
    requires env.status == Ready && ValidUuid(env.epoch) && ValidUuid(other) && other != env.epoch
    requires ValidOperation(operation) && ValidOperation(operation')
    requires e.wellFormed && e.version == 2 && e.epoch == env.epoch
    ensures var there, back := Move(operation, env.epoch, other), Move(operation', other, env.epoch);
            && CheckEnvelope(Some(env), e) == Accept
            && CheckEnvelope(After(Some(env), there), e) == Park
            && CheckEnvelope(After(Some(env), there + back), e) == Accept
  {
    Moved(env, operation, other);
    var env' := env.(epoch := other, status := Ready, operation := None);
    Moved(env', operation', env.epoch);
    AfterBoth(Some(env), Move(operation, env.epoch, other), Move(operation', other, env.epoch));
  }

  /** Only the operation that began a restore can end it, and nothing moves its epoch meanwhile. */
  lemma {:induction false} OnlyOwnerEndsRestore(row: Option<Environment>, steps: seq<Step>, i: nat, j: nat)
    requires i <= j <= |steps|
    requires At(row, steps, i).Some? && At(row, steps, i).value.status == Restoring
    ensures var was := At(row, steps, i).value;
            || (At(row, steps, j).Some? && At(row, steps, j).value.status == Restoring
                && At(row, steps, j).value.operation == was.operation && At(row, steps, j).value.epoch == was.epoch)
            || (was.operation.Some? && exists n :: i <= n < j && steps[n] == MarkReady(was.operation.value, was.epoch))
    decreases j
  {
    if i < j {
      OnlyOwnerEndsRestore(row, steps, i, j - 1);
      Unfold(row, steps, j);
    }
  }

  predicate Reopens(step: Step) {
    step.SetMode? && step.mode == LegacyV1 && step.v1
  }

  predicate V1Open(row: Option<Environment>) {
    row.Some? && row.value.mode == LegacyV1 && row.value.v1
  }

  /** After the cut-over, v1 is admitted again only if a mode change reopens it. */
  lemma {:induction false} V1StaysClosed(row: Option<Environment>, steps: seq<Step>, i: nat, j: nat, e: Envelope)
    requires i < j <= |steps| && steps[i].ActivateV2?
    requires Exec(At(row, steps, i), steps[i]).1 in {Changed, Unchanged}
    requires e.version == 1 && CheckEnvelope(At(row, steps, j), e) == Accept
    ensures exists n :: i < n < j && Reopens(steps[n])
  {
    Unfold(row, steps, i + 1);
    V1Closed(row, steps, i + 1, j);
  }

  lemma {:induction false} V1Closed(row: Option<Environment>, steps: seq<Step>, i: nat, j: nat)
    requires i <= j <= |steps| && At(row, steps, i).Some? && !V1Open(At(row, steps, i))
    ensures At(row, steps, j).Some?
    ensures V1Open(At(row, steps, j)) ==> exists n :: i <= n < j && Reopens(steps[n])
    decreases j
  {
    hide At, After;
    if i < j {
      V1Closed(row, steps, i, j - 1);
      Unfold(row, steps, j);
    }
  }
}
