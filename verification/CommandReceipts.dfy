/**
 Idempotent commands. A receipt carries the hash of the caller's idempotency key; while it is retained, the same
 key finds it, and a second attempt changes and charges nothing.
 */
module CommandReceipts {
  import opened Options
  import opened MapSums
  import opened Identifiers
  import opened BusinessState
  import opened LedgerInvariant

  /** What an idempotency key is scoped to. */
  datatype Claim = Claim(epoch: string, user: nat, kind: string, hash: string)

  predicate Bears(s: Store, k: CommandKey, claim: Claim) {
    && k in s.commands && k.epoch == claim.epoch
    && s.commands[k].user == claim.user && s.commands[k].kind == claim.kind
    && s.commands[k].keyHash == Some(claim.hash)
  }

  /** The unique index on the idempotency key. */
  ghost predicate OneEach(s: Store) {
    forall claim, j, k :: Bears(s, j, claim) && Bears(s, k, claim) ==> j == k
  }

  /** The lookup for a command of a kind: expired receipts count as well, since they still occupy the key. */
  ghost function Find(s: Store, claim: Claim): (k: Option<CommandKey>)
    ensures k.Some? ==> Bears(s, k.value, claim)
    ensures k.None? ==> forall j :: !Bears(s, j, claim)
  {
    if j :| Bears(s, j, claim) then Some(j) else None
  }

  function ClaimOf(r: Reservation, hash: string): Claim {
    Claim(r.command.key.epoch, r.command.user, r.command.kind, hash)
  }

  lemma TakenIffFound(s: Store, r: Reservation)
    ensures KeyHashTaken(s, r) <==> r.keyHash.Some? && Find(s, ClaimOf(r, r.keyHash.value)).Some?
  {
    if r.keyHash.Some? {
      var claim := ClaimOf(r, r.keyHash.value);
      if KeyHashTaken(s, r) {
        var k :| k in s.commands && k.epoch == r.command.key.epoch && s.commands[k].user == r.command.user
                 && s.commands[k].kind == r.command.kind && s.commands[k].keyHash == r.keyHash;
        assert Bears(s, k, claim);
      }
      if Find(s, claim).Some? {
        assert Bears(s, Find(s, claim).value, claim);
      }
    }
  }

  lemma CreateKeepsOne(l: Limits, s: Store, r: Reservation)
    requires OneEach(s)
    ensures OneEach(Created(l, s, r).0)
  {
    hide Sum, ValidReservation, Affordable, RowAllowed;
    var s' := Created(l, s, r).0;
    forall claim, j, k | Bears(s', j, claim) && Bears(s', k, claim) ensures j == k {
      assert j != r.command.key ==> Bears(s, j, claim);
      assert k != r.command.key ==> Bears(s, k, claim);
    }
  }

  lemma StepKeepsOne(l: Limits, s: Store, step: Step)
    requires OneEach(s)
    ensures OneEach(Exec(l, s, step))
  {
    hide Sum, Registered, Created, Applied, Released, Parking, Picked, Orphans;
    if step.Create? {
      CreateKeepsOne(l, s, step.r);
    } else {
      CommandsOnlyGo(l, s, step);
      var s' := Exec(l, s, step);
      forall claim, j, k | Bears(s', j, claim) && Bears(s', k, claim) ensures j == k {
        assert Bears(s, j, claim) && Bears(s, k, claim);
      }
    }
  }

  lemma CommandsOnlyGo(l: Limits, s: Store, step: Step)
    requires !step.Create?
    ensures var s' := Exec(l, s, step);
            s'.commands.Keys <= s.commands.Keys && forall k :: k in s'.commands ==> s'.commands[k] == s.commands[k]
  {
    hide Sum, ValidRequirement, ValidApplication, ValidMessage, ValidUuid, SafeReason, Affordable, RowAllowed, Picked,
      Orphans;
  }

  lemma {:induction false} ReceiptsUnique(l: Limits, s: Store, steps: seq<Step>)
    requires OneEach(s)
    ensures OneEach(Run(l, s, steps))
    decreases |steps|
  {
    hide Exec, OneEach;
    if steps != [] {
      StepKeepsOne(l, s, steps[0]);
      ReceiptsUnique(l, Exec(l, s, steps[0]), steps[1..]);
    }
  }

  /** A created command is what its key finds. */
  lemma CreatedIsFound(l: Limits, s: Store, r: Reservation)
    requires OneEach(s) && r.keyHash.Some? && Created(l, s, r).1 == Done
    ensures var s' := Created(l, s, r).0;
            && Find(s', ClaimOf(r, r.keyHash.value)) == Some(r.command.key)
            && s'.commands[r.command.key].retainedUntil == Some(r.now + RETENTION)
  {
    CreateKeepsOne(l, s, r);
    hide Sum, ValidReservation, Affordable, RowAllowed, OneEach;
    var s' := Created(l, s, r).0;
    assert Bears(s', r.command.key, ClaimOf(r, r.keyHash.value));
    OnlyOne(s', ClaimOf(r, r.keyHash.value), r.command.key);
  }

  lemma OnlyOne(s: Store, claim: Claim, k: CommandKey)
    requires OneEach(s) && Bears(s, k, claim)
    ensures Find(s, claim) == Some(k)
  {}

  /** No clean-up among these steps is late enough to remove a receipt retained until then. */
  predicate CleansBefore(steps: seq<Step>, until: int) {
    forall i :: 0 <= i < |steps| && steps[i].Cleanup? ==> steps[i].now < until
  }

  lemma StepKeepsReceipt(l: Limits, s: Store, step: Step, k: CommandKey, until: int)
    requires k in s.commands && s.commands[k].retainedUntil == Some(until)
    requires step.Cleanup? ==> step.now < until
    ensures k in Exec(l, s, step).commands && Exec(l, s, step).commands[k] == s.commands[k]
  {
    hide Sum, ValidRequirement, ValidApplication, ValidMessage, ValidUuid, SafeReason, ValidReservation, Affordable,
      RowAllowed, Picked, Orphans, KeyHashTaken;
    match step
    case Cleanup(batch, picked, orphans, outbox, now) =>
      if Picked(s, batch, picked, outbox, now) && Orphans(WithoutEvents(s, Events(picked)), batch, orphans, now) {
        CleanupNeverEarly(s, batch, picked, orphans, outbox, now);
      }
    case _ =>
  }

  lemma {:induction false} RunKeepsReceipt(l: Limits, s: Store, steps: seq<Step>, k: CommandKey, until: int)
    requires k in s.commands && s.commands[k].retainedUntil == Some(until) && CleansBefore(steps, until)
    ensures var s' := Run(l, s, steps); k in s'.commands && s'.commands[k] == s.commands[k]
    decreases |steps|
  {
    hide Exec;
    if steps != [] {
      assert steps[0].Cleanup? ==> steps[0].now < until;
      StepKeepsReceipt(l, s, steps[0], k, until);
      assert forall i :: 0 <= i < |steps| - 1 ==> steps[1..][i] == steps[i + 1];
      RunKeepsReceipt(l, Exec(l, s, steps[0]), steps[1..], k, until);
    }
  }

  /**
   A command is created at most once for one idempotency key: whatever happens before its retention is over, the
   key still finds the first command, and a second attempt with it is refused and leaves every table as it was.
   */
  lemma RetryChangesNothing(l: Limits, s: Store, r: Reservation, steps: seq<Step>, again: Reservation)
    requires OneEach(s) && r.keyHash.Some? && Created(l, s, r).1 == Done
    requires CleansBefore(steps, r.now + RETENTION)
    requires again.keyHash == r.keyHash && ClaimOf(again, r.keyHash.value) == ClaimOf(r, r.keyHash.value)
    ensures var s' := Run(l, Created(l, s, r).0, steps);
            && Find(s', ClaimOf(r, r.keyHash.value)) == Some(r.command.key)
            && Created(l, s', again).0 == s'
            && Created(l, s', again).1 in {Invalid, CommandExists, StoreError}
            && (ValidReservation(again) && again.command.keyHash.Some? && again.command.key !in s'.commands ==>
                  Created(l, s', again).1 == CommandExists)
  {
    var s1 := Created(l, s, r).0;
    CreatedIsFound(l, s, r);
    CreateKeepsOne(l, s, r);
    ReceiptsUnique(l, s1, steps);
    RunKeepsReceipt(l, s1, steps, r.command.key, r.now + RETENTION);
    hide Sum, Run, ValidReservation, OneEach, Charged;
    var s' := Run(l, s1, steps);
    assert Bears(s1, r.command.key, ClaimOf(r, r.keyHash.value));
    assert Bears(s', r.command.key, ClaimOf(r, r.keyHash.value));
    OnlyOne(s', ClaimOf(r, r.keyHash.value), r.command.key);
    TakenIffFound(s', again);
  }
}
