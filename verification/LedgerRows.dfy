/** What can be in the tables: the argument checks as they show in the rows, in every reachable state. */
module LedgerRows {
  import opened Options
  import opened Identifiers
  import opened MapSums
  import opened BusinessState

  predicate Printable(v: string) { forall i :: 0 <= i < |v| ==> ' ' < v[i] < '\U{7f}' }

  /** A text that is refused: empty, too long, or with a blank, a control character or one beyond ASCII. */
  predicate BadText(v: string, maximum: nat) { v == "" || |v| > maximum || !Printable(v) }

  predicate BadKey(k: ReqKey) {
    !ValidUuid(k.epoch) || !ValidUuid(k.event) || BadText(k.consumer, 32) || BadText(k.revision, 64)
  }

  predicate BadCommand(c: Command) {
    || !ValidUuid(c.key.epoch) || !ValidUuid(c.key.id) || c.user == 0 || c.kind == "" || |c.digest| != 32
    || (c.keyHash.Some? && |c.keyHash.value| != 32)
    || (c.event != "" && !ValidUuid(c.event))
    || (c.status != "" && c.status != "succeeded" && c.status != "failed" && c.status != "unknown")
  }

  /** Every defect for which an argument is refused, and there is no other. */
  lemma RefusedFor(q: Requirement, a: Application, r: Reservation, m: Message)
    ensures !ValidRequirement(q) <==> BadKey(q.key) || q.payload < 0 || q.payload > 16384
    ensures !ValidApplication(a) <==>
              || BadKey(a.key.req) || BadText(a.key.generation, 255)
              || (a.result != "applied" && a.result != "no_effect_resource_absent")
    ensures !ValidReservation(r) <==>
              || BadCommand(r.command) || BadKey(r.requirement.key)
              || r.requirement.payload < 0 || r.requirement.payload > 16384 || r.payload < 1 || r.payload > 16384
              || |r.digest| != 32 || (r.keyHash.Some? && |r.keyHash.value| != 32)
              || r.requirement.key.epoch != r.command.key.epoch || r.requirement.key.event != r.command.event
    ensures !ValidMessage(m) <==>
              || m.size == 0 || m.size > 16384 || BadText(if m.kind == "" then "broker" else m.kind, 32)
              || (m.epoch != "" && !ValidUuid(m.epoch)) || (m.source != "" && !ValidUuid(m.source))
              || (m.event != "" && !ValidUuid(m.event))
  {
    hide ValidUuid;
  }

  predicate ReqsClean(reqs: map<ReqKey, Req>) {
    forall k :: k in reqs ==> !BadKey(k) && 1 <= reqs[k].payload <= 16384
  }

  predicate AppsClean(apps: map<AppKey, AppRow>) {
    forall a :: a in apps ==>
      !BadKey(a.req) && !BadText(a.generation, 255) && apps[a].result in {"applied", "no_effect_resource_absent"}
  }

  predicate CommandsClean(commands: map<CommandKey, CommandRow>) {
    forall c :: c in commands ==> CommandClean(c, commands[c])
  }

  predicate ParkingClean(parking: map<ParkKey, Parked>) {
    forall p :: p in parking ==>
      && !BadText(p.reason, 64) && 1 <= parking[p].size <= 16384
      && (parking[p].source != "" ==> ValidUuid(parking[p].source))
  }

  predicate RowsClean(s: Store) {
    ReqsClean(s.reqs) && AppsClean(s.apps) && CommandsClean(s.commands) && ParkingClean(s.parking)
  }

  predicate CommandClean(c: CommandKey, row: CommandRow) {
    && ValidUuid(c.epoch) && ValidUuid(c.id) && row.user != 0 && row.kind != ""
    && |row.digest| == 32 && (row.keyHash.Some? ==> |row.keyHash.value| == 32)
    && row.event.Some? && ValidUuid(row.event.value) && row.status == "succeeded" && row.retainedUntil.Some?
  }

  lemma RegisterClean(l: Limits, s: Store, q: Requirement)
    requires RowsClean(s)
    ensures RowsClean(Registered(l, s, q).0)
  {
    hide ValidUuid, Sum, Affordable, RowAllowed, AppsClean, CommandsClean, ParkingClean;
    assert ValidRequirement(q) ==> !BadKey(q.key);
    hide BadKey, BadText, ValidKey;
  }

  lemma ReservedClean(r: Reservation)
    requires ValidReservation(r)
    ensures !BadKey(r.requirement.key) && 1 <= r.payload <= 16384
    ensures CommandClean(r.command.key, CommandRow(r.command.user, r.command.kind, r.keyHash, r.digest, r.command.post,
                           Some(r.command.event), "succeeded", Some(r.now + RETENTION)))
  {
    hide ValidUuid;
  }

  lemma CreateClean(l: Limits, s: Store, r: Reservation)
    requires RowsClean(s)
    ensures RowsClean(Created(l, s, r).0)
  {
    hide Sum, Affordable, RowAllowed, KeyHashTaken, AppsClean, ParkingClean, ValidReservation, BadKey, CommandClean;
    if ValidReservation(r) {
      ReservedClean(r);
    }
  }

  lemma ApplicationClean(a: Application)
    requires ValidApplication(a)
    ensures !BadKey(a.key.req) && !BadText(a.key.generation, 255)
    ensures a.result in {"applied", "no_effect_resource_absent"}
  {
    hide ValidUuid;
  }

  lemma ReasonClean(reason: string)
    ensures !BadText(SafeReason(reason), 64)
  {
    hide SafeReason;
  }

  lemma ApplyWrites(s: Store, a: Application, now: int)
    ensures var s', k := Applied(s, a, now).0, a.key.req;
            var at := if a.completedAt.Some? then a.completedAt.value else now;
            && s'.commands == s.commands && s'.parking == s.parking
            && (s'.apps == s.apps
                || (ValidApplication(a) && s'.apps == s.apps[a.key := AppRow(a.result, a.version, at)]))
            && (s'.reqs == s.reqs
                || (k in s.reqs && s'.reqs == s.reqs[k := s.reqs[k].(closedAt := Some(at),
                                                     retainUntil := Some(at + RETENTION), reserved := true)]))
  {
    hide RowAllowed, Closed, ValidApplication;
    var k := a.key.req;
    if !ValidApplication(a) || k !in s.reqs {
    } else if a.key in s.apps || s.reqs[k].closedAt.Some? {
    } else if k.epoch in s.budget && !RowAllowed(Closed(s.budget[k.epoch], s.reqs[k])) {
    }
  }

  lemma ApplyClean(s: Store, a: Application, now: int)
    requires RowsClean(s)
    ensures RowsClean(Applied(s, a, now).0)
  {
    hide Applied, CommandsClean, ParkingClean, ValidApplication, BadKey, BadText;
    ApplyWrites(s, a, now);
    if ValidApplication(a) {
      ApplicationClean(a);
    }
  }

  lemma ParkWrites(s: Store, current: string, m: Message)
    ensures var s', key := Parking(s, current, m).0, ParkKey(m.digest, SafeReason(m.reason));
            && s'.reqs == s.reqs && s'.apps == s.apps && s'.commands == s.commands
            && (s'.parking == s.parking
                || (ValidMessage(m)
                    && s'.parking == s.parking[key := Parked(current, SourceEpoch(current, m), m.size)]))
  {
    hide RowAllowed, ValidMessage, SafeReason, SourceEpoch;
  }

  lemma ParkClean(s: Store, current: string, m: Message)
    requires RowsClean(s)
    ensures RowsClean(Parking(s, current, m).0)
  {
    hide ValidUuid, Parking, SafeReason, ReqsClean, AppsClean, CommandsClean, BadText, ValidText;
    ParkWrites(s, current, m);
    ReasonClean(m.reason);
  }

  lemma ReleaseClean(s: Store, ids: seq<string>, now: int)
    requires RowsClean(s)
    ensures RowsClean(Released(s, ids, now).0)
  {
    hide ValidUuid, AppsClean, CommandsClean, ParkingClean, BadKey, Due, Discharged;
  }

  lemma CleanupClean(s: Store, batch: int, picked: seq<ReqKey>, orphans: set<CommandKey>)
    requires RowsClean(s)
    ensures RowsClean(Cleaned(s, batch, picked, orphans).0)
  {
    hide ValidUuid, ParkingClean, BadKey, BadText, CommandClean;
  }

  lemma StepClean(l: Limits, s: Store, step: Step)
    requires RowsClean(s)
    ensures RowsClean(Exec(l, s, step))
  {
    hide Sum, Registered, Created, Applied, Released, Cleaned, Parking, Picked, Orphans;
    match step
    case Register(q) => RegisterClean(l, s, q);
    case Create(r) => CreateClean(l, s, r);
    case Apply(a, now) => ApplyClean(s, a, now);
    case Release(ids, now) => ReleaseClean(s, ids, now);
    case Cleanup(batch, picked, orphans, _, _) => CleanupClean(s, batch, picked, orphans);
    case Park(current, m) => ParkClean(s, current, m);
    case _ =>
  }

  /**
   In every reachable state the rows are well formed: keys are identifiers and short texts, no payload is empty or
   larger than 16 KiB, every receipt belongs to a user and an event and will expire, and every reason is a label.
   */
  lemma {:induction false} RunClean(l: Limits, s: Store, steps: seq<Step>)
    requires RowsClean(s)
    ensures RowsClean(Run(l, s, steps))
    decreases |steps|
  {
    hide RowsClean, Exec;
    if steps != [] {
      StepClean(l, s, steps[0]);
      RunClean(l, Exec(l, s, steps[0]), steps[1..]);
    }
  }

  lemma RowsAreClean(l: Limits, steps: seq<Step>)
    ensures RowsClean(Run(l, EMPTY, steps))
  {
    RunClean(l, EMPTY, steps);
  }
}
