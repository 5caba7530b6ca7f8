/**
 The durable tables of the business event boundary and the transactions on them.
 Every transaction is an atomic step from one Store to the next; a transaction that fails
 leaves the Store it started from.
 */
module BusinessState {
  import opened Options
  import opened MapSums
  import opened Identifiers
  import opened Numbers

  const MAX_OPEN: nat := 10000
  const MAX_GROUPS: nat := 100000
  const MAX_BYTES: nat := 0x4000_0000
  const MAX_PARKED: nat := 10000
  const MAX_PARKED_BYTES: nat := 160 * 0x10_0000
  const MAX_MESSAGE: nat := 16 * 1024
  const METADATA: nat := 1024
  const RETENTION: nat := 7 * 24 * 3600 * 1_000_000

  /** The admission limits that the repository options accept. */
  type Limits = l: LimitValues | 1 <= l.open <= MAX_OPEN && 1 <= l.groups < U64 && METADATA < l.bytes < U64
    witness LimitValues(MAX_OPEN, MAX_GROUPS, MAX_BYTES)
  datatype LimitValues = LimitValues(open: nat, groups: nat, bytes: nat)

  datatype ReqKey = ReqKey(epoch: string, event: string, consumer: string, revision: string)
  datatype Req = Req(version: nat, payload: nat, closedAt: Option<int>, retainUntil: Option<int>,
                     reserved: bool, released: bool)
  /** The charge for a message of this size. */
  function Cost(payload: nat): nat { payload + METADATA }

  datatype AppKey = AppKey(req: ReqKey, generation: string)
  datatype AppRow = AppRow(result: string, version: nat, completedAt: int)
  datatype CommandKey = CommandKey(epoch: string, id: string)
  datatype CommandRow = CommandRow(user: nat, kind: string, keyHash: Option<string>, digest: string, post: nat,
                                   event: Option<string>, status: string, retainedUntil: Option<int>)
  datatype FailureKey = FailureKey(epoch: string, event: string, consumer: string)
  datatype Budget = Budget(open: nat, groups: nat, bytes: nat, parkedMessages: nat, parkedBytes: nat)
  datatype ParkKey = ParkKey(digest: string, reason: string)
  /** A parked message is charged to the epoch it was parked in, whatever epoch it comes from. */
  datatype Parked = Parked(epoch: string, source: string, size: nat)

  datatype Store = Store(
    reqs: map<ReqKey, Req>,
    apps: map<AppKey, AppRow>,
    commands: map<CommandKey, CommandRow>,
    failures: set<FailureKey>,
    parking: map<ParkKey, Parked>,
    budget: map<string, Budget>)

  const EMPTY := Store(map[], map[], map[], {}, map[], map[])
  const ZERO := Budget(0, 0, 0, 0, 0)

  datatype Outcome = Done | Invalid | BudgetExceeded | RequirementAbsent | CommandExists | ParkingFull | StoreError

  // What callers pass in.

  datatype Requirement = Requirement(key: ReqKey, version: nat, payload: int)
  datatype Application = Application(key: AppKey, result: string, version: nat, completedAt: Option<int>)
  datatype Command = Command(key: CommandKey, user: nat, kind: string, keyHash: Option<string>, digest: string,
                             post: nat, event: string, status: string)
  datatype Reservation = Reservation(command: Command, digest: string, keyHash: Option<string>,
                                     requirement: Requirement, payload: int, now: int)
  datatype Message = Message(digest: string, size: nat, reason: string, epoch: string, source: string,
                             event: string, kind: string, schema: int, attempts: int)

  // Argument checks.

  predicate ValidKey(k: ReqKey) {
    ValidUuid(k.epoch) && ValidUuid(k.event) && ValidText(k.consumer, 32) && ValidText(k.revision, 64)
  }

  predicate ValidRequirement(q: Requirement) {
    ValidKey(q.key) && 0 <= q.payload <= MAX_MESSAGE
  }

  predicate ValidApplication(a: Application) {
    ValidKey(a.key.req) && ValidText(a.key.generation, 255) && a.result in {"applied", "no_effect_resource_absent"}
  }

  predicate ValidDigest(d: Option<string>) {
    d.Some? ==> |d.value| == 32
  }

  predicate ValidCommand(c: Command) {
    && ValidUuid(c.key.epoch) && ValidUuid(c.key.id) && c.user != 0 && c.kind != ""
    && |c.digest| == 32 && ValidDigest(c.keyHash)
    && (c.event != "" ==> ValidUuid(c.event))
    && c.status in {"", "succeeded", "failed", "unknown"}
  }

  predicate ValidReservation(r: Reservation) {
    && ValidCommand(r.command) && |r.digest| == 32 && ValidDigest(r.keyHash)
    && ValidRequirement(r.requirement)
    && r.requirement.key.epoch == r.command.key.epoch && r.requirement.key.event == r.command.event
    && 1 <= r.payload <= MAX_MESSAGE
  }

  predicate ValidMessage(m: Message) {
    && 0 < m.size <= MAX_MESSAGE
    && (m.epoch != "" ==> ValidUuid(m.epoch))
    && (m.source != "" ==> ValidUuid(m.source))
    && (m.event != "" ==> ValidUuid(m.event))
    && ValidText(if m.kind == "" then "broker" else m.kind, 32)
  }

  predicate LabelChar(c: char) { 'a' <= c <= 'z' || '0' <= c <= '9' || c == '_' || c == '-' }

  predicate Label(reason: string) {
    1 <= |reason| <= 64 && forall i :: 0 <= i < |reason| ==> LabelChar(reason[i])
  }

  /** Anything but a short lower-case label is recorded as "unknown"; what is recorded passes the text check. */
  function SafeReason(reason: string): (r: string)
    ensures Label(r) && ValidText(r, 64)
    ensures if Label(reason) then r == reason else r == "unknown"
  {
    if reason == "" || |reason| > 64 then "unknown"
    else if exists i :: 0 <= i < |reason| && !LabelChar(reason[i]) then "unknown"
    else reason
  }

  // The budget ledger.

  /** The check constraints on a budget row. */
  predicate RowAllowed(b: Budget) {
    && b.open <= MAX_OPEN && b.groups <= MAX_GROUPS && b.bytes <= MAX_BYTES
    && b.parkedMessages <= MAX_PARKED && b.parkedBytes <= MAX_PARKED_BYTES
  }

  function Ensured(budget: map<string, Budget>, epoch: string): map<string, Budget> {
    if epoch in budget then budget else budget[epoch := ZERO]
  }

  /** Unsigned 64-bit wrap-around. */
  function Wrap(n: nat): nat { n % U64 }

  function GroupsOf(): (string, Budget) -> nat { (e: string, b: Budget) => b.groups }
  function BytesOf(): (string, Budget) -> nat { (e: string, b: Budget) => b.bytes }

  /** Both charging paths end in this decision, taken on sums over the budget rows of all epochs. */
  ghost predicate Affordable(l: Limits, budget: map<string, Budget>, epoch: string, payload: nat)
    requires epoch in budget
  {
    var charge := Cost(payload);
    && budget[epoch].open < l.open
    && Wrap(Sum(budget, GroupsOf())) < l.groups
    && charge <= l.bytes
    && Wrap(Sum(budget, BytesOf())) <= l.bytes - charge
  }

  ghost function Charged(l: Limits, before: Store, after: Store, epoch: string, payload: nat): (Store, Outcome)
    requires epoch in after.budget
  {
    var b := after.budget[epoch];
    var b' := b.(open := b.open + 1, groups := b.groups + 1, bytes := b.bytes + Cost(payload));
    if !Affordable(l, after.budget, epoch, payload) then (before, BudgetExceeded)
    else if !RowAllowed(b') then (before, StoreError)
    else (after.(budget := after.budget[epoch := b']), Done)
  }

  ghost function Registered(l: Limits, s: Store, q: Requirement): (Store, Outcome) {
    if !ValidRequirement(q) then (s, Invalid)
    else if q.key in s.reqs then (s, Done)
    else
      var payload := if q.payload == 0 then 1 else q.payload;
      var after := s.(reqs := s.reqs[q.key := Req(q.version, payload, None, None, true, false)],
                      budget := Ensured(s.budget, q.key.epoch));
      Charged(l, s, after, q.key.epoch, payload)
  }

  predicate KeyHashTaken(s: Store, r: Reservation) {
    && r.keyHash.Some?
    && (exists k :: k in s.commands && k.epoch == r.command.key.epoch && s.commands[k].user == r.command.user
                    && s.commands[k].kind == r.command.kind && s.commands[k].keyHash == r.keyHash)
  }

  /** The whole post-create transaction: reserve the receipt and the requirement, then account for them. */
  ghost function Created(l: Limits, s: Store, r: Reservation): (Store, Outcome) {
    var c := r.command;
    if !ValidReservation(r) then (s, Invalid)
    else if c.key in s.commands then (s, StoreError)
    else if KeyHashTaken(s, r) then (s, if c.keyHash.Some? then CommandExists else StoreError)
    else if r.requirement.key in s.reqs then (s, StoreError)
    else
      var after := s.(
        commands := s.commands[c.key := CommandRow(c.user, c.kind, r.keyHash, r.digest, c.post, Some(c.event),
                                                   "succeeded", Some(r.now + RETENTION))],
        reqs := s.reqs[r.requirement.key := Req(r.requirement.version, r.payload, None, None, true, false)],
        budget := Ensured(s.budget, c.key.epoch));
      Charged(l, s, after, c.key.epoch, r.payload)
  }

  function Closed(b: Budget, r: Req): Budget {
    var open := if b.open > 0 then b.open - 1 else 0;
    if r.reserved then b.(open := open)
    else b.(open := open, groups := b.groups + 1, bytes := b.bytes + Cost(r.payload))
  }

  /** Application evidence: recorded once per generation, and the first one closes the requirement. */
  function Applied(s: Store, a: Application, now: int): (Store, Outcome) {
    if !ValidApplication(a) then (s, Invalid)
    else if a.key.req !in s.reqs then (s, RequirementAbsent)
    else
      var at := if a.completedAt.Some? then a.completedAt.value else now;
      var k := a.key.req;
      var r := s.reqs[k];
      var apps := if a.key in s.apps then s.apps else s.apps[a.key := AppRow(a.result, a.version, at)];
      if a.key in s.apps || r.closedAt.Some? then (s.(apps := apps), Done)
      else
        var reqs := s.reqs[k := r.(closedAt := Some(at), retainUntil := Some(at + RETENTION), reserved := true)];
        if k.epoch !in s.budget then (s.(apps := apps, reqs := reqs), Done)
        else if !RowAllowed(Closed(s.budget[k.epoch], r)) then (s, StoreError)
        else (s.(apps := apps, reqs := reqs, budget := s.budget[k.epoch := Closed(s.budget[k.epoch], r)]), Done)
  }

  // Retention.

  predicate Due(k: ReqKey, r: Req, ids: seq<string>, now: int) {
    && k.event in ids && r.closedAt.Some? && r.retainUntil.Some? && r.retainUntil.value <= now && !r.released
  }

  function DueGroups(e: string, ids: seq<string>, now: int): (ReqKey, Req) -> nat {
    (k: ReqKey, r: Req) => if k.epoch == e && Due(k, r, ids, now) then 1 else 0
  }

  function DueBytes(e: string, ids: seq<string>, now: int): (ReqKey, Req) -> nat {
    (k: ReqKey, r: Req) => if k.epoch == e && Due(k, r, ids, now) then Cost(r.payload) else 0
  }

  /** SQL's GREATEST(x, v) - v. */
  function Less(x: nat, v: nat): nat { (if x < v then v else x) - v }

  ghost function Discharged(s: Store, e: string, ids: seq<string>, now: int): Budget
    requires e in s.budget
  {
    var b := s.budget[e];
    b.(groups := Less(b.groups, Sum(s.reqs, DueGroups(e, ids, now))),
       bytes := Less(b.bytes, Sum(s.reqs, DueBytes(e, ids, now))))
  }

  function Marked(reqs: map<ReqKey, Req>, ids: seq<string>, now: int): map<ReqKey, Req> {
    map k | k in reqs :: if Due(k, reqs[k], ids, now) then reqs[k].(released := true) else reqs[k]
  }

  ghost function Released(s: Store, ids: seq<string>, now: int): (Store, Outcome) {
    if exists id :: id in ids && !ValidUuid(id) then (s, Invalid)
    else (s.(reqs := Marked(s.reqs, ids, now),
             budget := map e | e in s.budget :: Discharged(s, e, ids, now)), Done)
  }

  // Expired evidence.

  predicate Expired(r: Req, now: int) {
    r.closedAt.Some? && r.retainUntil.Some? && r.retainUntil.value <= now && r.released
  }

  /** The rows that the cleanup query may return. */
  predicate Eligible(s: Store, outbox: set<string>, now: int, k: ReqKey) {
    && k in s.reqs && Expired(s.reqs[k], now)
    && k.event !in outbox
    && (forall c :: c in s.commands && s.commands[c].event == Some(k.event) ==>
          s.commands[c].retainedUntil.Some? && s.commands[c].retainedUntil.value <= now)
    && (forall p :: p in s.reqs && p.event == k.event ==> Expired(s.reqs[p], now))
  }

  predicate Distinct<T(==)>(xs: seq<T>) {
    forall i, j :: 0 <= i < j < |xs| ==> xs[i] != xs[j]
  }

  /** At most `batch` eligible rows, whichever rows a concurrent lock made the query skip. */
  predicate Picked(s: Store, batch: int, picked: seq<ReqKey>, outbox: set<string>, now: int) {
    |picked| <= batch && Distinct(picked) && forall k :: k in picked ==> Eligible(s, outbox, now, k)
  }

  /** Byte order of texts. */
  predicate Before(a: string, b: string) {
    b != "" && (a == "" || a[0] < b[0] || (a[0] == b[0] && Before(a[1..], b[1..])))
  }

  /** The order in which the clean-up query prefers rows. */
  predicate Sooner(s: Store, a: ReqKey, b: ReqKey)
    requires a in s.reqs && s.reqs[a].retainUntil.Some? && b in s.reqs && s.reqs[b].retainUntil.Some?
  {
    var x, y := s.reqs[a].retainUntil.value, s.reqs[b].retainUntil.value;
    x < y || (x == y && Before(a.event, b.event))
  }

  /** A row that is not locked elsewhere is left out only for rows that are no later, and only by a full batch. */
  predicate Filled(s: Store, batch: int, picked: seq<ReqKey>, outbox: set<string>, now: int, locked: set<ReqKey>)
    requires Picked(s, batch, picked, outbox, now)
  {
    forall k :: k in s.reqs && Eligible(s, outbox, now, k) && k !in locked && k !in picked ==>
      |picked| == batch && forall p :: p in picked ==> !Sooner(s, k, p)
  }

  function Events(picked: seq<ReqKey>): set<string> { set i | 0 <= i < |picked| :: picked[i].event }

  function WithoutEvents(s: Store, ids: set<string>): Store {
    s.(apps := map k | k in s.apps && k.req.event !in ids :: s.apps[k],
       failures := (set k | k in s.failures && k.event !in ids),
       reqs := map k | k in s.reqs && k.event !in ids :: s.reqs[k],
       commands := map c | c in s.commands && !(s.commands[c].event.Some? && s.commands[c].event.value in ids) ::
         s.commands[c])
  }

  /** A receipt without an event whose retention has passed. */
  predicate Orphan(s: Store, now: int, c: CommandKey) {
    && c in s.commands && s.commands[c].event.None?
    && s.commands[c].retainedUntil.Some? && s.commands[c].retainedUntil.value <= now
  }

  predicate Orphans(s: Store, batch: int, orphans: set<CommandKey>, now: int) {
    |orphans| <= batch && forall c :: c in orphans ==> Orphan(s, now, c)
  }

  /** One receipt is kept no longer than the other. */
  predicate NoLater(s: Store, a: CommandKey, b: CommandKey)
    requires a in s.commands && s.commands[a].retainedUntil.Some?
    requires b in s.commands && s.commands[b].retainedUntil.Some?
  {
    s.commands[a].retainedUntil.value <= s.commands[b].retainedUntil.value
  }

  /** Such a receipt is left out only for others that are no later, and only by a full batch. */
  predicate OrphansFilled(s: Store, batch: int, orphans: set<CommandKey>, now: int)
    requires Orphans(s, batch, orphans, now)
  {
    forall c :: c in s.commands && Orphan(s, now, c) && c !in orphans ==>
      |orphans| == batch && forall o :: o in orphans ==> NoLater(s, o, c)
  }

  function Cleaned(s: Store, batch: int, picked: seq<ReqKey>, orphans: set<CommandKey>): (Store, Outcome) {
    if batch < 1 || batch > 500 then (s, Invalid)
    else
      var kept := WithoutEvents(s, Events(picked));
      (kept.(commands := kept.commands - orphans), Done)
  }

  // Parking.

  /** The epoch a message comes from: as it says, or else the epoch it carries if that is another one. */
  function SourceEpoch(current: string, m: Message): string {
    if m.source == "" && m.epoch != current then m.epoch else m.source
  }

  /** The check constraints on a parked row. The insert ignores a row that breaks them, and reports no error. */
  predicate Storable(m: Message) { m.schema <= 2 && m.attempts <= 1000 }

  function Parking(s: Store, current: string, m: Message): (Store, Outcome) {
    if !ValidMessage(m) then (s, Invalid)
    else
      var key := ParkKey(m.digest, SafeReason(m.reason));
      var budget := Ensured(s.budget, current);
      var b := budget[current];
      if b.parkedMessages >= MAX_PARKED || b.parkedBytes > MAX_PARKED_BYTES - m.size then (s, ParkingFull)
      else if key in s.parking || !Storable(m) then (s.(budget := budget), Done)
      else
        var b' := b.(parkedMessages := b.parkedMessages + 1, parkedBytes := b.parkedBytes + m.size);
        if !RowAllowed(b') then (s, StoreError)
        else (s.(parking := s.parking[key := Parked(current, SourceEpoch(current, m), m.size)],
                 budget := budget[current := b']), Done)
  }

  // Runs.

  datatype Step =
    | Register(q: Requirement)
    | Create(r: Reservation)
    | Apply(a: Application, now: int)
    | Release(ids: seq<string>, now: int)
    | Cleanup(batch: int, picked: seq<ReqKey>, orphans: set<CommandKey>, outbox: set<string>, now: int)
    | Park(current: string, m: Message)
    | OpenEpoch(epoch: string)
    | RecordFailure(key: FailureKey)

  ghost function Exec(l: Limits, s: Store, step: Step): Store {
    match step
    case Register(q) => Registered(l, s, q).0
    case Create(r) => Created(l, s, r).0
    case Apply(a, now) => Applied(s, a, now).0
    case Release(ids, now) => Released(s, ids, now).0
    case Cleanup(batch, picked, orphans, outbox, now) =>
      if Picked(s, batch, picked, outbox, now) && Orphans(WithoutEvents(s, Events(picked)), batch, orphans, now)
      then Cleaned(s, batch, picked, orphans).0
      else s
    case Park(current, m) => Parking(s, current, m).0
    case OpenEpoch(epoch) => if ValidUuid(epoch) then s.(budget := Ensured(s.budget, epoch)) else s
    case RecordFailure(key) => s.(failures := s.failures + {key})
  }

  ghost function Run(l: Limits, s: Store, steps: seq<Step>): Store
    decreases |steps|
  {
    if steps == [] then s else Run(l, Exec(l, s, steps[0]), steps[1..])
  }
}
