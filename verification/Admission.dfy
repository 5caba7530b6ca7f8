/** The search consumer's admission: the environment's gate, and then the requirement in the table. */
module Admission {
  import opened BusinessState
  import opened LedgerInvariant
  import opened LedgerLimits
  import opened MapSums
  import opened Options
  import Gate = EnvironmentGate

  const SEARCH := "search"
  const SEARCH_CONTRACT := "post-created-search/1"

  predicate PostEvent(e: Gate.Envelope) { e.kind in {"post.created", "post.updated", "post.deleted"} }

  /** The obligation of the search consumer for an event. */
  function Obligation(e: Gate.Envelope): ReqKey { ReqKey(e.epoch, e.event, SEARCH, SEARCH_CONTRACT) }

  predicate Obliged(e: Gate.Envelope, consumer: string) { e.version == 2 && consumer == SEARCH && PostEvent(e) }

  /** A search event without its requirement is parked; a key that cannot name one is an error. */
  function CheckForConsumer(row: Option<Gate.Environment>, s: Store, e: Gate.Envelope, consumer: string)
    : (d: Gate.Decision)
    ensures d == Gate.Accept
            <==> Gate.CheckEnvelope(row, e) == Gate.Accept
                 && (Obliged(e, consumer) ==> ValidKey(Obligation(e)) && Obligation(e) in s.reqs)
  {
    var d := Gate.CheckEnvelope(row, e);
    if d != Gate.Accept || e.version != 2 || consumer != SEARCH then d
    else if !PostEvent(e) then d
    else if !ValidKey(Obligation(e)) then Gate.Refuse(Gate.BadArgument)
    else if Obligation(e) !in s.reqs then Gate.Park
    else Gate.Accept
  }

  /**
   In every reachable state, a search event that is admitted has a requirement in the environment's own epoch, and
   the epoch's budget row counts it: among the open ones while it is open, and with its charge until it is released.
   */
  lemma AdmittedIsCounted(l: Limits, steps: seq<Step>, row: Option<Gate.Environment>, e: Gate.Envelope)
    requires Obliged(e, SEARCH)
    requires CheckForConsumer(row, Run(l, EMPTY, steps), e, SEARCH) == Gate.Accept
    ensures var s, k := Run(l, EMPTY, steps), Obligation(e);
            && row.Some? && row.value.epoch == k.epoch && row.value.status == Gate.Ready
            && k in s.reqs && k.epoch in s.budget
            && (s.reqs[k].closedAt.None? ==> s.budget[k.epoch].open >= 1)
            && (!s.reqs[k].released ==>
                  s.budget[k.epoch].groups >= 1 && s.budget[k.epoch].bytes >= Cost(s.reqs[k].payload))
  {
    EmptySound(l);
    RunSound(l, EMPTY, steps);
    hide Run, Sum;
    RowIsCounted(l, Run(l, EMPTY, steps), Obligation(e));
  }

  lemma RowIsCounted(l: Limits, s: Store, k: ReqKey)
    requires Sound(l, s) && k in s.reqs
    ensures k.epoch in s.budget
    ensures s.reqs[k].closedAt.None? ==> s.budget[k.epoch].open >= 1
    ensures !s.reqs[k].released ==>
              s.budget[k.epoch].groups >= 1 && s.budget[k.epoch].bytes >= Cost(s.reqs[k].payload)
  {
    hide Sum;
    SumAtLeast(s.reqs, OpenIn(k.epoch), k);
    SumAtLeast(s.reqs, HeldIn(k.epoch), k);
    SumAtLeast(s.reqs, BytesIn(k.epoch), k);
  }

  /** A post event whose requirement is not there yet is parked for the search consumer; other events need none. */
  lemma MissingIsParked(row: Option<Gate.Environment>, s: Store, e: Gate.Envelope)
    requires Gate.CheckEnvelope(row, e) == Gate.Accept && e.version == 2
    requires ValidKey(ReqKey(e.epoch, e.event, "search", "post-created-search/1"))
    ensures CheckForConsumer(row, s, e, "search") ==
            if (e.kind == "post.created" || e.kind == "post.updated" || e.kind == "post.deleted")
               && ReqKey(e.epoch, e.event, "search", "post-created-search/1") !in s.reqs
            then Gate.Park else Gate.Accept
  {}
}
