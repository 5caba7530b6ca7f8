/**
 The readiness probe: many callers share one dependency check at a time and a cached answer. Times are integers;
 a check that runs is known by the number of its launch.
 */
module ReadinessProbe {
  import opened Options

  /** What the lock protects. The answer of the last check is believed until it expires. */
  datatype State = State(started: bool, stopping: bool, ready: bool, expires: Option<int>, flight: Option<nat>)

  const FRESH := State(false, false, false, None, None)

  /** A call is answered at once, or it waits for the check in flight, which it may have launched. */
  datatype Reply = Answered(ready: bool) | Waits(flight: nat, launched: bool)

  function Called(s: State, now: int, cancelled: bool, next: nat): (State, Reply) {
    if !s.started || s.stopping || cancelled then (s, Answered(false))
    else if s.expires.Some? && now < s.expires.value then (s, Answered(s.ready))
    else if s.flight.None? then (s.(flight := Some(next)), Waits(next, true))
    else (s, Waits(s.flight.value, false))
  }

  /** `expired` says that the check's own deadline has passed; cancelling the root expires it as well. */
  function Completed(s: State, ttl: nat, now: int, failed: bool, expired: bool, cancelled: bool): State {
    s.(ready := !failed && !expired && !cancelled, expires := Some(now + ttl), flight := None)
  }

  function Woken(s: State, cancelled: bool): bool { s.ready && !s.stopping && !cancelled }

  // What has happened to a probe.

  datatype Event =
    | Started
    | Stopped
    | Cancelled
    | Launched(flight: nat)
    | Finished(flight: nat, at: int, ok: bool)
    | Decided(caller: nat, called: int, at: int, ready: bool, cached: bool)

  /** The last check that has finished. */
  function Latest(log: seq<Event>): (e: Option<Event>)
    ensures e.Some? ==> e.value.Finished?
  {
    if log == [] then None
    else if log[|log| - 1].Finished? then Some(log[|log| - 1])
    else Latest(log[..|log| - 1])
  }

  /** The check that has been launched and has not finished. */
  function InAir(log: seq<Event>): Option<nat> {
    if log == [] then None
    else if log[|log| - 1].Launched? then Some(log[|log| - 1].flight)
    else if log[|log| - 1].Finished? then None
    else InAir(log[..|log| - 1])
  }

  lemma OneMore(log: seq<Event>, e: Event)
    ensures Latest(log + [e]) == if e.Finished? then Some(e) else Latest(log)
    ensures InAir(log + [e]) == if e.Launched? then Some(e.flight) else if e.Finished? then None else InAir(log)
  {
    assert (log + [e])[..|log|] == log;
  }

  /** Whether the last check succeeded. */
  predicate Succeeded(log: seq<Event>) { Latest(log).Some? && Latest(log).value.ok }

  /** Whether the answer of the last check is still believed. */
  predicate Believed(log: seq<Event>, ttl: nat, now: int) { Latest(log).Some? && now < Latest(log).value.at + ttl }

  predicate Serving(log: seq<Event>, cancelled: bool) {
    Event.Started in log && Stopped !in log && !cancelled
  }

  class Probes {
    const ttl: nat
    var started: bool
    var stopping: bool
    var ready: bool
    var expires: Option<int>
    var flight: Option<nat>
    ghost var past: seq<Event>

    ghost function Snapshot(): State
      reads this
    {
      State(started, stopping, ready, expires, flight)
    }

    /** The fields say what has happened. */
    ghost predicate Valid()
      reads this
    {
      && started == (Event.Started in past) && stopping == (Stopped in past)
      && ready == Succeeded(past) && flight == InAir(past)
      && expires == (if Latest(past).Some? then Some(Latest(past).value.at + ttl) else None)
    }

    constructor (ttl: nat)
      ensures Valid() && this.ttl == ttl && Snapshot() == FRESH && past == []
    {
      this.ttl := ttl;
      started, stopping, ready, expires, flight, past := false, false, false, None, None, [];
    }

    method Started()
      requires Valid()
      modifies this`started, this`past
      ensures Valid() && past == old(past) + [Event.Started]
      ensures Snapshot() == old(Snapshot()).(started := true)
    {
      OneMore(past, Event.Started);
      started, past := true, past + [Event.Started];
    }

    method Stop()
      requires Valid()
      modifies this`stopping, this`past
      ensures Valid() && past == old(past) + [Stopped]
      ensures Snapshot() == old(Snapshot()).(stopping := true)
    {
      OneMore(past, Stopped);
      stopping, past := true, past + [Stopped];
    }

    /**
     A caller waits if and only if the probe serves and the last answer is no longer believed, and its check is
     launched only if none is in the air; it is told "ready" at once if and only if the last answer is one and is
     still believed.
     */
    method Call(now: int, cancelled: bool, next: nat) returns (reply: Reply)
      requires Valid()
      modifies this`flight, this`past
      ensures Valid() && (Snapshot(), reply) == Called(old(Snapshot()), now, cancelled, next)
      ensures reply.Waits? <==> Serving(old(past), cancelled) && !Believed(old(past), ttl, now)
      ensures reply == Answered(true)
              <==> Serving(old(past), cancelled) && Believed(old(past), ttl, now) && Succeeded(old(past))
      ensures reply.Waits? ==>
                InAir(past) == Some(reply.flight) && (reply.launched <==> InAir(old(past)).None?)
      ensures past == old(past) + if reply.Waits? && reply.launched then [Launched(next)] else []
    {
      assert past + [] == past;
      if !started || stopping || cancelled { return Answered(false); }
      if expires.Some? && now < expires.value { return Answered(ready); }
      var launched := flight.None?;
      if launched {
        OneMore(past, Launched(next));
        flight, past := Some(next), past + [Launched(next)];
      }
      return Waits(flight.value, launched);
    }

    /** From now on the finished check is the last one, and the slot is free. */
    method Complete(now: int, failed: bool, expired: bool, cancelled: bool)
      requires Valid() && flight.Some?
      modifies this
      ensures Valid() && Snapshot() == Completed(old(Snapshot()), ttl, now, failed, expired, cancelled)
      ensures past == old(past) + [Finished(old(flight).value, now, !failed && !expired && !cancelled)]
      ensures InAir(past).None? && (Succeeded(past) <==> !failed && !expired && !cancelled)
      ensures forall t :: Believed(past, ttl, t) <==> t < now + ttl
    {
      var ok := !failed && !expired && !cancelled;
      OneMore(past, Finished(flight.value, now, ok));
      past := past + [Finished(flight.value, now, ok)];
      ready := ok;
      expires := Some(now + ttl);
      flight := None;
    }

    /** A caller that waited is told "ready" if and only if the last check succeeded and the service goes on. */
    method Wake(cancelled: bool) returns (ok: bool)
      requires Valid()
      ensures ok == Woken(Snapshot(), cancelled)
      ensures ok <==> Succeeded(past) && Stopped !in past && !cancelled
    {
      ok := ready && !stopping && !cancelled;
    }
  }

  // Any number of callers, one process.

  datatype Wait = Wait(flight: nat, called: int)

  datatype World = World(probe: State, now: int, cancelled: bool, running: set<nat>, closed: set<nat>,
                         waiting: map<nat, Wait>, next: nat, log: seq<Event>)

  const START := World(FRESH, 0, false, {}, {}, map[], 0, [])

  datatype Step =
    | Tick(elapsed: nat)
    | Start
    | Stop
    | Cancel
    | Call(caller: nat)
    | Complete(flight: nat, failed: bool, expired: bool)
    | Wake(caller: nat)
    | GiveUp(caller: nat)

  function Exec(ttl: nat, w: World, step: Step): World {
    match step
    case Tick(elapsed) => w.(now := w.now + elapsed)
    case Start => w.(probe := w.probe.(started := true), log := w.log + [Started])
    case Stop => w.(probe := w.probe.(stopping := true), log := w.log + [Stopped])
    case Cancel => w.(cancelled := true, log := w.log + [Cancelled])
    case Call(caller) =>
      if caller in w.waiting then w
      else
        var (probe, reply) := Called(w.probe, w.now, w.cancelled, w.next);
        if reply.Answered? then w.(probe := probe, log := w.log + [Decided(caller, w.now, w.now, reply.ready, true)])
        else
          var w' := w.(probe := probe, waiting := w.waiting[caller := Wait(reply.flight, w.now)]);
          if !reply.launched then w'
          else w'.(running := w.running + {w.next}, next := w.next + 1, log := w.log + [Launched(w.next)])
    case Complete(flight, failed, expired) =>
      if flight !in w.running then w
      else
        var probe := Completed(w.probe, ttl, w.now, failed, expired, w.cancelled);
        w.(probe := probe, running := w.running - {flight}, closed := w.closed + {flight},
           log := w.log + [Finished(flight, w.now, probe.ready)])
    case Wake(caller) =>
      // The channel of the flight is closed; the caller may be slow to notice.
      if caller !in w.waiting || w.waiting[caller].flight !in w.closed then w
      else
        w.(waiting := w.waiting - {caller},
           log := w.log + [Decided(caller, w.waiting[caller].called, w.now, Woken(w.probe, w.cancelled), false)])
    case GiveUp(caller) =>
      if caller !in w.waiting then w
      else
        w.(waiting := w.waiting - {caller},
           log := w.log + [Decided(caller, w.waiting[caller].called, w.now, false, false)])
  }

  function Run(ttl: nat, w: World, steps: seq<Step>): World
    decreases |steps|
  {
    if steps == [] then w else Run(ttl, Exec(ttl, w, steps[0]), steps[1..])
  }

  // What a "ready" stands on.

  /**
   A "ready" needs a start and no stop or cancellation before it. The last check to finish succeeded: within the
   time to live for a cached answer, and no earlier than the call for one that was waited for.
   */
  predicate Justified(ttl: nat, log: seq<Event>, e: Event)
    requires e.Decided?
  {
    && Event.Started in log && Stopped !in log && Cancelled !in log
    && Latest(log).Some? && Latest(log).value.ok
    && (if e.cached then e.at < Latest(log).value.at + ttl else Latest(log).value.at >= e.called)
  }

  predicate JustifiedAt(ttl: nat, log: seq<Event>, i: nat)
    requires i < |log|
  {
    log[i].Decided? && log[i].ready ==> Justified(ttl, log[..i], log[i])
  }

  function Count(log: seq<Event>, launches: bool): nat {
    if log == [] then 0
    else
      var e := log[|log| - 1];
      Count(log[..|log| - 1], launches) + (if (if launches then e.Launched? else e.Finished?) then 1 else 0)
  }

  predicate CacheOk(ttl: nat, w: World) {
    match Latest(w.log)
    case None => !w.probe.ready && w.probe.expires.None?
    case Some(e) => w.probe.ready == e.ok && w.probe.expires == Some(e.at + ttl) && e.at <= w.now
  }

  predicate FlightOk(w: World) {
    && w.running == (if w.probe.flight.Some? then {w.probe.flight.value} else {})
    && (forall f :: f in w.running + w.closed ==> f < w.next)
    && w.running !! w.closed
    && Count(w.log, true) == Count(w.log, false) + |w.running|
  }

  /** A waiter's flight is still running, or the last check finished after the waiter called. */
  predicate WaitOk(w: World, wait: Wait) {
    && wait.called <= w.now && w.probe.started
    && (wait.flight in w.running || wait.flight in w.closed)
    && (wait.flight in w.closed ==> Latest(w.log).Some? && Latest(w.log).value.at >= wait.called)
  }

  predicate FlagsOk(w: World) {
    && w.probe.started == (Event.Started in w.log)
    && w.probe.stopping == (Stopped in w.log)
    && w.cancelled == (Cancelled in w.log)
  }

  ghost predicate Sound(ttl: nat, w: World) {
    && FlagsOk(w) && CacheOk(ttl, w) && FlightOk(w)
    && (forall c :: c in w.waiting ==> WaitOk(w, w.waiting[c]))
    && (forall i :: 0 <= i < |w.log| ==> JustifiedAt(ttl, w.log, i))
  }

  lemma Grows(ttl: nat, log: seq<Event>, e: Event)
    requires forall i :: 0 <= i < |log| ==> JustifiedAt(ttl, log, i)
    requires e.Decided? && e.ready ==> Justified(ttl, log, e)
    ensures forall i :: 0 <= i < |log + [e]| ==> JustifiedAt(ttl, log + [e], i)
    ensures Latest(log + [e]) == if e.Finished? then Some(e) else Latest(log)
    ensures Count(log + [e], true) == Count(log, true) + (if e.Launched? then 1 else 0)
    ensures Count(log + [e], false) == Count(log, false) + (if e.Finished? then 1 else 0)
  {
    var more := log + [e];
    assert more[..|log|] == log;
    forall i | 0 <= i < |more| ensures JustifiedAt(ttl, more, i) {
      if i < |log| {
        assert JustifiedAt(ttl, log, i) && more[..i] == log[..i];
      }
    }
  }

  lemma AnswerAtOnce(ttl: nat, w: World, caller: nat)
    requires Sound(ttl, w) && caller !in w.waiting && Called(w.probe, w.now, w.cancelled, w.next).1.Answered?
    ensures Sound(ttl, Exec(ttl, w, Call(caller)))
  {
    hide Latest, Count, JustifiedAt, FlightOk;
    var reply := Called(w.probe, w.now, w.cancelled, w.next).1;
    var e := Decided(caller, w.now, w.now, reply.ready, true);
    Grows(ttl, w.log, e);
    FlightKept(w, Exec(ttl, w, Call(caller)), e);
  }

  /** What does not concern flights leaves them alone. */
  lemma FlightKept(w: World, w': World, e: Event)
    requires FlightOk(w) && w'.log == w.log + [e] && !e.Launched? && !e.Finished?
    requires w'.running == w.running && w'.closed == w.closed && w'.next == w.next && w'.probe.flight == w.probe.flight
    ensures FlightOk(w')
  {
    assert w'.log[..|w.log|] == w.log;
  }

  lemma LaunchFlight(w: World, w': World)
    requires FlightOk(w) && w.probe.flight.None? && w'.log == w.log + [Launched(w.next)]
    requires w'.running == w.running + {w.next} && w'.closed == w.closed && w'.next == w.next + 1
    requires w'.probe.flight == Some(w.next)
    ensures FlightOk(w')
  {
    assert w.running == {} && w'.running == {w.next};
    assert w'.log[..|w.log|] == w.log;
  }

  lemma InFlight(w: World)
    requires FlightOk(w)
    ensures w.probe.flight.Some? ==> w.probe.flight.value in w.running && w.probe.flight.value !in w.closed
    ensures w.next !in w.running && w.next !in w.closed
    ensures w.running !! w.closed
  {}

  lemma JoinFlight(w: World, w': World)
    requires FlightOk(w) && w' == w.(waiting := w'.waiting)
    ensures FlightOk(w')
  {}

  lemma FinishFlight(w: World, w': World, flight: nat, ok: bool)
    requires FlightOk(w) && flight in w.running && w'.log == w.log + [Finished(flight, w.now, ok)]
    requires w'.running == w.running - {flight} && w'.closed == w.closed + {flight} && w'.next == w.next
    requires w'.probe.flight == None
    ensures FlightOk(w')
  {
    assert w.running == {flight} && w'.running == {};
    assert w'.log[..|w.log|] == w.log;
  }

  lemma WaitSound(ttl: nat, w: World, caller: nat)
    requires Sound(ttl, w) && caller !in w.waiting && Called(w.probe, w.now, w.cancelled, w.next).1.Waits?
    ensures Sound(ttl, Exec(ttl, w, Call(caller)))
  {
    InFlight(w);
    hide Latest, Count, JustifiedAt, FlightOk;
    var w' := Exec(ttl, w, Call(caller));
    if Called(w.probe, w.now, w.cancelled, w.next).1.launched {
      Grows(ttl, w.log, Launched(w.next));
      LaunchFlight(w, w');
    } else {
      JoinFlight(w, w');
    }
    forall c | c in w'.waiting ensures WaitOk(w', w'.waiting[c]) {
      if c != caller {
        assert WaitOk(w, w.waiting[c]);
      }
    }
  }

  lemma CallSound(ttl: nat, w: World, caller: nat)
    requires Sound(ttl, w)
    ensures Sound(ttl, Exec(ttl, w, Call(caller)))
  {
    hide Sound;
    if caller !in w.waiting {
      if Called(w.probe, w.now, w.cancelled, w.next).1.Answered? {
        AnswerAtOnce(ttl, w, caller);
      } else {
        WaitSound(ttl, w, caller);
      }
    }
  }

  lemma CompleteSound(ttl: nat, w: World, flight: nat, failed: bool, expired: bool)
    requires Sound(ttl, w)
    ensures Sound(ttl, Exec(ttl, w, Complete(flight, failed, expired)))
  {
    InFlight(w);
    hide Latest, Count, JustifiedAt, FlightOk;
    var w' := Exec(ttl, w, Complete(flight, failed, expired));
    if flight in w.running {
      var ok := !failed && !expired && !w.cancelled;
      Grows(ttl, w.log, Finished(flight, w.now, ok));
      FinishFlight(w, w', flight, ok);
      forall c | c in w'.waiting ensures WaitOk(w', w'.waiting[c]) {
        assert WaitOk(w, w.waiting[c]);
      }
    }
  }

  lemma AnswerSound(ttl: nat, w: World, step: Step)
    requires Sound(ttl, w) && (step.Wake? || step.GiveUp?)
    ensures Sound(ttl, Exec(ttl, w, step))
  {
    hide Latest, Count, JustifiedAt, FlightOk;
    if step.caller in w.waiting && (step.Wake? ==> w.waiting[step.caller].flight in w.closed) {
      assert WaitOk(w, w.waiting[step.caller]);
      var ready := step.Wake? && Woken(w.probe, w.cancelled);
      var e := Decided(step.caller, w.waiting[step.caller].called, w.now, ready, false);
      Grows(ttl, w.log, e);
      FlightKept(w, Exec(ttl, w, step), e);
    }
  }

  lemma TickFlight(w: World, elapsed: nat)
    requires FlightOk(w)
    ensures FlightOk(w.(now := w.now + elapsed))
  {}

  lemma FlagSound(ttl: nat, w: World, step: Step)
    requires Sound(ttl, w) && (step.Start? || step.Stop? || step.Cancel? || step.Tick?)
    ensures Sound(ttl, Exec(ttl, w, step))
  {
    hide Latest, Count, JustifiedAt, FlightOk;
    if !step.Tick? {
      var e := if step.Start? then Started else if step.Stop? then Stopped else Cancelled;
      Grows(ttl, w.log, e);
      FlightKept(w, Exec(ttl, w, step), e);
    } else {
      TickFlight(w, step.elapsed);
    }
  }

  lemma StepSound(ttl: nat, w: World, step: Step)
    requires Sound(ttl, w)
    ensures Sound(ttl, Exec(ttl, w, step))
  {
    hide Sound, Exec;
    match step
    case Call(caller) => CallSound(ttl, w, caller);
    case Complete(flight, failed, expired) => CompleteSound(ttl, w, flight, failed, expired);
    case Wake(_) => AnswerSound(ttl, w, step);
    case GiveUp(_) => AnswerSound(ttl, w, step);
    case _ => FlagSound(ttl, w, step);
  }

  lemma {:induction false} RunSound(ttl: nat, w: World, steps: seq<Step>)
    requires Sound(ttl, w)
    ensures Sound(ttl, Run(ttl, w, steps))
    decreases |steps|
  {
    hide Sound, Exec;
    if steps != [] {
      StepSound(ttl, w, steps[0]);
      RunSound(ttl, Exec(ttl, w, steps[0]), steps[1..]);
    }
  }

  // Over every run.

  /** At most one check is in flight, and a check that never returns keeps every later one from starting. */
  lemma SingleFlight(ttl: nat, steps: seq<Step>)
    ensures var w := Run(ttl, START, steps);
            && |w.running| <= 1
            && Count(w.log, false) <= Count(w.log, true) <= Count(w.log, false) + 1
            && (w.probe.flight.Some? <==> Count(w.log, true) == Count(w.log, false) + 1)
  {
    RunSound(ttl, START, steps);
  }

  /** Every "ready" that was ever answered was justified when it was given. */
  lemma ReadyIsJustified(ttl: nat, steps: seq<Step>, i: nat)
    requires i < |Run(ttl, START, steps).log|
    ensures JustifiedAt(ttl, Run(ttl, START, steps).log, i)
  {
    hide Run, JustifiedAt;
    RunSound(ttl, START, steps);
  }

  /** A caller that waits is answered by a check that was in flight when it called, or by a later one. */
  lemma WaitersAreServed(ttl: nat, steps: seq<Step>, caller: nat)
    requires caller in Run(ttl, START, steps).waiting
    ensures var w := Run(ttl, START, steps);
            w.waiting[caller].flight in w.running
            || (&& Exec(ttl, w, Wake(caller)) != w
                && Latest(w.log).Some? && Latest(w.log).value.at >= w.waiting[caller].called)
  {
    RunSound(ttl, START, steps);
    hide Run, JustifiedAt, Latest;
    var w := Run(ttl, START, steps);
    assert WaitOk(w, w.waiting[caller]);
    if w.waiting[caller].flight in w.closed {
      assert caller !in Exec(ttl, w, Wake(caller)).waiting;
    }
  }

  /** A caller is answered, waits, or is woken: in every world exactly one of these comes of what it does. */
  lemma CallerIsHeard(ttl: nat, w: World, caller: nat)
    ensures var w' := Exec(ttl, w, Call(caller));
            caller !in w.waiting ==>
              if Called(w.probe, w.now, w.cancelled, w.next).1.Waits?
              then w'.waiting.Keys == w.waiting.Keys + {caller} && w'.waiting[caller].called == w.now
                   && w'.probe.flight == Some(w'.waiting[caller].flight)
              else w'.waiting == w.waiting && |w'.log| == |w.log| + 1 && w'.log[|w.log|].Decided?
                   && w'.log[|w.log|].caller == caller && w'.log[|w.log|].called == w'.log[|w.log|].at == w.now
    ensures var w', ready := Exec(ttl, w, Wake(caller)), w.probe.ready && !w.probe.stopping && !w.cancelled;
            caller in w.waiting && w.waiting[caller].flight in w.closed ==>
              && w'.waiting == w.waiting - {caller}
              && w'.log == w.log + [Decided(caller, w.waiting[caller].called, w.now, ready, false)]
    ensures var w' := Exec(ttl, w, GiveUp(caller));
            caller in w.waiting ==>
              && w'.waiting == w.waiting - {caller}
              && w'.log == w.log + [Decided(caller, w.waiting[caller].called, w.now, false, false)]
  {}
}
