/** Reducing the samples of a window to one number, and what the increase of a counter has to do with the counter. */
module CounterReduce {
  import opened Options

  const STALE: nat := 90_000_000

  /** A sample; the time is missing if its text cannot be read. */
  datatype Point = Point(value: real, at: Option<int>)

  datatype Reducer = Last | Min | Max | Avg | Increase | Unsupported

  function Values(points: seq<Point>): (vs: seq<real>)
    ensures |vs| == |points| && forall i :: 0 <= i < |points| ==> vs[i] == points[i].value
  {
    seq(|points|, i requires 0 <= i < |points| => points[i].value)
  }

  // The increase.

  /** From one sample to the next: a fall means that the counter was reset, and has counted up to here since. */
  function Delta(a: real, b: real): real { if b < a then b else b - a }

  function IncreaseOf(vs: seq<real>): real {
    if |vs| < 2 then 0.0 else IncreaseOf(vs[..|vs| - 1]) + Delta(vs[|vs| - 2], vs[|vs| - 1])
  }

  /** A counter never falls to a negative value. */
  predicate Countable(vs: seq<real>) {
    forall i :: 1 <= i < |vs| ==> Delta(vs[i - 1], vs[i]) >= 0.0
  }

  lemma CountableMeans(vs: seq<real>)
    ensures Countable(vs) <==> forall i :: 1 <= i < |vs| && vs[i] < vs[i - 1] ==> vs[i] >= 0.0
  {}

  function Total(vs: seq<real>): real {
    if vs == [] then 0.0 else Total(vs[..|vs| - 1]) + vs[|vs| - 1]
  }

  /** Absent, stale or future data is unknown, and an increase needs two samples of a counter. */
  predicate Known(points: seq<Point>, reducer: Reducer, cutoff: int) {
    && points != []
    && points[|points| - 1].at.Some? && cutoff - STALE <= points[|points| - 1].at.value <= cutoff
    && reducer != Unsupported
    && (reducer == Increase ==> |points| >= 2 && Countable(Values(points)))
  }

  predicate Reduces(vs: seq<real>, reducer: Reducer, v: real)
    requires vs != []
  {
    match reducer
    case Last => v == vs[|vs| - 1]
    case Min => v in vs && forall i :: 0 <= i < |vs| ==> v <= vs[i]
    case Max => v in vs && forall i :: 0 <= i < |vs| ==> v >= vs[i]
    case Avg => v * |vs| as real == Total(vs)
    case Increase => v == IncreaseOf(vs)
    case Unsupported => false
  }

  method Reduce(points: seq<Point>, reducer: Reducer, cutoff: int) returns (v: real, known: bool)
    ensures known <==> Known(points, reducer, cutoff)
    ensures known ==> Reduces(Values(points), reducer, v)
  {
    if points == [] { return 0.0, false; }
    var last := points[|points| - 1];
    if last.at.None? || last.at.value < cutoff - STALE || last.at.value > cutoff { return 0.0, false; }
    match reducer
    case Last => return last.value, true;
    case Min => v := Extreme(points, true); return v, true;
    case Max => v := Extreme(points, false); return v, true;
    case Avg => v := Average(points); return v, true;
    case Increase =>
      if |points| < 2 { return 0.0, false; }
      v, known := AddUp(points);
    case Unsupported => return 0.0, false;
  }

  method Extreme(points: seq<Point>, least: bool) returns (v: real)
    requires points != []
    ensures Reduces(Values(points), if least then Min else Max, v)
  {
    v := points[0].value;
    ghost var vs := Values(points);
    for i := 0 to |points|
      invariant v in vs
      invariant forall j :: 0 <= j < i ==> if least then v <= vs[j] else v >= vs[j]
    {
      assert vs[i] in vs;
      if (least && points[i].value < v) || (!least && points[i].value > v) {
        v := points[i].value;
      }
    }
  }

  method Average(points: seq<Point>) returns (v: real)
    requires points != []
    ensures Reduces(Values(points), Avg, v)
  {
    v := points[0].value;
    ghost var vs := Values(points);
    for i := 0 to |points|
      invariant v == if i == 0 then vs[0] else Total(vs[..i])
    {
      assert vs[..i + 1][..i] == vs[..i];
      if i > 0 {
        v := v + points[i].value;
      }
    }
    assert vs[..|points|] == vs;
    v := v / |points| as real;
  }

  method AddUp(points: seq<Point>) returns (v: real, known: bool)
    requires |points| >= 2
    ensures known <==> Countable(Values(points))
    ensures known ==> v == IncreaseOf(Values(points))
  {
    v := 0.0;
    ghost var vs := Values(points);
    for i := 1 to |points|
      invariant v == IncreaseOf(vs[..i])
      invariant forall j :: 1 <= j < i ==> Delta(vs[j - 1], vs[j]) >= 0.0
    {
      var delta := points[i].value - points[i - 1].value;
      if delta < 0.0 {
        delta := points[i].value;
      }
      assert delta == Delta(vs[i - 1], vs[i]);
      if delta < 0.0 { return 0.0, false; }
      assert vs[..i + 1][..i] == vs[..i];
      v := v + delta;
    }
    assert vs[..|points|] == vs;
    known := true;
  }

  // The counter itself.

  /** What happens to a counter: it counts, or its process restarts and it begins again at zero. */
  datatype Change = Grow(amount: real) | Reset

  predicate Lawful(changes: seq<Change>) {
    forall i :: 0 <= i < |changes| && changes[i].Grow? ==> changes[i].amount >= 0.0
  }

  function ValueAt(start: real, changes: seq<Change>, n: nat): real
    requires n <= |changes|
  {
    if n == 0 then start
    else
      match changes[n - 1]
      case Grow(amount) => ValueAt(start, changes, n - 1) + amount
      case Reset => 0.0
  }

  /** How much the counter has counted between two moments, resets or not. */
  function Growth(changes: seq<Change>, i: nat, j: nat): real
    requires i <= j <= |changes|
  {
    if i == j then 0.0 else Growth(changes, i, j - 1) + (if changes[j - 1].Grow? then changes[j - 1].amount else 0.0)
  }

  predicate ResetIn(changes: seq<Change>, i: nat, j: nat)
    requires i <= j <= |changes|
  {
    exists k :: i <= k < j && changes[k].Reset?
  }

  /** The moments at which the counter was sampled. */
  predicate Moments(changes: seq<Change>, ms: seq<nat>) {
    && (forall i, j :: 0 <= i < j < |ms| ==> ms[i] <= ms[j])
    && (forall i :: 0 <= i < |ms| ==> ms[i] <= |changes|)
  }

  function Samples(start: real, changes: seq<Change>, ms: seq<nat>): (vs: seq<real>)
    requires Moments(changes, ms)
    ensures |vs| == |ms|
  {
    seq(|ms|, i requires 0 <= i < |ms| => ValueAt(start, changes, ms[i]))
  }

  lemma {:induction false} ValueBetween(start: real, changes: seq<Change>, i: nat, j: nat)
    requires Lawful(changes) && start >= 0.0 && i <= j <= |changes|
    ensures var a, b, g := ValueAt(start, changes, i), ValueAt(start, changes, j), Growth(changes, i, j);
            && a >= 0.0 && b >= 0.0 && g >= 0.0
            && b <= (if ResetIn(changes, i, j) then g else a + g)
            && (!ResetIn(changes, i, j) ==> b == a + g)
    decreases j
  {
    if i < j {
      ValueBetween(start, changes, i, j - 1);
      assert ResetIn(changes, i, j) <==> ResetIn(changes, i, j - 1) || changes[j - 1].Reset?;
    } else if i > 0 {
      ValueBetween(start, changes, i - 1, j - 1);
    }
  }

  lemma {:induction false} GrowthAdds(changes: seq<Change>, i: nat, j: nat, k: nat)
    requires i <= j <= k <= |changes|
    ensures Growth(changes, i, k) == Growth(changes, i, j) + Growth(changes, j, k)
  {
    if j < k {
      GrowthAdds(changes, i, j, k - 1);
    }
  }

  /**
   The increase never overcounts: it lies between zero and what the counter really counted from the first sample to
   the last, and is exactly that if the counter was not reset in between. A sampled counter is never unknown.
   */
  lemma {:induction false} IncreaseUndercounts(start: real, changes: seq<Change>, ms: seq<nat>)
    requires Lawful(changes) && start >= 0.0 && Moments(changes, ms) && ms != []
    ensures var vs := Samples(start, changes, ms);
            var first, last := ms[0], ms[|ms| - 1];
            && Countable(vs)
            && 0.0 <= IncreaseOf(vs) <= Growth(changes, first, last)
            && (!ResetIn(changes, first, last) ==> IncreaseOf(vs) == Growth(changes, first, last))
  {
    hide ValueAt, Growth, ResetIn;
    var n := |ms|;
    if n > 1 {
      var front := ms[..n - 1];
      IncreaseUndercounts(start, changes, front);
      SamplesFront(start, changes, ms);
      ValueBetween(start, changes, ms[n - 2], ms[n - 1]);
      GrowthAdds(changes, ms[0], ms[n - 2], ms[n - 1]);
      ResetSplits(changes, ms[0], ms[n - 2], ms[n - 1]);
      CountableGrows(Samples(start, changes, ms));
    } else {
      GrowthAdds(changes, ms[0], ms[0], ms[0]);
    }
  }

  lemma SamplesFront(start: real, changes: seq<Change>, ms: seq<nat>)
    requires Moments(changes, ms) && |ms| > 1
    ensures var n, vs := |ms|, Samples(start, changes, ms);
            && Samples(start, changes, ms[..n - 1]) == vs[..n - 1]
            && vs[n - 2] == ValueAt(start, changes, ms[n - 2]) && vs[n - 1] == ValueAt(start, changes, ms[n - 1])
  {}

  lemma CountableGrows(vs: seq<real>)
    requires |vs| > 1 && Countable(vs[..|vs| - 1]) && Delta(vs[|vs| - 2], vs[|vs| - 1]) >= 0.0
    ensures Countable(vs)
  {
    var front := vs[..|vs| - 1];
    forall i | 1 <= i < |vs| ensures Delta(vs[i - 1], vs[i]) >= 0.0 {
      assert i < |front| ==> Delta(front[i - 1], front[i]) >= 0.0;
    }
  }

  lemma ResetSplits(changes: seq<Change>, i: nat, j: nat, k: nat)
    requires i <= j <= k <= |changes|
    ensures ResetIn(changes, i, k) <==> ResetIn(changes, i, j) || ResetIn(changes, j, k)
  {}

  /** The moment just after the last reset in an interval that has one. */
  function LastReset(changes: seq<Change>, i: nat, j: nat): (k: nat)
    requires i <= j <= |changes| && ResetIn(changes, i, j)
    ensures i < k <= j && changes[k - 1].Reset? && !ResetIn(changes, k, j)
  {
    if changes[j - 1].Reset? then j else LastReset(changes, i, j - 1)
  }

  /**
   What one sampled interval misses: nothing without a reset; what was counted before the last reset if there was one;
   and if the reset does not show, the value before it as well, for it is taken for the part already counted.
   */
  function Missed(start: real, changes: seq<Change>, i: nat, j: nat): real
    requires i <= j <= |changes|
  {
    if !ResetIn(changes, i, j) then 0.0
    else
      Growth(changes, i, LastReset(changes, i, j))
      + (if ValueAt(start, changes, j) < ValueAt(start, changes, i) then 0.0 else ValueAt(start, changes, i))
  }

  function AllMissed(start: real, changes: seq<Change>, ms: seq<nat>): real
    requires Moments(changes, ms)
  {
    if |ms| < 2 then 0.0
    else AllMissed(start, changes, ms[..|ms| - 1]) + Missed(start, changes, ms[|ms| - 2], ms[|ms| - 1])
  }

  /** After its last reset the counter shows what it has counted since. */
  lemma {:induction false} SinceReset(start: real, changes: seq<Change>, i: nat, j: nat)
    requires i <= j <= |changes| && ResetIn(changes, i, j)
    ensures ValueAt(start, changes, j) == Growth(changes, LastReset(changes, i, j), j)
    decreases j
  {
    if !changes[j - 1].Reset? {
      SinceReset(start, changes, i, j - 1);
    }
  }

  lemma OneInterval(start: real, changes: seq<Change>, i: nat, j: nat)
    requires Lawful(changes) && start >= 0.0 && i <= j <= |changes|
    ensures Delta(ValueAt(start, changes, i), ValueAt(start, changes, j)) + Missed(start, changes, i, j)
            == Growth(changes, i, j)
  {
    ValueBetween(start, changes, i, j);
    if ResetIn(changes, i, j) {
      SinceReset(start, changes, i, j);
      GrowthAdds(changes, i, LastReset(changes, i, j), j);
    }
  }

  /**
   The increase is exactly what the counter counted from the first sample to the last, less what each interval with a
   reset misses. Everything that was counted after a reset that shows as a fall is in it.
   */
  lemma {:induction false} IncreaseExact(start: real, changes: seq<Change>, ms: seq<nat>)
    requires Lawful(changes) && start >= 0.0 && Moments(changes, ms) && ms != []
    ensures IncreaseOf(Samples(start, changes, ms)) + AllMissed(start, changes, ms)
            == Growth(changes, ms[0], ms[|ms| - 1])
  {
    hide ValueAt, Growth, ResetIn, Missed, Delta;
    var n := |ms|;
    if n > 1 {
      IncreaseExact(start, changes, ms[..n - 1]);
      SamplesFront(start, changes, ms);
      OneInterval(start, changes, ms[n - 2], ms[n - 1]);
      GrowthAdds(changes, ms[0], ms[n - 2], ms[n - 1]);
    } else {
      GrowthAdds(changes, ms[0], ms[0], ms[0]);
    }
  }

  /** Splitting a window at a sample that both halves share loses nothing. */
  lemma {:induction false} IncreaseAdditive(left: seq<real>, shared: real, right: seq<real>)
    ensures IncreaseOf(left + [shared] + right) == IncreaseOf(left + [shared]) + IncreaseOf([shared] + right)
  {
    if right == [] {
      assert left + [shared] + right == left + [shared];
    } else {
      var n := |right| - 1;
      IncreaseAdditive(left, shared, right[..n]);
      var whole, part := left + [shared] + right, [shared] + right;
      assert whole[..|whole| - 1] == left + [shared] + right[..n];
      assert part[..|part| - 1] == [shared] + right[..n];
      assert whole[|whole| - 2] == part[|part| - 2];
    }
  }
}
