/** Cron schedules, seen only through `Next`, and the catch-up walk over them. */
module Cron {
  import opened Common

  /** `cron.Schedule`: the instant after the argument at which the schedule fires. */
  type Schedule = Time -> Time

  /** `next` is the successor function of a set of instants, and zero where there is none. */
  ghost predicate Lawful(next: Schedule, fires: iset<Time>) {
    && (forall f :: f in fires ==> f > 0)
    && (forall t :: next(t) != ZERO_TIME ==> next(t) in fires && t < next(t))
    && (forall t, f :: f in fires && t < f ==> ZERO_TIME != next(t) <= f)
  }

  /** The law of a 5-field expression, which fires on whole seconds only. */
  ghost predicate CronLaw(next: Schedule, fires: iset<Time>) {
    Lawful(next, fires) && forall f :: f in fires ==> f % SECOND == 0
  }

  /** The result of `Next`, or zero when it is zero or does not advance. */
  function SafeNext(next: Schedule, from: Time): (t: Time)
    ensures t != ZERO_TIME ==> t > from
    ensures forall fires :: Lawful(next, fires) ==> t == next(from)
  {
    var t := next(from);
    if t == ZERO_TIME || t <= from then ZERO_TIME else t
  }

  /** One expression evaluated in two zones: `walk` in that of stored times, which is the controller's own,
      `wake` in the one the spec names. */
  datatype Timetable = Timetable(walk: Schedule, wake: Schedule)

  // ---- the starting deadline ----

  /** `now.Sub(t)`, which saturates at the largest `time.Duration`. */
  function Elapsed(now: Time, t: Time): int {
    Max(-MAX_INT64 - 1, Min(now - t, MAX_INT64))
  }

  /** The controller's deadline test; the product is a 64-bit one and wraps around. */
  predicate PastDeadline(now: Time, t: Time, deadline: Option<int>) {
    deadline.Some? && Elapsed(now, t) > Int64(deadline.value * SECOND)
  }

  /** The deadline as the API documents it. */
  predicate WithinDeadline(now: Time, t: Time, deadline: Option<int>) {
    deadline.Some? ==> now - t <= deadline.value * SECOND
  }

  /** The largest deadline, in seconds, that a `time.Duration` holds. */
  const MAX_DEADLINE := 9_223_372_036

  /** Deadlines for which the 64-bit product is exact. */
  predicate ExactDeadline(deadline: Option<int>) {
    deadline.Some? ==> 0 <= deadline.value <= MAX_DEADLINE
  }

  lemma DeadlineInRange(now: Time, f: Time, d: int)
    requires 0 <= d <= MAX_DEADLINE && f <= now
    ensures PastDeadline(now, f, Some(d)) <==> !WithinDeadline(now, f, Some(d))
  {
  }

  lemma DeadlineOutOfRange(f: Time, d: int)
    requires MAX_DEADLINE < d
    ensures PastDeadline(f + MAX_INT64, f, Some(d)) && WithinDeadline(f + MAX_INT64, f, Some(d))
  {
    var product := d * SECOND;
    EvenNeverMaxInt64(d * (SECOND / 2));
    assert product == 2 * (d * (SECOND / 2)) && product > MAX_INT64;
    assert Elapsed(f + MAX_INT64, f) == MAX_INT64;
  }

  lemma EvenNeverMaxInt64(half: int)
    ensures Int64(2 * half) < MAX_INT64
  {
    var n := 2 * half;
    var q, m := n / 0x1_0000_0000_0000_0000, n % 0x1_0000_0000_0000_0000;
    assert m == 2 * (half - q * 0x8000_0000_0000_0000);
  }

  /** An admitted deadline is honoured exactly when the product does not overflow: on every input if it
      does not, and otherwise there is for every fire a time at which it is not. */
  lemma DeadlineHonouredExactlyWithinRange(f: Time, d: int)
    requires 0 <= d <= MAX_INT64 && f > 0
    ensures (forall now | f <= now :: PastDeadline(now, f, Some(d)) <==> !WithinDeadline(now, f, Some(d)))
            <==> d <= MAX_DEADLINE
  {
    if d <= MAX_DEADLINE {
      forall now | f <= now ensures PastDeadline(now, f, Some(d)) <==> !WithinDeadline(now, f, Some(d)) {
        DeadlineInRange(now, f, d);
      }
    } else {
      DeadlineOutOfRange(f, d);
    }
  }

  /** A deadline of 9223372037 seconds wraps to a negative duration: a fire of this very moment is skipped. */
  lemma OverflowingDeadlineSkipsEveryFire(now: Time, f: Time)
    requires f <= now
    ensures PastDeadline(now, f, Some(MAX_DEADLINE + 1))
  {
  }

  // ---- nextRunToActOn ----

  /** The catch-up loop from loop variables `t` and `latest`, for any `next` whatsoever. */
  function Walk(next: Schedule, now: Time, deadline: Option<int>, t: Time, latest: Time): Time
    decreases now - t
  {
    if t == ZERO_TIME || t > now then latest
    else
      var seen := if PastDeadline(now, t, deadline) then ZERO_TIME else t;
      var n := next(t);
      if n == ZERO_TIME || n <= t then seen else Walk(next, now, deadline, n, seen)
  }

  function RunToActOn(next: Schedule, last: Time, now: Time, deadline: Option<int>): Time {
    Walk(next, now, deadline, next(last), ZERO_TIME)
  }

  /** The fire a pass owes: the newest one in `(last, now]`, unless its deadline has passed. */
  ghost predicate Owed(fires: iset<Time>, last: Time, now: Time, deadline: Option<int>, f: Time) {
    && f in fires && last < f <= now && WithinDeadline(now, f, deadline)
    && forall g | g in fires :: !(f < g <= now)
  }

  lemma {:induction false} WalkMeaning(
      next: Schedule, fires: iset<Time>, now: Time, deadline: Option<int>, from: Time, latest: Time)
    requires Lawful(next, fires) && ExactDeadline(deadline)
    ensures var r := Walk(next, now, deadline, next(from), latest);
            if next(from) == ZERO_TIME || next(from) > now then r == latest
            else if r == ZERO_TIME then forall f | f in fires && from < f <= now :: !WithinDeadline(now, f, deadline)
            else Owed(fires, from, now, deadline, r)
    decreases now - from
  {
    var t := next(from);
    if t != ZERO_TIME && t <= now {
      if deadline.Some? {
        DeadlineInRange(now, t, deadline.value);
      }
      assert PastDeadline(now, t, deadline) <==> !WithinDeadline(now, t, deadline);
      var seen := if PastDeadline(now, t, deadline) then ZERO_TIME else t;
      WalkMeaning(next, fires, now, deadline, t, seen);
    }
  }

  /** The walk means what the API promises: it finds the owed fire, and finds nothing only when
      every elapsed fire is past its deadline. */
  lemma RunToActOnMeaning(next: Schedule, fires: iset<Time>, last: Time, now: Time, deadline: Option<int>)
    requires Lawful(next, fires) && ExactDeadline(deadline)
    ensures var r := RunToActOn(next, last, now, deadline);
            && (r != ZERO_TIME ==> Owed(fires, last, now, deadline, r))
            && (r == ZERO_TIME <==> forall f | f in fires && last < f <= now :: !WithinDeadline(now, f, deadline))
  {
    WalkMeaning(next, fires, now, deadline, last, ZERO_TIME);
  }

  /** Whatever the deadline, an overflowing one included, the walk never invents a fire. */
  lemma {:induction false} WalkFindsFires(
      next: Schedule, fires: iset<Time>, now: Time, deadline: Option<int>, from: Time, latest: Time)
    requires Lawful(next, fires)
    ensures var r := Walk(next, now, deadline, next(from), latest);
            r == latest || r == ZERO_TIME || (r in fires && from < r <= now)
    decreases now - from
  {
    var t := next(from);
    if t != ZERO_TIME && t <= now {
      WalkFindsFires(next, fires, now, deadline, t, if PastDeadline(now, t, deadline) then ZERO_TIME else t);
    }
  }

  /** Terminates for every `next`, however it regresses, because of the non-advance guard. */
  method NextRunToActOn(last: Time, now: Time, next: Schedule, deadline: Option<int>) returns (latest: Time)
    ensures latest == RunToActOn(next, last, now, deadline)
    ensures forall fires :: Lawful(next, fires) && ExactDeadline(deadline) && latest != ZERO_TIME
              ==> Owed(fires, last, now, deadline, latest)
    ensures forall fires, f | Lawful(next, fires) && ExactDeadline(deadline) && f in fires && last < f <= now ::
              latest == ZERO_TIME ==> !WithinDeadline(now, f, deadline)
  {
    latest := ZERO_TIME;
    var t := next(last);
    while t != ZERO_TIME && t <= now
      invariant Walk(next, now, deadline, t, latest) == RunToActOn(next, last, now, deadline)
      decreases now - t
    {
      latest := t;
      if PastDeadline(now, t, deadline) {
        latest := ZERO_TIME;
      }
      var nextT := next(t);
      if nextT == ZERO_TIME || nextT <= t {
        break;
      }
      t := nextT;
    }
    forall fires | Lawful(next, fires) && ExactDeadline(deadline)
      ensures latest != ZERO_TIME ==> Owed(fires, last, now, deadline, latest)
      ensures latest == ZERO_TIME ==> forall f | f in fires && last < f <= now :: !WithinDeadline(now, f, deadline)
    {
      RunToActOnMeaning(next, fires, last, now, deadline);
    }
  }

  // ---- all fires of a window ----

  /** The fires in `(from, until]`, in order. */
  function FiresIn(next: Schedule, from: Time, until: Time): seq<Time>
    decreases until - from
  {
    var t := next(from);
    if t == ZERO_TIME || t <= from || t > until then [] else [t] + FiresIn(next, t, until)
  }

  ghost predicate Increasing(s: seq<Time>) {
    forall i, j | 0 <= i < j < |s| :: s[i] < s[j]
  }

  /** `FiresIn` lists exactly the fires of the window, each once and in order. */
  lemma {:induction false} FiresInExact(next: Schedule, fires: iset<Time>, from: Time, until: Time)
    requires Lawful(next, fires)
    ensures Increasing(FiresIn(next, from, until))
    ensures forall f :: f in FiresIn(next, from, until) <==> f in fires && from < f <= until
    decreases until - from
  {
    var t := next(from);
    if t != ZERO_TIME && t <= until {
      FiresInExact(next, fires, t, until);
      var rest := FiresIn(next, t, until);
      LaterFires(t, rest);
      forall f ensures f in [t] + rest <==> f in fires && from < f <= until {
        assert f in [t] + rest <==> f == t || f in rest;
      }
    }
  }

  lemma LaterFires(t: Time, rest: seq<Time>)
    requires Increasing(rest) && forall f | f in rest :: t < f
    ensures Increasing([t] + rest)
  {
    assert forall j | 0 <= j < |rest| :: rest[j] in rest;
  }

  lemma {:induction false} FiresInSplit(next: Schedule, fires: iset<Time>, a: Time, b: Time, c: Time)
    requires Lawful(next, fires) && a <= b <= c
    ensures FiresIn(next, a, c) == FiresIn(next, a, b) + FiresIn(next, b, c)
    decreases b - a
  {
    var t := next(a);
    if t != ZERO_TIME && t <= b {
      FiresInSplit(next, fires, t, b, c);
    } else {
      SameSuccessor(next, fires, a, b);
    }
  }

  /** Where nothing fires in between, the successor is the same. */
  lemma SameSuccessor(next: Schedule, fires: iset<Time>, a: Time, b: Time)
    requires Lawful(next, fires) && a <= b && (next(a) == ZERO_TIME || b < next(a))
    ensures next(a) == next(b)
  {
  }

  lemma EmptyWindow(next: Schedule, fires: iset<Time>, from: Time, until: Time)
    requires Lawful(next, fires) && forall f | f in fires :: !(from < f <= until)
    ensures FiresIn(next, from, until) == []
  {
  }

  /** The last fire of a window is the newest in it, and a window that ends there holds the same fires. */
  lemma LastOfWindow(next: Schedule, fires: iset<Time>, from: Time, until: Time)
    requires Lawful(next, fires) && FiresIn(next, from, until) != []
    ensures var w := FiresIn(next, from, until);
            var end := w[|w| - 1];
            && end in fires && from < end <= until
            && (forall f | f in fires :: !(end < f <= until))
            && FiresIn(next, from, end) == w
            && FiresIn(next, end, until) == []
  {
    var w := FiresIn(next, from, until);
    var end := w[|w| - 1];
    FiresInExact(next, fires, from, until);
    assert end in w;
    assert forall f | f in fires && end < f <= until :: f in w;
    EmptyWindow(next, fires, end, until);
    FiresInSplit(next, fires, from, end, until);
  }

  /** A window grows by the fires that follow it, up to the last of them. */
  lemma GrowingWindow(next: Schedule, fires: iset<Time>, start: Time, from: Time, until: Time)
    requires Lawful(next, fires) && start <= from && FiresIn(next, from, until) != []
    ensures var w := FiresIn(next, from, until);
            FiresIn(next, start, w[|w| - 1]) == FiresIn(next, start, from) + w
  {
    var w := FiresIn(next, from, until);
    LastOfWindow(next, fires, from, until);
    FiresInSplit(next, fires, start, from, w[|w| - 1]);
  }
}
