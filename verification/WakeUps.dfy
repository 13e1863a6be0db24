/** Waking up by one zone and walking by another: when the delay a pass returns is short enough. */
module WakeUps {
  import opened Common
  import opened Cron
  import opened Pruning
  import opened Scheduler
  import opened SchedulerRuns
  import opened ExactSchedule
  import opened SchedulerWitnesses

  function AllowAll(next: Timetable): Config {
    Config(Some(next), false, ALLOW, None, Some(1), Some(1), false)
  }

  // ---- a run that wakes too late ----

  /** The first pass of a template created this moment finds nothing to do. */
  lemma FirstPass(t: string, next: Timetable, fires: iset<Time>, p: Time) returns (s1: State)
    requires CronLaw(next.walk, fires)
    ensures Step(Created(t, p, p), Reconcile(AllowAll(next), true), s1)
    ensures s1.creation == LastScheduleTime(s1) == s1.clock == p && s1.lastPass == Some(p)
    ensures s1.children == map[] && s1.spawned == []
  {
    var cfg, s0 := AllowAll(next), Created(t, p, p);
    MissedIsTheLastElapsing(cfg, next, fires, s0);
    assert AfterSpawn(cfg, next, s0) == s0;
    s1 := After(cfg, next, s0, p, true);
    AfterIsAPass(cfg, next, s0, p, true);
  }

  /** A pass over a store without children creates one for the last fire elapsed. */
  lemma LatePass(next: Timetable, fires: iset<Time>, s: State) returns (s': State)
    requires CronLaw(next.walk, fires) && s.children == map[] && Elapsing(s, next) != []
    ensures Step(s, Reconcile(AllowAll(next), true), s')
    ensures var w := Elapsing(s, next); s'.spawned == s.spawned + [w[|w| - 1]]
    ensures s'.clock == s.clock && s'.creation == s.creation
  {
    var cfg, a := AllowAll(next), AfterSpawn(AllowAll(next), next, s);
    MissedIsTheLastElapsing(cfg, next, fires, s);
    assert WithPhase(a.children, Succeeded) == {} && WithPhase(a.children, Failed) == {};
    s' := After(cfg, next, s, s.clock, true);
    AfterIsAPass(cfg, next, s, s.clock, true);
  }

  /** A run of three events whose passes are all punctual and quick, and which skips a fire. */
  ghost predicate SkipsOnTime(trace: seq<State>, events: seq<Event>, next: Timetable) {
    && PlainRun(trace, events, next) && |events| == 3 && Timely(trace, events, next, 3)
    && !NothingSkipped(trace[3], next)
  }

  /** Where two fires elapse before a delay is over, there is such a run: it acts on the last of them only. */
  lemma LateRun(t: string, next: Timetable, fires: iset<Time>, p: Time, due: Time)
    returns (trace: seq<State>, events: seq<Event>)
    requires CronLaw(next.walk, fires)
    requires due == p + Requeue(next.wake, p) && |FiresIn(next.walk, p, due)| >= 2
    ensures SkipsOnTime(trace, events, next) && trace[3].creation == p
    ensures var w := FiresIn(next.walk, p, due); trace[3].spawned == [w[|w| - 1]]
  {
    var s0, s1, s2, s3 := LateStates(t, next, fires, p, due);
    trace, events := LateTrace(next, fires, s0, s1, s2, s3, p);
  }

  /** A first pass at `p`, the clock on to the end of its delay, a second pass. */
  ghost predicate LateSteps(next: Timetable, s0: State, s1: State, s2: State, s3: State, p: Time) {
    && Init(s0) && s0.creation == s0.clock == p
    && Step(s0, Reconcile(AllowAll(next), true), s1) && s1.lastPass == Some(p) && s1.clock == p
    && s2 == s1.(clock := p + Requeue(next.wake, p))
    && Step(s2, Reconcile(AllowAll(next), true), s3) && s3.clock == s2.clock
  }

  lemma LateStates(t: string, next: Timetable, fires: iset<Time>, p: Time, due: Time)
    returns (s0: State, s1: State, s2: State, s3: State)
    requires CronLaw(next.walk, fires)
    requires due == p + Requeue(next.wake, p) && FiresIn(next.walk, p, due) != []
    ensures LateSteps(next, s0, s1, s2, s3, p)
    ensures var w := FiresIn(next.walk, p, due);
            Elapsing(s2, next) == w && s3.spawned == [w[|w| - 1]] && s3.creation == p
  {
    s0 := Created(t, p, p);
    s1 := FirstPass(t, next, fires, p);
    s2, s3 := SecondPass(next, fires, s1, p, due);
  }

  lemma SecondPass(next: Timetable, fires: iset<Time>, s1: State, p: Time, due: Time) returns (s2: State, s3: State)
    requires CronLaw(next.walk, fires) && FiresIn(next.walk, p, due) != []
    requires LastScheduleTime(s1) == s1.creation == p && s1.children == map[] && s1.spawned == []
    ensures s2 == s1.(clock := due) && Step(s2, Reconcile(AllowAll(next), true), s3)
    ensures var w := FiresIn(next.walk, p, due);
            Elapsing(s2, next) == w && s3.spawned == [w[|w| - 1]] && s3.creation == p && s3.clock == due
  {
    s2 := s1.(clock := due);
    s3 := LatePass(next, fires, s2);
  }

  lemma LateTrace(next: Timetable, fires: iset<Time>, s0: State, s1: State, s2: State, s3: State, p: Time)
    returns (trace: seq<State>, events: seq<Event>)
    requires LateSteps(next, s0, s1, s2, s3, p)
    requires CronLaw(next.walk, fires) && |Elapsing(s2, next)| >= 2
    ensures SkipsOnTime(trace, events, next) && trace == [s0, s1, s2, s3]
  {
    trace, events := LatePlainRun(AllowAll(next), next, s0, s1, s2, s3);
    LateIsIncomplete(trace, events, next, fires);
    LateIsTimely(trace, events, next, p);
  }

  lemma LateIsIncomplete(trace: seq<State>, events: seq<Event>, next: Timetable, fires: iset<Time>)
    requires PlainRun(trace, events, next) && CronLaw(next.walk, fires)
    requires |events| == 3 && events[2].Reconcile? && |Elapsing(trace[2], next)| >= 2
    ensures !NothingSkipped(trace[3], next)
  {
    NothingSkippedExactly(trace, events, next, fires, 3);
  }

  lemma LateIsTimely(trace: seq<State>, events: seq<Event>, next: Timetable, p: Time)
    requires |trace| == 4 && |events| == 3 && events[1].Tick?
    requires trace[0].lastPass == None && trace[0].creation == trace[0].clock == trace[1].clock == p
    requires trace[2].lastPass == Some(p) && trace[2].clock == trace[3].clock == p + Requeue(next.wake, p)
    ensures Timely(trace, events, next, 3)
  {
    forall k | 0 <= k < 3 && events[k].Reconcile?
      ensures Punctual(trace[k], next) && Quick(trace[k], trace[k + 1], next)
    {
      assert k == 0 || k == 2;
    }
  }

  lemma LatePlainRun(cfg: Config, next: Timetable, s0: State, s1: State, s2: State, s3: State)
    returns (trace: seq<State>, events: seq<Event>)
    requires Plain(cfg, next) && Init(s0) && Step(s0, Reconcile(cfg, true), s1)
    requires Step(s1, Tick(s2.clock), s2) && Step(s2, Reconcile(cfg, true), s3)
    ensures PlainRun(trace, events, next) && trace == [s0, s1, s2, s3]
    ensures events == [Reconcile(cfg, true), Tick(s2.clock), Reconcile(cfg, true)]
  {
    trace, events := [s0, s1, s2, s3], [Reconcile(cfg, true), Tick(s2.clock), Reconcile(cfg, true)];
    ThreeSteps(s0, s1, s2, s3, events);
  }

  /** Exactly when starting passes in time is enough: every run whose passes are punctual and quick is
      complete if and only if the schedule wakes in time. */
  lemma PunctualRunsSkipNothingExactly(next: Timetable, fires: iset<Time>)
    requires CronLaw(next.walk, fires)
    ensures (forall trace, events | PlainRun(trace, events, next) && Timely(trace, events, next, |events|) ::
               NothingSkipped(trace[|events|], next))
            <==> WakesInTime(next)
  {
    if WakesInTime(next) {
      forall trace, events | PlainRun(trace, events, next) && Timely(trace, events, next, |events|)
        ensures NothingSkipped(trace[|events|], next)
      {
        TimelyPassesSkipNothing(trace, events, next, fires, |events|);
      }
    } else {
      var p: Time :| |FiresIn(next.walk, p, p + Requeue(next.wake, p))| > 1;
      var trace, events := LateRun("", next, fires, p, p + Requeue(next.wake, p));
      assert Timely(trace, events, next, |events|);
    }
  }

  // ---- a zone one hour ahead ----

  const HOUR := 60 * MINUTE

  /** The expression that fires every minute of every even hour. */
  function EvenHours(t: Time): Time {
    if t < 0 then MINUTE
    else
      var m := MINUTE * (t / MINUTE + 1);
      if m / HOUR % 2 == 0 then m else HOUR * (m / HOUR + 1)
  }

  ghost function EvenMinutes(): iset<Time> {
    iset f: Time | f > 0 && f % MINUTE == 0 && f / HOUR % 2 == 0
  }

  lemma WithinMinute(x: Time, q: int)
    requires q * MINUTE <= x < (q + 1) * MINUTE
    ensures x / MINUTE == q
  {
  }

  lemma WithinHour(x: Time, q: int)
    requires q * HOUR <= x < (q + 1) * HOUR
    ensures x / HOUR == q
  {
  }

  lemma WholeMinutes(q: int)
    ensures q * MINUTE % MINUTE == 0
  {
  }

  lemma EvenHoursFires(t: Time)
    ensures EvenHours(t) in EvenMinutes() && t < EvenHours(t)
  {
    if t >= 0 {
      var k := t / MINUTE + 1;
      var m := MINUTE * k;
      var q := m / HOUR;
      assert t < m && q * HOUR <= m < (q + 1) * HOUR;
      WholeMinutes(k);
      WholeMinutes(60 * (q + 1));
      assert HOUR * (q + 1) == 60 * (q + 1) * MINUTE;
      WithinHour(HOUR * (q + 1), q + 1);
    }
  }

  lemma EvenHoursLeast(t: Time, f: Time)
    requires f in EvenMinutes() && t < f
    ensures EvenHours(t) <= f
  {
    assert f == MINUTE * (f / MINUTE);
    if t >= 0 {
      var m := MINUTE * (t / MINUTE + 1);
      assert t / MINUTE < f / MINUTE;
      assert m <= f && m / HOUR <= f / HOUR;
      assert f >= HOUR * (f / HOUR);
    }
  }

  lemma EvenHoursIsLawful()
    ensures CronLaw(EvenHours, EvenMinutes())
  {
    forall f: Time | f in EvenMinutes() ensures f % SECOND == 0 {
      assert f == MINUTE * (f / MINUTE) == SECOND * (60 * (f / MINUTE));
    }
    forall t: Time ensures EvenHours(t) in EvenMinutes() && t < EvenHours(t) {
      EvenHoursFires(t);
    }
    forall t: Time, f | f in EvenMinutes() && t < f ensures EvenHours(t) <= f {
      EvenHoursLeast(t, f);
    }
  }

  /** The same expression in a zone whose clocks are `ahead`. */
  function InZone(next: Schedule, ahead: int): Schedule {
    t => if next(t + ahead) == ZERO_TIME then ZERO_TIME else next(t + ahead) - ahead
  }

  /** The spec names a zone one hour ahead of the controller's. */
  function Abroad(): Timetable {
    Timetable(EvenHours, InZone(EvenHours, HOUR))
  }

  /** Within an even hour the next minute is the next fire ... */
  lemma EvenMinute(h: nat, k: nat)
    requires k < 59
    ensures EvenHours(2 * h * HOUR + k * MINUTE) == 2 * h * HOUR + (k + 1) * MINUTE
  {
    var t := 2 * h * HOUR + k * MINUTE;
    assert MINUTE == 60_000_000_000 && HOUR == 3_600_000_000_000;
    WithinMinute(t, 120 * h + k);
    WithinHour(t + MINUTE, 2 * h);
  }

  /** ... and at the start of an odd hour the next fire is an hour away. */
  lemma OddHour(h: nat)
    ensures EvenHours(2 * h * HOUR + HOUR) == 2 * h * HOUR + 2 * HOUR
  {
    var t := 2 * h * HOUR + HOUR;
    assert MINUTE == 60_000_000_000 && HOUR == 3_600_000_000_000;
    WithinMinute(t, 120 * h + 60);
    WithinHour(t + MINUTE, 2 * h + 1);
  }

  lemma FiveFires(next: Schedule, p: Time)
    requires p >= 0 && next(p) == p + MINUTE && next(p + MINUTE) == p + 2 * MINUTE
    requires next(p + 2 * MINUTE) == p + 3 * MINUTE && next(p + 3 * MINUTE) == p + 4 * MINUTE
    requires next(p + 4 * MINUTE) == p + 5 * MINUTE && next(p + 5 * MINUTE) == p + 6 * MINUTE
    ensures FiresIn(next, p, p + 5 * MINUTE)
            == [p + MINUTE, p + 2 * MINUTE, p + 3 * MINUTE, p + 4 * MINUTE, p + 5 * MINUTE]
  {
    var end := p + 5 * MINUTE;
    assert FiresIn(next, p + 5 * MINUTE, end) == [];
    assert FiresIn(next, p + 4 * MINUTE, end) == [p + 5 * MINUTE];
    assert FiresIn(next, p + 3 * MINUTE, end) == [p + 4 * MINUTE, p + 5 * MINUTE];
    assert FiresIn(next, p + 2 * MINUTE, end) == [p + 3 * MINUTE, p + 4 * MINUTE, p + 5 * MINUTE];
    assert FiresIn(next, p + MINUTE, end) == [p + 2 * MINUTE, p + 3 * MINUTE, p + 4 * MINUTE, p + 5 * MINUTE];
  }

  lemma QuietAbroad(p: Time)
    requires p >= 0 && EvenHours(p + HOUR) == p + 2 * HOUR
    ensures FiresIn(Abroad().wake, p, p + 5 * MINUTE) == [] && Requeue(Abroad().wake, p) == 5 * MINUTE
  {
    assert Abroad().wake(p) == p + HOUR;
  }

  lemma FiveFiresAbroad(h: nat, p: Time)
    requires p == 2 * h * HOUR
    ensures FiresIn(Abroad().walk, p, p + 5 * MINUTE)
            == [p + MINUTE, p + 2 * MINUTE, p + 3 * MINUTE, p + 4 * MINUTE, p + 5 * MINUTE]
    ensures FiresIn(Abroad().wake, p, p + 5 * MINUTE) == [] && Requeue(Abroad().wake, p) == 5 * MINUTE
  {
    EvenMinute(h, 0);
    EvenMinute(h, 1);
    EvenMinute(h, 2);
    EvenMinute(h, 3);
    EvenMinute(h, 4);
    EvenMinute(h, 5);
    FiveFires(EvenHours, p);
    OddHour(h);
    QuietAbroad(p);
  }

  /** A template created at the start of an even hour of the controller's zone: punctual and quick passes
      create one child for five fires, and in the zone the spec names nothing fires at that time at all. */
  lemma ZoneAbroadMissesFires(t: string, h: nat, p: Time) returns (trace: seq<State>, events: seq<Event>)
    requires p == 2 * h * HOUR
    ensures SkipsOnTime(trace, events, Abroad()) && trace[3].creation == p && trace[3].spawned == [p + 5 * MINUTE]
    ensures FiresIn(Abroad().walk, p, p + 5 * MINUTE)
            == [p + MINUTE, p + 2 * MINUTE, p + 3 * MINUTE, p + 4 * MINUTE, p + 5 * MINUTE]
    ensures FiresIn(Abroad().wake, p, p + 5 * MINUTE) == []
    ensures !WakesInTime(Abroad())
  {
    EvenHoursIsLawful();
    FiveFiresAbroad(h, p);
    trace, events := LateRun(t, Abroad(), EvenMinutes(), p, p + 5 * MINUTE);
  }
}
