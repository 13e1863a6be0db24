/** Runs that show which promises of the scheduler have conditions: for a template of any name, created
    at any full minute, that fires every minute. */
module SchedulerWitnesses {
  import opened Common
  import opened Text
  import opened Cron
  import opened Pruning
  import opened Scheduler
  import opened SchedulerRuns
  import opened ExactSchedule

  /** The expression that fires at every full minute. */
  function EveryMinute(t: Time): Time {
    if t < 0 then MINUTE else MINUTE * (t / MINUTE + 1)
  }

  ghost function FullMinutes(): iset<Time> {
    iset f: Time | f > 0 && f % MINUTE == 0
  }

  lemma EveryMinuteIsLawful()
    ensures CronLaw(EveryMinute, FullMinutes())
  {
    forall f: Time | f in FullMinutes() ensures f % SECOND == 0 {
      assert f == MINUTE * (f / MINUTE);
    }
    forall t: Time ensures EveryMinute(t) in FullMinutes() && t < EveryMinute(t) {
    }
    forall t: Time, f | f in FullMinutes() && t < f ensures EveryMinute(t) <= f {
      assert f == MINUTE * (f / MINUTE);
      if t >= 0 {
        assert t / MINUTE < f / MINUTE;
      }
    }
  }

  predicate FullMinute(c: Time) {
    c >= 0 && c % MINUTE == 0
  }

  lemma NextMinute(c: Time)
    requires FullMinute(c)
    ensures EveryMinute(c) == c + MINUTE && FullMinute(c + MINUTE) && (c + MINUTE) % SECOND == 0
    ensures SafeNext(EveryMinute, c) == c + MINUTE
  {
  }

  /** The expression and the controller in one zone. */
  function Minutes(): Timetable {
    Timetable(EveryMinute, EveryMinute)
  }

  function Template(policy: string, suspend: bool): Config {
    Config(Some(Minutes()), suspend, policy, None, Some(1), Some(1), false)
  }

  lemma TemplatesAreLawful()
    ensures forall policy, suspend :: LawfulConfig(Template(policy, suspend))
  {
    EveryMinuteIsLawful();
  }

  function Created(t: string, c: Time, clock: Time): State {
    State(t, c, map[], Status(Unset, [], None, None), clock, 0, [], None)
  }

  function Kid(uid: int, phase: Phase, fire: Time): Child {
    Child(uid, phase, fire, fire)
  }

  /** The state after a pass that starts at `s.clock`, ends at `finish` and prunes nothing. */
  ghost function After(cfg: Config, next: Timetable, s: State, finish: Time, landed: bool): State {
    var a := AfterSpawn(cfg, next, s);
    a.(clock := finish, lastPass := Some(finish),
       status := Written(s.status, a.status, NewStatus(a, next, a.children, finish), landed))
  }

  lemma AfterIsAPass(cfg: Config, next: Timetable, s: State, finish: Time, landed: bool)
    requires cfg.schedule == Some(next) && !cfg.suspend && s.clock <= finish
    requires cfg.KeepSucceeded() == 1 && cfg.KeepFailed() == 1
    requires var a := AfterSpawn(cfg, next, s);
             |WithPhase(a.children, Succeeded)| <= 1 && WithPhase(a.children, Failed) == {}
    ensures Step(s, Reconcile(cfg, landed), After(cfg, next, s, finish, landed))
  {
  }

  /** Spawning into a store without finished children. */
  lemma SpawnsFor(cfg: Config, s: State, fire: Time)
    requires cfg.schedule == Some(Minutes()) && cfg.ShouldRun(Active(s.children))
    requires Missed(cfg, Minutes(), s) == fire > 0 && s.clock == fire && fire % SECOND == 0
    requires s.children == map[] || (cfg.Clears() && Active(s.children) == s.children.Keys)
    ensures var a := AfterSpawn(cfg, Minutes(), s);
            && a == s.(
                 children := map[ChildName(s.name, fire) := Kid(s.nextUid, Unset, fire)],
                 spawned := s.spawned + [fire],
                 status := s.status.(lastScheduleTime := Some(fire)),
                 nextUid := s.nextUid + 1)
            && WithPhase(a.children, Succeeded) == {} && WithPhase(a.children, Failed) == {}
  {
  }

  /** At the first fire after the start of the walk, that fire is the one missed. */
  lemma MinuteMissed(cfg: Config, s: State, c: Time)
    requires cfg.deadline == None && FullMinute(c) && LastScheduleTime(s) == c && s.clock == c + MINUTE
    ensures Missed(cfg, Minutes(), s) == c + MINUTE
  {
    NextMinute(c);
    NextMinute(c + MINUTE);
    assert Walk(EveryMinute, c + MINUTE, None, c + MINUTE + MINUTE, c + MINUTE) == c + MINUTE;
  }

  // ---- a slow pass ----

  /** After a first pass that starts a second before the first fire and ends with it. */
  ghost function Slow1(t: string, c: Time): State {
    Created(t, c, c + MINUTE).(status := Status(Pending, [], None, Some(c + 2 * MINUTE)), lastPass := Some(c + MINUTE))
  }

  ghost function Slow2(t: string, c: Time): State {
    Slow1(t, c).(clock := c + 2 * MINUTE)
  }

  ghost function Slow3(t: string, c: Time): State {
    After(Template(ALLOW, false), Minutes(), Slow2(t, c), c + 2 * MINUTE, true)
  }

  lemma {:induction false} SlowFirstPass(t: string, c: Time)
    requires FullMinute(c)
    ensures Step(Created(t, c, c + MINUTE - SECOND), Reconcile(Template(ALLOW, false), true), Slow1(t, c))
  {
    var s0 := Created(t, c, c + MINUTE - SECOND);
    NextMinute(c);
    NextMinute(c + MINUTE);
    NothingActive(map[]);
    assert Missed(Template(ALLOW, false), Minutes(), s0) == ZERO_TIME;
    assert Written(s0.status, s0.status, NewStatus(s0, Minutes(), map[], c + MINUTE), true) == Slow1(t, c).status;
    AfterIsAPass(Template(ALLOW, false), Minutes(), s0, c + MINUTE, true);
  }

  lemma SlowSecondPass(t: string, c: Time)
    requires FullMinute(c)
    ensures Step(Slow2(t, c), Reconcile(Template(ALLOW, false), true), Slow3(t, c))
    ensures Slow3(t, c).clock == c + 2 * MINUTE && Slow3(t, c).spawned == [c + 2 * MINUTE]
  {
    var cfg, s2, now := Template(ALLOW, false), Slow2(t, c), c + 2 * MINUTE;
    NextMinute(c);
    NextMinute(c + MINUTE);
    NextMinute(c + 2 * MINUTE);
    assert Walk(EveryMinute, now, None, now + MINUTE, now) == now;
    assert Walk(EveryMinute, now, None, now, c + MINUTE) == now;
    assert Missed(cfg, Minutes(), s2) == now;
    SpawnsFor(cfg, s2, now);
    AfterIsAPass(cfg, Minutes(), s2, now, true);
  }

  lemma FirstTwoMinutes(c: Time)
    requires FullMinute(c)
    ensures FiresIn(EveryMinute, c, c + 2 * MINUTE) == [c + MINUTE, c + 2 * MINUTE]
    ensures FiresIn(EveryMinute, c, c + MINUTE - SECOND) == []
    ensures Requeue(EveryMinute, c + MINUTE) == MINUTE
  {
    NextMinute(c);
    NextMinute(c + MINUTE);
    NextMinute(c + 2 * MINUTE);
    assert FiresIn(EveryMinute, c + 2 * MINUTE, c + 2 * MINUTE) == [];
    assert FiresIn(EveryMinute, c + MINUTE, c + 2 * MINUTE) == [c + 2 * MINUTE];
  }

  lemma TwoSteps(s0: State, s1: State, s2: State, events: seq<Event>)
    requires |events| == 2 && Init(s0) && Step(s0, events[0], s1) && Step(s1, events[1], s2)
    ensures Run([s0, s1, s2], events)
  {
  }

  lemma ThreeSteps(s0: State, s1: State, s2: State, s3: State, events: seq<Event>)
    requires |events| == 3 && Init(s0)
    requires Step(s0, events[0], s1) && Step(s1, events[1], s2) && Step(s2, events[2], s3)
    ensures Run([s0, s1, s2, s3], events)
  {
  }

  /** A pass during which a fire elapses: the next pass comes exactly when its delay said and acts only
      on the fire after, so the fire in between never gets a child. */
  lemma SlowPassSkipsAFire(t: string, c: Time) returns (trace: seq<State>, events: seq<Event>)
    requires FullMinute(c)
    ensures PlainRun(trace, events, Minutes()) && CronLaw(EveryMinute, FullMinutes())
    ensures trace[0].creation == c
    ensures forall k | 0 <= k < |events| && events[k].Reconcile? :: Punctual(trace[k], Minutes())
    ensures |trace| == 4 && trace[3].clock == c + 2 * MINUTE && trace[3].spawned == [c + 2 * MINUTE]
    ensures FiresIn(EveryMinute, c, c + 2 * MINUTE) == [c + MINUTE, c + 2 * MINUTE]
  {
    var cfg, s0 := Template(ALLOW, false), Created(t, c, c + MINUTE - SECOND);
    EveryMinuteIsLawful();
    SlowFirstPass(t, c);
    SlowSecondPass(t, c);
    FirstTwoMinutes(c);
    trace := [s0, Slow1(t, c), Slow2(t, c), Slow3(t, c)];
    events := [Reconcile(cfg, true), Tick(c + 2 * MINUTE), Reconcile(cfg, true)];
    assert Step(Slow1(t, c), Tick(c + 2 * MINUTE), Slow2(t, c));
    ThreeSteps(s0, Slow1(t, c), Slow2(t, c), Slow3(t, c), events);
    assert Punctual(s0, Minutes()) && Punctual(Slow2(t, c), Minutes());
  }

  // ---- one lost write ----

  /** After the first pass at the first fire, its status write lost. */
  ghost function Lost(t: string, c: Time): State {
    State(t, c, map[ChildName(t, c + MINUTE) := Kid(0, Unset, c + MINUTE)], Status(Unset, [], None, None),
          c + MINUTE, 1, [c + MINUTE], Some(c + MINUTE))
  }

  ghost predicate Minutely(cfg: Config) {
    && cfg.schedule == Some(Minutes()) && !cfg.suspend && cfg.deadline == None
    && cfg.KeepSucceeded() == 1 && cfg.KeepFailed() == 1
  }

  /** A pass that starts and ends with a fire and creates its child. */
  lemma SpawningPass(cfg: Config, s: State, c: Time, landed: bool)
    requires Minutely(cfg) && cfg.ShouldRun(Active(s.children))
    requires FullMinute(c) && LastScheduleTime(s) == c && s.clock == c + MINUTE
    requires s.children == map[] || (cfg.Clears() && Active(s.children) == s.children.Keys)
    ensures Step(s, Reconcile(cfg, landed), After(cfg, Minutes(), s, c + MINUTE, landed))
    ensures After(cfg, Minutes(), s, c + MINUTE, landed).spawned == s.spawned + [c + MINUTE]
    ensures After(cfg, Minutes(), s, c + MINUTE, false)
            == s.(children := map[ChildName(s.name, c + MINUTE) := Kid(s.nextUid, Unset, c + MINUTE)],
                  spawned := s.spawned + [c + MINUTE], nextUid := s.nextUid + 1, lastPass := Some(c + MINUTE))
  {
    NextMinute(c);
    MinuteMissed(cfg, s, c);
    SpawnsFor(cfg, s, c + MINUTE);
    AfterIsAPass(cfg, Minutes(), s, c + MINUTE, landed);
  }

  lemma LosingPass(cfg: Config, t: string, c: Time)
    requires FullMinute(c) && Minutely(cfg)
    ensures Step(Created(t, c, c + MINUTE), Reconcile(cfg, false), Lost(t, c))
  {
    var s0 := Created(t, c, c + MINUTE);
    assert Active(s0.children) == {};
    SpawningPass(cfg, s0, c, false);
    assert Lost(t, c) == After(cfg, Minutes(), s0, c + MINUTE, false);
  }

  /** The second pass of a replacing template. */
  ghost function Twice(t: string, c: Time): State {
    After(Template("Replace", false), Minutes(), Lost(t, c), c + MINUTE, true)
  }

  lemma ReplacingPass(t: string, c: Time)
    requires FullMinute(c)
    ensures Step(Lost(t, c), Reconcile(Template("Replace", false), true), Twice(t, c))
    ensures Twice(t, c).spawned == [c + MINUTE, c + MINUTE]
  {
    var cfg := Template("Replace", false);
    var s1 := Lost(t, c);
    assert Active(s1.children) == s1.children.Keys;
    SpawningPass(cfg, s1, c, true);
  }

  /** One lost status write under Replace, replaced children gone at once: the next pass deletes the running
      child of a fire and creates it anew, so the fire runs twice. */
  lemma {:induction false} ReplaceRunsAFireTwice(t: string, c: Time) returns (trace: seq<State>, events: seq<Event>)
    requires FullMinute(c)
    ensures Run(trace, events) && LawfulEvents(events)
    ensures events == [Reconcile(Template("Replace", false), false), Reconcile(Template("Replace", false), true)]
    ensures trace[2].spawned == [c + MINUTE, c + MINUTE]
  {
    var cfg := Template("Replace", false);
    TemplatesAreLawful();
    LosingPass(cfg, t, c);
    ReplacingPass(t, c);
    trace := [Created(t, c, c + MINUTE), Lost(t, c), Twice(t, c)];
    events := [Reconcile(cfg, false), Reconcile(cfg, true)];
    TwoSteps(trace[0], trace[1], trace[2], events);
  }

  /** The replacing pass again, when the replaced child keeps its name for a while. */
  function Lingering(): Config {
    Template("Replace", false).(lingers := true)
  }

  ghost function Kept(t: string, c: Time): State {
    Lost(t, c).(status := Status(Running, [0], Some(c + MINUTE), Some(c + 2 * MINUTE)))
  }

  lemma LingeringSpawn(cfg: Config, s: State, c: Time)
    requires cfg.schedule == Some(Minutes()) && cfg.deadline == None && cfg.Replaces() && cfg.lingers
    requires FullMinute(c) && LastScheduleTime(s) == c && s.clock == c + MINUTE
    requires ChildName(s.name, c + MINUTE) in s.children
    ensures AfterSpawn(cfg, Minutes(), s) == s.(status := s.status.(lastScheduleTime := Some(c + MINUTE)))
  {
    MinuteMissed(cfg, s, c);
  }

  lemma OneActive(kids: Children, n: string)
    requires kids.Keys == {n} && !Terminal(kids[n].phase)
    ensures Active(kids) == {n} && ActiveUids(kids) == [kids[n].uid]
  {
    SortedIsAscending(Active(kids));
    var names := Sorted(Active(kids));
    AscendingIsDistinct(names);
    DistinctCardinality(names);
    assert Active(kids) == {n} && |names| == 1;
    assert names[0] in Elements(names);
  }

  lemma LingeringPass(t: string, c: Time)
    requires FullMinute(c)
    ensures Step(Lost(t, c), Reconcile(Lingering(), true), Kept(t, c))
  {
    var cfg, s, f := Lingering(), Lost(t, c), c + MINUTE;
    NextMinute(c);
    NextMinute(f);
    LingeringSpawn(cfg, s, c);
    OneActive(s.children, ChildName(t, f));
    var a := s.(status := s.status.(lastScheduleTime := Some(f)));
    KeepingPass(cfg, s, a, Kept(t, c));
  }

  lemma KeepingPass(cfg: Config, s: State, a: State, s': State)
    requires cfg.schedule == Some(Minutes()) && !cfg.suspend && cfg.KeepSucceeded() == 1 && cfg.KeepFailed() == 1
    requires AfterSpawn(cfg, Minutes(), s) == a && Active(a.children) == a.children.Keys
    requires s'.status == Stored(NewStatus(a, Minutes(), a.children, s.clock)) && a.status.phase != s'.status.phase
    requires s' == a.(status := s'.status, lastPass := Some(s.clock)) && a.clock == s.clock
    ensures Step(s, Reconcile(cfg, true), s')
  {
    assert WithPhase(a.children, Succeeded) == {} && WithPhase(a.children, Failed) == {};
  }

  lemma LosingRun(cfg: Config, cfg': Config, s0: State, s1: State, s2: State, n: string)
    returns (trace: seq<State>, events: seq<Event>)
    requires Init(s0) && LawfulConfig(cfg) && LawfulConfig(cfg')
    requires Step(s0, Reconcile(cfg, false), s1) && Step(s1, Reconcile(cfg', true), s2)
    ensures Run(trace, events) && LawfulEvents(events)
    ensures trace == [s0, s1, s2, s2.(children := s2.children - {n})]
    ensures events == [Reconcile(cfg, false), Reconcile(cfg', true), ChildRemoved(n)]
  {
    trace := [s0, s1, s2, s2.(children := s2.children - {n})];
    events := [Reconcile(cfg, false), Reconcile(cfg', true), ChildRemoved(n)];
    ThreeSteps(s0, s1, s2, s2.(children := s2.children - {n}), events);
  }

  /** The same lost write when the replaced child lingers: its name is still taken, so nothing is created;
      then it goes, and the fire, recorded by now, has no child and never gets one. */
  lemma ReplaceLosesARun(t: string, c: Time) returns (trace: seq<State>, events: seq<Event>)
    requires FullMinute(c)
    ensures Run(trace, events) && LawfulEvents(events)
    ensures events == [Reconcile(Template("Replace", false), false), Reconcile(Lingering(), true),
                       ChildRemoved(ChildName(t, c + MINUTE))]
    ensures trace[3].spawned == [c + MINUTE] && trace[3].children == map[]
    ensures trace[3].status.lastScheduleTime == Some(c + MINUTE)
  {
    var cfg, n := Template("Replace", false), ChildName(t, c + MINUTE);
    TemplatesAreLawful();
    LosingPass(cfg, t, c);
    LingeringPass(t, c);
    trace, events := LosingRun(cfg, Lingering(), Created(t, c, c + MINUTE), Lost(t, c), Kept(t, c), n);
    assert Kept(t, c).children - {n} == map[];
  }

  // ---- a swallowed fire time ----

  /** Another run, under Forbid, goes on after the loss: the child succeeds ... */
  ghost function ChildDone(t: string, c: Time): State {
    Lost(t, c).(
      children := map[ChildName(t, c + MINUTE) := Kid(0, Succeeded, c + MINUTE)])
  }

  /** ... and a pass refreshes the status while the template is suspended. */
  ghost function RefreshedIdle(t: string, c: Time): State {
    ChildDone(t, c).(status := Status(Pending, [], None, Some(c + 2 * MINUTE)))
  }

  lemma ChildSucceeds(t: string, c: Time)
    requires FullMinute(c)
    ensures Step(Lost(t, c), ChildMoves(ChildName(t, c + MINUTE), Succeeded), ChildDone(t, c))
  {
  }

  lemma NothingActive(kids: Children)
    requires Active(kids) == {}
    ensures ActiveUids(kids) == []
  {
  }

  lemma SuspendedStep(cfg: Config, s: State, after: Status)
    requires cfg.schedule == Some(Minutes()) && cfg.suspend && cfg.KeepSucceeded() == 1 && cfg.KeepFailed() == 1
    requires Refreshed(s.status, map[], ZERO_TIME, SafeNext(EveryMinute, s.clock)) == after
    requires Stored(after) == after && s.status.phase != after.phase
    ensures Step(s, Reconcile(cfg, true), s.(status := after, lastPass := Some(s.clock)))
  {
  }

  lemma {:induction false} SuspendedRefresh(t: string, c: Time)
    requires FullMinute(c)
    ensures Step(ChildDone(t, c), Reconcile(Template(FORBID, true), true), RefreshedIdle(t, c))
  {
    var s, after := ChildDone(t, c), RefreshedIdle(t, c).status;
    NextMinute(c);
    NextMinute(c + MINUTE);
    NothingActive(map[]);
    SuspendedStep(Template(FORBID, true), s, after);
    assert RefreshedIdle(t, c) == s.(status := after, lastPass := Some(s.clock));
  }

  lemma SwallowingSpawn(t: string, c: Time)
    requires FullMinute(c)
    ensures var cfg, s := Template(FORBID, false), RefreshedIdle(t, c);
            && Missed(cfg, Minutes(), s) == c + MINUTE
            && AfterSpawn(cfg, Minutes(), s) == s.(status := s.status.(lastScheduleTime := Some(c + MINUTE)))
            && s.spawned == [c + MINUTE]
  {
    var s := RefreshedIdle(t, c);
    MinuteMissed(Template(FORBID, false), s, c);
    assert Active(s.children) == {};
  }

  lemma {:induction false} SwallowingPass(t: string, c: Time)
    requires FullMinute(c)
    ensures Step(RefreshedIdle(t, c), Reconcile(Template(FORBID, false), true), RefreshedIdle(t, c))
  {
    var cfg, s := Template(FORBID, false), RefreshedIdle(t, c);
    SwallowingSpawn(t, c);
    NextMinute(c);
    NextMinute(c + MINUTE);
    assert WithPhase(s.children, Succeeded) == {ChildName(t, c + MINUTE)} && WithPhase(s.children, Failed) == {};
    NothingActive(s.children);
    var a := s.(status := s.status.(lastScheduleTime := Some(c + MINUTE)));
    assert NewStatus(a, Minutes(), s.children, c + MINUTE) == a.status;
    assert Finishes(cfg, Minutes(), s, a, s, true);
  }

  lemma FourSteps(s0: State, s1: State, s2: State, s3: State, s4: State, events: seq<Event>)
    requires |events| == 4 && Init(s0)
    requires Step(s0, events[0], s1) && Step(s1, events[1], s2) && Step(s2, events[2], s3) && Step(s3, events[3], s4)
    ensures Run([s0, s1, s2, s3, s4], events)
  {
  }

  lemma FourLawful(cfg: Config, idle: Config, n: string)
    requires LawfulConfig(cfg) && LawfulConfig(idle)
    ensures LawfulEvents([Reconcile(cfg, false), ChildMoves(n, Succeeded), Reconcile(idle, true), Reconcile(cfg, true)])
  {
  }

  /** Why the theorem speaks of passes that really create: after a lost write and a refresh while
      suspended, a pass that finds its child already there holds the fire time in both copies, writes
      nothing, and leaves the stored last schedule time empty. */
  lemma ReactingPassCanSwallow(t: string, c: Time) returns (trace: seq<State>, events: seq<Event>)
    requires FullMinute(c)
    ensures Run(trace, events) && LawfulEvents(events)
    ensures |events| == 4 && events[3] == Reconcile(Template(FORBID, false), true)
    ensures Missed(Template(FORBID, false), Minutes(), trace[3]) == c + MINUTE && trace[3].spawned == [c + MINUTE]
    ensures trace[4] == trace[3] && trace[4].status.lastScheduleTime == None
  {
    var cfg, n := Template(FORBID, false), ChildName(t, c + MINUTE);
    TemplatesAreLawful();
    LosingPass(cfg, t, c);
    ChildSucceeds(t, c);
    SuspendedRefresh(t, c);
    SwallowingSpawn(t, c);
    SwallowingPass(t, c);
    var s0, s1, s2, s3 := Created(t, c, c + MINUTE), Lost(t, c), ChildDone(t, c), RefreshedIdle(t, c);
    trace := [s0, s1, s2, s3, s3];
    events := [Reconcile(cfg, false), ChildMoves(n, Succeeded),
               Reconcile(Template(FORBID, true), true), Reconcile(cfg, true)];
    FourSteps(s0, s1, s2, s3, s3, events);
    FourLawful(cfg, Template(FORBID, true), n);
  }
}
