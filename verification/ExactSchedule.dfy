/** When the children of a template are exactly the fires of its schedule. */
module ExactSchedule {
  import opened Common
  import opened Cron
  import opened Scheduler
  import opened SchedulerRuns

  /** Allow, not suspended, no starting deadline, timetable `next`. */
  ghost predicate Plain(cfg: Config, next: Timetable) {
    cfg.policy == ALLOW && !cfg.suspend && cfg.deadline == None && cfg.schedule == Some(next)
  }

  /** A run of such a template whose status writes all land. */
  ghost predicate PlainRun(trace: seq<State>, events: seq<Event>, next: Timetable) {
    && Run(trace, events) && AllLanded(events)
    && forall e | e in events && e.Reconcile? :: Plain(e.cfg, next)
  }

  /** No fire up to the last one acted on is without a child. */
  ghost predicate NothingSkipped(s: State, next: Timetable) {
    s.spawned == FiresIn(next.walk, s.creation, LastScheduleTime(s))
  }

  /** The fires a pass over `s` finds elapsed since the one it last acted on. */
  function Elapsing(s: State, next: Timetable): seq<Time> {
    FiresIn(next.walk, LastScheduleTime(s), s.clock)
  }

  lemma MissedIsTheLastElapsing(cfg: Config, next: Timetable, fires: iset<Time>, s: State)
    requires Lawful(next.walk, fires) && Plain(cfg, next)
    ensures var w := Elapsing(s, next);
            && Missed(cfg, next, s) == (if w == [] then ZERO_TIME else w[|w| - 1])
            && (w != [] ==> w[|w| - 1] != ZERO_TIME)
  {
    var w, f := Elapsing(s, next), Missed(cfg, next, s);
    FiresInExact(next.walk, fires, LastScheduleTime(s), s.clock);
    RunToActOnMeaning(next.walk, fires, LastScheduleTime(s), s.clock, None);
    assert w != [] ==> w[|w| - 1] in w;
    if f != ZERO_TIME {
      assert f in w;
    }
  }

  /** A pass acts on the newest elapsed fire and on no other. */
  lemma PassActsOnTheLast(cfg: Config, next: Timetable, fires: iset<Time>, s: State, s': State)
    requires CronLaw(next.walk, fires) && Plain(cfg, next) && AtMostOnceInv(s) && Pass(cfg, s, s', true)
    ensures var w := Elapsing(s, next);
            if w == [] then s'.spawned == s.spawned && LastScheduleTime(s') == LastScheduleTime(s)
            else s'.spawned == s.spawned + [w[|w| - 1]] && LastScheduleTime(s') == w[|w| - 1]
  {
    MissedIsTheLastElapsing(cfg, next, fires, s);
    CreatesExactly(cfg, next, s, s', true);
    if Missed(cfg, next, s) != ZERO_TIME {
      ActsOnNewName(cfg, next, s);
      Spawned(cfg, next, s, s', true);
      CreatingPassWrites(cfg, next, s, s', true);
    } else {
      assert AfterSpawn(cfg, next, s) == s;
      IdlePassKeepsLast(cfg, next, s, s');
    }
  }

  lemma IdlePassKeepsLast(cfg: Config, next: Timetable, s: State, s': State)
    requires AtMostOnceInv(s) && Finishes(cfg, next, s, s, s', true)
    ensures s'.spawned == s.spawned && LastScheduleTime(s') == LastScheduleTime(s)
  {
  }

  lemma SameTemplate(cfg: Config, s: State, s': State, landed: bool)
    requires Pass(cfg, s, s', landed)
    ensures s'.name == s.name && s'.creation == s.creation && s.clock <= s'.clock
  {
  }

  lemma OneMore(spawned: seq<Time>, before: seq<Time>, w: seq<Time>)
    requires |spawned| <= |before| && w != []
    ensures spawned + [w[|w| - 1]] == before + w <==> spawned == before && |w| == 1
    ensures |spawned + [w[|w| - 1]]| <= |before + w|
  {
    var longer := spawned + [w[|w| - 1]];
    if longer == before + w {
      assert |w| == 1;
      assert spawned == longer[..|spawned|] && before == (before + w)[..|before|];
    }
  }

  /** A pass keeps a template complete exactly when at most one fire elapsed, and never repairs one. */
  lemma {:induction false} SkippingPass(cfg: Config, next: Timetable, fires: iset<Time>, s: State, s': State)
    requires CronLaw(next.walk, fires) && Plain(cfg, next) && AtMostOnceInv(s) && Pass(cfg, s, s', true)
    requires s.creation <= LastScheduleTime(s) <= s.clock
    requires |s.spawned| <= |FiresIn(next.walk, s.creation, LastScheduleTime(s))|
    ensures NothingSkipped(s', next) <==> NothingSkipped(s, next) && |Elapsing(s, next)| <= 1
    ensures |s'.spawned| <= |FiresIn(next.walk, s'.creation, LastScheduleTime(s'))|
    ensures LastScheduleTime(s) <= LastScheduleTime(s')
  {
    var w, last := Elapsing(s, next), LastScheduleTime(s);
    PassActsOnTheLast(cfg, next, fires, s, s');
    SameTemplate(cfg, s, s', true);
    if w != [] {
      LastOfWindow(next.walk, fires, last, s.clock);
      GrowingWindow(next.walk, fires, s.creation, last, s.clock);
      OneMore(s.spawned, FiresIn(next.walk, s.creation, last), w);
    }
  }

  /** What holds of every state of a plain run. */
  lemma {:induction false} PlainRunInv(
      trace: seq<State>, events: seq<Event>, next: Timetable, fires: iset<Time>, i: nat)
    requires PlainRun(trace, events, next) && CronLaw(next.walk, fires) && i < |trace|
    ensures LawfulEvents(events)
    ensures AtMostOnceInv(trace[i]) && trace[i].creation == trace[0].creation
    ensures trace[i].creation <= LastScheduleTime(trace[i]) <= trace[i].clock
    ensures |trace[i].spawned| <= |FiresIn(next.walk, trace[i].creation, LastScheduleTime(trace[i]))|
  {
    AlwaysAtMostOnce(trace, events, 0, i);
    if i > 0 {
      PlainRunInv(trace, events, next, fires, i - 1);
      var e := events[i - 1];
      assert e in events && Step(trace[i - 1], e, trace[i]);
      if e.Reconcile? {
        SkippingPass(e.cfg, next, fires, trace[i - 1], trace[i]);
      }
    }
  }

  /** Exactly when a run skips no fire: every pass finds at most one fire elapsed since the last one
      acted on. One violation is never made up for. */
  lemma {:induction false} NothingSkippedExactly(
      trace: seq<State>, events: seq<Event>, next: Timetable, fires: iset<Time>, n: nat)
    requires PlainRun(trace, events, next) && CronLaw(next.walk, fires) && n < |trace|
    ensures NothingSkipped(trace[n], next) <==>
              forall i | 0 <= i < n && events[i].Reconcile? :: |Elapsing(trace[i], next)| <= 1
  {
    if n > 0 {
      NothingSkippedExactly(trace, events, next, fires, n - 1);
      PlainRunInv(trace, events, next, fires, n - 1);
      var e := events[n - 1];
      assert e in events && Step(trace[n - 1], e, trace[n]);
      if e.Reconcile? {
        SkippingPass(e.cfg, next, fires, trace[n - 1], trace[n]);
      }
    } else {
      assert LastScheduleTime(trace[0]) == trace[0].creation;
    }
  }

  // ---- the delay a pass returns is short enough ----

  /** A pass that starts in time: the first one before the second fire, every later one no later than
      the delay the one before it returned. */
  ghost predicate Punctual(s: State, next: Timetable) {
    match s.lastPass
    case None => |FiresIn(next.walk, s.creation, s.clock)| <= 1
    case Some(p) => s.clock <= p + Requeue(next.wake, p)
  }

  /** No fire elapses while the pass is at work. */
  ghost predicate Quick(s: State, s': State, next: Timetable) {
    FiresIn(next.walk, s.clock, s'.clock) == []
  }

  /** The first `n` events have only such passes. */
  ghost predicate Timely(trace: seq<State>, events: seq<Event>, next: Timetable, n: nat)
    requires |trace| == |events| + 1 && n <= |events|
  {
    forall k | 0 <= k < n && events[k].Reconcile? :: Punctual(trace[k], next) && Quick(trace[k], trace[k + 1], next)
  }

  /** Whenever a pass ends, at most one fire elapses before its delay is over. */
  ghost predicate WakesInTime(next: Timetable) {
    forall p: Time :: |FiresIn(next.walk, p, p + Requeue(next.wake, p))| <= 1
  }

  /** Evaluated in one zone, a schedule wakes in time: the delay ends with the next fire, and fires are a
      second apart. */
  lemma SameZoneWakesInTime(next: Timetable, fires: iset<Time>)
    requires CronLaw(next.walk, fires) && next.wake == next.walk
    ensures WakesInTime(next)
  {
    forall p: Time ensures |FiresIn(next.walk, p, p + Requeue(next.wake, p))| <= 1 {
      DelayCoversOneFire(next.walk, fires, p);
    }
  }

  lemma DelayCoversOneFire(next: Schedule, fires: iset<Time>, p: Time)
    requires CronLaw(next, fires)
    ensures |FiresIn(next, p, p + Requeue(next, p))| <= 1
  {
    var t := next(p);
    assert t != ZERO_TIME && next(t) != ZERO_TIME ==> next(t) >= t + SECOND;
  }

  /** No fire lies between the last one acted on and the end of the last pass. */
  ghost predicate CaughtUp(s: State, next: Timetable) {
    match s.lastPass
    case None => LastScheduleTime(s) == s.creation
    case Some(p) => LastScheduleTime(s) <= p <= s.clock && FiresIn(next.walk, LastScheduleTime(s), p) == []
  }

  lemma PunctualPassFindsOneFire(next: Timetable, fires: iset<Time>, s: State)
    requires CronLaw(next.walk, fires) && WakesInTime(next) && CaughtUp(s, next) && Punctual(s, next)
    ensures |Elapsing(s, next)| <= 1
  {
    match s.lastPass
    case None =>
    case Some(p) =>
      var due := p + Requeue(next.wake, p);
      FiresInSplit(next.walk, fires, LastScheduleTime(s), p, s.clock);
      FiresInSplit(next.walk, fires, p, s.clock, due);
  }

  lemma QuickPassCatchesUp(cfg: Config, next: Timetable, fires: iset<Time>, s: State, s': State)
    requires CronLaw(next.walk, fires) && Plain(cfg, next) && AtMostOnceInv(s) && Pass(cfg, s, s', true)
    requires LastScheduleTime(s) <= s.clock && Quick(s, s', next)
    ensures CaughtUp(s', next)
  {
    var w, last := Elapsing(s, next), LastScheduleTime(s);
    PassActsOnTheLast(cfg, next, fires, s, s');
    assert s'.lastPass == Some(s'.clock) && s.clock <= s'.clock;
    if w != [] {
      LastOfWindow(next.walk, fires, last, s.clock);
      FiresInSplit(next.walk, fires, w[|w| - 1], s.clock, s'.clock);
    } else {
      FiresInSplit(next.walk, fires, last, s.clock, s'.clock);
    }
  }

  lemma {:induction false} AlwaysCaughtUp(
      trace: seq<State>, events: seq<Event>, next: Timetable, fires: iset<Time>, i: nat)
    requires PlainRun(trace, events, next) && CronLaw(next.walk, fires) && i < |trace|
    requires Timely(trace, events, next, i)
    ensures CaughtUp(trace[i], next)
  {
    if i > 0 {
      AlwaysCaughtUp(trace, events, next, fires, i - 1);
      PlainRunInv(trace, events, next, fires, i - 1);
      var e := events[i - 1];
      assert e in events && Step(trace[i - 1], e, trace[i]);
      if e.Reconcile? {
        QuickPassCatchesUp(e.cfg, next, fires, trace[i - 1], trace[i]);
      }
    }
  }

  /** Waking in time is enough: punctual and quick passes skip nothing. */
  lemma TimelyPassesSkipNothing(
      trace: seq<State>, events: seq<Event>, next: Timetable, fires: iset<Time>, n: nat)
    requires PlainRun(trace, events, next) && CronLaw(next.walk, fires) && WakesInTime(next)
    requires n < |trace| && Timely(trace, events, next, n)
    ensures NothingSkipped(trace[n], next)
  {
    forall i | 0 <= i < n && events[i].Reconcile? ensures |Elapsing(trace[i], next)| <= 1 {
      AlwaysCaughtUp(trace, events, next, fires, i);
      PunctualPassFindsOneFire(next, fires, trace[i]);
    }
    NothingSkippedExactly(trace, events, next, fires, n);
  }

  /** The exact schedule: when the schedule wakes in time and every pass so far was punctual and quick, then
      once a pass has ended at time `p` the children ever created are exactly the fires in
      `(creation, p]`, each once and in order. */
  lemma ChildrenAreExactlyTheFires(
      trace: seq<State>, events: seq<Event>, next: Timetable, fires: iset<Time>, n: nat, p: Time)
    requires PlainRun(trace, events, next) && CronLaw(next.walk, fires) && WakesInTime(next)
    requires n < |trace| && Timely(trace, events, next, n)
    requires trace[n].lastPass == Some(p)
    ensures trace[n].spawned == FiresIn(next.walk, trace[0].creation, p)
    ensures Increasing(trace[n].spawned)
    ensures forall f :: f in trace[n].spawned <==> f in fires && trace[0].creation < f <= p
  {
    TimelyPassesSkipNothing(trace, events, next, fires, n);
    AlwaysCaughtUp(trace, events, next, fires, n);
    PlainRunInv(trace, events, next, fires, n);
    FiresInSplit(next.walk, fires, trace[n].creation, LastScheduleTime(trace[n]), p);
    FiresInExact(next.walk, fires, trace[n].creation, p);
  }
}
