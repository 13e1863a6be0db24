/** Whole runs of a cron template: passes interleaved with whatever else changes the store. */
module SchedulerRuns {
  import opened Common
  import opened Text
  import opened Cron
  import opened Pruning
  import opened Scheduler

  /** A pass may run under any spec, so editing the template is covered. */
  datatype Event =
    | Reconcile(cfg: Config, landed: bool)
    | ChildMoves(child: string, phase: Phase)
    | ChildRemoved(child: string)
    | Tick(to': Time)

  ghost predicate Step(s: State, e: Event, s': State) {
    match e
    case Reconcile(cfg, landed) => cfg.LimitsAdmitted() && Pass(cfg, s, s', landed)
    case ChildMoves(n, p) =>
      // A finished child is never touched again by its own reconciler.
      && n in s.children && !Terminal(s.children[n].phase)
      && s' == s.(children := s.children[n := s.children[n].(phase := p)])
    case ChildRemoved(n) => s' == s.(children := s.children - {n})
    case Tick(t) => s.clock <= t && s' == s.(clock := t)
  }

  ghost predicate Run(trace: seq<State>, events: seq<Event>) {
    && |trace| == |events| + 1
    && Init(trace[0])
    && forall i | 0 <= i < |events| :: Step(trace[i], events[i], trace[i + 1])
  }

  /** A template just created. */
  ghost predicate Init(s: State) {
    && s.children == map[] && s.spawned == [] && s.lastPass == None
    && s.status == Status(Unset, [], None, None)
    && s.creation <= s.clock
  }

  // ---- no swallowed fire time ----

  /** Uids come from a counter that never goes back, and names from fire times. */
  ghost predicate Fresh(s: State) {
    && (forall n | n in s.children :: s.children[n].uid < s.nextUid)
    && (forall u | u in s.status.active :: u < s.nextUid)
    && (forall n | n in s.children ::
          n == ChildName(s.name, s.children[n].fire) && s.children[n].fire % SECOND == 0)
  }

  /** The schedule a pass walks over, if it parses, obeys the law of `Next`; the one it wakes by need not. */
  ghost predicate LawfulConfig(cfg: Config) {
    cfg.schedule.Some? ==> exists fires :: CronLaw(cfg.schedule.value.walk, fires)
  }

  ghost predicate LawfulEvents(events: seq<Event>) {
    forall e | e in events && e.Reconcile? :: LawfulConfig(e.cfg)
  }

  lemma ActiveUidsAreUids(kids: Children)
    ensures forall u :: u in ActiveUids(kids) <==> exists n :: n in Active(kids) && kids[n].uid == u
  {
    var names := Sorted(Active(kids));
    SortedIsAscending(Active(kids));
    forall u ensures u in ActiveUids(kids) <==> exists n :: n in Active(kids) && kids[n].uid == u {
      if u in ActiveUids(kids) {
        var i :| 0 <= i < |names| && ActiveUids(kids)[i] == u;
        assert names[i] in Elements(names);
      }
      if n :| n in Active(kids) && kids[n].uid == u {
        assert n in Elements(names);
        var i :| 0 <= i < |names| && names[i] == n;
        assert ActiveUids(kids)[i] == u;
      }
    }
  }

  /** What a pass acts on, if anything, is a whole second, later than the last fire and not in the future. */
  lemma MissedIsAFire(cfg: Config, next: Timetable, s: State)
    requires cfg.schedule == Some(next) && LawfulConfig(cfg)
    ensures var f := Missed(cfg, next, s);
            f != ZERO_TIME ==> LastScheduleTime(s) < f <= s.clock && f > 0 && f % SECOND == 0
  {
    var fires :| CronLaw(next.walk, fires);
    WalkFindsFires(next.walk, fires, s.clock, cfg.deadline, LastScheduleTime(s), ZERO_TIME);
  }

  lemma {:induction false} SpawnKeepsFresh(cfg: Config, next: Timetable, s: State)
    requires Fresh(s) && cfg.schedule == Some(next) && LawfulConfig(cfg)
    ensures Fresh(AfterSpawn(cfg, next, s)) && AfterSpawn(cfg, next, s).status.active == s.status.active
  {
    MissedIsAFire(cfg, next, s);
  }

  lemma {:induction false} FinishKeepsFresh(cfg: Config, next: Timetable, s: State, a: State, s': State, landed: bool)
    requires Fresh(a) && Finishes(cfg, next, s, a, s', landed)
    requires s.status.active == a.status.active
    ensures Fresh(s')
  {
    ActiveUidsAreUids(s'.children);
  }

  lemma {:induction false} FreshStep(s: State, e: Event, s': State)
    requires Fresh(s) && Step(s, e, s')
    requires e.Reconcile? ==> LawfulConfig(e.cfg)
    ensures Fresh(s')
  {
    if e.Reconcile? && e.cfg.schedule.Some? {
      if e.cfg.suspend {
        ActiveUidsAreUids(map[]);
      } else {
        var next := e.cfg.schedule.value;
        SpawnKeepsFresh(e.cfg, next, s);
        FinishKeepsFresh(e.cfg, next, s, AfterSpawn(e.cfg, next, s), s', e.landed);
      }
    }
  }

  lemma {:induction false} AlwaysFresh(trace: seq<State>, events: seq<Event>, i: nat)
    requires Run(trace, events) && LawfulEvents(events) && i < |trace|
    ensures Fresh(trace[i])
  {
    if i > 0 {
      AlwaysFresh(trace, events, i - 1);
      assert events[i - 1] in events;
      FreshStep(trace[i - 1], events[i - 1], trace[i]);
    }
  }

  /** The pass really created a child. */
  predicate Creates(s: State, s': State) {
    |s'.spawned| > |s.spawned|
  }

  /** A pass that finishes from `a` finds something to write. */
  ghost predicate IssuesWrite(next: Timetable, a: State, s': State) {
    !StatusEqual(a.status, NewStatus(a, next, s'.children, s'.clock))
  }

  /** What a pass that creates a child has done when it starts pruning. */
  lemma Spawned(cfg: Config, next: Timetable, s: State, s': State, landed: bool)
    requires cfg.schedule == Some(next) && Pass(cfg, s, s', landed) && Creates(s, s')
    ensures !cfg.suspend
    ensures var f, a := Missed(cfg, next, s), AfterSpawn(cfg, next, s);
            var n := ChildName(s.name, f);
            && f != ZERO_TIME
            && s'.spawned == a.spawned == s.spawned + [f]
            && a.status == s.status.(lastScheduleTime := Some(f))
            && n in Active(a.children) && a.children[n].uid == s.nextUid
            && (forall m | m in a.children && m != n :: m in s.children && a.children[m] == s.children[m])
            && a.children[n].fire == f
            && Finishes(cfg, next, s, a, s', landed)
  {
  }

  /** The new child survives the pruning, and its fresh uid shows up in the status. */
  lemma NewChildIsWritten(cfg: Config, next: Timetable, s: State, a: State, s': State, landed: bool, f: Time, n: string)
    requires Finishes(cfg, next, s, a, s', landed)
    requires f > 0 && f % SECOND == 0 && a.status == s.status.(lastScheduleTime := Some(f))
    requires n in Active(a.children) && a.children[n].uid !in s.status.active
    ensures IssuesWrite(next, a, s')
    ensures NewStatus(a, next, s'.children, s'.clock).lastScheduleTime == Some(f)
    ensures landed ==> s'.status.lastScheduleTime == Some(f)
  {
    assert n in Active(s'.children);
    ActiveUidsAreUids(s'.children);
    assert a.children[n].uid in ActiveUids(s'.children);
  }

  lemma CreatingPassWrites(cfg: Config, next: Timetable, s: State, s': State, landed: bool)
    requires Fresh(s) && cfg.schedule == Some(next) && LawfulConfig(cfg)
    requires Pass(cfg, s, s', landed) && Creates(s, s')
    ensures var f, a := Missed(cfg, next, s), AfterSpawn(cfg, next, s);
            && a.status.lastScheduleTime == Some(f)
            && IssuesWrite(next, a, s')
            && NewStatus(a, next, s'.children, s'.clock).lastScheduleTime == Some(f)
            && (landed ==> s'.status.lastScheduleTime == Some(f))
  {
    Spawned(cfg, next, s, s', landed);
    MissedIsAFire(cfg, next, s);
    var f, a := Missed(cfg, next, s), AfterSpawn(cfg, next, s);
    NewChildIsWritten(cfg, next, s, a, s', landed, f, ChildName(s.name, f));
  }

  /** In every run, whatever writes were lost before: a pass that creates a child issues a status write
      with the child's fire time, although the copy it compares with already holds that time. */
  lemma {:induction false} NoSwallowedFireTime(trace: seq<State>, events: seq<Event>, i: nat)
    requires Run(trace, events) && LawfulEvents(events) && i < |events|
    requires events[i].Reconcile? && Creates(trace[i], trace[i + 1])
    ensures events[i].cfg.schedule.Some?
    ensures var cfg, s, s' := events[i].cfg, trace[i], trace[i + 1];
            var next := cfg.schedule.value;
            var f, a := Missed(cfg, next, s), AfterSpawn(cfg, next, s);
            && s'.spawned == s.spawned + [f]
            && a.status.lastScheduleTime == Some(f)
            && IssuesWrite(next, a, s')
            && NewStatus(a, next, s'.children, s'.clock).lastScheduleTime == Some(f)
  {
    assert Step(trace[i], events[i], trace[i + 1]);
    assert events[i] in events;
    AlwaysFresh(trace, events, i);
    Spawned(events[i].cfg, events[i].cfg.schedule.value, trace[i], trace[i + 1], events[i].landed);
    CreatingPassWrites(events[i].cfg, events[i].cfg.schedule.value, trace[i], trace[i + 1], events[i].landed);
  }

  /** The pass acts on a fire: one is owed, and the policy lets it run. */
  predicate Acts(cfg: Config, s: State) {
    && cfg.schedule.Some? && !cfg.suspend
    && Missed(cfg, cfg.schedule.value, s) != ZERO_TIME && cfg.ShouldRun(Active(s.children))
  }

  /** The stored status already shows what the pass is about to compute, the fire time aside. */
  ghost predicate AlreadyShown(next: Timetable, stored: Status, kids: Children, finish: Time) {
    && stored.phase == (if Active(kids) != {} then Running else Pending)
    && stored.active == ActiveUids(kids)
    && stored.nextScheduleTime == Some(SafeNext(next.wake, finish))
  }

  lemma SameActiveUids(before: Children, after: Children)
    requires Active(after) == Active(before) && forall n | n in after :: n in before && after[n] == before[n]
    ensures ActiveUids(after) == ActiveUids(before)
  {
    SortedIsAscending(Active(before));
    var names := Sorted(Active(before));
    assert forall i | 0 <= i < |names| :: names[i] in Elements(names);
  }

  lemma ActingPass(cfg: Config, next: Timetable, s: State, s': State, landed: bool)
    requires cfg.schedule == Some(next) && Pass(cfg, s, s', landed) && Acts(cfg, s)
    ensures var f, a := Missed(cfg, next, s), AfterSpawn(cfg, next, s);
            Finishes(cfg, next, s, a, s', landed) && a.status == s.status.(lastScheduleTime := Some(f))
  {
  }

  /** Exactly when a pass that acts on a fire issues no write, in any state: apart from the fire time, which
      its own copy already holds, the stored status shows the outcome. */
  lemma WriteSkippedExactly(cfg: Config, next: Timetable, s: State, s': State, landed: bool)
    requires cfg.schedule == Some(next) && Pass(cfg, s, s', landed) && Acts(cfg, s)
    ensures var a := AfterSpawn(cfg, next, s);
            !IssuesWrite(next, a, s') <==> AlreadyShown(next, s.status, a.children, s'.clock)
  {
    ActingPass(cfg, next, s, s', landed);
    SameActiveUids(AfterSpawn(cfg, next, s).children, s'.children);
  }

  /** And of every run: a pass whose writes land leaves the fire time it acted on unrecorded exactly then, and
      such a pass has created nothing. */
  lemma SwallowedExactly(trace: seq<State>, events: seq<Event>, i: nat)
    requires Run(trace, events) && LawfulEvents(events) && i < |events|
    requires events[i].Reconcile? && events[i].landed && Acts(events[i].cfg, trace[i])
    ensures var cfg, s, s' := events[i].cfg, trace[i], trace[i + 1];
            var next := cfg.schedule.value;
            && (s'.status.lastScheduleTime != Some(Missed(cfg, next, s))
                <==> AlreadyShown(next, s.status, AfterSpawn(cfg, next, s).children, s'.clock))
            && (s'.status.lastScheduleTime != Some(Missed(cfg, next, s)) ==> s'.spawned == s.spawned)
  {
    var cfg, s, s' := events[i].cfg, trace[i], trace[i + 1];
    assert Step(s, events[i], s') && events[i] in events;
    WriteSkippedExactly(cfg, cfg.schedule.value, s, s', true);
    AlwaysFresh(trace, events, i);
    if Creates(s, s') {
      CreatingPassWrites(cfg, cfg.schedule.value, s, s', true);
    }
    Recording(cfg, cfg.schedule.value, s, s', AfterSpawn(cfg, cfg.schedule.value, s));
  }

  /** A landed write of an acting pass records the fire time; without one the stored time is an older one. */
  lemma Recording(cfg: Config, next: Timetable, s: State, s': State, a: State)
    requires cfg.schedule == Some(next) && LawfulConfig(cfg) && Pass(cfg, s, s', true) && Acts(cfg, s)
    requires a == AfterSpawn(cfg, next, s)
    ensures s'.status.lastScheduleTime == Some(Missed(cfg, next, s)) <==> IssuesWrite(next, a, s')
    ensures Creates(s, s') || s'.spawned == s.spawned
  {
    MissedIsAFire(cfg, next, s);
    ActingPass(cfg, next, s, s', true);
  }

  // ---- at most once ----

  ghost predicate AllLanded(events: seq<Event>) {
    forall e | e in events && e.Reconcile? :: e.landed
  }

  ghost predicate AtMostOnceInv(s: State) {
    && Fresh(s)
    && s.creation <= s.clock
    && Increasing(s.spawned)
    && (forall f | f in s.spawned :: s.status.lastScheduleTime.Some? && f <= s.status.lastScheduleTime.value)
    && (forall n | n in s.children :: s.children[n].fire in s.spawned)
    && (s.status.lastScheduleTime.Some? ==>
          var last := s.status.lastScheduleTime.value;
          0 < last <= s.clock && last % SECOND == 0)
  }

  /** When writes land, the fire a pass acts on has no child yet. */
  lemma ActsOnNewName(cfg: Config, next: Timetable, s: State)
    requires AtMostOnceInv(s) && cfg.schedule == Some(next) && LawfulConfig(cfg)
    requires Missed(cfg, next, s) != ZERO_TIME
    ensures ChildName(s.name, Missed(cfg, next, s)) !in s.children
  {
    var f := Missed(cfg, next, s);
    MissedIsAFire(cfg, next, s);
    forall n | n in s.children ensures n != ChildName(s.name, f) {
      assert s.children[n].fire in s.spawned;
      if n == ChildName(s.name, f) {
        ChildNameInjective(s.name, f, s.children[n].fire);
      }
    }
  }

  lemma AtMostOnceIdlePass(cfg: Config, next: Timetable, s: State, s': State)
    requires AtMostOnceInv(s) && Fresh(s') && Finishes(cfg, next, s, s, s', true)
    ensures AtMostOnceInv(s') && LastScheduleTime(s) == LastScheduleTime(s')
  {
  }

  lemma AtMostOnceCreatingPass(cfg: Config, next: Timetable, s: State, s': State)
    requires AtMostOnceInv(s) && Fresh(s') && Pass(cfg, s, s', true) && Creates(s, s')
    requires cfg.schedule == Some(next) && LawfulConfig(cfg)
    ensures AtMostOnceInv(s') && LastScheduleTime(s) < LastScheduleTime(s')
  {
    MissedIsAFire(cfg, next, s);
    Spawned(cfg, next, s, s', true);
    CreatingPassWrites(cfg, next, s, s', true);
    var f := Missed(cfg, next, s);
    RecordingTheNewestFire(cfg, next, s, AfterSpawn(cfg, next, s), s', f, ChildName(s.name, f));
  }

  lemma RecordingTheNewestFire(cfg: Config, next: Timetable, s: State, a: State, s': State, f: Time, n: string)
    requires AtMostOnceInv(s) && Fresh(s') && Finishes(cfg, next, s, a, s', true)
    requires LastScheduleTime(s) < f <= s.clock && f > 0 && f % SECOND == 0
    requires s'.status.lastScheduleTime == Some(f) && s'.spawned == s.spawned + [f] && s'.creation == s.creation
    requires forall m | m in a.children && m != n :: m in s.children && a.children[m] == s.children[m]
    requires n in a.children && a.children[n].fire == f
    ensures AtMostOnceInv(s') && LastScheduleTime(s) < LastScheduleTime(s')
  {
    forall m | m in s'.children ensures s'.children[m].fire in s'.spawned {
      assert m in a.children && s'.children[m] == a.children[m];
    }
    forall i | 0 <= i < |s.spawned| ensures s.spawned[i] < f {
      assert s.spawned[i] in s.spawned;
    }
  }

  lemma AtMostOncePass(cfg: Config, next: Timetable, s: State, s': State)
    requires AtMostOnceInv(s) && Fresh(s') && Pass(cfg, s, s', true)
    requires cfg.schedule == Some(next) && LawfulConfig(cfg) && !cfg.suspend
    ensures AtMostOnceInv(s') && LastScheduleTime(s) <= LastScheduleTime(s')
  {
    if Creates(s, s') {
      AtMostOnceCreatingPass(cfg, next, s, s');
    } else {
      if Missed(cfg, next, s) != ZERO_TIME {
        ActsOnNewName(cfg, next, s);
      }
      CreatesExactly(cfg, next, s, s', true);
      assert AfterSpawn(cfg, next, s) == s;
      AtMostOnceIdlePass(cfg, next, s, s');
    }
  }

  lemma AtMostOnceStep(s: State, e: Event, s': State)
    requires AtMostOnceInv(s) && Step(s, e, s')
    requires e.Reconcile? ==> LawfulConfig(e.cfg) && e.landed
    ensures AtMostOnceInv(s') && LastScheduleTime(s) <= LastScheduleTime(s')
  {
    FreshStep(s, e, s');
    if e.Reconcile? && e.cfg.schedule.Some? && !e.cfg.suspend {
      AtMostOncePass(e.cfg, e.cfg.schedule.value, s, s');
    }
  }

  lemma {:induction false} AlwaysAtMostOnce(trace: seq<State>, events: seq<Event>, i: nat, j: nat)
    requires Run(trace, events) && LawfulEvents(events) && AllLanded(events) && i <= j < |trace|
    ensures AtMostOnceInv(trace[j])
    ensures LastScheduleTime(trace[i]) <= LastScheduleTime(trace[j])
    decreases j
  {
    if j > 0 {
      AlwaysAtMostOnce(trace, events, if i < j then i else j - 1, j - 1);
      assert events[j - 1] in events;
      AtMostOnceStep(trace[j - 1], events[j - 1], trace[j]);
    }
  }

  /** When status writes land, no fire time ever gets a second child, pruned or removed as the first may
      be: fire times of created children strictly increase, and the last schedule time only moves
      forward and never past the clock. The spec may be edited between passes. */
  lemma AtMostOnce(trace: seq<State>, events: seq<Event>)
    requires Run(trace, events) && LawfulEvents(events) && AllLanded(events)
    ensures forall i | 0 <= i < |trace| :: Increasing(trace[i].spawned) && LastScheduleTime(trace[i]) <= trace[i].clock
    ensures forall i, j | 0 <= i <= j < |trace| :: LastScheduleTime(trace[i]) <= LastScheduleTime(trace[j])
  {
    forall i, j | 0 <= i <= j < |trace|
      ensures AtMostOnceInv(trace[j]) && LastScheduleTime(trace[i]) <= LastScheduleTime(trace[j])
    {
      AlwaysAtMostOnce(trace, events, i, j);
    }
    assert forall i | 0 <= i < |trace| :: AtMostOnceInv(trace[i]);
  }

  // ---- lost writes ----

  /** Exactly when a pass creates a child, in any state. */
  lemma CreatesExactly(cfg: Config, next: Timetable, s: State, s': State, landed: bool)
    requires cfg.schedule == Some(next) && Pass(cfg, s, s', landed)
    ensures var f := Missed(cfg, next, s);
            var n := ChildName(s.name, f);
            Creates(s, s') <==>
              && !cfg.suspend && f != ZERO_TIME && cfg.ShouldRun(Active(s.children))
              && (n !in s.children || (cfg.Clears() && n in Active(s.children)))
  {
  }

  /** A write was lost, so a later pass acts on the same fire again: unless it clears the first child away
      that adds no child as long as that one exists. */
  lemma ReactingAddsNoChild(cfg: Config, next: Timetable, s: State, s': State, landed: bool)
    requires cfg.schedule == Some(next) && Pass(cfg, s, s', landed)
    requires !cfg.Clears() && ChildName(s.name, Missed(cfg, next, s)) in s.children
    ensures s'.spawned == s.spawned && s'.nextUid == s.nextUid
    ensures cfg.suspend || s'.children.Keys <= s.children.Keys
  {
  }

  /** Stored schedule times are positive and whole seconds. */
  ghost predicate WholeLast(s: State) {
    s.status.lastScheduleTime.Some? ==>
      s.status.lastScheduleTime.value > 0 && s.status.lastScheduleTime.value % SECOND == 0
  }

  lemma FinishKeepsLast(cfg: Config, next: Timetable, s: State, a: State, s': State, landed: bool)
    requires WholeLast(s) && WholeLast(a) && LastScheduleTime(s) <= LastScheduleTime(a)
    requires a.creation == s.creation && Finishes(cfg, next, s, a, s', landed)
    ensures WholeLast(s') && LastScheduleTime(s) <= LastScheduleTime(s')
  {
  }

  lemma SpawnRaisesLast(cfg: Config, next: Timetable, s: State, a: State)
    requires WholeLast(s) && cfg.schedule == Some(next) && LawfulConfig(cfg) && a == AfterSpawn(cfg, next, s)
    ensures WholeLast(a) && LastScheduleTime(s) <= LastScheduleTime(a) && a.creation == s.creation
  {
    MissedIsAFire(cfg, next, s);
  }

  lemma LastNeverFalls(s: State, e: Event, s': State)
    requires WholeLast(s) && Step(s, e, s')
    requires e.Reconcile? ==> LawfulConfig(e.cfg)
    ensures WholeLast(s') && LastScheduleTime(s) <= LastScheduleTime(s')
  {
    if e.Reconcile? && e.cfg.schedule.Some? && !e.cfg.suspend {
      var a := AfterSpawn(e.cfg, e.cfg.schedule.value, s);
      SpawnRaisesLast(e.cfg, e.cfg.schedule.value, s, a);
      FinishKeepsLast(e.cfg, e.cfg.schedule.value, s, a, s', e.landed);
    }
  }

  /** Fires that have a child but are not covered by the stored schedule time. */
  ghost function Unrecorded(s: State): set<Time> {
    set f | f in s.spawned && f > LastScheduleTime(s)
  }

  /** Creations of children whose status write was then lost. */
  ghost function LostCreations(trace: seq<State>, events: seq<Event>, i: nat): nat
    requires i <= |events| && |trace| == |events| + 1
  {
    if i == 0 then 0
    else LostCreations(trace, events, i - 1)
         + if events[i - 1].Reconcile? && !events[i - 1].landed && Creates(trace[i - 1], trace[i]) then 1 else 0
  }

  ghost predicate Account(s: State, lost: nat) {
    |s.spawned| + |Unrecorded(s)| <= |Elements(s.spawned)| + lost
  }

  lemma AccountIdle(s: State, s': State, lost: nat)
    requires Account(s, lost) && s'.spawned == s.spawned && LastScheduleTime(s) <= LastScheduleTime(s')
    ensures Account(s', lost)
  {
    SubsetSize(Unrecorded(s'), Unrecorded(s));
  }

  /** A lost creation adds its fire to the unrecorded ones, a recorded one removes it: a repeated fire was
      among them. */
  lemma AccountCreation(s: State, s': State, f: Time, landed: bool, lost: nat)
    requires Account(s, lost) && s'.spawned == s.spawned + [f]
    requires LastScheduleTime(s) < f && LastScheduleTime(s) <= LastScheduleTime(s')
    requires landed ==> LastScheduleTime(s') == f
    ensures Account(s', lost + if landed then 0 else 1)
  {
    var u, u', e := Unrecorded(s), Unrecorded(s'), Elements(s.spawned);
    assert Elements(s'.spawned) == e + {f};
    assert f in e <==> f in u;
    assert f in e ==> e + {f} == e && u + {f} == u && |u - {f}| == |u| - 1;
    assert f !in e ==> |e + {f}| == |e| + 1 && |u + {f}| == |u| + 1 && u - {f} == u;
    SubsetSize(u', if landed then u - {f} else u + {f});
  }

  lemma AccountStep(s: State, e: Event, s': State, lost: nat)
    requires Fresh(s) && WholeLast(s) && Step(s, e, s') && Account(s, lost)
    requires e.Reconcile? ==> LawfulConfig(e.cfg)
    ensures Account(s', lost + if e.Reconcile? && !e.landed && Creates(s, s') then 1 else 0)
  {
    LastNeverFalls(s, e, s');
    if Creates(s, s') {
      var cfg, next := e.cfg, e.cfg.schedule.value;
      Spawned(cfg, next, s, s', e.landed);
      MissedIsAFire(cfg, next, s);
      CreatingPassWrites(cfg, next, s, s', e.landed);
      AccountCreation(s, s', Missed(cfg, next, s), e.landed, lost);
    } else {
      NothingCreated(s, e, s');
      AccountIdle(s, s', lost);
    }
  }

  lemma NothingCreated(s: State, e: Event, s': State)
    requires Step(s, e, s') && !Creates(s, s')
    ensures s'.spawned == s.spawned
  {
  }

  lemma {:induction false} AccountKept(trace: seq<State>, events: seq<Event>, i: nat)
    requires Run(trace, events) && LawfulEvents(events) && i < |trace|
    ensures WholeLast(trace[i]) && Account(trace[i], LostCreations(trace, events, i))
  {
    if i == 0 {
      assert Unrecorded(trace[0]) == {};
    } else {
      AccountKept(trace, events, i - 1);
      AlwaysFresh(trace, events, i - 1);
      assert Step(trace[i - 1], events[i - 1], trace[i]) && events[i - 1] in events;
      LastNeverFalls(trace[i - 1], events[i - 1], trace[i]);
      AccountStep(trace[i - 1], events[i - 1], trace[i], LostCreations(trace, events, i - 1));
    }
  }

  /** Every repetition is paid for: in any run, whatever the policy and however the spec is edited, the
      children created beyond one per fire time are at most the creations whose status write was lost. */
  lemma RepeatsArePaidFor(trace: seq<State>, events: seq<Event>, i: nat)
    requires Run(trace, events) && LawfulEvents(events) && i < |trace|
    ensures |trace[i].spawned| - |Elements(trace[i].spawned)| <= LostCreations(trace, events, i)
  {
    AccountKept(trace, events, i);
  }

  lemma StepRecords(s: State, e: Event, s': State)
    requires WholeLast(s) && Step(s, e, s')
    requires e.Reconcile? ==> LawfulConfig(e.cfg)
    ensures s'.spawned == s.spawned
            || (s'.spawned == s.spawned + [s'.spawned[|s.spawned|]]
                && s'.spawned[|s.spawned|] > LastScheduleTime(s))
  {
    if Creates(s, s') {
      Spawned(e.cfg, e.cfg.schedule.value, s, s', e.landed);
      MissedIsAFire(e.cfg, e.cfg.schedule.value, s);
    } else {
      NothingCreated(s, e, s');
    }
  }

  /** `t` only adds children, and only for fires after the time stored in `s`. */
  ghost predicate Follows(s: State, t: State) {
    && LastScheduleTime(s) <= LastScheduleTime(t) && s.spawned <= t.spawned
    && forall k | |s.spawned| <= k < |t.spawned| :: t.spawned[k] > LastScheduleTime(s)
  }

  lemma StepFollows(trace: seq<State>, events: seq<Event>, j: nat)
    requires Run(trace, events) && LawfulEvents(events) && j < |events|
    ensures Follows(trace[j], trace[j + 1])
  {
    AccountKept(trace, events, j);
    assert Step(trace[j], events[j], trace[j + 1]) && events[j] in events;
    LastNeverFalls(trace[j], events[j], trace[j + 1]);
    StepRecords(trace[j], events[j], trace[j + 1]);
  }

  lemma FollowsOn(a: State, b: State, c: State)
    requires Follows(a, b) && Follows(b, c)
    ensures Follows(a, c)
  {
    forall k | |a.spawned| <= k < |c.spawned| ensures c.spawned[k] > LastScheduleTime(a) {
      assert k < |b.spawned| ==> c.spawned[k] == b.spawned[k];
    }
  }

  lemma {:induction false} ChainFollows(trace: seq<State>, i: nat, j: nat)
    requires forall k | 0 <= k < |trace| - 1 :: Follows(trace[k], trace[k + 1])
    requires i <= j < |trace|
    ensures Follows(trace[i], trace[j])
    decreases j
  {
    if i < j {
      ChainFollows(trace, i, j - 1);
      FollowsOn(trace[i], trace[j - 1], trace[j - 1 + 1]);
    }
  }

  /** Recorded is done: in any run, whatever is lost later, every child created from some moment on is for a
      fire after the schedule time stored at that moment. */
  lemma RecordedIsFinal(trace: seq<State>, events: seq<Event>, i: nat, j: nat)
    requires Run(trace, events) && LawfulEvents(events) && i <= j < |trace|
    ensures Follows(trace[i], trace[j])
  {
    forall k | 0 <= k < |trace| - 1 ensures Follows(trace[k], trace[k + 1]) {
      StepFollows(trace, events, k);
    }
    ChainFollows(trace, i, j);
  }

  // ---- the zone of the fires ----

  /** Children are created at fires of the walked schedule, that of the controller's own zone, whatever the
      zone the spec names. */
  lemma {:induction false} CreatedAtWalkedFires(trace: seq<State>, events: seq<Event>, fires: iset<Time>, i: nat)
    requires Run(trace, events) && i < |trace|
    requires forall e | e in events && e.Reconcile? ::
               e.cfg.schedule.Some? ==> CronLaw(e.cfg.schedule.value.walk, fires)
    ensures forall f | f in trace[i].spawned :: f in fires
  {
    if i > 0 {
      CreatedAtWalkedFires(trace, events, fires, i - 1);
      var s, e, s' := trace[i - 1], events[i - 1], trace[i];
      assert Step(s, e, s') && e in events;
      if Creates(s, s') {
        Spawned(e.cfg, e.cfg.schedule.value, s, s', e.landed);
        WalkFindsFires(e.cfg.schedule.value.walk, fires, s.clock, e.cfg.deadline, LastScheduleTime(s), ZERO_TIME);
      } else {
        NothingCreated(s, e, s');
      }
    }
  }

  // ---- bounded footprint ----

  ghost predicate Bounded(s: State, keepSucceeded: int, keepFailed: int) {
    |Active(s.children)| <= 1 && |s.children| <= keepSucceeded + keepFailed + 1
  }

  lemma SubsetSize<T>(a: set<T>, b: set<T>)
    requires a <= b
    ensures |a| <= |b|
  {
    assert b == a + (b - a);
  }

  lemma SpawnKeepsOneActive(cfg: Config, next: Timetable, s: State)
    requires cfg.Forbids() || cfg.Clears()
    requires |Active(s.children)| <= 1
    ensures |Active(AfterSpawn(cfg, next, s).children)| <= 1
  {
    var f, a := Missed(cfg, next, s), AfterSpawn(cfg, next, s);
    if f != ZERO_TIME && cfg.ShouldRun(Active(s.children)) {
      var base := if cfg.Clears() then WithoutActive(s) else s;
      assert Active(base.children) == {};
      SubsetSize(Active(a.children), {ChildName(s.name, f)});
    }
  }

  lemma BoundedStep(s: State, e: Event, s': State, keepSucceeded: int, keepFailed: int)
    requires Bounded(s, keepSucceeded, keepFailed) && Step(s, e, s')
    requires e.Reconcile? ==> e.cfg.Forbids() || e.cfg.Clears()
    requires e.Reconcile? ==> e.cfg.KeepSucceeded() == keepSucceeded && e.cfg.KeepFailed() == keepFailed
    ensures Bounded(s', keepSucceeded, keepFailed)
  {
    match e
    case Reconcile(cfg, landed) =>
      if cfg.schedule.Some? && !cfg.suspend {
        var a := AfterSpawn(cfg, cfg.schedule.value, s);
        SpawnKeepsOneActive(cfg, cfg.schedule.value, s);
        PrunedSize(a.children, s'.children, keepSucceeded, keepFailed);
      }
    case ChildMoves(n, p) =>
      SubsetSize(Active(s'.children), Active(s.children));
      assert s'.children.Keys == s.children.Keys;
      assert |s'.children| == |s'.children.Keys| && |s.children| == |s.children.Keys|;
    case ChildRemoved(n) =>
      SubsetSize(Active(s'.children), Active(s.children));
      SubsetSize(s'.children.Keys, s.children.Keys);
      assert |s'.children| == |s'.children.Keys| && |s.children| == |s.children.Keys|;
    case Tick(_) =>
  }

  /** The limits of the spec, three where it gives none. */
  predicate Limits(cfg: Config, succeeded: int, failed: int) {
    && (cfg.successLimit == Some(succeeded) || (cfg.successLimit == None && succeeded == 3))
    && (cfg.failedLimit == Some(failed) || (cfg.failedLimit == None && failed == 3))
  }

  /** Under every policy but Allow, with replaced children gone at once and with fixed limits: at most one
      child is ever active and at most `success limit + failed limit + 1` exist, however many status
      writes are lost. */
  lemma {:induction false} BoundedFootprint(
      trace: seq<State>, events: seq<Event>, keepSucceeded: nat, keepFailed: nat, i: nat)
    requires Run(trace, events) && i < |trace|
    requires forall e | e in events && e.Reconcile? ::
               e.cfg.policy == "" || e.cfg.policy == "Forbid" || (e.cfg.policy != "Allow" && !e.cfg.lingers)
    requires forall e | e in events && e.Reconcile? :: Limits(e.cfg, keepSucceeded, keepFailed)
    ensures Bounded(trace[i], keepSucceeded, keepFailed)
  {
    if i > 0 {
      BoundedFootprint(trace, events, keepSucceeded, keepFailed, i - 1);
      assert events[i - 1] in events;
      BoundedStep(trace[i - 1], events[i - 1], trace[i], keepSucceeded, keepFailed);
    }
  }
}
