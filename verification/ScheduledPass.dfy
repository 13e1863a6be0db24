/** What a pass over a cron template does, told in the terms of its spec: the fire it acts on, the children it
    creates, replaces and prunes, and the status it leaves. */
module ScheduledPass {
  import opened Common
  import opened Text
  import opened Cron
  import opened Pruning
  import opened Scheduler
  import opened SchedulerRuns

  /** Fires after `last` count: the recorded one, or the creation of a template that has none. */
  predicate StartsAfter(s: State, last: Time) {
    s.status.lastScheduleTime == Some(last) || (s.status.lastScheduleTime == None && last == s.creation)
  }

  ghost predicate NoneActive(kids: Children) {
    forall n | n in kids :: kids[n].phase == Succeeded || kids[n].phase == Failed
  }

  /** The policy lets a fire run. */
  ghost predicate MayRun(policy: string, kids: Children) {
    NoneActive(kids) || (policy != "" && policy != "Forbid")
  }

  /** Running makes room: any policy but the forbidding and the allowing one deletes what is active. */
  predicate MakesRoom(cfg: Config) {
    cfg.policy != "" && cfg.policy != "Forbid" && cfg.policy != "Allow" && !cfg.lingers
  }

  predicate NameFree(cfg: Config, s: State, n: string) {
    n in s.children ==> MakesRoom(cfg) && s.children[n].phase != Succeeded && s.children[n].phase != Failed
  }

  lemma PolicyMeaning(cfg: Config, kids: Children)
    ensures cfg.ShouldRun(Active(kids)) <==> MayRun(cfg.policy, kids)
    ensures cfg.Clears() <==> MakesRoom(cfg)
  {
    assert NoneActive(kids) <==> Active(kids) == {} by {
      assert forall n | n in kids :: n in Active(kids) <==> !Terminal(kids[n].phase);
    }
  }

  /** The walk of a pass finds the owed fire and no other. */
  lemma MissedIsOwed(cfg: Config, next: Timetable, fires: iset<Time>, s: State, last: Time, f: Time)
    requires CronLaw(next.walk, fires) && ExactDeadline(cfg.deadline) && StartsAfter(s, last)
    ensures Owed(fires, last, s.clock, cfg.deadline, f) <==> f == Missed(cfg, next, s) != ZERO_TIME
  {
    RunToActOnMeaning(next.walk, fires, last, s.clock, cfg.deadline);
    var r := Missed(cfg, next, s);
    if Owed(fires, last, s.clock, cfg.deadline, f) && r != ZERO_TIME {
      assert r in fires && f in fires && !(f < r <= s.clock) && !(r < f <= s.clock);
    }
  }

  // ---- what is created ----

  /** A pass creates a child for a fire exactly when that is the newest one elapsed since the recorded one and
      within the starting deadline, the policy lets it run, and its name is free. */
  lemma CreatesOwedFireExactly(cfg: Config, next: Timetable, fires: iset<Time>, s: State, s': State,
                               landed: bool, last: Time, f: Time)
    requires cfg.schedule == Some(next) && !cfg.suspend && Pass(cfg, s, s', landed)
    requires CronLaw(next.walk, fires) && ExactDeadline(cfg.deadline) && StartsAfter(s, last)
    ensures s'.spawned == s.spawned + [f] <==>
              && Owed(fires, last, s.clock, cfg.deadline, f)
              && MayRun(cfg.policy, s.children) && NameFree(cfg, s, ChildName(s.name, f))
    ensures s'.spawned == s.spawned ||
            exists g :: Owed(fires, last, s.clock, cfg.deadline, g) && s'.spawned == s.spawned + [g]
  {
    PolicyMeaning(cfg, s.children);
    MissedIsOwed(cfg, next, fires, s, last, f);
    CreatesExactly(cfg, next, s, s', landed);
    if Creates(s, s') {
      var g := Missed(cfg, next, s);
      Spawned(cfg, next, s, s', landed);
      MissedIsOwed(cfg, next, fires, s, last, g);
      assert (s.spawned + [f] == s.spawned + [g]) ==> f == g by {
        assert (s.spawned + [f])[|s.spawned|] == f && (s.spawned + [g])[|s.spawned|] == g;
      }
    } else {
      NothingCreated(s, Reconcile(cfg, landed), s');
    }
  }

  /** The child is new: unstarted, with the next uid, created at the pass's second, named after its fire. */
  lemma CreatedChild(cfg: Config, next: Timetable, s: State, s': State, landed: bool, f: Time)
    requires cfg.schedule == Some(next) && cfg.LimitsAdmitted() && Pass(cfg, s, s', landed)
    requires s'.spawned == s.spawned + [f]
    ensures var n := s.name + "-" + Itoa(Unix(f));
            && n in s'.children && s'.children[n] == Child(s.nextUid, Unset, s.clock - s.clock % SECOND, f)
            && s'.nextUid == s.nextUid + 1
  {
    Spawned(cfg, next, s, s', landed);
    var a, n := AfterSpawn(cfg, next, s), ChildName(s.name, f);
    assert s'.spawned[|s.spawned|] == f == Missed(cfg, next, s);
    assert n in Active(a.children) && n in Active(s'.children);
  }

  /** When every elapsed fire is past the deadline, a pass creates nothing, deletes nothing active and leaves
      the recorded time. */
  lemma PastDeadlinesDoNothing(cfg: Config, next: Timetable, fires: iset<Time>, s: State, s': State,
                               landed: bool, last: Time)
    requires cfg.schedule == Some(next) && !cfg.suspend && Pass(cfg, s, s', landed)
    requires CronLaw(next.walk, fires) && ExactDeadline(cfg.deadline) && StartsAfter(s, last) && WholeLast(s)
    requires forall f | f in fires && last < f <= s.clock :: !WithinDeadline(s.clock, f, cfg.deadline)
    ensures s'.spawned == s.spawned && s'.status.lastScheduleTime == s.status.lastScheduleTime
    ensures Active(s'.children) == Active(s.children)
  {
    RunToActOnMeaning(next.walk, fires, last, s.clock, cfg.deadline);
    assert AfterSpawn(cfg, next, s) == s;
    IdleFinish(cfg, next, s, s', landed);
  }

  lemma IdleFinish(cfg: Config, next: Timetable, s: State, s': State, landed: bool)
    requires WholeLast(s) && Finishes(cfg, next, s, s, s', landed)
    ensures s'.spawned == s.spawned && s'.status.lastScheduleTime == s.status.lastScheduleTime
    ensures Active(s'.children) == Active(s.children)
  {
  }

  /** In every run each child was owed: some pass found its fire the newest since the one then recorded, and
      within the deadline of the spec it ran under. */
  lemma {:induction false} EveryChildWasOwed(
      trace: seq<State>, events: seq<Event>, fires: iset<Time>, j: nat, k: nat)
    requires Run(trace, events) && j < |trace| && k < |trace[j].spawned|
    requires forall e | e in events && e.Reconcile? && e.cfg.schedule.Some? ::
               CronLaw(e.cfg.schedule.value.walk, fires) && ExactDeadline(e.cfg.deadline)
    ensures exists i, last :: OwedAt(trace, events, fires, i, last, trace[j].spawned[k]) && i < j
  {
    if j > 0 {
      var s, e, s' := trace[j - 1], events[j - 1], trace[j];
      assert Step(s, e, s') && e in events;
      if k < |s.spawned| {
        EveryChildWasOwed(trace, events, fires, j - 1, k);
        SpawnedGrows(s, e, s');
      } else {
        assert Creates(s, s');
        var next, last := e.cfg.schedule.value, LastScheduleTime(s);
        Spawned(e.cfg, next, s, s', e.landed);
        MissedIsOwed(e.cfg, next, fires, s, last, Missed(e.cfg, next, s));
        assert OwedAt(trace, events, fires, j - 1, last, s'.spawned[k]);
      }
    }
  }

  ghost predicate OwedAt(trace: seq<State>, events: seq<Event>, fires: iset<Time>, i: int, last: Time, f: Time) {
    && 0 <= i < |events| && i < |trace| && events[i].Reconcile? && StartsAfter(trace[i], last)
    && Owed(fires, last, trace[i].clock, events[i].cfg.deadline, f)
  }

  lemma SpawnedGrows(s: State, e: Event, s': State)
    requires Step(s, e, s')
    ensures s.spawned <= s'.spawned
  {
    if Creates(s, s') {
      Spawned(e.cfg, e.cfg.schedule.value, s, s', e.landed);
    } else {
      NothingCreated(s, e, s');
    }
  }

  // ---- what is deleted ----

  function OrThree(limit: Option<int>): int {
    match limit
    case Some(l) => l
    case None => 3
  }

  lemma SpawningKeepsFinished(cfg: Config, next: Timetable, s: State)
    ensures var a := AfterSpawn(cfg, next, s);
            forall p | Terminal(p) :: WithPhase(a.children, p) == WithPhase(s.children, p)
    ensures var a := AfterSpawn(cfg, next, s);
            forall n | n in s.children && Terminal(s.children[n].phase) ::
              n in a.children && a.children[n] == s.children[n]
  {
  }

  /** Of the succeeded children a pass keeps as many as `successfulJobsHistoryLimit` says, of the failed ones as
      many as `failedJobsHistoryLimit` says, three each if they say nothing, and none older than one that goes. */
  lemma PrunesBySpec(cfg: Config, next: Timetable, s: State, s': State, landed: bool)
    requires cfg.schedule == Some(next) && !cfg.suspend && Pass(cfg, s, s', landed)
    ensures |WithPhase(s'.children, Succeeded)| == Min(|WithPhase(s.children, Succeeded)|, OrThree(cfg.successLimit))
    ensures |WithPhase(s'.children, Failed)| == Min(|WithPhase(s.children, Failed)|, OrThree(cfg.failedLimit))
    ensures forall n, m | n in s.children && m in s.children && n in s'.children && m !in s'.children
                          && s.children[n].phase == s.children[m].phase && Terminal(s.children[m].phase) ::
              s.children[m].created <= s.children[n].created
    ensures forall n | n in s'.children && Terminal(s'.children[n].phase) ::
              n in s.children && s'.children[n] == s.children[n]
  {
    var a := AfterSpawn(cfg, next, s);
    SpawningKeepsFinished(cfg, next, s);
    assert Finishes(cfg, next, s, a, s', landed);
    KeptAreNewest(a.children, s'.children, cfg.KeepSucceeded(), cfg.KeepFailed());
    forall n | n in s'.children && Terminal(s'.children[n].phase)
      ensures n in s.children && s'.children[n] == s.children[n]
    {
      assert n in WithPhase(a.children, s'.children[n].phase);
    }
  }

  lemma KeptAreNewest(before: Children, after: Children, keepSucceeded: int, keepFailed: int)
    requires Pruned(before, after, keepSucceeded, keepFailed)
    ensures forall n, m | n in before && m in before && n in after && m !in after
                          && before[n].phase == before[m].phase && Terminal(before[m].phase) ::
              before[m].created <= before[n].created
  {
    forall n, m | n in before && m in before && n in after && m !in after
                  && before[n].phase == before[m].phase && Terminal(before[m].phase)
      ensures before[m].created <= before[n].created
    {
      var p := before[m].phase;
      assert n in WithPhase(after, p) && m in WithPhase(before, p) - WithPhase(after, p);
    }
  }

  /** Children at work stay, unless a fire that may run makes room for itself; then they all go. */
  lemma ReplacesBySpec(cfg: Config, next: Timetable, fires: iset<Time>, s: State, s': State,
                       landed: bool, last: Time, f: Time)
    requires cfg.schedule == Some(next) && !cfg.suspend && Pass(cfg, s, s', landed)
    requires CronLaw(next.walk, fires) && ExactDeadline(cfg.deadline) && StartsAfter(s, last)
    requires Owed(fires, last, s.clock, cfg.deadline, f)
    ensures MayRun(cfg.policy, s.children) && MakesRoom(cfg) ==>
              Active(s'.children) == if NameFree(cfg, s, ChildName(s.name, f)) then {ChildName(s.name, f)} else {}
    ensures !(MayRun(cfg.policy, s.children) && MakesRoom(cfg)) ==>
              forall n | n in Active(s.children) :: n in s'.children && s'.children[n] == s.children[n]
  {
    PolicyMeaning(cfg, s.children);
    MissedIsOwed(cfg, next, fires, s, last, f);
    var a := AfterSpawn(cfg, next, s);
    assert Finishes(cfg, next, s, a, s', landed) && Active(s'.children) == Active(a.children);
    ActiveAfterSpawn(cfg, next, s, a, f);
    assert forall n | n in Active(a.children) :: n in Active(s'.children) && s'.children[n] == a.children[n];
  }

  lemma ActiveAfterSpawn(cfg: Config, next: Timetable, s: State, a: State, f: Time)
    requires f == Missed(cfg, next, s) != ZERO_TIME && a == AfterSpawn(cfg, next, s)
    ensures cfg.ShouldRun(Active(s.children)) && cfg.Clears() ==>
              Active(a.children) == if NameFree(cfg, s, ChildName(s.name, f)) then {ChildName(s.name, f)} else {}
    ensures !(cfg.ShouldRun(Active(s.children)) && cfg.Clears()) ==>
              forall n | n in Active(s.children) :: n in Active(a.children) && a.children[n] == s.children[n]
  {
  }

  // ---- what the status shows ----

  /** The list holds the uids of the children at work, in the order of their names. */
  ghost predicate ListsActive(active: seq<int>, kids: Children) {
    exists names: seq<string> ::
      && Ascending(names) && |names| == |active|
      && (forall n :: n in names <==> n in kids && kids[n].phase != Succeeded && kids[n].phase != Failed)
      && (forall i | 0 <= i < |names| :: names[i] in kids && active[i] == kids[names[i]].uid)
  }

  lemma ActiveUidsInOrder(kids: Children)
    ensures ListsActive(ActiveUids(kids), kids)
  {
    SortedIsAscending(Active(kids));
    var names := Sorted(Active(kids));
    assert forall n :: n in names <==> n in Elements(names);
    assert forall i | 0 <= i < |names| :: names[i] in names;
  }

  /** `f` is the first fire after `t`. */
  ghost predicate FirstAfter(fires: iset<Time>, t: Time, f: Time) {
    f in fires && t < f && forall g | g in fires && t < g :: f <= g
  }

  lemma SafeNextIsFirst(next: Schedule, fires: iset<Time>, t: Time, f: Time)
    requires CronLaw(next, fires) && FirstAfter(fires, t, f)
    ensures SafeNext(next, t) == f && StoredTime(Some(f)) == Some(f)
  {
    assert ZERO_TIME != next(t) <= f && next(t) in fires;
  }

  /** After a pass whose writes land the status says Running exactly if a child is at work, lists the children
      at work in the order of their names, and gives the first fire to come in the zone the spec names. */
  lemma ShowsItsChildren(cfg: Config, next: Timetable, fires: iset<Time>, s: State, s': State, f: Time)
    requires cfg.schedule == Some(next) && !cfg.suspend && Pass(cfg, s, s', true)
    requires CronLaw(next.wake, fires)
    ensures s'.status.phase == (if NoneActive(s'.children) then Pending else Running)
    ensures ListsActive(s'.status.active, s'.children)
    ensures FirstAfter(fires, s'.clock, f) ==> s'.status.nextScheduleTime == Some(f)
  {
    var a := AfterSpawn(cfg, next, s);
    assert Finishes(cfg, next, s, a, s', true);
    assert a.status == s.status.(lastScheduleTime := a.status.lastScheduleTime);
    ActiveUidsInOrder(s'.children);
    PolicyMeaning(cfg, s'.children);
    assert NoneActive(s'.children) <==> Active(s'.children) == {} by {
      assert forall n | n in s'.children :: n in Active(s'.children) <==> !Terminal(s'.children[n].phase);
    }
    if FirstAfter(fires, s'.clock, f) {
      SafeNextIsFirst(next.wake, fires, s'.clock, f);
    }
  }

  /** A suspended pass touches no child. Its status reads Pending with nothing active even while children are at
      work, keeps the recorded time, and gives the first fire to come in the zone the spec names. */
  lemma SuspendedPass(cfg: Config, next: Timetable, fires: iset<Time>, s: State, s': State, f: Time)
    requires cfg.schedule == Some(next) && cfg.suspend && Pass(cfg, s, s', true)
    requires CronLaw(next.wake, fires) && WholeLast(s)
    ensures s'.children == s.children && s'.spawned == s.spawned && s'.nextUid == s.nextUid
    ensures s'.status.phase == Pending && s'.status.active == []
    ensures s'.status.lastScheduleTime == s.status.lastScheduleTime
    ensures FirstAfter(fires, s.clock, f) ==> s'.status.nextScheduleTime == Some(f)
  {
    SortedIsAscending(Active(map[]));
    assert Active(map[]) == {};
    if FirstAfter(fires, s.clock, f) {
      SafeNextIsFirst(next.wake, fires, s.clock, f);
    }
  }

  /** The delay reaches the first fire to come, if that is between a second and five minutes away; it is 15
      seconds if none is to come. */
  lemma DelayMeaning(next: Schedule, fires: iset<Time>, finish: Time)
    requires CronLaw(next, fires)
    ensures (forall f | f in fires :: f <= finish) ==> Requeue(next, finish) == 15 * SECOND
    ensures forall f | FirstAfter(fires, finish, f) ::
              && (SECOND <= f - finish <= 5 * MINUTE ==> finish + Requeue(next, finish) == f)
              && (f - finish < SECOND ==> Requeue(next, finish) == SECOND)
              && (f - finish > 5 * MINUTE ==> Requeue(next, finish) == 5 * MINUTE)
  {
    assert next(finish) != ZERO_TIME ==> next(finish) in fires && finish < next(finish);
    forall f | FirstAfter(fires, finish, f) ensures SafeNext(next, finish) == f {
      SafeNextIsFirst(next, fires, finish, f);
    }
  }
}
