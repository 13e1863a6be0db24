/** The cron-template reconciler: one pass over the store, as a relation and as the imperative code. */
module Scheduler {
  import opened Common
  import opened Text
  import opened Cron
  import opened Pruning

  const FORBID := "Forbid"
  const ALLOW := "Allow"
  const REQUEUE_NORMAL := 15 * SECOND

  /** The spec of a template. `schedule` is `None` when the expression or the time zone does not parse.
      `lingers` is not part of the spec: it says whether a child deleted in the foreground keeps its
      name for now, as it does until its own dependents are gone, or is gone at once. */
  datatype Config = Config(
    schedule: Option<Timetable>,
    suspend: bool,
    policy: string,
    deadline: Option<int>,
    successLimit: Option<int>,
    failedLimit: Option<int>,
    lingers: bool)
  {
    function KeepSucceeded(): int {
      if successLimit.Some? then successLimit.value else 3
    }

    function KeepFailed(): int {
      if failedLimit.Some? then failedLimit.value else 3
    }

    /** What admission guarantees of the limits; without it the slice `s[keep:]` would be out of range. */
    predicate LimitsAdmitted() {
      KeepSucceeded() >= 0 && KeepFailed() >= 0
    }

    predicate Forbids() {
      policy == "" || policy == FORBID
    }

    /** Every other policy value falls through to the replacing branch. */
    predicate Replaces() {
      !Forbids() && policy != ALLOW
    }

    /** Replacing makes the active children disappear during the pass. */
    predicate Clears() {
      Replaces() && !lingers
    }

    predicate ShouldRun(active: set<string>) {
      active == {} || !Forbids()
    }
  }

  /** The scheduled-mode part of a SparkJob's status; `active` holds the uids of the references. */
  datatype Status = Status(
    phase: Phase,
    active: seq<int>,
    lastScheduleTime: Option<Time>,
    nextScheduleTime: Option<Time>)

  /** The template and its children in the store. `spawned` (fire times of the children ever created,
      in order) and `lastPass` (when the last pass that ran to its end did so) are history. */
  datatype State = State(
    name: string,
    creation: Time,
    children: Children,
    status: Status,
    clock: Time,
    nextUid: int,
    spawned: seq<Time>,
    lastPass: Option<Time>)

  function ChildName(template: string, fire: Time): string {
    template + "-" + Itoa(Unix(fire))
  }

  /** Fires are whole seconds, so the unix seconds in the name identify them. */
  lemma ChildNameInjective(template: string, f: Time, g: Time)
    requires f % SECOND == 0 && g % SECOND == 0
    requires ChildName(template, f) == ChildName(template, g)
    ensures f == g
  {
    var prefix := template + "-";
    assert ChildName(template, f)[|prefix|..] == Itoa(Unix(f));
    assert ChildName(template, g)[|prefix|..] == Itoa(Unix(g));
    ItoaInjective(Unix(f), Unix(g));
    UnixExact(f);
    UnixExact(g);
  }

  lemma UnixExact(f: Time)
    requires f % SECOND == 0
    ensures f == Unix(f) * SECOND + EPOCH
  {
    var q := f / SECOND;
    assert f - EPOCH == (q - 62_135_596_800) * SECOND;
  }

  function LastScheduleTime(s: State): Time {
    if s.status.lastScheduleTime.Some? then s.status.lastScheduleTime.value else s.creation
  }

  /** The fire a pass over `s` acts on, or zero. */
  function Missed(cfg: Config, next: Timetable, s: State): Time {
    RunToActOn(next.walk, LastScheduleTime(s), s.clock, cfg.deadline)
  }

  function WithoutActive(s: State): State {
    s.(children := s.children - Active(s.children))
  }

  /** Create the child of a fire; a name already taken counts as success. */
  function SpawnAt(s: State, fire: Time): State {
    var n := ChildName(s.name, fire);
    if n in s.children then s
    else s.(children := s.children[n := Child(s.nextUid, Unset, s.clock - s.clock % SECOND, fire)],
            nextUid := s.nextUid + 1,
            spawned := s.spawned + [fire])
  }

  /** The state after the concurrency policy and the creation. Its status is the reconciler's own
      copy, which already carries the fire time although the stored status does not. */
  function AfterSpawn(cfg: Config, next: Timetable, s: State): State {
    var f := Missed(cfg, next, s);
    if f == ZERO_TIME || !cfg.ShouldRun(Active(s.children)) then s
    else
      var t := SpawnAt(if cfg.Clears() then WithoutActive(s) else s, f);
      t.(status := t.status.(lastScheduleTime := Some(f)))
  }

  /** The uids of the active children, in the order of their names. */
  ghost function ActiveUids(kids: Children): seq<int> {
    SortedIsAscending(Active(kids));
    var names := Sorted(Active(kids));
    seq(|names|, i requires 0 <= i < |names| => assert names[i] in Elements(names); kids[names[i]].uid)
  }

  ghost function Refreshed(status: Status, kids: Children, lastFire: Time, nextFire: Time): Status {
    Status(
      if Active(kids) != {} then Running else Pending,
      ActiveUids(kids),
      if lastFire != ZERO_TIME then Some(lastFire) else status.lastScheduleTime,
      Some(nextFire))
  }

  function Deref(t: Option<Time>): Time {
    if t.Some? then t.value else ZERO_TIME
  }

  /** `scheduledStatusEqual`. */
  predicate StatusEqual(a: Status, b: Status) {
    && a.phase == b.phase
    && a.lastScheduleTime == b.lastScheduleTime
    && a.nextScheduleTime == b.nextScheduleTime
    && a.active == b.active
  }

  /** What the API server keeps of a time: whole seconds, and nothing at all of the zero time. */
  function StoredTime(t: Option<Time>): Option<Time> {
    if t == None || t.value == ZERO_TIME then None else Some(t.value - t.value % SECOND)
  }

  function Stored(status: Status): Status {
    status.(lastScheduleTime := StoredTime(status.lastScheduleTime),
            nextScheduleTime := StoredTime(status.nextScheduleTime))
  }

  /** The stored status after a refresh: no write when nothing differs, and a conflicting write is lost. */
  ghost function Written(stored: Status, before: Status, after: Status, landed: bool): Status {
    if StatusEqual(before, after) || !landed then stored else Stored(after)
  }

  /** The status an unsuspended pass computes, given the children that survive the pruning. */
  ghost function NewStatus(a: State, next: Timetable, kids: Children, finish: Time): Status {
    Refreshed(a.status, kids, Deref(a.status.lastScheduleTime), SafeNext(next.wake, finish))
  }

  /** The rest of an unsuspended pass over `s`, from the state `a` the spawning left. */
  ghost predicate Finishes(cfg: Config, next: Timetable, s: State, a: State, s': State, landed: bool) {
    && s.clock <= s'.clock
    && Pruned(a.children, s'.children, cfg.KeepSucceeded(), cfg.KeepFailed())
    && s' == a.(
         children := s'.children,
         clock := s'.clock,
         lastPass := Some(s'.clock),
         status := Written(s.status, a.status, NewStatus(a, next, s'.children, s'.clock), landed))
  }

  /** One reconcile pass. The children it prunes are not determined when creation times tie. */
  ghost predicate Pass(cfg: Config, s: State, s': State, landed: bool) {
    if cfg.schedule.None? then s' == s
    else
      var next := cfg.schedule.value;
      if cfg.suspend then
        var after := Refreshed(s.status, map[], ZERO_TIME, SafeNext(next.wake, s.clock));
        s' == s.(status := Written(s.status, s.status, after, landed), lastPass := Some(s.clock))
      else Finishes(cfg, next, s, AfterSpawn(cfg, next, s), s', landed)
  }

  /** How long after the end of a pass the next one is asked for. */
  function Requeue(next: Schedule, finish: Time): (delay: int)
    ensures SECOND <= delay <= 5 * MINUTE
  {
    var t := SafeNext(next, finish);
    if t == ZERO_TIME then REQUEUE_NORMAL
    else Min(Max(t - finish, SECOND), 5 * MINUTE)
  }

  // ---- the reconciler ----

  /** The store as the template's reconciler sees it. */
  class Store {
    const name: string
    const creation: Time
    var children: Children
    var status: Status
    var clock: Time
    var nextUid: int
    ghost var spawned: seq<Time>
    ghost var lastPass: Option<Time>

    /** A template just created: no children, an empty status. */
    constructor (name: string, creation: Time, clock: Time, nextUid: int)
      ensures View() == State(name, creation, map[], Status(Unset, [], None, None), clock, nextUid, [], None)
    {
      this.name := name;
      this.creation := creation;
      this.children := map[];
      this.status := Status(Unset, [], None, None);
      this.clock := clock;
      this.nextUid := nextUid;
      this.spawned := [];
      this.lastPass := None;
    }

    ghost function View(): State
      reads this
    {
      State(name, creation, children, status, clock, nextUid, spawned, lastPass)
    }

    /** `listChildren`: every child once, in no particular order. */
    method ListChildren() returns (list: seq<Listed>)
      ensures ListsOnce(list, children)
    {
      var order := Enumerate(children.Keys);
      list := [];
      for i := 0 to |order|
        invariant |list| == i
        invariant forall k | 0 <= k < i :: order[k] in children && list[k] == Listed(order[k], children[order[k]])
      {
        assert order[i] in Elements(order);
        list := list + [Listed(order[i], children[order[i]])];
      }
      forall n | n in children ensures Listed(n, children[n]) in list {
        assert n in Elements(order);
        var k :| 0 <= k < |order| && order[k] == n;
        assert list[k] == Listed(n, children[n]);
      }
    }

    /** `applyConcurrencyPolicy`. */
    method ApplyConcurrencyPolicy(cfg: Config, active: seq<string>) returns (shouldRun: bool, replaced: nat)
      requires Elements(active) == Active(children)
      modifies this`children
      ensures shouldRun == cfg.ShouldRun(old(Active(children)))
      ensures View() == if shouldRun && cfg.Clears() then WithoutActive(old(View())) else old(View())
      ensures replaced == if shouldRun && cfg.Replaces() then |active| else 0
    {
      assert active == [] <==> Active(children) == {} by {
        assert active != [] ==> active[0] in Elements(active);
      }
      var policy := cfg.policy;
      if policy == "" {
        policy := FORBID;
      }
      if |active| == 0 || policy == ALLOW {
        assert |active| == 0 ==> children - Active(children) == children;
        return true, 0;
      }
      if policy == FORBID {
        return false, 0;
      }
      for i := 0 to |active|
        invariant children == if cfg.lingers then old(children) else old(children) - Elements(active[..i])
      {
        if !cfg.lingers {
          children := children - {active[i]};
        }
        assert Elements(active[..i + 1]) == Elements(active[..i]) + {active[i]};
      }
      assert active[..|active|] == active;
      return true, |active|;
    }

    /** `spawnChild`. The object handed back has an empty status even when the name was taken. */
    method SpawnChild(fire: Time) returns (child: Listed)
      modifies this`children, this`nextUid, this`spawned
      ensures View() == SpawnAt(old(View()), fire)
      ensures child.name == ChildName(name, fire) && child.child.phase == Unset
      ensures child.name in children && (child.name !in old(children) ==> children[child.name] == child.child)
    {
      var childName := ChildName(name, fire);
      var made := Child(nextUid, Unset, clock - clock % SECOND, fire);
      child := Listed(childName, made);
      if childName !in children {
        children := children[childName := made];
        nextUid := nextUid + 1;
        spawned := spawned + [fire];
      }
    }

    /** `pruneHistory`, over a list that covers the finished children of the store. */
    method PruneHistory(cfg: Config, list: seq<Listed>)
      requires cfg.LimitsAdmitted() && ListsFinished(list, children)
      modifies this`children
      ensures Pruned(old(children), children, cfg.KeepSucceeded(), cfg.KeepFailed())
    {
      var succeeded := NamesWithPhase(list, Succeeded, children);
      var failed := NamesWithPhase(list, Failed, children);
      succeeded := SortNewestFirst(succeeded, children);
      failed := SortNewestFirst(failed, children);
      assert forall n | n in failed :: n in WithPhase(children, Failed) by {
        assert forall n | n in failed :: n in Elements(failed);
      }
      Prune(succeeded, Succeeded, cfg.KeepSucceeded());
      assert WithPhase(children, Failed) == old(WithPhase(children, Failed));
      label once:
      Prune(failed, Failed, cfg.KeepFailed());
      assert WithPhase(children, Succeeded) == old@once(WithPhase(children, Succeeded));
      assert Active(children) == old(Active(children));
    }

    /** The closure of `pruneHistory` that deletes all but the first `keep` names. */
    method Prune(sorted: seq<string>, outcome: Phase, keep: int)
      requires 0 <= keep && Terminal(outcome)
      requires Distinct(sorted) && Elements(sorted) == WithPhase(children, outcome)
      requires (forall n | n in sorted :: n in children) && NewestFirst(sorted, children)
      modifies this`children
      ensures children.Keys <= old(children).Keys
      ensures forall n | n in children :: children[n] == old(children)[n]
      ensures forall n | n in old(children) && old(children)[n].phase != outcome :: n in children
      ensures KeepsNewest(old(children), children, outcome, keep)
    {
      DistinctCardinality(sorted);
      if |sorted| <= keep {
        return;
      }
      ghost var before := children;
      for i := keep to |sorted|
        invariant children == before - Elements(sorted[keep..i])
      {
        children := children - {sorted[i]};
        assert Elements(sorted[keep..i + 1]) == Elements(sorted[keep..i]) + {sorted[i]};
      }
      assert sorted[keep..|sorted|] == sorted[keep..];
      DroppingTheTail(before, children, sorted, outcome, keep);
      assert forall n | n in sorted[keep..] :: n in Elements(sorted);
    }

    /** `refreshScheduledStatus`; `mem` is the reconciler's copy of the template's status. */
    method RefreshScheduledStatus(mem: Status, kids: seq<Listed>, ghost listed: Children,
                                  lastFire: Time, nextFire: Time, landed: bool)
      requires ListsOnce(kids, listed)
      modifies this`status
      ensures status == Written(old(status), mem, Refreshed(mem, listed, lastFire, nextFire), landed)
    {
      var prev := mem;
      var names := [];
      var uids: map<string, int> := map[];
      for i := 0 to |kids|
        invariant Distinct(names)
        invariant forall n :: n in names <==>
                    exists k :: 0 <= k < i && kids[k].name == n && !Terminal(kids[k].child.phase)
        invariant forall n | n in names :: n in listed && n in uids && uids[n] == listed[n].uid
      {
        var c := kids[i];
        assert c.name in listed && listed[c.name] == c.child;
        if !Terminal(c.child.phase) {
          assert c.name !in names;
          names := names + [c.name];
          uids := uids[c.name := c.child.uid];
        }
      }
      assert Elements(names) == Active(listed) by {
        forall n ensures n in Elements(names) <==> n in Active(listed) {
          if n in Active(listed) {
            assert Listed(n, listed[n]) in kids;
          }
        }
      }
      var sorted := SortStrings(names);
      SortedIsAscending(Active(listed));
      var active := [];
      for i := 0 to |sorted|
        invariant |active| == i
        invariant forall k | 0 <= k < i :: sorted[k] in listed && active[k] == listed[sorted[k]].uid
      {
        assert sorted[i] in Elements(sorted);
        active := active + [uids[sorted[i]]];
      }
      assert active == ActiveUids(listed);
      var last := if lastFire != ZERO_TIME then Some(lastFire) else mem.lastScheduleTime;
      assert sorted == [] <==> Active(listed) == {} by {
        assert sorted != [] ==> sorted[0] in Elements(sorted);
      }
      var after := Status(if |active| > 0 then Running else Pending, active, last, Some(nextFire));
      if StatusEqual(prev, after) {
        return;
      }
      if landed {
        status := Stored(after);
      }
    }

    /** The part of `reconcileScheduled` between listing the children and pruning: decide on a fire,
        apply the policy, create the child, and note the fire time in the reconciler's own copy. */
    method SpawnIfDue(cfg: Config, next: Timetable, list: seq<Listed>) returns (list': seq<Listed>, mem: Status)
      requires cfg.schedule == Some(next) && ListsOnce(list, children)
      modifies this`children, this`nextUid, this`spawned
      ensures View().(status := mem) == AfterSpawn(cfg, next, old(View()))
      ensures ListsFinished(list', children)
    {
      mem, list' := status, list;
      var last := if mem.lastScheduleTime.Some? then mem.lastScheduleTime.value else creation;
      var missed := NextRunToActOn(last, clock, next.walk, cfg.deadline);
      if missed != ZERO_TIME {
        var active := ActiveChildren(list, children);
        var shouldRun, replaced := ApplyConcurrencyPolicy(cfg, active);
        if shouldRun {
          ghost var kids := children;
          var child := SpawnChild(missed);
          list' := list + [child];
          ListedAfterSpawn(list, old(children), kids, children, child);
          mem := mem.(lastScheduleTime := Some(missed));
        }
      }
    }

    /** The first half of an unsuspended pass: list, spawn if due, prune. */
    method SpawnAndPrune(cfg: Config, next: Timetable) returns (mem: Status)
      requires cfg.schedule == Some(next) && cfg.LimitsAdmitted()
      modifies this`children, this`nextUid, this`spawned
      ensures var a := AfterSpawn(cfg, next, old(View()));
              && View().(status := mem) == a.(children := children)
              && Pruned(a.children, children, cfg.KeepSucceeded(), cfg.KeepFailed())
    {
      var list := ListChildren();
      list, mem := SpawnIfDue(cfg, next, list);
      assert View().(status := mem) == AfterSpawn(cfg, next, old(View()));
      PruneHistory(cfg, list);
    }

    /** The second half: reload the children and refresh the status from them. */
    method ReloadAndRefresh(mem: Status, nextFire: Time, landed: bool)
      modifies this`status
      ensures status == Written(old(status), mem,
                Refreshed(mem, children, Deref(mem.lastScheduleTime), nextFire), landed)
    {
      var reloaded := ListChildren();
      RefreshScheduledStatus(mem, reloaded, children, Deref(mem.lastScheduleTime), nextFire, landed);
    }

    /** `reconcileScheduled`. `finish` is the clock when the status is computed and the delay chosen;
        `landed` says whether a status write, if one is issued, survives. */
    method ReconcileScheduled(cfg: Config, finish: Time, landed: bool) returns (requeue: Option<int>)
      requires cfg.LimitsAdmitted() && clock <= finish
      modifies this
      ensures Pass(cfg, old(View()), View(), landed)
      ensures requeue == if cfg.schedule.None? then None
                         else if cfg.suspend then Some(REQUEUE_NORMAL)
                         else Some(Requeue(cfg.schedule.value.wake, clock))
      ensures cfg.schedule.Some? && !cfg.suspend ==> clock == finish
    {
      if cfg.schedule.None? {
        return None;
      }
      var next := cfg.schedule.value;
      if cfg.suspend {
        RefreshScheduledStatus(status, [], map[], ZERO_TIME, SafeNext(next.wake, clock), landed);
        lastPass := Some(clock);
        return Some(REQUEUE_NORMAL);
      }
      var mem := SpawnAndPrune(cfg, next);
      clock := finish;
      var nextFire := SafeNext(next.wake, clock);
      ReloadAndRefresh(mem, nextFire, landed);
      lastPass := Some(clock);
      var delay := RequeueAfter(nextFire);
      return Some(delay);
    }

    /** The delay until the next fire, between a second and five minutes. */
    method RequeueAfter(nextFire: Time) returns (delay: int)
      ensures delay == if nextFire == ZERO_TIME then REQUEUE_NORMAL
                       else Min(Max(nextFire - clock, SECOND), 5 * MINUTE)
    {
      delay := REQUEUE_NORMAL;
      if nextFire != ZERO_TIME {
        delay := nextFire - clock;
        if delay < SECOND {
          delay := SECOND;
        }
        if delay > 5 * MINUTE {
          delay := 5 * MINUTE;
        }
      }
    }
  }

  /** The list names every child exactly once, with the child as stored. */
  ghost predicate ListsOnce(list: seq<Listed>, kids: Children) {
    && (forall e | e in list :: e.name in kids && kids[e.name] == e.child)
    && (forall n | n in kids :: Listed(n, kids[n]) in list)
    && (forall i, j | 0 <= i < j < |list| :: list[i].name != list[j].name)
  }

  /** The same, of the finished children only. */
  ghost predicate ListsFinished(list: seq<Listed>, kids: Children) {
    && (forall e | e in list && Terminal(e.child.phase) :: e.name in kids && kids[e.name] == e.child)
    && (forall n | n in kids && Terminal(kids[n].phase) :: Listed(n, kids[n]) in list)
    && (forall i, j | 0 <= i < j < |list| && Terminal(list[i].child.phase) && Terminal(list[j].child.phase) ::
          list[i].name != list[j].name)
  }

  /** Deleting active children and adding a new one leaves the list of the finished ones good. */
  lemma ListedAfterSpawn(list: seq<Listed>, before: Children, kept: Children, after: Children, child: Listed)
    requires ListsOnce(list, before) && !Terminal(child.child.phase)
    requires kept == before || kept == before - Active(before)
    requires after == kept || (child.name !in kept && after == kept[child.name := child.child])
    ensures ListsFinished(list + [child], after)
  {
  }

  method NamesWithPhase(list: seq<Listed>, outcome: Phase, kids: Children) returns (names: seq<string>)
    requires Terminal(outcome) && ListsFinished(list, kids)
    ensures Distinct(names) && Elements(names) == WithPhase(kids, outcome)
    ensures forall n | n in names :: n in kids && kids[n].phase == outcome
  {
    names := [];
    for i := 0 to |list|
      invariant Distinct(names)
      invariant forall n :: n in names <==>
                  exists k :: 0 <= k < i && list[k].name == n && list[k].child.phase == outcome
    {
      if list[i].child.phase == outcome {
        assert list[i].name !in names;
        names := names + [list[i].name];
      }
    }
    forall n ensures n in Elements(names) <==> n in WithPhase(kids, outcome) {
      if n in WithPhase(kids, outcome) {
        assert Listed(n, kids[n]) in list;
      }
    }
    assert forall n | n in names :: n in Elements(names);
  }

  /** Deleting all but the first `keep` of a newest-first list keeps the newest ones. */
  lemma DroppingTheTail(before: Children, after: Children, sorted: seq<string>, outcome: Phase, keep: nat)
    requires keep < |sorted| && Distinct(sorted) && Elements(sorted) == WithPhase(before, outcome)
    requires (forall n | n in sorted :: n in before) && NewestFirst(sorted, before)
    requires after == before - Elements(sorted[keep..])
    ensures KeepsNewest(before, after, outcome, keep)
  {
    var stay, gone := sorted[..keep], sorted[keep..];
    assert sorted == stay + gone;
    DistinctCardinality(sorted);
    DistinctCardinality(stay);
    forall n ensures n in WithPhase(after, outcome) <==> n in Elements(stay) {
      assert n in Elements(sorted) <==> n in stay || n in gone;
    }
    assert WithPhase(after, outcome) == Elements(stay);
    forall n, m | n in WithPhase(after, outcome) && m in WithPhase(before, outcome) - WithPhase(after, outcome)
      ensures before[m].created <= after[n].created
    {
      assert n in stay && m in gone;
      var i :| 0 <= i < keep && sorted[i] == n;
      var j :| 0 <= j < |gone| && gone[j] == m;
      assert sorted[keep + j] == m;
    }
  }

  /** `activeChildren`: everything that is neither Succeeded nor Failed. */
  method ActiveChildren(list: seq<Listed>, kids: Children) returns (names: seq<string>)
    requires ListsOnce(list, kids)
    ensures Distinct(names) && Elements(names) == Active(kids)
  {
    names := [];
    for i := 0 to |list|
      invariant Distinct(names)
      invariant forall n :: n in names <==>
                  exists k :: 0 <= k < i && list[k].name == n && !Terminal(list[k].child.phase)
    {
      if !Terminal(list[i].child.phase) {
        assert list[i].name !in names;
        names := names + [list[i].name];
      }
    }
    forall n ensures n in Elements(names) <==> n in Active(kids) {
      if n in Active(kids) {
        assert Listed(n, kids[n]) in list;
      }
    }
  }
}
