/** A distributed training run: repairing the set of ranks, counting phases, spending the resume budget. */
module TrainingRuns {
  import opened Common
  import opened Text

  /** A worker pod; `ready` is its Ready condition. */
  datatype Pod = Pod(phase: PodPhase, ready: bool)

  /** The worker pods, by the rank on their label. */
  type Workers = map<int, Pod>

  datatype Status = Status(
    phase: Phase,
    readyWorkers: int,
    resumes: int,
    cost: string,
    lastCheckpoint: string,
    startTime: Option<Time>,
    completionTime: Option<Time>)

  /** The run and its pods in the store; `made` is history: how many pods each rank has had. */
  datatype State = State(pods: Workers, status: Status, worldSize: int, made: map<int, nat>)

  /** What one pass meets: the ranks whose pods refuse to be deleted, the amount a started run has cost by
      now, the clock, and whether a status write survives. */
  datatype Pass = Pass(stuck: set<int>, cost: Amount, now: Time, landed: bool)

  /** The ranks below `n`; there are `n` of them. */
  function Ranks(n: int): (s: set<int>)
    ensures forall r :: r in s <==> 0 <= r < n
    ensures |s| == Max(n, 0)
    decreases n
  {
    if n <= 0 then {} else Ranks(n - 1) + {n - 1}
  }

  function InPhase(pods: Workers, p: PodPhase): set<int> {
    set r | r in pods && pods[r].phase == p
  }

  function ReadyRanks(pods: Workers): set<int> {
    set r | r in pods && pods[r].phase == PodRunning && pods[r].ready
  }

  // ---- one pass ----

  function SetOnce(t: Option<Time>, now: Time): Option<Time> {
    if t.Some? then t else Some(now)
  }

  /** Failures are answered by resuming: something failed, not everything succeeded, budget is left. */
  predicate Resumes(maxRetries: int, s: State) {
    && !(|InPhase(s.pods, PodSucceeded)| == s.worldSize && s.worldSize > 0)
    && InPhase(s.pods, PodFailed) != {} && s.status.resumes < maxRetries
  }

  /** The status computed from the pods as they were listed. */
  function NewStatus(maxRetries: int, s: State, cost: Amount, now: Time): Status {
    var st := s.status.(readyWorkers := |ReadyRanks(s.pods)|, cost := EstimatedCost(s.status.startTime, cost));
    if |InPhase(s.pods, PodSucceeded)| == s.worldSize && s.worldSize > 0 then
      st.(phase := Succeeded, completionTime := SetOnce(st.completionTime, now))
    else if InPhase(s.pods, PodFailed) != {} then
      if st.resumes < maxRetries then st.(phase := Resuming, resumes := st.resumes + 1)
      else st.(phase := Failed, completionTime := SetOnce(st.completionTime, now))
    else if |ReadyRanks(s.pods)| == s.worldSize && s.worldSize > 0 then
      st.(phase := Running, startTime := SetOnce(st.startTime, now), cost := cost)
    else st.(phase := Pending)
  }

  function MissingRanks(s: State): set<int> {
    Ranks(s.worldSize) - s.pods.Keys
  }

  /** The listed pods a pass deletes: ranks beyond the world size, and failed ones when resuming. */
  function Doomed(maxRetries: int, s: State): set<int> {
    (set r | r in s.pods && r >= s.worldSize)
    + (if Resumes(maxRetries, s) then InPhase(s.pods, PodFailed) else {})
  }

  const NEW_POD := Pod(PodPending, false)

  function WithPods(pods: Workers, ranks: set<int>): Workers {
    pods + map r | r in ranks :: NEW_POD
  }

  function Tally(made: map<int, nat>, r: int): nat {
    if r in made then made[r] else 0
  }

  function Counted(made: map<int, nat>, ranks: set<int>): map<int, nat> {
    made + map r | r in ranks :: Tally(made, r) + 1
  }

  /** `equalTrainingStatus`: the times are not compared. */
  predicate StatusEqual(a: Status, b: Status) {
    && a.phase == b.phase && a.readyWorkers == b.readyWorkers && a.resumes == b.resumes
    && a.cost == b.cost && a.lastCheckpoint == b.lastCheckpoint
  }

  function Written(stored: Status, after: Status, landed: bool): Status {
    if StatusEqual(stored, after) || !landed then stored else after
  }

  /** `Reconcile`. */
  function Reconciled(maxRetries: int, s: State, pass: Pass): State {
    if Terminal(s.status.phase) then s
    else
      var missing := MissingRanks(s);
      s.(pods := WithPods(s.pods, missing) - (Doomed(maxRetries, s) - pass.stuck),
         made := Counted(s.made, missing),
         status := Written(s.status, NewStatus(maxRetries, s, pass.cost, pass.now), pass.landed))
  }

  /** The ranks below `n` that were not listed have a new pod, counted in the history; nothing else changed. */
  ghost predicate FilledUpTo(existing: Workers, before: map<int, nat>, n: int, pods: Workers, made: map<int, nat>) {
    && (forall r :: r in pods <==> r in existing || 0 <= r < n)
    && (forall r | r in pods :: pods[r] == if r in existing then existing[r] else NEW_POD)
    && (forall r :: r in made <==> r in before || (0 <= r < n && r !in existing))
    && (forall r | r in made :: made[r] == Tally(before, r) + if 0 <= r < n && r !in existing then 1 else 0)
  }

  lemma FilledIsWithPods(existing: Workers, before: map<int, nat>, n: int, missing: set<int>,
                         pods: Workers, made: map<int, nat>)
    requires missing == Ranks(n) - existing.Keys && FilledUpTo(existing, before, n, pods, made)
    ensures pods == WithPods(existing, missing) && made == Counted(before, missing)
  {
    assert forall r :: r in missing <==> 0 <= r < n && r !in existing;
    FilledPods(existing, missing, pods);
    FilledTally(before, missing, made);
  }

  lemma FilledPods(existing: Workers, missing: set<int>, pods: Workers)
    requires missing !! existing.Keys && forall r :: r in pods <==> r in existing || r in missing
    requires forall r | r in pods :: pods[r] == if r in existing then existing[r] else NEW_POD
    ensures pods == WithPods(existing, missing)
  {
    SameMaps(pods, WithPods(existing, missing));
  }

  lemma FilledTally(before: map<int, nat>, missing: set<int>, made: map<int, nat>)
    requires forall r :: r in made <==> r in before || r in missing
    requires forall r | r in made :: made[r] == Tally(before, r) + if r in missing then 1 else 0
    ensures made == Counted(before, missing)
  {
    SameMaps(made, Counted(before, missing));
  }

  lemma SameMaps<V>(a: map<int, V>, b: map<int, V>)
    requires forall r :: r in a <==> r in b
    requires forall r | r in a && r in b :: a[r] == b[r]
    ensures a == b
  {
    assert forall r :: r in a.Keys <==> r in b.Keys;
    assert a.Keys == b.Keys;
    assert forall r | r in a :: a[r] == b[r];
  }

  lemma TwoDeletions(pods: Workers, a: set<int>, b: set<int>, stuck: set<int>)
    ensures pods - (a - stuck) - (b - stuck) == pods - (a + b - stuck)
  {
  }

  // ---- the reconciler ----

  class TrainingRun {
    var pods: Workers
    var status: Status
    var worldSize: int
    ghost var made: map<int, nat>

    constructor (worldSize: int)
      ensures View() == Fresh(worldSize)
    {
      this.pods := map[];
      this.status := Status(Unset, 0, 0, "", "", None, None);
      this.worldSize := worldSize;
      this.made := map[];
    }

    ghost function View(): State
      reads this
    {
      State(pods, status, worldSize, made)
    }

    /** `Reconcile`. */
    method Reconcile(maxRetries: int, pass: Pass)
      modifies this
      ensures View() == Reconciled(maxRetries, old(View()), pass)
    {
      if status.phase == Succeeded || status.phase == Failed {
        return;
      }
      ghost var s := View();
      var existing := pods;
      CreateMissing(existing);
      ghost var repaired := pods;
      var order := Enumerate(existing.Keys);
      var extra := set r | r in existing && r >= worldSize;
      DeleteWhere(order, extra, pass.stuck);
      UpdateTrainingStatus(maxRetries, existing, pass, s);
      TwoDeletions(repaired, extra, if Resumes(maxRetries, s) then InPhase(existing, PodFailed) else {}, pass.stuck);
    }

    /** The loop over the ranks that creates the pods not listed. */
    method CreateMissing(existing: Workers)
      requires existing == pods
      modifies this`pods, this`made
      ensures pods == WithPods(existing, Ranks(worldSize) - existing.Keys)
      ensures made == Counted(old(made), Ranks(worldSize) - existing.Keys)
    {
      var rank := 0;
      while rank < worldSize
        invariant 0 <= rank <= Max(worldSize, 0)
        invariant FilledUpTo(existing, old(made), rank, pods, made)
      {
        if rank !in existing {
          pods := pods[rank := NEW_POD];
          made := made[rank := Tally(made, rank) + 1];
        }
        rank := rank + 1;
      }
      assert Ranks(rank) == Ranks(worldSize);
      FilledIsWithPods(existing, old(made), rank, Ranks(rank) - existing.Keys, pods, made);
    }

    /** A walk over the listed pods that deletes some of them; a deletion that fails is ignored. */
    method DeleteWhere(order: seq<int>, doomed: set<int>, stuck: set<int>)
      requires doomed <= Elements(order)
      modifies this`pods
      ensures pods == old(pods) - (doomed - stuck)
    {
      for i := 0 to |order|
        invariant pods == old(pods) - (doomed * Elements(order[..i]) - stuck)
      {
        assert Elements(order[..i + 1]) == Elements(order[..i]) + {order[i]};
        if order[i] in doomed && order[i] !in stuck {
          pods := pods - {order[i]};
        }
      }
      assert order[..|order|] == order;
      assert doomed * Elements(order) == doomed;
    }

    /** `updateTrainingStatus`, over the pods as they were listed before the repair. */
    method UpdateTrainingStatus(maxRetries: int, workers: Workers, pass: Pass, ghost s: State)
      requires s.pods == workers && s.status == status && s.worldSize == worldSize
      modifies this`pods, this`status
      ensures pods == old(pods) - ((if Resumes(maxRetries, s) then InPhase(workers, PodFailed) else {}) - pass.stuck)
      ensures status == Written(s.status, NewStatus(maxRetries, s, pass.cost, pass.now), pass.landed)
    {
      var order := Enumerate(workers.Keys);
      var ready, failed, succeeded := CountWorkers(workers, order);
      var prev := status;
      var next := prev.(readyWorkers := ready);
      if succeeded == worldSize && worldSize > 0 {
        next := next.(phase := Succeeded);
        if next.completionTime == None {
          next := next.(completionTime := Some(pass.now));
        }
      } else if failed > 0 {
        if next.resumes < maxRetries {
          next := next.(resumes := next.resumes + 1);
          DeleteWhere(order, InPhase(workers, PodFailed), pass.stuck);
          next := next.(phase := Resuming);
        } else {
          next := next.(phase := Failed);
          if next.completionTime == None {
            next := next.(completionTime := Some(pass.now));
          }
        }
      } else if ready == worldSize && worldSize > 0 {
        next := next.(phase := Running);
        if next.startTime == None {
          next := next.(startTime := Some(pass.now));
        }
      } else {
        next := next.(phase := Pending);
      }
      next := next.(cost := EstimatedCost(next.startTime, pass.cost));
      if StatusEqual(prev, next) {
        return;
      }
      if pass.landed {
        status := next;
      }
    }
  }

  /** The counting loop; the listed pods come in no particular order. */
  method CountWorkers(workers: Workers, order: seq<int>) returns (ready: nat, failed: nat, succeeded: nat)
    requires Distinct(order) && Elements(order) == workers.Keys
    ensures ready == |ReadyRanks(workers)|
    ensures failed == |InPhase(workers, PodFailed)| && (failed > 0 <==> InPhase(workers, PodFailed) != {})
    ensures succeeded == |InPhase(workers, PodSucceeded)|
  {
    ready, failed, succeeded := 0, 0, 0;
    for i := 0 to |order|
      invariant Counts(workers, Elements(order[..i]), ready, failed, succeeded)
    {
      var r := order[i];
      OneSeen(order, i);
      assert r in workers by { assert r in Elements(order); }
      OneMoreWorker(workers, Elements(order[..i]), r, ready, failed, succeeded);
      if workers[r].phase == PodRunning {
        if workers[r].ready {
          ready := ready + 1;
        }
      } else if workers[r].phase == PodSucceeded {
        succeeded := succeeded + 1;
      } else if workers[r].phase == PodFailed {
        failed := failed + 1;
      }
    }
    assert order[..|order|] == order;
    AllCounted(workers, ready, failed, succeeded);
  }

  ghost predicate Counts(workers: Workers, seen: set<int>, ready: nat, failed: nat, succeeded: nat) {
    && ready == |ReadyRanks(workers) * seen|
    && failed == |InPhase(workers, PodFailed) * seen|
    && succeeded == |InPhase(workers, PodSucceeded) * seen|
  }

  lemma AllCounted(workers: Workers, ready: nat, failed: nat, succeeded: nat)
    requires Counts(workers, workers.Keys, ready, failed, succeeded)
    ensures ready == |ReadyRanks(workers)|
    ensures failed == |InPhase(workers, PodFailed)| && (failed > 0 <==> InPhase(workers, PodFailed) != {})
    ensures succeeded == |InPhase(workers, PodSucceeded)|
  {
    assert ReadyRanks(workers) * workers.Keys == ReadyRanks(workers);
    assert InPhase(workers, PodFailed) * workers.Keys == InPhase(workers, PodFailed);
    assert InPhase(workers, PodSucceeded) * workers.Keys == InPhase(workers, PodSucceeded);
  }

  lemma OneSeen(order: seq<int>, i: nat)
    requires Distinct(order) && i < |order|
    ensures order[i] !in Elements(order[..i]) && Elements(order[..i + 1]) == Elements(order[..i]) + {order[i]}
  {
  }

  lemma OneMore(s: set<int>, seen: set<int>, r: int)
    requires r !in seen
    ensures |s * (seen + {r})| == |s * seen| + if r in s then 1 else 0
  {
    assert s * (seen + {r}) == s * seen + if r in s then {r} else {};
  }

  lemma OneMoreWorker(workers: Workers, seen: set<int>, r: int, ready: nat, failed: nat, succeeded: nat)
    requires r !in seen && r in workers && Counts(workers, seen, ready, failed, succeeded)
    ensures Counts(workers, seen + {r},
                   ready + if workers[r].phase == PodRunning && workers[r].ready then 1 else 0,
                   failed + if workers[r].phase == PodFailed then 1 else 0,
                   succeeded + if workers[r].phase == PodSucceeded then 1 else 0)
  {
    OneMore(ReadyRanks(workers), seen, r);
    OneMore(InPhase(workers, PodFailed), seen, r);
    OneMore(InPhase(workers, PodSucceeded), seen, r);
  }

  // ---- runs ----

  datatype Event =
    | Reconcile(pass: Pass)
    | PodMoves(rank: int, pod: Pod)
    | PodRemoved(rank: int)
    | Resized(worldSize: int)

  /** A run just created. */
  function Fresh(worldSize: int): State {
    State(map[], Status(Unset, 0, 0, "", "", None, None), worldSize, map[])
  }

  ghost predicate Step(maxRetries: int, s: State, e: Event, s': State) {
    match e
    case Reconcile(pass) => s' == Reconciled(maxRetries, s, pass)
    case PodMoves(r, p) => r in s.pods && s' == s.(pods := s.pods[r := p])
    case PodRemoved(r) => s' == s.(pods := s.pods - {r})
    case Resized(n) => s' == s.(worldSize := n)
  }

  ghost predicate Run(maxRetries: int, trace: seq<State>, events: seq<Event>) {
    && |trace| == |events| + 1 && trace[0] == Fresh(trace[0].worldSize)
    && forall i | 0 <= i < |events| :: Step(maxRetries, trace[i], events[i], trace[i + 1])
  }

  ghost predicate NeverShrinks(trace: seq<State>) {
    forall i | 0 < i < |trace| :: trace[i - 1].worldSize <= trace[i].worldSize
  }

  // ---- what a pass does, told by the pods and the spec ----

  function CountIn(pods: Workers, p: PodPhase): nat {
    |set r | r in pods && pods[r].phase == p|
  }

  /** Some worker failed, not every rank has succeeded, and a resume is left. */
  predicate AnswersFailure(maxRetries: int, s: State) {
    && !(CountIn(s.pods, PodSucceeded) == s.worldSize && s.worldSize > 0)
    && (exists r :: r in s.pods && s.pods[r].phase == PodFailed)
    && s.status.resumes < maxRetries
  }

  lemma SomeFailed(pods: Workers)
    ensures InPhase(pods, PodFailed) != {} <==> exists r :: r in pods && pods[r].phase == PodFailed
  {
    var failed := InPhase(pods, PodFailed);
    if failed != {} {
      var r := AnElement(failed);
      assert r in pods && pods[r].phase == PodFailed;
    }
    if r :| r in pods && pods[r].phase == PodFailed {
      assert r in failed;
    }
  }

  lemma ResumesMeaning(maxRetries: int, s: State)
    ensures Resumes(maxRetries, s) <==> AnswersFailure(maxRetries, s)
  {
    SomeFailed(s.pods);
    assert InPhase(s.pods, PodSucceeded) == set r | r in s.pods && s.pods[r].phase == PodSucceeded;
  }

  /** The repair of any open run, rank by rank: a listed pod goes exactly when its deletion works and its rank is
      beyond the world size, or it failed and the run resumes; it stays as it is otherwise. A rank gets a pod
      exactly when it is within the world size and none was listed, and that one is counted. */
  lemma RepairMeaning(maxRetries: int, s: State, pass: Pass, r: int)
    requires s.status.phase != Succeeded && s.status.phase != Failed
    ensures var t := Reconciled(maxRetries, s, pass);
            && (r in s.pods ==>
                  && (r !in t.pods <==>
                        && r !in pass.stuck
                        && (r >= s.worldSize || (s.pods[r].phase == PodFailed && AnswersFailure(maxRetries, s))))
                  && (r in t.pods ==> t.pods[r] == s.pods[r])
                  && Tally(t.made, r) == Tally(s.made, r))
            && (r !in s.pods ==>
                  && (r in t.pods <==> 0 <= r < s.worldSize)
                  && (r in t.pods ==> t.pods[r] == Pod(PodPending, false))
                  && Tally(t.made, r) == Tally(s.made, r) + (if 0 <= r < s.worldSize then 1 else 0))
            && t.worldSize == s.worldSize
  {
    ResumesMeaning(maxRetries, s);
    RepairOfRank(maxRetries, s, pass, r, MissingRanks(s), Doomed(maxRetries, s));
  }

  lemma RepairOfRank(maxRetries: int, s: State, pass: Pass, r: int, missing: set<int>, doomed: set<int>)
    requires !Terminal(s.status.phase) && missing == MissingRanks(s) && doomed == Doomed(maxRetries, s)
    ensures var t := Reconciled(maxRetries, s, pass);
            && (r in doomed <==>
                  r in s.pods && (r >= s.worldSize || (s.pods[r].phase == PodFailed && Resumes(maxRetries, s))))
            && (r in t.pods <==> (r in s.pods || r in missing) && !(r in doomed && r !in pass.stuck))
            && (r in t.pods ==> t.pods[r] == if r in s.pods then s.pods[r] else NEW_POD)
            && (r in missing <==> 0 <= r < s.worldSize && r !in s.pods)
            && Tally(t.made, r) == Tally(s.made, r) + (if r in missing then 1 else 0)
            && t.worldSize == s.worldSize
  {
  }

  /** A pass over an open run with nothing stuck leaves no pod beyond the world size; in any run, resized at
      will, the pods it leaves are pods of ranks within it, and every rank within it that did not just fail has
      one. */
  lemma RanksAreRepaired(maxRetries: int, trace: seq<State>, events: seq<Event>, i: nat, r: int)
    requires Run(maxRetries, trace, events) && i < |events|
    requires events[i].Reconcile? && events[i].pass.stuck == {} && !Terminal(trace[i].status.phase)
    ensures r in trace[i + 1].pods <==>
              && 0 <= r < trace[i + 1].worldSize
              && !(r in trace[i].pods && trace[i].pods[r].phase == PodFailed && AnswersFailure(maxRetries, trace[i]))
  {
    assert Step(maxRetries, trace[i], events[i], trace[i + 1]);
    RepairMeaning(maxRetries, trace[i], events[i].pass, r);
    RanksAreNatural(maxRetries, trace, events, i);
  }

  lemma {:induction false} RanksAreNatural(maxRetries: int, trace: seq<State>, events: seq<Event>, i: nat)
    requires Run(maxRetries, trace, events) && i < |trace|
    ensures forall r | r in trace[i].pods :: r >= 0
  {
    if i > 0 {
      RanksAreNatural(maxRetries, trace, events, i - 1);
      var s, e := trace[i - 1], events[i - 1];
      assert Step(maxRetries, s, e, trace[i]);
      if e.Reconcile? && !Terminal(s.status.phase) {
        forall r | r in trace[i].pods ensures r >= 0 {
          RepairMeaning(maxRetries, s, e.pass, r);
        }
      }
    }
  }

  /** The status of an open run after a pass whose write lands, told by the pods that were listed. */
  lemma StatusMeaning(maxRetries: int, s: State, pass: Pass)
    requires s.status.phase != Succeeded && s.status.phase != Failed && pass.landed
    ensures var st, n := Reconciled(maxRetries, s, pass).status, s.worldSize;
            var all := CountIn(s.pods, PodSucceeded) == n && n > 0;
            var failure := exists r :: r in s.pods && s.pods[r].phase == PodFailed;
            var ready := |set r | r in s.pods && s.pods[r].phase == PodRunning && s.pods[r].ready|;
            && st.readyWorkers == ready
            && (st.phase == Succeeded <==> all)
            && (st.phase == Failed <==> !all && failure && s.status.resumes >= maxRetries)
            && (st.phase == Resuming <==> AnswersFailure(maxRetries, s))
            && (st.phase == Running <==> !all && !failure && ready == n && n > 0)
            && (st.phase == Pending <==> !all && !failure && !(ready == n && n > 0))
            && st.resumes == s.status.resumes + (if AnswersFailure(maxRetries, s) then 1 else 0)
            && st.lastCheckpoint == s.status.lastCheckpoint
  {
    ResumesMeaning(maxRetries, s);
    assert InPhase(s.pods, PodSucceeded) == set r | r in s.pods && s.pods[r].phase == PodSucceeded;
    assert ReadyRanks(s.pods) == set r | r in s.pods && s.pods[r].phase == PodRunning && s.pods[r].ready;
    SomeFailed(s.pods);
    LandedStatus(maxRetries, s, pass, NewStatus(maxRetries, s, pass.cost, pass.now));
  }

  /** What is stored then is what was computed, in all that the comparison looks at. */
  lemma LandedStatus(maxRetries: int, s: State, pass: Pass, after: Status)
    requires !Terminal(s.status.phase) && pass.landed && after == NewStatus(maxRetries, s, pass.cost, pass.now)
    ensures StatusEqual(Reconciled(maxRetries, s, pass).status, after)
  {
  }

  // ---- success is real ----

  ghost predicate InRange(s: State) {
    s.pods.Keys <= Ranks(s.worldSize)
  }

  lemma FullSubset(s: set<int>, n: int)
    requires s <= Ranks(n) && n > 0
    ensures |s| == n <==> s == Ranks(n)
  {
    if |s| == n {
      assert Ranks(n) == s + (Ranks(n) - s);
    }
  }

  ghost predicate AllSucceeded(s: State) {
    s.worldSize > 0 && forall r | 0 <= r < s.worldSize :: r in s.pods && s.pods[r].phase == PodSucceeded
  }

  ghost predicate AllReady(s: State) {
    && s.worldSize > 0
    && forall r | 0 <= r < s.worldSize :: r in s.pods && s.pods[r].phase == PodRunning && s.pods[r].ready
  }

  lemma EveryRank(s: State)
    requires InRange(s) && s.worldSize > 0
    ensures InPhase(s.pods, PodSucceeded) == Ranks(s.worldSize) <==> AllSucceeded(s)
    ensures ReadyRanks(s.pods) == Ranks(s.worldSize) <==> AllReady(s)
  {
    var ranks := Ranks(s.worldSize);
    assert InPhase(s.pods, PodSucceeded) <= ranks && ReadyRanks(s.pods) <= ranks;
    forall r | 0 <= r < s.worldSize
      ensures r in ranks
      ensures r in InPhase(s.pods, PodSucceeded) <==> r in s.pods && s.pods[r].phase == PodSucceeded
      ensures r in ReadyRanks(s.pods) <==> r in s.pods && s.pods[r].phase == PodRunning && s.pods[r].ready
    {
    }
  }

  /** With every pod's rank inside the world size, the counts mean what they say: the computed phase is
      Succeeded exactly when every rank has a Succeeded pod, and Running exactly when every rank is ready. */
  lemma CountsMeanAllRanks(maxRetries: int, s: State, cost: Amount, now: Time)
    requires InRange(s)
    ensures var phase := NewStatus(maxRetries, s, cost, now).phase;
            (phase == Succeeded <==> AllSucceeded(s)) && (phase == Running <==> AllReady(s))
  {
    if s.worldSize > 0 {
      FullSubset(InPhase(s.pods, PodSucceeded), s.worldSize);
      FullSubset(ReadyRanks(s.pods), s.worldSize);
      EveryRank(s);
      assert AllReady(s) ==> 0 !in InPhase(s.pods, PodSucceeded) && InPhase(s.pods, PodFailed) == {} by {
        assert forall r | r in s.pods :: r in Ranks(s.worldSize);
      }
    }
  }

  lemma {:induction false} AlwaysInRange(maxRetries: int, trace: seq<State>, events: seq<Event>, i: nat)
    requires Run(maxRetries, trace, events) && NeverShrinks(trace) && i < |trace|
    ensures InRange(trace[i])
  {
    if i > 0 {
      AlwaysInRange(maxRetries, trace, events, i - 1);
      assert Step(maxRetries, trace[i - 1], events[i - 1], trace[i]);
      assert trace[i - 1].worldSize <= trace[i].worldSize;
    }
  }

  lemma {:induction false} PassSuccessIsReal(maxRetries: int, s: State, pass: Pass)
    requires InRange(s)
    ensures var s' := Reconciled(maxRetries, s, pass);
            && (s.status.phase != Succeeded && s'.status.phase == Succeeded ==> AllSucceeded(s))
            && (s.status.phase != Running && s'.status.phase == Running ==> AllReady(s))
  {
    CountsMeanAllRanks(maxRetries, s, pass.cost, pass.now);
  }

  /** In any run whose world size is never lowered, whatever is lost, stuck or removed: the phase turns
      Succeeded only in a pass that finds a Succeeded pod for every rank, and Running only in one that
      finds every rank ready. */
  lemma {:induction false} SuccessIsReal(maxRetries: int, trace: seq<State>, events: seq<Event>, i: nat)
    requires Run(maxRetries, trace, events) && NeverShrinks(trace) && i < |events|
    ensures trace[i].status.phase != Succeeded && trace[i + 1].status.phase == Succeeded ==> AllSucceeded(trace[i])
    ensures trace[i].status.phase != Running && trace[i + 1].status.phase == Running ==> AllReady(trace[i])
  {
    AlwaysInRange(maxRetries, trace, events, i);
    assert Step(maxRetries, trace[i], events[i], trace[i + 1]);
    if events[i].Reconcile? {
      PassSuccessIsReal(maxRetries, trace[i], events[i].pass);
    }
  }

  /** Exactly when a computed success is real, in any state: no rank outside the world size succeeded,
      which is what the count does not look at. */
  lemma SuccessIsRealExactly(maxRetries: int, s: State, cost: Amount, now: Time)
    requires NewStatus(maxRetries, s, cost, now).phase == Succeeded
    ensures InPhase(s.pods, PodSucceeded) == Ranks(s.worldSize)
            <==> InPhase(s.pods, PodSucceeded) <= Ranks(s.worldSize)
  {
    if InPhase(s.pods, PodSucceeded) <= Ranks(s.worldSize) {
      FullSubset(InPhase(s.pods, PodSucceeded), s.worldSize);
    }
  }

  lemma FirstRepair(maxRetries: int, pass: Pass, s: State)
    requires s == Reconciled(maxRetries, Fresh(2), pass)
    ensures s.pods == map[0 := NEW_POD, 1 := NEW_POD] && s.worldSize == 2 && !Terminal(s.status.phase)
  {
    var s0 := Fresh(2);
    var missing := MissingRanks(s0);
    assert missing == {0, 1};
    assert InPhase(s0.pods, PodFailed) == {} && InPhase(s0.pods, PodSucceeded) == {};
    assert Doomed(maxRetries, s0) == {};
  }

  lemma FalseSuccess(maxRetries: int, pass: Pass, s: State)
    requires s.pods == map[0 := Pod(PodRunning, true), 1 := Pod(PodSucceeded, false)] && s.worldSize == 1
    requires !Terminal(s.status.phase) && pass.landed
    ensures Reconciled(maxRetries, s, pass).status.phase == Succeeded
  {
    assert InPhase(s.pods, PodSucceeded) == {1};
  }

  /** From the first repair on: rank 0 runs, rank 1 succeeds, the world size drops to one. */
  lemma ShrinkingEvents(maxRetries: int, s1: State) returns (s2: State, s3: State, s4: State)
    requires s1.pods == map[0 := NEW_POD, 1 := NEW_POD]
    ensures Step(maxRetries, s1, PodMoves(0, Pod(PodRunning, true)), s2)
    ensures Step(maxRetries, s2, PodMoves(1, Pod(PodSucceeded, false)), s3)
    ensures Step(maxRetries, s3, Resized(1), s4)
    ensures s4.pods == map[0 := Pod(PodRunning, true), 1 := Pod(PodSucceeded, false)]
    ensures s4.worldSize == 1 && s4.status == s1.status
  {
    s2 := s1.(pods := s1.pods[0 := Pod(PodRunning, true)]);
    s3 := s2.(pods := s2.pods[1 := Pod(PodSucceeded, false)]);
    s4 := s3.(worldSize := 1);
  }

  /** Lowering the world size breaks it. A run: of two ranks the second succeeds, the size drops to one,
      and the next pass declares Succeeded although the only remaining rank still runs. */
  lemma ShrinkingFakesSuccess(maxRetries: int, pass: Pass) returns (trace: seq<State>, events: seq<Event>)
    requires pass.landed
    ensures Run(maxRetries, trace, events) && |events| == 5 && events[3] == Resized(1)
    ensures trace[4].worldSize == 1 && 0 in trace[4].pods && trace[4].pods[0].phase == PodRunning
    ensures trace[5].status.phase == Succeeded
  {
    var s1 := Reconciled(maxRetries, Fresh(2), pass);
    FirstRepair(maxRetries, pass, s1);
    var s2, s3, s4 := ShrinkingEvents(maxRetries, s1);
    FalseSuccess(maxRetries, pass, s4);
    trace, events := FiveSteps(
      maxRetries, Fresh(2), s1, s2, s3, s4, Reconciled(maxRetries, s4, pass),
      Reconcile(pass), PodMoves(0, Pod(PodRunning, true)), PodMoves(1, Pod(PodSucceeded, false)), Resized(1));
  }

  lemma FiveSteps(maxRetries: int, s0: State, s1: State, s2: State, s3: State, s4: State, s5: State,
                  e0: Event, e1: Event, e2: Event, e3: Event)
    returns (trace: seq<State>, events: seq<Event>)
    requires s0 == Fresh(s0.worldSize) && Step(maxRetries, s0, e0, s1) && Step(maxRetries, s1, e1, s2)
    requires Step(maxRetries, s2, e2, s3) && Step(maxRetries, s3, e3, s4) && Step(maxRetries, s4, e0, s5)
    ensures Run(maxRetries, trace, events) && events == [e0, e1, e2, e3, e0]
    ensures trace == [s0, s1, s2, s3, s4, s5]
  {
    var step := (s: State, e: Event, t: State) => Step(maxRetries, s, e, t);
    trace, events := Chained(step, s0, s1, s2, s3, s4, s5, e0, e1, e2, e3);
    LinkedIsRun(maxRetries, step, trace, events);
  }

  /** The same with the step left open. */
  ghost predicate Linked(step: (State, Event, State) -> bool, trace: seq<State>, events: seq<Event>) {
    |trace| == |events| + 1 && forall i | 0 <= i < |events| :: step(trace[i], events[i], trace[i + 1])
  }

  lemma Chained(step: (State, Event, State) -> bool, s0: State, s1: State, s2: State, s3: State, s4: State, s5: State,
                e0: Event, e1: Event, e2: Event, e3: Event) returns (trace: seq<State>, events: seq<Event>)
    requires step(s0, e0, s1) && step(s1, e1, s2) && step(s2, e2, s3) && step(s3, e3, s4) && step(s4, e0, s5)
    ensures Linked(step, trace, events)
    ensures trace == [s0, s1, s2, s3, s4, s5] && events == [e0, e1, e2, e3, e0]
  {
    trace, events := [s0, s1, s2, s3, s4, s5], [e0, e1, e2, e3, e0];
    forall i | 0 <= i < 5 ensures step(trace[i], events[i], trace[i + 1]) {
      assert i == 0 || i == 1 || i == 2 || i == 3 || i == 4;
    }
  }

  lemma LinkedIsRun(maxRetries: int, step: (State, Event, State) -> bool, trace: seq<State>, events: seq<Event>)
    requires forall s, e, t :: step(s, e, t) == Step(maxRetries, s, e, t)
    requires Linked(step, trace, events) && trace[0] == Fresh(trace[0].worldSize)
    ensures Run(maxRetries, trace, events)
  {
    forall i | 0 <= i < |events| ensures Step(maxRetries, trace[i], events[i], trace[i + 1]) {
      assert step(trace[i], events[i], trace[i + 1]);
    }
  }

  // ---- the resume budget ----

  /** Every call of the pass succeeds. */
  predicate Clean(e: Event) {
    match e
    case Reconcile(pass) => pass.stuck == {} && pass.landed
    case PodMoves(_, _) => true
    case PodRemoved(_) => false
    case Resized(_) => true
  }

  ghost predicate CleanRun(maxRetries: int, trace: seq<State>, events: seq<Event>) {
    && Run(maxRetries, trace, events) && NeverShrinks(trace)
    && forall e | e in events :: Clean(e)
  }

  ghost predicate WithinBudget(maxRetries: int, s: State) {
    && 0 <= s.status.resumes <= Max(maxRetries, 0)
    && (s.status.phase == Failed ==> s.status.resumes >= maxRetries)
  }

  /** A present pod is the last of at most `1 + resumes`; an absent one has been one of at most `resumes`. */
  ghost predicate PodsWithinBudget(s: State) {
    forall r :: Tally(s.made, r) <= s.status.resumes + if r in s.pods then 1 else 0
  }

  lemma NewStatusBudget(maxRetries: int, s: State, cost: Amount, now: Time)
    requires WithinBudget(maxRetries, s)
    ensures var after := NewStatus(maxRetries, s, cost, now);
            WithinBudget(maxRetries, s.(status := after)) && s.status.resumes <= after.resumes <= s.status.resumes + 1
  {
  }

  lemma BudgetStep(maxRetries: int, s: State, e: Event, s': State)
    requires WithinBudget(maxRetries, s) && Step(maxRetries, s, e, s')
    ensures WithinBudget(maxRetries, s') && s.status.resumes <= s'.status.resumes <= s.status.resumes + 1
  {
    if e.Reconcile? && !Terminal(s.status.phase) {
      var after := NewStatus(maxRetries, s, e.pass.cost, e.pass.now);
      NewStatusBudget(maxRetries, s, e.pass.cost, e.pass.now);
      assert s'.status == s.status || s'.status == after;
    }
  }

  lemma PodBudgetStep(maxRetries: int, s: State, e: Event, s': State)
    requires PodsWithinBudget(s) && InRange(s) && WithinBudget(maxRetries, s)
    requires Step(maxRetries, s, e, s') && Clean(e)
    ensures PodsWithinBudget(s')
  {
    BudgetStep(maxRetries, s, e, s');
    if e.Reconcile? && !Terminal(s.status.phase) {
      var missing := MissingRanks(s);
      forall r ensures Tally(s'.made, r) <= s'.status.resumes + if r in s'.pods then 1 else 0 {
        assert Tally(s'.made, r) == Tally(s.made, r) + if r in missing then 1 else 0;
        if r in Doomed(maxRetries, s) {
          assert Resumes(maxRetries, s);
          assert s'.status.resumes == s.status.resumes + 1;
        }
      }
    }
  }

  /** The budget, whatever is lost, stuck, removed or resized: however many workers fail in one pass, the
      resumes grow by at most one, never fall and never exceed the limit, and Failed implies they are spent. */
  lemma {:induction false} ResumeBudget(maxRetries: int, trace: seq<State>, events: seq<Event>, i: nat)
    requires Run(maxRetries, trace, events) && i < |trace|
    ensures WithinBudget(maxRetries, trace[i])
    ensures i > 0 ==> trace[i - 1].status.resumes <= trace[i].status.resumes <= trace[i - 1].status.resumes + 1
  {
    if i > 0 {
      ResumeBudget(maxRetries, trace, events, i - 1);
      assert Step(maxRetries, trace[i - 1], events[i - 1], trace[i]);
      BudgetStep(maxRetries, trace[i - 1], events[i - 1], trace[i]);
    }
  }

  /** When calls succeed and nobody else deletes pods, each rank has had at most one pod more than there
      were resumes. */
  lemma {:induction false} PodBudget(maxRetries: int, trace: seq<State>, events: seq<Event>, i: nat)
    requires CleanRun(maxRetries, trace, events) && i < |trace|
    ensures PodsWithinBudget(trace[i])
    ensures forall r :: Tally(trace[i].made, r) <= 1 + trace[i].status.resumes
  {
    if i > 0 {
      PodBudget(maxRetries, trace, events, i - 1);
      ResumeBudget(maxRetries, trace, events, i - 1);
      AlwaysInRange(maxRetries, trace, events, i - 1);
      assert Step(maxRetries, trace[i - 1], events[i - 1], trace[i]) && events[i - 1] in events;
      PodBudgetStep(maxRetries, trace[i - 1], events[i - 1], trace[i]);
    }
  }

  // ---- the cheap status comparison ----

  ghost predicate Timed(s: State) {
    && (s.status.phase == Running ==> s.status.startTime.Some?)
    && (Terminal(s.status.phase) <==> s.status.completionTime.Some?)
  }

  predicate Keeps(t: Option<Time>, t': Option<Time>) {
    t.Some? ==> t' == t
  }

  lemma NewStatusTimed(maxRetries: int, s: State, cost: Amount, now: Time)
    requires Timed(s) && !Terminal(s.status.phase)
    ensures var after := NewStatus(maxRetries, s, cost, now);
            Timed(s.(status := after)) && Keeps(s.status.startTime, after.startTime)
  {
  }

  lemma TimedStep(maxRetries: int, s: State, e: Event, s': State)
    requires Timed(s) && Step(maxRetries, s, e, s')
    ensures Timed(s')
    ensures Keeps(s.status.startTime, s'.status.startTime) && Keeps(s.status.completionTime, s'.status.completionTime)
    ensures Terminal(s.status.phase) ==> s'.status == s.status
  {
    if e.Reconcile? && !Terminal(s.status.phase) {
      var after := NewStatus(maxRetries, s, e.pass.cost, e.pass.now);
      NewStatusTimed(maxRetries, s, e.pass.cost, e.pass.now);
      assert s'.status == s.status || s'.status == after;
    }
  }

  /** In every run: a Running run has a start time, exactly the finished runs have a completion time, and
      neither changes once set. */
  lemma {:induction false} TimesAreSound(maxRetries: int, trace: seq<State>, events: seq<Event>, i: nat, j: nat)
    requires Run(maxRetries, trace, events) && i <= j < |trace|
    ensures Timed(trace[i]) && Timed(trace[j])
    ensures Keeps(trace[i].status.startTime, trace[j].status.startTime)
    ensures Keeps(trace[i].status.completionTime, trace[j].status.completionTime)
    ensures Terminal(trace[i].status.phase) ==> trace[j].status == trace[i].status
    decreases j
  {
    if j > 0 {
      TimesAreSound(maxRetries, trace, events, if i < j then i else j - 1, j - 1);
      assert Step(maxRetries, trace[j - 1], events[j - 1], trace[j]);
      TimedStep(maxRetries, trace[j - 1], events[j - 1], trace[j]);
    }
  }

  /** When a pass notes a time and what it says of the cost; a lost write changes no status, and a finished run is
      left alone. */
  lemma PassRecordsTimes(maxRetries: int, s: State, pass: Pass)
    requires Timed(s)
    ensures var t := Reconciled(maxRetries, s, pass);
            && (Terminal(s.status.phase) ==> t == s)
            && (!pass.landed ==> t.status == s.status)
            && (pass.landed && !Terminal(s.status.phase) ==>
                  && t.status.startTime == (if s.status.startTime == None && t.status.phase == Running
                                            then Some(pass.now) else s.status.startTime)
                  && t.status.completionTime == (if Terminal(t.status.phase) then Some(pass.now) else None)
                  && t.status.cost == (if t.status.startTime == None then "0.00" else pass.cost))
  {
    if pass.landed && !Terminal(s.status.phase) {
      var after := NewStatus(maxRetries, s, pass.cost, pass.now);
      SameWhenEqual(maxRetries, s, pass.cost, pass.now);
      assert Reconciled(maxRetries, s, pass).status == after;
    }
  }

  lemma SameWhenEqual(maxRetries: int, s: State, cost: Amount, now: Time)
    requires Timed(s) && !Terminal(s.status.phase)
    ensures var after := NewStatus(maxRetries, s, cost, now);
            StatusEqual(s.status, after) ==> after == s.status
  {
  }

  /** So a write that the comparison skips loses nothing at all. */
  lemma ComparisonIsSound(maxRetries: int, trace: seq<State>, events: seq<Event>, i: nat, cost: Amount, now: Time)
    requires Run(maxRetries, trace, events) && i < |trace| && !Terminal(trace[i].status.phase)
    ensures var after := NewStatus(maxRetries, trace[i], cost, now);
            StatusEqual(trace[i].status, after) ==> after == trace[i].status
  {
    TimesAreSound(maxRetries, trace, events, i, i);
  }
}
