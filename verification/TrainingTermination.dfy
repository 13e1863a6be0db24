/** Training runs end: every step that does something uses up a bounded measure, and nothing gets stuck. */
module TrainingTermination {
  import opened Common
  import opened TrainingRuns

  /** The steps a pod still has to take: to run (or be lost sight of), and to finish. */
  function Weight(p: Pod): nat {
    match p.phase
    case PodUnset => 2
    case PodPending => 2
    case PodRunning => 1
    case PodUnknown => 1
    case PodSucceeded => 0
    case PodFailed => 0
  }

  /** A rank without a pod also has to get one. */
  function Left(pods: Workers, r: int): nat {
    if r in pods then Weight(pods[r]) else 3
  }

  function Remaining(pods: Workers, n: nat): (steps: nat)
    ensures steps <= 3 * n
  {
    if n == 0 then 0 else Remaining(pods, n - 1) + Left(pods, n - 1)
  }

  /** A resume is worth more than all the steps it can bring back. */
  function Worth(resumesLeft: int, n: nat): int {
    resumesLeft * (3 * n + 2)
  }

  lemma OneFewer(resumesLeft: int, n: nat)
    ensures Worth(resumesLeft - 1, n) == Worth(resumesLeft, n) - (3 * n + 2)
    ensures resumesLeft >= 0 ==> Worth(resumesLeft, n) >= 0
  {
  }

  /** Resumes left, then steps left, then whether the run is still open, as one number. */
  function Measure(maxRetries: int, s: State): int {
    Worth(Max(maxRetries, 0) - s.status.resumes, Max(s.worldSize, 0))
    + Remaining(s.pods, Max(s.worldSize, 0))
    + if Terminal(s.status.phase) then 0 else 1
  }

  /** Pods only move forward: between passes no pod gets further from its end. */
  predicate Forward(s: State, e: Event) {
    e.PodMoves? && e.rank in s.pods ==> Weight(e.pod) <= Weight(s.pods[e.rank])
  }

  /** A clean run with a fixed, positive world size. */
  ghost predicate SteadyRun(maxRetries: int, trace: seq<State>, events: seq<Event>) {
    && CleanRun(maxRetries, trace, events) && trace[0].worldSize > 0
    && (forall i | 0 <= i < |trace| :: trace[i].worldSize == trace[0].worldSize)
    && (forall i | 0 <= i < |events| :: Forward(trace[i], events[i]))
  }

  /** A pod advances, or a pass creates or deletes a pod or ends the run. */
  predicate Progress(s: State, e: Event, s': State) {
    match e
    case PodMoves(r, p) => r in s.pods && Weight(p) < Weight(s.pods[r])
    case Reconcile(_) => s'.pods != s.pods || (Terminal(s'.status.phase) && !Terminal(s.status.phase))
    case PodRemoved(_) => false
    case Resized(_) => false
  }

  // ---- sums over the ranks ----

  lemma {:induction false} RemainingFalls(a: Workers, b: Workers, n: nat)
    requires forall r | 0 <= r < n :: Left(b, r) <= Left(a, r)
    ensures Remaining(b, n) <= Remaining(a, n)
    ensures forall r | 0 <= r < n && Left(b, r) < Left(a, r) :: Remaining(b, n) < Remaining(a, n)
  {
    if n > 0 {
      RemainingFalls(a, b, n - 1);
    }
  }

  // ---- one step ----

  lemma MoveMeasured(maxRetries: int, s: State, r: int, p: Pod, s': State)
    requires InRange(s) && r in s.pods && s' == s.(pods := s.pods[r := p])
    requires Weight(p) <= Weight(s.pods[r])
    ensures Measure(maxRetries, s') <= Measure(maxRetries, s)
    ensures Weight(p) < Weight(s.pods[r]) ==> Measure(maxRetries, s') < Measure(maxRetries, s)
  {
    RemainingFalls(s.pods, s'.pods, Max(s.worldSize, 0));
    assert r in Ranks(s.worldSize) && Left(s'.pods, r) == Weight(p);
  }

  lemma AddingPods(pods: Workers, ranks: set<int>, r: int)
    requires ranks !! pods.Keys
    ensures Left(WithPods(pods, ranks), r) == if r in ranks then 2 else Left(pods, r)
    ensures r in ranks ==> Left(pods, r) == 3
  {
  }

  lemma RepairedRemaining(before: Workers, missing: set<int>, after: Workers, n: nat)
    requires missing == Ranks(n) - before.Keys && after == WithPods(before, missing)
    ensures Remaining(after, n) <= Remaining(before, n)
    ensures missing != {} ==> Remaining(after, n) < Remaining(before, n)
  {
    forall r | 0 <= r < n ensures Left(after, r) <= Left(before, r) {
      AddingPods(before, missing, r);
    }
    RemainingFalls(before, after, n);
    if missing != {} {
      var r :| r in missing;
      AddingPods(before, missing, r);
    }
  }

  lemma NoneDoomed(maxRetries: int, s: State, pods: Workers, stuck: set<int>)
    requires InRange(s) && !Resumes(maxRetries, s)
    ensures pods - (Doomed(maxRetries, s) - stuck) == pods
  {
  }

  lemma NothingAdded(pods: Workers)
    ensures WithPods(pods, {}) == pods
  {
  }

  lemma SameResumes(maxRetries: int, s: State, cost: Amount, now: Time)
    requires !Resumes(maxRetries, s)
    ensures NewStatus(maxRetries, s, cost, now).resumes == s.status.resumes
  {
  }

  lemma {:induction false} RepairOnlyAdds(maxRetries: int, s: State, pass: Pass, s': State)
    requires InRange(s) && !Terminal(s.status.phase) && !Resumes(maxRetries, s)
    requires s' == Reconciled(maxRetries, s, pass)
    ensures s'.pods == WithPods(s.pods, MissingRanks(s)) && (MissingRanks(s) == {} ==> s'.pods == s.pods)
    ensures s'.worldSize == s.worldSize && s'.status.resumes == s.status.resumes
  {
    NoneDoomed(maxRetries, s, WithPods(s.pods, MissingRanks(s)), pass.stuck);
    NothingAdded(s.pods);
    SameResumes(maxRetries, s, pass.cost, pass.now);
  }

  /** A pass that does not resume only adds pods. */
  lemma RepairMeasured(maxRetries: int, s: State, pass: Pass, s': State)
    requires InRange(s) && Clean(Reconcile(pass)) && s' == Reconciled(maxRetries, s, pass)
    requires !Terminal(s.status.phase) && !Resumes(maxRetries, s)
    ensures Measure(maxRetries, s') <= Measure(maxRetries, s)
    ensures Progress(s, Reconcile(pass), s') ==> Measure(maxRetries, s') < Measure(maxRetries, s)
  {
    RepairOnlyAdds(maxRetries, s, pass, s');
    RepairLowers(maxRetries, s, MissingRanks(s), s');
  }

  lemma {:induction false} RepairLowers(maxRetries: int, s: State, missing: set<int>, s': State)
    requires !Terminal(s.status.phase) && missing == Ranks(s.worldSize) - s.pods.Keys
    requires s'.pods == WithPods(s.pods, missing) && (missing == {} ==> s'.pods == s.pods)
    requires s'.worldSize == s.worldSize && s'.status.resumes == s.status.resumes
    ensures Measure(maxRetries, s') <= Measure(maxRetries, s)
    ensures s'.pods != s.pods || Terminal(s'.status.phase) ==> Measure(maxRetries, s') < Measure(maxRetries, s)
  {
    var n := Max(s.worldSize, 0);
    assert missing == Ranks(n) - s.pods.Keys;
    RepairedRemaining(s.pods, missing, s'.pods, n);
  }

  /** A pass that resumes pays one unit of budget for the steps it brings back. */
  lemma {:induction false} ResumeMeasured(maxRetries: int, s: State, pass: Pass, s': State)
    requires Clean(Reconcile(pass)) && s' == Reconciled(maxRetries, s, pass)
    requires !Terminal(s.status.phase) && Resumes(maxRetries, s)
    ensures s'.status.resumes == s.status.resumes + 1 && s'.worldSize == s.worldSize
    ensures Measure(maxRetries, s') < Measure(maxRetries, s)
  {
    OneFewer(Max(maxRetries, 0) - s.status.resumes, Max(s.worldSize, 0));
  }

  /** The measure: no step of a steady run raises it, and every step that does something lowers it. */
  lemma {:induction false} StepMeasured(maxRetries: int, s: State, e: Event, s': State)
    requires InRange(s) && Step(maxRetries, s, e, s') && Clean(e) && Forward(s, e) && s'.worldSize == s.worldSize
    ensures Measure(maxRetries, s') <= Measure(maxRetries, s)
    ensures Progress(s, e, s') ==> Measure(maxRetries, s') < Measure(maxRetries, s)
  {
    match e
    case PodMoves(r, p) => MoveMeasured(maxRetries, s, r, p, s');
    case Reconcile(pass) =>
      if !Terminal(s.status.phase) {
        if Resumes(maxRetries, s) {
          ResumeMeasured(maxRetries, s, pass, s');
        } else {
          RepairMeasured(maxRetries, s, pass, s');
        }
      }
    case PodRemoved(_) =>
    case Resized(_) =>
  }

  // ---- whole runs ----

  /** How many of the first `i` events did something. */
  ghost function Progressed(trace: seq<State>, events: seq<Event>, i: nat): nat
    requires i <= |events| && |trace| == |events| + 1
  {
    if i == 0 then 0
    else Progressed(trace, events, i - 1) + if Progress(trace[i - 1], events[i - 1], trace[i]) then 1 else 0
  }

  lemma {:induction false} ProgressIsPaidFor(maxRetries: int, trace: seq<State>, events: seq<Event>, i: nat)
    requires SteadyRun(maxRetries, trace, events) && i <= |events|
    ensures Progressed(trace, events, i) + Measure(maxRetries, trace[i]) <= Measure(maxRetries, trace[0])
  {
    if i > 0 {
      ProgressIsPaidFor(maxRetries, trace, events, i - 1);
      AlwaysInRange(maxRetries, trace, events, i - 1);
      assert Step(maxRetries, trace[i - 1], events[i - 1], trace[i]);
      assert events[i - 1] in events && Forward(trace[i - 1], events[i - 1]);
      StepMeasured(maxRetries, trace[i - 1], events[i - 1], trace[i]);
    }
  }

  function MostSteps(maxRetries: int, worldSize: nat): nat {
    (Max(maxRetries, 0) + 1) * (3 * worldSize + 2) - 1
  }

  lemma {:induction false} NothingMade(pods: Workers, n: nat)
    requires pods == map[]
    ensures Remaining(pods, n) == 3 * n
  {
    if n > 0 {
      NothingMade(pods, n - 1);
    }
  }

  lemma MeasureAtStart(maxRetries: int, n: nat)
    ensures Measure(maxRetries, Fresh(n)) == MostSteps(maxRetries, n)
  {
    NothingMade(Fresh(n).pods, n);
    OneFewer(Max(maxRetries, 0) + 1, n);
  }

  lemma OpenMeansMore(maxRetries: int, s: State)
    requires WithinBudget(maxRetries, s)
    ensures Measure(maxRetries, s) >= if Terminal(s.status.phase) then 0 else 1
  {
  }

  /** Every run with a fixed world size, working calls and no outside deletions takes at most
      `(maxRetries + 1) * (3 * worldSize + 2) - 1` steps that do anything, however many passes and readiness
      changes come between them; a run that has taken that many has ended. */
  lemma {:induction false} TrainingTerminates(maxRetries: int, trace: seq<State>, events: seq<Event>, i: nat)
    requires SteadyRun(maxRetries, trace, events) && i <= |events|
    ensures Progressed(trace, events, i) <= MostSteps(maxRetries, trace[0].worldSize)
    ensures Progressed(trace, events, i) == MostSteps(maxRetries, trace[0].worldSize)
            ==> Terminal(trace[i].status.phase)
  {
    ProgressIsPaidFor(maxRetries, trace, events, i);
    ResumeBudget(maxRetries, trace, events, i);
    MeasureAtStart(maxRetries, trace[0].worldSize);
    OpenMeansMore(maxRetries, trace[i]);
  }

  /** Nothing gets stuck: while the run is open, either some pod can still advance or the next working pass
      does something. */
  lemma NeverStuck(maxRetries: int, s: State, pass: Pass)
    requires InRange(s) && s.worldSize > 0 && !Terminal(s.status.phase) && Clean(Reconcile(pass))
    ensures (exists r :: r in s.pods && Weight(s.pods[r]) > 0)
            || Progress(s, Reconcile(pass), Reconciled(maxRetries, s, pass))
  {
    var s' := Reconciled(maxRetries, s, pass);
    if forall r | r in s.pods :: Weight(s.pods[r]) == 0 {
      if MissingRanks(s) != {} {
        var r :| r in MissingRanks(s);
        assert r in s'.pods && r !in s.pods;
      } else if Resumes(maxRetries, s) {
        var r :| r in InPhase(s.pods, PodFailed);
        assert r in s.pods && r !in s'.pods;
      } else {
        AllFinishedEnds(maxRetries, s, pass.cost, pass.now);
      }
    }
  }

  lemma AllFinishedEnds(maxRetries: int, s: State, cost: Amount, now: Time)
    requires InRange(s) && s.worldSize > 0 && MissingRanks(s) == {} && !Resumes(maxRetries, s)
    requires forall r | r in s.pods :: Weight(s.pods[r]) == 0
    ensures Terminal(NewStatus(maxRetries, s, cost, now).phase)
  {
    EveryRank(s);
    FullSubset(InPhase(s.pods, PodSucceeded), s.worldSize);
    if InPhase(s.pods, PodFailed) == {} {
      forall r | 0 <= r < s.worldSize ensures r in s.pods && s.pods[r].phase == PodSucceeded {
        assert r !in MissingRanks(s) && r in Ranks(s.worldSize);
        assert r !in InPhase(s.pods, PodFailed);
      }
    }
  }
}
