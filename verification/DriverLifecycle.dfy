/** A SparkJob that runs by itself: its driver pod, its retry budget and its status. */
module DriverLifecycle {
  import opened Common
  import Env = ExecutorEnv
  import Executors

  /** The part of a SparkJob's spec the reconciler reads; the desired executor count is computed from it. */
  datatype Spec = Spec(
    driverName: string,
    sizing: Executors.Sizing,
    maxRetries: int,
    env: seq<Env.EnvVar>,
    envFrom: seq<Env.EnvFrom>)

  /** `awaiting` is the object named by a DependenciesReady=False condition. */
  datatype Status = Status(
    phase: Phase,
    desired: int,
    running: int,
    driverPod: string,
    retries: int,
    cost: string,
    startTime: Option<Time>,
    completionTime: Option<Time>,
    awaiting: Option<Env.Derived>)

  datatype Driver = Driver(uid: string, phase: PodPhase)

  /** The stored status and the driver pod; the counters are history: drivers created, deleted by the
      controller, removed by others, and status writes issued but lost to a conflict. */
  datatype State = State(
    status: Status,
    driver: Option<Driver>,
    created: nat,
    deleted: nat,
    removed: nat,
    lost: nat)

  /** What one pass meets: the objects and pods of the namespace, the uid a new pod would get, the amount a
      started job has cost by now, the clock, and whether a deletion and a status write succeed. */
  datatype Pass = Pass(
    objects: Env.Objects,
    pods: seq<Executors.Pod>,
    freshUid: string,
    cost: Amount,
    now: Time,
    deletes: bool,
    landed: bool)

  /** `equalStatus`: the times are not compared. */
  predicate StatusEqual(a: Status, b: Status) {
    && a.phase == b.phase && a.running == b.running && a.desired == b.desired
    && a.driverPod == b.driverPod && a.retries == b.retries && a.cost == b.cost
  }

  /** Issue a write of `after`. */
  function Write(s: State, after: Status, landed: bool): State {
    if landed then s.(status := after) else s.(lost := s.lost + 1)
  }

  /** `markAwaiting`. */
  function MarkAwaiting(s: State, dep: Env.Derived, landed: bool): State {
    if s.status.awaiting == Some(dep) && s.status.phase == Pending then s
    else Write(s, s.status.(awaiting := Some(dep), phase := Pending), landed)
  }

  /** Once the wait for an object is recorded, waiting for it on costs nothing: whatever else is in the
      store, the write says what is missing and that the job is Pending, changes nothing else, and a second
      pass that misses the same object writes nothing. */
  lemma AwaitingSettles(spec: Spec, s: State, first: Pass, second: Pass, dep: Env.Derived)
    requires !Terminal(s.status.phase) && s.driver.None? && first.landed && dep.Missing?
    requires Env.Outcome(spec.env, spec.envFrom, first.objects, 0) == dep
    requires Env.Outcome(spec.env, spec.envFrom, second.objects, 0) == dep
    ensures var t := Reconciled(spec, s, first);
            && t.status.awaiting == Some(dep) && t.status.phase == Pending
            && t == s.(status := t.status) && t.status == s.status.(awaiting := Some(dep), phase := Pending)
            && Reconciled(spec, t, second) == t
  {
  }

  function SetOnce(t: Option<Time>, now: Time): Option<Time> {
    if t.Some? then t else Some(now)
  }

  function Retries(spec: Spec, st: Status): bool {
    st.retries < spec.maxRetries
  }

  /** The status a pass computes from a driver pod. */
  function NewStatus(spec: Spec, st: Status, phase: PodPhase, running: int, cost: Amount, now: Time): Status {
    var base := st.(desired := Executors.DesiredExecutorCount(spec.sizing), running := running,
                    driverPod := spec.driverName, cost := EstimatedCost(st.startTime, cost));
    match phase
    case PodPending => base.(phase := Pending)
    case PodRunning => base.(phase := Running, startTime := SetOnce(st.startTime, now), cost := cost)
    case PodSucceeded => base.(phase := Succeeded, completionTime := SetOnce(st.completionTime, now))
    case PodFailed =>
      if Retries(spec, st) then base.(phase := Resuming, retries := st.retries + 1)
      else base.(phase := Failed, completionTime := SetOnce(st.completionTime, now))
    case _ => base
  }

  /** A failed driver with budget left is deleted, if the deletion works. */
  function DropDriver(spec: Spec, s: State, pass: Pass): State
    requires s.driver.Some?
  {
    if s.driver.value.phase == PodFailed && Retries(spec, s.status) && pass.deletes
    then s.(driver := None, deleted := s.deleted + 1)
    else s
  }

  /** `updateStatus`. */
  ghost function UpdateStatus(spec: Spec, s: State, pass: Pass): State
    requires s.driver.Some?
  {
    var d := s.driver.value;
    var after := NewStatus(spec, s.status, d.phase, |Executors.RunningAt(pass.pods, d.uid)|, pass.cost, pass.now);
    var t := DropDriver(spec, s, pass);
    if StatusEqual(s.status, after) then t else Write(t, after, pass.landed)
  }

  /** `Reconcile` of a job without a schedule. */
  ghost function Reconciled(spec: Spec, s: State, pass: Pass): State {
    if Terminal(s.status.phase) then s
    else if s.driver.None? then
      var derived := Env.Outcome(spec.env, spec.envFrom, pass.objects, 0);
      if derived.Missing? then MarkAwaiting(s, derived, pass.landed)
      else s.(driver := Some(Driver(pass.freshUid, PodPending)), created := s.created + 1)
    else UpdateStatus(spec, s, pass)
  }

  // ---- the reconciler ----

  class SparkJob {
    var status: Status
    var driver: Option<Driver>
    ghost var created: nat
    ghost var deleted: nat
    ghost var removed: nat
    ghost var lost: nat

    constructor ()
      ensures View() == Fresh()
    {
      status := Status(Unset, 0, 0, "", 0, "", None, None, None);
      driver := None;
      created, deleted, removed, lost := 0, 0, 0, 0;
    }

    ghost function View(): State
      reads this
    {
      State(status, driver, created, deleted, removed, lost)
    }

    /** `r.Status().Update`, whose conflicts are ignored or end the pass with the store untouched. */
    method WriteStatus(after: Status, landed: bool)
      modifies this`status, this`lost
      ensures View() == Write(old(View()), after, landed)
    {
      if landed {
        status := after;
      } else {
        lost := lost + 1;
      }
    }

    /** `Reconcile`. */
    method Reconcile(spec: Spec, pass: Pass)
      modifies this
      ensures View() == Reconciled(spec, old(View()), pass)
    {
      if status.phase == Succeeded || status.phase == Failed {
        return;
      }
      if driver.None? {
        var derived := Env.DerivedExecutorEnvConf(spec.env, spec.envFrom, pass.objects);
        if derived.Missing? {
          AwaitDependency(derived, pass.landed);
        } else {
          driver := Some(Driver(pass.freshUid, PodPending));
          created := created + 1;
        }
        return;
      }
      UpdateJobStatus(spec, pass);
    }

    /** `markAwaiting`. */
    method AwaitDependency(dep: Env.Derived, landed: bool)
      modifies this`status, this`lost
      ensures View() == MarkAwaiting(old(View()), dep, landed)
      ensures landed ==> status.awaiting == Some(dep) && status.phase == Pending && lost == old(lost)
      ensures old(status.awaiting == Some(dep) && status.phase == Pending) ==> View() == old(View())
    {
      if status.awaiting == Some(dep) && status.phase == Pending {
        return;
      }
      WriteStatus(status.(awaiting := Some(dep), phase := Pending), landed);
    }

    /** `updateStatus`. */
    method UpdateJobStatus(spec: Spec, pass: Pass)
      requires driver.Some?
      modifies this
      ensures View() == UpdateStatus(spec, old(View()), pass)
    {
      var d := driver.value;
      var items := new Executors.Pod[|pass.pods|](i requires 0 <= i < |pass.pods| => pass.pods[i]);
      assert items[..] == pass.pods;
      var running := Executors.RunningExecutors(items, d.uid);
      var prev := status;
      var next := prev.(desired := Executors.DesiredExecutorCount(spec.sizing), running := running,
                        driverPod := spec.driverName);
      match d.phase {
        case PodPending =>
          next := next.(phase := Pending);
        case PodRunning =>
          next := next.(phase := Running);
          if next.startTime == None {
            next := next.(startTime := Some(pass.now));
          }
        case PodSucceeded =>
          next := next.(phase := Succeeded);
          if next.completionTime == None {
            next := next.(completionTime := Some(pass.now));
          }
        case PodFailed =>
          if next.retries < spec.maxRetries {
            next := next.(retries := next.retries + 1);
            if pass.deletes {
              driver := None;
              deleted := deleted + 1;
            }
            next := next.(phase := Resuming);
          } else {
            next := next.(phase := Failed);
            if next.completionTime == None {
              next := next.(completionTime := Some(pass.now));
            }
          }
        case PodUnset =>
        case PodUnknown =>
      }
      next := next.(cost := EstimatedCost(next.startTime, pass.cost));
      if StatusEqual(prev, next) {
        return;
      }
      WriteStatus(next, pass.landed);
    }
  }

  // ---- runs ----

  datatype Event =
    | Reconcile(pass: Pass)
    | DriverMoves(phase: PodPhase)
    | DriverRemoved
    | TemplatePass(active: bool)

  /** A job just created. */
  function Fresh(): State {
    State(Status(Unset, 0, 0, "", 0, "", None, None, None), None, 0, 0, 0, 0)
  }

  /** `TemplatePass`: the job has a schedule for the moment, so a pass treats it as a template. Of the status
      modelled here that changes the phase only, and it does so even to a finished job. */
  ghost predicate Step(spec: Spec, s: State, e: Event, s': State) {
    match e
    case Reconcile(pass) => s' == Reconciled(spec, s, pass)
    case DriverMoves(p) => s.driver.Some? && s' == s.(driver := Some(s.driver.value.(phase := p)))
    case DriverRemoved => s.driver.Some? && s' == s.(driver := None, removed := s.removed + 1)
    case TemplatePass(active) => s' == s.(status := s.status.(phase := if active then Running else Pending))
  }

  ghost predicate Run(spec: Spec, trace: seq<State>, events: seq<Event>) {
    && |trace| == |events| + 1 && trace[0] == Fresh()
    && forall i | 0 <= i < |events| :: Step(spec, trace[i], events[i], trace[i + 1])
  }

  // ---- the phase follows the driver ----

  /** A pass over an open job with a driver, its write landing, told by the driver's phase and the stored status
      alone: the job ends exactly as its driver ends, failing only with the budget spent, and otherwise shows
      what the driver does. */
  lemma DriverDecidesPhase(spec: Spec, s: State, pass: Pass)
    requires s.status.phase != Succeeded && s.status.phase != Failed && s.driver.Some? && pass.landed
    ensures var st, phase := Reconciled(spec, s, pass).status, s.driver.value.phase;
            && (st.phase == Succeeded <==> phase == PodSucceeded)
            && (st.phase == Failed <==> phase == PodFailed && s.status.retries >= spec.maxRetries)
            && (phase == PodFailed && s.status.retries < spec.maxRetries ==>
                  st.phase == Resuming && st.retries == s.status.retries + 1)
            && (phase != PodFailed || s.status.retries >= spec.maxRetries ==> st.retries == s.status.retries)
            && (phase == PodPending ==> st.phase == Pending)
            && (phase == PodRunning ==> st.phase == Running)
            && (phase == PodUnset || phase == PodUnknown ==> st.phase == s.status.phase)
  {
  }

  /** The rest of that pass: which driver is left, what the status counts and names, and when it notes a time. */
  lemma DriverPassRecords(spec: Spec, s: State, pass: Pass)
    requires s.status.phase != Succeeded && s.status.phase != Failed && s.driver.Some? && pass.landed
    requires Dated(s.status)
    ensures var t, d := Reconciled(spec, s, pass), s.driver.value;
            && t.driver == (if d.phase == PodFailed && s.status.retries < spec.maxRetries && pass.deletes then None
                            else s.driver)
            && t.created == s.created
            && t.status.desired == Executors.DesiredExecutorCount(spec.sizing)
            && t.status.running == |set i: nat | i < |pass.pods| && pass.pods[i].phase == PodRunning
                                                 && d.uid in pass.pods[i].owners|
            && t.status.driverPod == spec.driverName
            && t.status.cost == (if t.status.startTime == None then "0.00" else pass.cost)
            && t.status.startTime == (if s.status.startTime == None && d.phase == PodRunning then Some(pass.now)
                                      else s.status.startTime)
            && t.status.completionTime == (if s.status.completionTime == None && Terminal(t.status.phase)
                                           then Some(pass.now) else s.status.completionTime)
  {
    var d, st := s.driver.value, s.status;
    assert (set i: nat | i < |pass.pods| && pass.pods[i].phase == PodRunning && d.uid in pass.pods[i].owners)
        == Executors.RunningAt(pass.pods, d.uid);
    SkippedWriteLosesNothing(spec, st, d.phase, |Executors.RunningAt(pass.pods, d.uid)|, pass.cost, pass.now);
  }

  /** In every run, a job without a schedule or with one for a while ends only in a pass that finds its driver
      ended: Succeeded with a succeeded driver, Failed with a failed one and the budget spent. */
  lemma EndsAsItsDriver(spec: Spec, trace: seq<State>, events: seq<Event>, i: nat)
    requires Run(spec, trace, events) && i < |events|
    requires !Terminal(trace[i].status.phase) && Terminal(trace[i + 1].status.phase)
    ensures events[i].Reconcile? && trace[i].driver.Some?
    ensures trace[i + 1].status.phase == Succeeded <==> trace[i].driver.value.phase == PodSucceeded
    ensures trace[i + 1].status.phase == Failed <==>
              trace[i].driver.value.phase == PodFailed && trace[i].status.retries >= spec.maxRetries
  {
    assert Step(spec, trace[i], events[i], trace[i + 1]);
    var e := events[i];
    if e.Reconcile? && trace[i].driver.Some? {
      if e.pass.landed {
        DriverDecidesPhase(spec, trace[i], e.pass);
      } else {
        LostPassKeepsStatus(spec, trace[i], e.pass);
      }
    }
  }

  /** A lost write changes no status, and a finished job is left alone. */
  lemma LostPassKeepsStatus(spec: Spec, s: State, pass: Pass)
    ensures !pass.landed ==> Reconciled(spec, s, pass).status == s.status
    ensures Terminal(s.status.phase) ==> Reconciled(spec, s, pass) == s
  {
  }

  // ---- the budget ----

  ghost predicate Balanced(spec: Spec, s: State) {
    && s.created == (if s.driver.Some? then 1 else 0) + s.deleted + s.removed
    && s.deleted <= s.status.retries + s.lost
    && 0 <= s.status.retries <= Max(spec.maxRetries, 0)
    && (s.status.phase == Failed ==> s.status.retries >= spec.maxRetries)
  }

  lemma BalancedStep(spec: Spec, s: State, e: Event, s': State)
    requires Balanced(spec, s) && Step(spec, s, e, s')
    ensures Balanced(spec, s')
    ensures s.status.retries <= s'.status.retries && s.created <= s'.created && s.lost <= s'.lost
  {
  }

  /** Driver accounting in every state of every run, with deletions that fail, status writes that are
      lost and pods that others remove: every driver created is present, was deleted by the controller
      or was removed by others; the controller's deletions are covered by the persisted retries and the
      lost writes; the persisted retries only grow and stay within the budget; and a job is Failed only
      with its budget spent. The job may be a template in between. */
  lemma {:induction false} BudgetAccounting(spec: Spec, trace: seq<State>, events: seq<Event>, i: nat, j: nat)
    requires Run(spec, trace, events) && i <= j < |trace|
    ensures Balanced(spec, trace[j])
    ensures trace[i].status.retries <= trace[j].status.retries
    ensures trace[j].created <= 1 + Max(spec.maxRetries, 0) + trace[j].lost + trace[j].removed
    decreases j
  {
    if j > 0 {
      BudgetAccounting(spec, trace, events, if i < j then i else j - 1, j - 1);
      BalancedStep(spec, trace[j - 1], events[j - 1], trace[j]);
    }
  }

  // ---- the cheap status comparison ----

  /** A time once set stays as it is. */
  predicate Keeps(t: Option<Time>, t': Option<Time>) {
    t.Some? ==> t' == t
  }

  /** What holds of the stored times of any job: finished ones have a completion time, and one that has not
      started has cost nothing. */
  predicate Dated(st: Status) {
    (Terminal(st.phase) ==> st.completionTime.Some?) && CostFits(st.startTime, st.cost)
  }

  lemma NewStatusDated(spec: Spec, st: Status, phase: PodPhase, running: int, cost: Amount, now: Time)
    requires Dated(st)
    ensures var after := NewStatus(spec, st, phase, running, cost, now);
            Dated(after) && Keeps(st.startTime, after.startTime) && Keeps(st.completionTime, after.completionTime)
  {
  }

  lemma DatedStep(spec: Spec, s: State, e: Event, s': State)
    requires Dated(s.status) && Step(spec, s, e, s')
    ensures Dated(s'.status)
    ensures Keeps(s.status.startTime, s'.status.startTime) && Keeps(s.status.completionTime, s'.status.completionTime)
  {
    if e.Reconcile? && s.driver.Some? {
      var d, pass := s.driver.value, e.pass;
      NewStatusDated(spec, s.status, d.phase, |Executors.RunningAt(pass.pods, d.uid)|, pass.cost, pass.now);
    }
  }

  /** In every run, template interludes included, neither time ever changes once set. */
  lemma {:induction false} TimesNeverChange(spec: Spec, trace: seq<State>, events: seq<Event>, i: nat, j: nat)
    requires Run(spec, trace, events) && i <= j < |trace|
    ensures Dated(trace[j].status)
    ensures Keeps(trace[i].status.startTime, trace[j].status.startTime)
    ensures Keeps(trace[i].status.completionTime, trace[j].status.completionTime)
    decreases j
  {
    if j > 0 {
      TimesNeverChange(spec, trace, events, if i < j then i else j - 1, j - 1);
      DatedStep(spec, trace[j - 1], events[j - 1], trace[j]);
    }
  }

  /** A write is skipped exactly when it would change nothing, although the comparison ignores both times:
      recording a start changes the cost, and recording a completion changes the phase. */
  lemma SkippedWriteLosesNothing(spec: Spec, st: Status, phase: PodPhase, running: int, cost: Amount, now: Time)
    requires !Terminal(st.phase) && CostFits(st.startTime, st.cost)
    ensures var after := NewStatus(spec, st, phase, running, cost, now);
            StatusEqual(st, after) <==> after == st
  {
  }

  /** So in no run, template interludes included, is anything lost by comparing so little. */
  lemma ComparisonIsSound(spec: Spec, trace: seq<State>, events: seq<Event>, i: nat, pass: Pass)
    requires Run(spec, trace, events) && i < |trace|
    requires !Terminal(trace[i].status.phase) && trace[i].driver.Some?
    ensures var st, d := trace[i].status, trace[i].driver.value;
            var after := NewStatus(spec, st, d.phase, |Executors.RunningAt(pass.pods, d.uid)|, pass.cost, pass.now);
            StatusEqual(st, after) <==> after == st
  {
    var st, d := trace[i].status, trace[i].driver.value;
    TimesNeverChange(spec, trace, events, i, i);
    SkippedWriteLosesNothing(spec, st, d.phase, |Executors.RunningAt(pass.pods, d.uid)|, pass.cost, pass.now);
  }

  /** Phase and times agree. */
  predicate Timed(st: Status) {
    && (st.phase == Running ==> st.startTime.Some?)
    && (Terminal(st.phase) <==> st.completionTime.Some?)
  }

  lemma TimedStep(spec: Spec, s: State, e: Event, s': State)
    requires Timed(s.status) && Step(spec, s, e, s') && !e.TemplatePass?
    ensures Timed(s'.status)
    ensures Terminal(s.status.phase) ==> s'.status == s.status && s'.created == s.created
  {
  }

  /** The first `n` events are those of a job without a schedule. */
  predicate OneShot(events: seq<Event>, n: nat)
    requires n <= |events|
  {
    forall k | 0 <= k < n :: !events[k].TemplatePass?
  }

  /** While a job has had no schedule: Running implies a start time, exactly the finished jobs have a completion
      time, and a finished job's status and drivers are left alone. */
  lemma {:induction false} TimesAreSound(spec: Spec, trace: seq<State>, events: seq<Event>, i: nat, j: nat)
    requires Run(spec, trace, events) && i <= j < |trace| && OneShot(events, j)
    ensures Timed(trace[i].status) && Timed(trace[j].status)
    ensures Terminal(trace[i].status.phase) ==>
              trace[j].status == trace[i].status && trace[j].created == trace[i].created
    decreases j
  {
    if j > 0 {
      TimesAreSound(spec, trace, events, if i < j then i else j - 1, j - 1);
      TimedStep(spec, trace[j - 1], events[j - 1], trace[j]);
    }
  }

  /** Exactly when a pass as a template leaves phase and times in agreement: it must not reopen a finished job,
      nor call one Running that has not started. */
  lemma InterludeKeepsAgreementExactly(spec: Spec, s: State, active: bool, s': State)
    requires Timed(s.status) && Step(spec, s, TemplatePass(active), s')
    ensures Timed(s'.status) <==> !Terminal(s.status.phase) && (active ==> s.status.startTime.Some?)
  {
  }

  // ---- dependencies ----

  /** A pass creates a driver exactly when the job is unfinished, has none, and every object its EnvFrom
      items require exists; when one is missing the first in list order is what the job waits for. */
  lemma DriverNeedsItsObjects(spec: Spec, s: State, pass: Pass)
    ensures var t := Reconciled(spec, s, pass);
            t.created > s.created ==>
              t == s.(driver := Some(Driver(pass.freshUid, PodPending)), created := s.created + 1)
    ensures Reconciled(spec, s, pass).created > s.created <==>
              && !Terminal(s.status.phase) && s.driver.None?
              && forall j | 0 <= j < |spec.envFrom| :: !Env.Absent(spec.envFrom[j], pass.objects)
    ensures forall k | 0 <= k < |spec.envFrom| && Env.Absent(spec.envFrom[k], pass.objects)
                       && (forall j | 0 <= j < k :: !Env.Absent(spec.envFrom[j], pass.objects)) ::
              !Terminal(s.status.phase) && s.driver.None? && pass.landed ==>
                var st := Reconciled(spec, s, pass).status;
                st.awaiting == Some(Env.MissingOf(spec.envFrom[k])) && st.phase == Pending
  {
    Env.OutcomeMeaning(spec.env, spec.envFrom, pass.objects, 0);
  }
}
