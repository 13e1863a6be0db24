/** The validating webhook for SparkJobs and what its verdict buys the controller. */
module Admission {
  import opened Common
  import Cron
  import Executors
  import Scheduler

  /** The parts of a SparkJob's spec that can be rejected. */
  datatype Spec = Spec(
    mainFile: string,
    sizing: Executors.Sizing,
    maxRetries: int,
    checkpoint: bool,
    s3URI: string,
    costPerHour: string,
    executorCpu: Option<int>,
    schedule: Option<string>,
    policy: string,
    suspend: bool,
    deadline: Option<int>,
    successLimit: Option<int>,
    failedLimit: Option<int>,
    timeZone: Option<string>)

  /** Library verdicts: does the text parse as a cron expression, as a time zone, as a cost that is not negative. */
  datatype Parsers = Parsers(cron: string -> bool, zone: string -> bool, cost: string -> bool)

  datatype Error =
    | MainFileRequired | ExecutorsNegative | MinNegative | MaxNegative | MinAboveMax | RetriesNegative
    | CheckpointURIRequired | CheckpointURIScheme | CostInvalid | CpuNotPositive | ScheduleInvalid
    | PolicyUnsupported | DeadlineNegative | SuccessLimitNegative | FailedLimitNegative | TimeZoneInvalid

  /** `unicode.IsSpace`. */
  predicate IsSpace(c: char) {
    var n := c as int;
    9 <= n <= 13 || n in {0x20, 0x85, 0xA0, 0x1680, 0x2028, 0x2029, 0x202F, 0x205F, 0x3000} || 0x2000 <= n <= 0x200A
  }

  /** `strings.TrimSpace(s) == ""`. */
  predicate AllSpace(s: string) {
    forall c | c in s :: IsSpace(c)
  }

  predicate Negative(limit: Option<int>) {
    limit.Some? && limit.value < 0
  }

  predicate Scheduled(spec: Spec) {
    spec.schedule.Some? && spec.schedule.value != ""
  }

  /** A checkpoint location that is given but is not an S3 one. */
  predicate BadScheme(uri: string) {
    uri != "" && !("s3://" <= uri) && !("s3a://" <= uri)
  }

  predicate KnownPolicy(policy: string) {
    policy == "" || policy == "Allow" || policy == "Forbid" || policy == "Replace"
  }

  /** Each rule on its own. */
  predicate Violates(spec: Spec, p: Parsers, e: Error) {
    match e
    case MainFileRequired => AllSpace(spec.mainFile)
    case ExecutorsNegative => spec.sizing.executors < 0
    case MinNegative => spec.sizing.minExecutors < 0
    case MaxNegative => spec.sizing.maxExecutors < 0
    case MinAboveMax => 0 < spec.sizing.maxExecutors < spec.sizing.minExecutors
    case RetriesNegative => spec.maxRetries < 0
    case CheckpointURIRequired => spec.checkpoint && AllSpace(spec.s3URI)
    case CheckpointURIScheme => BadScheme(spec.s3URI)
    case CostInvalid => spec.costPerHour != "" && !p.cost(spec.costPerHour)
    case CpuNotPositive => spec.executorCpu.Some? && spec.executorCpu.value <= 0
    case ScheduleInvalid => Scheduled(spec) && !p.cron(spec.schedule.value)
    case PolicyUnsupported => Scheduled(spec) && !KnownPolicy(spec.policy)
    case DeadlineNegative => Scheduled(spec) && Negative(spec.deadline)
    case SuccessLimitNegative => Scheduled(spec) && Negative(spec.successLimit)
    case FailedLimitNegative => Scheduled(spec) && Negative(spec.failedLimit)
    case TimeZoneInvalid => spec.timeZone.Some? && spec.timeZone.value != "" && !p.zone(spec.timeZone.value)
  }

  ghost predicate Admitted(spec: Spec, p: Parsers) {
    forall e :: !Violates(spec, p, e)
  }

  /** The place of a rule in the sequence of checks. */
  function Order(e: Error): (k: nat)
    ensures k < 16
  {
    match e
    case MainFileRequired => 0
    case ExecutorsNegative => 1
    case MinNegative => 2
    case MaxNegative => 3
    case MinAboveMax => 4
    case RetriesNegative => 5
    case CheckpointURIRequired => 6
    case CheckpointURIScheme => 7
    case CostInvalid => 8
    case CpuNotPositive => 9
    case ScheduleInvalid => 10
    case PolicyUnsupported => 11
    case DeadlineNegative => 12
    case SuccessLimitNegative => 13
    case FailedLimitNegative => 14
    case TimeZoneInvalid => 15
  }

  lemma OrderInjective(e: Error, f: Error)
    requires Order(e) == Order(f)
    ensures e == f
  {
  }

  /** The error list is right about the first `k` checks, and in their order. */
  ghost predicate Covers(spec: Spec, p: Parsers, errs: seq<Error>, k: nat) {
    && (forall e :: e in errs <==> Order(e) < k && Violates(spec, p, e))
    && (forall i, j | 0 <= i < j < |errs| :: Order(errs[i]) < Order(errs[j]))
  }

  lemma Checked(spec: Spec, p: Parsers, before: seq<Error>, errs: seq<Error>, e: Error)
    requires Covers(spec, p, before, Order(e))
    requires errs == if Violates(spec, p, e) then before + [e] else before
    ensures Covers(spec, p, errs, Order(e) + 1)
  {
    forall f ensures f in errs <==> Order(f) < Order(e) + 1 && Violates(spec, p, f) {
      if Violates(spec, p, e) {
        assert f in errs <==> f in before || f == e;
      }
      if Order(f) == Order(e) {
        OrderInjective(e, f);
      }
    }
    assert forall i | 0 <= i < |before| :: before[i] in before;
  }

  /** One check: append the error if the rule is violated. */
  method Check(spec: Spec, p: Parsers, before: seq<Error>, bad: bool, e: Error) returns (errs: seq<Error>)
    requires Covers(spec, p, before, Order(e)) && bad == Violates(spec, p, e)
    ensures Covers(spec, p, errs, Order(e) + 1)
  {
    errs := before;
    if bad {
      errs := errs + [e];
    }
    Checked(spec, p, before, errs, e);
  }

  /** `validateSparkJob`: the error list names exactly the violated rules, each once and in the order
      of the checks, and is empty exactly for admitted specs. */
  method ValidateSparkJob(spec: Spec, p: Parsers) returns (errs: seq<Error>)
    ensures forall e :: e in errs <==> Violates(spec, p, e)
    ensures forall i, j | 0 <= i < j < |errs| :: Order(errs[i]) < Order(errs[j])
    ensures errs == [] <==> Admitted(spec, p)
  {
    errs := ValidateExecution(spec, p);
    errs := ValidateCheckpoint(spec, p, errs);
    errs := ValidateScheduling(spec, p, errs);
    errs := ValidateLimits(spec, p, errs);
    var badZone := spec.timeZone.Some? && spec.timeZone.value != "" && !p.zone(spec.timeZone.value);
    errs := Check(spec, p, errs, badZone, TimeZoneInvalid);
    assert errs != [] ==> errs[0] in errs;
  }

  /** The checks of the main file and the executor bounds. */
  method ValidateExecution(spec: Spec, p: Parsers) returns (errs: seq<Error>)
    ensures Covers(spec, p, errs, 5)
  {
    errs := Check(spec, p, [], AllSpace(spec.mainFile), MainFileRequired);
    errs := Check(spec, p, errs, spec.sizing.executors < 0, ExecutorsNegative);
    errs := Check(spec, p, errs, spec.sizing.minExecutors < 0, MinNegative);
    errs := Check(spec, p, errs, spec.sizing.maxExecutors < 0, MaxNegative);
    var z := spec.sizing;
    var crossed := z.minExecutors > 0 && z.maxExecutors > 0 && z.minExecutors > z.maxExecutors;
    errs := Check(spec, p, errs, crossed, MinAboveMax);
  }

  /** The checks of the retry budget, the checkpoint, the cost and the executor's cpu request. */
  method ValidateCheckpoint(spec: Spec, p: Parsers, before: seq<Error>) returns (errs: seq<Error>)
    requires Covers(spec, p, before, 5)
    ensures Covers(spec, p, errs, 10)
  {
    errs := Check(spec, p, before, spec.maxRetries < 0, RetriesNegative);
    errs := Check(spec, p, errs, spec.checkpoint && AllSpace(spec.s3URI), CheckpointURIRequired);
    errs := Check(spec, p, errs, BadScheme(spec.s3URI), CheckpointURIScheme);
    errs := Check(spec, p, errs, spec.costPerHour != "" && !p.cost(spec.costPerHour), CostInvalid);
    errs := Check(spec, p, errs, spec.executorCpu.Some? && spec.executorCpu.value <= 0, CpuNotPositive);
  }

  /** The checks of the schedule and the concurrency policy. */
  method ValidateScheduling(spec: Spec, p: Parsers, before: seq<Error>) returns (errs: seq<Error>)
    requires Covers(spec, p, before, 10)
    ensures Covers(spec, p, errs, 12)
  {
    var on := spec.schedule.Some? && spec.schedule.value != "";
    errs := Check(spec, p, before, on && !p.cron(spec.schedule.value), ScheduleInvalid);
    errs := Check(spec, p, errs, on && !KnownPolicy(spec.policy), PolicyUnsupported);
  }

  /** The checks of the deadline and the history limits. */
  method ValidateLimits(spec: Spec, p: Parsers, before: seq<Error>) returns (errs: seq<Error>)
    requires Covers(spec, p, before, 12)
    ensures Covers(spec, p, errs, 15)
  {
    var on := Scheduled(spec);
    errs := Check(spec, p, before, on && Negative(spec.deadline), DeadlineNegative);
    errs := Check(spec, p, errs, on && Negative(spec.successLimit), SuccessLimitNegative);
    errs := Check(spec, p, errs, on && Negative(spec.failedLimit), FailedLimitNegative);
  }

  ghost predicate HasText(s: string) {
    exists c :: c in s && !IsSpace(c)
  }

  /** What an admitted spec is like: each rule turned round. */
  lemma AdmittedMeaning(spec: Spec, p: Parsers)
    ensures Admitted(spec, p) <==>
              && HasText(spec.mainFile)
              && spec.sizing.executors >= 0 && spec.sizing.minExecutors >= 0 && spec.sizing.maxExecutors >= 0
              && (spec.sizing.maxExecutors > 0 ==> spec.sizing.minExecutors <= spec.sizing.maxExecutors)
              && spec.maxRetries >= 0
              && (spec.checkpoint ==> HasText(spec.s3URI))
              && (spec.s3URI == "" || "s3://" <= spec.s3URI || "s3a://" <= spec.s3URI)
              && (spec.costPerHour == "" || p.cost(spec.costPerHour))
              && (spec.executorCpu.Some? ==> spec.executorCpu.value > 0)
              && (spec.schedule.Some? && spec.schedule.value != "" ==>
                    && p.cron(spec.schedule.value)
                    && spec.policy in {"", "Allow", "Forbid", "Replace"}
                    && (spec.deadline.Some? ==> spec.deadline.value >= 0)
                    && (spec.successLimit.Some? ==> spec.successLimit.value >= 0)
                    && (spec.failedLimit.Some? ==> spec.failedLimit.value >= 0))
              && (spec.timeZone.Some? ==> spec.timeZone.value == "" || p.zone(spec.timeZone.value))
  {
    if Admitted(spec, p) {
      assert !Violates(spec, p, MainFileRequired) && !Violates(spec, p, ExecutorsNegative);
      assert !Violates(spec, p, MinNegative) && !Violates(spec, p, MaxNegative) && !Violates(spec, p, MinAboveMax);
      assert !Violates(spec, p, RetriesNegative) && !Violates(spec, p, CheckpointURIRequired);
      assert !Violates(spec, p, CheckpointURIScheme) && !Violates(spec, p, CostInvalid);
      assert !Violates(spec, p, CpuNotPositive) && !Violates(spec, p, ScheduleInvalid);
      assert !Violates(spec, p, PolicyUnsupported) && !Violates(spec, p, DeadlineNegative);
      assert !Violates(spec, p, SuccessLimitNegative) && !Violates(spec, p, FailedLimitNegative);
      assert !Violates(spec, p, TimeZoneInvalid);
    }
  }

  // ---- what admission buys ----

  /** The scheduler's view of a spec, given what the cron library makes of the expression. */
  function SchedulerConfig(spec: Spec, next: Option<Cron.Timetable>, lingers: bool): Scheduler.Config {
    Scheduler.Config(
      next, spec.suspend, spec.policy, spec.deadline, spec.successLimit, spec.failedLimit, lingers)
  }

  /** An admitted template meets the scheduler's preconditions: history limits that slice in range, a
      policy with a branch of its own, and a deadline that is at least not negative. */
  lemma AdmittedTemplate(spec: Spec, p: Parsers, next: Option<Cron.Timetable>, lingers: bool)
    requires Admitted(spec, p) && Scheduled(spec)
    ensures var cfg := SchedulerConfig(spec, next, lingers);
            && cfg.schedule == next && cfg.suspend == spec.suspend && cfg.policy == spec.policy
            && cfg.deadline == spec.deadline && cfg.successLimit == spec.successLimit
            && cfg.failedLimit == spec.failedLimit
    ensures SchedulerConfig(spec, next, lingers).LimitsAdmitted()
    ensures SchedulerConfig(spec, next, lingers).Replaces() <==> spec.policy == "Replace"
    ensures Cron.ExactDeadline(spec.deadline) <==>
            (spec.deadline.Some? ==> spec.deadline.value <= Cron.MAX_DEADLINE)
  {
    assert !Violates(spec, p, SuccessLimitNegative) && !Violates(spec, p, FailedLimitNegative);
    assert !Violates(spec, p, PolicyUnsupported) && !Violates(spec, p, DeadlineNegative);
  }

  /** An admitted job with both bounds set and no explicit count is tuned within its bounds, whatever the
      input size. With a zero maximum, which is admitted too, any positive minimum is ignored. */
  lemma AdmittedTuning(spec: Spec, p: Parsers)
    requires Admitted(spec, p) && spec.sizing.executors == 0 && spec.sizing.inputSizeMB > 0
    ensures var z, n := spec.sizing, Executors.DesiredExecutorCount(spec.sizing);
            && (z.minExecutors > 0 && z.maxExecutors > 0 ==> z.minExecutors <= n <= z.maxExecutors)
            && (z.maxExecutors == 0 ==> n == 0)
    ensures spec.maxRetries >= 0
  {
    assert !Violates(spec, p, MinAboveMax) && !Violates(spec, p, RetriesNegative) && !Violates(spec, p, MinNegative);
    Executors.TunedWithinBoundsExactly(spec.sizing);
  }
}
