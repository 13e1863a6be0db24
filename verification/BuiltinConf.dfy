/** The built-in Spark settings of a job, and what they say. */
module BuiltinConf {
  import opened Common
  import opened Text

  /** What the printer reads of a SparkJob. Resource requests are absent or in millicores and bytes. */
  datatype Job = Job(
    name: string,
    namespace: string,
    mainClass: string,
    mainFile: string,
    arguments: seq<string>,
    sparkConf: map<string, string>,
    serviceAccount: string,
    executorCpu: Option<int>,
    executorMemory: Option<int>,
    driverCpu: Option<int>,
    driverMemory: Option<int>)

  /** What the caller passes besides the job. */
  datatype Context = Context(podName: string, driverHost: string, executors: int, image: string)

  const OWNER_LABEL := "compute.compute.example.com/sparkjob"

  // ---- built-in configuration ----

  /** Whole cores, at least one, for a request in millicores. */
  function Cores(milli: int): string {
    Itoa(Max(TruncDiv(milli + 999, 1000), 1))
  }

  const MI := 1024 * 1024
  const GI := 1024 * MI

  /** `humanMem`: gibibytes when the amount is a multiple of one, else mebibytes, rounded toward zero. */
  function HumanMem(bytes: int): string {
    if bytes % GI == 0 then Itoa(TruncDiv(bytes, GI)) + "g" else Itoa(TruncDiv(bytes, MI)) + "m"
  }

  /** The cores asked of Spark are the fewest whole ones, and at least one, that cover the request. */
  lemma CoresCoverRequest(milli: int) returns (n: nat)
    ensures Cores(milli) == Itoa(n) && n >= 1 && milli <= 1000 * n
    ensures forall m | 1 <= m && milli <= 1000 * m :: n <= m
  {
    n := Max(TruncDiv(milli + 999, 1000), 1);
  }

  /** The memory asked of Spark never exceeds the request and misses less than a mebibyte of it; below one
      mebibyte it is nothing at all. */
  lemma MemoryWithinRequest(bytes: nat) returns (n: nat, unit: nat)
    ensures (HumanMem(bytes) == Itoa(n) + "g" && unit == GI) || (HumanMem(bytes) == Itoa(n) + "m" && unit == MI)
    ensures n * unit <= bytes < n * unit + MI
    ensures 0 < bytes < MI ==> n == 0
  {
    unit := if bytes % GI == 0 then GI else MI;
    n := bytes / unit;
  }

  function Request(key: string, request: Option<int>, render: int -> string): map<string, string> {
    if request.Some? then map[key := render(request.value)] else map[]
  }

  /** The keys of the built-in settings. */
  datatype ConfKeys = ConfKeys(
    namespace: string, pod: string, image: string, account: string, instances: string, host: string,
    port: string, blockPort: string, ownerLabel: string, container: string, controller: string,
    executorCores: string, executorMemory: string, driverCores: string, driverMemory: string)

  function SparkKeys(): ConfKeys {
    ConfKeys(
      namespace := "spark.kubernetes.namespace",
      pod := "spark.kubernetes.driver.pod.name",
      image := "spark.kubernetes.container.image",
      account := "spark.kubernetes.authenticate.driver.serviceAccountName",
      instances := "spark.executor.instances",
      host := "spark.driver.host",
      port := "spark.driver.port",
      blockPort := "spark.driver.blockManager.port",
      ownerLabel := "spark.kubernetes.executor.label." + OWNER_LABEL,
      container := "spark.kubernetes.executor.podTemplateContainerName",
      controller := "spark.kubernetes.driver.ownerReference.controller",
      executorCores := "spark.executor.cores",
      executorMemory := "spark.executor.memory",
      driverCores := "spark.driver.cores",
      driverMemory := "spark.driver.memory")
  }

  function FixedOf(k: ConfKeys, job: Job, ctx: Context): map<string, string> {
    map[k.namespace := job.namespace,
        k.pod := ctx.podName,
        k.image := ctx.image,
        k.account := if job.serviceAccount == "" then job.name + "-driver-sa" else job.serviceAccount,
        k.instances := Itoa(ctx.executors),
        k.host := ctx.driverHost,
        k.port := "7078",
        k.blockPort := "7079",
        k.ownerLabel := job.name,
        k.container := "executor",
        k.controller := "true"]
  }

  function BuiltinsOf(k: ConfKeys, job: Job, ctx: Context): map<string, string> {
    FixedOf(k, job, ctx)
    + Request(k.executorCores, job.executorCpu, Cores)
    + Request(k.executorMemory, job.executorMemory, HumanMem)
    + Request(k.driverCores, job.driverCpu, Cores)
    + Request(k.driverMemory, job.driverMemory, HumanMem)
  }

  function Builtins(job: Job, ctx: Context): map<string, string> {
    BuiltinsOf(SparkKeys(), job, ctx)
  }

  // ---- what a built-in setting says ----

  /** The least number of whole cores, and at least one, that covers a request in millicores. */
  ghost predicate CoresFor(milli: int, value: string) {
    exists n: nat :: value == Itoa(n) && LeastCores(milli, n)
  }

  ghost predicate LeastCores(milli: int, n: nat) {
    1 <= n && milli <= 1000 * n && forall m: int | 1 <= m && milli <= 1000 * m :: n <= m
  }

  /** An amount of memory: its gibibytes if these are whole, else its whole mebibytes. */
  ghost predicate MemoryFor(bytes: int, value: string) {
    exists n: int :: value == Itoa(n) + (if bytes % GI == 0 then "g" else "m")
                     && WholeUnits(bytes, if bytes % GI == 0 then GI else MI, n)
  }

  /** `n` whole units are in the amount, counted away from zero. */
  ghost predicate WholeUnits(bytes: int, unit: int, n: int) {
    if bytes >= 0 then n * unit <= bytes < (n + 1) * unit else (n - 1) * unit < bytes <= n * unit
  }

  lemma CoresMeaning(milli: int, value: string)
    ensures CoresFor(milli, value) <==> value == Cores(milli)
  {
    var n := CoresCoverRequest(milli);
    assert LeastCores(milli, n);
    if CoresFor(milli, value) {
      var m: nat :| value == Itoa(m) && LeastCores(milli, m);
      assert n <= m && m <= n;
    }
  }

  lemma WholeUnitsAre(bytes: int, unit: int, n: int)
    requires unit == GI || unit == MI
    ensures WholeUnits(bytes, unit, n) <==> n == TruncDiv(bytes, unit)
  {
  }

  lemma MemoryMeaning(bytes: int, value: string)
    ensures MemoryFor(bytes, value) <==> value == HumanMem(bytes)
  {
    var unit := if bytes % GI == 0 then GI else MI;
    forall n: int ensures WholeUnits(bytes, unit, n) <==> n == TruncDiv(bytes, unit) {
      WholeUnitsAre(bytes, unit, n);
    }
    assert WholeUnits(bytes, unit, TruncDiv(bytes, unit));
  }

  ghost predicate Fixed(job: Job, ctx: Context, key: string, value: string) {
    || (key == "spark.kubernetes.namespace" && value == job.namespace)
    || (key == "spark.kubernetes.driver.pod.name" && value == ctx.podName)
    || (key == "spark.kubernetes.container.image" && value == ctx.image)
    || (key == "spark.kubernetes.authenticate.driver.serviceAccountName"
        && value == if job.serviceAccount == "" then job.name + "-driver-sa" else job.serviceAccount)
    || (key == "spark.executor.instances" && value == Itoa(ctx.executors))
    || (key == "spark.driver.host" && value == ctx.driverHost)
    || (key == "spark.driver.port" && value == "7078")
    || (key == "spark.driver.blockManager.port" && value == "7079")
    || (key == "spark.kubernetes.executor.label." + "compute.compute.example.com/sparkjob" && value == job.name)
    || (key == "spark.kubernetes.executor.podTemplateContainerName" && value == "executor")
    || (key == "spark.kubernetes.driver.ownerReference.controller" && value == "true")
  }

  ghost predicate CoresAre(request: Option<int>, value: string) {
    request.Some? && CoresFor(request.value, value)
  }

  ghost predicate MemoryIs(request: Option<int>, value: string) {
    request.Some? && MemoryFor(request.value, value)
  }

  /** The built-in settings, one by one. */
  ghost predicate BuiltIn(job: Job, ctx: Context, key: string, value: string) {
    || Fixed(job, ctx, key, value)
    || (key == "spark.executor.cores" && CoresAre(job.executorCpu, value))
    || (key == "spark.executor.memory" && MemoryIs(job.executorMemory, value))
    || (key == "spark.driver.cores" && CoresAre(job.driverCpu, value))
    || (key == "spark.driver.memory" && MemoryIs(job.driverMemory, value))
  }

  /** Keys of these lengths differ, the two pairs of one length apart. */
  predicate Apart(k: ConfKeys) {
    && |k.namespace| == 26 && |k.pod| == 32 && |k.image| == 32 && |k.account| == 55 && |k.instances| == 24
    && |k.host| == 17 && |k.port| == 17 && |k.blockPort| == 30 && |k.ownerLabel| == 68 && |k.container| == 50
    && |k.controller| == 49 && |k.executorCores| == 20 && |k.executorMemory| == 21 && |k.driverCores| == 18
    && |k.driverMemory| == 19 && k.pod != k.image && k.host != k.port
  }

  ghost predicate Sets(m: map<string, string>, key: string, value: string) {
    key in m && m[key] == value
  }

  lemma FixedUnder(k: ConfKeys, job: Job, ctx: Context, key: string, value: string)
    requires Apart(k)
    ensures Sets(FixedOf(k, job, ctx), key, value) <==>
              || (key == k.namespace && value == job.namespace)
              || (key == k.pod && value == ctx.podName)
              || (key == k.image && value == ctx.image)
              || (key == k.account
                  && value == if job.serviceAccount == "" then job.name + "-driver-sa" else job.serviceAccount)
              || (key == k.instances && value == Itoa(ctx.executors))
              || (key == k.host && value == ctx.driverHost)
              || (key == k.port && value == "7078")
              || (key == k.blockPort && value == "7079")
              || (key == k.ownerLabel && value == job.name)
              || (key == k.container && value == "executor")
              || (key == k.controller && value == "true")
    ensures 18 <= |key| <= 21 ==> key !in FixedOf(k, job, ctx)
  {
  }

  lemma RequestOnTop(base: map<string, string>, own: string, request: Option<int>, render: int -> string,
                     key: string, value: string)
    requires own !in base
    ensures Sets(base + Request(own, request, render), key, value) <==>
              Sets(base, key, value) || (key == own && request.Some? && value == render(request.value))
    ensures key != own ==> (key in base + Request(own, request, render) <==> key in base)
  {
  }

  lemma RequestsUnder(k: ConfKeys, job: Job, base: map<string, string>, key: string, value: string)
    requires Apart(k)
    requires k.executorCores !in base && k.executorMemory !in base && k.driverCores !in base && k.driverMemory !in base
    ensures Sets(base + Request(k.executorCores, job.executorCpu, Cores)
                 + Request(k.executorMemory, job.executorMemory, HumanMem)
                 + Request(k.driverCores, job.driverCpu, Cores)
                 + Request(k.driverMemory, job.driverMemory, HumanMem), key, value) <==>
              || Sets(base, key, value)
              || (key == k.executorCores && job.executorCpu.Some? && value == Cores(job.executorCpu.value))
              || (key == k.executorMemory && job.executorMemory.Some? && value == HumanMem(job.executorMemory.value))
              || (key == k.driverCores && job.driverCpu.Some? && value == Cores(job.driverCpu.value))
              || (key == k.driverMemory && job.driverMemory.Some? && value == HumanMem(job.driverMemory.value))
  {
    var one := base + Request(k.executorCores, job.executorCpu, Cores);
    var two := one + Request(k.executorMemory, job.executorMemory, HumanMem);
    var three := two + Request(k.driverCores, job.driverCpu, Cores);
    RequestOnTop(base, k.executorCores, job.executorCpu, Cores, key, value);
    RequestOnTop(base, k.executorCores, job.executorCpu, Cores, k.executorMemory, value);
    RequestOnTop(base, k.executorCores, job.executorCpu, Cores, k.driverCores, value);
    RequestOnTop(base, k.executorCores, job.executorCpu, Cores, k.driverMemory, value);
    RequestOnTop(one, k.executorMemory, job.executorMemory, HumanMem, key, value);
    RequestOnTop(one, k.executorMemory, job.executorMemory, HumanMem, k.driverCores, value);
    RequestOnTop(one, k.executorMemory, job.executorMemory, HumanMem, k.driverMemory, value);
    RequestOnTop(two, k.driverCores, job.driverCpu, Cores, key, value);
    RequestOnTop(two, k.driverCores, job.driverCpu, Cores, k.driverMemory, value);
    RequestOnTop(three, k.driverMemory, job.driverMemory, HumanMem, key, value);
  }

  lemma SparkKeysApart()
    ensures Apart(SparkKeys())
  {
    var k := SparkKeys();
    assert k.pod[17] == 'd' && k.image[17] == 'c';
    assert k.host[13] == 'h' && k.port[13] == 'p';
  }

  /** The built-in settings are these and no others. */
  lemma BuiltinsMeaning(job: Job, ctx: Context, key: string, value: string)
    ensures Sets(Builtins(job, ctx), key, value) <==> BuiltIn(job, ctx, key, value)
  {
    var k := SparkKeys();
    SparkKeysApart();
    forall m, v ensures CoresFor(m, v) <==> v == Cores(m) {
      CoresMeaning(m, v);
    }
    forall m, v ensures MemoryFor(m, v) <==> v == HumanMem(m) {
      MemoryMeaning(m, v);
    }
    FixedUnder(k, job, ctx, key, value);
    FixedUnder(k, job, ctx, k.executorCores, value);
    FixedUnder(k, job, ctx, k.executorMemory, value);
    FixedUnder(k, job, ctx, k.driverCores, value);
    FixedUnder(k, job, ctx, k.driverMemory, value);
    RequestsUnder(k, job, FixedOf(k, job, ctx), key, value);
  }

  // ---- single settings ----

  lemma ExecutorCores(job: Job, ctx: Context, value: string)
    ensures BuiltIn(job, ctx, "spark.executor.cores", value) <==>
              CoresAre(job.executorCpu, value)
  {
  }

  lemma DriverCores(job: Job, ctx: Context, value: string)
    ensures BuiltIn(job, ctx, "spark.driver.cores", value) <==>
              CoresAre(job.driverCpu, value)
  {
  }

  lemma ExecutorMemory(job: Job, ctx: Context, value: string)
    ensures BuiltIn(job, ctx, "spark.executor.memory", value) <==>
              MemoryIs(job.executorMemory, value)
  {
  }

  lemma DriverMemory(job: Job, ctx: Context, value: string)
    ensures BuiltIn(job, ctx, "spark.driver.memory", value) <==>
              MemoryIs(job.driverMemory, value)
  {
  }

  /** The numeral of a core count stands for that count only. */
  lemma CoresNumeral(milli: int, n: nat)
    ensures CoresFor(milli, Itoa(n)) <==> LeastCores(milli, n)
  {
    if CoresFor(milli, Itoa(n)) {
      var m: nat :| Itoa(n) == Itoa(m) && LeastCores(milli, m);
      ItoaInjective(n, m);
    }
  }
}
