/** Shared vocabulary: optional values, Go's fixed-width integers and its time type. */
module Common {

  datatype Option<+T> = None | Some(value: T)

  /** Phases of a SparkJob or TrainingRun; `Unset` is the empty string of a fresh object. */
  datatype Phase = Unset | Pending | Running | Checkpointing | Resuming | Succeeded | Failed

  predicate Terminal(p: Phase) {
    p == Succeeded || p == Failed
  }

  /** Phases of a pod, as the kubelet reports them. */
  datatype PodPhase = PodUnset | PodPending | PodRunning | PodSucceeded | PodFailed | PodUnknown

  /** An instant, in nanoseconds since Go's zero time (1 January of year 1, UTC).
      Hence `0` is exactly the value for which `IsZero` holds. */
  type Time = int

  const ZERO_TIME: Time := 0
  const SECOND := 1_000_000_000
  const MINUTE := 60 * SECOND

  /** The Unix epoch on that scale. */
  const EPOCH: Time := 62_135_596_800 * SECOND

  function Unix(t: Time): int {
    (t - EPOCH) / SECOND
  }

  const MAX_INT32 := 0x7FFF_FFFF
  const MAX_INT64 := 0x7FFF_FFFF_FFFF_FFFF

  /** Two's complement truncation to 32 bits. */
  function Int32(n: int): int {
    var m := n % 0x1_0000_0000;
    if m <= MAX_INT32 then m else m - 0x1_0000_0000
  }

  /** Two's complement truncation to 64 bits. */
  function Int64(n: int): int {
    var m := n % 0x1_0000_0000_0000_0000;
    if m <= MAX_INT64 then m else m - 0x1_0000_0000_0000_0000
  }

  function Min(a: int, b: int): int {
    if a <= b then a else b
  }

  function Max(a: int, b: int): int {
    if a <= b then b else a
  }

  /** Go's integer division, which truncates toward zero. */
  function TruncDiv(a: int, b: int): int
    requires b > 0
  {
    if a >= 0 then a / b else -((-a) / b)
  }

  /** The text of an amount with four decimals, or of an infinity or of no number: at any rate one of these
      two is never it. */
  type Amount = s: string | s != "" && s != "0.00" witness "0.0000"

  /** `estimateCost`: nothing is owed before the start; afterwards an amount that the clock decides. */
  function EstimatedCost(start: Option<Time>, amount: Amount): string {
    if start == None then "0.00" else amount
  }

  /** A cost that can be stored with a start time: without one there is none to estimate. */
  predicate CostFits(start: Option<Time>, cost: string) {
    start == None ==> cost == "" || cost == "0.00"
  }
}
