/** Executor pods: filtering the list in place, and choosing how many to ask for. */
module Executors {
  import opened Common

  /** A pod of the namespace: its phase and the uids of its owner references. */
  datatype Pod = Pod(phase: PodPhase, owners: seq<string>)

  // ---- listExecutorPods ----

  /** The pods a driver owns, in the order of the list. */
  function OwnedBy(pods: seq<Pod>, driver: string): seq<Pod> {
    if pods == [] then []
    else
      var last := pods[|pods| - 1];
      OwnedBy(pods[..|pods| - 1], driver) + if driver in last.owners then [last] else []
  }

  /** Where those pods stand in the list. */
  function OwnedAt(pods: seq<Pod>, driver: string): seq<nat> {
    if pods == [] then []
    else
      var n := |pods| - 1;
      OwnedAt(pods[..n], driver) + if driver in pods[n].owners then [n] else []
  }

  /** The owned positions, all of them, in order. */
  lemma {:induction false} PositionsAreExact(pods: seq<Pod>, driver: string)
    ensures var at := OwnedAt(pods, driver);
            && (forall i: nat :: i in at <==> i < |pods| && driver in pods[i].owners)
            && (forall j, k | 0 <= j < k < |at| :: at[j] < at[k])
  {
    if pods != [] {
      var n := |pods| - 1;
      PositionsAreExact(pods[..n], driver);
      var init, at := OwnedAt(pods[..n], driver), OwnedAt(pods, driver);
      assert forall k | 0 <= k < |init| :: init[k] in init;
      forall i: nat ensures i in at <==> i < |pods| && driver in pods[i].owners {
        assert i in at <==> i in init || (i == n && driver in pods[n].owners);
      }
    }
  }

  lemma {:induction false} FilterFollowsPositions(pods: seq<Pod>, driver: string)
    ensures var at := OwnedAt(pods, driver);
            && |OwnedBy(pods, driver)| == |at|
            && (forall k | 0 <= k < |at| :: at[k] < |pods| && OwnedBy(pods, driver)[k] == pods[at[k]])
  {
    if pods != [] {
      FilterFollowsPositions(pods[..|pods| - 1], driver);
    }
  }

  /** The filter keeps exactly the owned pods, each once however often an owner reference is repeated,
      and keeps their order. */
  lemma {:induction false} FilterIsExact(pods: seq<Pod>, driver: string)
    ensures var at := OwnedAt(pods, driver);
            && |OwnedBy(pods, driver)| == |at|
            && (forall k | 0 <= k < |at| :: at[k] < |pods| && OwnedBy(pods, driver)[k] == pods[at[k]])
            && (forall j, k | 0 <= j < k < |at| :: at[j] < at[k])
            && (forall i: nat :: i in at <==> i < |pods| && driver in pods[i].owners)
  {
    PositionsAreExact(pods, driver);
    FilterFollowsPositions(pods, driver);
  }

  /** `listExecutorPods`: the result is a prefix of the very array that is being read. */
  method ListExecutorPods(items: array<Pod>, driver: string) returns (n: nat)
    modifies items
    ensures n <= items.Length
    ensures items[..n] == OwnedBy(old(items[..]), driver)
  {
    n := 0;
    ghost var was := items[..];
    for i := 0 to items.Length
      invariant n <= i
      invariant items[..n] == OwnedBy(was[..i], driver)
      invariant forall k | i <= k < items.Length :: items[k] == was[k]
    {
      assert items[i] == was[i];
      OneMoreOwned(was, driver, i);
      var p := items[i];
      var owned := IsOwned(p, driver);
      if owned {
        items[n] := p;
        assert items[..n + 1] == items[..n] + [p];
        n := n + 1;
      }
    }
    assert was[..items.Length] == was;
  }

  lemma OneMoreOwned(pods: seq<Pod>, driver: string, i: nat)
    requires i < |pods|
    ensures OwnedBy(pods[..i + 1], driver) ==
            OwnedBy(pods[..i], driver) + if driver in pods[i].owners then [pods[i]] else []
  {
    assert pods[..i + 1][..i] == pods[..i];
  }

  /** The loop over the owner references, left at the first match. */
  method IsOwned(p: Pod, driver: string) returns (owned: bool)
    ensures owned <==> driver in p.owners
  {
    owned := false;
    for j := 0 to |p.owners|
      invariant !owned && driver !in p.owners[..j]
    {
      if p.owners[j] == driver {
        return true;
      }
    }
  }

  /** The positions of the running executors of a driver. */
  ghost function RunningAt(pods: seq<Pod>, driver: string): set<nat> {
    set i: nat | i < |pods| && driver in pods[i].owners && pods[i].phase == PodRunning
  }

  function CountRunning(pods: seq<Pod>): nat {
    if pods == [] then 0
    else CountRunning(pods[..|pods| - 1]) + if pods[|pods| - 1].phase == PodRunning then 1 else 0
  }

  /** Counting over the filtered list counts the owned running pods of the whole list. */
  lemma {:induction false} CountIsExact(pods: seq<Pod>, driver: string)
    ensures CountRunning(OwnedBy(pods, driver)) == |RunningAt(pods, driver)|
  {
    if pods == [] {
      assert RunningAt(pods, driver) == {};
    } else {
      var n := |pods| - 1;
      var init, owned := OwnedBy(pods[..n], driver), OwnedBy(pods, driver);
      CountIsExact(pods[..n], driver);
      OneMoreRunning(pods, driver, n);
      if driver in pods[n].owners {
        assert owned[..|owned| - 1] == init;
      } else {
        assert owned == init;
      }
    }
  }

  lemma OneMoreRunning(pods: seq<Pod>, driver: string, n: nat)
    requires n + 1 == |pods|
    ensures |RunningAt(pods, driver)| ==
            |RunningAt(pods[..n], driver)| + if driver in pods[n].owners && pods[n].phase == PodRunning then 1 else 0
  {
    assert RunningAt(pods, driver) ==
           RunningAt(pods[..n], driver) + if driver in pods[n].owners && pods[n].phase == PodRunning then {n} else {};
  }

  /** The running count of `updateStatus`. */
  method RunningExecutors(items: array<Pod>, driver: string) returns (running: nat)
    modifies items
    ensures running == |RunningAt(old(items[..]), driver)|
  {
    var n := ListExecutorPods(items, driver);
    running := 0;
    for i := 0 to n
      invariant running == CountRunning(items[..i])
    {
      assert items[..i + 1][..i] == items[..i];
      if items[i].phase == PodRunning {
        running := running + 1;
      }
    }
    CountIsExact(old(items[..]), driver);
  }

  // ---- desiredExecutorCount ----

  /** The fields that size a job; counts are 32-bit, the input size 64-bit. */
  datatype Sizing = Sizing(executors: int, minExecutors: int, maxExecutors: int, inputSizeMB: int)

  function DesiredExecutorCount(z: Sizing): int {
    if z.executors > 0 then z.executors
    else if z.inputSizeMB > 0 then Min(Max(Int32(z.inputSizeMB / 256), z.minExecutors), z.maxExecutors)
    else if z.minExecutors > 0 then z.minExecutors
    else 1
  }

  /** The count, told by the fields: an explicit one is honoured, bounds or not; without an input size it is the
      minimum, or one executor if there is none; with one it is a 256th of the size, as 32 bits hold it,
      moved up to the minimum and then down to the maximum. */
  lemma DesiredCountMeaning(z: Sizing)
    ensures var n := DesiredExecutorCount(z);
            && (z.executors > 0 ==> n == z.executors)
            && (z.executors <= 0 && z.inputSizeMB <= 0 ==> n == Max(z.minExecutors, 1))
            && (z.executors <= 0 && z.inputSizeMB > 0 ==>
                  && n <= z.maxExecutors
                  && (z.minExecutors <= Int32(z.inputSizeMB / 256) <= z.maxExecutors ==>
                        n == Int32(z.inputSizeMB / 256))
                  && (Int32(z.inputSizeMB / 256) < z.minExecutors <= z.maxExecutors ==> n == z.minExecutors)
                  && (z.maxExecutors < z.minExecutors || z.maxExecutors < Int32(z.inputSizeMB / 256) ==>
                        n == z.maxExecutors))
  {
  }

  /** Auto-tuned counts stay within the bounds, for every input size including those whose quotient
      wraps around 32 bits, exactly when the bounds are ordered. */
  lemma TunedWithinBoundsExactly(z: Sizing)
    requires z.executors <= 0 && z.inputSizeMB > 0
    ensures z.minExecutors <= DesiredExecutorCount(z) <= z.maxExecutors <==> z.minExecutors <= z.maxExecutors
  {
  }

  /** A larger input asks for no fewer executors as long as the quotient fits 32 bits. */
  lemma TunedMonotonically(z: Sizing, more: int)
    requires z.executors <= 0 && 0 < z.inputSizeMB <= more && more / 256 <= MAX_INT32
    ensures DesiredExecutorCount(z) <= DesiredExecutorCount(z.(inputSizeMB := more))
  {
  }

  /** Beyond that it is not monotone: half an exbibyte of input falls back to the minimum. */
  lemma TunedBackwards(lo: int, hi: int)
    requires 0 < lo < hi <= MAX_INT32
    ensures DesiredExecutorCount(Sizing(0, lo, hi, 256 * MAX_INT32)) == hi
    ensures DesiredExecutorCount(Sizing(0, lo, hi, 256 * (MAX_INT32 + 1))) == lo
  {
  }

  /** Exactly up to which input sizes tuning is monotone. */
  lemma TunedMonotonicallyExactly(lo: int, hi: int, cap: int)
    requires 0 < lo < hi <= MAX_INT32 && 0 < cap
    ensures (forall a, b | 0 < a <= b <= cap ::
               DesiredExecutorCount(Sizing(0, lo, hi, a)) <= DesiredExecutorCount(Sizing(0, lo, hi, b)))
            <==> cap / 256 <= MAX_INT32
  {
    TunedBackwards(lo, hi);
    if cap / 256 <= MAX_INT32 {
      forall a, b | 0 < a <= b <= cap
        ensures DesiredExecutorCount(Sizing(0, lo, hi, a)) <= DesiredExecutorCount(Sizing(0, lo, hi, b))
      {
        TunedMonotonically(Sizing(0, lo, hi, a), b);
      }
    } else {
      assert 0 < 256 * MAX_INT32 <= 256 * (MAX_INT32 + 1) <= cap;
    }
  }
}
