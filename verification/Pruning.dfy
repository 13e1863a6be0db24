/** The children of a cron template and the pruning of their history. */
module Pruning {
  import opened Common
  import opened Text

  /** A child SparkJob; `fire` is the fire time it runs for, `created` its creation timestamp. */
  datatype Child = Child(uid: int, phase: Phase, created: Time, fire: Time)

  /** The children in the store, by name. */
  type Children = map<string, Child>

  function Active(kids: Children): set<string> {
    set n | n in kids && !Terminal(kids[n].phase)
  }

  function WithPhase(kids: Children, p: Phase): set<string> {
    set n | n in kids && kids[n].phase == p
  }

  /** Of one outcome exactly `min(n, keep)` children stay, and none that stays is older than one that went. */
  ghost predicate KeepsNewest(before: Children, after: Children, outcome: Phase, keep: int) {
    && |WithPhase(after, outcome)| == Min(|WithPhase(before, outcome)|, keep)
    && forall n, m | n in WithPhase(after, outcome) && m in WithPhase(before, outcome) - WithPhase(after, outcome) ::
         before[m].created <= after[n].created
  }

  ghost predicate Pruned(before: Children, after: Children, keepSucceeded: int, keepFailed: int) {
    && after.Keys <= before.Keys
    && (forall n | n in after :: after[n] == before[n])
    && Active(after) == Active(before)
    && KeepsNewest(before, after, Succeeded, keepSucceeded)
    && KeepsNewest(before, after, Failed, keepFailed)
  }

  lemma Partition(kids: Children)
    ensures |kids| == |Active(kids)| + |WithPhase(kids, Succeeded)| + |WithPhase(kids, Failed)|
  {
    var rest := WithPhase(kids, Succeeded) + WithPhase(kids, Failed);
    assert kids.Keys == Active(kids) + rest;
    assert |kids.Keys| == |Active(kids)| + |rest|;
  }

  lemma SubsetOfSameSize<T>(small: set<T>, big: set<T>)
    requires small <= big && |big| <= |small|
    ensures small == big
  {
    assert big == small + (big - small);
  }

  /** A second prune finds nothing to delete. */
  lemma PruneIsIdempotent(a: Children, b: Children, c: Children, keepSucceeded: int, keepFailed: int)
    requires Pruned(a, b, keepSucceeded, keepFailed) && Pruned(b, c, keepSucceeded, keepFailed)
    ensures c == b
  {
    SubsetOfSameSize(WithPhase(c, Succeeded), WithPhase(b, Succeeded));
    SubsetOfSameSize(WithPhase(c, Failed), WithPhase(b, Failed));
    assert forall n | n in b :: n in Active(b) || n in WithPhase(b, Succeeded) || n in WithPhase(b, Failed);
  }

  /** When no two children of an outcome share a creation time, the unstable sort cannot matter. */
  lemma PruneIsDeterministicWithoutTies(a: Children, b: Children, c: Children, keepSucceeded: int, keepFailed: int)
    requires Pruned(a, b, keepSucceeded, keepFailed) && Pruned(a, c, keepSucceeded, keepFailed)
    requires forall n, m | n in a && m in a && a[n].phase == a[m].phase && n != m :: a[n].created != a[m].created
    ensures b == c
  {
    SameSurvivors(a, b, c, Succeeded, keepSucceeded);
    SameSurvivors(a, b, c, Failed, keepFailed);
    assert forall n | n in a :: n in Active(a) || n in WithPhase(a, Succeeded) || n in WithPhase(a, Failed);
    forall n | n in a ensures n in b <==> n in c {
      assert n in b <==> n in Active(b) || n in WithPhase(b, Succeeded) || n in WithPhase(b, Failed);
      assert n in c <==> n in Active(c) || n in WithPhase(c, Succeeded) || n in WithPhase(c, Failed);
    }
    assert b.Keys == c.Keys;
  }

  lemma SameSurvivors(a: Children, b: Children, c: Children, outcome: Phase, keep: int)
    requires KeepsNewest(a, b, outcome, keep) && KeepsNewest(a, c, outcome, keep)
    requires b.Keys <= a.Keys && c.Keys <= a.Keys
    requires forall n | n in b :: b[n] == a[n]
    requires forall n | n in c :: c[n] == a[n]
    requires forall n, m | n in a && m in a && a[n].phase == a[m].phase && n != m :: a[n].created != a[m].created
    ensures WithPhase(b, outcome) == WithPhase(c, outcome)
  {
    var sa, sb, sc := WithPhase(a, outcome), WithPhase(b, outcome), WithPhase(c, outcome);
    assert sb <= sa && sc <= sa;
    assert forall n, m | n in sb - sc && m in sc - sb ::
        n in sa - sc && m in sa - sb && a[m].created <= a[n].created <= a[m].created;
    assert sb <= sc || sc <= sb;
    if sb <= sc {
      SubsetOfSameSize(sb, sc);
    } else {
      SubsetOfSameSize(sc, sb);
    }
  }

  /** A pruned history is bounded by the limits, whatever its children do afterwards. */
  lemma PrunedSize(before: Children, after: Children, keepSucceeded: int, keepFailed: int)
    requires Pruned(before, after, keepSucceeded, keepFailed)
    ensures |after| <= |Active(before)| + keepSucceeded + keepFailed
  {
    Partition(after);
  }

  // ---- the sort of pruneHistory ----

  /** One item of a child list: the name and the child as it was when listed. */
  datatype Listed = Listed(name: string, child: Child)

  ghost predicate NewestFirst(names: seq<string>, kids: Children)
    requires forall n | n in names :: n in kids
  {
    forall i, j | 0 <= i < j < |names| :: kids[names[j]].created <= kids[names[i]].created
  }

  /** `sort.Slice` by descending creation time; nothing is promised about ties. */
  method SortNewestFirst(names: seq<string>, kids: Children) returns (sorted: seq<string>)
    requires Distinct(names) && forall n | n in names :: n in kids
    ensures Distinct(sorted) && Elements(sorted) == Elements(names)
    ensures forall n | n in sorted :: n in kids
    ensures NewestFirst(sorted, kids)
  {
    sorted := [];
    for i := 0 to |names|
      invariant Distinct(sorted) && Elements(sorted) == Elements(names[..i])
      invariant forall n | n in sorted :: n in kids
      invariant NewestFirst(sorted, kids)
    {
      assert names[i] !in Elements(names[..i]);
      var at := 0;
      while at < |sorted| && kids[names[i]].created <= kids[sorted[at]].created
        invariant 0 <= at <= |sorted|
        invariant forall k | 0 <= k < at :: kids[names[i]].created <= kids[sorted[k]].created
      {
        at := at + 1;
      }
      sorted := InsertAt(sorted, at, names[i]);
      assert Elements(names[..i + 1]) == Elements(names[..i]) + {names[i]};
    }
    assert names[..|names|] == names;
  }

  function InsertAt(s: seq<string>, at: nat, x: string): (r: seq<string>)
    requires at <= |s|
    ensures Elements(r) == Elements(s) + {x}
    ensures x !in s && Distinct(s) ==> Distinct(r)
  {
    assert Elements(s[..at] + [x] + s[at..]) == Elements(s) + {x} by {
      assert s == s[..at] + s[at..];
    }
    s[..at] + [x] + s[at..]
  }
}
