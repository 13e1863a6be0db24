/** Go strings: the order `sort.Strings` uses, sorted enumerations of sets, decimal numerals. */
module Text {

  /** Go's `<` on strings. */
  predicate Less(a: string, b: string) {
    if b == [] then false
    else if a == [] then true
    else a[0] < b[0] || (a[0] == b[0] && Less(a[1..], b[1..]))
  }

  lemma LessIrreflexive(a: string)
    ensures !Less(a, a)
  {
  }

  lemma {:induction false} LessTotal(a: string, b: string)
    ensures a == b || Less(a, b) || Less(b, a)
  {
    if a != [] && b != [] && a[0] == b[0] {
      LessTotal(a[1..], b[1..]);
      assert a == [a[0]] + a[1..] && b == [b[0]] + b[1..];
    }
  }

  lemma {:induction false} LessTransitive(a: string, b: string, c: string)
    requires Less(a, b) && Less(b, c)
    ensures Less(a, c)
  {
    if a != [] && a[0] == b[0] == c[0] {
      LessTransitive(a[1..], b[1..], c[1..]);
    }
  }

  ghost predicate Ascending(s: seq<string>) {
    forall i, j | 0 <= i < j < |s| :: Less(s[i], s[j])
  }

  ghost predicate Distinct<T>(s: seq<T>) {
    forall i, j | 0 <= i < j < |s| :: s[i] != s[j]
  }

  ghost function Elements<T>(s: seq<T>): set<T> {
    set x | x in s
  }

  lemma AnElement<T>(s: set<T>) returns (x: T)
    requires s != {}
    ensures x in s
  {
    x :| x in s;
  }

  lemma {:induction false} DistinctCardinality<T>(s: seq<T>)
    requires Distinct(s)
    ensures |Elements(s)| == |s|
  {
    if s != [] {
      DistinctCardinality(s[1..]);
      assert Elements(s) == {s[0]} + Elements(s[1..]);
      assert s[0] !in s[1..];
    }
  }

  ghost predicate IsLeast(m: string, s: set<string>) {
    m in s && forall x | x in s :: x == m || Less(m, x)
  }

  lemma {:induction false} LeastExists(s: set<string>) returns (m: string)
    requires s != {}
    ensures IsLeast(m, s)
    decreases |s|
  {
    var a :| a in s;
    if s == {a} {
      m := a;
    } else {
      var n := LeastExists(s - {a});
      LessTotal(a, n);
      m := if Less(a, n) then a else n;
      forall x | x in s ensures x == m || Less(m, x) {
        if m == a && x != a && x != n {
          LessTransitive(a, n, x);
        }
      }
    }
  }

  lemma SomeLeast(s: set<string>)
    requires s != {}
    ensures exists m :: IsLeast(m, s)
  {
    var m := LeastExists(s);
  }

  /** The elements of a set of strings in the order `sort.Strings` leaves them. */
  ghost function Sorted(s: set<string>): seq<string>
    decreases |s|
  {
    if s == {} then [] else
      SomeLeast(s);
      var m :| IsLeast(m, s);
      [m] + Sorted(s - {m})
  }

  lemma {:induction false} SortedIsAscending(s: set<string>)
    ensures Ascending(Sorted(s)) && Elements(Sorted(s)) == s
    decreases |s|
  {
    if s != {} {
      var r := Sorted(s);
      SortedIsAscending(s - {r[0]});
      forall x ensures x in Elements(r) <==> x in s {
        assert x in r <==> x == r[0] || x in r[1..];
        assert x in Elements(r[1..]) <==> x in r[1..];
      }
      forall j | 0 < j < |r| ensures Less(r[0], r[j]) {
        assert r[j] in Elements(r[1..]);
      }
    }
  }

  lemma AscendingIsDistinct(s: seq<string>)
    requires Ascending(s)
    ensures Distinct(s)
  {
    forall i, j | 0 <= i < j < |s| ensures s[i] != s[j] {
      LessIrreflexive(s[i]);
    }
  }

  /** There is only one ascending enumeration of a set, so whoever sorts the keys prints the same text. */
  lemma {:induction false} AscendingIsUnique(a: seq<string>, b: seq<string>)
    requires Ascending(a) && Ascending(b) && Elements(a) == Elements(b)
    ensures a == b
  {
    assert a != [] ==> a[0] in Elements(b);
    assert b != [] ==> b[0] in Elements(a);
    if a != [] {
      var i :| 0 <= i < |b| && b[i] == a[0];
      var j :| 0 <= j < |a| && a[j] == b[0];
      if i > 0 && j > 0 {
        LessTransitive(a[0], b[0], a[0]);
        LessIrreflexive(a[0]);
      }
      assert a[0] == b[0];
      AscendingIsDistinct(a);
      AscendingIsDistinct(b);
      assert Elements(a[1..]) == Elements(a) - {a[0]};
      assert Elements(b[1..]) == Elements(b) - {b[0]};
      AscendingIsUnique(a[1..], b[1..]);
    }
  }

  // ---- sort.Strings ----

  /** Sorts distinct strings, as `sort.Strings` does to the keys of a map. */
  method SortStrings(keys: seq<string>) returns (sorted: seq<string>)
    requires Distinct(keys)
    ensures sorted == Sorted(Elements(keys))
  {
    sorted := [];
    for i := 0 to |keys|
      invariant Ascending(sorted) && Elements(sorted) == Elements(keys[..i])
    {
      assert keys[i] !in Elements(keys[..i]);
      sorted := InsertAscending(sorted, keys[i]);
      assert Elements(keys[..i + 1]) == Elements(keys[..i]) + {keys[i]};
    }
    assert keys[..|keys|] == keys;
    SortedIsAscending(Elements(keys));
    AscendingIsUnique(sorted, Sorted(Elements(keys)));
  }

  method InsertAscending(s: seq<string>, x: string) returns (r: seq<string>)
    requires Ascending(s) && x !in Elements(s)
    ensures Ascending(r) && Elements(r) == Elements(s) + {x}
  {
    var i := 0;
    while i < |s| && Less(s[i], x)
      invariant 0 <= i <= |s|
      invariant forall k | 0 <= k < i :: Less(s[k], x)
    {
      i := i + 1;
    }
    forall k | i <= k < |s| ensures Less(x, s[k]) {
      assert s[i] in Elements(s);
      LessTotal(x, s[i]);
      if i < k {
        LessTransitive(x, s[i], s[k]);
      }
    }
    r := s[..i] + [x] + s[i..];
    forall y ensures y in Elements(r) <==> y in Elements(s) + {x} {
      assert s == s[..i] + s[i..];
    }
  }

  /** The elements of a set, each once, in an order nobody promises: how Go walks a map. */
  method Enumerate<T(==)>(s: set<T>) returns (order: seq<T>)
    ensures Distinct(order) && Elements(order) == s
  {
    order := [];
    var rest := s;
    while rest != {}
      invariant Distinct(order) && Elements(order) == s - rest && rest <= s
      decreases rest
    {
      var x :| x in rest;
      assert x !in Elements(order);
      assert Elements(order + [x]) == Elements(order) + {x};
      order := order + [x];
      rest := rest - {x};
    }
  }

  // ---- strconv.Itoa ----

  const DIGITS := "0123456789"

  function Digits(n: nat): string {
    if n < 10 then [DIGITS[n]] else Digits(n / 10) + [DIGITS[n % 10]]
  }

  function Itoa(n: int): string {
    if n < 0 then "-" + Digits(-n) else Digits(n)
  }

  lemma {:induction false} DigitsHasNoSign(n: nat)
    ensures Digits(n) != [] && Digits(n)[0] != '-'
  {
    if n >= 10 {
      DigitsHasNoSign(n / 10);
    }
  }

  lemma {:induction false} DigitsInjective(m: nat, n: nat)
    requires Digits(m) == Digits(n)
    ensures m == n
  {
    DigitsHasNoSign(m / 10);
    DigitsHasNoSign(n / 10);
    assert m >= 10 ==> |Digits(m)| >= 2;
    assert n >= 10 ==> |Digits(n)| >= 2;
    if m < 10 {
      assert DIGITS[m] == DIGITS[n];
    } else {
      var a, b := Digits(m), Digits(n);
      assert a[..|a| - 1] == Digits(m / 10) && b[..|b| - 1] == Digits(n / 10);
      assert a[|a| - 1] == DIGITS[m % 10] && b[|b| - 1] == DIGITS[n % 10];
      DigitsInjective(m / 10, n / 10);
    }
  }

  lemma ItoaInjective(m: int, n: int)
    requires Itoa(m) == Itoa(n)
    ensures m == n
  {
    if m < 0 && n < 0 {
      assert Itoa(m)[1..] == Digits(-m) && Itoa(n)[1..] == Digits(-n);
      DigitsInjective(-m, -n);
    } else if m >= 0 && n >= 0 {
      DigitsInjective(m, n);
    } else {
      DigitsHasNoSign(if m < 0 then n else m);
    }
  }
}
