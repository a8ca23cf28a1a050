/** Sums, filters and maps over table rows, as the SQL aggregates and `Array` methods of the services use them. */
module Folds {
  datatype Option<+T> = None | Some(value: T)

  /** SUM(f(row)) over the rows, 0 when there are none. */
  function Sum<T>(xs: seq<T>, f: T -> int): int {
    if xs == [] then 0 else Sum(xs[..|xs| - 1], f) + f(xs[|xs| - 1])
  }

  /** The rows that satisfy a WHERE clause, in table order. */
  function Filter<T>(xs: seq<T>, p: T -> bool): seq<T> {
    if xs == [] then []
    else Filter(xs[..|xs| - 1], p) + (if p(xs[|xs| - 1]) then [xs[|xs| - 1]] else [])
  }

  function Map<S, T>(xs: seq<S>, f: S -> T): (ys: seq<T>)
    ensures |ys| == |xs|
    ensures forall i :: 0 <= i < |xs| ==> ys[i] == f(xs[i])
  {
    if xs == [] then [] else Map(xs[..|xs| - 1], f) + [f(xs[|xs| - 1])]
  }

  function FlatMap<S, T>(xs: seq<S>, f: S -> seq<T>): seq<T> {
    if xs == [] then [] else FlatMap(xs[..|xs| - 1], f) + f(xs[|xs| - 1])
  }

  lemma {:induction false} SumConcat<T>(a: seq<T>, b: seq<T>, f: T -> int)
    ensures Sum(a + b, f) == Sum(a, f) + Sum(b, f)
  {
    if b == [] {
      assert a + b == a;
    } else {
      assert (a + b)[..|a + b| - 1] == a + b[..|b| - 1];
      SumConcat(a, b[..|b| - 1], f);
    }
  }

  lemma SumOne<T>(x: T, f: T -> int)
    ensures Sum([x], f) == f(x)
  {
    assert [x][..0] == [];
  }

  lemma SumSnoc<T>(a: seq<T>, x: T, f: T -> int)
    ensures Sum(a + [x], f) == Sum(a, f) + f(x)
  {
    assert (a + [x])[..|a|] == a;
  }

  lemma {:induction false} SumEqual<T>(xs: seq<T>, f: T -> int, g: T -> int)
    requires forall x :: x in xs ==> f(x) == g(x)
    ensures Sum(xs, f) == Sum(xs, g)
  {
    if xs != [] {
      SumEqual(xs[..|xs| - 1], f, g);
    }
  }

  lemma {:induction false} SumZero<T>(xs: seq<T>, f: T -> int)
    requires forall x :: x in xs ==> f(x) == 0
    ensures Sum(xs, f) == 0
  {
    if xs != [] {
      SumZero(xs[..|xs| - 1], f);
    }
  }

  /** h = f + g row by row gives the same for the sums. */
  lemma {:induction false} SumPlus<T>(xs: seq<T>, f: T -> int, g: T -> int, h: T -> int)
    requires forall x :: x in xs ==> h(x) == f(x) + g(x)
    ensures Sum(xs, h) == Sum(xs, f) + Sum(xs, g)
  {
    if xs != [] {
      SumPlus(xs[..|xs| - 1], f, g, h);
    }
  }

  lemma {:induction false} SumMinus<T>(xs: seq<T>, f: T -> int, g: T -> int, h: T -> int)
    requires forall x :: x in xs ==> h(x) == f(x) - g(x)
    ensures Sum(xs, h) == Sum(xs, f) - Sum(xs, g)
  {
    if xs != [] {
      SumMinus(xs[..|xs| - 1], f, g, h);
    }
  }

  lemma {:induction false} SumNonNegative<T>(xs: seq<T>, f: T -> int)
    requires forall x :: x in xs ==> f(x) >= 0
    ensures Sum(xs, f) >= 0
  {
    if xs != [] {
      SumNonNegative(xs[..|xs| - 1], f);
    }
  }

  lemma SumSplit<T>(xs: seq<T>, i: nat, f: T -> int)
    requires i < |xs|
    ensures Sum(xs, f) == Sum(xs[..i], f) + f(xs[i]) + Sum(xs[i + 1..], f)
  {
    assert xs == xs[..i + 1] + xs[i + 1..];
    SumConcat(xs[..i + 1], xs[i + 1..], f);
    assert xs[..i + 1][..i] == xs[..i];
  }

  /** Replacing one row changes the sum by the difference of the two contributions. */
  lemma SumUpdate<T>(xs: seq<T>, i: nat, x: T, f: T -> int)
    requires i < |xs|
    ensures Sum(xs[i := x], f) == Sum(xs, f) - f(xs[i]) + f(x)
  {
    SumSplit(xs, i, f);
    SumSplit(xs[i := x], i, f);
    assert xs[i := x][..i] == xs[..i] && xs[i := x][i + 1..] == xs[i + 1..];
  }

  /** A sum over mapped rows is a sum over the rows. */
  lemma {:induction false} SumMap<S, T>(xs: seq<S>, m: S -> T, f: T -> int, g: S -> int)
    requires forall x :: x in xs ==> f(m(x)) == g(x)
    ensures Sum(Map(xs, m), f) == Sum(xs, g)
  {
    if xs != [] {
      SumMap(xs[..|xs| - 1], m, f, g);
      SumSnoc(Map(xs[..|xs| - 1], m), m(xs[|xs| - 1]), f);
    }
  }

  lemma {:induction false} SumFlatMap<S, T>(xs: seq<S>, m: S -> seq<T>, f: T -> int, g: S -> int)
    requires forall x :: x in xs ==> Sum(m(x), f) == g(x)
    ensures Sum(FlatMap(xs, m), f) == Sum(xs, g)
  {
    if xs != [] {
      SumFlatMap(xs[..|xs| - 1], m, f, g);
      SumConcat(FlatMap(xs[..|xs| - 1], m), m(xs[|xs| - 1]), f);
    }
  }

  lemma {:induction false} InFlatMap<S, T>(xs: seq<S>, m: S -> seq<T>, y: T)
    requires y in FlatMap(xs, m)
    ensures exists x :: x in xs && y in m(x)
  {
    if y !in m(xs[|xs| - 1]) {
      InFlatMap(xs[..|xs| - 1], m, y);
    }
  }

  /** Summing after a WHERE is summing a CASE WHEN. */
  lemma {:induction false} SumFilter<T>(xs: seq<T>, p: T -> bool, f: T -> int, g: T -> int)
    requires forall x :: x in xs ==> g(x) == if p(x) then f(x) else 0
    ensures Sum(Filter(xs, p), f) == Sum(xs, g)
  {
    if xs != [] {
      SumFilter(xs[..|xs| - 1], p, f, g);
      if p(xs[|xs| - 1]) {
        SumSnoc(Filter(xs[..|xs| - 1], p), xs[|xs| - 1], f);
      } else {
        assert Filter(xs[..|xs| - 1], p) + [] == Filter(xs[..|xs| - 1], p);
      }
    }
  }

  lemma {:induction false} FilterConcat<T>(a: seq<T>, b: seq<T>, p: T -> bool)
    ensures Filter(a + b, p) == Filter(a, p) + Filter(b, p)
  {
    if b == [] {
      assert a + b == a;
      assert Filter(a, p) + [] == Filter(a, p);
    } else {
      assert (a + b)[..|a + b| - 1] == a + b[..|b| - 1];
      FilterConcat(a, b[..|b| - 1], p);
    }
  }

  lemma {:induction false} FilterAll<T>(xs: seq<T>, p: T -> bool)
    requires forall x :: x in xs ==> p(x)
    ensures Filter(xs, p) == xs
  {
    if xs != [] {
      assert xs == xs[..|xs| - 1] + [xs[|xs| - 1]];
      FilterAll(xs[..|xs| - 1], p);
    }
  }

  lemma {:induction false} FilterNone<T>(xs: seq<T>, p: T -> bool)
    requires forall x :: x in xs ==> !p(x)
    ensures Filter(xs, p) == []
  {
    if xs != [] {
      FilterNone(xs[..|xs| - 1], p);
    }
  }

  lemma {:induction false} InFilter<T>(xs: seq<T>, p: T -> bool, x: T)
    ensures x in Filter(xs, p) <==> x in xs && p(x)
  {
    if xs != [] {
      InFilter(xs[..|xs| - 1], p, x);
    }
  }

  lemma {:induction false} FilterEqual<T>(xs: seq<T>, p: T -> bool, q: T -> bool)
    requires forall x :: x in xs ==> p(x) == q(x)
    ensures Filter(xs, p) == Filter(xs, q)
  {
    if xs != [] {
      FilterEqual(xs[..|xs| - 1], p, q);
    }
  }

  /** f on the rows that satisfy p, 0 on the others. */
  function When<T>(p: T -> bool, f: T -> int): T -> int { (x: T) => if p(x) then f(x) else 0 }

  // ---------- GROUP BY ----------

  /** f on the rows of one group, 0 elsewhere. */
  function InGroup<T, K(==)>(key: T -> Option<K>, k: K, f: T -> int): T -> int {
    (x: T) => if key(x) == Some(k) then f(x) else 0
  }

  function InGroups<T, K(==)>(key: T -> Option<K>, keys: seq<K>, f: T -> int): T -> int {
    (x: T) => if key(x).Some? && key(x).value in keys then f(x) else 0
  }

  /** The per-group totals of a GROUP BY, as a function of the group's key. */
  function GroupTotal<T, K(==)>(xs: seq<T>, key: T -> Option<K>, f: T -> int): K -> int {
    (k: K) => Sum(xs, InGroup(key, k, f))
  }

  predicate Distinct<K(==)>(keys: seq<K>) {
    forall i, j :: 0 <= i < j < |keys| ==> keys[i] != keys[j]
  }

  /** Group totals add up to the total over the rows that fall in some group. */
  lemma {:induction false} SumByGroups<T, K>(xs: seq<T>, key: T -> Option<K>, keys: seq<K>, f: T -> int)
    requires Distinct(keys)
    ensures Sum(keys, GroupTotal(xs, key, f)) == Sum(xs, InGroups(key, keys, f))
  {
    if keys == [] {
      SumZero(xs, InGroups(key, keys, f));
    } else {
      var init, k := keys[..|keys| - 1], keys[|keys| - 1];
      SumByGroups(xs, key, init, f);
      assert keys == init + [k];
      SumPlus(xs, InGroups(key, init, f), InGroup(key, k, f), InGroups(key, keys, f));
    }
  }

  /** 0, 1, ..., n - 1. */
  function Indices(n: nat): (s: seq<int>)
    ensures |s| == n && Distinct(s) && forall i :: i in s <==> 0 <= i < n
    ensures forall i :: 0 <= i < n ==> s[i] == i
  {
    if n == 0 then [] else Indices(n - 1) + [n - 1]
  }
}
