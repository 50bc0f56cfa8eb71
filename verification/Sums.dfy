/** Totals over sequences and maps. */
module Sums {

  function Sum<T>(xs: seq<T>, f: T -> int): int {
    if xs == [] then 0 else Sum(xs[..|xs| - 1], f) + f(xs[|xs| - 1])
  }

  lemma SumAppend<T>(xs: seq<T>, x: T, f: T -> int)
    ensures Sum(xs + [x], f) == Sum(xs, f) + f(x)
  {
    assert (xs + [x])[..|xs + [x]| - 1] == xs;
  }

  lemma {:induction false} SumUpdate<T>(xs: seq<T>, i: nat, x: T, f: T -> int)
    requires i < |xs|
    ensures Sum(xs[i := x], f) == Sum(xs, f) - f(xs[i]) + f(x)
  {
    var n := |xs| - 1;
    if i < n {
      SumUpdate(xs[..n], i, x, f);
      assert xs[i := x][..n] == xs[..n][i := x];
    } else {
      assert xs[i := x][..n] == xs[..n];
    }
  }

  lemma {:induction false} SumSplit<T>(xs: seq<T>, f: T -> int, g: T -> int, h: T -> int)
    requires forall x :: x in xs ==> f(x) == g(x) + h(x)
    ensures Sum(xs, f) == Sum(xs, g) + Sum(xs, h)
  {
    if xs != [] {
      SumSplit(xs[..|xs| - 1], f, g, h);
    }
  }

  lemma {:induction false} SumScaled<T>(xs: seq<T>, f: T -> int, g: T -> int, k: int)
    requires forall x :: x in xs ==> f(x) == k * g(x)
    ensures Sum(xs, f) == k * Sum(xs, g)
  {
    if xs != [] {
      SumScaled(xs[..|xs| - 1], f, g, k);
    }
  }

  lemma {:induction false} SumBounds<T>(xs: seq<T>, f: T -> int)
    requires forall x :: x in xs ==> f(x) >= 0
    ensures Sum(xs, f) >= 0
    ensures forall x :: x in xs ==> f(x) <= Sum(xs, f)
  {
    if xs != [] {
      SumBounds(xs[..|xs| - 1], f);
      assert forall x :: x in xs ==> x in xs[..|xs| - 1] || x == xs[|xs| - 1];
    }
  }

  lemma {:induction false} SumMonotone<T>(xs: seq<T>, f: T -> int, g: T -> int)
    requires forall x :: x in xs ==> f(x) <= g(x)
    ensures Sum(xs, f) <= Sum(xs, g)
  {
    if xs != [] {
      SumMonotone(xs[..|xs| - 1], f, g);
    }
  }

  lemma {:induction false} SumZero<T>(xs: seq<T>, f: T -> int)
    requires forall x :: x in xs ==> f(x) == 0
    ensures Sum(xs, f) == 0
  {
    if xs != [] {
      SumZero(xs[..|xs| - 1], f);
    }
  }

  ghost function MapSum<K, V>(m: map<K, V>, f: V -> int): int
    decreases |m|
  {
    if m == map[] then 0
    else
      var k :| k in m;
      f(m[k]) + MapSum(m - {k}, f)
  }

  /** The total does not depend on which key is taken out first. */
  lemma {:induction false} MapSumWithout<K, V>(m: map<K, V>, k: K, f: V -> int)
    requires k in m
    ensures MapSum(m, f) == f(m[k]) + MapSum(m - {k}, f)
    decreases |m|
  {
    var j :| j in m && MapSum(m, f) == f(m[j]) + MapSum(m - {j}, f);
    if j != k {
      MapSumWithout(m - {j}, k, f);
      MapSumWithout(m - {k}, j, f);
      assert m - {j} - {k} == m - {k} - {j};
    }
  }

  /** A map whose entries are exactly those of the chosen elements, under distinct keys, has their
      total. */
  lemma {:induction false} MapSumIsSum<T, K, V>(
      xs: seq<T>, m: map<K, V>, chosen: T -> bool, key: T -> K, value: T -> V, f: V -> int, weight: T -> int)
    requires forall i :: 0 <= i < |xs| && chosen(xs[i]) ==> key(xs[i]) in m && m[key(xs[i])] == value(xs[i])
    requires forall k :: k in m ==> exists i :: 0 <= i < |xs| && chosen(xs[i]) && key(xs[i]) == k
    requires forall i, j :: 0 <= i < j < |xs| && chosen(xs[i]) && chosen(xs[j]) ==> key(xs[i]) != key(xs[j])
    requires forall x :: x in xs ==> weight(x) == if chosen(x) then f(value(x)) else 0
    ensures MapSum(m, f) == Sum(xs, weight)
  {
    if xs == [] {
      assert m == map[];
    } else {
      var front, last := xs[..|xs| - 1], xs[|xs| - 1];
      if chosen(last) {
        var m' := m - {key(last)};
        forall k | k in m' ensures exists i :: 0 <= i < |front| && chosen(front[i]) && key(front[i]) == k {
          var i :| 0 <= i < |xs| && chosen(xs[i]) && key(xs[i]) == k;
          assert front[i] == xs[i];
        }
        MapSumIsSum(front, m', chosen, key, value, f, weight);
        MapSumWithout(m, key(last), f);
      } else {
        forall k | k in m ensures exists i :: 0 <= i < |front| && chosen(front[i]) && key(front[i]) == k {
          var i :| 0 <= i < |xs| && chosen(xs[i]) && key(xs[i]) == k;
          assert front[i] == xs[i];
        }
        MapSumIsSum(front, m, chosen, key, value, f, weight);
      }
    }
  }
}
