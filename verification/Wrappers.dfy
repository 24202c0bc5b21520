/** Types and sums shared by the models. */
module Wrappers {
  datatype Option<+T> = None | Some(value: T)

  /** Sum of the weights in s. */
  function Sum(s: seq<nat>): nat {
    if s == [] then 0 else Sum(s[..|s| - 1]) + s[|s| - 1]
  }

  lemma {:induction false} SumUpdate(s: seq<nat>, i: nat, v: nat)
    requires i < |s|
    ensures Sum(s[i := v]) + s[i] == Sum(s) + v
  {
    var n := |s| - 1;
    if i < n {
      SumUpdate(s[..n], i, v);
      assert s[i := v][..n] == s[..n][i := v];
    } else {
      assert s[i := v][..n] == s[..n];
    }
  }

  lemma {:induction false} SumHas(s: seq<nat>, i: nat)
    requires i < |s|
    ensures s[i] <= Sum(s)
  {
    if i < |s| - 1 { SumHas(s[..|s| - 1], i); }
  }

  lemma {:induction false} SumZero(s: seq<nat>)
    requires forall i: nat | i < |s| :: s[i] == 0
    ensures Sum(s) == 0
  {
    if s != [] { SumZero(s[..|s| - 1]); }
  }

  lemma {:induction false} SumBound(s: seq<nat>, k: nat)
    requires forall i | 0 <= i < |s| :: s[i] <= k
    ensures Sum(s) <= |s| * k
  {
    if s != [] {
      SumBound(s[..|s| - 1], k);
    }
  }

  lemma {:induction false} SumMonotone(a: seq<nat>, b: seq<nat>)
    requires |a| == |b| && forall i | 0 <= i < |a| :: a[i] <= b[i]
    ensures Sum(a) <= Sum(b)
  {
    if a != [] { SumMonotone(a[..|a| - 1], b[..|a| - 1]); }
  }

  /** Everything held by the holders in s. */
  ghost function Union<T>(s: seq<multiset<T>>): multiset<T> {
    if s == [] then multiset{} else Union(s[..|s| - 1]) + s[|s| - 1]
  }

  lemma {:induction false} UnionGains<T>(s: seq<multiset<T>>, i: nat, a: multiset<T>)
    requires i < |s|
    ensures Union(s[i := s[i] + a]) == Union(s) + a
  {
    var n := |s| - 1;
    if i < n {
      UnionGains(s[..n], i, a);
      assert s[i := s[i] + a][..n] == s[..n][i := s[..n][i] + a];
    } else {
      assert s[i := s[i] + a][..n] == s[..n];
    }
  }

  lemma UnionLoses<T>(s: seq<multiset<T>>, i: nat, v: multiset<T>, a: multiset<T>)
    requires i < |s| && s[i] == v + a
    ensures Union(s) == Union(s[i := v]) + a
  {
    UnionGains(s[i := v], i, a);
    assert s[i := v][i := v + a] == s;
  }

  lemma {:induction false} UnionHas<T>(s: seq<multiset<T>>, i: nat)
    requires i < |s|
    ensures s[i] <= Union(s)
  {
    if i < |s| - 1 { UnionHas(s[..|s| - 1], i); }
  }

  lemma {:induction false} UnionHasTwo<T>(s: seq<multiset<T>>, i: nat, j: nat)
    requires i < |s| && j < |s| && i != j
    ensures s[i] + s[j] <= Union(s)
  {
    var n := |s| - 1;
    if i == n {
      UnionHas(s[..n], j);
    } else if j == n {
      UnionHas(s[..n], i);
    } else {
      UnionHasTwo(s[..n], i, j);
    }
  }

  lemma {:induction false} UnionFrom<T>(s: seq<multiset<T>>, x: T) returns (i: nat)
    requires x in Union(s)
    ensures i < |s| && x in s[i]
  {
    if x in s[|s| - 1] { i := |s| - 1; } else { i := UnionFrom(s[..|s| - 1], x); }
  }
}
