/**
  Generic helpers shared by the sensing code and the planners: Python's
  `None`, the default-zero lookup of Pacman's `util.Counter`, list filters,
  `max(..., key=...)`, `list.remove`, and the real-valued sums that make up a
  Bellman backup.
 */
module Util {

  datatype Option<+T> = None | Some(value: T)

  function Abs(x: real): (r: real)
    ensures r >= 0.0 && (r == x || r == -x)
  {
    if x < 0.0 then -x else x
  }

  function Max(a: real, b: real): (r: real)
    ensures r >= a && r >= b && (r == a || r == b)
  {
    if a >= b then a else b
  }

  /** `util.Counter` lookup: a key that was never written reads as 0. */
  function Get<K>(m: map<K, real>, k: K): real
  {
    if k in m then m[k] else 0.0
  }

  predicate NoDuplicates<T(==)>(s: seq<T>)
  {
    forall i, j :: 0 <= i < j < |s| ==> s[i] != s[j]
  }

  /** The members of a list, as Python's `set(list)`. */
  function ToSet<T>(s: seq<T>): set<T>
  {
    set x | x in s
  }

  // ---------------------------------------------------------------------
  // Filtering a list, as the `append`-in-a-loop idiom of the sensors does
  // ---------------------------------------------------------------------

  /** The elements of `s` that satisfy `p`, in their original order. */
  function Filter<T>(s: seq<T>, p: T -> bool): (r: seq<T>)
    ensures |r| <= |s|
    decreases |s|
  {
    if s == [] then []
    else
      var n := |s| - 1;
      Filter(s[..n], p) + (if p(s[n]) then [s[n]] else [])
  }

  /** `a` is `b` with some elements dropped, order kept. */
  ghost predicate SubList<T>(a: seq<T>, b: seq<T>)
    decreases |b|
  {
    if a == [] then true
    else if b == [] then false
    else
      (a[|a| - 1] == b[|b| - 1] && SubList(a[..|a| - 1], b[..|b| - 1]))
      || SubList(a, b[..|b| - 1])
  }

  /** Filtering one element further along the list. */
  lemma FilterStep<T>(s: seq<T>, i: nat, p: T -> bool)
    requires i < |s|
    ensures Filter(s[..i + 1], p) == Filter(s[..i], p) + (if p(s[i]) then [s[i]] else [])
  {
    assert s[..i + 1][..i] == s[..i];
  }

  lemma {:induction false} FilterMembership<T>(s: seq<T>, p: T -> bool)
    ensures forall x :: x in Filter(s, p) <==> x in s && p(x)
    decreases |s|
  {
    if s != [] {
      var n := |s| - 1;
      FilterMembership(s[..n], p);
      assert s == s[..n] + [s[n]];
    }
  }

  lemma {:induction false} FilterMultiset<T>(s: seq<T>, p: T -> bool)
    ensures forall x :: multiset(Filter(s, p))[x] == if p(x) then multiset(s)[x] else 0
    decreases |s|
  {
    if s != [] {
      var n := |s| - 1;
      FilterMultiset(s[..n], p);
      assert s == s[..n] + [s[n]];
      assert multiset(s) == multiset(s[..n]) + multiset{s[n]};
    }
  }

  lemma {:induction false} FilterSubList<T>(s: seq<T>, p: T -> bool)
    ensures SubList(Filter(s, p), s)
    decreases |s|
  {
    if s != [] {
      var n := |s| - 1;
      var r := Filter(s, p);
      FilterSubList(s[..n], p);
      if p(s[n]) {
        assert r[..|r| - 1] == Filter(s[..n], p);
      } else {
        assert r == Filter(s[..n], p);
      }
    }
  }

  // ---------------------------------------------------------------------
  // Probability mass and expected backed-up value of a successor list
  // ---------------------------------------------------------------------

  /** Total probability of a list of (successor, probability) pairs. */
  function Mass<K>(ts: seq<(K, real)>): real
    decreases |ts|
  {
    if ts == [] then 0.0 else Mass(ts[..|ts| - 1]) + ts[|ts| - 1].1
  }

  lemma {:induction false} MassAppend<K>(a: seq<(K, real)>, b: seq<(K, real)>)
    ensures Mass(a + b) == Mass(a) + Mass(b)
    decreases |b|
  {
    if b == [] {
      assert a + b == a;
    } else {
      var n := |b| - 1;
      assert (a + b)[..|a + b| - 1] == a + b[..n];
      MassAppend(a, b[..n]);
    }
  }

  /** `d.update({k: r for k in keys})`: every key of `keys` now maps to
      `r`, every other entry is kept. */
  function Assign<K>(m: map<K, real>, keys: set<K>, r: real): (u: map<K, real>)
    ensures u.Keys == m.Keys + keys
    ensures forall k :: k in u ==> u[k] == if k in keys then r else m[k]
  {
    m + map k | k in keys :: r
  }

  /** Every successor of the list has a reward entry (a Python `dict`
      lookup would raise `KeyError` otherwise). */
  predicate Rewarded<K>(ts: seq<(K, real)>, rewards: map<K, real>)
  {
    forall i :: 0 <= i < |ts| ==> ts[i].0 in rewards
  }

  /** Σ prob · f(s') over a successor list, summed left to right. */
  function Weighted<K>(ts: seq<(K, real)>, f: K -> real): real
    decreases |ts|
  {
    if ts == [] then 0.0
    else
      var n := |ts| - 1;
      Weighted(ts[..n], f) + ts[n].1 * f(ts[n].0)
  }

  /** When `f` is `c` on every successor, the weighted sum is `c` scaled
      by the list's total mass. */
  lemma {:induction false} WeightedOfConstant<K>(ts: seq<(K, real)>, f: K -> real, c: real)
    requires forall i :: 0 <= i < |ts| ==> f(ts[i].0) == c
    ensures Weighted(ts, f) == Mass(ts) * c
    decreases |ts|
  {
    if ts != [] {
      var n := |ts| - 1;
      assert forall i :: 0 <= i < n ==> ts[..n][i] == ts[i];
      WeightedOfConstant(ts[..n], f, c);
      ScaledSum(Weighted(ts, f), Weighted(ts[..n], f), Mass(ts[..n]), ts[n].1, c, Mass(ts));
    }
  }

  /** What one successor `k` contributes per unit of probability: its
      reward plus the discounted value. */
  function Backed<K>(rewards: map<K, real>, values: map<K, real>, discount: real): K -> real
  {
    (k: K) => Get(rewards, k) + discount * Get(values, k)
  }

  /** Σ prob · (rewards[s'] + discount · values[s']), summed left to right.
      Where the source indexes a `dict`, each grid agent's
      `SuccessorsRewarded` lemma proves the key present (see `Rewarded`)
      on the registered map, so there the default of `Get` is never what
      is read. */
  function Expected<K>(ts: seq<(K, real)>, rewards: map<K, real>, values: map<K, real>, discount: real): real
  {
    Weighted(ts, Backed(rewards, values, discount))
  }

  /** Summing one successor further along the list. */
  lemma ExpectedStep<K>(ts: seq<(K, real)>, j: nat, rewards: map<K, real>, values: map<K, real>, discount: real)
    requires j < |ts|
    ensures Expected(ts[..j + 1], rewards, values, discount)
            == Expected(ts[..j], rewards, values, discount)
               + ts[j].1 * (Get(rewards, ts[j].0) + discount * Get(values, ts[j].0))
  {
    assert ts[..j + 1][..j] == ts[..j];
  }

  /** The accumulation loop of the agents' `__compute_q_value_from_values`:
      prob · (reward + discount · value) added up over the successors. */
  method ExpectedSum<K>(ts: seq<(K, real)>, rewards: map<K, real>, values: map<K, real>, discount: real)
    returns (q: real)
    ensures q == Expected(ts, rewards, values, discount)
  {
    q := 0.0;
    for j := 0 to |ts|
      invariant q == Expected(ts[..j], rewards, values, discount)
    {
      ExpectedStep(ts, j, rewards, values, discount);
      var (next, prob) := ts[j];
      var backed := Get(rewards, next) + discount * Get(values, next);
      q := q + prob * backed;
    }
    assert ts[..|ts|] == ts;
  }

  /** When every successor has reward `r` and value `v`, the expectation
      is c = r + discount · v scaled by the list's total mass. */
  lemma ExpectedOfConstant<K>(ts: seq<(K, real)>, rewards: map<K, real>, values: map<K, real>,
                              discount: real, r: real, v: real, c: real)
    requires forall i :: 0 <= i < |ts| ==> Get(rewards, ts[i].0) == r && Get(values, ts[i].0) == v
    requires c == r + discount * v
    ensures Expected(ts, rewards, values, discount) == Mass(ts) * c
  {
    var f := Backed(rewards, values, discount);
    forall i | 0 <= i < |ts|
      ensures f(ts[i].0) == c
    {
      var k := ts[i].0;
      assert Get(rewards, k) == r && Get(values, k) == v;
    }
    WeightedOfConstant(ts, f, c);
  }

  /** The arithmetic step of `WeightedOfConstant`: adding `p` more mass at
      the value `c` to a sum of `m * c`. */
  lemma ScaledSum(e: real, e0: real, m: real, p: real, c: real, total: real)
    requires e0 == m * c && e == e0 + p * c && total == m + p
    ensures e == total * c
  {
  }

  // ---------------------------------------------------------------------
  // Python's max(xs, key=f): the first element with the largest key
  // ---------------------------------------------------------------------

  function FirstArgMax<T>(xs: seq<T>, f: T -> real): (r: T)
    requires xs != []
    ensures r in xs
    ensures forall i :: 0 <= i < |xs| ==> f(xs[i]) <= f(r)
    ensures exists i :: 0 <= i < |xs| && xs[i] == r && forall j :: 0 <= j < i ==> f(xs[j]) < f(r)
    decreases |xs|
  {
    if |xs| == 1 then xs[0]
    else
      var n := |xs| - 1;
      var best := FirstArgMax(xs[..n], f);
      if f(xs[n]) > f(best) then xs[n] else best
  }

  /** Scanning one element further: the element at `i` wins only when it
      is the first or strictly beats the best so far. */
  lemma FirstArgMaxStep<T>(xs: seq<T>, i: nat, f: T -> real)
    requires i < |xs|
    ensures FirstArgMax(xs[..i + 1], f) ==
      if i == 0 || f(xs[i]) > f(FirstArgMax(xs[..i], f)) then xs[i] else FirstArgMax(xs[..i], f)
  {
    assert xs[..i + 1][..i] == xs[..i];
  }

  lemma {:induction false} FirstArgMaxAgrees<T>(xs: seq<T>, f: T -> real, g: T -> real)
    requires xs != []
    requires forall i :: 0 <= i < |xs| ==> f(xs[i]) == g(xs[i])
    ensures FirstArgMax(xs, f) == FirstArgMax(xs, g)
    decreases |xs|
  {
    if |xs| > 1 {
      var n := |xs| - 1;
      FirstArgMaxAgrees(xs[..n], f, g);
      var best := FirstArgMax(xs[..n], f);
      assert best in xs[..n];
      var i :| 0 <= i < n && xs[..n][i] == best;
      assert xs[i] == best;
    }
  }

  /** `xs` with every repeat after its first occurrence dropped: the key
      order of a `dict` filled from `xs` in turn. */
  function Distinct<T(==)>(xs: seq<T>): (r: seq<T>)
    ensures |r| <= |xs| && (r == [] <==> xs == [])
    decreases |xs|
  {
    if xs == [] then []
    else
      var n := |xs| - 1;
      var d := Distinct(xs[..n]);
      if xs[n] in d then d else d + [xs[n]]
  }

  /** Adding one element to a list whose repeats were dropped. */
  lemma DistinctStep<T>(xs: seq<T>, i: nat)
    requires i < |xs|
    ensures Distinct(xs[..i + 1])
            == if xs[i] in Distinct(xs[..i]) then Distinct(xs[..i]) else Distinct(xs[..i]) + [xs[i]]
  {
    assert xs[..i + 1][..i] == xs[..i];
  }

  /** Dropping repeats keeps every element and leaves none twice. */
  lemma {:induction false} DistinctMembers<T>(xs: seq<T>)
    ensures forall x :: x in Distinct(xs) <==> x in xs
    ensures NoDuplicates(Distinct(xs))
    decreases |xs|
  {
    if xs != [] {
      var n := |xs| - 1;
      DistinctMembers(xs[..n]);
      assert xs == xs[..n] + [xs[n]];
    }
  }

  /** Dropping repeats does not change which element is the first with the
      largest score: a repeat scores the same as its first occurrence, so
      it never strictly beats the best so far. */
  lemma {:induction false} FirstArgMaxDistinct<T>(xs: seq<T>, f: T -> real)
    requires xs != []
    ensures FirstArgMax(Distinct(xs), f) == FirstArgMax(xs, f)
    decreases |xs|
  {
    if |xs| > 1 {
      var n := |xs| - 1;
      FirstArgMaxDistinct(xs[..n], f);
      DistinctMembers(xs[..n]);
      var d := Distinct(xs[..n]);
      var best := FirstArgMax(xs[..n], f);
      if xs[n] in d {
        var i :| 0 <= i < n && xs[..n][i] == xs[n];
        assert f(xs[n]) <= f(best);
      } else {
        var e := d + [xs[n]];
        assert e[..|e| - 1] == d;
      }
    }
  }

  /** Position of the first occurrence of `x` (Python's `list.index`). */
  function IndexOf<T(==)>(xs: seq<T>, x: T): (i: nat)
    requires x in xs
    ensures i < |xs| && xs[i] == x && x !in xs[..i]
    decreases |xs|
  {
    if xs[0] == x then 0
    else
      var j := IndexOf(xs[1..], x);
      assert xs[..j + 1] == [xs[0]] + xs[1..][..j];
      j + 1
  }

  /** Python's `list.remove(x)`: drops the first occurrence of `x`. */
  function RemoveFirst<T(==)>(xs: seq<T>, x: T): (r: seq<T>)
    requires x in xs
    ensures |r| == |xs| - 1
    ensures multiset(r) == multiset(xs) - multiset{x}
  {
    var i := IndexOf(xs, x);
    assert xs == xs[..i] + [x] + xs[i + 1..];
    xs[..i] + xs[i + 1..]
  }

  lemma RemoveFirstOfUnique<T>(xs: seq<T>, x: T)
    requires x in xs && NoDuplicates(xs)
    ensures x !in RemoveFirst(xs, x)
    ensures forall y :: y != x ==> (y in RemoveFirst(xs, x) <==> y in xs)
  {
    var i := IndexOf(xs, x);
    assert xs == xs[..i] + [x] + xs[i + 1..];
  }

  // ---------------------------------------------------------------------
  // min / max of a non-empty list of integers
  // ---------------------------------------------------------------------

  function MinOf(xs: seq<int>): (m: int)
    requires xs != []
    ensures forall i :: 0 <= i < |xs| ==> m <= xs[i]
    ensures m in xs
    decreases |xs|
  {
    if |xs| == 1 then xs[0]
    else
      var rest := MinOf(xs[1..]);
      assert rest in xs;
      if xs[0] <= rest then xs[0] else rest
  }

  function MaxOf(xs: seq<int>): (m: int)
    requires xs != []
    ensures forall i :: 0 <= i < |xs| ==> xs[i] <= m
    ensures m in xs
    decreases |xs|
  {
    if |xs| == 1 then xs[0]
    else
      var rest := MaxOf(xs[1..]);
      assert rest in xs;
      if xs[0] >= rest then xs[0] else rest
  }

  // ---------------------------------------------------------------------
  // Iterating a Python set: some order, fixed for as long as the set lives
  // ---------------------------------------------------------------------

  method Enumerate<T>(s: set<T>) returns (order: seq<T>)
    ensures NoDuplicates(order)
    ensures forall x :: x in order <==> x in s
  {
    order := [];
    var rest := s;
    while rest != {}
      invariant rest <= s
      invariant NoDuplicates(order)
      invariant forall x :: x in order <==> x in s && x !in rest
      decreases rest
    {
      var x :| x in rest;
      order := order + [x];
      rest := rest - {x};
    }
  }
}
