/**
  The two shapes of bounded value iteration the agents use, stated once
  over an arbitrary state type and an arbitrary one-state backup
  `backup(values, s)`:

  - Gauss-Seidel: every sweep writes each new value straight into the
    value map, so later states of the same sweep already see it; `delta`
    is reset at the start of each sweep.
  - Jacobi: every new value is computed from the values of the previous
    sweep and written to a copy that replaces them at the end; `delta`
    is set once before the first sweep and never reset.

  Each shape has a `...Run` function that mirrors the loop (what the agent
  methods are proved against) and an `...Iterate` function that just
  applies k sweeps; the `...RunSpec` lemmas connect the two.
 */
module Sweeps {

  import opened Util

  // =====================================================================
  // Gauss-Seidel (in place, delta reset per sweep)
  // =====================================================================

  /** One in-place sweep over `order`. */
  function GaussSeidelSweep<K(!new)>(v: map<K, real>, order: seq<K>, backup: (map<K, real>, K) -> real)
    : map<K, real>
    decreases |order|
  {
    if order == [] then v
    else
      var n := |order| - 1;
      var u := GaussSeidelSweep(v, order[..n], backup);
      u[order[n] := backup(u, order[n])]
  }

  /** A sweep adds the swept states to the map and leaves every other
      state's value alone. */
  lemma {:induction false} GaussSeidelSweepFrame<K(!new)>(v: map<K, real>, order: seq<K>,
                                                         backup: (map<K, real>, K) -> real)
    ensures GaussSeidelSweep(v, order, backup).Keys == v.Keys + ToSet(order)
    ensures forall c :: c !in order ==> Get(GaussSeidelSweep(v, order, backup), c) == Get(v, c)
    decreases |order|
  {
    if order != [] {
      var n := |order| - 1;
      GaussSeidelSweepFrame(v, order[..n], backup);
      assert order == order[..n] + [order[n]];
    }
  }

  /** The largest |old - new| of one in-place sweep (0 for an empty sweep). */
  function GaussSeidelChange<K(!new)>(v: map<K, real>, order: seq<K>, backup: (map<K, real>, K) -> real)
    : (d: real)
    ensures d >= 0.0
    decreases |order|
  {
    if order == [] then 0.0
    else
      var n := |order| - 1;
      var u := GaussSeidelSweep(v, order[..n], backup);
      Max(GaussSeidelChange(v, order[..n], backup), Abs(Get(u, order[n]) - backup(u, order[n])))
  }

  /** |old - new| at the `j`-th state of an in-place sweep, where "old" is
      the value the sweep had reached when it came to that state. */
  function InPlaceChange<K(!new)>(v: map<K, real>, order: seq<K>, backup: (map<K, real>, K) -> real, j: nat): real
    requires j < |order|
  {
    var u := GaussSeidelSweep(v, order[..j], backup);
    Abs(Get(u, order[j]) - backup(u, order[j]))
  }

  /** `delta`, reset before the sweep, ends as the largest in-place change
      of the sweep: at least every state's change, and equal to one of them
      (or 0 for an empty sweep). */
  lemma {:induction false} GaussSeidelChangeIsMax<K(!new)>(v: map<K, real>, order: seq<K>,
                                                          backup: (map<K, real>, K) -> real)
    ensures var d := GaussSeidelChange(v, order, backup);
      && (forall j :: 0 <= j < |order| ==> InPlaceChange(v, order, backup, j) <= d)
      && (d == 0.0 || exists j :: 0 <= j < |order| && InPlaceChange(v, order, backup, j) == d)
    decreases |order|
  {
    if order != [] {
      var n := |order| - 1;
      var prefix := order[..n];
      GaussSeidelChangeIsMax(v, prefix, backup);
      forall j | 0 <= j < n
        ensures InPlaceChange(v, prefix, backup, j) == InPlaceChange(v, order, backup, j)
      {
        assert prefix[..j] == order[..j];
      }
      assert InPlaceChange(v, order, backup, n)
             == Abs(Get(GaussSeidelSweep(v, prefix, backup), order[n])
                    - backup(GaussSeidelSweep(v, prefix, backup), order[n]));
    }
  }

  /** The inner loop of an in-place sweep: every state of `order` in turn
      gets its backup, computed from the values written so far, and
      `delta` keeps the largest |old - new|. */
  method GaussSeidelSweepLoop<K(!new)>(v: map<K, real>, order: seq<K>, backup: (map<K, real>, K) -> real)
    returns (w: map<K, real>, delta: real)
    ensures w == GaussSeidelSweep(v, order, backup)
    ensures delta == GaussSeidelChange(v, order, backup)
  {
    w, delta := v, 0.0;
    for j := 0 to |order|
      invariant w == GaussSeidelSweep(v, order[..j], backup)
      invariant delta == GaussSeidelChange(v, order[..j], backup)
    {
      assert order[..j + 1][..j] == order[..j];
      var s := order[j];
      var oldValue := Get(w, s);
      w := w[s := backup(w, s)];
      delta := Max(delta, Abs(oldValue - w[s]));
    }
    assert order[..|order|] == order;
  }

  /** The sweep loop from sweep `i` on, at most up to sweep `n`: the final
      values and the sweep number returned (None when the budget ran out). */
  function GaussSeidelRun<K(!new)>(v: map<K, real>, order: seq<K>, backup: (map<K, real>, K) -> real,
                             theta: real, i: nat, n: nat): (map<K, real>, Option<nat>)
    decreases n - i
  {
    if i >= n then (v, None)
    else
      var w := GaussSeidelSweep(v, order, backup);
      if GaussSeidelChange(v, order, backup) < theta then (w, Some(i))
      else GaussSeidelRun(w, order, backup, theta, i + 1, n)
  }

  /** `k` in-place sweeps. */
  function GaussSeidelIterate<K(!new)>(v: map<K, real>, order: seq<K>, backup: (map<K, real>, K) -> real, k: nat)
    : map<K, real>
  {
    if k == 0 then v else GaussSeidelSweep(GaussSeidelIterate(v, order, backup, k - 1), order, backup)
  }

  /** Sweep `k` (counting from 0) changes no value by `theta` or more. */
  ghost predicate GaussSeidelSettled<K(!new)>(v0: map<K, real>, order: seq<K>, backup: (map<K, real>, K) -> real,
                                             theta: real, k: nat)
  {
    GaussSeidelChange(GaussSeidelIterate(v0, order, backup, k), order, backup) < theta
  }

  /** The loop stops at the first sweep whose largest change is below
      `theta` and returns its number, or runs the whole budget. */
  lemma {:induction false} GaussSeidelRunSpec<K(!new)>(v0: map<K, real>, order: seq<K>, backup: (map<K, real>, K) -> real,
                                                theta: real, i: nat, n: nat)
    requires i <= n
    ensures var r := GaussSeidelRun(GaussSeidelIterate(v0, order, backup, i), order, backup, theta, i, n);
      && (r.1.Some? ==>
            && i <= r.1.value < n
            && GaussSeidelSettled(v0, order, backup, theta, r.1.value)
            && (forall j :: i <= j < r.1.value ==> !GaussSeidelSettled(v0, order, backup, theta, j))
            && r.0 == GaussSeidelIterate(v0, order, backup, r.1.value + 1))
      && (r.1.None? ==>
            && r.0 == GaussSeidelIterate(v0, order, backup, n)
            && forall j :: i <= j < n ==> !GaussSeidelSettled(v0, order, backup, theta, j))
    decreases n - i
  {
    var vi := GaussSeidelIterate(v0, order, backup, i);
    if i < n {
      var vnext := GaussSeidelSweep(vi, order, backup);
      assert GaussSeidelIterate(v0, order, backup, i + 1) == vnext;
      if GaussSeidelSettled(v0, order, backup, theta, i) {
        assert GaussSeidelRun(vi, order, backup, theta, i, n) == (vnext, Some(i));
      } else {
        assert GaussSeidelRun(vi, order, backup, theta, i, n)
               == GaussSeidelRun(vnext, order, backup, theta, i + 1, n);
        GaussSeidelRunSpec(v0, order, backup, theta, i + 1, n);
      }
    }
  }

  /** Sweeping never touches a state outside `order`. */
  lemma {:induction false} GaussSeidelIterateFrame<K(!new)>(v0: map<K, real>, order: seq<K>,
                                                     backup: (map<K, real>, K) -> real, k: nat)
    ensures GaussSeidelIterate(v0, order, backup, k).Keys == v0.Keys + (if k == 0 then {} else ToSet(order))
    ensures forall c :: c !in order ==> Get(GaussSeidelIterate(v0, order, backup, k), c) == Get(v0, c)
  {
    if k > 0 {
      GaussSeidelIterateFrame(v0, order, backup, k - 1);
      GaussSeidelSweepFrame(GaussSeidelIterate(v0, order, backup, k - 1), order, backup);
    }
  }

  /** After a sweep, the value of the state swept last is its backup. */
  lemma GaussSeidelLastWritten<K(!new)>(v: map<K, real>, order: seq<K>, backup: (map<K, real>, K) -> real)
    requires order != []
    ensures var n := |order| - 1;
      GaussSeidelSweep(v, order, backup)[order[n]]
        == backup(GaussSeidelSweep(v, order[..n], backup), order[n])
  {
  }

  // =====================================================================
  // Jacobi (copy then swap, delta never reset)
  // =====================================================================

  /** One copy-then-swap sweep over `order`; states with `frozen` true are
      skipped. Every new value is computed from `v`. */
  function JacobiSweep<K(!new)>(v: map<K, real>, order: seq<K>, backup: (map<K, real>, K) -> real, frozen: K -> bool)
    : (w: map<K, real>)
    ensures forall c :: c in order && !frozen(c) ==> c in w && w[c] == backup(v, c)
    ensures forall c :: c !in order || frozen(c) ==> Get(w, c) == Get(v, c)
    ensures forall c :: c in w <==> c in v || (c in order && !frozen(c))
    decreases |order|
  {
    if order == [] then v
    else
      var n := |order| - 1;
      var u := JacobiSweep(v, order[..n], backup, frozen);
      assert forall c :: c in order <==> c in order[..n] || c == order[n] by {
        assert order == order[..n] + [order[n]];
      }
      if frozen(order[n]) then u else u[order[n] := backup(v, order[n])]
  }

  /** The largest |old - new| over the states one sweep rewrites. */
  function JacobiChange<K(!new)>(v: map<K, real>, order: seq<K>, backup: (map<K, real>, K) -> real, frozen: K -> bool)
    : (d: real)
    ensures d >= 0.0
    ensures forall c :: c in order && !frozen(c) ==> Abs(Get(v, c) - backup(v, c)) <= d
    decreases |order|
  {
    if order == [] then 0.0
    else
      var n := |order| - 1;
      var d := JacobiChange(v, order[..n], backup, frozen);
      assert forall c :: c in order <==> c in order[..n] || c == order[n] by {
        assert order == order[..n] + [order[n]];
      }
      if frozen(order[n]) then d else Max(d, Abs(Get(v, order[n]) - backup(v, order[n])))
  }

  /** The change is attained: it is 0 or the |old - new| of some swept,
      non-frozen state, so together with `JacobiChange`'s bound it is
      exactly the largest such change. */
  lemma {:induction false} JacobiChangeIsMax<K(!new)>(v: map<K, real>, order: seq<K>,
                                                      backup: (map<K, real>, K) -> real, frozen: K -> bool)
    ensures var d := JacobiChange(v, order, backup, frozen);
      d == 0.0 || exists c :: c in order && !frozen(c) && d == Abs(Get(v, c) - backup(v, c))
    decreases |order|
  {
    if order != [] {
      var n := |order| - 1;
      JacobiChangeIsMax(v, order[..n], backup, frozen);
      assert forall c :: c in order[..n] ==> c in order;
    }
  }

  /** Sweeping one state further: a frozen state leaves both the copy and
      the change alone, any other gets its backup and adds its |old - new|. */
  lemma JacobiStep<K(!new)>(v: map<K, real>, order: seq<K>, backup: (map<K, real>, K) -> real,
                            frozen: K -> bool, j: nat)
    requires j < |order|
    ensures JacobiSweep(v, order[..j + 1], backup, frozen)
            == if frozen(order[j]) then JacobiSweep(v, order[..j], backup, frozen)
               else JacobiSweep(v, order[..j], backup, frozen)[order[j] := backup(v, order[j])]
    ensures JacobiChange(v, order[..j + 1], backup, frozen)
            == if frozen(order[j]) then JacobiChange(v, order[..j], backup, frozen)
               else Max(JacobiChange(v, order[..j], backup, frozen), Abs(Get(v, order[j]) - backup(v, order[j])))
  {
    assert order[..j + 1][..j] == order[..j];
  }

  /** The inner loop of a copy-then-swap sweep: every state of `order`
      that is not frozen gets, in the copy, its backup computed from `v`,
      and the running maximum `delta` takes in its |old - new|. */
  method JacobiSweepLoop<K(!new)>(v: map<K, real>, order: seq<K>, backup: (map<K, real>, K) -> real,
                                  frozen: K -> bool, delta0: real)
    returns (w: map<K, real>, delta: real)
    requires delta0 >= 0.0
    ensures w == JacobiSweep(v, order, backup, frozen)
    ensures delta == Max(delta0, JacobiChange(v, order, backup, frozen))
  {
    w, delta := v, delta0;
    for j := 0 to |order|
      invariant w == JacobiSweep(v, order[..j], backup, frozen)
      invariant delta == Max(delta0, JacobiChange(v, order[..j], backup, frozen))
    {
      assert order[..j + 1][..j] == order[..j];
      var s := order[j];
      if !frozen(s) {
        w := w[s := backup(v, s)];
        delta := Max(delta, Abs(Get(v, s) - w[s]));
      }
    }
    assert order[..|order|] == order;
  }

  /** The sweep loop from sweep `i` on, with `delta` the running maximum
      carried in from the earlier sweeps. */
  function JacobiRun<K(!new)>(v: map<K, real>, order: seq<K>, backup: (map<K, real>, K) -> real, frozen: K -> bool,
                        theta: real, i: nat, n: nat, delta: real): (map<K, real>, Option<nat>)
    decreases n - i
  {
    if i >= n then (v, None)
    else
      var d := Max(delta, JacobiChange(v, order, backup, frozen));
      var w := JacobiSweep(v, order, backup, frozen);
      if d < theta then (w, Some(i))
      else JacobiRun(w, order, backup, frozen, theta, i + 1, n, d)
  }

  /** One more sweep of the loop: the copy becomes the values, and the
      loop stops there if the running maximum is below `theta`. */
  lemma JacobiRunStep<K(!new)>(v: map<K, real>, order: seq<K>, backup: (map<K, real>, K) -> real, frozen: K -> bool,
                               theta: real, i: nat, n: nat, delta: real)
    requires i < n
    ensures var d := Max(delta, JacobiChange(v, order, backup, frozen));
      var w := JacobiSweep(v, order, backup, frozen);
      JacobiRun(v, order, backup, frozen, theta, i, n, delta)
        == if d < theta then (w, Some(i)) else JacobiRun(w, order, backup, frozen, theta, i + 1, n, d)
  {
  }

  /** `k` copy-then-swap sweeps. */
  function JacobiIterate<K(!new)>(v: map<K, real>, order: seq<K>, backup: (map<K, real>, K) -> real,
                            frozen: K -> bool, k: nat): map<K, real>
  {
    if k == 0 then v else JacobiSweep(JacobiIterate(v, order, backup, frozen, k - 1), order, backup, frozen)
  }

  /** However many sweeps run, a frozen state, or one the sweeps do not
      visit, keeps its value. */
  lemma {:induction false} JacobiRunFrame<K(!new)>(v: map<K, real>, order: seq<K>, backup: (map<K, real>, K) -> real,
                                            frozen: K -> bool, theta: real, i: nat, n: nat, delta: real)
    ensures forall c :: frozen(c) || c !in order ==>
      Get(JacobiRun(v, order, backup, frozen, theta, i, n, delta).0, c) == Get(v, c)
    decreases n - i
  {
    if i < n {
      var d := Max(delta, JacobiChange(v, order, backup, frozen));
      var w := JacobiSweep(v, order, backup, frozen);
      JacobiRunFrame(w, order, backup, frozen, theta, i + 1, n, d);
    }
  }

  /** Once the running maximum has reached `theta` it never drops below it
      again, so the loop runs out its whole budget. */
  lemma {:induction false} JacobiRunExhausts<K(!new)>(v0: map<K, real>, order: seq<K>, backup: (map<K, real>, K) -> real,
                                               frozen: K -> bool, theta: real, i: nat, n: nat, delta: real)
    requires i <= n && delta >= theta
    ensures JacobiRun(JacobiIterate(v0, order, backup, frozen, i), order, backup, frozen, theta, i, n, delta)
            == (JacobiIterate(v0, order, backup, frozen, n), None)
    decreases n - i
  {
    if i < n {
      var vi := JacobiIterate(v0, order, backup, frozen, i);
      var d := Max(delta, JacobiChange(vi, order, backup, frozen));
      JacobiRunExhausts(v0, order, backup, frozen, theta, i + 1, n, d);
    }
  }

  /** Because `delta` is never reset, the loop can stop early only at its
      very first sweep, and only when that sweep changed every value by
      less than `theta`; otherwise it performs all `n` sweeps. */
  lemma JacobiStopsOnlyAtFirstSweep<K(!new)>(v0: map<K, real>, order: seq<K>, backup: (map<K, real>, K) -> real,
                                       frozen: K -> bool, theta: real, n: nat)
    ensures var r := JacobiRun(v0, order, backup, frozen, theta, 0, n, 0.0);
      if n > 0 && JacobiChange(v0, order, backup, frozen) < theta
      then r == (JacobiSweep(v0, order, backup, frozen), Some(0))
      else r == (JacobiIterate(v0, order, backup, frozen, n), None)
  {
    if n > 0 && JacobiChange(v0, order, backup, frozen) >= theta {
      JacobiRunExhausts(v0, order, backup, frozen, theta, 1, n, JacobiChange(v0, order, backup, frozen));
    }
  }
}
