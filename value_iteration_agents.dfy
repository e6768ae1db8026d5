/**
  The textbook value-iteration agent over an abstract Markov decision
  process: copy-then-swap (Jacobi) Bellman sweeps over the MDP's states,
  skipping terminal states, with a running maximum change that is never
  reset, and a greedy policy that picks the first action with the largest
  Q-value.
 */
module ValueIterationAgents {

  import opened Util
  import Sweeps

  /** The convergence threshold of `valueIteration`. */
  const THETA: real := 0.001

  /** The MDP interface the agent uses: its states in `getStates` order,
      the possible actions of a state, the successor distribution of a
      state and action, the reward of a transition, and terminality. */
  datatype Mdp<!S, !A> = Mdp(
    states: seq<S>,
    possibleActions: S -> seq<A>,
    transitions: (S, A) -> seq<(S, real)>,
    reward: (S, A, S) -> real,
    isTerminal: S -> bool)

  /** Every state the sweeps visit that is not terminal has an action; the
      source's `max` over the Q-values of a state without one raises. */
  ghost predicate Playable<S, A>(mdp: Mdp<S, A>)
  {
    forall s :: s in mdp.states && !mdp.isTerminal(s) ==> mdp.possibleActions(s) != []
  }

  // =====================================================================
  // Q-values and the greedy policy
  // =====================================================================

  /** Σ P · (R(s, a, s') + discount · V(s')) over the successors `ts`,
      summed left to right; an unseen successor has value 0. */
  function QSum<S, A>(mdp: Mdp<S, A>, discount: real, values: map<S, real>, s: S, a: A, ts: seq<(S, real)>): real
    decreases |ts|
  {
    if ts == [] then 0.0
    else
      var n := |ts| - 1;
      QSum(mdp, discount, values, s, a, ts[..n])
        + ts[n].1 * (mdp.reward(s, a, ts[n].0) + discount * Get(values, ts[n].0))
  }

  /** Summing one successor further along the list. */
  lemma QSumStep<S, A>(mdp: Mdp<S, A>, discount: real, values: map<S, real>, s: S, a: A,
                       ts: seq<(S, real)>, j: nat)
    requires j < |ts|
    ensures QSum(mdp, discount, values, s, a, ts[..j + 1])
            == QSum(mdp, discount, values, s, a, ts[..j])
               + ts[j].1 * (mdp.reward(s, a, ts[j].0) + discount * Get(values, ts[j].0))
  {
    assert ts[..j + 1][..j] == ts[..j];
  }

  /** Q(s, a) from the values `values`. */
  function QValue<S, A>(mdp: Mdp<S, A>, discount: real, values: map<S, real>, s: S, a: A): real
  {
    QSum(mdp, discount, values, s, a, mdp.transitions(s, a))
  }

  /** The Q-value of each action at `s`. */
  function QAt<S, A>(mdp: Mdp<S, A>, discount: real, values: map<S, real>, s: S): A -> real
  {
    (a: A) => QValue(mdp, discount, values, s, a)
  }

  /** With non-negative probabilities and discount, raising the value of no
      successor lowers the sum: the Bellman backup is monotone. */
  lemma {:induction false} QSumMonotone<S, A>(mdp: Mdp<S, A>, discount: real, v: map<S, real>, w: map<S, real>,
                                              s: S, a: A, ts: seq<(S, real)>)
    requires discount >= 0.0
    requires forall j :: 0 <= j < |ts| ==> ts[j].1 >= 0.0 && Get(v, ts[j].0) <= Get(w, ts[j].0)
    ensures QSum(mdp, discount, v, s, a, ts) <= QSum(mdp, discount, w, s, a, ts)
    decreases |ts|
  {
    if ts != [] {
      var n := |ts| - 1;
      assert forall j :: 0 <= j < n ==> ts[..n][j] == ts[j];
      QSumMonotone(mdp, discount, v, w, s, a, ts[..n]);
      var (next, p) := ts[n];
      var r := mdp.reward(s, a, next);
      ScaleMonotone(discount, Get(v, next), Get(w, next));
      ScaleMonotone(p, r + discount * Get(v, next), r + discount * Get(w, next));
    }
  }

  /** Multiplying by a non-negative factor keeps the order. */
  lemma ScaleMonotone(k: real, x: real, y: real)
    requires k >= 0.0 && x <= y
    ensures k * x <= k * y
  {
    assert k * y - k * x == k * (y - x);
  }

  /** `computeActionFromValues`: None at a terminal state, otherwise the
      first action (in the order the `dict` of Q-values first met it) with
      the largest Q-value. */
  function Greedy<S, A(==)>(mdp: Mdp<S, A>, discount: real, values: map<S, real>, s: S): Option<A>
    requires mdp.isTerminal(s) || mdp.possibleActions(s) != []
  {
    if mdp.isTerminal(s) then None
    else Some(FirstArgMax(Distinct(mdp.possibleActions(s)), QAt(mdp, discount, values, s)))
  }

  /** The greedy action is a possible action, no possible action has a
      larger Q-value, and every action listed before its first occurrence
      has a strictly smaller one. */
  lemma GreedyIsBest<S, A>(mdp: Mdp<S, A>, discount: real, values: map<S, real>, s: S)
    requires !mdp.isTerminal(s) && mdp.possibleActions(s) != []
    ensures var g := Greedy(mdp, discount, values, s);
      var actions := mdp.possibleActions(s);
      && g.Some? && g.value in actions
      && (forall b :: b in actions ==> QValue(mdp, discount, values, s, b) <= QValue(mdp, discount, values, s, g.value))
      && exists i :: 0 <= i < |actions| && actions[i] == g.value
           && (forall j :: 0 <= j < i ==>
                 QValue(mdp, discount, values, s, actions[j]) < QValue(mdp, discount, values, s, g.value))
  {
    var actions := mdp.possibleActions(s);
    var q := QAt(mdp, discount, values, s);
    FirstArgMaxDistinct(actions, q);
    DistinctMembers(actions);
    var best := FirstArgMax(actions, q);
    forall b | b in actions
      ensures QValue(mdp, discount, values, s, b) <= QValue(mdp, discount, values, s, best)
    {
      var i :| 0 <= i < |actions| && actions[i] == b;
      assert q(actions[i]) <= q(best);
    }
  }

  /** The value `valueIteration` writes for `s`: the Q-value of its greedy
      action. Terminal states are frozen by the sweep, so the value kept
      for them here is never used. */
  function Backup<S, A(==)>(mdp: Mdp<S, A>, discount: real): (map<S, real>, S) -> real
  {
    (v: map<S, real>, s: S) =>
      if !mdp.isTerminal(s) && mdp.possibleActions(s) != []
      then QValue(mdp, discount, v, s, Greedy(mdp, discount, v, s).value)
      else Get(v, s)
  }

  /** The value written for a non-terminal state is the largest Q-value
      over its possible actions. */
  lemma BackupIsMaxQ<S, A>(mdp: Mdp<S, A>, discount: real, v: map<S, real>, s: S)
    requires !mdp.isTerminal(s) && mdp.possibleActions(s) != []
    ensures forall b :: b in mdp.possibleActions(s) ==>
      QValue(mdp, discount, v, s, b) <= Backup(mdp, discount)(v, s)
    ensures exists b :: b in mdp.possibleActions(s) && QValue(mdp, discount, v, s, b) == Backup(mdp, discount)(v, s)
  {
    GreedyIsBest(mdp, discount, v, s);
  }

  /** The result of `valueIteration` from `v0`: the values after the run
      and the sweep it stopped at, if any. */
  function Planned<S(!new), A(==)>(mdp: Mdp<S, A>, discount: real, iterations: nat, v0: map<S, real>)
    : (map<S, real>, Option<nat>)
  {
    Sweeps.JacobiRun(v0, mdp.states, Backup(mdp, discount), mdp.isTerminal, THETA, 0, iterations, 0.0)
  }

  /** Terminal states, and states `getStates` does not list, keep their
      values; because `delta` is never reset, the run stops early only at
      its first sweep, when that sweep changed every value by less than
      THETA, and otherwise performs all `iterations` sweeps. */
  lemma PlannedShape<S(!new), A>(mdp: Mdp<S, A>, discount: real, iterations: nat, v0: map<S, real>)
    ensures var (v, stop) := Planned(mdp, discount, iterations, v0);
      forall s :: mdp.isTerminal(s) || s !in mdp.states ==> Get(v, s) == Get(v0, s)
    ensures var backup := Backup(mdp, discount);
      Planned(mdp, discount, iterations, v0)
        == if iterations > 0 && Sweeps.JacobiChange(v0, mdp.states, backup, mdp.isTerminal) < THETA
           then (Sweeps.JacobiSweep(v0, mdp.states, backup, mdp.isTerminal), Some(0))
           else (Sweeps.JacobiIterate(v0, mdp.states, backup, mdp.isTerminal, iterations), None)
  {
    Sweeps.JacobiRunFrame(v0, mdp.states, Backup(mdp, discount), mdp.isTerminal, THETA, 0, iterations, 0.0);
    Sweeps.JacobiStopsOnlyAtFirstSweep(v0, mdp.states, Backup(mdp, discount), mdp.isTerminal, THETA, iterations);
  }

  /** Python's `max(d, key=lambda x: d[x])` over the keys of a `dict` in
      insertion order: the first key with the largest value. */
  method MaxKey<A>(keys: seq<A>, d: map<A, real>) returns (best: A)
    requires keys != [] && forall a :: a in keys ==> a in d
    ensures best == FirstArgMax(keys, (a: A) => Get(d, a))
  {
    ghost var f := (a: A) => Get(d, a);
    best := keys[0];
    for i := 1 to |keys|
      invariant best == FirstArgMax(keys[..i], f)
    {
      FirstArgMaxStep(keys, i, f);
      if d[keys[i]] > d[best] {
        best := keys[i];
      }
    }
    assert keys[..|keys|] == keys;
  }

  // =====================================================================
  // The agent
  // =====================================================================

  class ValueIterationAgent<S(==,!new), A(==)> {

    const mdp: Mdp<S, A>
    const discount: real
    const iterations: nat
    var values: map<S, real>

    /** `__init__`: store the MDP, the discount and the sweep budget, start
        from all-zero values and run value iteration once. */
    constructor (mdp: Mdp<S, A>, discount: real := 0.9, iterations: nat := 100)
      requires Playable(mdp)
      ensures this.mdp == mdp && this.discount == discount && this.iterations == iterations
      ensures values == Planned(mdp, discount, iterations, map[]).0
    {
      this.mdp := mdp;
      this.discount := discount;
      this.iterations := iterations;
      values := map[];
      new;
      var _ := ValueIteration();
    }

    /** `getValue`: the stored value, 0 for a state never written. */
    function GetValue(state: S): (v: real)
      reads this`values
      ensures state in values ==> v == values[state]
      ensures state !in values ==> v == 0.0
    {
      Get(values, state)
    }

    /** `computeQValueFromValues`, the loop over the successors. */
    method ComputeQValueFromValues(state: S, action: A) returns (qValue: real)
      ensures qValue == QValue(mdp, discount, values, state, action)
    {
      var ts := mdp.transitions(state, action);
      qValue := 0.0;
      for j := 0 to |ts|
        invariant qValue == QSum(mdp, discount, values, state, action, ts[..j])
      {
        QSumStep(mdp, discount, values, state, action, ts, j);
        var (nextState, prob) := ts[j];
        var reward := mdp.reward(state, action, nextState);
        qValue := qValue + prob * (reward + discount * GetValue(nextState));
      }
      assert ts[..|ts|] == ts;
    }

    /** `computeActionFromValues`: fill a `dict` of Q-values in action
        order (a repeated action keeps its first place), then take the
        first key with the largest value. */
    method ComputeActionFromValues(state: S) returns (action: Option<A>)
      requires mdp.isTerminal(state) || mdp.possibleActions(state) != []
      ensures action == Greedy(mdp, discount, values, state)
    {
      if mdp.isTerminal(state) {
        return None;
      }
      var actions := mdp.possibleActions(state);
      var qValues, keys := QValuesOf(state, actions);
      var best := MaxKey(keys, qValues);
      FirstArgMaxAgrees(keys, (a: A) => Get(qValues, a), QAt(mdp, discount, values, state));
      return Some(best);
    }

    /** The loop of `computeActionFromValues` that fills a Counter with
        the Q-value of each action at `state`; `keys` records the order in
        which the actions first entered it. */
    method QValuesOf(state: S, actions: seq<A>) returns (qValues: map<A, real>, keys: seq<A>)
      ensures keys == Distinct(actions) && qValues.Keys == ToSet(keys)
      ensures forall a :: a in qValues ==> qValues[a] == QValue(mdp, discount, values, state, a)
    {
      qValues, keys := map[], [];
      for i := 0 to |actions|
        invariant keys == Distinct(actions[..i])
        invariant qValues.Keys == ToSet(keys)
        invariant forall a :: a in qValues ==> qValues[a] == QValue(mdp, discount, values, state, a)
      {
        DistinctStep(actions, i);
        var qa := ComputeQValueFromValues(state, actions[i]);
        if actions[i] !in qValues {
          keys := keys + [actions[i]];
        }
        qValues := qValues[actions[i] := qa];
      }
      assert actions[..|actions|] == actions;
    }

    /** One pass of `valueIteration`'s loop over `getStates()`: every
        non-terminal state gets, in a copy of the values, the Q-value of
        its greedy action computed from the values before the pass, and
        `delta` takes in its |old - new|. */
    method Sweep(delta0: real) returns (newQValues: map<S, real>, delta: real)
      requires Playable(mdp) && delta0 >= 0.0
      ensures newQValues == Sweeps.JacobiSweep(values, mdp.states, Backup(mdp, discount), mdp.isTerminal)
      ensures delta == Max(delta0, Sweeps.JacobiChange(values, mdp.states, Backup(mdp, discount), mdp.isTerminal))
    {
      ghost var backup := Backup(mdp, discount);
      var states := mdp.states;
      newQValues, delta := values, delta0;
      for j := 0 to |states|
        invariant newQValues == Sweeps.JacobiSweep(values, states[..j], backup, mdp.isTerminal)
        invariant delta == Max(delta0, Sweeps.JacobiChange(values, states[..j], backup, mdp.isTerminal))
      {
        Sweeps.JacobiStep(values, states, backup, mdp.isTerminal, j);
        var state := states[j];
        if !mdp.isTerminal(state) {
          var action := ComputeActionFromValues(state);
          var qValue := ComputeQValueFromValues(state, action.value);
          newQValues := newQValues[state := qValue];
          delta := Max(delta, Abs(Get(values, state) - qValue));
        }
      }
      assert states[..|states|] == states;
    }

    /** `valueIteration`: at most `iterations` sweeps, each swapping in the
        copy it wrote; `delta` is the largest change seen in any sweep so
        far, and the loop returns the index of the first sweep after which
        it is below THETA. */
    method ValueIteration() returns (sweeps: Option<nat>)
      requires Playable(mdp)
      modifies this`values
      ensures (values, sweeps) == Planned(mdp, discount, iterations, old(values))
    {
      ghost var backup := Backup(mdp, discount);
      ghost var planned := Planned(mdp, discount, iterations, values);
      var delta := 0.0;
      for k := 0 to iterations
        invariant delta >= 0.0
        invariant planned == Sweeps.JacobiRun(values, mdp.states, backup, mdp.isTerminal, THETA, k, iterations, delta)
      {
        Sweeps.JacobiRunStep(values, mdp.states, backup, mdp.isTerminal, THETA, k, iterations, delta);
        var newQValues;
        newQValues, delta := Sweep(delta);
        values := newQValues;
        if delta < THETA {
          return Some(k);
        }
      }
      return None;
    }

    /** `getPolicy`: the greedy action. */
    method GetPolicy(state: S) returns (action: Option<A>)
      requires mdp.isTerminal(state) || mdp.possibleActions(state) != []
      ensures action == Greedy(mdp, discount, values, state)
    {
      action := ComputeActionFromValues(state);
    }

    /** `getAction`: the greedy action, without exploration. */
    method GetAction(state: S) returns (action: Option<A>)
      requires mdp.isTerminal(state) || mdp.possibleActions(state) != []
      ensures action == Greedy(mdp, discount, values, state)
    {
      action := ComputeActionFromValues(state);
    }

    /** `getQValue`: the Q-value from the stored values. */
    method GetQValue(state: S, action: A) returns (q: real)
      ensures q == QValue(mdp, discount, values, state, action)
    {
      q := ComputeQValueFromValues(state, action);
    }
  }
}
