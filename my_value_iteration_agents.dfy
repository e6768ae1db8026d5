/**
  The grid value-iteration agent with in-place (Gauss-Seidel) sweeps over
  the open cells: it rebuilds its reward map on every tick from what it
  senses, runs a bounded value iteration, and hands the move with the best
  Q-value at Pacman's cell to the noisy executor.
 */
module MyValueIterationAgents {

  import opened Util
  import opened Game
  import Api
  import Sweeps

  const FOOD_REWARD: real := 10.0
  const GHOST_REWARD: real := -500.0
  const DANGER_ZONE_REWARD: real := -250.0
  const CAPSULE_REWARD: real := 50.0
  const BLANK_REWARD: real := -0.04
  const THETA: real := 0.001
  const DISCOUNT_FACTOR: real := 0.6
  const SAFETY_DISTANCE: int := 1
  const MAX_ITERATIONS: nat := 500
  const NOISE: real := 0.2
  const GHOSTBUSTER_MODE: bool := true

  /** The keys of `move_offsets`, in their order. */
  const MOVES: seq<Move> := [North, South, East, West]

  // =====================================================================
  // Motion model
  // =====================================================================

  /** `_next_state`: the neighbour in direction `d`, or `s` itself when
      that neighbour is a wall. */
  function NextState(walls: set<Cell>, s: Cell, d: Move): (r: Cell)
    ensures r == s || r == Neighbour(s, d)
    ensures r == Neighbour(s, d) <==> Neighbour(s, d) !in walls
    ensures s !in walls ==> r !in walls
  {
    MoveLeaves(s, d);
    var next := Neighbour(s, d);
    if next in walls then s else next
  }

  /** The list and `noise_sum` before the loop: the intended move alone. */
  function ScanStart(walls: set<Cell>, noise: real, s: Cell, a: Move): (seq<(Cell, real)>, real)
  {
    ([(NextState(walls, s, a), 1.0 - noise)], 0.0)
  }

  /** One turn of the loop over the perpendicular moves: a wall adds noise/2
      to `noise_sum`, an open cell gets its own noise/2 entry; then, still
      inside the loop, a self-loop entry carrying the whole running
      `noise_sum` is appended whenever that sum is positive. */
  function SideStep(walls: set<Cell>, noise: real, s: Cell, acc: (seq<(Cell, real)>, real), side: Move)
    : (seq<(Cell, real)>, real)
  {
    var (ts, sum) := acc;
    var cell := Neighbour(s, side);
    var (ts1, sum1) := if cell in walls then (ts, sum + noise / 2.0) else (ts + [(cell, noise / 2.0)], sum);
    (if sum1 > 0.0 then ts1 + [(s, sum1)] else ts1, sum1)
  }

  /** The list and `noise_sum` after the loop has looked at `sides`. */
  function SideScan(walls: set<Cell>, noise: real, s: Cell, a: Move, sides: seq<Move>)
    : (seq<(Cell, real)>, real)
    decreases |sides|
  {
    if sides == [] then ScanStart(walls, noise, s, a)
    else
      var n := |sides| - 1;
      SideStep(walls, noise, s, SideScan(walls, noise, s, a, sides[..n]), sides[n])
  }

  /** `__get_transition_states_and_probs`. */
  function Transitions(walls: set<Cell>, noise: real, s: Cell, a: Move): seq<(Cell, real)>
  {
    SideScan(walls, noise, s, a, Sides(a)).0
  }

  lemma TransitionsUnfold(walls: set<Cell>, noise: real, s: Cell, a: Move)
    ensures Transitions(walls, noise, s, a)
            == SideStep(walls, noise, s, SideStep(walls, noise, s, ScanStart(walls, noise, s, a), Sides(a)[0]),
                        Sides(a)[1]).0
  {
    var sides := Sides(a);
    var start := ScanStart(walls, noise, s, a);
    assert sides[..1][..0] == [];
    assert SideScan(walls, noise, s, a, sides[..1]) == SideStep(walls, noise, s, start, sides[0]);
    assert sides[..1] == sides[..|sides| - 1];
  }

  /** `t` is one move away from `s` onto an open cell, or `s` itself. */
  predicate OneStep(walls: set<Cell>, s: Cell, t: Cell)
  {
    t == s || (t !in walls && exists d: Move :: t == Neighbour(s, d))
  }

  /** The first entry is the intended move with probability 1 - noise, and
      every entry leads to `s` or an open neighbour of `s`. */
  lemma TransitionsShape(walls: set<Cell>, noise: real, s: Cell, a: Move)
    ensures var ts := Transitions(walls, noise, s, a);
      && |ts| >= 1 && ts[0] == (NextState(walls, s, a), 1.0 - noise)
      && forall i :: 0 <= i < |ts| ==> OneStep(walls, s, ts[i].0)
  {
    var sides := Sides(a);
    TransitionsUnfold(walls, noise, s, a);
    var ts := Transitions(walls, noise, s, a);
    var s0, s1 := Neighbour(s, sides[0]), Neighbour(s, sides[1]);
    assert forall i :: 0 <= i < |ts| ==>
      ts[i].0 in {NextState(walls, s, a), s} || (ts[i].0 in {s0, s1} && ts[i].0 !in walls);
    forall i | 0 <= i < |ts|
      ensures OneStep(walls, s, ts[i].0)
    {
      if ts[i].0 == NextState(walls, s, a) && ts[i].0 != s {
        assert ts[i].0 == Neighbour(s, a);
      } else if ts[i].0 == s0 && ts[i].0 != s {
        assert ts[i].0 == Neighbour(s, sides[0]);
      } else if ts[i].0 == s1 && ts[i].0 != s {
        assert ts[i].0 == Neighbour(s, sides[1]);
      }
    }
  }

  /** With both perpendicular cells open the list is exactly the intended
      move and the two slips, with total mass 1. */
  lemma TransitionsWhenSidesOpen(walls: set<Cell>, noise: real, s: Cell, a: Move)
    requires Neighbour(s, Sides(a)[0]) !in walls && Neighbour(s, Sides(a)[1]) !in walls
    ensures Transitions(walls, noise, s, a)
            == [(NextState(walls, s, a), 1.0 - noise),
                (Neighbour(s, Sides(a)[0]), noise / 2.0),
                (Neighbour(s, Sides(a)[1]), noise / 2.0)]
    ensures Mass(Transitions(walls, noise, s, a)) == 1.0
  {
    TransitionsUnfold(walls, noise, s, a);
    var ts := Transitions(walls, noise, s, a);
    assert Mass(ts) == Mass(ts[..2]) + noise / 2.0;
    assert Mass(ts[..2]) == Mass(ts[..1]) + noise / 2.0;
    assert Mass(ts[..1]) == Mass(ts[..1][..0]) + (1.0 - noise);
  }

  /** The self-loop entry is appended inside the loop: when the first
      perpendicular cell is a wall, its share is counted twice (or, with the
      second also a wall, once more on top), so the list carries
      1 + noise/2 in total; otherwise it carries exactly 1. Without noise
      `noise_sum` stays 0, no self-loop is appended, and the mass is 1. */
  lemma TransitionsMass(walls: set<Cell>, noise: real, s: Cell, a: Move)
    requires noise >= 0.0
    ensures Mass(Transitions(walls, noise, s, a))
            == 1.0 + (if Neighbour(s, Sides(a)[0]) in walls then noise / 2.0 else 0.0)
  {
    var sides := Sides(a);
    TransitionsUnfold(walls, noise, s, a);
    var s0, s1 := Neighbour(s, sides[0]), Neighbour(s, sides[1]);
    var first := [(NextState(walls, s, a), 1.0 - noise)];
    var h := noise / 2.0;
    var ts := Transitions(walls, noise, s, a);
    if noise == 0.0 {
      if s0 in walls && s1 in walls {
        assert ts == first;
      } else if s0 in walls {
        assert ts == first + [(s1, h)];
        MassAppend(first, [(s1, h)]);
      } else if s1 in walls {
        assert ts == first + [(s0, h)];
        MassAppend(first, [(s0, h)]);
      } else {
        assert ts == first + [(s0, h)] + [(s1, h)];
        MassAppend(first + [(s0, h)], [(s1, h)]);
        MassAppend(first, [(s0, h)]);
      }
    } else if s0 in walls && s1 in walls {
      assert ts == first + [(s, h)] + [(s, noise)];
      MassAppend(first + [(s, h)], [(s, noise)]);
      MassAppend(first, [(s, h)]);
    } else if s0 in walls {
      assert ts == first + [(s, h)] + [(s1, h)] + [(s, h)];
      MassAppend(first + [(s, h)] + [(s1, h)], [(s, h)]);
      MassAppend(first + [(s, h)], [(s1, h)]);
      MassAppend(first, [(s, h)]);
    } else if s1 in walls {
      assert ts == first + [(s0, h)] + [(s, h)];
      MassAppend(first + [(s0, h)], [(s, h)]);
      MassAppend(first, [(s0, h)]);
    } else {
      assert ts == first + [(s0, h)] + [(s1, h)];
      MassAppend(first + [(s0, h)], [(s1, h)]);
      MassAppend(first, [(s0, h)]);
    }
  }

  /** On a map closed by its border, every successor of an open cell is an
      open cell, so with every open cell rewarded no `rewards[...]` lookup
      can fail. */
  lemma TransitionsStayOpen(width: int, height: int, walls: seq<Cell>, noise: real, s: Cell, a: Move,
                            rewards: map<Cell, real>)
    requires BorderWalled(width, height, walls)
    requires s in OpenCells(width, height, ToSet(walls))
    requires OpenCells(width, height, ToSet(walls)) <= rewards.Keys
    ensures forall i :: 0 <= i < |Transitions(ToSet(walls), noise, s, a)| ==>
      Transitions(ToSet(walls), noise, s, a)[i].0 in OpenCells(width, height, ToSet(walls))
    ensures Rewarded(Transitions(ToSet(walls), noise, s, a), rewards)
  {
    var ws := ToSet(walls);
    var ts := Transitions(ws, noise, s, a);
    TransitionsShape(ws, noise, s, a);
    forall i | 0 <= i < |ts|
      ensures ts[i].0 in OpenCells(width, height, ws)
    {
      if ts[i].0 != s {
        var d: Move :| ts[i].0 == Neighbour(s, d);
        NeighbourStaysInGrid(width, height, walls, s, d);
      }
    }
  }

  // =====================================================================
  // Bellman backup
  // =====================================================================

  /** `__compute_q_value_from_values`: Σ prob · (reward + 0.6 · value). */
  function QValue(walls: set<Cell>, noise: real, rewards: map<Cell, real>, values: map<Cell, real>,
                  s: Cell, a: Move): real
  {
    Expected(Transitions(walls, noise, s, a), rewards, values, DISCOUNT_FACTOR)
  }

  /** Where every successor has the same reward and value, Q is that
      backed-up amount scaled by the list's mass, which is inflated by
      noise/2 when the first perpendicular cell is a wall. */
  lemma QValueOfUniformNeighbourhood(walls: set<Cell>, noise: real, rewards: map<Cell, real>,
                                     values: map<Cell, real>, s: Cell, a: Move, r: real, v: real)
    requires noise >= 0.0
    requires forall t :: OneStep(walls, s, t) ==> Get(rewards, t) == r && Get(values, t) == v
    ensures QValue(walls, noise, rewards, values, s, a)
            == (1.0 + (if Neighbour(s, Sides(a)[0]) in walls then noise / 2.0 else 0.0))
               * (r + DISCOUNT_FACTOR * v)
  {
    var ts := Transitions(walls, noise, s, a);
    TransitionsShape(walls, noise, s, a);
    ExpectedOfConstant(ts, rewards, values, DISCOUNT_FACTOR, r, v, r + DISCOUNT_FACTOR * v);
    TransitionsMass(walls, noise, s, a);
  }

  /** `_get_best_policy`: the largest Q-value over all four moves, whether
      or not they are legal at `s`. */
  function BestValue(walls: set<Cell>, noise: real, rewards: map<Cell, real>, values: map<Cell, real>,
                     s: Cell): real
  {
    var q := QAt(walls, noise, rewards, values, s);
    Max(Max(Max(q(North), q(South)), q(East)), q(West))
  }

  /** The backed-up value is the Q-value of some move, and no move has a
      larger one. */
  lemma BestValueIsMaxQ(walls: set<Cell>, noise: real, rewards: map<Cell, real>, values: map<Cell, real>,
                        s: Cell)
    ensures forall a: Move :: QValue(walls, noise, rewards, values, s, a) <= BestValue(walls, noise, rewards, values, s)
    ensures exists a: Move :: QValue(walls, noise, rewards, values, s, a) == BestValue(walls, noise, rewards, values, s)
  {
    var q := QAt(walls, noise, rewards, values, s);
    var best := BestValue(walls, noise, rewards, values, s);
    assert q(North) == best || q(South) == best || q(East) == best || q(West) == best;
    forall a: Move
      ensures QValue(walls, noise, rewards, values, s, a) <= best
    {
      assert q(a) == QValue(walls, noise, rewards, values, s, a);
    }
  }

  /** The backup the in-place sweep applies to one cell. */
  function Backup(walls: set<Cell>, noise: real, rewards: map<Cell, real>): (map<Cell, real>, Cell) -> real
  {
    (values: map<Cell, real>, s: Cell) => BestValue(walls, noise, rewards, values, s)
  }

  /** The `key=` of `getAction`'s `max`: the Q-value of a move at `s`. */
  function QAt(walls: set<Cell>, noise: real, rewards: map<Cell, real>, values: map<Cell, real>, s: Cell)
    : Move -> real
  {
    (a: Move) => QValue(walls, noise, rewards, values, s, a)
  }

  // =====================================================================
  // Reward map
  // =====================================================================

  /** The five successive `dict.update` calls of `_update_rewards`: food,
      capsules, ghosts, danger zones, blank cells. A later update wins, so
      the effective precedence is blank, danger, ghost, capsule, food; a
      key none of them names keeps its old reward. */
  function UpdatedRewards(rewards: map<Cell, real>, food: set<Cell>, capsules: set<Cell>, ghosts: set<Cell>,
                          danger: set<Cell>, blank: set<Cell>, ghostReward: real, dangerReward: real)
    : map<Cell, real>
  {
    var r1 := Assign(rewards, food, FOOD_REWARD);
    var r2 := Assign(r1, capsules, CAPSULE_REWARD);
    var r3 := Assign(r2, ghosts, ghostReward);
    var r4 := Assign(r3, danger, dangerReward);
    Assign(r4, blank, BLANK_REWARD)
  }

  /** The rebuilt map names every cell any update names, and holds the
      reward of the highest-ranked kind the cell belongs to. */
  lemma UpdatedRewardsPrecedence(rewards: map<Cell, real>, food: set<Cell>, capsules: set<Cell>,
                                 ghosts: set<Cell>, danger: set<Cell>, blank: set<Cell>,
                                 ghostReward: real, dangerReward: real)
    ensures var r := UpdatedRewards(rewards, food, capsules, ghosts, danger, blank, ghostReward, dangerReward);
      && r.Keys == rewards.Keys + food + capsules + ghosts + danger + blank
      && forall c :: c in r ==>
           r[c] == (if c in blank then BLANK_REWARD
                    else if c in danger then dangerReward
                    else if c in ghosts then ghostReward
                    else if c in capsules then CAPSULE_REWARD
                    else if c in food then FOOD_REWARD
                    else rewards[c])
  {
  }

  /** The blank cells: open cells that are none of food, capsule, ghost or
      danger zone. */
  function BlankCells(legal: set<Cell>, food: set<Cell>, capsules: set<Cell>, ghosts: set<Cell>,
                      danger: set<Cell>): (blank: set<Cell>)
    ensures forall c :: c in blank <==>
      c in legal && c !in food && c !in capsules && c !in ghosts && c !in danger
  {
    legal - food - capsules - ghosts - danger
  }

  /** With the blank cells filling the gaps, the rebuilt map rewards every
      open cell, and a danger cell is never overwritten by a lower-ranked
      kind. */
  lemma UpdatedRewardsCoverOpenCells(rewards: map<Cell, real>, legal: set<Cell>, food: set<Cell>,
                                     capsules: set<Cell>, ghosts: set<Cell>, danger: set<Cell>,
                                     ghostReward: real, dangerReward: real)
    ensures var r := UpdatedRewards(rewards, food, capsules, ghosts, danger,
                                    BlankCells(legal, food, capsules, ghosts, danger), ghostReward, dangerReward);
      && legal <= r.Keys
      && (forall c :: c in danger ==> r[c] == dangerReward)
      && (forall c :: c in legal && c !in food && c !in capsules && c !in ghosts && c !in danger
                      ==> r[c] == BLANK_REWARD)
  {
    UpdatedRewardsPrecedence(rewards, food, capsules, ghosts, danger,
                             BlankCells(legal, food, capsules, ghosts, danger), ghostReward, dangerReward);
  }

  /** The ghost and danger rewards: the raw constants, or, in ghostbuster
      mode, the pair `calculate_ghost_and_danger_zone_rewards` returns. */
  function GhostAndDangerRewards(ghostbuster: bool, ghosts: seq<Ghost>): (r: (real, real))
    ensures !ghostbuster ==> r == (GHOST_REWARD, DANGER_ZONE_REWARD)
    ensures ghostbuster && ghosts != [] ==> r == (GHOST_REWARD, DANGER_ZONE_REWARD)
    ensures ghostbuster && ghosts == [] ==> r == (-GHOST_REWARD, -DANGER_ZONE_REWARD)
  {
    Api.SignFlipsOnlyWithoutGhosts(ghosts, GHOST_REWARD, DANGER_ZONE_REWARD);
    if ghostbuster then Api.CalculateGhostAndDangerZoneRewards(ghosts, GHOST_REWARD, DANGER_ZONE_REWARD)
    else (GHOST_REWARD, DANGER_ZONE_REWARD)
  }

  // =====================================================================
  // The agent
  // =====================================================================

  class MDPAgent {

    const maxIterations: nat
    const noise: real
    const ghostbusterMode: bool

    var mapWidth: int
    var mapHeight: int
    var corners: seq<Cell>
    var wallPositions: set<Cell>
    var legalStates: set<Cell>
    /** The order in which the `legal_states` frozenset is iterated: some
        order, the same for every sweep of the agent's life. */
    var legalOrder: seq<Cell>
    var rewards: map<Cell, real>
    var values: map<Cell, real>

    /** The registration-time invariant: the legal cells are the open
        cells, and the sweep order lists each of them once. */
    ghost predicate Valid()
      reads this`mapWidth, this`mapHeight, this`wallPositions, this`legalStates, this`legalOrder
    {
      && legalStates == OpenCells(mapWidth, mapHeight, wallPositions)
      && NoDuplicates(legalOrder)
      && (forall c :: c in legalOrder <==> c in legalStates)
    }

    /** The map geometry of `state` is the registered one. */
    ghost predicate SameMap(state: GameState)
      reads this
    {
      state.width == mapWidth && state.height == mapHeight && ToSet(state.walls) == wallPositions
    }

    /** Every successor of a swept cell or of Pacman's cell has a reward,
        so no `self.rewards[next_state]` lookup raises `KeyError`. */
    ghost predicate LookupsSucceed(pacman: Cell)
      reads this`wallPositions, this`legalOrder, this`rewards
    {
      forall s, a: Move :: (s in legalOrder || s == pacman) ==> Rewarded(Transitions(wallPositions, noise, s, a), rewards)
    }

    /** On the registered map, once every legal cell has a reward (as
        `_update_rewards`, and so `getAction`, leaves it), every lookup of
        a sweep and of `getAction` finds its key. */
    lemma SuccessorsRewarded(state: GameState)
      requires Valid() && SameMap(state) && WellFormed(state) && legalStates <= rewards.Keys
      ensures LookupsSucceed(state.pacman)
    {
      forall s, a: Move | s in legalOrder || s == state.pacman
        ensures Rewarded(Transitions(wallPositions, noise, s, a), rewards)
      {
        TransitionsStayOpen(state.width, state.height, state.walls, noise, s, a, rewards);
      }
    }

    constructor ()
      ensures maxIterations == MAX_ITERATIONS && noise == NOISE && ghostbusterMode == GHOSTBUSTER_MODE
      ensures rewards == map[] && values == map[]
      ensures Valid()
    {
      maxIterations := MAX_ITERATIONS;
      noise := NOISE;
      ghostbusterMode := GHOSTBUSTER_MODE;
      mapWidth, mapHeight := 0, 0;
      corners := [];
      wallPositions := {};
      legalStates := {};
      legalOrder := [];
      rewards := map[];
      values := map[];
    }

    /** `registerInitialState`: records the map and its open cells. */
    method RegisterInitialState(state: GameState)
      modifies this
      ensures corners == Api.GetCorners(state.width, state.height)
      ensures mapWidth == state.width && mapHeight == state.height
      ensures wallPositions == ToSet(state.walls)
      ensures forall c :: c in legalStates <==> InGrid(c, mapWidth, mapHeight) && c !in wallPositions
      ensures Valid() && SameMap(state)
      ensures rewards == old(rewards) && values == old(values)
    {
      corners := Api.GetCorners(state.width, state.height);
      mapWidth, mapHeight := state.width, state.height;
      wallPositions := ToSet(state.walls);
      legalStates := OpenCells(mapWidth, mapHeight, wallPositions);
      legalOrder := Enumerate(legalStates);
    }

    /** `__get_transition_states_and_probs`, the loop itself. */
    method TransitionStatesAndProbs(s: Cell, a: Move) returns (transitions: seq<(Cell, real)>)
      ensures transitions == Transitions(wallPositions, noise, s, a)
    {
      var sides := Sides(a);
      transitions := [(NextState(wallPositions, s, a), 1.0 - noise)];
      var noiseSum := 0.0;
      for i := 0 to |sides|
        invariant (transitions, noiseSum) == SideScan(wallPositions, noise, s, a, sides[..i])
      {
        assert sides[..i + 1][..i] == sides[..i];
        var side := Neighbour(s, sides[i]);
        if side in wallPositions {
          noiseSum := noiseSum + noise / 2.0;
        } else {
          transitions := transitions + [(side, noise / 2.0)];
        }
        if noiseSum > 0.0 {
          transitions := transitions + [(s, noiseSum)];
        }
      }
      assert sides[..|sides|] == sides;
    }

    /** The reward map `_update_rewards` builds from what Pacman senses. */
    ghost function RebuiltRewards(state: GameState, cfg: Api.Config): map<Cell, real>
      reads this
    {
      var food := ToSet(Api.VisibleSpec(state.food, state, cfg));
      var capsules := ToSet(Api.VisibleSpec(state.capsules, state, cfg));
      var ghosts := Api.SensedGhosts(state, cfg);
      var danger := Api.DangerZone(state.pacman, ghosts, mapWidth, mapHeight, SAFETY_DISTANCE);
      var (g, d) := GhostAndDangerRewards(ghostbusterMode, state.ghosts);
      UpdatedRewards(rewards, food, capsules, ghosts, danger,
                     BlankCells(legalStates, food, capsules, ghosts, danger), g, d)
    }

    /** `_update_rewards`. */
    method UpdateRewards(state: GameState, cfg: Api.Config)
      requires WellFormed(state)
      modifies this`rewards
      ensures rewards == old(RebuiltRewards(state, cfg))
      ensures legalStates <= rewards.Keys
    {
      Api.BorderWalledEncloses(state.width, state.height, state.walls, state.pacman);
      var foodSeen := Api.GetFood(state, cfg);
      var capsulesSeen := Api.GetCapsules(state, cfg);
      var food := ToSet(foodSeen);
      var capsules := ToSet(capsulesSeen);
      var ghosts := Api.GetGhosts(state, cfg);
      var danger := Api.GetDangerZones(state.pacman, ghosts, mapWidth, mapHeight, SAFETY_DISTANCE);
      var blank := legalStates - food - capsules - ghosts - danger;
      var ghostReward, dangerReward := GHOST_REWARD, DANGER_ZONE_REWARD;
      if ghostbusterMode {
        var pair := Api.CalculateGhostAndDangerZoneRewards(state.ghosts, GHOST_REWARD, DANGER_ZONE_REWARD);
        ghostReward, dangerReward := pair.0, pair.1;
      }
      rewards := Assign(rewards, food, FOOD_REWARD);
      rewards := Assign(rewards, capsules, CAPSULE_REWARD);
      rewards := Assign(rewards, ghosts, ghostReward);
      rewards := Assign(rewards, danger, dangerReward);
      rewards := Assign(rewards, blank, BLANK_REWARD);
    }

    /** `value_iteration`: at most `maxIterations` in-place sweeps over the
        legal cells, returning the number of the first sweep that changed
        no value by THETA or more (None when the budget runs out). */
    method ValueIteration() returns (iterations: Option<nat>)
      modifies this`values
      ensures (values, iterations)
              == Sweeps.GaussSeidelRun(old(values), legalOrder, Backup(wallPositions, noise, rewards),
                                       THETA, 0, maxIterations)
    {
      var backup := Backup(wallPositions, noise, rewards);
      var i := 0;
      while i < maxIterations
        invariant i <= maxIterations
        invariant Sweeps.GaussSeidelRun(old(values), legalOrder, backup, THETA, 0, maxIterations)
                  == Sweeps.GaussSeidelRun(values, legalOrder, backup, THETA, i, maxIterations)
      {
        var delta;
        values, delta := Sweeps.GaussSeidelSweepLoop(values, legalOrder, backup);
        if delta < THETA {
          return Some(i);
        }
        i := i + 1;
      }
      return None;
    }

    /** `getAction`: rebuild the rewards, run value iteration, then take
        the first legal move (Stop removed) with the largest Q-value at
        Pacman's cell and pass it through the noisy executor. */
    method GetAction(state: GameState, cfg: Api.Config, sample: real, turnSample: real) returns (action: Direction)
      requires WellFormed(state) && LegalActionsOk(state.legal)
      requires exists a :: a in state.legal && a != Stop
      modifies this`rewards, this`values
      ensures legalStates <= rewards.Keys
      ensures rewards == old(RebuiltRewards(state, cfg))
      ensures values == Sweeps.GaussSeidelRun(old(values), legalOrder, Backup(wallPositions, noise, rewards),
                                              THETA, 0, maxIterations).0
      ensures var moves := RemoveFirst(state.legal, Stop);
        Stop !in moves && moves != [] &&
        action == Api.MakeMove(FirstArgMax(AsMoves(moves), QAt(wallPositions, noise, rewards, values, state.pacman)),
                               moves, cfg, sample, turnSample)
    {
      ghost var before := values;
      UpdateRewards(state, cfg);
      var _ := ValueIteration();
      assert legalStates <= rewards.Keys;
      assert values == Sweeps.GaussSeidelRun(before, legalOrder, Backup(wallPositions, noise, rewards),
                                             THETA, 0, maxIterations).0;
      var pacman := state.pacman;
      var legal := RemoveFirst(state.legal, Stop);
      RemoveFirstOfUnique(state.legal, Stop);
      var a :| a in state.legal && a != Stop;
      assert a in legal;
      var moves := AsMoves(legal);
      var best := FirstArgMax(moves, QAt(wallPositions, noise, rewards, values, pacman));
      action := Api.MakeMove(best, legal, cfg, sample, turnSample);
    }
  }
}
