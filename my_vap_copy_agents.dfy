/**
  The second grid value-iteration agent with in-place (Gauss-Seidel)
  sweeps. It differs from the first in its motion model (a move into a wall
  stays put with certainty; a slip off the open cells stays put), its
  rewards (food is rewarded only when it is newly seen) and its constants.
 */
module MyVapCopyAgents {

  import opened Util
  import opened Game
  import Api
  import Sweeps

  const FOOD_REWARD: real := 10.0
  const GHOST_REWARD: real := -1000.0
  const DANGER_ZONE_REWARD: real := -500.0
  const CAPSULE_REWARD: real := 100.0
  const BLANK_REWARD: real := -0.04
  const WALL_REWARD: real := 0.0
  const THETA: real := 0.001
  const DISCOUNT_FACTOR: real := 0.9
  const SAFETY_DISTANCE: int := 1

  // =====================================================================
  // Motion model
  // =====================================================================

  /** One noise/2 entry per perpendicular move in `sides`: the neighbour
      when it is a legal position, `s` itself otherwise. */
  function SideEntries(legal: set<Cell>, noise: real, s: Cell, sides: seq<Move>): seq<(Cell, real)>
    decreases |sides|
  {
    if sides == [] then []
    else
      var n := |sides| - 1;
      var side := Neighbour(s, sides[n]);
      SideEntries(legal, noise, s, sides[..n]) + [(if side in legal then side else s, noise / 2.0)]
  }

  /** `__get_transition_states_and_probs`: a move into a wall stays at `s`
      with probability 1; otherwise the intended cell with 1 - noise and
      the two perpendicular slips with noise/2 each. */
  function Transitions(walls: set<Cell>, legal: set<Cell>, noise: real, s: Cell, a: Move): seq<(Cell, real)>
  {
    var intended := Neighbour(s, a);
    if intended in walls then [(s, 1.0)]
    else [(intended, 1.0 - noise)] + SideEntries(legal, noise, s, Sides(a))
  }

  lemma SideEntriesUnfold(legal: set<Cell>, noise: real, s: Cell, a: Move)
    ensures var sides := Sides(a);
      var s0, s1 := Neighbour(s, sides[0]), Neighbour(s, sides[1]);
      SideEntries(legal, noise, s, sides)
      == [(if s0 in legal then s0 else s, noise / 2.0), (if s1 in legal then s1 else s, noise / 2.0)]
  {
    var sides := Sides(a);
    var s0, s1 := Neighbour(s, sides[0]), Neighbour(s, sides[1]);
    var e0 := (if s0 in legal then s0 else s, noise / 2.0);
    var e1 := (if s1 in legal then s1 else s, noise / 2.0);
    assert sides[..1][..0] == [];
    assert SideEntries(legal, noise, s, sides[..1]) == [e0];
    assert sides[..1] == sides[..|sides| - 1];
    assert SideEntries(legal, noise, s, sides) == SideEntries(legal, noise, s, sides[..1]) + [e1];
  }

  /** Whatever the walls, the list carries probability mass exactly 1: a
      blocked move is a single certain self-loop, and an open one has three
      entries 1 - noise, noise/2, noise/2 (duplicated targets not merged). */
  lemma TransitionsMass(walls: set<Cell>, legal: set<Cell>, noise: real, s: Cell, a: Move)
    ensures Mass(Transitions(walls, legal, noise, s, a)) == 1.0
    ensures Neighbour(s, a) in walls ==> Transitions(walls, legal, noise, s, a) == [(s, 1.0)]
    ensures Neighbour(s, a) !in walls ==> |Transitions(walls, legal, noise, s, a)| == 3
  {
    var ts := Transitions(walls, legal, noise, s, a);
    SideEntriesUnfold(legal, noise, s, a);
    if Neighbour(s, a) in walls {
      assert ts[..0] == [];
    } else {
      var sides := Sides(a);
      var h := noise / 2.0;
      var first := [(Neighbour(s, a), 1.0 - noise)];
      var e0 := (if Neighbour(s, sides[0]) in legal then Neighbour(s, sides[0]) else s, h);
      var e1 := (if Neighbour(s, sides[1]) in legal then Neighbour(s, sides[1]) else s, h);
      assert ts == first + [e0] + [e1];
      MassAppend(first + [e0], [e1]);
      MassAppend(first, [e0]);
      assert first[..0] == [];
    }
  }

  /** Every successor is `s`, the open intended neighbour, or a legal
      position; on a map closed by its border all of them are legal, so
      with every legal position rewarded no `rewards[...]` lookup fails. */
  lemma TransitionsStayLegal(width: int, height: int, walls: seq<Cell>, noise: real, s: Cell, a: Move,
                             rewards: map<Cell, real>)
    requires BorderWalled(width, height, walls)
    requires s in OpenCells(width, height, ToSet(walls))
    requires OpenCells(width, height, ToSet(walls)) <= rewards.Keys
    ensures var ts := Transitions(ToSet(walls), OpenCells(width, height, ToSet(walls)), noise, s, a);
      forall i :: 0 <= i < |ts| ==> ts[i].0 in OpenCells(width, height, ToSet(walls))
    ensures Rewarded(Transitions(ToSet(walls), OpenCells(width, height, ToSet(walls)), noise, s, a), rewards)
  {
    var ws := ToSet(walls);
    var legal := OpenCells(width, height, ws);
    SideEntriesUnfold(legal, noise, s, a);
    NeighbourStaysInGrid(width, height, walls, s, a);
    var ts := Transitions(ws, legal, noise, s, a);
    if Neighbour(s, a) !in ws {
      var sides := Sides(a);
      var e0 := (if Neighbour(s, sides[0]) in legal then Neighbour(s, sides[0]) else s, noise / 2.0);
      var e1 := (if Neighbour(s, sides[1]) in legal then Neighbour(s, sides[1]) else s, noise / 2.0);
      assert ts == [(Neighbour(s, a), 1.0 - noise), e0, e1];
      assert Neighbour(s, a) in legal;
    }
    assert forall i :: 0 <= i < |ts| ==> ts[i].0 in legal;
  }

  // =====================================================================
  // Bellman backup
  // =====================================================================

  /** `__compute_q_value_from_values`: Σ prob · (reward + 0.9 · value). */
  function QValue(walls: set<Cell>, legal: set<Cell>, noise: real, rewards: map<Cell, real>,
                  values: map<Cell, real>, s: Cell, a: Move): real
  {
    Expected(Transitions(walls, legal, noise, s, a), rewards, values, DISCOUNT_FACTOR)
  }

  /** Q-value of a move at `s`, as a function of the move. */
  function QAt(walls: set<Cell>, legal: set<Cell>, noise: real, rewards: map<Cell, real>,
               values: map<Cell, real>, s: Cell): Move -> real
  {
    (a: Move) => QValue(walls, legal, noise, rewards, values, s, a)
  }

  /** Bumping into a wall backs up `s`'s own reward and value. */
  lemma QValueIntoWall(walls: set<Cell>, legal: set<Cell>, noise: real, rewards: map<Cell, real>,
                       values: map<Cell, real>, s: Cell, a: Move)
    requires Neighbour(s, a) in walls
    ensures QValue(walls, legal, noise, rewards, values, s, a)
            == Get(rewards, s) + DISCOUNT_FACTOR * Get(values, s)
  {
    var ts := Transitions(walls, legal, noise, s, a);
    assert ts == [(s, 1.0)];
    assert ts[..0] == [];
    assert Expected(ts, rewards, values, DISCOUNT_FACTOR)
           == Expected(ts[..0], rewards, values, DISCOUNT_FACTOR)
              + 1.0 * (Get(rewards, s) + DISCOUNT_FACTOR * Get(values, s));
  }

  /** `_get_best_policy`: the largest Q-value over all four moves. */
  function BestValue(walls: set<Cell>, legal: set<Cell>, noise: real, rewards: map<Cell, real>,
                     values: map<Cell, real>, s: Cell): real
  {
    var q := QAt(walls, legal, noise, rewards, values, s);
    Max(Max(Max(q(North), q(South)), q(East)), q(West))
  }

  lemma BestValueIsMaxQ(walls: set<Cell>, legal: set<Cell>, noise: real, rewards: map<Cell, real>,
                        values: map<Cell, real>, s: Cell)
    ensures forall a: Move :: QValue(walls, legal, noise, rewards, values, s, a)
                              <= BestValue(walls, legal, noise, rewards, values, s)
    ensures exists a: Move :: QValue(walls, legal, noise, rewards, values, s, a)
                              == BestValue(walls, legal, noise, rewards, values, s)
  {
    var q := QAt(walls, legal, noise, rewards, values, s);
    var best := BestValue(walls, legal, noise, rewards, values, s);
    assert q(North) == best || q(South) == best || q(East) == best || q(West) == best;
    forall a: Move
      ensures QValue(walls, legal, noise, rewards, values, s, a) <= best
    {
      assert q(a) == QValue(walls, legal, noise, rewards, values, s, a);
    }
  }

  function Backup(walls: set<Cell>, legal: set<Cell>, noise: real, rewards: map<Cell, real>)
    : (map<Cell, real>, Cell) -> real
  {
    (values: map<Cell, real>, s: Cell) => BestValue(walls, legal, noise, rewards, values, s)
  }

  // =====================================================================
  // Reward map
  // =====================================================================

  /** The successive updates of `_update_rewards`: food not seen on the
      previous tick, capsules, ghosts, danger zones, blank cells. */
  function UpdatedRewards(rewards: map<Cell, real>, newFood: set<Cell>, capsules: set<Cell>, ghosts: set<Cell>,
                          danger: set<Cell>, blank: set<Cell>, ghostReward: real, dangerReward: real)
    : map<Cell, real>
  {
    var r1 := Assign(rewards, newFood, FOOD_REWARD);
    var r2 := Assign(r1, capsules, CAPSULE_REWARD);
    var r3 := Assign(r2, ghosts, ghostReward);
    var r4 := Assign(r3, danger, dangerReward);
    Assign(r4, blank, BLANK_REWARD)
  }

  /** The effective precedence is blank, danger, ghost, capsule, new
      food; food that was already visible on the previous tick is not
      rewritten, so it keeps whatever reward it had. */
  lemma UpdatedRewardsPrecedence(rewards: map<Cell, real>, food: set<Cell>, previousFood: set<Cell>,
                                 capsules: set<Cell>, ghosts: set<Cell>, danger: set<Cell>, blank: set<Cell>,
                                 ghostReward: real, dangerReward: real)
    ensures var r := UpdatedRewards(rewards, food - previousFood, capsules, ghosts, danger, blank,
                                    ghostReward, dangerReward);
      && r.Keys == rewards.Keys + (food - previousFood) + capsules + ghosts + danger + blank
      && forall c :: c in r ==>
           r[c] == (if c in blank then BLANK_REWARD
                    else if c in danger then dangerReward
                    else if c in ghosts then ghostReward
                    else if c in capsules then CAPSULE_REWARD
                    else if c in food && c !in previousFood then FOOD_REWARD
                    else rewards[c])
  {
  }

  // =====================================================================
  // The agent
  // =====================================================================

  class MDPAgentCopy {

    const maxIterations: nat
    const noise: real

    var mapWidth: int
    var mapHeight: int
    var corners: seq<Cell>
    var wallPositions: set<Cell>
    var legalPositions: set<Cell>
    /** The iteration order of the `legal_positions` frozenset. */
    var legalOrder: seq<Cell>
    var rewards: map<Cell, real>
    var values: map<Cell, real>
    var previousFoods: set<Cell>

    /** The legal positions are the open cells of the map, and
        `legalOrder` lists each of them once. */
    ghost predicate Valid()
      reads this`mapWidth, this`mapHeight, this`wallPositions, this`legalPositions, this`legalOrder
    {
      && legalPositions == OpenCells(mapWidth, mapHeight, wallPositions)
      && NoDuplicates(legalOrder)
      && (forall c :: c in legalOrder <==> c in legalPositions)
    }

    /** Every legal position has a reward, so no `rewards[...]` lookup of a
        successor fails. */
    ghost predicate RewardsCoverLegal()
      reads this`legalPositions, this`rewards
    {
      legalPositions <= rewards.Keys
    }

    /** The map geometry of `state` is the registered one. */
    ghost predicate SameMap(state: GameState)
      reads this`mapWidth, this`mapHeight, this`wallPositions
    {
      state.width == mapWidth && state.height == mapHeight && ToSet(state.walls) == wallPositions
    }

    /** Every successor of a swept cell or of Pacman's cell has a reward,
        so no `self.rewards[next_state]` lookup raises `KeyError`. */
    ghost predicate LookupsSucceed(pacman: Cell)
      reads this`wallPositions, this`legalPositions, this`legalOrder, this`rewards
    {
      forall s, a: Move :: (s in legalOrder || s == pacman)
                           ==> Rewarded(Transitions(wallPositions, legalPositions, noise, s, a), rewards)
    }

    /** On the registered map, with every legal position rewarded (which
        `registerInitialState` sets up and `_update_rewards` keeps), every
        lookup of a sweep and of `getAction` finds its key. */
    lemma SuccessorsRewarded(state: GameState)
      requires Valid() && SameMap(state) && WellFormed(state) && RewardsCoverLegal()
      ensures LookupsSucceed(state.pacman)
    {
      forall s, a: Move | s in legalOrder || s == state.pacman
        ensures Rewarded(Transitions(wallPositions, legalPositions, noise, s, a), rewards)
      {
        TransitionsStayLegal(state.width, state.height, state.walls, noise, s, a, rewards);
      }
    }

    constructor (maxIterations: nat := 500, noise: real := 0.2)
      ensures this.maxIterations == maxIterations && this.noise == noise
      ensures rewards == map[] && values == map[]
      ensures Valid() && RewardsCoverLegal()
    {
      this.maxIterations := maxIterations;
      this.noise := noise;
      mapWidth, mapHeight := 0, 0;
      corners := [];
      wallPositions := {};
      legalPositions := {};
      legalOrder := [];
      rewards := map[];
      values := map[];
      previousFoods := {};
    }

    /** `registerInitialState`: records the map, its legal positions, a
        BLANK reward on each of them, and no previously seen food. */
    method RegisterInitialState(state: GameState)
      modifies this
      ensures corners == Api.GetCorners(state.width, state.height)
      ensures mapWidth == state.width && mapHeight == state.height
      ensures wallPositions == ToSet(state.walls)
      ensures forall c :: c in legalPositions <==> InGrid(c, mapWidth, mapHeight) && c !in wallPositions
      ensures rewards.Keys == legalPositions && forall c :: c in rewards ==> rewards[c] == BLANK_REWARD
      ensures previousFoods == {}
      ensures Valid() && RewardsCoverLegal() && values == old(values)
    {
      corners := Api.GetCorners(state.width, state.height);
      mapWidth, mapHeight := state.width, state.height;
      wallPositions := ToSet(state.walls);
      legalPositions := OpenCells(mapWidth, mapHeight, wallPositions);
      legalOrder := Enumerate(legalPositions);
      rewards := map p | p in legalPositions :: BLANK_REWARD;
      previousFoods := {};
    }

    /** `__get_transition_states_and_probs`, the loop itself. */
    method TransitionStatesAndProbs(s: Cell, a: Move) returns (transitions: seq<(Cell, real)>)
      ensures transitions == Transitions(wallPositions, legalPositions, noise, s, a)
    {
      var intended := Neighbour(s, a);
      if intended in wallPositions {
        return [(s, 1.0)];
      }
      transitions := [(intended, 1.0 - noise)];
      var sides := Sides(a);
      for i := 0 to |sides|
        invariant transitions == [(intended, 1.0 - noise)] + SideEntries(legalPositions, noise, s, sides[..i])
      {
        assert sides[..i + 1][..i] == sides[..i];
        var side := Neighbour(s, sides[i]);
        if side in legalPositions {
          transitions := transitions + [(side, noise / 2.0)];
        } else {
          transitions := transitions + [(s, noise / 2.0)];
        }
      }
      assert sides[..|sides|] == sides;
    }

    /** The food Pacman sees now. */
    ghost function SeenFood(state: GameState, cfg: Api.Config): set<Cell>
    {
      ToSet(Api.VisibleSpec(state.food, state, cfg))
    }

    /** The reward map `_update_rewards` builds from what Pacman senses. */
    ghost function RebuiltRewards(state: GameState, cfg: Api.Config): map<Cell, real>
      reads this
    {
      var food := SeenFood(state, cfg);
      var capsules := ToSet(Api.VisibleSpec(state.capsules, state, cfg));
      var ghosts := Api.SensedGhosts(state, cfg);
      var danger := Api.DangerZone(state.pacman, ghosts, mapWidth, mapHeight, SAFETY_DISTANCE);
      var (g, d) := Api.CalculateGhostAndDangerZoneRewards(state.ghosts, GHOST_REWARD, DANGER_ZONE_REWARD);
      UpdatedRewards(rewards, food - previousFoods, capsules, ghosts, danger,
                     legalPositions - food - capsules - ghosts - danger, g, d)
    }

    /** `_update_rewards`. */
    method UpdateRewards(state: GameState, cfg: Api.Config)
      requires RewardsCoverLegal() && WellFormed(state)
      modifies this`rewards, this`previousFoods
      ensures rewards == old(RebuiltRewards(state, cfg))
      ensures previousFoods == SeenFood(state, cfg)
      ensures RewardsCoverLegal()
    {
      Api.BorderWalledEncloses(state.width, state.height, state.walls, state.pacman);
      var foodSeen := Api.GetFood(state, cfg);
      var capsulesSeen := Api.GetCapsules(state, cfg);
      var food := ToSet(foodSeen);
      assert food == SeenFood(state, cfg);
      var capsules := ToSet(capsulesSeen);
      var ghosts := Api.GetGhosts(state, cfg);
      var danger := Api.GetDangerZones(state.pacman, ghosts, mapWidth, mapHeight, SAFETY_DISTANCE);
      var blank := legalPositions - food - capsules - ghosts - danger;
      var pair := Api.CalculateGhostAndDangerZoneRewards(state.ghosts, GHOST_REWARD, DANGER_ZONE_REWARD);
      var ghostReward, dangerReward := pair.0, pair.1;
      ghost var rebuilt := UpdatedRewards(rewards, food - previousFoods, capsules, ghosts, danger, blank,
                                          ghostReward, dangerReward);
      assert rebuilt == RebuiltRewards(state, cfg);
      rewards := Assign(rewards, food - previousFoods, FOOD_REWARD);
      previousFoods := food;
      rewards := Assign(rewards, capsules, CAPSULE_REWARD);
      rewards := Assign(rewards, ghosts, ghostReward);
      rewards := Assign(rewards, danger, dangerReward);
      rewards := Assign(rewards, blank, BLANK_REWARD);
      assert rewards == rebuilt;
    }

    /** `value_iteration`: at most `maxIterations` in-place sweeps over the
        legal positions (each the loop of `Sweeps.GaussSeidelSweepLoop`
        with `_get_best_policy` as the backup), with `delta` reset for
        every sweep. */
    method ValueIteration() returns (iterations: Option<nat>)
      modifies this`values
      ensures (values, iterations)
              == Sweeps.GaussSeidelRun(old(values), legalOrder, Backup(wallPositions, legalPositions, noise, rewards),
                                       THETA, 0, maxIterations)
    {
      var backup := Backup(wallPositions, legalPositions, noise, rewards);
      var i := 0;
      while i < maxIterations
        invariant i <= maxIterations
        invariant Sweeps.GaussSeidelRun(old(values), legalOrder, backup, THETA, 0, maxIterations)
                  == Sweeps.GaussSeidelRun(values, legalOrder, backup, THETA, i, maxIterations)
      {
        var delta;
        values, delta := Sweeps.GaussSeidelSweepLoop(values, legalOrder, backup);
        if delta < THETA {
          return Some(i);
        }
        i := i + 1;
      }
      return None;
    }

    /** `getAction`: rebuild the rewards, run value iteration, then take
        the first legal move (Stop removed) with the largest Q-value at
        Pacman's cell and pass it through the noisy executor. */
    method GetAction(state: GameState, cfg: Api.Config, sample: real, turnSample: real) returns (action: Direction)
      requires RewardsCoverLegal() && WellFormed(state) && LegalActionsOk(state.legal)
      requires exists a :: a in state.legal && a != Stop
      modifies this`rewards, this`values, this`previousFoods
      ensures RewardsCoverLegal()
      ensures rewards == old(RebuiltRewards(state, cfg))
      ensures previousFoods == SeenFood(state, cfg)
      ensures values == Sweeps.GaussSeidelRun(old(values), legalOrder,
                                              Backup(wallPositions, legalPositions, noise, rewards),
                                              THETA, 0, maxIterations).0
      ensures var moves := RemoveFirst(state.legal, Stop);
        Stop !in moves && moves != [] &&
        action == Api.MakeMove(FirstArgMax(AsMoves(moves),
                                           QAt(wallPositions, legalPositions, noise, rewards, values, state.pacman)),
                               moves, cfg, sample, turnSample)
    {
      UpdateRewards(state, cfg);
      var _ := ValueIteration();
      var pacman := state.pacman;
      var legal := RemoveFirst(state.legal, Stop);
      RemoveFirstOfUnique(state.legal, Stop);
      var a :| a in state.legal && a != Stop;
      assert a in legal;
      var moves := AsMoves(legal);
      var best := FirstArgMax(moves, QAt(wallPositions, legalPositions, noise, rewards, values, pacman));
      action := Api.MakeMove(best, legal, cfg, sample, turnSample);
    }
  }
}
