/**
  The grid value-iteration agent with copy-then-swap (Jacobi) sweeps. Its
  transitions treat the map border as well as the walls as blocking, its
  reward map covers the whole grid (walls included), and its backup for
  every cell maximises over the moves that are legal where Pacman stands.
 */
module MyVapAgents {

  import opened Util
  import opened Game
  import Api
  import Sweeps

  const FOOD_REWARD: real := 20.0
  const GHOST_REWARD: real := -50.0
  const DANGER_ZONE_REWARD: real := -25.0
  const CAPSULE_REWARD: real := 15.0
  const BLANK_REWARD: real := -3.0
  const WALL_REWARD: real := -10.0
  const THETA: real := 0.1
  const SAFETY_DISTANCE: int := 1

  // =====================================================================
  // Motion model
  // =====================================================================

  /** `__isAllowed`: inside the map and not a wall. */
  predicate IsAllowed(width: int, height: int, walls: set<Cell>, c: Cell)
  {
    InGrid(c, width, height) && c !in walls
  }

  /** `__next_cell`: the neighbour in direction `d` when it is allowed,
      otherwise `c` itself. */
  function NextCell(width: int, height: int, walls: set<Cell>, c: Cell, d: Move): (r: Cell)
    ensures r == c || r == Neighbour(c, d)
    ensures r == Neighbour(c, d) <==> IsAllowed(width, height, walls, Neighbour(c, d))
  {
    MoveLeaves(c, d);
    var next := Neighbour(c, d);
    if IsAllowed(width, height, walls, next) then next else c
  }

  /** `__get_transition_states_and_probs`: Stop stays put with certainty;
      a move reaches its next cell with 1 - noise and each perpendicular
      next cell with noise/2. */
  function Transitions(width: int, height: int, walls: set<Cell>, noise: real, c: Cell, a: Direction)
    : seq<(Cell, real)>
  {
    if a == Stop then [(c, 1.0)]
    else
      var sides := Sides(a);
      [(NextCell(width, height, walls, c, a), 1.0 - noise),
       (NextCell(width, height, walls, c, sides[0]), noise / 2.0),
       (NextCell(width, height, walls, c, sides[1]), noise / 2.0)]
  }

  /** The list always carries probability mass exactly 1, and has one
      entry for Stop and three for a move. */
  lemma TransitionsMass(width: int, height: int, walls: set<Cell>, noise: real, c: Cell, a: Direction)
    ensures Mass(Transitions(width, height, walls, noise, c, a)) == 1.0
    ensures |Transitions(width, height, walls, noise, c, a)| == if a == Stop then 1 else 3
  {
    var ts := Transitions(width, height, walls, noise, c, a);
    if a == Stop {
      assert ts[..0] == [];
    } else {
      assert ts[..2][..1][..0] == [];
      assert Mass(ts[..1]) == 1.0 - noise;
      assert Mass(ts[..2]) == 1.0 - noise + noise / 2.0;
    }
  }

  /** Every successor is `c` itself or an allowed neighbour of it, so from
      a cell of the grid every successor is a cell of the grid. */
  lemma TransitionsStayInGrid(width: int, height: int, walls: set<Cell>, noise: real, c: Cell, a: Direction)
    ensures var ts := Transitions(width, height, walls, noise, c, a);
      forall i :: 0 <= i < |ts| ==>
        ts[i].0 == c || exists d: Move :: ts[i].0 == Neighbour(c, d) && IsAllowed(width, height, walls, ts[i].0)
    ensures InGrid(c, width, height) ==>
      var ts := Transitions(width, height, walls, noise, c, a);
      forall i :: 0 <= i < |ts| ==> InGrid(ts[i].0, width, height)
  {
    var ts := Transitions(width, height, walls, noise, c, a);
    if a != Stop {
      var sides := Sides(a);
      var moves: seq<Move> := [a, sides[0], sides[1]];
      assert forall i :: 0 <= i < 3 ==> ts[i].0 == NextCell(width, height, walls, c, moves[i]);
    }
  }

  // =====================================================================
  // Bellman backup
  // =====================================================================

  /** `__compute_q_value_from_values`: Σ prob · (reward + discount · value). */
  function QValue(width: int, height: int, walls: set<Cell>, noise: real, discount: real,
                  rewards: map<Cell, real>, values: map<Cell, real>, c: Cell, a: Direction): real
  {
    Expected(Transitions(width, height, walls, noise, c, a), rewards, values, discount)
  }

  /** Q-value of an action at `c`, as a function of the action. */
  function QAt(width: int, height: int, walls: set<Cell>, noise: real, discount: real,
               rewards: map<Cell, real>, values: map<Cell, real>, c: Cell): Direction -> real
  {
    (a: Direction) => QValue(width, height, walls, noise, discount, rewards, values, c, a)
  }

  /** Where every successor has reward `r` and value `v`, Q is exactly the
      backed-up amount r + discount · v (the mass is 1). */
  lemma QValueOfUniformNeighbourhood(width: int, height: int, walls: set<Cell>, noise: real, discount: real,
                                     rewards: map<Cell, real>, values: map<Cell, real>, c: Cell, a: Direction,
                                     r: real, v: real)
    requires forall t :: (t == c || IsAllowed(width, height, walls, t)) ==> Get(rewards, t) == r && Get(values, t) == v
    ensures QValue(width, height, walls, noise, discount, rewards, values, c, a) == r + discount * v
  {
    var ts := Transitions(width, height, walls, noise, c, a);
    TransitionsStayInGrid(width, height, walls, noise, c, a);
    ExpectedOfConstant(ts, rewards, values, discount, r, v, r + discount * v);
    TransitionsMass(width, height, walls, noise, c, a);
  }

  /** `__get_best_policy`: the first of `moves` (Pacman's legal moves
      without Stop) with the largest Q-value at `c`, None when there is
      none. */
  function BestAction(width: int, height: int, walls: set<Cell>, noise: real, discount: real,
                      rewards: map<Cell, real>, values: map<Cell, real>, moves: seq<Direction>, c: Cell)
    : Option<Direction>
  {
    if moves == [] then None
    else Some(FirstArgMax(moves, QAt(width, height, walls, noise, discount, rewards, values, c)))
  }

  /** With a legal list that holds Stop once and some other move, the best
      policy exists and is a legal move other than Stop. */
  lemma BestActionIsMove(width: int, height: int, walls: set<Cell>, noise: real, discount: real,
                         rewards: map<Cell, real>, values: map<Cell, real>, legal: seq<Direction>, c: Cell)
    requires LegalActionsOk(legal) && exists a :: a in legal && a != Stop
    ensures var best := BestAction(width, height, walls, noise, discount, rewards, values, RemoveFirst(legal, Stop), c);
      best.Some? && best.value in legal && best.value != Stop
  {
    RemoveFirstOfUnique(legal, Stop);
    var a :| a in legal && a != Stop;
    assert a in RemoveFirst(legal, Stop);
  }

  /** The value `value_iteration` writes for `c`: the Q-value of the best
      action (0 when there is none, where the source would fail). */
  function BestQ(width: int, height: int, walls: set<Cell>, noise: real, discount: real,
                 rewards: map<Cell, real>, moves: seq<Direction>, values: map<Cell, real>, c: Cell): real
  {
    match BestAction(width, height, walls, noise, discount, rewards, values, moves, c)
    case None => 0.0
    case Some(a) => QValue(width, height, walls, noise, discount, rewards, values, c, a)
  }

  /** The written value is the largest Q-value over `moves`. */
  lemma BestQIsMaxQ(width: int, height: int, walls: set<Cell>, noise: real, discount: real,
                    rewards: map<Cell, real>, moves: seq<Direction>, values: map<Cell, real>, c: Cell)
    requires moves != []
    ensures forall a :: a in moves ==>
      QValue(width, height, walls, noise, discount, rewards, values, c, a)
      <= BestQ(width, height, walls, noise, discount, rewards, moves, values, c)
    ensures exists a :: (a in moves &&
      QValue(width, height, walls, noise, discount, rewards, values, c, a)
      == BestQ(width, height, walls, noise, discount, rewards, moves, values, c))
  {
    var q := QAt(width, height, walls, noise, discount, rewards, values, c);
    var best := FirstArgMax(moves, q);
    assert BestQ(width, height, walls, noise, discount, rewards, moves, values, c) == q(best);
    forall a | a in moves
      ensures QValue(width, height, walls, noise, discount, rewards, values, c, a) <= q(best)
    {
      var i :| 0 <= i < |moves| && moves[i] == a;
      assert q(moves[i]) <= q(best);
    }
  }

  function Backup(width: int, height: int, walls: set<Cell>, noise: real, discount: real,
                  rewards: map<Cell, real>, moves: seq<Direction>): (map<Cell, real>, Cell) -> real
  {
    (values: map<Cell, real>, c: Cell) => BestQ(width, height, walls, noise, discount, rewards, moves, values, c)
  }

  /** No cell is skipped by the sweep. */
  function NothingFrozen(): Cell -> bool
  {
    (c: Cell) => false
  }

  // =====================================================================
  // Reward map
  // =====================================================================

  /** The successive updates of `__update_rewards`: food, capsules, walls,
      blank cells, danger zones, ghosts. */
  function UpdatedRewards(rewards: map<Cell, real>, food: set<Cell>, capsules: set<Cell>, walls: set<Cell>,
                          blank: set<Cell>, danger: set<Cell>, ghosts: set<Cell>, ghostReward: real,
                          dangerReward: real): map<Cell, real>
  {
    var r1 := Assign(rewards, food, FOOD_REWARD);
    var r2 := Assign(r1, capsules, CAPSULE_REWARD);
    var r3 := Assign(r2, walls, WALL_REWARD);
    var r4 := Assign(r3, blank, BLANK_REWARD);
    var r5 := Assign(r4, danger, dangerReward);
    Assign(r5, ghosts, ghostReward)
  }

  /** The updates only add keys: every updated cell becomes a key. */
  lemma UpdatedRewardsKeys(rewards: map<Cell, real>, food: set<Cell>, capsules: set<Cell>, walls: set<Cell>,
                           blank: set<Cell>, danger: set<Cell>, ghosts: set<Cell>, ghostReward: real,
                           dangerReward: real)
    ensures UpdatedRewards(rewards, food, capsules, walls, blank, danger, ghosts, ghostReward, dangerReward).Keys
            == rewards.Keys + food + capsules + walls + blank + danger + ghosts
  {
  }

  /** A later update wins: the effective precedence is ghost, danger,
      blank, wall, capsule, food, and a cell no update names keeps its
      reward. */
  lemma UpdatedRewardsPrecedence(rewards: map<Cell, real>, food: set<Cell>, capsules: set<Cell>, walls: set<Cell>,
                                 blank: set<Cell>, danger: set<Cell>, ghosts: set<Cell>, ghostReward: real,
                                 dangerReward: real)
    ensures var r := UpdatedRewards(rewards, food, capsules, walls, blank, danger, ghosts, ghostReward, dangerReward);
      forall c :: c in r ==>
        r[c] == (if c in ghosts then ghostReward
                 else if c in danger then dangerReward
                 else if c in blank then BLANK_REWARD
                 else if c in walls then WALL_REWARD
                 else if c in capsules then CAPSULE_REWARD
                 else if c in food then FOOD_REWARD
                 else rewards[c])
  {
  }

  /** What `__update_rewards` records from `state`, starting from `rewards`:
      the visible food, the visible capsules, the sensed ghosts, the blank
      cells and the rewritten reward map. */
  ghost function Sensed(state: GameState, cfg: Api.Config, rewards: map<Cell, real>)
    : (seq<Cell>, seq<Cell>, set<Cell>, set<Cell>, map<Cell, real>)
  {
    var food := Api.VisibleSpec(state.food, state, cfg);
    var caps := Api.VisibleSpec(state.capsules, state, cfg);
    var sensed := Api.SensedGhosts(state, cfg);
    var empty := Api.GetBlank(food, sensed, caps, state.walls, rewards);
    var danger := Api.DangerZone(state.pacman, sensed, state.width, state.height, SAFETY_DISTANCE);
    var (g, d) := Api.CalculateGhostAndDangerZoneRewards(state.ghosts, GHOST_REWARD, DANGER_ZONE_REWARD);
    (food, caps, sensed, empty, UpdatedRewards(rewards, ToSet(food), ToSet(caps), ToSet(state.walls), empty, danger, sensed, g, d))
  }

  /** The reward map `__update_rewards` builds. */
  ghost function Rebuilt(state: GameState, cfg: Api.Config, rewards: map<Cell, real>): map<Cell, real>
  {
    Sensed(state, cfg, rewards).4
  }

  /** `order` lists the cells of the `width` x `height` grid column by
      column, and `rewards` is keyed by exactly those cells. */
  ghost predicate GridKeyed(width: int, height: int, order: seq<Cell>, rewards: map<Cell, real>)
  {
    order == GridOrder(width, height) && rewards.Keys == ToSet(order)
  }

  /** Everything `__update_rewards` writes lies on the map, so when the
      rewards cover exactly the grid they still do afterwards. */
  lemma RebuiltKeepsGrid(state: GameState, cfg: Api.Config, rewards: map<Cell, real>)
    requires WellFormed(state)
    requires rewards.Keys == ToSet(GridOrder(state.width, state.height))
    ensures Rebuilt(state, cfg, rewards).Keys == rewards.Keys
  {
    GridOrderMembers(state.width, state.height);
    var food := Api.VisibleSpec(state.food, state, cfg);
    var caps := Api.VisibleSpec(state.capsules, state, cfg);
    var sensed := Api.SensedGhosts(state, cfg);
    var empty := Api.GetBlank(food, sensed, caps, state.walls, rewards);
    var danger := Api.DangerZone(state.pacman, sensed, state.width, state.height, SAFETY_DISTANCE);
    var (g, d) := Api.CalculateGhostAndDangerZoneRewards(state.ghosts, GHOST_REWARD, DANGER_ZONE_REWARD);
    Api.VisibleWithin(state.food, state, cfg);
    Api.VisibleWithin(state.capsules, state, cfg);
    Api.SensedGhostsBounds(state, cfg);
    forall c | c in ToSet(food) ensures c in rewards {
      assert c in state.food;
    }
    forall c | c in ToSet(caps) ensures c in rewards {
      assert c in state.capsules;
    }
    forall c | c in sensed ensures c in rewards {
      var ps := GhostPositions(state.ghosts);
      var i :| 0 <= i < |ps| && ps[i] == c;
      assert state.ghosts[i] in state.ghosts;
    }
    assert ToSet(state.walls) <= rewards.Keys;
    assert empty <= rewards.Keys;
    assert danger <= rewards.Keys;
    UpdatedRewardsKeys(rewards, ToSet(food), ToSet(caps), ToSet(state.walls), empty, danger, sensed, g, d);
  }

  /** The body of `__update_rewards` on values: what Pacman senses, the
      blank cells, and the rewards rewritten in the source's order (food,
      capsules, walls, blank, danger zone, ghosts). */
  method SenseAndReward(state: GameState, cfg: Api.Config, rewards: map<Cell, real>, ghost order: seq<Cell>)
    returns (food: seq<Cell>, caps: seq<Cell>, sensed: set<Cell>, empty: set<Cell>, r: map<Cell, real>)
    requires WellFormed(state)
    ensures (food, caps, sensed, empty, r) == Sensed(state, cfg, rewards)
    ensures GridKeyed(state.width, state.height, order, rewards) ==> GridKeyed(state.width, state.height, order, r)
  {
    if GridKeyed(state.width, state.height, order, rewards) {
      RebuiltKeepsGrid(state, cfg, rewards);
    }
    Api.BorderWalledEncloses(state.width, state.height, state.walls, state.pacman);
    food := Api.GetFood(state, cfg);
    caps := Api.GetCapsules(state, cfg);
    sensed := Api.GetGhosts(state, cfg);
    empty := Api.GetBlank(food, sensed, caps, state.walls, rewards);
    r := Assign(rewards, ToSet(food), FOOD_REWARD);
    r := Assign(r, ToSet(caps), CAPSULE_REWARD);
    r := Assign(r, ToSet(state.walls), WALL_REWARD);
    r := Assign(r, empty, BLANK_REWARD);
    var danger := Api.GetDangerZones(state.pacman, sensed, state.width, state.height, SAFETY_DISTANCE);
    var pair := Api.CalculateGhostAndDangerZoneRewards(state.ghosts, GHOST_REWARD, DANGER_ZONE_REWARD);
    r := Assign(r, danger, pair.1);
    r := Assign(r, sensed, pair.0);
  }

  // =====================================================================
  // The agent
  // =====================================================================

  class MDPAgent {

    const discount: real
    const iterations: nat
    const noise: real

    var mapWidth: int
    var mapHeight: int
    var floors: seq<Cell>
    var walls: seq<Cell>
    var blank: set<Cell>
    var foods: seq<Cell>
    var capsules: seq<Cell>
    var ghosts: set<Cell>
    var pacman: Cell
    var rewards: map<Cell, real>
    /** The iteration order of `rewards.keys()`: the order in which
        `registerInitialState` inserted the grid cells (later updates only
        overwrite existing keys, which keeps that order). */
    var keyOrder: seq<Cell>
    var values: map<Cell, real>

    /** The reward map is keyed by the cells `keyOrder` lists, which are
        those of the grid, column by column. */
    ghost predicate Valid()
      reads this`mapWidth, this`mapHeight, this`keyOrder, this`rewards
    {
      GridKeyed(mapWidth, mapHeight, keyOrder, rewards)
    }

    /** Under `Valid`, the reward keys are exactly the cells of the grid,
        each listed once by `keyOrder`. */
    lemma RewardKeysAreGrid()
      requires Valid()
      ensures forall c :: c in rewards <==> InGrid(c, mapWidth, mapHeight)
      ensures NoDuplicates(keyOrder)
    {
      GridOrderMembers(mapWidth, mapHeight);
    }

    /** The map Pacman plays on is the one that was registered. */
    ghost predicate SameMap(state: GameState)
      reads this`mapWidth, this`mapHeight, this`walls
    {
      mapWidth == state.width && mapHeight == state.height && walls == state.walls
    }

    /** Every successor of a swept cell or of Pacman's cell has a reward,
        so no `self.rewards[next_cell]` lookup raises `KeyError`. */
    ghost predicate LookupsSucceed(state: GameState)
      reads this`mapWidth, this`mapHeight, this`keyOrder, this`rewards
    {
      forall c, a :: (c in keyOrder || c == state.pacman)
                     ==> Rewarded(Transitions(mapWidth, mapHeight, ToSet(state.walls), noise, c, a), rewards)
    }

    /** With the rewards keyed by the grid (which `registerInitialState`
        sets up and `__update_rewards` keeps), every lookup of a sweep and
        of `getAction` on the registered map finds its key. */
    lemma SuccessorsRewarded(state: GameState)
      requires Valid() && SameMap(state) && WellFormed(state)
      ensures LookupsSucceed(state)
    {
      RewardKeysAreGrid();
      GridOrderMembers(mapWidth, mapHeight);
      forall c, a | c in keyOrder || c == state.pacman
        ensures Rewarded(Transitions(mapWidth, mapHeight, ToSet(state.walls), noise, c, a), rewards)
      {
        TransitionsStayInGrid(mapWidth, mapHeight, ToSet(state.walls), noise, c, a);
      }
    }

    constructor (discount: real := 0.9, iterations: nat := 100, noise: real := 0.2)
      ensures this.discount == discount && this.iterations == iterations && this.noise == noise
      ensures rewards == map[] && values == map[]
      ensures Valid()
    {
      this.discount := discount;
      this.iterations := iterations;
      this.noise := noise;
      mapWidth, mapHeight := 0, 0;
      floors, walls := [], [];
      blank, foods, capsules, ghosts := {}, [], [], {};
      pacman := Cell(0, 0);
      rewards := map[];
      keyOrder := [];
      values := map[];
    }

    /** `registerInitialState`: records the map and gives every grid cell
        the BLANK reward. The source fails on a map without walls. */
    method RegisterInitialState(state: GameState)
      requires state.walls != []
      modifies this`mapWidth, this`mapHeight, this`floors, this`walls, this`rewards, this`keyOrder
      ensures (mapWidth, mapHeight, walls, floors) == (state.width, state.height, state.walls, Api.GetFloors(state.walls))
      ensures Valid()
      ensures forall c :: c in rewards ==> rewards[c] == BLANK_REWARD
    {
      mapWidth, mapHeight := state.width, state.height;
      floors := Api.GetFloors(state.walls);
      walls := state.walls;
      keyOrder := GridOrder(mapWidth, mapHeight);
      rewards := map c | c in keyOrder :: BLANK_REWARD;
    }

    /** `__get_transition_states_and_probs`, the loop itself. */
    method TransitionStatesAndProbs(state: GameState, cell: Cell, action: Direction)
      returns (successors: seq<(Cell, real)>)
      ensures successors == Transitions(mapWidth, mapHeight, ToSet(state.walls), noise, cell, action)
    {
      ghost var ts := Transitions(mapWidth, mapHeight, ToSet(state.walls), noise, cell, action);
      if action == Stop {
        return [(cell, 1.0)];
      }
      var ws := ToSet(state.walls);
      successors := [(NextCell(mapWidth, mapHeight, ws, cell, action), 1.0 - noise)];
      var sides := Sides(action);
      for i := 0 to |sides|
        invariant successors == ts[..i + 1]
      {
        successors := successors + [(NextCell(mapWidth, mapHeight, ws, cell, sides[i]), noise / 2.0)];
      }
    }

    /** `__compute_q_value_from_values`: the successors of `cell` under
        `action`, summed by `Util.ExpectedSum`. */
    method ComputeQValueFromValues(state: GameState, cell: Cell, action: Direction) returns (q: real)
      ensures q == QValue(mapWidth, mapHeight, ToSet(state.walls), noise, discount, rewards, values, cell, action)
    {
      var ts := TransitionStatesAndProbs(state, cell, action);
      q := ExpectedSum(ts, rewards, values, discount);
    }

    /** `__get_best_policy`, the loop itself: the first legal move (Stop
        removed) whose Q-value beats every earlier one, starting from
        minus infinity. */
    method GetBestPolicy(state: GameState, cell: Cell) returns (best: Option<Direction>)
      requires Stop in state.legal
      ensures best == BestAction(mapWidth, mapHeight, ToSet(state.walls), noise, discount, rewards, values,
                                 RemoveFirst(state.legal, Stop), cell)
    {
      ghost var q := QAt(mapWidth, mapHeight, ToSet(state.walls), noise, discount, rewards, values, cell);
      var legal := RemoveFirst(state.legal, Stop);
      best := None;
      var bestValue := 0.0;
      for i := 0 to |legal|
        invariant i == 0 ==> best.None?
        invariant i > 0 ==> best == Some(FirstArgMax(legal[..i], q)) && bestValue == q(best.value)
      {
        var qValue := ComputeQValueFromValues(state, cell, legal[i]);
        assert qValue == q(legal[i]);
        FirstArgMaxStep(legal, i, q);
        if best.None? || qValue > bestValue {
          best, bestValue := Some(legal[i]), qValue;
        }
      }
      assert legal[..|legal|] == legal;
    }

    /** `__update_rewards`: records what Pacman senses and rewrites the
        rewards of those cells; the key set stays the grid. */
    method UpdateRewards(state: GameState, cfg: Api.Config)
      requires Valid() && SameMap(state) && WellFormed(state)
      modifies this`foods, this`capsules, this`ghosts, this`blank, this`rewards
      ensures Valid()
      ensures (foods, capsules, ghosts, blank, rewards) == Sensed(state, cfg, old(rewards))
    {
      var food, caps, sensed, empty, r := SenseAndReward(state, cfg, rewards, keyOrder);
      Store(food, caps, sensed, empty, r);
    }

    /** The assignments that end `__update_rewards`. */
    method Store(food: seq<Cell>, caps: seq<Cell>, sensed: set<Cell>, empty: set<Cell>, r: map<Cell, real>)
      requires GridKeyed(mapWidth, mapHeight, keyOrder, r)
      modifies this`foods, this`capsules, this`ghosts, this`blank, this`rewards
      ensures Valid()
      ensures (foods, capsules, ghosts, blank, rewards) == (food, caps, sensed, empty, r)
    {
      foods, capsules, ghosts, blank, rewards := food, caps, sensed, empty, r;
    }

    /** `value_iteration`: at most `iterations` copy-then-swap sweeps over
        the reward keys (each the loop of `Sweeps.JacobiSweepLoop` with the
        best Q-value over Pacman's legal moves as the backup); `delta` is
        set to 0 once, before the first sweep. */
    method ValueIteration(state: GameState) returns (sweeps: Option<nat>)
      requires Stop in state.legal
      modifies this`values
      ensures (values, sweeps)
              == Sweeps.JacobiRun(old(values), keyOrder,
                                  Backup(mapWidth, mapHeight, ToSet(state.walls), noise, discount, rewards,
                                         RemoveFirst(state.legal, Stop)),
                                  NothingFrozen(), THETA, 0, iterations, 0.0)
    {
      var backup := Backup(mapWidth, mapHeight, ToSet(state.walls), noise, discount, rewards,
                           RemoveFirst(state.legal, Stop));
      var delta := 0.0;
      var i := 0;
      while i < iterations
        invariant i <= iterations && delta >= 0.0
        invariant Sweeps.JacobiRun(old(values), keyOrder, backup, NothingFrozen(), THETA, 0, iterations, 0.0)
                  == Sweeps.JacobiRun(values, keyOrder, backup, NothingFrozen(), THETA, i, iterations, delta)
      {
        var newValues;
        newValues, delta := Sweeps.JacobiSweepLoop(values, keyOrder, backup, NothingFrozen(), delta);
        values := newValues;
        if delta < THETA {
          return Some(i);
        }
        i := i + 1;
      }
      return None;
    }

    /** `getAction`: remember Pacman's cell, rebuild the rewards, run value
        iteration, then pass the best legal move at Pacman's cell through
        the noisy executor with the full legal list (Stop included). */
    method GetAction(state: GameState, cfg: Api.Config, sample: real, turnSample: real) returns (action: Direction)
      requires Valid() && SameMap(state) && WellFormed(state) && LegalActionsOk(state.legal)
      requires exists a :: a in state.legal && a != Stop
      modifies this`pacman, this`foods, this`capsules, this`ghosts, this`blank, this`rewards, this`values
      ensures Valid()
      ensures var sensed := Sensed(state, cfg, old(rewards));
        (foods, capsules, ghosts, blank) == (sensed.0, sensed.1, sensed.2, sensed.3)
      ensures (pacman, rewards, values)
              == (state.pacman, Rebuilt(state, cfg, old(rewards)),
                  Sweeps.JacobiRun(old(values), keyOrder,
                                   Backup(mapWidth, mapHeight, ToSet(state.walls), noise, discount, rewards,
                                          RemoveFirst(state.legal, Stop)),
                                   NothingFrozen(), THETA, 0, iterations, 0.0).0)
      ensures var best := BestAction(mapWidth, mapHeight, ToSet(state.walls), noise, discount, rewards, values,
                                     RemoveFirst(state.legal, Stop), state.pacman);
        best.Some? && best.value != Stop && action == Api.MakeMove(best.value, state.legal, cfg, sample, turnSample)
    {
      pacman := state.pacman;
      UpdateRewards(state, cfg);
      var _ := ValueIteration(state);
      var best := GetBestPolicy(state, pacman);
      BestActionIsMove(mapWidth, mapHeight, ToSet(state.walls), noise, discount, rewards, values, state.legal, pacman);
      action := Api.MakeMove(best.value, state.legal, cfg, sample, turnSample);
    }
  }
}
