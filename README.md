# Pacman value-iteration agents, modelled in Dafny

This project models the perception-to-action pipeline of a set of Pacman
agents. On every tick the agent:

1. senses the board through a partial-observability interface;
2. rebuilds a reward map over the grid;
3. runs bounded value iteration;
4. hands the move with the best Q-value to a noisy executor.

The project also models the textbook value-iteration agent over an abstract
Markov decision process. Rewards, probabilities and values are Dafny
`real`s, not floating-point numbers.

Modules, one per source file plus shared parts:

| module | file | what it is |
|---|---|---|
| `Util` | util.dfy | the Python building blocks the agents use: `util.Counter` reads (a missing key reads 0), list filtering, `dict.update`, `max(..., key=...)` (the first maximiser), `list.remove`, iteration-order-free sets, and sums of prob · (reward + discount · value) |
| `Game` | game.dfy | directions, cells, ghosts and a one-tick `GameState` record standing for what the host engine's accessors return |
| `Api` | api.dfy | `reinforcement/api.py`: ray casting to the first wall, distance filters, the visibility filter, the ghost sensor, the square danger zones, the scared-ghost sign flip, blank cells, corners, floors, the adjacency list and the two-layer execution noise. The module-level switches become a `Config` record; `Api.DEFAULTS` holds the shipped values. |
| `Sweeps` | sweeps.dfy | the two shapes of bounded value iteration, over any state type and any one-state backup. Gauss-Seidel writes in place and resets `delta` every sweep. Jacobi writes to a copy that is swapped in, keeps `delta` as a running maximum, and may skip "frozen" (terminal) states. |
| `MyValueIterationAgents` | my_value_iteration_agents.dfy | `MDPAgent` of `reinforcement/myValueIterationAgents.py` (Gauss-Seidel over the open cells) |
| `MyVapAgents` | my_vap_agents.dfy | `MDPAgent` of `reinforcement/myVapAgents.py` (Jacobi over every grid cell) |
| `MyVapCopyAgents` | my_vap_copy_agents.dfy | `MDPAgentCopy` of `reinforcement/myVapCopyAgents.py` (Gauss-Seidel, food rewarded only when newly seen) |
| `ValueIterationAgents` | value_iteration_agents.dfy | `ValueIterationAgent` of `reinforcement/valueIterationAgents.py` over an abstract `Mdp` record |

Each agent is a `class` whose fields are the Python object's attributes.
The methods that change the agent carry `modifies` clauses. Each loop of
the source is a method with loop invariants. That method is proved equal to
a function, such as `Sweeps.GaussSeidelRun`, `Sweeps.JacobiRun`,
`Util.Expected`, `MyValueIterationAgents.Transitions` or
`ValueIterationAgents.Greedy`. What the source promises is then proved
about that function as lemmas.

The three grid agents differ in:
- transition mass;
- reward precedence;
- whether `delta` is reset;
- which cells are swept.

These differences are kept apart, not unified.

Where the code and its comments disagree, the model follows the code:
- `audible` and `distanceLimited` keep objects at distance *at most* the
  limit, although a comment says "less than".
- `calculate_ghost_and_danger_zone_rewards` compares (position, flag) pairs
  with `1`. That comparison is never true, so the rewards flip sign only
  when there are no ghosts at all (`Api.SignFlipsOnlyWithoutGhosts`).
- In `myValueIterationAgents.py` the self-loop entry of the transition
  list is appended inside the loop over the two sides. When the first
  side is a wall, the list's mass is 1 + noise/2
  (`MyValueIterationAgents.TransitionsMass`). This is modelled as written.
- In `myVapAgents.py` and `valueIterationAgents.py`, `delta` is set to 0
  once, before the first sweep, and is never reset. The early return can
  therefore fire only after the first sweep
  (`Sweeps.JacobiStopsOnlyAtFirstSweep`,
  `ValueIterationAgents.PlannedShape`).

## Model

A function that the source's code is modelled by, with no property of its own, has no row; its properties appear in the rows of the lemmas about it:
- `Api.GetFloors`: `Api.GetFloorsMembers`;
- `Api.GetBlank`: `Api.GetBlankMembers`;
- `MyVapAgents.IsAllowed`: `MyVapAgents.NextCell` and `MyVapAgents.TransitionsStayInGrid`;
- the three `Transitions` functions: the `Transitions...` lemmas of each agent;
- `MyValueIterationAgents.BestValue` and `MyVapCopyAgents.BestValue`: the `BestValueIsMaxQ` lemmas;
- `MyVapAgents.BestAction`: `MyVapAgents.BestActionIsMove` and `MyVapAgents.MDPAgent.GetBestPolicy`.

The same holds for list maps and casts, such as `Game.AsMoves`, `Game.GhostPositions`, `Api.XCoords` and `Api.YCoords`, and for arithmetic helpers such as `Util.ScaledSum` and `ValueIterationAgents.ScaleMonotone`.

| member | source | states |
|---|---|---|
| Util.Abs | reinforcement/myValueIterationAgents.py:74 | the `abs` of the change: non-negative and equal to x or -x |
| Util.Max | reinforcement/myValueIterationAgents.py:74 | the `max` that accumulates `delta`: at least both arguments and equal to one of them |
| Util.Filter | reinforcement/api.py:299-305 | the objects kept by a filtering loop are at most as many as the input |
| Util.FilterStep | reinforcement/api.py:301-303 | one more loop step appends the i-th object exactly when it passes the test |
| Util.FilterMembership | reinforcement/api.py:301-305 | an object is in the filtered list iff it is in the input and passes the test |
| Util.FilterMultiset | reinforcement/api.py:441-453 | the filtered list holds each passing object exactly as often as the input, and no other object |
| Util.FilterSubList | reinforcement/api.py:294-305 | the filtered list is a sub-list of the input: order kept, objects only dropped |
| Util.MassAppend | reinforcement/myValueIterationAgents.py:145-165 | the probability mass of a transition list built by appending is the sum of the parts' masses |
| Util.Assign | reinforcement/myValueIterationAgents.py:204-209 | `dict.update({pos: r for pos in keys})`: the keys become old keys plus `keys`, updated cells read `r`, the rest keep their old reward |
| Util.WeightedOfConstant | reinforcement/myValueIterationAgents.py:107-113 | a probability-weighted sum whose summand is the same `c` for every successor equals `c` times the list's mass |
| Util.ExpectedStep | reinforcement/myVapAgents.py:78-82 | one more successor adds prob · (reward + discount · value) to the Q-value sum |
| Util.ExpectedSum | reinforcement/myVapAgents.py:77-83 | the accumulation loop of `__compute_q_value_from_values` returns the sum Σ prob · (reward + discount · value) over the successor list |
| Util.ExpectedOfConstant | reinforcement/myValueIterationAgents.py:107-113 | when every successor has reward r and value v, Q is (r + discount · v) scaled by the list's mass |
| Util.FirstArgMax | reinforcement/myValueIterationAgents.py:218-221 | `max(xs, key=f)`: an element of xs whose key is maximal and is the first one with that key (every earlier key is strictly smaller) |
| Util.FirstArgMaxStep | reinforcement/myVapAgents.py:158-162 | the strict `q_value > best_value` loop step: the i-th action replaces the best so far exactly when its Q is strictly larger |
| Util.FirstArgMaxAgrees | reinforcement/valueIterationAgents.py:114 | two key functions that agree on every element pick the same first maximiser |
| Util.Distinct | reinforcement/valueIterationAgents.py:105-109 | the key order of the Counter filled with `qValues[action] = ...`: no longer than the action list, and empty only when it is empty |
| Util.DistinctStep | reinforcement/valueIterationAgents.py:108-109 | writing one more action appends it to the key order exactly when it is not already a key |
| Util.DistinctMembers | reinforcement/valueIterationAgents.py:105-109 | the Counter's keys are exactly the possible actions, each once |
| Util.FirstArgMaxDistinct | reinforcement/valueIterationAgents.py:105-114 | the `max` over the Counter's keys picks the same action as a `max` over the action list with repeats |
| Util.IndexOf | reinforcement/myValueIterationAgents.py:216 | the position `list.remove` deletes: the first occurrence of x |
| Util.RemoveFirst | reinforcement/myValueIterationAgents.py:216 | `list.remove(x)`: one element shorter, and the same multiset minus one x |
| Util.RemoveFirstOfUnique | reinforcement/myVapAgents.py:154-155 | removing Stop from a list where it occurs once leaves every other action and no Stop |
| Util.MinOf | reinforcement/api.py:232-233 | `min(x)`: a member of the list and no larger than any element |
| Util.MaxOf | reinforcement/api.py:232-233 | `max(x)`: a member of the list and no smaller than any element |
| Util.Enumerate | reinforcement/myValueIterationAgents.py:71 | the order a `frozenset` is iterated in: every member exactly once |
| Game.MoveLeaves | reinforcement/myValueIterationAgents.py:34-39 | every offset of `move_offsets` is non-zero, so a move changes the cell |
| Game.Sides | reinforcement/myValueIterationAgents.py:147-151 | `perpendicular_actions`: two different moves, each at right angles to the action |
| Game.TurnsArePerpendicular | reinforcement/api.py:511-560 | the left and right turns of a move are perpendicular to it and to each other, and undo each other |
| Game.OpenCells | reinforcement/myValueIterationAgents.py:55-60 | a cell is legal iff it is inside the width × height grid and not a wall |
| Game.GridOrderMembers | reinforcement/myVapAgents.py:48-52 | the comprehension over `range(map_width)` × `range(map_height)` lists every grid cell exactly once |
| Game.NeighbourStaysInGrid | reinforcement/myValueIterationAgents.py:126 | on a map ringed by walls, a step from an open cell stays inside the grid |
| Api.ManhattanDistance | reinforcement/api.py:67-68 | zero exactly for equal cells, and at least the distance along each axis |
| Api.DistanceLimited | reinforcement/api.py:294-305 | the loop returns the objects that pass the distance test, in list order |
| Api.DistanceLimitedKeepsExactlyTheNear | reinforcement/api.py:294-305 | an object is kept iff it is one of the objects and its Manhattan distance to Pacman is at most `limit`; the result is a sub-list of the input |
| Api.BorderWalledEncloses | reinforcement/api.py:344 | on a map ringed by walls, every ray from an open cell meets a wall, so the `while` loops of `inFront` end |
| Api.InFront | reinforcement/api.py:329-385 | true iff the object is on the ray from Pacman in the facing direction, before the first wall; false when facing Stop |
| Api.AtSide | reinforcement/api.py:388-422 | for North/South facing, `inFront` West or East; for East/West facing, `inFront` North or South; false for Stop |
| Api.AxisHitsStep | reinforcement/api.py:463-471 | one more object of the stationary scan appends one copy of it per axis ray it lies on |
| Api.Visible | reinforcement/api.py:425-479 | the loops return the visible list, and return the objects unchanged when partial visibility is off |
| Api.RaysDisjoint | reinforcement/api.py:463-471 | an object lies on at most one of the four axis rays, so the stationary scan appends it at most once |
| Api.AxisHitsIsFilter | reinforcement/api.py:463-471 | the stationary scan is the filter "on some axis ray" |
| Api.MovingViewMembers | reinforcement/api.py:435-453 | when moving, an object is seen iff it is ahead within `visibilityLimit` or in a side corridor within `sideLimit` |
| Api.StationaryViewMembers | reinforcement/api.py:455-472 | when facing Stop, an object is seen iff it is on one of the four axis rays within `visibilityLimit` |
| Api.AheadNotBeside | reinforcement/api.py:441-453 | no object is both ahead of a moving Pacman and in a side corridor, so the two lists do not overlap |
| Api.MovingViewSubMultiset | reinforcement/api.py:435-453 | when moving, every object is seen at most as often as it occurs among the objects |
| Api.StationaryViewSubMultiset | reinforcement/api.py:455-472 | when facing Stop, every object is seen at most as often as it occurs among the objects |
| Api.PartialViewSubMultiset | reinforcement/api.py:431-477 | the partial view never invents or duplicates objects |
| Api.VisibleWithin | reinforcement/api.py:425-479 | everything `visible` returns is one of the objects it was given |
| Api.GetFood | reinforcement/api.py:145-167 | the visible food |
| Api.GetCapsules | reinforcement/api.py:121-136 | the visible capsules |
| Api.Audible | reinforcement/api.py:482-486 | exactly the ghosts within `hearingLimit` (inclusive) of Pacman, in order |
| Api.Union | reinforcement/api.py:489-494 | a cell is in the union iff it is in either list |
| Api.GetGhosts | reinforcement/api.py:89-95 | the ghost cells that are visible or audible |
| Api.SensedGhostsBounds | reinforcement/api.py:89-95 | sensed ghosts are real ghost positions; with partial visibility off every ghost is sensed; a ghost within `hearingLimit` is always sensed |
| Api.GhostStates | reinforcement/api.py:105-106 | one (position, flag) pair per ghost, with flag 1 iff the ghost is scared |
| Api.CalculateGhostAndDangerZoneRewards | reinforcement/api.py:98-102 | both rewards are multiplied by the same factor, +1 or -1 |
| Api.SignFlipsOnlyWithoutGhosts | reinforcement/api.py:98-106 | the factor is -1 exactly when the ghost list is empty, because no (position, flag) pair equals 1 |
| Api.DangerZoneMembers | reinforcement/api.py:308-326 | a cell is in the danger zone iff it is inside the map and in the (2d+1) × (2d+1) square of some ghost within `safety_distance` of Pacman |
| Api.DangerZoneAddGhost | reinforcement/api.py:315-324 | handling one more ghost adds its in-map square when it is within `safety_distance`, and nothing otherwise |
| Api.GetDangerZones | reinforcement/api.py:308-326 | the nested loops build exactly the danger zone set |
| Api.DangerZoneExample | reinforcement/api.py:315-324 | worked cases: a ghost next to Pacman gives its 3 × 3 square; a distant ghost gives nothing |
| Api.GetBlankMembers | reinforcement/api.py:139-142 | a cell is blank iff it is a reward key and not food, ghost, capsule or wall |
| Api.GetCorners | reinforcement/api.py:179-191 | four cells, each at the map's x = 0 or width-1 and y = 0 or height-1, and inside the map when it is non-empty |
| Api.GetInnerCorners | reinforcement/api.py:194-196 | four cells, each one step diagonally inward from the matching corner, and strictly inside a map of at least 3 × 3 |
| Api.GetAdjacencyList | reinforcement/api.py:212-225 | the loop keys every floor cell and maps each of the four directions to the neighbouring cell |
| Api.Column | reinforcement/api.py:237-238 | one column of the comprehension: exactly the cells (x, y) with ylo ≤ y ≤ yhi |
| Api.BoxMembers | reinforcement/api.py:235-240 | the comprehension ranges over exactly the bounding box of the walls |
| Api.GetFloorsMembers | reinforcement/api.py:228-240 | a cell is a floor iff it lies in the walls' bounding box and is not a wall |
| Api.SelectNewMove | reinforcement/api.py:497-560 | None for Stop (the source falls through); otherwise the left turn for sample ≤ 0.5 and the right turn otherwise, or Stop when that turn is not legal |
| Api.MakeMove | reinforcement/api.py:246-286 | Stop stays Stop; deterministic mode returns the direction; a sample ≤ `directionProb` returns the direction if legal and Stop otherwise; a larger sample returns Stop or a legal perpendicular move |
| Api.NoisyMoveIsLegalOrStop | reinforcement/api.py:263-282 | with execution noise on, the move sent is Stop or legal |
| MyValueIterationAgents.NextState | reinforcement/myValueIterationAgents.py:115-127 | `_next_state`: the neighbour when it is not a wall, the cell itself otherwise; never a wall from an open cell |
| MyValueIterationAgents.TransitionsUnfold | reinforcement/myValueIterationAgents.py:141-165 | the transition list is the start entry followed by the two side steps in `perpendicular_actions` order |
| MyValueIterationAgents.TransitionsShape | reinforcement/myValueIterationAgents.py:141-165 | the first entry is (`_next_state`, 1 - noise) and every successor is the cell or an open neighbour |
| MyValueIterationAgents.TransitionsWhenSidesOpen | reinforcement/myValueIterationAgents.py:145-160 | with both sides open the list is exactly three entries, 1 - noise and noise/2 twice, of mass 1 |
| MyValueIterationAgents.TransitionsMass | reinforcement/myValueIterationAgents.py:153-163 | for any noise ≥ 0, the mass is 1 + noise/2 when the first side is a wall and 1 otherwise (the self-loop entry is appended inside the loop; with no noise none is appended) |
| MyValueIterationAgents.TransitionsStayOpen | reinforcement/myValueIterationAgents.py:107-113 | from a legal state every successor is legal and has a reward, so `self.rewards[next_state]` does not fail |
| MyValueIterationAgents.QValueOfUniformNeighbourhood | reinforcement/myValueIterationAgents.py:107-113 | where every reachable cell has reward r and value v, Q = mass · (r + 0.6 · v) |
| MyValueIterationAgents.BestValueIsMaxQ | reinforcement/myValueIterationAgents.py:90-93 | `_get_best_policy` is at least the Q-value of each of the four moves, legal or not, and equal to one of them |
| MyValueIterationAgents.UpdatedRewardsPrecedence | reinforcement/myValueIterationAgents.py:204-209 | after the five updates a cell reads blank, else danger, else ghost, else capsule, else food, else its old reward |
| MyValueIterationAgents.BlankCells | reinforcement/myValueIterationAgents.py:189-195 | a cell is blank iff it is legal and not food, capsule, ghost or danger |
| MyValueIterationAgents.UpdatedRewardsCoverOpenCells | reinforcement/myValueIterationAgents.py:189-209 | every legal cell gets a reward, danger cells read the danger reward, and legal cells outside the four sets read BLANK |
| MyValueIterationAgents.GhostAndDangerRewards | reinforcement/myValueIterationAgents.py:197-202 | the raw constants unless ghostbuster mode is on; with it on, the constants negated exactly when there are no ghosts |
| MyValueIterationAgents.MDPAgent.constructor | reinforcement/myValueIterationAgents.py:23-39 | the constants are stored and `rewards` and `values` start empty |
| MyValueIterationAgents.MDPAgent.RegisterInitialState | reinforcement/myValueIterationAgents.py:41-60 | records the corners, the map size and the walls; `legal_states` is exactly the grid minus the walls |
| MyValueIterationAgents.MDPAgent.TransitionStatesAndProbs | reinforcement/myValueIterationAgents.py:129-165 | the loop with `noise_sum` builds the transition list |
| MyValueIterationAgents.MDPAgent.UpdateRewards | reinforcement/myValueIterationAgents.py:167-209 | the new reward map is the five updates applied to the old one, from what Pacman senses, and every legal cell keeps a reward |
| MyValueIterationAgents.MDPAgent.ValueIteration | reinforcement/myValueIterationAgents.py:68-77 | the values and the returned sweep index are those of a bounded in-place sweep with `delta` reset each sweep: `Some(i)` at the first settled sweep, None after `max_iterations` |
| MyValueIterationAgents.MDPAgent.GetAction | reinforcement/myValueIterationAgents.py:211-222 | rewards rebuilt, values iterated, and the move sent is `makeMove` of the first maximiser of Q at Pacman's cell among legal-minus-Stop; afterwards every legal cell has a reward, the invariant `SuccessorsRewarded` needs |
| MyValueIterationAgents.MDPAgent.SuccessorsRewarded | reinforcement/myValueIterationAgents.py:107-113 | on the registered map, with every legal cell rewarded, every successor of a swept cell or of Pacman's cell has a reward, so `self.rewards[next_state]` never raises |
| MyVapAgents.NextCell | reinforcement/myVapAgents.py:112-114 | the neighbour if allowed (inside the map and not a wall), the cell otherwise |
| MyVapAgents.TransitionsMass | reinforcement/myVapAgents.py:85-110 | one entry for Stop and three for a move, of total mass 1 |
| MyVapAgents.TransitionsStayInGrid | reinforcement/myVapAgents.py:85-114 | every successor is the cell or an allowed neighbour, so successors of a grid cell stay in the grid |
| MyVapAgents.QValueOfUniformNeighbourhood | reinforcement/myVapAgents.py:76-83 | where every reachable cell has reward r and value v, Q = r + discount · v |
| MyVapAgents.BestActionIsMove | reinforcement/myVapAgents.py:153-163 | with Stop once in the legal list and some other move, the best policy exists, is legal, and is not Stop |
| MyVapAgents.BestQIsMaxQ | reinforcement/myVapAgents.py:66-69 | the value written for a cell is the largest Q-value over Pacman's legal moves and equals one of them |
| MyVapAgents.UpdatedRewardsKeys | reinforcement/myVapAgents.py:130-151 | the updates only add keys: every updated cell becomes a key |
| MyVapAgents.UpdatedRewardsPrecedence | reinforcement/myVapAgents.py:130-151 | a cell reads ghost, else danger, else blank, else wall, else capsule, else food, else its old reward |
| MyVapAgents.RebuiltKeepsGrid | reinforcement/myVapAgents.py:122-151 | on a well-formed map, rebuilding the rewards keeps the key set equal to the grid |
| MyVapAgents.SenseAndReward | reinforcement/myVapAgents.py:123-151 | the sensed food, capsules, ghosts and blank cells, and the rebuilt rewards; a reward map keyed by the grid stays keyed by the grid |
| MyVapAgents.MDPAgent.RewardKeysAreGrid | reinforcement/myVapAgents.py:48-52 | the reward keys, and so the swept cells, are exactly the grid cells (walls included), each once |
| MyVapAgents.MDPAgent.constructor | reinforcement/myVapAgents.py:24-39 | stores discount, iterations and noise; `rewards` and `values` start empty |
| MyVapAgents.MDPAgent.RegisterInitialState | reinforcement/myVapAgents.py:41-52 | records the map size, the floors and the walls; `rewards` is BLANK on every grid cell, walls included |
| MyVapAgents.MDPAgent.TransitionStatesAndProbs | reinforcement/myVapAgents.py:85-110 | the appending loop builds the successor list |
| MyVapAgents.MDPAgent.ComputeQValueFromValues | reinforcement/myVapAgents.py:76-83 | the accumulation loop returns Q = Σ prob · (reward + discount · value) |
| MyVapAgents.MDPAgent.GetBestPolicy | reinforcement/myVapAgents.py:153-163 | the strict-maximum loop over legal-minus-Stop returns the first maximiser of Q, or None when there is no move |
| MyVapAgents.MDPAgent.UpdateRewards | reinforcement/myVapAgents.py:122-151 | stores the sensed lists and the rebuilt rewards; the reward keys stay the grid |
| MyVapAgents.MDPAgent.Store | reinforcement/myVapAgents.py:123-151 | the assignments to `foods`, `capsules`, `ghosts`, `blank` and `rewards` |
| MyVapAgents.MDPAgent.ValueIteration | reinforcement/myVapAgents.py:60-74 | values and return are those of a bounded copy-then-swap sweep over every reward key, with `delta` a running maximum |
| MyVapAgents.MDPAgent.SuccessorsRewarded | reinforcement/myVapAgents.py:76-83 | with the rewards keyed by the grid, every successor of a swept cell or of Pacman's cell has a reward, so `self.rewards[next_cell]` never raises |
| MyVapAgents.MDPAgent.GetAction | reinforcement/myVapAgents.py:165-170 | records Pacman, stores the sensed food, capsules, ghosts and blank cells, rebuilds rewards, iterates values, and sends `makeMove` of the best policy at Pacman's cell (a legal move, not Stop) |
| MyVapCopyAgents.SideEntriesUnfold | reinforcement/myVapCopyAgents.py:101-107 | one noise/2 entry per side: the neighbour when legal, the cell otherwise |
| MyVapCopyAgents.TransitionsMass | reinforcement/myVapCopyAgents.py:86-109 | into a wall the list is [(cell, 1.0)]; otherwise three entries; mass 1 in both cases |
| MyVapCopyAgents.TransitionsStayLegal | reinforcement/myVapCopyAgents.py:80-109 | from a legal cell every successor is legal and has a reward |
| MyVapCopyAgents.QValueIntoWall | reinforcement/myVapCopyAgents.py:91-92 | a move into a wall backs up the cell's own reward and value |
| MyVapCopyAgents.BestValueIsMaxQ | reinforcement/myVapCopyAgents.py:74-78 | `_get_best_policy` is at least every move's Q-value and equal to one of them |
| MyVapCopyAgents.UpdatedRewardsPrecedence | reinforcement/myVapCopyAgents.py:139-146 | a cell reads blank, else danger, else ghost, else capsule, else newly seen food, else its old reward |
| MyVapCopyAgents.MDPAgentCopy.constructor | reinforcement/myVapCopyAgents.py:22-38 | stores `max_iterations` and noise; `rewards` and `values` start empty |
| MyVapCopyAgents.MDPAgentCopy.RegisterInitialState | reinforcement/myVapCopyAgents.py:40-56 | `legal_positions` is the grid minus walls; `rewards` is BLANK on exactly those cells; `previous_foods` is empty |
| MyVapCopyAgents.MDPAgentCopy.TransitionStatesAndProbs | reinforcement/myVapCopyAgents.py:86-109 | the early return and the appending loop build the transition list |
| MyVapCopyAgents.MDPAgentCopy.UpdateRewards | reinforcement/myVapCopyAgents.py:111-146 | the rebuilt rewards; FOOD only for food not seen before; `previous_foods` becomes the food seen now |
| MyVapCopyAgents.MDPAgentCopy.ValueIteration | reinforcement/myVapCopyAgents.py:63-72 | values and return are those of a bounded in-place sweep over the legal cells, with `delta` reset each sweep |
| MyVapCopyAgents.MDPAgentCopy.SuccessorsRewarded | reinforcement/myVapCopyAgents.py:80-84 | on the registered map, with every legal position rewarded, every successor of a swept cell or of Pacman's cell has a reward, so `self.rewards[next_cell]` never raises |
| MyVapCopyAgents.MDPAgentCopy.GetAction | reinforcement/myVapCopyAgents.py:148-159 | rewards rebuilt, values iterated, and `makeMove` of the first Q-maximiser among legal-minus-Stop |
| Sweeps.GaussSeidelSweepFrame | reinforcement/myValueIterationAgents.py:71-73 | an in-place sweep adds exactly the swept states as keys and leaves every other state's value alone |
| Sweeps.GaussSeidelChange | reinforcement/myValueIterationAgents.py:70-74 | the per-sweep `delta` is non-negative |
| Sweeps.GaussSeidelChangeIsMax | reinforcement/myValueIterationAgents.py:68-77 | `delta`, reset before each sweep, ends as the largest in-place change: at least abs(old - new) of every state, measured when the sweep reaches it, and equal to one of them (0 for an empty sweep) |
| Sweeps.GaussSeidelSweepLoop | reinforcement/myValueIterationAgents.py:70-74 | the inner loop computes the in-place sweep and its largest change |
| Sweeps.GaussSeidelRunSpec | reinforcement/myValueIterationAgents.py:68-77 | the run returns `Some(i)` at the first sweep whose change is below theta, with the values after i + 1 sweeps, and None with the values after n sweeps when no sweep settles |
| Sweeps.GaussSeidelIterateFrame | reinforcement/myValueIterationAgents.py:71 | states outside the sweep order (walls) never change value |
| Sweeps.GaussSeidelLastWritten | reinforcement/myValueIterationAgents.py:72-73 | the last state swept holds its backup computed from the values the sweep had already written |
| Sweeps.JacobiSweep | reinforcement/myVapAgents.py:64-72 | every swept, non-frozen state holds its backup from the previous values; all other states keep their value |
| Sweeps.JacobiChange | reinforcement/valueIterationAgents.py:68 | the change is non-negative and at least every swept state's abs(old - new); `JacobiChangeIsMax` shows it is also attained, so it is exactly the largest |
| Sweeps.JacobiChangeIsMax | reinforcement/valueIterationAgents.py:68 | the `max` that builds `delta` over one sweep ends equal to 0 or to abs(old - new) of some swept, non-terminal state |
| Sweeps.JacobiStep | reinforcement/valueIterationAgents.py:61-68 | one more state of the sweep writes its backup into the copy and joins the running maximum |
| Sweeps.JacobiSweepLoop | reinforcement/myVapAgents.py:64-71 | the inner loop computes the copy and the running maximum |
| Sweeps.JacobiRunStep | reinforcement/valueIterationAgents.py:59-72 | one outer iteration: sweep, swap, then return on `delta < theta` or go on with the new `delta` |
| Sweeps.JacobiRunFrame | reinforcement/valueIterationAgents.py:62-63 | frozen (terminal) states and states not swept keep their value through the whole run |
| Sweeps.JacobiRunExhausts | reinforcement/myVapAgents.py:61-74 | once `delta` is at least theta it never falls below it, so the run does every remaining sweep and returns None |
| Sweeps.JacobiStopsOnlyAtFirstSweep | reinforcement/myVapAgents.py:61-74 | the run stops early only after the first sweep, with Some(0), when that sweep's change is below theta; otherwise it does all n sweeps |
| ValueIterationAgents.QSumStep | reinforcement/valueIterationAgents.py:86-88 | one more successor adds P · (R(s, a, s') + discount · V(s')) |
| ValueIterationAgents.QSumMonotone | reinforcement/valueIterationAgents.py:85-90 | with non-negative probabilities and discount, raising no successor's value lowers no Q-value |
| ValueIterationAgents.GreedyIsBest | reinforcement/valueIterationAgents.py:92-114 | for a non-terminal state the greedy action is a possible action, has maximal Q, and every earlier action has strictly smaller Q |
| ValueIterationAgents.BackupIsMaxQ | reinforcement/valueIterationAgents.py:64-66 | a non-terminal state's new value is at least every action's Q and equals one of them |
| ValueIterationAgents.PlannedShape | reinforcement/valueIterationAgents.py:55-72 | terminal and unlisted states keep their value; the run stops at sweep 0 when the first change is below 0.001, else it does all `iterations` sweeps |
| ValueIterationAgents.MaxKey | reinforcement/valueIterationAgents.py:114 | `max(qValues, key=...)` over the Counter's keys in order: the first key with the largest value |
| ValueIterationAgents.ValueIterationAgent.constructor | reinforcement/valueIterationAgents.py:29-46 | stores the MDP, discount and iterations and runs value iteration once from empty values |
| ValueIterationAgents.ValueIterationAgent.GetValue | reinforcement/valueIterationAgents.py:74-78 | the stored value, 0 for a state never written |
| ValueIterationAgents.ValueIterationAgent.ComputeQValueFromValues | reinforcement/valueIterationAgents.py:80-90 | the accumulation loop returns Q(s, a) = Σ P · (R + discount · V) |
| ValueIterationAgents.ValueIterationAgent.ComputeActionFromValues | reinforcement/valueIterationAgents.py:92-114 | None for a terminal state, else the greedy action |
| ValueIterationAgents.ValueIterationAgent.QValuesOf | reinforcement/valueIterationAgents.py:105-109 | the filled Counter has the distinct actions as keys, in first-write order, each holding its Q-value |
| ValueIterationAgents.ValueIterationAgent.Sweep | reinforcement/valueIterationAgents.py:60-68 | the inner loop writes each non-terminal state's greedy Q into the copy and keeps the running maximum change |
| ValueIterationAgents.ValueIterationAgent.ValueIteration | reinforcement/valueIterationAgents.py:51-72 | values and return are those of the bounded Jacobi run with terminal states frozen and `delta` never reset |
| ValueIterationAgents.ValueIterationAgent.GetPolicy | reinforcement/valueIterationAgents.py:116-117 | the greedy action |
| ValueIterationAgents.ValueIterationAgent.GetAction | reinforcement/valueIterationAgents.py:119-121 | the greedy action, without exploration |
| ValueIterationAgents.ValueIterationAgent.GetQValue | reinforcement/valueIterationAgents.py:123-124 | the Q-value from the stored values |

## Left out

- The host engine is not modelled: layout loading, legal-move generation, scoring, `final`, `print` and `get_map_dimensions`. A `Game.GameState` value stands for what the engine's accessors return on one tick. `whereAmI`, `legalActions`, `ghostStatesWithTimes` and the grid scans in `get_food` and `get_walls` are reads of that record.
- `util.py`, `mdp.py`, `learningAgents.py`, `game.py` and `pacman.py` are not part of this model. `util.Counter` becomes a `map` read with `Util.Get`, and an MDP becomes the `ValueIterationAgents.Mdp` record of functions.
- Randomness: `random()` in `makeMove` and `selectNewMove` becomes the `sample` and `turnSample` parameters. Probability distributions over runs are not modelled.
- Floating point: every reward, probability and value is a `real`, so rounding and convergence behaviour of floats are not captured. Nothing is claimed about contraction or about reaching THETA; the iteration budget is the only termination argument.
- Ghost positions are whole cells. The engine can report half-step positions, which `get_ghosts` truncates with `int`.
- Iteration order: the Gauss-Seidel agents sweep a `frozenset`, whose order Python does not fix. The model fixes one order, chosen once at registration (`Util.Enumerate`), and every sweep uses it.
- Iteration order: `get_ghosts`, `union`, `get_danger_zones` and `get_blank` return `list(set(...))` in an unspecified order. The model returns sets.
- Api.InFront: the `while` loops of `inFront` end only when a wall lies on the ray, so the method requires one. Api.Visible, Api.GetFood, Api.GetCapsules and Api.GetGhosts require Pacman to be enclosed on all four axes, which holds on every map ringed by walls (`Api.BorderWalledEncloses`).
- Api.SelectNewMove: returns None for Stop, where the source prints and returns None.
- MyVapAgents.MDPAgent.RegisterInitialState: requires a non-empty wall list, because `get_floors` fails on `zip(*walls)` otherwise.
- MyVapAgents.MDPAgent.GetAction, MyValueIterationAgents.MDPAgent.GetAction and MyVapCopyAgents.MDPAgentCopy.GetAction: require Stop in the legal list and some other legal move. `list.remove` raises without Stop, and `max` of an empty list raises. The myVap agent would also look up `move_offsets[None]`.
- MyVapAgents.BestQ: writes 0 for a cell when Pacman has no legal move. The source would fail there. GetAction's requirement rules this case out.
- ValueIterationAgents.ValueIterationAgent.constructor, ValueIterationAgents.ValueIterationAgent.ValueIteration and ValueIterationAgents.ValueIterationAgent.Sweep: require every non-terminal listed state to have an action (`Playable`), because `max` of an empty Counter raises. `ValueIterationAgents.Backup` keeps a state's value in the cases this rules out.
- ValueIterationAgents.ValueIterationAgent.ComputeActionFromValues, ValueIterationAgents.ValueIterationAgent.GetPolicy and ValueIterationAgents.ValueIterationAgent.GetAction: require a terminal state or at least one possible action, because `max` over an empty Counter raises.
- MyVapAgents.MDPAgent.GetBestPolicy and MyVapAgents.MDPAgent.ValueIteration: require Stop in the legal list, because `list.remove(Directions.STOP)` raises without it.
- MyVapAgents.MDPAgent.ValueIteration: every cell is backed up over Pacman's current legal moves, as in the source, not over the moves legal at that cell.
- MyValueIterationAgents.MDPAgent.UpdateRewards and MyVapCopyAgents.MDPAgentCopy.UpdateRewards: a well-formed map is required, so that every sensed cell lies on the grid.
- Reward lookups read through `Util.Get`, whose default is 0. On the registered map, each agent's `SuccessorsRewarded` lemma shows that the key is always present, so the default is never read where the source would raise `KeyError`. MyValueIterationAgents.MDPAgent.GetAction and MyVapCopyAgents.MDPAgentCopy.GetAction ensure the invariant the lemma needs (every legal cell has a reward: `legalStates <= rewards.Keys`, `RewardsCoverLegal`) but do not restate the lemma's conclusion. The lemma applies to their post-state, because `Valid` and `SameMap` read only fields that `GetAction` does not change.
- The map geometry (`BorderWalled`, cells on the grid) is assumed of every tick, as every Pacman layout provides.
- MyVapAgents.MDPAgent.UpdateRewards: its value computation is split into `MyVapAgents.SenseAndReward`, and the final field writes into `MyVapAgents.MDPAgent.Store`. The inner loops of the value iterations are split into the `...SweepLoop` and `Sweep` methods, and `max(qValues, key=...)` into `ValueIterationAgents.MaxKey`. Behaviour is the same.
- Duplicate successors in a transition list are kept, not merged, as in the source.
