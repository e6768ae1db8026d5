/**
  Pacman's sensing and acting interface: what the agent can see and hear
  (partial observability along wall-bounded corridors), the danger zones
  around nearby ghosts, a few map helpers, and the execution noise that
  may turn the chosen move sideways.
 */
module Api {

  import opened Util
  import opened Game

  /** The module-level switches of the interface: partial visibility and
      its limits, and the execution-noise model. */
  datatype Config = Config(
    partialVisibility: bool,
    sideLimit: int,
    hearingLimit: int,
    visibilityLimit: int,
    nonDeterministic: bool,
    directionProb: real)

  /** The values the interface ships with. */
  const DEFAULTS: Config := Config(false, 1, 2, 5, true, 0.8)

  // =====================================================================
  // Distances
  // =====================================================================

  function IntAbs(x: int): nat
  {
    if x < 0 then -x else x
  }

  function ManhattanDistance(a: Cell, b: Cell): (d: nat)
    ensures d == 0 <==> a == b
    ensures d >= IntAbs(a.x - b.x) && d >= IntAbs(a.y - b.y)
  {
    IntAbs(a.x - b.x) + IntAbs(a.y - b.y)
  }

  /** The test `manhattanDistance(pacman, o) <= limit`. */
  function Near(pacman: Cell, limit: int): Cell -> bool
  {
    o => ManhattanDistance(pacman, o) <= limit
  }

  /** The objects within `limit` (inclusive) of Pacman, in list order. */
  method DistanceLimited(objects: seq<Cell>, pacman: Cell, limit: int) returns (near: seq<Cell>)
    ensures near == Filter(objects, Near(pacman, limit))
  {
    near := [];
    for i := 0 to |objects|
      invariant near == Filter(objects[..i], Near(pacman, limit))
    {
      assert objects[..i + 1][..i] == objects[..i];
      if ManhattanDistance(pacman, objects[i]) <= limit {
        near := near + [objects[i]];
      }
    }
    assert objects[..|objects|] == objects;
  }

  /** The distance filter keeps exactly the objects at distance at most
      `limit`, without reordering them. */
  lemma DistanceLimitedKeepsExactlyTheNear(objects: seq<Cell>, pacman: Cell, limit: int)
    ensures forall o :: o in Filter(objects, Near(pacman, limit))
                        <==> o in objects && ManhattanDistance(pacman, o) <= limit
    ensures SubList(Filter(objects, Near(pacman, limit)), objects)
  {
    FilterMembership(objects, Near(pacman, limit));
    FilterSubList(objects, Near(pacman, limit));
  }

  // =====================================================================
  // Line of sight along a corridor
  // =====================================================================

  /** Some wall lies on the ray from `p` in direction `d`. */
  ghost predicate RayBlocked(p: Cell, d: Direction, walls: seq<Cell>)
  {
    exists k :: 1 <= k && Step(p, d, k) in walls
  }

  /** The first `k` cells of the ray from `p` in direction `d` are not walls. */
  ghost predicate RayClear(p: Cell, d: Direction, walls: seq<Cell>, k: int)
  {
    forall j :: 1 <= j <= k ==> Step(p, d, j) !in walls
  }

  /** `o` lies on the ray that starts one cell from `p` in direction `d`
      and stops before the first wall. */
  ghost predicate OnRay(o: Cell, p: Cell, d: Direction, walls: seq<Cell>)
  {
    d != Stop && exists k :: 1 <= k && Step(p, d, k) == o && RayClear(p, d, walls, k)
  }

  /** Every axis ray from `p` ends at a wall: the map is closed around `p`. */
  ghost predicate Enclosed(p: Cell, walls: seq<Cell>)
  {
    RayBlocked(p, North, walls) && RayBlocked(p, South, walls)
    && RayBlocked(p, East, walls) && RayBlocked(p, West, walls)
  }

  /** A closed map encloses every cell that is inside it and not a wall. */
  lemma BorderWalledEncloses(width: int, height: int, walls: seq<Cell>, p: Cell)
    requires BorderWalled(width, height, walls)
    requires InGrid(p, width, height) && p !in walls
    ensures Enclosed(p, walls)
  {
    assert Cell(0, p.y) in walls && Cell(width - 1, p.y) in walls;
    assert Cell(p.x, 0) in walls && Cell(p.x, height - 1) in walls;
    assert Step(p, North, height - 1 - p.y) == Cell(p.x, height - 1);
    assert Step(p, South, p.y) == Cell(p.x, 0);
    assert Step(p, East, width - 1 - p.x) == Cell(width - 1, p.y);
    assert Step(p, West, p.x) == Cell(0, p.y);
  }

  /** `inFront`: walks from Pacman in direction `facing` until a wall,
      reporting whether `o` was passed. A non-axis facing gives false. */
  method InFront(o: Cell, facing: Direction, pacman: Cell, walls: seq<Cell>) returns (b: bool)
    requires facing != Stop ==> RayBlocked(pacman, facing, walls)
    ensures b == OnRay(o, pacman, facing, walls)
  {
    if facing == Stop {
      return false;
    }
    ghost var kw :| 1 <= kw && Step(pacman, facing, kw) in walls;
    var next := Neighbour(pacman, facing);
    ghost var k := 1;
    while next !in walls
      invariant 1 <= k <= kw
      invariant next == Step(pacman, facing, k)
      invariant RayClear(pacman, facing, walls, k - 1)
      invariant forall j :: 1 <= j < k ==> Step(pacman, facing, j) != o
      decreases kw - k
    {
      if next == o {
        assert RayClear(pacman, facing, walls, k);
        return true;
      }
      next := Neighbour(next, facing);
      k := k + 1;
    }
    return false;
  }

  /** `o` is in one of the two side corridors perpendicular to `facing`. */
  ghost predicate SideSeen(o: Cell, facing: Direction, pacman: Cell, walls: seq<Cell>)
  {
    facing != Stop && (OnRay(o, pacman, Left(facing), walls) || OnRay(o, pacman, Right(facing), walls))
  }

  /** `atSide`: for North/South facing, looks West then East; for East/West
      facing, North then South; any other facing sees nothing at the side. */
  method AtSide(o: Cell, facing: Direction, pacman: Cell, walls: seq<Cell>) returns (b: bool)
    requires facing != Stop ==> RayBlocked(pacman, Left(facing), walls) && RayBlocked(pacman, Right(facing), walls)
    ensures b == SideSeen(o, facing, pacman, walls)
    ensures facing == North || facing == South
            ==> (b <==> OnRay(o, pacman, West, walls) || OnRay(o, pacman, East, walls))
    ensures facing == East || facing == West
            ==> (b <==> OnRay(o, pacman, North, walls) || OnRay(o, pacman, South, walls))
  {
    if facing == North || facing == South {
      var west := InFront(o, West, pacman, walls);
      if west {
        return true;
      }
      b := InFront(o, East, pacman, walls);
    } else if facing == West || facing == East {
      var north := InFront(o, North, pacman, walls);
      if north {
        return true;
      }
      b := InFront(o, South, pacman, walls);
    } else {
      b := false;
    }
  }

  // =====================================================================
  // What Pacman sees and hears
  // =====================================================================

  ghost function Ahead(pacman: Cell, facing: Direction, walls: seq<Cell>): Cell -> bool
  {
    o => OnRay(o, pacman, facing, walls)
  }

  ghost function Beside(pacman: Cell, facing: Direction, walls: seq<Cell>): Cell -> bool
  {
    o => SideSeen(o, facing, pacman, walls)
  }

  ghost function OnSomeAxis(pacman: Cell, walls: seq<Cell>): Cell -> bool
  {
    o => OnRay(o, pacman, North, walls) || OnRay(o, pacman, South, walls)
         || OnRay(o, pacman, East, walls) || OnRay(o, pacman, West, walls)
  }

  /** What the stationary scan appends for one object: one copy per axis
      ray it lies on, checked North, South, East, West. */
  ghost function AxisHitsOf(o: Cell, pacman: Cell, walls: seq<Cell>): seq<Cell>
  {
    (if OnRay(o, pacman, North, walls) then [o] else [])
    + (if OnRay(o, pacman, South, walls) then [o] else [])
    + (if OnRay(o, pacman, East, walls) then [o] else [])
    + (if OnRay(o, pacman, West, walls) then [o] else [])
  }

  ghost function AxisHits(objects: seq<Cell>, pacman: Cell, walls: seq<Cell>): seq<Cell>
    decreases |objects|
  {
    if objects == [] then []
    else
      var n := |objects| - 1;
      AxisHits(objects[..n], pacman, walls) + AxisHitsOf(objects[n], pacman, walls)
  }

  lemma AxisHitsStep(objects: seq<Cell>, i: nat, pacman: Cell, walls: seq<Cell>)
    requires i < |objects|
    ensures AxisHits(objects[..i + 1], pacman, walls)
            == AxisHits(objects[..i], pacman, walls) + AxisHitsOf(objects[i], pacman, walls)
  {
    assert objects[..i + 1][..i] == objects[..i];
  }

  /** The partial view: when moving, the in-front hits within the
      visibility limit followed by the side hits within the side limit;
      when stopped, the hits on all four axes within the visibility limit. */
  ghost function PartialView(objects: seq<Cell>, state: GameState, cfg: Config): seq<Cell>
  {
    var p, f, w := state.pacman, state.facing, state.walls;
    if f != Stop then
      Filter(Filter(objects, Ahead(p, f, w)), Near(p, cfg.visibilityLimit))
      + Filter(Filter(objects, Beside(p, f, w)), Near(p, cfg.sideLimit))
    else
      Filter(AxisHits(objects, p, w), Near(p, cfg.visibilityLimit))
  }

  ghost function VisibleSpec(objects: seq<Cell>, state: GameState, cfg: Config): seq<Cell>
  {
    if cfg.partialVisibility then PartialView(objects, state, cfg) else objects
  }

  /** `visible`: computes the partial view in every case, and returns it
      only when partial visibility is switched on. */
  method Visible(objects: seq<Cell>, state: GameState, cfg: Config) returns (r: seq<Cell>)
    requires objects != [] ==> Enclosed(state.pacman, state.walls)
    ensures r == VisibleSpec(objects, state, cfg)
    ensures !cfg.partialVisibility ==> r == objects
  {
    var pacman, facing, walls := state.pacman, state.facing, state.walls;
    var visibleObjects: seq<Cell> := [];
    var sideObjects: seq<Cell> := [];
    if facing != Stop {
      for i := 0 to |objects|
        invariant visibleObjects == Filter(objects[..i], Ahead(pacman, facing, walls))
      {
        FilterStep(objects, i, Ahead(pacman, facing, walls));
        var hit := InFront(objects[i], facing, pacman, walls);
        if hit {
          visibleObjects := visibleObjects + [objects[i]];
        }
      }
      assert objects[..|objects|] == objects;
      visibleObjects := DistanceLimited(visibleObjects, pacman, cfg.visibilityLimit);
      for i := 0 to |objects|
        invariant sideObjects == Filter(objects[..i], Beside(pacman, facing, walls))
      {
        FilterStep(objects, i, Beside(pacman, facing, walls));
        var hit := AtSide(objects[i], facing, pacman, walls);
        if hit {
          sideObjects := sideObjects + [objects[i]];
        }
      }
      sideObjects := DistanceLimited(sideObjects, pacman, cfg.sideLimit);
      visibleObjects := visibleObjects + sideObjects;
    } else {
      for i := 0 to |objects|
        invariant visibleObjects == AxisHits(objects[..i], pacman, walls)
      {
        AxisHitsStep(objects, i, pacman, walls);
        ghost var before := visibleObjects;
        var north := InFront(objects[i], North, pacman, walls);
        if north {
          visibleObjects := visibleObjects + [objects[i]];
        }
        var south := InFront(objects[i], South, pacman, walls);
        if south {
          visibleObjects := visibleObjects + [objects[i]];
        }
        var east := InFront(objects[i], East, pacman, walls);
        if east {
          visibleObjects := visibleObjects + [objects[i]];
        }
        var west := InFront(objects[i], West, pacman, walls);
        if west {
          visibleObjects := visibleObjects + [objects[i]];
        }
        assert visibleObjects == before + AxisHitsOf(objects[i], pacman, walls);
      }
      assert objects[..|objects|] == objects;
      visibleObjects := DistanceLimited(visibleObjects, pacman, cfg.visibilityLimit);
    }
    if cfg.partialVisibility {
      r := visibleObjects;
    } else {
      r := objects;
    }
  }

  /** Two different axis rays from the same cell never share a cell. */
  lemma RaysDisjoint(o: Cell, pacman: Cell, d1: Direction, d2: Direction, walls: seq<Cell>)
    requires OnRay(o, pacman, d1, walls) && OnRay(o, pacman, d2, walls)
    ensures d1 == d2
  {
    var k1 :| 1 <= k1 && Step(pacman, d1, k1) == o && RayClear(pacman, d1, walls, k1);
    var k2 :| 1 <= k2 && Step(pacman, d2, k2) == o && RayClear(pacman, d2, walls, k2);
  }

  /** Because the four rays are disjoint, the stationary scan lists each
      object at most once: it is a plain filter of the object list. */
  lemma {:induction false} AxisHitsIsFilter(objects: seq<Cell>, pacman: Cell, walls: seq<Cell>)
    ensures AxisHits(objects, pacman, walls) == Filter(objects, OnSomeAxis(pacman, walls))
    decreases |objects|
  {
    if objects != [] {
      var n := |objects| - 1;
      var o := objects[n];
      AxisHitsIsFilter(objects[..n], pacman, walls);
      forall d1: Direction, d2: Direction | OnRay(o, pacman, d1, walls) && OnRay(o, pacman, d2, walls)
        ensures d1 == d2
      {
        RaysDisjoint(o, pacman, d1, d2, walls);
      }
      assert AxisHitsOf(o, pacman, walls) == if OnSomeAxis(pacman, walls)(o) then [o] else [];
    }
  }

  /** When moving, an object is seen exactly when it is ahead within the
      visibility limit or in a side corridor within the side limit. */
  lemma MovingViewMembers(objects: seq<Cell>, state: GameState, cfg: Config)
    requires state.facing != Stop
    ensures forall o :: o in PartialView(objects, state, cfg) <==>
      o in objects
      && ((OnRay(o, state.pacman, state.facing, state.walls)
           && ManhattanDistance(state.pacman, o) <= cfg.visibilityLimit)
          || (SideSeen(o, state.facing, state.pacman, state.walls)
              && ManhattanDistance(state.pacman, o) <= cfg.sideLimit))
  {
    var p, f, w := state.pacman, state.facing, state.walls;
    var front := Filter(objects, Ahead(p, f, w));
    var side := Filter(objects, Beside(p, f, w));
    FilterMembership(objects, Ahead(p, f, w));
    FilterMembership(front, Near(p, cfg.visibilityLimit));
    FilterMembership(objects, Beside(p, f, w));
    FilterMembership(side, Near(p, cfg.sideLimit));
    assert PartialView(objects, state, cfg)
           == Filter(front, Near(p, cfg.visibilityLimit)) + Filter(side, Near(p, cfg.sideLimit));
  }

  /** When stopped, an object is seen exactly when it lies on one of the
      four axis corridors (no wall in between) within the visibility limit. */
  lemma StationaryViewMembers(objects: seq<Cell>, state: GameState, cfg: Config)
    requires state.facing == Stop
    ensures forall o :: o in PartialView(objects, state, cfg) <==>
      o in objects
      && (OnRay(o, state.pacman, North, state.walls) || OnRay(o, state.pacman, South, state.walls)
          || OnRay(o, state.pacman, East, state.walls) || OnRay(o, state.pacman, West, state.walls))
      && ManhattanDistance(state.pacman, o) <= cfg.visibilityLimit
  {
    var p, w := state.pacman, state.walls;
    var onAxis := Filter(objects, OnSomeAxis(p, w));
    AxisHitsIsFilter(objects, p, w);
    assert PartialView(objects, state, cfg) == Filter(onAxis, Near(p, cfg.visibilityLimit));
    FilterMembership(objects, OnSomeAxis(p, w));
    FilterMembership(onAxis, Near(p, cfg.visibilityLimit));
  }

  /** No cell is both ahead of a moving Pacman and in a side corridor. */
  lemma AheadNotBeside(o: Cell, p: Cell, f: Direction, w: seq<Cell>)
    requires OnRay(o, p, f, w)
    ensures !SideSeen(o, f, p, w)
  {
    if OnRay(o, p, Left(f), w) {
      RaysDisjoint(o, p, f, Left(f), w);
    } else if OnRay(o, p, Right(f), w) {
      RaysDisjoint(o, p, f, Right(f), w);
    }
  }

  lemma MovingViewSubMultiset(objects: seq<Cell>, state: GameState, cfg: Config)
    requires state.facing != Stop
    ensures multiset(PartialView(objects, state, cfg)) <= multiset(objects)
  {
    var p, f, w := state.pacman, state.facing, state.walls;
    var front := Filter(objects, Ahead(p, f, w));
    var side := Filter(objects, Beside(p, f, w));
    var seenFront := Filter(front, Near(p, cfg.visibilityLimit));
    var seenSide := Filter(side, Near(p, cfg.sideLimit));
    FilterMultiset(objects, Ahead(p, f, w));
    FilterMultiset(front, Near(p, cfg.visibilityLimit));
    FilterMultiset(objects, Beside(p, f, w));
    FilterMultiset(side, Near(p, cfg.sideLimit));
    assert PartialView(objects, state, cfg) == seenFront + seenSide;
    forall o
      ensures multiset(seenFront + seenSide)[o] <= multiset(objects)[o]
    {
      if OnRay(o, p, f, w) {
        AheadNotBeside(o, p, f, w);
        assert multiset(seenSide)[o] == 0;
      } else {
        assert multiset(seenFront)[o] == 0;
      }
    }
  }

  lemma StationaryViewSubMultiset(objects: seq<Cell>, state: GameState, cfg: Config)
    requires state.facing == Stop
    ensures multiset(PartialView(objects, state, cfg)) <= multiset(objects)
  {
    var p, w := state.pacman, state.walls;
    var onAxis := Filter(objects, OnSomeAxis(p, w));
    var seen := Filter(onAxis, Near(p, cfg.visibilityLimit));
    assert PartialView(objects, state, cfg) == seen by {
      AxisHitsIsFilter(objects, p, w);
    }
    assert multiset(seen) <= multiset(onAxis) by {
      FilterMultiset(onAxis, Near(p, cfg.visibilityLimit));
    }
    assert multiset(onAxis) <= multiset(objects) by {
      FilterMultiset(objects, OnSomeAxis(p, w));
    }
  }

  /** The partial view never invents or repeats an object: it is a
      sub-multiset of the objects it was given. */
  lemma PartialViewSubMultiset(objects: seq<Cell>, state: GameState, cfg: Config)
    ensures multiset(PartialView(objects, state, cfg)) <= multiset(objects)
  {
    if state.facing != Stop {
      MovingViewSubMultiset(objects, state, cfg);
    } else {
      StationaryViewSubMultiset(objects, state, cfg);
    }
  }

  /** Whatever Pacman sees is one of the objects it was shown. */
  lemma VisibleWithin(objects: seq<Cell>, state: GameState, cfg: Config)
    ensures forall c :: c in VisibleSpec(objects, state, cfg) ==> c in objects
  {
    if cfg.partialVisibility {
      PartialViewSubMultiset(objects, state, cfg);
      forall c | c in PartialView(objects, state, cfg)
        ensures c in objects
      {
        assert c in multiset(PartialView(objects, state, cfg));
      }
    }
  }

  /** `get_food`: the food Pacman can see. */
  method GetFood(state: GameState, cfg: Config) returns (food: seq<Cell>)
    requires state.food != [] ==> Enclosed(state.pacman, state.walls)
    ensures food == VisibleSpec(state.food, state, cfg)
  {
    food := Visible(state.food, state, cfg);
  }

  /** `get_capsules`: the capsules Pacman can see. */
  method GetCapsules(state: GameState, cfg: Config) returns (capsules: seq<Cell>)
    requires state.capsules != [] ==> Enclosed(state.pacman, state.walls)
    ensures capsules == VisibleSpec(state.capsules, state, cfg)
  {
    capsules := Visible(state.capsules, state, cfg);
  }

  /** `audible`: the ghosts within `hearingLimit`, walls and facing ignored
      (the limit is inclusive). */
  method Audible(ghosts: seq<Cell>, state: GameState, cfg: Config) returns (heard: seq<Cell>)
    ensures heard == Filter(ghosts, Near(state.pacman, cfg.hearingLimit))
    ensures forall g :: g in heard <==> g in ghosts && ManhattanDistance(state.pacman, g) <= cfg.hearingLimit
  {
    heard := DistanceLimited(ghosts, state.pacman, cfg.hearingLimit);
    DistanceLimitedKeepsExactlyTheNear(ghosts, state.pacman, cfg.hearingLimit);
  }

  /** `union` of two lists (the result order is Python's set order, so the
      model keeps the set). */
  function Union(a: seq<Cell>, b: seq<Cell>): (u: set<Cell>)
    ensures forall c :: c in u <==> c in a || c in b
  {
    ToSet(a) + ToSet(b)
  }

  /** The ghost cells Pacman can see or hear. */
  ghost function SensedGhosts(state: GameState, cfg: Config): set<Cell>
  {
    var positions := GhostPositions(state.ghosts);
    Union(VisibleSpec(positions, state, cfg), Filter(positions, Near(state.pacman, cfg.hearingLimit)))
  }

  /** `get_ghosts`: the ghosts that are visible or audible. */
  method GetGhosts(state: GameState, cfg: Config) returns (ghosts: set<Cell>)
    requires state.ghosts != [] ==> Enclosed(state.pacman, state.walls)
    ensures ghosts == SensedGhosts(state, cfg)
  {
    var positions := GhostPositions(state.ghosts);
    var seen := Visible(positions, state, cfg);
    var heard := Audible(positions, state, cfg);
    ghosts := Union(seen, heard);
  }

  /** Only real ghosts are sensed; with full visibility every ghost is,
      and a ghost within hearing range always is. */
  lemma SensedGhostsBounds(state: GameState, cfg: Config)
    ensures forall g :: g in SensedGhosts(state, cfg) ==> g in GhostPositions(state.ghosts)
    ensures !cfg.partialVisibility ==> forall g :: g in GhostPositions(state.ghosts) ==> g in SensedGhosts(state, cfg)
    ensures forall g :: g in GhostPositions(state.ghosts) && ManhattanDistance(state.pacman, g) <= cfg.hearingLimit
                       ==> g in SensedGhosts(state, cfg)
  {
    var positions := GhostPositions(state.ghosts);
    var seen := VisibleSpec(positions, state, cfg);
    var near := Near(state.pacman, cfg.hearingLimit);
    FilterMembership(positions, near);
    if cfg.partialVisibility {
      PartialViewSubMultiset(positions, state, cfg);
      forall g | g in seen ensures g in positions {
        assert multiset(seen)[g] > 0;
      }
    }
    forall g | g in positions && ManhattanDistance(state.pacman, g) <= cfg.hearingLimit
      ensures g in Filter(positions, near)
    {
      assert near(g);
    }
  }

  // =====================================================================
  // Ghost rewards and danger zones
  // =====================================================================

  /** `ghost_states`: each ghost's position paired with 1 when it is scared
      and 0 otherwise. */
  function GhostStates(ghosts: seq<Ghost>): (states: seq<(Cell, int)>)
    ensures |states| == |ghosts|
    ensures forall i :: 0 <= i < |ghosts| ==>
      states[i].0 == ghosts[i].position && (states[i].1 == 1 <==> ghosts[i].scaredTimer > 0)
  {
    seq(|ghosts|, i requires 0 <= i < |ghosts| =>
      (ghosts[i].position, if ghosts[i].scaredTimer > 0 then 1 else 0))
  }

  /** Python's `entry == 1` for a (position, flag) entry: a tuple never
      equals an integer. */
  predicate EntryEqualsOne(entry: (Cell, int))
  {
    false
  }

  /** Python's `all(entry == 1 for entry in states)`. */
  predicate AllEqualOne(states: seq<(Cell, int)>)
  {
    forall i :: 0 <= i < |states| ==> EntryEqualsOne(states[i])
  }

  /** `calculate_ghost_and_danger_zone_rewards`: both rewards are multiplied
      by -1 when every entry of `ghost_states` equals 1, by 1 otherwise. */
  function CalculateGhostAndDangerZoneRewards(ghosts: seq<Ghost>, ghostReward: real, dangerZoneReward: real)
    : (r: (real, real))
    ensures r == (ghostReward, dangerZoneReward) || r == (-ghostReward, -dangerZoneReward)
  {
    var multiplier := if AllEqualOne(GhostStates(ghosts)) then -1.0 else 1.0;
    (ghostReward * multiplier, dangerZoneReward * multiplier)
  }

  /** As written, the test compares (position, flag) pairs with 1, so the
      rewards flip sign only when there are no ghosts at all: scared ghosts
      never turn into a positive reward. */
  lemma SignFlipsOnlyWithoutGhosts(ghosts: seq<Ghost>, ghostReward: real, dangerZoneReward: real)
    ensures CalculateGhostAndDangerZoneRewards(ghosts, ghostReward, dangerZoneReward)
            == if ghosts == [] then (-ghostReward, -dangerZoneReward) else (ghostReward, dangerZoneReward)
  {
    if ghosts != [] {
      assert !EntryEqualsOne(GhostStates(ghosts)[0]);
    }
  }

  /** `c` is inside the map and in the (2d+1)×(2d+1) square centred on `g`. */
  predicate InSquare(c: Cell, g: Cell, d: int, width: int, height: int)
  {
    InGrid(c, width, height) && g.x - d <= c.x <= g.x + d && g.y - d <= c.y <= g.y + d
  }

  /** `c` is in the square around some ghost that is within `d` of Pacman. */
  ghost predicate InDangerZone(c: Cell, pacman: Cell, ghosts: set<Cell>, width: int, height: int, d: int)
  {
    exists g :: g in ghosts && ManhattanDistance(pacman, g) <= d && InSquare(c, g, d, width, height)
  }

  /** The danger zone as a set: the in-map cells that are in it. */
  ghost function DangerZone(pacman: Cell, ghosts: set<Cell>, width: int, height: int, d: int): set<Cell>
  {
    set x, y | 0 <= x < width && 0 <= y < height && InDangerZone(Cell(x, y), pacman, ghosts, width, height, d)
      :: Cell(x, y)
  }

  /** The danger zone holds exactly the cells in the square of some ghost
      near Pacman (those squares are clipped to the map). */
  lemma DangerZoneMembers(pacman: Cell, ghosts: set<Cell>, width: int, height: int, d: int)
    ensures forall c :: c in DangerZone(pacman, ghosts, width, height, d)
                        <==> InDangerZone(c, pacman, ghosts, width, height, d)
  {
    forall c | InDangerZone(c, pacman, ghosts, width, height, d)
      ensures c in DangerZone(pacman, ghosts, width, height, d)
    {
      assert Cell(c.x, c.y) == c;
    }
  }

  /** Adding a ghost far from Pacman changes nothing; adding a ghost near
      him adds its whole in-map square. */
  lemma DangerZoneAddGhost(pacman: Cell, ghosts: set<Cell>, g: Cell, width: int, height: int, d: int)
    ensures forall c :: InDangerZone(c, pacman, ghosts + {g}, width, height, d) <==>
      InDangerZone(c, pacman, ghosts, width, height, d)
      || (ManhattanDistance(pacman, g) <= d && InSquare(c, g, d, width, height))
  {
    forall c | InDangerZone(c, pacman, ghosts + {g}, width, height, d)
      ensures InDangerZone(c, pacman, ghosts, width, height, d)
              || (ManhattanDistance(pacman, g) <= d && InSquare(c, g, d, width, height))
    {
      var h :| h in ghosts + {g} && ManhattanDistance(pacman, h) <= d && InSquare(c, h, d, width, height);
      if h != g {
        assert h in ghosts;
      }
    }
  }

  /** `get_danger_zones`: for each ghost within `safetyDistance` of Pacman,
      every in-map cell of the square of radius `safetyDistance` around it. */
  method GetDangerZones(pacman: Cell, ghosts: set<Cell>, width: int, height: int, safetyDistance: int)
    returns (zone: set<Cell>)
    ensures zone == DangerZone(pacman, ghosts, width, height, safetyDistance)
  {
    var d := safetyDistance;
    zone := {};
    var todo := ghosts;
    ghost var done: set<Cell> := {};
    while todo != {}
      invariant todo + done == ghosts && todo !! done
      invariant forall c :: c in zone <==> InDangerZone(c, pacman, done, width, height, d)
      decreases todo
    {
      var g :| g in todo;
      DangerZoneAddGhost(pacman, done, g, width, height, d);
      if ManhattanDistance(pacman, g) <= d {
        var dx := -d;
        while dx <= d
          invariant -d <= dx <= d + 1
          invariant forall c :: c in zone <==>
            (InDangerZone(c, pacman, done, width, height, d)
             || (InSquare(c, g, d, width, height) && c.x < g.x + dx))
        {
          var dy := -d;
          while dy <= d
            invariant -d <= dy <= d + 1
            invariant forall c :: c in zone <==>
              (InDangerZone(c, pacman, done, width, height, d)
               || (InSquare(c, g, d, width, height) && c.x < g.x + dx)
               || (InSquare(c, g, d, width, height) && c.x == g.x + dx && c.y < g.y + dy))
          {
            var x, y := g.x + dx, g.y + dy;
            if 0 <= x < width && 0 <= y < height {
              zone := zone + {Cell(x, y)};
            }
            dy := dy + 1;
          }
          dx := dx + 1;
        }
      }
      todo := todo - {g};
      done := done + {g};
    }
    assert forall c :: c in zone ==> InGrid(c, width, height);
  }

  /** Pacman at (5,5) next to a ghost at (5,6) with safety distance 1: the
      zone is the 3×3 square around the ghost (the code uses a square, not a
      Manhattan ball). With Pacman at (0,0) the same ghost adds nothing. */
  lemma DangerZoneExample()
    ensures forall c :: InDangerZone(c, Cell(5, 5), {Cell(5, 6)}, 10, 10, 1) <==> 4 <= c.x <= 6 && 5 <= c.y <= 7
    ensures forall c :: !InDangerZone(c, Cell(0, 0), {Cell(5, 6)}, 10, 10, 1)
  {
    forall c: Cell | 4 <= c.x <= 6 && 5 <= c.y <= 7
      ensures InDangerZone(c, Cell(5, 5), {Cell(5, 6)}, 10, 10, 1)
    {
      assert ManhattanDistance(Cell(5, 5), Cell(5, 6)) == 1;
      assert InSquare(c, Cell(5, 6), 1, 10, 10);
    }
  }

  // =====================================================================
  // Map helpers
  // =====================================================================

  /** `get_blank`: the reward keys that hold no food, ghost, capsule or
      wall (stated by `GetBlankMembers`). */
  function GetBlank(food: seq<Cell>, ghosts: set<Cell>, capsules: seq<Cell>, walls: seq<Cell>,
                    rewards: map<Cell, real>): set<Cell>
  {
    rewards.Keys - ToSet(food) - ghosts - ToSet(capsules) - ToSet(walls)
  }

  lemma GetBlankMembers(food: seq<Cell>, ghosts: set<Cell>, capsules: seq<Cell>, walls: seq<Cell>,
                        rewards: map<Cell, real>)
    ensures forall c :: c in GetBlank(food, ghosts, capsules, walls, rewards) <==>
      c in rewards && c !in food && c !in ghosts && c !in capsules && c !in walls
  {
  }

  /** `get_corners`: the four corner cells of a width×height map. */
  function GetCorners(width: int, height: int): (corners: seq<Cell>)
    ensures |corners| == 4
    ensures forall i :: 0 <= i < 4 ==>
      (corners[i].x == 0 || corners[i].x == width - 1) && (corners[i].y == 0 || corners[i].y == height - 1)
    ensures width >= 1 && height >= 1 ==> forall i :: 0 <= i < 4 ==> InGrid(corners[i], width, height)
  {
    [Cell(0, 0), Cell(width - 1, 0), Cell(0, height - 1), Cell(width - 1, height - 1)]
  }

  /** `get_inner_corners`: the corners of the map once its outer ring (the
      border wall) is removed, in the same order as `get_corners`. */
  function GetInnerCorners(width: int, height: int): (corners: seq<Cell>)
    ensures |corners| == 4
    ensures var outer := GetCorners(width, height);
      forall i :: 0 <= i < 4 ==>
        IntAbs(corners[i].x - outer[i].x) == 1 && IntAbs(corners[i].y - outer[i].y) == 1
    ensures width >= 3 && height >= 3 ==> forall i :: 0 <= i < 4 ==>
      1 <= corners[i].x <= width - 2 && 1 <= corners[i].y <= height - 2
  {
    var w, h := width - 2, height - 2;
    [Cell(1, 1), Cell(w, 1), Cell(1, h), Cell(w, h)]
  }

  /** `get_adjacency_list`: each floor cell mapped to its four neighbours. */
  method GetAdjacencyList(floors: seq<Cell>) returns (adj: map<Cell, map<Direction, Cell>>)
    ensures adj.Keys == ToSet(floors)
    ensures forall f :: f in adj ==> adj[f].Keys == {North, South, East, West}
    ensures forall f, d :: f in adj && d in adj[f] ==> adj[f][d] == Neighbour(f, d)
  {
    adj := map[];
    for i := 0 to |floors|
      invariant adj.Keys == ToSet(floors[..i])
      invariant forall f :: f in adj ==> adj[f].Keys == {North, South, East, West}
      invariant forall f, d :: f in adj && d in adj[f] ==> adj[f][d] == Neighbour(f, d)
    {
      var f := floors[i];
      var (x, y) := (f.x, f.y);
      adj := adj[f := map[North := Cell(x, y + 1), South := Cell(x, y - 1),
                          East := Cell(x + 1, y), West := Cell(x - 1, y)]];
      assert floors[..i + 1] == floors[..i] + [f];
    }
    assert floors[..|floors|] == floors;
  }

  function XCoords(cells: seq<Cell>): (xs: seq<int>)
    ensures |xs| == |cells| && forall i :: 0 <= i < |cells| ==> xs[i] == cells[i].x
  {
    seq(|cells|, i requires 0 <= i < |cells| => cells[i].x)
  }

  function YCoords(cells: seq<Cell>): (ys: seq<int>)
    ensures |ys| == |cells| && forall i :: 0 <= i < |cells| ==> ys[i] == cells[i].y
  {
    seq(|cells|, i requires 0 <= i < |cells| => cells[i].y)
  }

  /** The cells of column `x` from row `ylo` up to row `yhi`. */
  function Column(x: int, ylo: int, yhi: int): (col: seq<Cell>)
    ensures forall c :: c in col <==> c.x == x && ylo <= c.y <= yhi
  {
    var n := if yhi >= ylo then yhi - ylo + 1 else 0;
    var col := seq(n, i requires 0 <= i < n => Cell(x, ylo + i));
    assert forall c: Cell :: c.x == x && ylo <= c.y <= yhi ==> col[c.y - ylo] == c;
    col
  }

  /** The cells of the box [xlo, xhi] × [ylo, yhi], column by column. */
  function Box(xlo: int, xhi: int, ylo: int, yhi: int): seq<Cell>
    decreases xhi - xlo + 1
  {
    if xhi < xlo then [] else Box(xlo, xhi - 1, ylo, yhi) + Column(xhi, ylo, yhi)
  }

  lemma {:induction false} BoxMembers(xlo: int, xhi: int, ylo: int, yhi: int)
    ensures forall c :: c in Box(xlo, xhi, ylo, yhi) <==> xlo <= c.x <= xhi && ylo <= c.y <= yhi
    decreases xhi - xlo + 1
  {
    if xhi >= xlo {
      BoxMembers(xlo, xhi - 1, ylo, yhi);
    }
  }

  function NotIn(walls: seq<Cell>): Cell -> bool
  {
    c => c !in walls
  }

  /** `get_floors`: the non-wall cells of the bounding box of the walls.
      The source fails on an empty wall list. What the result holds is
      stated by `GetFloorsMembers`. */
  function GetFloors(walls: seq<Cell>): (floors: seq<Cell>)
    requires walls != []
  {
    Filter(Box(MinOf(XCoords(walls)), MaxOf(XCoords(walls)), MinOf(YCoords(walls)), MaxOf(YCoords(walls))), NotIn(walls))
  }

  /** A cell is a floor exactly when it lies within the walls' bounding
      box and is not itself a wall. */
  lemma GetFloorsMembers(walls: seq<Cell>)
    requires walls != []
    ensures forall c :: c in GetFloors(walls) <==>
      MinOf(XCoords(walls)) <= c.x <= MaxOf(XCoords(walls))
      && MinOf(YCoords(walls)) <= c.y <= MaxOf(YCoords(walls))
      && c !in walls
  {
    var xlo, xhi, ylo, yhi := MinOf(XCoords(walls)), MaxOf(XCoords(walls)), MinOf(YCoords(walls)), MaxOf(YCoords(walls));
    BoxMembers(xlo, xhi, ylo, yhi);
    FilterMembership(Box(xlo, xhi, ylo, yhi), NotIn(walls));
  }

  // =====================================================================
  // Acting: execution noise
  // =====================================================================

  /** `selectNewMove`: with `sample <= 0.5` the quarter turn to the left
      (N→W, E→N, S→E, W→S), otherwise to the right (N→E, E→S, S→W, W→N),
      if that move is legal, and Stop if not. Called with Stop it falls
      through every case and returns None. */
  function SelectNewMove(direction: Direction, legal: seq<Direction>, sample: real): (r: Option<Direction>)
    ensures r.None? <==> direction == Stop
    ensures direction != Stop ==>
      var turn := if sample <= 0.5 then Left(direction) else Right(direction);
      r == Some(if turn in legal then turn else Stop)
    ensures r.Some? ==> r.value == Stop || (r.value in legal && Perpendicular(direction, r.value))
  {
    var left := sample <= 0.5;
    match direction
    case North =>
      if left then (if West in legal then Some(West) else Some(Stop))
      else (if East in legal then Some(East) else Some(Stop))
    case East =>
      if left then (if North in legal then Some(North) else Some(Stop))
      else (if South in legal then Some(South) else Some(Stop))
    case South =>
      if left then (if East in legal then Some(East) else Some(Stop))
      else (if West in legal then Some(West) else Some(Stop))
    case West =>
      if left then (if South in legal then Some(South) else Some(Stop))
      else (if North in legal then Some(North) else Some(Stop))
    case Stop => None
  }

  /** `makeMove`: Stop stays Stop; with determinism off, the intended move
      is kept with probability `directionProb` (if legal, else Stop) and
      otherwise replaced by a perpendicular move. `sample` and `turnSample`
      are the two `random()` draws. */
  function MakeMove(direction: Direction, legal: seq<Direction>, cfg: Config, sample: real, turnSample: real)
    : (r: Direction)
    ensures direction == Stop ==> r == Stop
    ensures direction != Stop && !cfg.nonDeterministic ==> r == direction
    ensures direction != Stop && cfg.nonDeterministic && sample <= cfg.directionProb
            ==> r == (if direction in legal then direction else Stop)
    ensures direction != Stop && cfg.nonDeterministic && sample > cfg.directionProb
            ==> r == Stop || (r in legal && Perpendicular(direction, r))
  {
    if direction == Stop then direction
    else if cfg.nonDeterministic then
      if sample <= cfg.directionProb then
        if direction in legal then direction else Stop
      else
        SelectNewMove(direction, legal, turnSample).value
    else direction
  }

  /** With execution noise on, the emitted move is Stop or a legal move. */
  lemma NoisyMoveIsLegalOrStop(direction: Direction, legal: seq<Direction>, cfg: Config, sample: real, turnSample: real)
    requires cfg.nonDeterministic
    ensures var r := MakeMove(direction, legal, cfg, sample, turnSample); r == Stop || r in legal
  {
  }
}
