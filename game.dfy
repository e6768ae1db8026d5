/**
  The parts of the host Pacman engine the agents read: directions, grid
  cells, ghosts and a snapshot of the game state. The engine itself (layout
  loading, legal-move generation, scoring) is outside this model; a
  `GameState` value stands for what its accessors return on one tick.
 */
module Game {

  import Util

  /** `Directions.NORTH`, ..., `Directions.STOP`. */
  datatype Direction = North | South | East | West | Stop

  /** The four moves that have a grid offset. */
  type Move = d: Direction | d != Stop witness North

  /** An (x, y) grid position. */
  datatype Cell = Cell(x: int, y: int)

  /** The cell `k` steps from `c` in direction `d`: North is +y, South -y,
      East +x, West -x; Stop has no offset. */
  function Step(c: Cell, d: Direction, k: int): Cell
  {
    match d
    case North => Cell(c.x, c.y + k)
    case South => Cell(c.x, c.y - k)
    case East => Cell(c.x + k, c.y)
    case West => Cell(c.x - k, c.y)
    case Stop => c
  }

  /** `(x + dx, y + dy)` with the offset of `d`. */
  function Neighbour(c: Cell, d: Direction): Cell
  {
    Step(c, d, 1)
  }

  /** A move always leaves the cell. */
  lemma MoveLeaves(c: Cell, d: Move)
    ensures Neighbour(c, d) != c
  {
  }

  /** A direction list known to hold no Stop, as a list of moves. */
  function AsMoves(ds: seq<Direction>): (ms: seq<Move>)
    requires Stop !in ds
    ensures ms == ds
  {
    ds
  }

  /** `Directions.LEFT`: a quarter turn anticlockwise. */
  function Left(d: Direction): Direction
  {
    match d
    case North => West
    case West => South
    case South => East
    case East => North
    case Stop => Stop
  }

  /** `Directions.RIGHT`: a quarter turn clockwise. */
  function Right(d: Direction): Direction
  {
    match d
    case North => East
    case East => South
    case South => West
    case West => North
    case Stop => Stop
  }

  /** Two moves at right angles to each other. */
  predicate Perpendicular(a: Direction, b: Direction)
  {
    ((a == North || a == South) && (b == East || b == West))
    || ((a == East || a == West) && (b == North || b == South))
  }

  /** The two perpendicular moves the noise may slip into: East and West
      for a vertical move, North and South for a horizontal one. */
  function Sides(a: Move): (sides: seq<Move>)
    ensures |sides| == 2 && sides[0] != sides[1]
    ensures Perpendicular(a, sides[0]) && Perpendicular(a, sides[1])
  {
    if a == North || a == South then [East, West] else [North, South]
  }

  lemma TurnsArePerpendicular(d: Direction)
    requires d != Stop
    ensures Perpendicular(d, Left(d)) && Perpendicular(d, Right(d))
    ensures Left(d) != Right(d) && Right(Left(d)) == d && Left(Right(d)) == d
  {
  }

  predicate InGrid(c: Cell, width: int, height: int)
  {
    0 <= c.x < width && 0 <= c.y < height
  }

  /** A ghost agent: its position and how many ticks it stays scared. */
  datatype Ghost = Ghost(position: Cell, scaredTimer: int)

  /** One tick of the game as the agents see it through the engine:
      Pacman's position and facing, the legal actions at his cell, the map
      size, the wall list (`get_walls` order), the food and capsule
      positions, and the ghost states. */
  datatype GameState = GameState(
    pacman: Cell,
    facing: Direction,
    legal: seq<Direction>,
    width: int,
    height: int,
    walls: seq<Cell>,
    food: seq<Cell>,
    capsules: seq<Cell>,
    ghosts: seq<Ghost>)

  /** `state.getGhostPositions()`. */
  function GhostPositions(ghosts: seq<Ghost>): (ps: seq<Cell>)
    ensures |ps| == |ghosts| && forall i :: 0 <= i < |ghosts| ==> ps[i] == ghosts[i].position
  {
    seq(|ghosts|, i requires 0 <= i < |ghosts| => ghosts[i].position)
  }

  /** Every cell on the outer ring of the map is a wall, as in every Pacman
      layout. */
  predicate BorderWalled(width: int, height: int, walls: seq<Cell>)
  {
    && (forall x :: 0 <= x < width ==> Cell(x, 0) in walls && Cell(x, height - 1) in walls)
    && (forall y :: 0 <= y < height ==> Cell(0, y) in walls && Cell(width - 1, y) in walls)
  }

  /** The cells of a width×height map that are not walls (the agents'
      `legal_states` / `legal_positions`). */
  function OpenCells(width: int, height: int, walls: set<Cell>): (cells: set<Cell>)
    ensures forall c :: c in cells <==> InGrid(c, width, height) && c !in walls
  {
    set x, y | 0 <= x < width && 0 <= y < height && Cell(x, y) !in walls :: Cell(x, y)
  }

  /** Column `x` of the map, bottom to top. */
  function GridColumn(x: int, height: int): seq<Cell>
  {
    seq(if height > 0 then height else 0, y requires 0 <= y < height => Cell(x, y))
  }

  /** The cells of the map, column by column as `for x in range(width) for
      y in range(height)` lists them. What it holds is stated by
      `GridOrderMembers`. */
  function GridOrder(width: int, height: int): seq<Cell>
    decreases width
  {
    if width <= 0 then [] else GridOrder(width - 1, height) + GridColumn(width - 1, height)
  }

  /** The grid order lists every cell of the map exactly once. */
  lemma {:induction false} GridOrderMembers(width: int, height: int)
    ensures forall c :: c in GridOrder(width, height) <==> InGrid(c, width, height)
    ensures Util.NoDuplicates(GridOrder(width, height))
    decreases width
  {
    if width > 0 {
      GridOrderMembers(width - 1, height);
      var column := GridColumn(width - 1, height);
      assert forall c: Cell :: c in column <==> c.x == width - 1 && 0 <= c.y < height by {
        assert forall c: Cell :: c.x == width - 1 && 0 <= c.y < height ==> column[c.y] == c;
      }
      var before := GridOrder(width - 1, height);
      assert forall i :: 0 <= i < |before| ==> before[i].x < width - 1 by {
        forall i | 0 <= i < |before|
          ensures before[i].x < width - 1
        {
          assert before[i] in before;
          assert InGrid(before[i], width - 1, height);
        }
      }
      var all := before + column;
      assert all == GridOrder(width, height);
      assert forall i, j :: 0 <= i < j < |all| ==> all[i] != all[j] by {
        forall i, j | 0 <= i < j < |all|
          ensures all[i] != all[j]
        {
          if j < |before| {
            assert all[i] == before[i] && all[j] == before[j];
          } else if i >= |before| {
            assert all[i] == column[i - |before|] && all[j] == column[j - |before|];
          } else {
            assert all[i] == before[i] && all[j] == column[j - |before|];
          }
        }
      }
    }
  }

  /** On a map closed by its border, every neighbour of an open cell lies
      inside the map. */
  lemma NeighbourStaysInGrid(width: int, height: int, walls: seq<Cell>, c: Cell, d: Direction)
    requires BorderWalled(width, height, walls)
    requires InGrid(c, width, height) && c !in walls
    ensures InGrid(Neighbour(c, d), width, height)
  {
    assert Cell(0, c.y) in walls && Cell(width - 1, c.y) in walls;
    assert Cell(c.x, 0) in walls && Cell(c.x, height - 1) in walls;
  }

  /** What the engine guarantees about one tick: the map is closed by
      walls, everything on it lies inside it, and Pacman stands on an open
      cell. */
  predicate WellFormed(s: GameState)
  {
    && BorderWalled(s.width, s.height, s.walls)
    && InGrid(s.pacman, s.width, s.height) && s.pacman !in s.walls
    && (forall c :: c in s.walls ==> InGrid(c, s.width, s.height))
    && (forall c :: c in s.food ==> InGrid(c, s.width, s.height))
    && (forall c :: c in s.capsules ==> InGrid(c, s.width, s.height))
    && (forall g :: g in s.ghosts ==> InGrid(g.position, s.width, s.height))
  }

  /** The legal-action list the engine hands out: it contains Stop and no
      action twice. */
  predicate LegalActionsOk(legal: seq<Direction>)
  {
    Stop in legal && Util.NoDuplicates(legal)
  }
}
