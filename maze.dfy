/** The read-only view of the maze that the behaviour queries, and the
    row-major scan for the first tile that still holds a pellet.

    Maze.java, Tile.java and TileState.java are not part of this model: the
    maze is a width, a height, the state of the tile at every integer
    coordinate, and the `isPassable` classification of a state. */
module Maze {
  import opened Wrappers
  import opened Geometry

  /** The tile states the behaviour tells apart; every other state of the
      game is one `Other` code. */
  datatype TileState = Pellet | PowerPellet | Other(code: nat)

  datatype Grid = Grid(
    width: nat,
    height: nat,
    state: (int, int) -> TileState,
    passable: TileState -> bool)

  function At(g: Grid, c: Coord): TileState {
    g.state(c.x, c.y)
  }

  /** `isTileContainsPellet`: a pellet or a power pellet lies on the tile. */
  predicate HasPellet(t: TileState)
    ensures HasPellet(t) <==> !t.Other?
  {
    t == Pellet || t == PowerPellet
  }

  predicate InBounds(g: Grid, c: Coord) {
    0 <= c.x < g.width && 0 <= c.y < g.height
  }

  /** `c` is visited at or after column `x` of row `y` by a scan with y outer
      and x inner. */
  predicate FromOn(c: Coord, x: int, y: int) {
    c.y > y || (c.y == y && c.x >= x)
  }

  /** Row-major order: `a` is visited before `b`. */
  predicate Before(a: Coord, b: Coord) {
    !FromOn(a, b.x, b.y)
  }

  /** The scan of lines 88-97 resumed at column `x` of row `y`. */
  function ScanFrom(g: Grid, x: nat, y: nat): Option<Coord>
    decreases g.height - y, g.width - x
  {
    if y >= g.height then None
    else if x >= g.width then ScanFrom(g, 0, y + 1)
    else if HasPellet(At(g, Coord(x, y))) then Some(Coord(x, y))
    else ScanFrom(g, x + 1, y)
  }

  /** The tile the scan stops at, or None when no tile holds a pellet. */
  function FirstPellet(g: Grid): Option<Coord> {
    ScanFrom(g, 0, 0)
  }

  lemma {:induction false} ScanFromIsFirst(g: Grid, x: nat, y: nat)
    ensures ScanFrom(g, x, y).Some? ==>
      var c := ScanFrom(g, x, y).value;
      InBounds(g, c) && FromOn(c, x, y) && HasPellet(At(g, c)) &&
      forall e :: InBounds(g, e) && FromOn(e, x, y) && Before(e, c) ==> !HasPellet(At(g, e))
    ensures ScanFrom(g, x, y).None? ==>
      forall e :: InBounds(g, e) && FromOn(e, x, y) ==> !HasPellet(At(g, e))
    decreases g.height - y, g.width - x
  {
    if y >= g.height {
    } else if x >= g.width {
      ScanFromIsFirst(g, 0, y + 1);
    } else if HasPellet(At(g, Coord(x, y))) {
    } else {
      ScanFromIsFirst(g, x + 1, y);
    }
  }

  /** The scan finds the first pellet tile in row-major order, and finds
      nothing exactly when no tile of the grid holds a pellet. */
  lemma FirstPelletIsFirst(g: Grid)
    ensures FirstPellet(g).Some? ==>
      var c := FirstPellet(g).value;
      InBounds(g, c) && HasPellet(At(g, c)) &&
      forall e :: InBounds(g, e) && Before(e, c) ==> !HasPellet(At(g, e))
    ensures FirstPellet(g).None? <==>
      forall e :: InBounds(g, e) ==> !HasPellet(At(g, e))
  {
    ScanFromIsFirst(g, 0, 0);
  }

  /** The nested loops of lines 87-97; `found.Some?` plays `foundOne`. */
  method FindFirstPellet(g: Grid) returns (found: Option<Coord>)
    ensures found == FirstPellet(g)
  {
    found := None;
    var y := 0;
    while y < g.height && found.None?
      invariant 0 <= y <= g.height
      invariant found.None? ==> ScanFrom(g, 0, y) == FirstPellet(g)
      invariant found.Some? ==> found == FirstPellet(g)
    {
      var x := 0;
      while x < g.width && found.None?
        invariant 0 <= x <= g.width
        invariant found.None? ==> ScanFrom(g, x, y) == FirstPellet(g)
        invariant found.Some? ==> found == FirstPellet(g)
      {
        if HasPellet(At(g, Coord(x, y))) {
          found := Some(Coord(x, y));
          break;
        }
        x := x + 1;
      }
      y := y + 1;
    }
  }
}
