/** Directions and integer tile coordinates.

    Direction.java is not part of this model. Its enumeration order, its unit
    vectors and its rotations are stated here as assumptions: the constants are
    declared UP, DOWN, LEFT, RIGHT; UP points to +y; `left()` turns a quarter
    counter-clockwise, `right()` a quarter clockwise and `behind()` half round. */
module Geometry {

  datatype Direction = UP | DOWN | LEFT | RIGHT

  /** `Direction.values()`, in declaration order. */
  const Values: seq<Direction> := [UP, DOWN, LEFT, RIGHT]

  /** Position of a direction in `Direction.values()`. */
  function Ordinal(d: Direction): (k: nat)
    ensures k < |Values| && Values[k] == d
  {
    match d
    case UP => 0
    case DOWN => 1
    case LEFT => 2
    case RIGHT => 3
  }

  function Left(d: Direction): Direction {
    match d
    case UP => LEFT
    case LEFT => DOWN
    case DOWN => RIGHT
    case RIGHT => UP
  }

  function Right(d: Direction): Direction {
    match d
    case UP => RIGHT
    case RIGHT => DOWN
    case DOWN => LEFT
    case LEFT => UP
  }

  function Behind(d: Direction): Direction {
    match d
    case UP => DOWN
    case DOWN => UP
    case LEFT => RIGHT
    case RIGHT => LEFT
  }

  /** The candidate moves relative to `facing`, in the order the scorer's
      outputs are read: 0 forward, 1 left, 2 right, 3 behind. */
  function Relative(facing: Direction, k: nat): Direction
    requires k < 4
  {
    [facing, Left(facing), Right(facing), Behind(facing)][k]
  }

  /** Which relative move `d` is, seen from `facing`: the inverse of Relative. */
  function RelativeIndex(facing: Direction, d: Direction): (k: nat)
    ensures k < 4 && Relative(facing, k) == d
  {
    if d == facing then 0
    else if d == Left(facing) then 1
    else if d == Right(facing) then 2
    else 3
  }

  /** The four relative moves are the four directions, each exactly once. */
  lemma RelativeIsBijection(facing: Direction)
    ensures forall j, k :: 0 <= j < k < 4 ==> Relative(facing, j) != Relative(facing, k)
    ensures forall k :: 0 <= k < 4 ==> RelativeIndex(facing, Relative(facing, k)) == k
  {
  }

  datatype Coord = Coord(x: int, y: int)

  /** `Direction.asVector()`. */
  function Vector(d: Direction): (v: Coord)
    ensures v.x * v.x + v.y * v.y == 1
  {
    match d
    case UP => Coord(0, 1)
    case DOWN => Coord(0, -1)
    case LEFT => Coord(-1, 0)
    case RIGHT => Coord(1, 0)
  }

  function Add(a: Coord, b: Coord): Coord {
    Coord(a.x + b.x, a.y + b.y)
  }

  /** The tile next to `c` in direction `d`. */
  function Neighbor(c: Coord, d: Direction): (n: Coord)
    ensures n != c
  {
    Add(c, Vector(d))
  }
}
