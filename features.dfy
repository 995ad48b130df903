/** Assembly of the five network inputs (lines 116-169), in hundredths:
    0.75 is 75, 0.10 is 10 and 0.35 is 35. Input slots 0..3 are forward,
    left, right and behind relative to the facing. */
module Features {
  import opened Wrappers
  import opened Geometry
  import opened Maze

  const CanMoveValue: int := 75
  const Reward: int := 10
  const Penalty: int := 35

  /** The input slot an absolute direction is credited to by the switch of
      lines 129-134 and by both priority chains: UP to forward, LEFT to left,
      RIGHT to right, DOWN to behind, whatever the facing. */
  function Slot(d: Direction): (i: nat)
    ensures i < 4
  {
    match d
    case UP => 0
    case LEFT => 1
    case RIGHT => 2
    case DOWN => 3
  }

  /** A priority chain: the first of UP, DOWN, LEFT, RIGHT whose condition
      holds, or None when none does. */
  function FirstMatch(p: Direction -> bool): (r: Option<Direction>)
    ensures r.Some? ==> p(r.value) && forall k :: 0 <= k < Ordinal(r.value) ==> !p(Values[k])
    ensures r.None? <==> forall k :: 0 <= k < |Values| ==> !p(Values[k])
  {
    assert Values[0] == UP && Values[1] == DOWN && Values[2] == LEFT && Values[3] == RIGHT;
    if p(UP) then Some(UP)
    else if p(DOWN) then Some(DOWN)
    else if p(LEFT) then Some(LEFT)
    else if p(RIGHT) then Some(RIGHT)
    else None
  }

  /** Lines 137-145: the first absolute neighbour of the agent's tile that
      holds a pellet. */
  function NearPellet(g: Grid, tile: Coord): Option<Direction> {
    FirstMatch(d => HasPellet(At(g, Neighbor(tile, d))))
  }

  /** Lines 152-160: the first absolute neighbour of the agent's tile that is
      remembered as a hotspot. */
  function NearHotspot(hotspot: seq<Coord>, tile: Coord): Option<Direction> {
    FirstMatch(d => Neighbor(tile, d) in hotspot)
  }

  /** Lines 123-126: 75 for each relative move that is legal, else 0. */
  function Base(canMove: Direction -> bool, facing: Direction): (v: seq<int>)
    ensures |v| == 4
  {
    [if canMove(facing) then CanMoveValue else 0,
     if canMove(Left(facing)) then CanMoveValue else 0,
     if canMove(Right(facing)) then CanMoveValue else 0,
     if canMove(Behind(facing)) then CanMoveValue else 0]
  }

  /** Adds `delta` to the slot of `d`, when there is one. */
  function Adjust(v: seq<int>, d: Option<Direction>, delta: int): (r: seq<int>)
    requires |v| == 4
    ensures |r| == 4
  {
    match d
    case None => v
    case Some(e) => v[Slot(e) := v[Slot(e)] + delta]
  }

  /** `direction2float`, in hundredths. A Java `switch` over a null enum
      throws before any case or the default branch is chosen. */
  function DirectionCode(d: Option<Direction>): (r: Result<int>)
    ensures r.Err? <==> d.None?
    ensures r.Ok? ==> r.value == 100 * (Ordinal(d.value) + 1)
  {
    match d
    case None => Err(NullPointer)
    case Some(UP) => Ok(100)
    case Some(DOWN) => Ok(200)
    case Some(LEFT) => Ok(300)
    case Some(RIGHT) => Ok(400)
  }

  /** Line 168: the fifth input is coded only when `pelletDirection` is null,
      so it is 0 whenever a direction is known and an exception otherwise;
      it never carries a direction code. */
  function FifthInput(pelletDirection: Option<Direction>): (r: Result<int>)
    ensures pelletDirection.Some? ==> r == Ok(0)
    ensures pelletDirection.None? ==> r == Err(NullPointer)
  {
    if pelletDirection.None? then DirectionCode(pelletDirection) else Ok(0)
  }

  /** The input array of lines 162-169, for a tick whose `pelletDirection` is
      `target`. */
  function Inputs(canMove: Direction -> bool, facing: Direction, target: Direction,
                  nearPellet: Option<Direction>, nearHotspot: Option<Direction>): (r: seq<int>)
    ensures |r| == 5 && r[4] == 0
  {
    var rewarded := Adjust(Base(canMove, facing), Some(target), Reward);
    var fed := Adjust(rewarded, nearPellet, Reward);
    var punished := Adjust(fed, nearHotspot, -Penalty);
    punished + [FifthInput(Some(target)).value]
  }

  /** What an adjustment does to one slot. */
  lemma AdjustAt(v: seq<int>, d: Option<Direction>, delta: int, i: nat)
    requires |v| == 4 && i < 4
    ensures Adjust(v, d, delta)[i] == v[i] + if d.Some? && Slot(d.value) == i then delta else 0
  {
  }

  /** Each input slot is its base value plus the three adjustments that name
      it; the fifth input is 0. */
  lemma InputsDecomposed(canMove: Direction -> bool, facing: Direction, target: Direction,
                         nearPellet: Option<Direction>, nearHotspot: Option<Direction>)
    ensures var v := Inputs(canMove, facing, target, nearPellet, nearHotspot);
      |v| == 5 && v[4] == 0 &&
      forall i :: 0 <= i < 4 ==>
        v[i] == (if canMove(Relative(facing, i)) then CanMoveValue else 0)
              + (if Slot(target) == i then Reward else 0)
              + (if nearPellet.Some? && Slot(nearPellet.value) == i then Reward else 0)
              - (if nearHotspot.Some? && Slot(nearHotspot.value) == i then Penalty else 0)
  {
    var b := Base(canMove, facing);
    var rewarded := Adjust(b, Some(target), Reward);
    var fed := Adjust(rewarded, nearPellet, Reward);
    var punished := Adjust(fed, nearHotspot, -Penalty);
    assert Inputs(canMove, facing, target, nearPellet, nearHotspot) == punished + [0];
    forall i | 0 <= i < 4
      ensures punished[i] == (if canMove(Relative(facing, i)) then CanMoveValue else 0)
              + (if Slot(target) == i then Reward else 0)
              + (if nearPellet.Some? && Slot(nearPellet.value) == i then Reward else 0)
              - (if nearHotspot.Some? && Slot(nearHotspot.value) == i then Penalty else 0)
    {
      BaseAt(canMove, facing, i);
      ThreeAdjustmentsAt(b, target, nearPellet, nearHotspot, i);
    }
  }

  /** Slot `i` of the base values is 75 exactly when relative move `i` is legal. */
  lemma BaseAt(canMove: Direction -> bool, facing: Direction, i: nat)
    requires i < 4
    ensures Base(canMove, facing)[i] == if canMove(Relative(facing, i)) then CanMoveValue else 0
  {
  }

  /** Slot `i` after the three adjustments of lines 129-160. */
  lemma ThreeAdjustmentsAt(b: seq<int>, target: Direction,
                           nearPellet: Option<Direction>, nearHotspot: Option<Direction>, i: nat)
    requires |b| == 4 && i < 4
    ensures var rewarded := Adjust(b, Some(target), Reward);
      var fed := Adjust(rewarded, nearPellet, Reward);
      Adjust(fed, nearHotspot, -Penalty)[i] == b[i]
        + (if Slot(target) == i then Reward else 0)
        + (if nearPellet.Some? && Slot(nearPellet.value) == i then Reward else 0)
        - (if nearHotspot.Some? && Slot(nearHotspot.value) == i then Penalty else 0)
  {
    var rewarded := Adjust(b, Some(target), Reward);
    var fed := Adjust(rewarded, nearPellet, Reward);
    AdjustAt(b, Some(target), Reward, i);
    AdjustAt(rewarded, nearPellet, Reward, i);
    AdjustAt(fed, nearHotspot, -Penalty, i);
  }

  /** A chain changes at most one slot, and only by its own amount. */
  lemma AdjustChangesAtMostOne(v: seq<int>, d: Option<Direction>, delta: int)
    requires |v| == 4
    ensures var r := Adjust(v, d, delta);
      (forall i, j :: 0 <= i < j < 4 ==> r[i] == v[i] || r[j] == v[j]) &&
      (forall i :: 0 <= i < 4 ==> r[i] == v[i] || r[i] == v[i] + delta)
  {
  }

  /** With every move legal, no pellet next to the agent and no hotspot next
      to it, the slot of the target direction is 0.85 and the others 0.75. */
  lemma LoneTargetReward(canMove: Direction -> bool, facing: Direction, target: Direction)
    requires forall d :: canMove(d)
    ensures Inputs(canMove, facing, target, None, None)
         == [75, 75, 75, 75, 0][Slot(target) := 85]
  {
  }
}
