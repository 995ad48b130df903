/** The private `getDirection(Tile, Entity)` helper: which way to head for
    the pellet tile the scan found. */
module Target {
  import opened Wrappers
  import opened Int32
  import opened Geometry
  import opened Maze

  /** JOML's `distanceSquared`, taken as exact. */
  function SqDist(a: Coord, b: Coord): nat {
    (a.x - b.x) * (a.x - b.x) + (a.y - b.y) * (a.y - b.y)
  }

  /** Line 206: the squared distance from the tile next to the agent in
      direction `d` to the pellet, through the `(int)` cast. */
  function Distance(agent: Coord, pellet: Coord, d: Direction): i32 {
    Narrow(SqDist(Neighbor(agent, d), pellet))
  }

  /** Lines 201-203: a direction is considered only when the pellet tile's
      neighbour in that direction is passable. */
  predicate Candidate(g: Grid, pellet: Coord, d: Direction) {
    g.passable(At(g, Neighbor(pellet, d)))
  }

  /** The loop's locals `temp` and `smallest`. */
  datatype Pick = Pick(temp: Option<Direction>, smallest: i32)

  /** One iteration of the loop of lines 199-212. */
  function Consider(g: Grid, pellet: Coord, agent: Coord, p: Pick, d: Direction): Pick {
    if !Candidate(g, pellet, d) then p
    else if Distance(agent, pellet, d) <= p.smallest then Pick(Some(d), Distance(agent, pellet, d))
    else p
  }

  /** The locals after the first `k` directions of `Direction.values()`. */
  function PickUpTo(g: Grid, pellet: Coord, agent: Coord, k: nat): Pick
    requires k <= |Values|
  {
    if k == 0 then Pick(None, MAX as i32)
    else Consider(g, pellet, agent, PickUpTo(g, pellet, agent, k - 1), Values[k - 1])
  }

  /** Lines 214-217: the chosen direction, or the entity's facing when no
      direction was a candidate; never null. */
  function TargetDirection(g: Grid, pellet: Coord, agent: Coord, facing: Direction): (r: Direction)
    ensures r == facing || Candidate(g, pellet, r)
  {
    PickUpToMeaning(g, pellet, agent, |Values|);
    match PickUpTo(g, pellet, agent, |Values|).temp
    case None => facing
    case Some(d) => d
  }

  /** What the loop's locals mean after `k` directions: `temp` is null until a
      candidate is seen, and `smallest` is then still Integer.MAX_VALUE;
      afterwards `temp` is a candidate at minimal distance, the last one of
      those enumerated so far, and `smallest` is its distance. */
  ghost predicate Chosen(g: Grid, pellet: Coord, agent: Coord, k: nat, p: Pick)
    requires k <= |Values|
  {
    (p.temp.None? <==> forall j :: 0 <= j < k ==> !Candidate(g, pellet, Values[j])) &&
    (p.temp.None? ==> p.smallest as int == MAX) &&
    (p.temp.Some? ==>
      var t := p.temp.value;
      Ordinal(t) < k && Candidate(g, pellet, t) && p.smallest == Distance(agent, pellet, t) &&
      (forall j :: 0 <= j < k && Candidate(g, pellet, Values[j]) ==>
         p.smallest <= Distance(agent, pellet, Values[j])) &&
      (forall j :: Ordinal(t) < j < k && Candidate(g, pellet, Values[j]) ==>
         p.smallest < Distance(agent, pellet, Values[j])))
  }

  /** One iteration of the loop keeps the meaning of its locals. */
  lemma ConsiderKeepsChosen(g: Grid, pellet: Coord, agent: Coord, k: nat, p: Pick)
    requires 1 <= k <= |Values|
    requires Chosen(g, pellet, agent, k - 1, p)
    ensures Chosen(g, pellet, agent, k, Consider(g, pellet, agent, p, Values[k - 1]))
  {
    var d := Values[k - 1];
    assert Ordinal(d) == k - 1;
    if Candidate(g, pellet, d) && Distance(agent, pellet, d) <= p.smallest {
      assert Consider(g, pellet, agent, p, d) == Pick(Some(d), Distance(agent, pellet, d));
    } else {
      assert Consider(g, pellet, agent, p, d) == p;
    }
  }

  lemma {:induction false} PickUpToMeaning(g: Grid, pellet: Coord, agent: Coord, k: nat)
    requires k <= |Values|
    ensures Chosen(g, pellet, agent, k, PickUpTo(g, pellet, agent, k))
  {
    if k > 0 {
      PickUpToMeaning(g, pellet, agent, k - 1);
      ConsiderKeepsChosen(g, pellet, agent, k, PickUpTo(g, pellet, agent, k - 1));
    }
  }

  /** The helper returns the facing when no neighbour of the pellet tile is
      passable; otherwise a candidate whose distance is minimal, and, because
      the comparison is `<=`, the last such one in enumeration order. */
  lemma TargetDirectionIsNearest(g: Grid, pellet: Coord, agent: Coord, facing: Direction)
    ensures var r := TargetDirection(g, pellet, agent, facing);
      ((forall d :: !Candidate(g, pellet, d)) ==> r == facing) &&
      ((exists d :: Candidate(g, pellet, d)) ==>
        Candidate(g, pellet, r) &&
        (forall d :: Candidate(g, pellet, d) ==>
           Distance(agent, pellet, r) <= Distance(agent, pellet, d)) &&
        (forall d :: Candidate(g, pellet, d) && Ordinal(d) > Ordinal(r) ==>
           Distance(agent, pellet, r) < Distance(agent, pellet, d)))
  {
    PickUpToMeaning(g, pellet, agent, |Values|);
    var p := PickUpTo(g, pellet, agent, |Values|);
    if exists d :: Candidate(g, pellet, d) {
      var d :| Candidate(g, pellet, d);
      assert Values[Ordinal(d)] == d;
    } else {
      assert forall j :: 0 <= j < |Values| ==> !Candidate(g, pellet, Values[j]);
    }
    forall d | Candidate(g, pellet, d) && p.temp.Some?
      ensures Distance(agent, pellet, p.temp.value) <= Distance(agent, pellet, d)
      ensures Ordinal(d) > Ordinal(p.temp.value) ==>
                Distance(agent, pellet, p.temp.value) < Distance(agent, pellet, d)
    {
      assert Values[Ordinal(d)] == d;
    }
  }

  /** The loop of lines 193-218 over `DIRECTIONS`. */
  method PelletDirection(g: Grid, pellet: Coord, agent: Coord, facing: Direction)
    returns (r: Direction)
    ensures r == TargetDirection(g, pellet, agent, facing)
  {
    var temp: Option<Direction> := None;
    var smallest: i32 := MAX as i32;
    for i := 0 to |Values|
      invariant Pick(temp, smallest) == PickUpTo(g, pellet, agent, i)
    {
      var direction := Values[i];
      var next := Neighbor(pellet, direction);
      if !g.passable(At(g, next)) {
        continue;
      }
      var distance := Narrow(SqDist(Neighbor(agent, direction), pellet));
      if distance <= smallest {
        smallest := distance;
        temp := Some(direction);
      }
    }
    if temp.None? {
      return facing;
    }
    return temp.value;
  }
}
