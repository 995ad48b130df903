/** `TournamentBehavior`: the per-tick movement decision of the Pac-Man
    agent. The game side of a tick is a snapshot; the behaviour's own state
    lives in the class and, as a value, in `Memory`. */
module Behavior {
  import opened Wrappers
  import opened Int32
  import opened Geometry
  import opened Maze
  import opened Target
  import opened Features
  import opened Selection
  import opened Watchdog
  import opened Hotspot

  /** What one tick reads from the game: the level score, the maze, the
      agent's tile and facing, its move legality, and the network. */
  datatype Snapshot = Snapshot(
    score: i32,
    grid: Grid,
    tile: Coord,
    facing: Direction,
    canMove: Direction -> bool,
    scorer: seq<int> -> seq<real>)

  datatype Memory = Memory(watchA: WatchA, watchB: WatchB, sampler: Sampler)

  /** The move returned, or the exception thrown instead, and whether
      `kill()` fired during the tick (before any exception). */
  datatype Outcome = Outcome(killed: bool, result: Result<Direction>)

  datatype Tick = Tick(next: Memory, outcome: Outcome)

  /** The state of a newly constructed behaviour (lines 23-34). */
  const Fresh: Memory := Memory(WatchA(0, 0), WatchB(0, 0), Sampler(0, []))

  /** Whether watchdog B ends the tick early (lines 79-82). */
  predicate Stalls(m: Memory, s: Snapshot) {
    StepB(m.watchB, s.score).1
  }

  /** Lines 85-97: `pelletDirection`, null when no tile holds a pellet. */
  function PelletDirectionOf(s: Snapshot): Option<Direction> {
    match FirstPellet(s.grid)
    case None => None
    case Some(p) => Some(TargetDirection(s.grid, p, s.tile, s.facing))
  }

  /** Whether the tick gets past the switch of line 129 to the counting of
      line 148. */
  predicate Reaches(m: Memory, s: Snapshot) {
    !Stalls(m, s) && PelletDirectionOf(s).Some?
  }

  /** The inputs passed to the network, given the memory after sampling. */
  function TickInputs(sampled: Sampler, s: Snapshot, target: Direction): seq<int> {
    Inputs(s.canMove, s.facing, target, NearPellet(s.grid, s.tile), NearHotspot(sampled.hotspot, s.tile))
  }

  /** One call of `getDirection(Entity)`, on values. */
  function Decide(m: Memory, s: Snapshot): (t: Tick)
    ensures t.next.watchA.previousScore == s.score
    ensures m.sampler.hotspot <= t.next.sampler.hotspot
    ensures t.outcome.killed ==> StepA(m.watchA, s.score).1 || Stalls(m, s)
  {
    var (a, killedA) := StepA(m.watchA, s.score);
    var (b, stalled) := StepB(m.watchB, s.score);
    if stalled then Tick(Memory(a, b, m.sampler), Outcome(true, Ok(RIGHT)))
    else
      match PelletDirectionOf(s)
      case None => Tick(Memory(a, b, m.sampler), Outcome(killedA, Err(NullPointer)))
      case Some(target) =>
        var sampled := Sample(m.sampler, s.tile);
        var outputs := s.scorer(TickInputs(sampled, s, target));
        Tick(Memory(a, b, sampled), Outcome(killedA, Select(s.facing, outputs)))
  }

  /** Both watchdogs run on every tick, and `kill()` fires exactly when one
      of them trips. */
  lemma DecideRunsWatchdogs(m: Memory, s: Snapshot)
    ensures var t := Decide(m, s);
      t.next.watchA == StepA(m.watchA, s.score).0 &&
      t.next.watchB == StepB(m.watchB, s.score).0 &&
      (t.outcome.killed <==> StepA(m.watchA, s.score).1 || StepB(m.watchB, s.score).1)
  {
  }

  /** A trip of watchdog B returns the absolute RIGHT and leaves the tick
      counter and the hotspot memory untouched. */
  lemma StallReturnsRight(m: Memory, s: Snapshot)
    requires Stalls(m, s)
    ensures Decide(m, s).outcome == Outcome(true, Ok(RIGHT))
    ensures Decide(m, s).next.sampler == m.sampler
  {
  }

  /** A maze without pellets makes the switch of line 129 throw, before the
      tick counter and the hotspot memory are touched. */
  lemma NoPelletThrows(m: Memory, s: Snapshot)
    requires !Stalls(m, s)
    requires forall e :: InBounds(s.grid, e) ==> !HasPellet(At(s.grid, e))
    ensures Decide(m, s).outcome.result == Err(NullPointer)
    ensures Decide(m, s).next.sampler == m.sampler
  {
    FirstPelletIsFirst(s.grid);
  }

  /** The tick counter moves exactly on the ticks that reach line 148, and
      the hotspot memory only ever grows, by the current tile, exactly when
      the new count is a multiple of 100. */
  lemma DecideSamples(m: Memory, s: Snapshot)
    ensures var t := Decide(m, s);
      t.next.sampler == (if Reaches(m, s) then Sample(m.sampler, s.tile) else m.sampler) &&
      m.sampler.hotspot <= t.next.sampler.hotspot &&
      (t.next.sampler.hotspot != m.sampler.hotspot <==>
        Reaches(m, s) && Inc(m.sampler.frameCounter) as int % Cadence == 0)
  {
    SampleMeaning(m.sampler, s.tile);
  }

  /** A counted tick returns the relative move of the first maximal output:
      forward, left, right or behind of the facing at call time. */
  lemma DecideMovesRelative(m: Memory, s: Snapshot)
    requires Reaches(m, s)
    ensures var outputs := s.scorer(TickInputs(Sample(m.sampler, s.tile), s, PelletDirectionOf(s).value));
      |outputs| > 0 && ArgMax(outputs) < 4 ==>
        Decide(m, s).outcome.result == Ok(Relative(s.facing, ArgMax(outputs)))
  {
  }

  /** A trip of watchdog A only fires `kill()`: whatever watchdog A's state,
      the tick returns the same move and samples the same hotspot memory. */
  lemma WatchdogADoesNotSteer(m: Memory, s: Snapshot, w: WatchA)
    ensures Decide(m.(watchA := w), s).outcome.result == Decide(m, s).outcome.result
    ensures Decide(m.(watchA := w), s).next.sampler == Decide(m, s).next.sampler
  {
  }

  /** A network stubbed to score only candidate k makes a counted tick return
      the k-th relative move. */
  lemma StubbedScorerRoundTrip(m: Memory, s: Snapshot, k: nat)
    requires k < 4
    requires Reaches(m, s)
    requires forall v :: s.scorer(v) == OneHot(k)
    ensures Decide(m, s).outcome.result == Ok(Relative(s.facing, k))
  {
    OneHotSelectsItsMove(s.facing, k);
  }

  /** A counted tick throws exactly when the network returns no output or its
      first maximum lies past the fourth output. */
  lemma DecideThrowsOnBadOutput(m: Memory, s: Snapshot)
    requires Reaches(m, s)
    ensures var outputs := s.scorer(TickInputs(Sample(m.sampler, s.tile), s, PelletDirectionOf(s).value));
      var r := Decide(m, s).outcome.result;
      (|outputs| == 0 ==> r == Err(ArrayIndexOutOfBounds)) &&
      (|outputs| > 0 && ArgMax(outputs) >= 4 ==> r == Err(IllegalState(ArgMax(outputs)))) &&
      (r.Err? <==> |outputs| == 0 || ArgMax(outputs) >= 4)
  {
  }

  /** With every move legal and no pellet or hotspot next to the agent, the
      inputs credit 0.85 to the slot of the target direction and 0.75 to the
      other three, and the fifth is 0. */
  lemma CountedTickInputs(m: Memory, s: Snapshot)
    requires Reaches(m, s)
    requires forall d :: s.canMove(d)
    requires forall d :: !HasPellet(At(s.grid, Neighbor(s.tile, d)))
    requires forall d :: Neighbor(s.tile, d) !in m.sampler.hotspot
    ensures var target := PelletDirectionOf(s).value;
      TickInputs(Sample(m.sampler, s.tile), s, target) == [75, 75, 75, 75, 0][Slot(target) := 85]
  {
  }

  /** Lines 116-126: 0.75 for each relative move the agent can make. */
  method MoveBases(s: Snapshot) returns (v: seq<int>)
    ensures v == Base(s.canMove, s.facing)
  {
    var forward, left, right, behind := s.facing, Left(s.facing), Right(s.facing), Behind(s.facing);
    var canMoveForward := if s.canMove(forward) then CanMoveValue else 0;
    var canMoveLeft := if s.canMove(left) then CanMoveValue else 0;
    var canMoveRight := if s.canMove(right) then CanMoveValue else 0;
    var canMoveBehind := if s.canMove(behind) then CanMoveValue else 0;
    v := [canMoveForward, canMoveLeft, canMoveRight, canMoveBehind];
  }

  /** Lines 128-134: the reward towards the (non-null) target direction. */
  method RewardTarget(v: seq<int>, target: Direction) returns (r: seq<int>)
    requires |v| == 4
    ensures r == Adjust(v, Some(target), Reward)
  {
    var canMoveForward, canMoveLeft, canMoveRight, canMoveBehind := v[0], v[1], v[2], v[3];
    match target {
      case UP => canMoveForward := canMoveForward + Reward;
      case DOWN => canMoveBehind := canMoveBehind + Reward;
      case LEFT => canMoveLeft := canMoveLeft + Reward;
      case RIGHT => canMoveRight := canMoveRight + Reward;
    }
    r := [canMoveForward, canMoveLeft, canMoveRight, canMoveBehind];
  }

  /** Lines 136-145: the reward for the first neighbour holding a pellet. */
  method RewardNearPellet(g: Grid, tile: Coord, v: seq<int>) returns (r: seq<int>)
    requires |v| == 4
    ensures r == Adjust(v, NearPellet(g, tile), Reward)
  {
    var canMoveForward, canMoveLeft, canMoveRight, canMoveBehind := v[0], v[1], v[2], v[3];
    if HasPellet(At(g, Neighbor(tile, UP))) {
      canMoveForward := canMoveForward + Reward;
    } else if HasPellet(At(g, Neighbor(tile, DOWN))) {
      canMoveBehind := canMoveBehind + Reward;
    } else if HasPellet(At(g, Neighbor(tile, LEFT))) {
      canMoveLeft := canMoveLeft + Reward;
    } else if HasPellet(At(g, Neighbor(tile, RIGHT))) {
      canMoveRight := canMoveRight + Reward;
    }
    r := [canMoveForward, canMoveLeft, canMoveRight, canMoveBehind];
  }

  /** Lines 152-160: the penalty for the first neighbour remembered as a
      hotspot. */
  method PunishHotspot(hotspot: seq<Coord>, tile: Coord, v: seq<int>) returns (r: seq<int>)
    requires |v| == 4
    ensures r == Adjust(v, NearHotspot(hotspot, tile), -Penalty)
  {
    var canMoveForward, canMoveLeft, canMoveRight, canMoveBehind := v[0], v[1], v[2], v[3];
    if Neighbor(tile, UP) in hotspot {
      canMoveForward := canMoveForward - Penalty;
    } else if Neighbor(tile, DOWN) in hotspot {
      canMoveBehind := canMoveBehind - Penalty;
    } else if Neighbor(tile, LEFT) in hotspot {
      canMoveLeft := canMoveLeft - Penalty;
    } else if Neighbor(tile, RIGHT) in hotspot {
      canMoveRight := canMoveRight - Penalty;
    }
    r := [canMoveForward, canMoveLeft, canMoveRight, canMoveBehind];
  }

  class TournamentBehavior {
    var previousScore: i32
    var framesSinceScoreUpdate: i32
    var lastScoreUpdate: i32
    var lastScore: i32
    var hotspot: seq<Coord>
    var frameCounter: i32

    function State(): Memory
      reads this
    {
      Memory(WatchA(previousScore, framesSinceScoreUpdate),
             WatchB(lastScore, lastScoreUpdate),
             Sampler(frameCounter, hotspot))
    }

    /** Watchdog A's counter stays within 0..2400. */
    predicate Valid()
      reads this
    {
      ValidA(State().watchA)
    }

    constructor ()
      ensures Valid() && State() == Fresh
    {
      previousScore, framesSinceScoreUpdate := 0, 0;
      lastScoreUpdate, lastScore := 0, 0;
      hotspot := [];
      frameCounter := 0;
    }

    /** Lines 55-66. */
    method RunWatchdogA(newScore: i32) returns (killed: bool)
      modifies this`previousScore, this`framesSinceScoreUpdate
      ensures (State().watchA, killed) == StepA(old(State().watchA), newScore)
    {
      if previousScore != newScore {
        previousScore := newScore;
        framesSinceScoreUpdate := 0;
      } else {
        framesSinceScoreUpdate := Inc(framesSinceScoreUpdate);
      }
      killed := false;
      if framesSinceScoreUpdate as int > LimitA {
        killed := true;
        framesSinceScoreUpdate := 0;
      }
    }

    /** Lines 72-79: `stalled` is the comparison of the post-increment. */
    method RunWatchdogB(latestScore: i32) returns (stalled: bool)
      modifies this`lastScore, this`lastScoreUpdate
      ensures (State().watchB, stalled) == StepB(old(State().watchB), latestScore)
    {
      if latestScore > lastScore {
        lastScore := latestScore;
        lastScoreUpdate := 0;
      }
      stalled := lastScoreUpdate as int > LimitB;
      lastScoreUpdate := Inc(lastScoreUpdate);
    }

    /** Lines 148-151. */
    method CountFrame(currentPosition: Coord)
      modifies this`frameCounter, this`hotspot
      ensures State().sampler == Sample(old(State().sampler), currentPosition)
    {
      frameCounter := Inc(frameCounter);
      if frameCounter as int % Cadence == 0 {
        hotspot := hotspot + [currentPosition];
      }
    }

    /** `getDirection(Entity)` (lines 49-190). */
    method GetDirection(s: Snapshot) returns (o: Outcome)
      requires Valid()
      modifies this
      ensures Valid()
      ensures old(hotspot) <= hotspot
      ensures Tick(State(), o) == Decide(old(State()), s)
    {
      ghost var m := State();
      StepAMeaning(m.watchA, s.score);
      var killed := RunWatchdogA(s.score);
      var stalled := RunWatchdogB(s.score);
      if stalled {
        return Outcome(true, Ok(RIGHT));
      }
      var result := Steer(s, m);
      o := Outcome(killed, result);
    }

    /** Lines 85-190, once watchdog B has let the tick through: the move or
        the exception, and the sampling of line 148 on the way. */
    method Steer(s: Snapshot, ghost m: Memory) returns (result: Result<Direction>)
      requires !Stalls(m, s) && State().sampler == m.sampler
      modifies this`frameCounter, this`hotspot
      ensures State().sampler == Decide(m, s).next.sampler
      ensures result == Decide(m, s).outcome.result
    {
      SampleMeaning(State().sampler, s.tile);
      var pelletDirection: Option<Direction> := None;
      var pellet := FindFirstPellet(s.grid);
      if pellet.Some? {
        var d := PelletDirection(s.grid, pellet.value, s.tile, s.facing);
        pelletDirection := Some(d);
      }
      if pelletDirection.None? {
        // the switch of line 129 over a null enum value
        return Err(NullPointer);
      }

      var bases := MoveBases(s);
      var rewarded := RewardTarget(bases, pelletDirection.value);
      var fed := RewardNearPellet(s.grid, s.tile, rewarded);
      CountFrame(s.tile);
      var punished := PunishHotspot(hotspot, s.tile, fed);
      var fifth := FifthInput(pelletDirection);
      var inputs := punished + [fifth.value];
      assert inputs == TickInputs(State().sampler, s, pelletDirection.value);
      var outputs := s.scorer(inputs);
      var index := ArgMaxIndex(outputs);
      match index {
        case Err(e) => return Err(e);
        case Ok(i) => return ToDirection(s.facing, i);
      }
    }
  }
}
