# TournamentBehavior: the per-tick decision of a Pac-Man agent

This project models `TournamentBehavior`, the object that chooses the
Pac-Man's move on every game tick, and proves what it does. One call of
`getDirection(Entity)` runs these steps in order:

1. Two stall watchdogs update. Either may fire `kill()`. Watchdog B, when it
   fires, returns the absolute `RIGHT` at once.
2. A row-major scan finds the first tile holding a pellet or a power pellet.
   A minimum squared-distance search turns that tile into `pelletDirection`.
3. Four network inputs are assembled: 0.75 per legal relative move (forward,
   left, right, behind), +0.10 towards `pelletDirection`, +0.10 for the first
   neighbour holding a pellet, and −0.35 for the first neighbour remembered
   as a hotspot. The fifth input is 0.
4. Every 100th counted tick, the current tile is appended to the hotspot
   memory. The memory is never pruned.
5. The NEAT network scores the inputs. The first maximal output picks
   forward, left, right or behind.

The behaviour's state is the class `Behavior.TournamentBehavior`, with the
source's fields. Its method `GetDirection` mirrors the source statement by
statement, with loops for the scans. It is proved equal to the value-level
function `Behavior.Decide`, and the lemmas about `Decide` and its parts carry
the properties. Three exceptions are modelled as `Err` results:

- a Java `switch` over a null `pelletDirection` (line 129);
- `outputs[0]` on an empty output array (line 175);
- an arg-max index outside 0..3 (line 188).

`kill()` is reported as the `killed` flag of the outcome.

Modelling conventions:
- Java `int` fields and scores are the newtype `Int32.i32`. Their `++` wraps
  around (`Int32.Inc`).
- Feature values are exact integer hundredths: 75, +10, −35. The
  `direction2float` codes are 100..400.
- Network outputs are reals.
- `Direction.java` is not part of this model. Its declaration order UP, DOWN,
  LEFT, RIGHT, its vectors (UP = +y) and its rotations (`left()` turns
  counter-clockwise) are assumptions stated in `Geometry`.
- The maze is a width, a height, a total function from integer coordinates to
  tile states, and a passability predicate. A tile's neighbour is its
  coordinate plus the direction vector.
- The hotspot list holds tiles. The model assumes that a tile is identified
  by its position: either the maze holds one tile object per coordinate, or
  `Tile.equals` compares positions. Under that assumption,
  `hotspot.contains(tile)` is membership of the coordinate.
- One tile coordinate of the agent stands for both `getTilePosition()`
  (line 100) and the truncated `getPosition().div(TILE_SIZE)` (line 205).
- The score is read twice (lines 55 and 72). The model takes one score per
  tick.

## Behaviour worth noting

- Watchdog A restarts on any change of the score, up or down
  (`Watchdog.StepAMeaning`).
- Watchdog B's counter is post-incremented on every call. It therefore ends a
  tick on which the score rose at 1, and it goes on counting on a trip tick
  (`Watchdog.StepBMeaning`).
- A trip of watchdog A only fires `kill()`: the move returned and the hotspot
  memory are what they would have been without it
  (`Behavior.WatchdogADoesNotSteer`).
- The direction search compares with `<=`, so the last of several
  equally near directions is kept (`Target.TargetDirectionIsNearest`).
- The fifth input is 0 on every tick that reaches line 168: `direction2float`
  is only called when `pelletDirection` is null, and a switch over null
  throws (`Features.FifthInput`).
- A maze without pellets makes the tick throw at the switch of line 129
  (`Behavior.NoPelletThrows`).

## Model

All source cells refer to `core/src/main/java/com/buaisociety/pacman/entity/behavior/TournamentBehavior.java`.

| member | source | states |
|---|---|---|
| Geometry.RelativeIndex | core/src/main/java/com/buaisociety/pacman/entity/behavior/TournamentBehavior.java:117-120 | every direction is one of forward, left, right, behind of any facing, and this gives which one |
| Geometry.RelativeIsBijection | core/src/main/java/com/buaisociety/pacman/entity/behavior/TournamentBehavior.java:117-120 | the four relative moves are pairwise distinct, and `RelativeIndex` inverts `Relative` |
| Maze.HasPellet | core/src/main/java/com/buaisociety/pacman/entity/behavior/TournamentBehavior.java:241-243 | a tile counts as holding a pellet exactly when its state is PELLET or POWER_PELLET |
| Maze.FirstPelletIsFirst | core/src/main/java/com/buaisociety/pacman/entity/behavior/TournamentBehavior.java:85-97 | the scan stops at an in-bounds pellet or power-pellet tile with no such tile before it in row-major order (y outer, x inner); it finds nothing exactly when no tile holds one |
| Maze.FindFirstPellet | core/src/main/java/com/buaisociety/pacman/entity/behavior/TournamentBehavior.java:87-97 | the nested loops with the found flag and `break` compute exactly the row-major scan |
| Target.TargetDirection | core/src/main/java/com/buaisociety/pacman/entity/behavior/TournamentBehavior.java:193-218 | the helper returns either the facing or a direction whose neighbour of the pellet tile is passable |
| Target.PickUpToMeaning | core/src/main/java/com/buaisociety/pacman/entity/behavior/TournamentBehavior.java:195-212 | after k directions, `temp` is null iff none had a passable neighbour, with `smallest` still Integer.MAX_VALUE; otherwise `temp` is a candidate of minimal distance, the last one so far, and `smallest` is its distance |
| Target.TargetDirectionIsNearest | core/src/main/java/com/buaisociety/pacman/entity/behavior/TournamentBehavior.java:193-218 | only directions whose neighbour of the pellet tile is passable count; the result has minimal squared distance from agent tile plus direction vector to the pellet, later candidates at the same distance win, and with no candidate the facing is returned |
| Target.PelletDirection | core/src/main/java/com/buaisociety/pacman/entity/behavior/TournamentBehavior.java:193-218 | the loop over `Direction.values()` with `continue` computes exactly that direction |
| Int32.Inc | core/src/main/java/com/buaisociety/pacman/entity/behavior/TournamentBehavior.java:60 | the `++` of lines 60, 79 and 148 adds one to an int below Integer.MAX_VALUE and turns Integer.MAX_VALUE into Integer.MIN_VALUE |
| Int32.Narrow | core/src/main/java/com/buaisociety/pacman/entity/behavior/TournamentBehavior.java:206 | the `(int)` cast leaves values within int range unchanged and otherwise agrees with the value modulo 2^32 |
| Features.FirstMatch | core/src/main/java/com/buaisociety/pacman/entity/behavior/TournamentBehavior.java:137-145 | an else-if chain picks the first of UP, DOWN, LEFT, RIGHT whose condition holds, and picks none exactly when none holds |
| Features.AdjustChangesAtMostOne | core/src/main/java/com/buaisociety/pacman/entity/behavior/TournamentBehavior.java:137-160 | a reward or penalty chain changes at most one input, and only by its own amount |
| Features.Inputs | core/src/main/java/com/buaisociety/pacman/entity/behavior/TournamentBehavior.java:162-169 | the network receives five inputs, and the fifth is 0 |
| Features.InputsDecomposed | core/src/main/java/com/buaisociety/pacman/entity/behavior/TournamentBehavior.java:122-169 | each of the first four inputs is 75 if the relative move is legal (else 0), plus 10 for the target slot, plus 10 for the first pellet neighbour's slot, minus 35 for the first hotspot neighbour's slot (UP→forward, DOWN→behind, LEFT→left, RIGHT→right); the fifth input is 0 |
| Features.LoneTargetReward | core/src/main/java/com/buaisociety/pacman/entity/behavior/TournamentBehavior.java:123-145 | with every move legal and no pellet or hotspot next to the agent, the target's slot is 85 and the other three are 75 |
| Features.DirectionCode | core/src/main/java/com/buaisociety/pacman/entity/behavior/TournamentBehavior.java:220-239 | UP, DOWN, LEFT, RIGHT code as 1.0, 2.0, 3.0, 4.0; a null direction throws in the switch |
| Features.FifthInput | core/src/main/java/com/buaisociety/pacman/entity/behavior/TournamentBehavior.java:168 | the fifth input is 0 whenever a pellet direction is known and throws when it is null: it never carries a direction code |
| Selection.Select | core/src/main/java/com/buaisociety/pacman/entity/behavior/TournamentBehavior.java:174-189 | the only exceptions of the selection are ArrayIndexOutOfBounds and IllegalStateException |
| Selection.ArgMaxIsFirstMaximum | core/src/main/java/com/buaisociety/pacman/entity/behavior/TournamentBehavior.java:174-181 | the strict `>` scan returns an index of a maximal output with every earlier output strictly smaller, i.e. the first maximum |
| Selection.TieGoesToFirst | core/src/main/java/com/buaisociety/pacman/entity/behavior/TournamentBehavior.java:174-181 | the outputs [0.5, 0.5, 0.1, 0.1] select index 0 |
| Selection.ArgMaxIndex | core/src/main/java/com/buaisociety/pacman/entity/behavior/TournamentBehavior.java:174-181 | the loop updating `index` and `max` computes that index; an empty output array throws at `outputs[0]` |
| Selection.ToDirection | core/src/main/java/com/buaisociety/pacman/entity/behavior/TournamentBehavior.java:183-189 | indices 0, 1, 2, 3 give facing, left, right, behind; any other index is an IllegalStateException carrying it |
| Selection.OneHotSelectsItsMove | core/src/main/java/com/buaisociety/pacman/entity/behavior/TournamentBehavior.java:174-189 | outputs scoring only candidate k select the k-th relative move |
| Selection.SelectIsRelative | core/src/main/java/com/buaisociety/pacman/entity/behavior/TournamentBehavior.java:174-189 | a successful selection is exactly the relative move `Relative(facing, i)` for the first maximal index i, which is then below 4; selection fails exactly on empty outputs or a first maximum past the fourth output |
| Watchdog.StepA | core/src/main/java/com/buaisociety/pacman/entity/behavior/TournamentBehavior.java:55-66 | watchdog A always records the new score, and it fires `kill()` only on an unchanged score, leaving its counter at 0 |
| Watchdog.StepAMeaning | core/src/main/java/com/buaisociety/pacman/entity/behavior/TournamentBehavior.java:55-66 | any change of the score (also a decrease) records it and restarts the counter with no kill; an unchanged score advances the counter modulo 2401, firing `kill()` exactly when the counter was at 2400; the counter stays within 0..2400 |
| Watchdog.StalledA | core/src/main/java/com/buaisociety/pacman/entity/behavior/TournamentBehavior.java:55-66 | over n ticks of unchanged score the counter ends at (c + n) mod 2401 and `kill()` fires (c + n) div 2401 times |
| Watchdog.StepB | core/src/main/java/com/buaisociety/pacman/entity/behavior/TournamentBehavior.java:72-82 | watchdog B keeps the greater of the recorded and the new score, and it trips only when the score did not rise |
| Watchdog.StepBMeaning | core/src/main/java/com/buaisociety/pacman/entity/behavior/TournamentBehavior.java:72-82 | only a strict increase records the score, and the counter then ends the tick at 1 with no trip; otherwise the trip happens exactly when the old counter exceeds 900, and the counter is incremented (as a Java int) either way |
| Watchdog.StalledB | core/src/main/java/com/buaisociety/pacman/entity/behavior/TournamentBehavior.java:72-82 | over n ticks without a rise the counter ends at u + n and watchdog B trips once for every tick whose old count exceeds 900 |
| Watchdog.FirstTripB | core/src/main/java/com/buaisociety/pacman/entity/behavior/TournamentBehavior.java:72-82 | after an increase tick, n ticks without a rise trip watchdog B max(0, n − 900) times: first on the 901st tick, then on every tick |
| Hotspot.Sample | core/src/main/java/com/buaisociety/pacman/entity/behavior/TournamentBehavior.java:148-151 | a counted tick keeps the old hotspot memory as a prefix and adds at most one tile |
| Hotspot.SampleMeaning | core/src/main/java/com/buaisociety/pacman/entity/behavior/TournamentBehavior.java:148-151 | a counted tick increments the counter and appends the current tile exactly when the new count is a multiple of 100; the memory never loses anything |
| Hotspot.SampleRunCount | core/src/main/java/com/buaisociety/pacman/entity/behavior/TournamentBehavior.java:148-151 | n counted ticks from count c advance the counter by n, only append, and append (c + n) div 100 − c div 100 tiles |
| Hotspot.FreshTwoHundredFifty | core/src/main/java/com/buaisociety/pacman/entity/behavior/TournamentBehavior.java:148-151 | 250 counted ticks from a fresh instance remember exactly the tiles of the 100th and the 200th tick |
| Behavior.Decide | core/src/main/java/com/buaisociety/pacman/entity/behavior/TournamentBehavior.java:49-190 | one tick records its score in watchdog A, only ever appends to the hotspot memory, and fires `kill()` only when watchdog A or watchdog B trips |
| Behavior.DecideRunsWatchdogs | core/src/main/java/com/buaisociety/pacman/entity/behavior/TournamentBehavior.java:55-82 | both watchdogs update on every tick, and `kill()` fires exactly when one of them trips |
| Behavior.WatchdogADoesNotSteer | core/src/main/java/com/buaisociety/pacman/entity/behavior/TournamentBehavior.java:63-66 | watchdog A's state, and so its `kill()`, has no effect on the move returned or the exception thrown, nor on the tick counter and hotspot memory |
| Behavior.StallReturnsRight | core/src/main/java/com/buaisociety/pacman/entity/behavior/TournamentBehavior.java:79-82 | a trip of watchdog B fires `kill()`, returns the absolute RIGHT and leaves the tick counter and hotspot memory unchanged |
| Behavior.NoPelletThrows | core/src/main/java/com/buaisociety/pacman/entity/behavior/TournamentBehavior.java:85-134 | with no pellet in the maze the switch over the null direction throws, leaving the tick counter and hotspot memory unchanged |
| Behavior.DecideSamples | core/src/main/java/com/buaisociety/pacman/entity/behavior/TournamentBehavior.java:147-151 | the counter advances exactly on ticks that reach line 148; the memory only grows, and it grows exactly on those ticks whose new count is a multiple of 100 |
| Behavior.DecideMovesRelative | core/src/main/java/com/buaisociety/pacman/entity/behavior/TournamentBehavior.java:147-189 | on a tick that reaches line 148, if the network returns outputs whose first maximum is at index i below 4, the move is `Relative(facing, i)`: forward, left, right or behind of the facing at call time for i = 0, 1, 2, 3 |
| Behavior.StubbedScorerRoundTrip | core/src/main/java/com/buaisociety/pacman/entity/behavior/TournamentBehavior.java:162-189 | a network stubbed to return the k-th unit vector makes a counted tick return forward, left, right or behind for k = 0, 1, 2, 3 |
| Behavior.DecideThrowsOnBadOutput | core/src/main/java/com/buaisociety/pacman/entity/behavior/TournamentBehavior.java:170-189 | a counted tick throws ArrayIndexOutOfBounds on empty outputs and IllegalState on a first maximum past index 3, and in no other case |
| Behavior.CountedTickInputs | core/src/main/java/com/buaisociety/pacman/entity/behavior/TournamentBehavior.java:122-169 | with all moves legal and no pellet or hotspot next to the agent, the network receives 0.85 for the target's slot, 0.75 for the others and 0 as the fifth input |
| Behavior.MoveBases | core/src/main/java/com/buaisociety/pacman/entity/behavior/TournamentBehavior.java:117-126 | the four `canMove` tests give the base inputs |
| Behavior.RewardTarget | core/src/main/java/com/buaisociety/pacman/entity/behavior/TournamentBehavior.java:128-134 | the switch over the target direction adds the reward to its slot |
| Behavior.RewardNearPellet | core/src/main/java/com/buaisociety/pacman/entity/behavior/TournamentBehavior.java:136-145 | the else-if chain over the neighbours adds the reward for the first one holding a pellet |
| Behavior.PunishHotspot | core/src/main/java/com/buaisociety/pacman/entity/behavior/TournamentBehavior.java:152-160 | the else-if chain over the neighbours subtracts the penalty for the first one in the hotspot memory |
| Behavior.TournamentBehavior.constructor | core/src/main/java/com/buaisociety/pacman/entity/behavior/TournamentBehavior.java:23-39 | a new behaviour starts with all counters and scores at 0 and an empty hotspot memory |
| Behavior.TournamentBehavior.RunWatchdogA | core/src/main/java/com/buaisociety/pacman/entity/behavior/TournamentBehavior.java:55-66 | the field updates of watchdog A are those of `StepA` |
| Behavior.TournamentBehavior.RunWatchdogB | core/src/main/java/com/buaisociety/pacman/entity/behavior/TournamentBehavior.java:72-79 | the field updates of watchdog B, with the post-increment, are those of `StepB` |
| Behavior.TournamentBehavior.CountFrame | core/src/main/java/com/buaisociety/pacman/entity/behavior/TournamentBehavior.java:148-151 | the field updates of the tick counter and the hotspot list are those of `Sample` |
| Behavior.TournamentBehavior.Steer | core/src/main/java/com/buaisociety/pacman/entity/behavior/TournamentBehavior.java:85-190 | once watchdog B lets the tick through, the scans, the input assembly, the sampling and the selection give exactly the move and the sampler of `Decide` |
| Behavior.TournamentBehavior.GetDirection | core/src/main/java/com/buaisociety/pacman/entity/behavior/TournamentBehavior.java:49-190 | one call updates the fields and returns the outcome exactly as `Decide` says, keeps watchdog A's counter within 0..2400, and keeps the old hotspot list as a prefix |

## Left out

- `Calculator.calculate(...).join()` (line 170): the NEAT network behind an
  asynchronous future is a function field of the snapshot, from the input
  array to the output array. Its internals and the waiting are not modelled.
- Floating point: inputs are exact hundredths and outputs are reals. IEEE
  rounding of `.75f + .10`, NaN outputs and the float/double widening are
  not modelled.
- Maze.java, Tile.java, TileState.java, LevelManager.java and
  PacmanEntity.java are not part of this model. They are replaced by the
  abstract grid, the passability predicate, the agent tile, the facing and
  the `canMove` predicate of the snapshot.
- `Tile.getNeighbor` at the maze edge (wrap-around tunnels, out-of-range
  tiles) is not modelled: a neighbour is always the adjacent coordinate.
- JOML's `div(Maze.TILE_SIZE)` with truncation (line 205) is not modelled:
  the agent's tile coordinate is an input. `distanceSquared` is taken as
  exact; only the `(int)` cast of its result is modelled.
- Line 205 calls JOML's one-argument `div`, which divides a vector in place.
  If `getPosition()` returned the entity's own position vector, every
  passable direction would rescale that position again. The model assumes it
  returns a copy: the agent's tile is one fixed coordinate for the whole
  tick, and the position is never changed by the behaviour.
- `Direction.java` is not part of this model: the enumeration order, the
  vectors and the rotations are stated assumptions.
- `pacman.kill()` is the `killed` flag only. Its effects on the game are not
  modelled.
- The lazy cast of lines 51-53 and the unused fields `scoreModifier` and
  `lastPosition` have no behaviour to model. Neither does the commented-out
  code of lines 106-112 and 167.
- Watchdog.StalledB: assumes the counter does not wrap past 2^31 − 1 within
  the run, because the count of trips is stated without wrap-around. The
  single-tick `StepBMeaning` does include the wrap.
- Watchdog.FirstTripB: same assumption as `StalledB`.
- Hotspot.SampleRunCount: assumes the tick counter does not wrap within the
  run. The single-tick `SampleMeaning` does include the wrap.
