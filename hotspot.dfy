/** Lines 148-151: the tick counter and the hotspot memory it samples into.
    Every 100th counted tick, the agent's tile is remembered for good. */
module Hotspot {
  import opened Int32
  import opened Geometry

  const Cadence: int := 100

  datatype Sampler = Sampler(frameCounter: i32, hotspot: seq<Coord>)

  /** One counted tick on `tile`. Java's `%` truncates towards zero, but a
      remainder is 0 under both that and Dafny's rule at the same values. */
  function Sample(s: Sampler, tile: Coord): (r: Sampler)
    ensures s.hotspot <= r.hotspot && |r.hotspot| <= |s.hotspot| + 1
  {
    var counter := Inc(s.frameCounter);
    Sampler(counter, if counter as int % Cadence == 0 then s.hotspot + [tile] else s.hotspot)
  }

  /** The counter grows by one (as a Java int); the memory keeps what it had
      and gains the tile exactly when the new count is a multiple of 100. */
  lemma SampleMeaning(s: Sampler, tile: Coord)
    ensures var s' := Sample(s, tile);
      s'.frameCounter == Inc(s.frameCounter) &&
      s.hotspot <= s'.hotspot &&
      (s'.hotspot == s.hotspot + [tile] <==> s'.frameCounter as int % Cadence == 0) &&
      (s'.hotspot == s.hotspot <==> s'.frameCounter as int % Cadence != 0)
  {
  }

  /** A run of counted ticks on the given tiles, one per tick. */
  function SampleRun(s: Sampler, tiles: seq<Coord>): Sampler
    decreases |tiles|
  {
    if tiles == [] then s else SampleRun(Sample(s, tiles[0]), tiles[1..])
  }

  lemma {:induction false} SampleRunSplit(s: Sampler, a: seq<Coord>, b: seq<Coord>)
    ensures SampleRun(s, a + b) == SampleRun(SampleRun(s, a), b)
    decreases |a|
  {
    if a != [] {
      assert (a + b)[1..] == a[1..] + b;
      SampleRunSplit(Sample(s, a[0]), a[1..], b);
    } else {
      assert a + b == b;
    }
  }

  /** Without wrap-around, a run of n ticks advances the counter by n, only
      appends to the memory, and appends one tile per multiple of 100 passed. */
  lemma {:induction false} SampleRunCount(s: Sampler, tiles: seq<Coord>)
    requires 0 <= s.frameCounter as int && s.frameCounter as int + |tiles| <= MAX
    ensures var s' := SampleRun(s, tiles);
      var c := s.frameCounter as int;
      s'.frameCounter as int == c + |tiles| &&
      s.hotspot <= s'.hotspot &&
      |s'.hotspot| == |s.hotspot| + (c + |tiles|) / Cadence - c / Cadence
    decreases |tiles|
  {
    if tiles != [] {
      var c := s.frameCounter as int;
      var s1 := Sample(s, tiles[0]);
      SampleRunCount(s1, tiles[1..]);
      if (c + 1) % Cadence == 0 {
        assert (c + 1) / Cadence == c / Cadence + 1;
      } else {
        assert (c + 1) / Cadence == c / Cadence;
      }
    }
  }

  /** A run that passes no multiple of 100 leaves the memory as it was. */
  lemma QuietRun(s: Sampler, tiles: seq<Coord>)
    requires 0 <= s.frameCounter as int && s.frameCounter as int + |tiles| <= MAX
    requires (s.frameCounter as int + |tiles|) / Cadence == s.frameCounter as int / Cadence
    ensures SampleRun(s, tiles) == Sampler(s.frameCounter + |tiles| as i32, s.hotspot)
  {
    SampleRunCount(s, tiles);
  }

  lemma DivOfOffset(k: nat, r: nat)
    requires r < Cadence
    ensures (k * Cadence + r) / Cadence == k
  {
  }

  /** A hundred ticks starting on a multiple of 100 remember only the tile
      of the last one. */
  lemma HundredTicks(s: Sampler, tiles: seq<Coord>)
    requires 0 <= s.frameCounter as int && s.frameCounter as int + 100 <= MAX
    requires s.frameCounter as int % Cadence == 0 && |tiles| == 100
    ensures SampleRun(s, tiles) == Sampler(s.frameCounter + 100, s.hotspot + [tiles[99]])
  {
    var quiet, last := tiles[..99], tiles[99];
    assert tiles == quiet + [last];
    SampleRunSplit(s, quiet, [last]);
    var f := s.frameCounter as int;
    assert (f + 99) / Cadence == f / Cadence by {
      DivOfOffset(f / Cadence, 99);
    }
    QuietRun(s, quiet);
    var q := SampleRun(s, quiet);
    assert SampleRun(q, [last]) == Sample(q, last);
    assert (q.frameCounter as int + 1) % Cadence == 0;
  }

  /** Three runs in a row are one run over the three tile sequences. */
  lemma ThreeRuns(s: Sampler, a: seq<Coord>, b: seq<Coord>, c: seq<Coord>)
    ensures SampleRun(s, a + b + c) == SampleRun(SampleRun(SampleRun(s, a), b), c)
  {
    SampleRunSplit(s, a + b, c);
    SampleRunSplit(s, a, b);
  }

  /** From a fresh counter, 250 ticks remember exactly two tiles: those of
      the 100th and the 200th tick. */
  lemma FreshTwoHundredFifty(tiles: seq<Coord>)
    requires |tiles| == 250
    ensures SampleRun(Sampler(0, []), tiles).hotspot == [tiles[99], tiles[199]]
  {
    var a, b, c := tiles[..100], tiles[100..200], tiles[200..];
    assert tiles == a + b + c;
    var s0 := Sampler(0, []);
    ThreeRuns(s0, a, b, c);
    HundredTicks(s0, a);
    var s1 := SampleRun(s0, a);
    assert s1.frameCounter == 100 && s1.hotspot == [tiles[99]];
    HundredTicks(s1, b);
    var s2 := SampleRun(s1, b);
    assert s2.frameCounter == 200 && s2.hotspot == [tiles[99], tiles[199]];
    QuietRun(s2, c);
  }
}
