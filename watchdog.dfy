/** The two stall watchdogs of lines 55-82. Each one watches the level
    score; when it stops changing for too long, `kill()` fires. */
module Watchdog {
  import opened Int32

  /** Watchdog A trips after more than 40 seconds at 60 ticks per second. */
  const LimitA: int := 60 * 40
  /** Watchdog B trips after more than 15 seconds at 60 ticks per second. */
  const LimitB: int := 60 * 15

  datatype WatchA = WatchA(previousScore: i32, framesSinceScoreUpdate: i32)
  datatype WatchB = WatchB(lastScore: i32, lastScoreUpdate: i32)

  /** Lines 55-66: the new state of watchdog A and whether it fired `kill()`. */
  function StepA(w: WatchA, score: i32): (r: (WatchA, bool))
    ensures r.0.previousScore == score
    ensures r.1 ==> score == w.previousScore && r.0.framesSinceScoreUpdate == 0
  {
    var counted :=
      if w.previousScore != score then WatchA(score, 0)
      else WatchA(w.previousScore, Inc(w.framesSinceScoreUpdate));
    if counted.framesSinceScoreUpdate as int > LimitA then (WatchA(counted.previousScore, 0), true)
    else (counted, false)
  }

  /** Lines 72-82: the new state of watchdog B and whether it fired `kill()`.
      The counter is post-incremented, so it is compared before and counted
      after, on every call. */
  function StepB(w: WatchB, score: i32): (r: (WatchB, bool))
    ensures r.0.lastScore == if score > w.lastScore then score else w.lastScore
    ensures r.1 ==> score <= w.lastScore
  {
    var reset := if score > w.lastScore then WatchB(score, 0) else w;
    (WatchB(reset.lastScore, Inc(reset.lastScoreUpdate)), reset.lastScoreUpdate as int > LimitB)
  }

  predicate ValidA(w: WatchA) {
    0 <= w.framesSinceScoreUpdate as int <= LimitA
  }

  /** Watchdog A restarts on ANY change of the score, up or down; otherwise it
      counts modulo 2401, firing exactly when it wraps from 2400 to 0. */
  lemma StepAMeaning(w: WatchA, score: i32)
    requires ValidA(w)
    ensures var (w', killed) := StepA(w, score);
      ValidA(w') && w'.previousScore == score &&
      (score != w.previousScore ==> w'.framesSinceScoreUpdate == 0 && !killed) &&
      (score == w.previousScore ==>
        w'.framesSinceScoreUpdate as int == (w.framesSinceScoreUpdate as int + 1) % (LimitA + 1) &&
        (killed <==> w.framesSinceScoreUpdate as int == LimitA))
  {
  }

  /** Watchdog B restarts only on a strict increase, and then ends the tick at
      1; otherwise it fires exactly when its old count exceeds 900, and counts
      one more (wrapping as a Java int) whether it fires or not. */
  lemma StepBMeaning(w: WatchB, score: i32)
    ensures var (w', killed) := StepB(w, score);
      (score > w.lastScore ==> w' == WatchB(score, 1) && !killed) &&
      (score <= w.lastScore ==>
        w'.lastScore == w.lastScore &&
        w'.lastScoreUpdate == Inc(w.lastScoreUpdate) &&
        (killed <==> w.lastScoreUpdate as int > LimitB))
  {
  }

  /** Watchdog A over a run of ticks: its final state and how often it fired. */
  function RunA(w: WatchA, scores: seq<i32>): (WatchA, nat)
    decreases |scores|
  {
    if scores == [] then (w, 0)
    else
      var (w1, killed) := StepA(w, scores[0]);
      var (w2, kills) := RunA(w1, scores[1..]);
      (w2, kills + if killed then 1 else 0)
  }

  /** Watchdog B over a run of ticks: its final state and how often it fired. */
  function RunB(w: WatchB, scores: seq<i32>): (WatchB, nat)
    decreases |scores|
  {
    if scores == [] then (w, 0)
    else
      var (w1, killed) := StepB(w, scores[0]);
      var (w2, kills) := RunB(w1, scores[1..]);
      (w2, kills + if killed then 1 else 0)
  }

  /** While the score stands still, watchdog A fires once every 2401 ticks. */
  lemma {:induction false} StalledA(w: WatchA, scores: seq<i32>)
    requires ValidA(w)
    requires forall i :: 0 <= i < |scores| ==> scores[i] == w.previousScore
    ensures RunA(w, scores).0.previousScore == w.previousScore
    ensures RunA(w, scores).0.framesSinceScoreUpdate as int
         == (w.framesSinceScoreUpdate as int + |scores|) % (LimitA + 1)
    ensures RunA(w, scores).1 == (w.framesSinceScoreUpdate as int + |scores|) / (LimitA + 1)
    decreases |scores|
  {
    if scores != [] {
      var f := w.framesSinceScoreUpdate as int;
      var n := |scores|;
      var (w1, killed) := StepA(w, scores[0]);
      assert w1.previousScore == w.previousScore;
      assert killed <==> f == LimitA;
      assert w1.framesSinceScoreUpdate as int == if f == LimitA then 0 else f + 1;
      assert forall i :: 0 <= i < n - 1 ==> scores[1..][i] == scores[i + 1];
      StalledA(w1, scores[1..]);
      var rest := RunA(w1, scores[1..]);
      assert RunA(w, scores) == (rest.0, rest.1 + if killed then 1 else 0);
      AdvanceOne(f, n - 1);
    }
  }

  /** The counter arithmetic of one stalled tick followed by `m` more. */
  lemma AdvanceOne(f: int, m: nat)
    requires 0 <= f <= LimitA
    ensures var g := if f == LimitA then 0 else f + 1;
      (g + m) % (LimitA + 1) == (f + 1 + m) % (LimitA + 1) &&
      (g + m) / (LimitA + 1) + (if f == LimitA then 1 else 0) == (f + 1 + m) / (LimitA + 1)
  {
    if f == LimitA {
      WrapOnce(m);
    }
  }

  lemma WrapOnce(a: nat)
    ensures (a + LimitA + 1) / (LimitA + 1) == 1 + a / (LimitA + 1)
    ensures (a + LimitA + 1) % (LimitA + 1) == a % (LimitA + 1)
  {
  }

  function Max0(x: int): nat {
    if x < 0 then 0 else x
  }

  /** While the score does not rise, watchdog B counts every tick and fires on
      each tick whose old count is above 900 (no wrap-around within the run). */
  lemma {:induction false} StalledB(w: WatchB, scores: seq<i32>)
    requires 0 <= w.lastScoreUpdate as int && w.lastScoreUpdate as int + |scores| <= MAX
    requires forall i :: 0 <= i < |scores| ==> scores[i] <= w.lastScore
    ensures var (w', kills) := RunB(w, scores);
      var u := w.lastScoreUpdate as int;
      w'.lastScore == w.lastScore &&
      w'.lastScoreUpdate as int == u + |scores| &&
      kills == Max0(u + |scores| - (LimitB + 1)) - Max0(u - (LimitB + 1))
    decreases |scores|
  {
    if scores != [] {
      var (w1, killed) := StepB(w, scores[0]);
      StalledB(w1, scores[1..]);
    }
  }

  /** After the tick on which the score rose, watchdog B first fires on the
      901st tick without a rise, and on every such tick after that. */
  lemma FirstTripB(score: i32, scores: seq<i32>)
    requires 1 + |scores| <= MAX
    requires forall i :: 0 <= i < |scores| ==> scores[i] <= score
    ensures RunB(WatchB(score, 1), scores).1 == Max0(|scores| - LimitB)
  {
    StalledB(WatchB(score, 1), scores);
  }
}
