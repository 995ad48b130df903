/** Lines 172-189: the first maximal network output picks the move, read
    relative to the facing. The network's outputs are Java floats, modelled
    as reals. */
module Selection {
  import opened Wrappers
  import opened Geometry

  /** The arg-max scan's `index` after reading `outputs[0..k]`. */
  function ArgMaxUpTo(outputs: seq<real>, k: nat): (r: nat)
    requires 1 <= k <= |outputs|
    ensures r < k
  {
    if k == 1 then 0
    else
      var index := ArgMaxUpTo(outputs, k - 1);
      if outputs[k - 1] > outputs[index] then k - 1 else index
  }

  function ArgMax(outputs: seq<real>): nat
    requires |outputs| >= 1
  {
    ArgMaxUpTo(outputs, |outputs|)
  }

  /** The strict `>` makes the scan pick the FIRST maximal output. */
  lemma {:induction false} ArgMaxUpToIsFirstMaximum(outputs: seq<real>, k: nat)
    requires 1 <= k <= |outputs|
    ensures var r := ArgMaxUpTo(outputs, k);
      (forall j :: 0 <= j < k ==> outputs[j] <= outputs[r]) &&
      (forall j :: 0 <= j < r ==> outputs[j] < outputs[r])
  {
    if k > 1 {
      ArgMaxUpToIsFirstMaximum(outputs, k - 1);
    }
  }

  lemma ArgMaxIsFirstMaximum(outputs: seq<real>)
    requires |outputs| >= 1
    ensures ArgMax(outputs) < |outputs|
    ensures forall j :: 0 <= j < |outputs| ==> outputs[j] <= outputs[ArgMax(outputs)]
    ensures forall j :: 0 <= j < ArgMax(outputs) ==> outputs[j] < outputs[ArgMax(outputs)]
  {
    ArgMaxUpToIsFirstMaximum(outputs, |outputs|);
  }

  /** A tie between the first two outputs goes to the first. */
  lemma TieGoesToFirst()
    ensures ArgMax([0.5, 0.5, 0.1, 0.1]) == 0
  {
    var v := [0.5, 0.5, 0.1, 0.1];
    ArgMaxIsFirstMaximum(v);
    assert v[0] == 0.5;
  }

  /** Lines 183-189: 0 forward, 1 left, 2 right, 3 behind; any other index
      is an IllegalStateException. */
  function ToDirection(facing: Direction, index: nat): (r: Result<Direction>)
    ensures index < 4 ==> r == Ok(Relative(facing, index))
    ensures index >= 4 ==> r == Err(IllegalState(index))
  {
    match index
    case 0 => Ok(facing)
    case 1 => Ok(Left(facing))
    case 2 => Ok(Right(facing))
    case 3 => Ok(Behind(facing))
    case _ => Err(IllegalState(index))
  }

  /** The move the outputs select; `outputs[0]` throws on an empty array. */
  function Select(facing: Direction, outputs: seq<real>): (r: Result<Direction>)
    ensures r.Err? ==> r.error == ArrayIndexOutOfBounds || r.error.IllegalState?
  {
    if |outputs| == 0 then Err(ArrayIndexOutOfBounds)
    else ToDirection(facing, ArgMax(outputs))
  }

  /** The output vector that scores only candidate `k`. */
  function OneHot(k: nat): (v: seq<real>)
    requires k < 4
    ensures |v| == 4 && v[k] == 1.0
  {
    seq(4, i requires 0 <= i < 4 => if i == k then 1.0 else 0.0)
  }

  /** Scoring only candidate k selects the k-th relative move. */
  lemma OneHotSelectsItsMove(facing: Direction, k: nat)
    requires k < 4
    ensures Select(facing, OneHot(k)) == Ok(Relative(facing, k))
  {
    ArgMaxIsFirstMaximum(OneHot(k));
  }

  /** A successful selection is always one of the four relative moves, and
      it fails exactly when the outputs are empty or the first maximum lies
      beyond the fourth output. */
  lemma SelectIsRelative(facing: Direction, outputs: seq<real>)
    ensures Select(facing, outputs).Ok? ==>
      |outputs| > 0 && ArgMax(outputs) < 4 &&
      Select(facing, outputs) == Ok(Relative(facing, ArgMax(outputs)))
    ensures Select(facing, outputs).Err? <==> |outputs| == 0 || ArgMax(outputs) >= 4
  {
  }

  /** The scan of lines 174-181; `outputs[0]` throws when there is none. */
  method ArgMaxIndex(outputs: seq<real>) returns (r: Result<nat>)
    ensures |outputs| == 0 ==> r == Err(ArrayIndexOutOfBounds)
    ensures |outputs| > 0 ==> r == Ok(ArgMax(outputs))
  {
    if |outputs| == 0 {
      return Err(ArrayIndexOutOfBounds);
    }
    var index := 0;
    var max := outputs[0];
    for i := 1 to |outputs|
      invariant index == ArgMaxUpTo(outputs, i)
      invariant max == outputs[index]
    {
      if outputs[i] > max {
        max := outputs[i];
        index := i;
      }
    }
    return Ok(index);
  }
}
