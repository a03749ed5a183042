/**
 * Frame times: Unity's Time.deltaTime of successive frames, never negative.
 */
module Clock {

  /** The total of a run of frame times. */
  function Sum(dts: seq<real>): real
  {
    if |dts| == 0 then 0.0 else dts[0] + Sum(dts[1..])
  }

  predicate NonNegativeTimes(dts: seq<real>)
  {
    forall i :: 0 <= i < |dts| ==> dts[i] >= 0.0
  }

  lemma TailNonNegative(dts: seq<real>)
    requires |dts| > 0 && NonNegativeTimes(dts)
    ensures dts[0] >= 0.0 && NonNegativeTimes(dts[1..])
  {
    forall i | 0 <= i < |dts[1..]| ensures dts[1..][i] >= 0.0 {
      assert dts[1..][i] == dts[i + 1];
    }
  }

  lemma {:induction false} SumNonNegative(dts: seq<real>)
    requires NonNegativeTimes(dts)
    ensures Sum(dts) >= 0.0
    decreases |dts|
  {
    if |dts| > 0 {
      TailNonNegative(dts);
      SumNonNegative(dts[1..]);
    }
  }
}
