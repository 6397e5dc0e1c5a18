/**
  Compatibility scoring: the distance strategy (linear decay with a
  cutoff) and the scorer that averages its strategies.
*/
module Scoring {
  import opened Geo
  import opened Profiles

  /** The strategies a scorer can hold. The distance strategy is the only
      implementation of `MatchStrategy` in the application. */
  datatype Strategy = DistanceStrategy(maxDistance: Distance)

  /** A usable strategy: a zero maximum would divide 0 by 0. */
  predicate WellFormed(s: Strategy) {
    s.maxDistance.kilometers > 0.0
  }

  /** 1 at distance 0, falling linearly to 0 at `max`, and 0 beyond it. */
  function Decay(km: real, max: real): (v: real)
    requires km >= 0.0 && max > 0.0
    ensures 0.0 <= v <= 1.0
    ensures km > max ==> v == 0.0
  {
    if km > max then 0.0 else 1.0 - km / max
  }

  /** The two ends of the ramp: full score at distance 0, zero exactly at
      the maximum, which is still inside the cutoff. */
  lemma DecayEnds(max: real)
    requires max > 0.0
    ensures Decay(0.0, max) == 1.0 && Decay(max, max) == 0.0
  {
  }

  /** The score never increases as the distance grows, and strictly falls
      while the distance stays within the maximum. */
  lemma DecayIsMonotone(d1: real, d2: real, max: real)
    requires 0.0 <= d1 <= d2 && max > 0.0
    ensures Decay(d2, max) <= Decay(d1, max)
    ensures d1 < d2 <= max ==> Decay(d2, max) < Decay(d1, max)
  {
    if d2 <= max {
      assert d1 / max <= d2 / max by {
        assert d2 / max - d1 / max == (d2 - d1) / max;
      }
      if d1 < d2 {
        assert (d2 - d1) / max > 0.0;
        assert d2 / max - d1 / max == (d2 - d1) / max;
      }
    }
  }

  /** `DistanceStrategy.score(candidate, requester)`: 0 when either
      location is missing or the requester-to-candidate distance exceeds the
      maximum, otherwise the linear decay. */
  function StrategyScore(s: Strategy, candidate: Profile, requester: Profile): (v: real)
    requires WellFormed(s)
    ensures 0.0 <= v <= 1.0
    ensures candidate.location.None? || requester.location.None? ==> v == 0.0
    ensures candidate.location.Some? && requester.location.Some? ==>
      v == Decay(Haversine(requester.location.value, candidate.location.value), s.maxDistance.kilometers)
  {
    if candidate.location.None? || requester.location.None? then 0.0
    else Decay(DistanceTo(requester.location.value, candidate.location.value).kilometers, s.maxDistance.kilometers)
  }

  /** `name()`: every distance strategy is called "distance". */
  function StrategyName(s: Strategy): (n: string)
    ensures s.DistanceStrategy? ==> n == "distance"
  {
    match s
    case DistanceStrategy(_) => "distance"
  }

  /** The scores of the strategies, in list order. */
  function Scores(strategies: seq<Strategy>, candidate: Profile, requester: Profile): (xs: seq<real>)
    requires forall i :: 0 <= i < |strategies| ==> WellFormed(strategies[i])
    ensures |xs| == |strategies|
    ensures forall i :: 0 <= i < |xs| ==> xs[i] == StrategyScore(strategies[i], candidate, requester)
    decreases |strategies|
  {
    if |strategies| == 0 then []
    else [StrategyScore(strategies[0], candidate, requester)] + Scores(strategies[1..], candidate, requester)
  }

  /** Left-to-right sum, as the accumulating loop computes it. */
  function Sum(xs: seq<real>): real
    decreases |xs|
  {
    if |xs| == 0 then 0.0 else Sum(xs[..|xs| - 1]) + xs[|xs| - 1]
  }

  /** The neutral 0.5 for no scores, otherwise the arithmetic mean. */
  function Mean(xs: seq<real>): real {
    if |xs| == 0 then 0.5 else Sum(xs) / (|xs| as real)
  }

  lemma {:induction false} SumBounds(xs: seq<real>)
    requires forall i :: 0 <= i < |xs| ==> 0.0 <= xs[i] <= 1.0
    ensures 0.0 <= Sum(xs) <= |xs| as real
    decreases |xs|
  {
    if |xs| > 0 {
      var init := xs[..|xs| - 1];
      assert forall i :: 0 <= i < |init| ==> init[i] == xs[i];
      SumBounds(init);
    }
  }

  /** When every score is in [0, 1], so is the mean. */
  lemma MeanInUnitInterval(xs: seq<real>)
    requires forall i :: 0 <= i < |xs| ==> 0.0 <= xs[i] <= 1.0
    ensures 0.0 <= Mean(xs) <= 1.0
  {
    if |xs| > 0 {
      SumBounds(xs);
      var n := |xs| as real;
      assert Sum(xs) / n <= n / n;
    }
  }

  /** A single score is its own mean, and 0.8 and 0.4 average to 0.6. */
  lemma MeanExamples(x: real)
    ensures Mean([x]) == x
    ensures Mean([0.8, 0.4]) == 0.6
  {
    assert [x][..0] == [];
    assert Sum([x]) == x;
    assert [0.8, 0.4][..1] == [0.8];
    assert [0.8][..0] == [];
  }

  /** `MatchScorer`: holds an immutable copy of its strategy list. */
  class MatchScorer {
    const strategies: seq<Strategy>

    /** The list is copied: the scorer keeps the value it was given. */
    constructor (strategies: seq<Strategy>)
      ensures this.strategies == strategies
    {
      this.strategies := strategies;
    }

    /** Every strategy has a positive maximum distance. */
    predicate Configured() {
      forall i :: 0 <= i < |strategies| ==> WellFormed(strategies[i])
    }

    /** `score(candidate, requester)`: the mean of the strategy scores, the
        neutral 0.5 with no strategies, and always within [0, 1]. */
    method Score(candidate: Profile, requester: Profile) returns (r: real)
      requires Configured()
      ensures r == Mean(Scores(strategies, candidate, requester))
      ensures 0.0 <= r <= 1.0
      ensures |strategies| == 0 ==> r == 0.5
    {
      var xs := Scores(strategies, candidate, requester);
      MeanInUnitInterval(xs);
      if |strategies| == 0 {
        return 0.5;
      }
      var sum := 0.0;
      var i := 0;
      while i < |strategies|
        invariant 0 <= i <= |strategies|
        invariant sum == Sum(xs[..i])
      {
        assert xs[..i + 1][..i] == xs[..i];
        sum := sum + StrategyScore(strategies[i], candidate, requester);
        i := i + 1;
      }
      assert xs[..i] == xs;
      r := sum / (|strategies| as real);
    }
  }
}
