/**
 Weighted scores with missing data (btx_platform/intelligence.py), over exact reals.

 A factor without a normalised value is missing; rounding is to the nearest, ties to even.
 */
module Scores {
  import opened Common

  /******* Rounding *******/

  function RoundHalfEven(x: real): int {
    var low := x.Floor;
    var part := x - low as real;
    if part < 0.5 || (part == 0.5 && low % 2 == 0) then low else low + 1
  }

  function Round2(x: real): real { RoundHalfEven(x * 100.0) as real / 100.0 }

  function Round4(x: real): real { RoundHalfEven(x * 10000.0) as real / 10000.0 }

  lemma RoundIsMonotone(x: real, y: real)
    requires x <= y
    ensures RoundHalfEven(x) <= RoundHalfEven(y)
  {
    if x.Floor == y.Floor {
    } else {
      assert x.Floor + 1 <= y.Floor;
    }
  }

  /** To the nearest, and halfway to the even one. */
  lemma RoundIsNearest(x: real)
    ensures -0.5 <= RoundHalfEven(x) as real - x <= 0.5
    ensures RoundHalfEven(x) as real - x in {-0.5, 0.5} ==> RoundHalfEven(x) % 2 == 0
  {
  }

  lemma RoundKeepsGrid(n: int)
    ensures RoundHalfEven(n as real) == n
  {
  }

  lemma Round4IsMonotone(x: real, y: real)
    requires x <= y
    ensures Round4(x) <= Round4(y)
  {
    RoundIsMonotone(x * 10000.0, y * 10000.0);
  }

  lemma Round2IsMonotone(x: real, y: real)
    requires x <= y
    ensures Round2(x) <= Round2(y)
  {
    RoundIsMonotone(x * 100.0, y * 100.0);
  }

  /** A percentage to two digits is a hundred times the fraction to four. */
  lemma RoundPercent(x: real)
    ensures Round2(x * 100.0) == 100.0 * Round4(x)
  {
    assert x * 100.0 * 100.0 == x * 10000.0;
  }

  /******* Factors *******/

  datatype Factor = Factor(key: string, weight: real, normalized: Option<real>)

  /** The points a known factor adds. */
  function Contribution(f: Factor): real
    requires f.normalized.Some?
  {
    Round4(Points(f.normalized.value, f.weight))
  }

  function Points(value: real, weight: real): real { value * weight * 100.0 }

  /** What a factor adds to the known weight, and to the points. */
  function WeightPart(f: Factor): real { if f.normalized.Some? then f.weight else 0.0 }

  function PointPart(f: Factor): real { if f.normalized.Some? then Contribution(f) else 0.0 }

  function Sum(factors: seq<Factor>, part: Factor -> real): real {
    if factors == [] then 0.0 else Sum(factors[..|factors| - 1], part) + part(factors[|factors| - 1])
  }

  function KnownWeight(factors: seq<Factor>): real { Sum(factors, WeightPart) }

  function Total(factors: seq<Factor>): real { Sum(factors, PointPart) }

  /** Part by part no larger, a sum is no larger. */
  lemma {:induction false} SumIsMonotone(fs: seq<Factor>, gs: seq<Factor>, part: Factor -> real, part': Factor -> real)
    requires |fs| == |gs| && forall i :: 0 <= i < |fs| ==> part(fs[i]) <= part'(gs[i])
    ensures Sum(fs, part) <= Sum(gs, part')
  {
    if fs != [] {
      SumIsMonotone(fs[..|fs| - 1], gs[..|gs| - 1], part, part');
    }
  }

  lemma {:induction false} SumOfZeros(fs: seq<Factor>, part: Factor -> real)
    requires forall i :: 0 <= i < |fs| ==> part(fs[i]) == 0.0
    ensures Sum(fs, part) == 0.0
  {
    if fs != [] {
      SumOfZeros(fs[..|fs| - 1], part);
    }
  }

  lemma {:induction false} SumTimesHundred(fs: seq<Factor>, part: Factor -> real, full: Factor -> real)
    requires forall f :: full(f) == part(f) * 100.0
    ensures Sum(fs, full) == Sum(fs, part) * 100.0
  {
    if fs != [] {
      SumTimesHundred(fs[..|fs| - 1], part, full);
    }
  }

  function Completeness(factors: seq<Factor>): real { Round4(KnownWeight(factors)) }

  /** Six digits after the point at most, so that a full contribution is not rounded up. */
  predicate OnGrid(weight: real) { (weight * 1000000.0).Floor as real == weight * 1000000.0 }

  predicate FactorOk(f: Factor) {
    && 0.0 <= f.weight && OnGrid(f.weight)
    && (f.normalized.Some? ==> 0.0 <= f.normalized.value <= 1.0)
  }

  predicate FactorsOk(factors: seq<Factor>) { forall i :: 0 <= i < |factors| ==> FactorOk(factors[i]) }

  predicate SomeKnown(factors: seq<Factor>) { exists i :: 0 <= i < |factors| && factors[i].normalized.Some? }

  /******* Results *******/

  datatype Status = Available | Provisional | Disqualified | InsufficientData
  datatype Rules = Rules(hardGates: seq<string>, minimum: real, force: Option<Status>)
  datatype Result = Result(score: Option<real>, status: Status, completeness: real)

  const STANDARD := Rules([], 0.60, None)

  function ScoreStatus(rules: Rules, completeness: real): Status {
    if rules.force.Some? then rules.force.value
    else if rules.hardGates != [] then Disqualified
    else if completeness >= rules.minimum then Available
    else InsufficientData
  }

  function ScoreResult(factors: seq<Factor>, rules: Rules): Result {
    var completeness := Completeness(factors);
    var status := ScoreStatus(rules, completeness);
    Result(if status != InsufficientData && SomeKnown(factors) then Some(Round2(Total(factors)))
           else None, status, completeness)
  }

  /** The result as the code adds it up, factor by factor. */
  method ComputeScoreResult(factors: seq<Factor>, rules: Rules) returns (r: Result)
    ensures r == ScoreResult(factors, rules)
  {
    var known, sum, any := 0.0, 0.0, false;
    for i := 0 to |factors|
      invariant known == KnownWeight(factors[..i]) && sum == Total(factors[..i])
      invariant any <==> SomeKnown(factors[..i])
    {
      ghost var before, after := factors[..i], factors[..i + 1];
      assert after[..i] == before;
      if factors[i].normalized.Some? {
        known, sum, any := known + factors[i].weight, sum + Contribution(factors[i]), true;
        assert after[i].normalized.Some?;
      } else {
        assert forall j :: 0 <= j < |after| && after[j].normalized.Some? ==> after[j] == before[j];
        assert forall j :: 0 <= j < |before| ==> before[j] == after[j];
      }
    }
    assert factors[..|factors|] == factors;
    var completeness := Round4(known);
    var status := ScoreStatus(rules, completeness);
    r := Result(if status != InsufficientData && any then Some(Round2(sum)) else None, status, completeness);
  }

  /******* Bounds *******/

  lemma PointsAreMonotone(a: real, b: real, weight: real)
    requires a <= b && 0.0 <= weight
    ensures Points(a, weight) <= Points(b, weight)
  {
    assert (b - a) * weight >= 0.0;
  }

  lemma ContributionIsBounded(f: Factor)
    requires FactorOk(f) && f.normalized.Some?
    ensures 0.0 <= Contribution(f) <= f.weight * 100.0
  {
    PointsAreMonotone(0.0, f.normalized.value, f.weight);
    PointsAreMonotone(f.normalized.value, 1.0, f.weight);
    assert Points(0.0, f.weight) == 0.0 && Points(1.0, f.weight) == f.weight * 100.0;
    Round4IsMonotone(0.0, Points(f.normalized.value, f.weight));
    Round4IsMonotone(Points(f.normalized.value, f.weight), f.weight * 100.0);
    assert f.weight * 100.0 * 10000.0 == f.weight * 1000000.0;
    RoundKeepsGrid((f.weight * 1000000.0).Floor);
    RoundKeepsGrid(0);
  }

  lemma TotalIsBounded(factors: seq<Factor>)
    requires FactorsOk(factors)
    ensures 0.0 <= Total(factors) <= KnownWeight(factors) * 100.0
  {
    var zero, full := (f: Factor) => 0.0, (f: Factor) => WeightPart(f) * 100.0;
    forall i | 0 <= i < |factors|
      ensures 0.0 <= PointPart(factors[i]) <= full(factors[i])
    {
      if factors[i].normalized.Some? {
        ContributionIsBounded(factors[i]);
      }
    }
    SumIsMonotone(factors, factors, PointPart, full);
    SumIsMonotone(factors, factors, zero, PointPart);
    SumOfZeros(factors, zero);
    SumTimesHundred(factors, WeightPart, full);
  }

  /** Any score lies between nothing and a hundred points for the share of the weights that is known. */
  lemma ScoreIsBounded(factors: seq<Factor>, rules: Rules)
    requires FactorsOk(factors) && ScoreResult(factors, rules).score.Some?
    ensures 0.0 <= ScoreResult(factors, rules).score.value <= 100.0 * ScoreResult(factors, rules).completeness
  {
    TotalIsBounded(factors);
    Round2IsMonotone(0.0, Total(factors));
    Round2IsMonotone(Total(factors), KnownWeight(factors) * 100.0);
    RoundPercent(KnownWeight(factors));
    RoundKeepsGrid(0);
  }

  /******* Monotone in every factor *******/

  /** The same factor with a value where there was one, and no smaller. */
  predicate AtLeast(g: Factor, f: Factor) {
    g.weight == f.weight && (f.normalized.Some? ==> g.normalized.Some? && f.normalized.value <= g.normalized.value)
  }

  predicate AllAtLeast(gs: seq<Factor>, fs: seq<Factor>) {
    |gs| == |fs| && forall i :: 0 <= i < |fs| ==> AtLeast(gs[i], fs[i])
  }

  predicate NonNegative(factors: seq<Factor>) {
    forall i :: 0 <= i < |factors| ==>
      0.0 <= factors[i].weight && (factors[i].normalized.Some? ==> 0.0 <= factors[i].normalized.value)
  }

  lemma ContributionIsNonNegative(f: Factor)
    requires 0.0 <= f.weight && f.normalized.Some? && 0.0 <= f.normalized.value
    ensures 0.0 <= Contribution(f)
  {
    PointsAreMonotone(0.0, f.normalized.value, f.weight);
    Round4IsMonotone(0.0, Points(f.normalized.value, f.weight));
    RoundKeepsGrid(0);
  }

  lemma ContributionIsMonotone(g: Factor, f: Factor)
    requires 0.0 <= f.weight && AtLeast(g, f) && f.normalized.Some?
    ensures Contribution(f) <= Contribution(g)
  {
    PointsAreMonotone(f.normalized.value, g.normalized.value, f.weight);
    Round4IsMonotone(Points(f.normalized.value, f.weight), Points(g.normalized.value, g.weight));
  }

  lemma SumsAreMonotone(gs: seq<Factor>, fs: seq<Factor>)
    requires NonNegative(gs) && AllAtLeast(gs, fs)
    ensures KnownWeight(fs) <= KnownWeight(gs) && Total(fs) <= Total(gs)
  {
    forall i | 0 <= i < |fs|
      ensures WeightPart(fs[i]) <= WeightPart(gs[i]) && PointPart(fs[i]) <= PointPart(gs[i])
    {
      assert AtLeast(gs[i], fs[i]);
      if fs[i].normalized.Some? {
        ContributionIsMonotone(gs[i], fs[i]);
      } else if gs[i].normalized.Some? {
        ContributionIsNonNegative(gs[i]);
      }
    }
    SumIsMonotone(fs, gs, WeightPart, WeightPart);
    SumIsMonotone(fs, gs, PointPart, PointPart);
  }

  /**
   For any weights and values that are not negative, raising known factors or learning missing ones never lowers
   completeness, never loses a score and never lowers it.
   */
  lemma ScoreIsMonotone(gs: seq<Factor>, fs: seq<Factor>, rules: Rules)
    requires NonNegative(gs) && AllAtLeast(gs, fs)
    ensures var r, s := ScoreResult(fs, rules), ScoreResult(gs, rules);
            && r.completeness <= s.completeness
            && (r.status == Available ==> s.status == Available)
            && (r.score.Some? ==> s.score.Some? && r.score.value <= s.score.value)
  {
    SumsAreMonotone(gs, fs);
    Round4IsMonotone(KnownWeight(fs), KnownWeight(gs));
    Round2IsMonotone(Total(fs), Total(gs));
    if SomeKnown(fs) {
      var i :| 0 <= i < |fs| && fs[i].normalized.Some?;
      assert AtLeast(gs[i], fs[i]);
    }
  }

  /******* A family with no source connected *******/

  function Missing(weights: seq<(string, real)>): seq<Factor> {
    seq(|weights|, i requires 0 <= i < |weights| => Factor(weights[i].0, weights[i].1, None))
  }

  function InsufficientScore(weights: seq<(string, real)>): Result {
    ScoreResult(Missing(weights), Rules([], 1.0, None))
  }

  /** Whatever its weights, a family without sources has no score. */
  lemma InsufficientHasNoScore(weights: seq<(string, real)>)
    ensures InsufficientScore(weights) == Result(None, InsufficientData, 0.0)
  {
    SumOfZeros(Missing(weights), WeightPart);
    RoundKeepsGrid(0);
  }
}
