/** What the scores come to, in numbers (btx_platform/intelligence.py). */
module ScoreLaws {
  import opened Common
  import opened Identity
  import opened Relationships
  import opened Scores
  import opened Attractiveness

  /******* Rounding *******/

  /** The number of units nearest to the amount, and the even one halfway. */
  predicate NearestUnits(n: int, amount: real) {
    -0.5 <= n as real - amount <= 0.5 && (n as real - amount in {-0.5, 0.5} ==> n % 2 == 0)
  }

  ghost predicate IsRounded(value: real, amount: real) {
    exists n :: NearestUnits(n, amount) && value == n as real
  }

  /** Two digits are hundredths and four digits ten-thousandths, the nearest ones. */
  lemma RoundingLaw(x: real)
    ensures IsRounded(Round2(x) * 100.0, x * 100.0)
    ensures IsRounded(Round4(x) * 10000.0, x * 10000.0)
  {
    UnitsLaw(x * 100.0);
    UnitsLaw(x * 10000.0);
    assert Round2(x) * 100.0 == RoundHalfEven(x * 100.0) as real;
    assert Round4(x) * 10000.0 == RoundHalfEven(x * 10000.0) as real;
  }

  lemma UnitsLaw(amount: real)
    ensures NearestUnits(RoundHalfEven(amount), amount)
  {
    RoundIsNearest(amount);
  }

  /******* Results *******/

  /** A further factor adds its weight and its rounded percentage of it if it is known, and nothing if it is not. */
  lemma FactorLaw(factors: seq<Factor>, f: Factor)
    ensures KnownWeight([]) == 0.0 && Total([]) == 0.0
    ensures KnownWeight(factors + [f]) == KnownWeight(factors) + if f.normalized == None then 0.0 else f.weight
    ensures Total(factors + [f])
         == Total(factors) + if f.normalized == None then 0.0 else Round4(Points(f.normalized.value, f.weight))
    ensures f.normalized.Some? ==> Points(f.normalized.value, f.weight) == 100.0 * (f.normalized.value * f.weight)
  {
    assert (factors + [f])[..|factors|] == factors;
  }

  /**
   A forced status wins, then a failed gate, then the share of known weight; without enough of it there is no
   score.
   */
  lemma ResultLaw(factors: seq<Factor>, rules: Rules)
    ensures var r := ScoreResult(factors, rules);
            && r.completeness == Round4(KnownWeight(factors))
            && (rules.force.Some? ==> r.status == rules.force.value)
            && (rules.force.None? && |rules.hardGates| > 0 ==> r.status == Disqualified)
            && (rules.force.None? && |rules.hardGates| == 0 ==>
                  r.status == if r.completeness >= rules.minimum then Available else InsufficientData)
            && (r.score.Some? <==> r.status in {Available, Provisional, Disqualified}
                                   && exists i :: 0 <= i < |factors| && factors[i].normalized.Some?)
            && (r.score.Some? ==> r.score.value == Round2(Total(factors)))
    ensures ScoreResult(factors, STANDARD).status == if Completeness(factors) >= 0.60 then Available
        else InsufficientData
  {
  }

  /******* Attractiveness *******/

  /** The largest positive figure of the signals that count. */
  ghost predicate LargestFigure(ids: seq<string>, signals: Signals, v: real) {
    && v > 0.0
    && (exists id, i :: id in ids && id in signals && 0 <= i < |signals[id].figures| && signals[id].figures[i] == v)
    && (forall id, i :: id in ids && id in signals && 0 <= i < |signals[id].figures| ==> signals[id].figures[i] <= v)
  }

  ghost predicate NewestSeen(ids: seq<string>, signals: Signals, t: int) {
    && (exists id :: id in ids && id in signals && signals[id].seen == t)
    && (forall id :: id in ids && id in signals ==> signals[id].seen <= t)
  }

  lemma ValueIs(ids: seq<string>, signals: Signals, v: real)
    requires (forall id :: id in ids ==> id in signals) && LargestFigure(ids, signals, v)
    ensures FinancialValue(ids, signals) == Some(v)
  {
    var id, i :| id in ids && id in signals && 0 <= i < |signals[id].figures| && signals[id].figures[i] == v;
    BestFigureIsPositive(signals[id].figures);
    FinancialValueIsLargest(ids, signals, v);
    var found := FinancialValue(ids, signals).value;
    FinancialValueIsLargest(ids, signals, found);
    var other :| other in ids && other in signals && BestFigure(signals[other].figures).Some?
        && BestFigure(signals[other].figures).value >= found;
    BestFigureIsPositive(signals[other].figures);
  }

  lemma SeenIs(ids: seq<string>, signals: Signals, t: int)
    requires (forall id :: id in ids ==> id in signals) && NewestSeen(ids, signals, t)
    ensures Newest(ids, signals) == Some(t)
  {
    NewestIsLargest(ids, signals, t);
    NewestIsLargest(ids, signals, Newest(ids, signals).value);
  }

  function Least(a: real, b: real): real { if a < b then a else b }

  function Most(a: real, b: real): real { if a < b then b else a }

  /**
   The score of an account whose text names some capabilities and whose counting signals carry money: 25 points for a
   quarter of each capability up to four, 20 for the curve of the largest figure up to one, 15 for the decay of the
   newest signal's age but at least a fifth, and 7 for having signals, each rounded to four digits and the sum to two.
   */
  lemma AttractivenessIs(c: Curves, rows: seq<RelRow>, signals: Signals, tenant: string, account: AccountId,
                         matches: nat,
                         now: int, v: real, t: int)
    requires CurvesOk(c) && matches > 0
    requires LargestFigure(ConfirmedSignals(rows, signals, tenant, account), signals, v)
    requires NewestSeen(ConfirmedSignals(rows, signals, tenant, account), signals, t)
    ensures var age := if now > t then now - t else 0;
            AccountAttractiveness(c, rows, signals, tenant, account, matches, now)
            == Result(Some(Round2(Round4(Least(1.0, matches as real / 4.0) * 0.25 * 100.0)
                                  + Round4(Least(1.0, c.financial(v)) * 0.20 * 100.0)
                                  + Round4(Most(0.2, c.decay(age)) * 0.15 * 100.0)
                                  + Round4(0.7 * 0.10 * 100.0))), Available, 0.70)
  {
    var ids := ConfirmedSignals(rows, signals, tenant, account);
    ConfirmedAreStored(rows, signals, tenant, account);
    ValueIs(ids, signals, v);
    SeenIs(ids, signals, t);
    assert ids != [];
    CurvesAre(c, matches, now, v, t);
    FactorsScore(Capability(matches), Financial(c, Some(v)), Recency(c, Some(t), now), Some(0.7));
  }

  lemma CurvesAre(c: Curves, matches: nat, now: int, v: real, t: int)
    requires CurvesOk(c) && matches > 0 && v > 0.0
    ensures Capability(matches) == Some(Least(1.0, matches as real / 4.0))
    ensures Financial(c, Some(v)) == Some(Least(1.0, c.financial(v)))
    ensures Recency(c, Some(t), now) == Some(Most(0.2, c.decay(if now > t then now - t else 0)))
  {
  }

  lemma FactorsScore(a: Option<real>, b: Option<real>, d: Option<real>, e: Option<real>)
    requires a.Some? && b.Some? && d.Some? && e.Some?
    ensures ScoreResult(Factors(a, b, d, e), STANDARD)
         == Result(Some(Round2(Round4(a.value * 0.25 * 100.0) + Round4(b.value * 0.20 * 100.0)
                               + Round4(d.value * 0.15 * 100.0) + Round4(e.value * 0.10 * 100.0))), Available, 0.70)
  {
    var fs := Factors(a, b, d, e);
    EnoughIsKnown(a, b, d, e);
    SumOfSeven(fs, PointPart);
    assert fs[0].normalized.Some?;
  }

  /**
   How much is known about any account: a quarter with a capability, a fifth with money, and a quarter with
   signals.
   */
  lemma CompletenessIs(a: Option<real>, b: Option<real>, d: Option<real>, e: Option<real>)
    ensures Completeness(Factors(a, b, d, e))
         == Round4((if a.Some? then 0.25 else 0.0) + (if b.Some? then 0.20 else 0.0) + (if d.Some? then 0.15 else 0.0)
                   + if e.Some? then 0.10 else 0.0)
  {
    SumOfSeven(Factors(a, b, d, e), WeightPart);
  }
}
