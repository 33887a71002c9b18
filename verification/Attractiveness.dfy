/**
 Account attractiveness from confirmed signals (btx_platform/intelligence.py).

 The logarithm and the half-life are given as curves; how many capabilities an account's text names is given as a
 number.
 */
module Attractiveness {
  import opened Common
  import opened Identity
  import opened Relationships
  import RelationshipRuns
  import opened Scores

  datatype RelRow = RelRow(key: RelKey, rel: Rel)

  /** A stored signal: what it is linked to, its money figures, and when it was published or else retrieved. */
  datatype SignalRow = SignalRow(link: Signal, figures: seq<real>, seen: int)

  type Signals = map<string, SignalRow>

  /******* Which signals count *******/

  predicate Eligible(row: RelRow) { row.rel.review == Confirmed && row.rel.confidence >= MINIMUM_CONFIDENCE }

  /** A signal without a subject of its own counts for the account of the relationship. */
  predicate IsConfirmedAccountSignal(signal: Signal, row: RelRow) {
    var account := if signal.subject.Subject? then signal.subject.account else row.key.account;
    && signal.scope.SpecificAccount?
    && row.rel.review == Confirmed && row.rel.confidence >= MINIMUM_CONFIDENCE && row.rel.evidence != []
    && row.key.account == account
  }

  predicate Counts(row: RelRow, signals: Signals, tenant: string, account: AccountId) {
    && row.key.tenant == tenant && row.key.account == account && Eligible(row)
    && row.key.signal in signals && IsConfirmedAccountSignal(signals[row.key.signal].link, row)
  }

  function ConfirmedSignals(rows: seq<RelRow>, signals: Signals, tenant: string, account: AccountId): seq<string> {
    if rows == [] then []
    else
      var last := rows[|rows| - 1];
      ConfirmedSignals(rows[..|rows| - 1], signals, tenant, account)
          + if Counts(last, signals, tenant, account) then [last.key.signal] else []
  }

  /** The query's rows first, and then the check of each against its signal. */
  method ConfirmedSignalsForAccount(rows: seq<RelRow>, signals: Signals, tenant: string, account: AccountId)
      returns (found: seq<string>)
    ensures found == ConfirmedSignals(rows, signals, tenant, account)
  {
    var queried := Query(rows, signals, tenant, account);
    found := [];
    for i := 0 to |queried|
      invariant found == ConfirmedSignals(queried[..i], signals, tenant, account)
    {
      assert queried[..i + 1][..i] == queried[..i];
      var row := queried[i];
      if row.key.signal in signals && IsConfirmedAccountSignal(signals[row.key.signal].link, row) {
        found := found + [row.key.signal];
      }
    }
    assert queried[..|queried|] == queried;
  }

  /** The account's eligible rows, in table order; leaving out the others loses no signal. */
  method Query(rows: seq<RelRow>, ghost signals: Signals, tenant: string, account: AccountId)
      returns (queried: seq<RelRow>)
    ensures forall row :: row in queried ==> row.key.tenant == tenant && row.key.account == account && Eligible(row)
    ensures ConfirmedSignals(queried, signals, tenant, account) == ConfirmedSignals(rows, signals, tenant, account)
  {
    queried := [];
    for i := 0 to |rows|
      invariant ConfirmedSignals(queried, signals, tenant, account)
          == ConfirmedSignals(rows[..i], signals, tenant, account)
      invariant forall row :: row in queried ==> row.key.tenant == tenant && row.key.account == account && Eligible(row)
    {
      assert rows[..i + 1][..i] == rows[..i];
      var row := rows[i];
      if row.key.tenant == tenant && row.key.account == account && Eligible(row) {
        assert (queried + [row])[..|queried|] == queried;
        queried := queried + [row];
      }
    }
    assert rows[..|rows|] == rows;
  }

  /******* What the signals say *******/

  function Larger(a: Option<real>, b: Option<real>): Option<real> {
    if a.None? then b else if b.None? then a else if a.value >= b.value then a else b
  }

  function BestFigure(figures: seq<real>): Option<real> {
    if figures == [] then None
    else
      var last := figures[|figures| - 1];
      Larger(BestFigure(figures[..|figures| - 1]), if last > 0.0 then Some(last) else None)
  }

  /** The largest positive figure of the signals. */
  function FinancialValue(ids: seq<string>, signals: Signals): Option<real>
    requires forall id :: id in ids ==> id in signals
  {
    if ids == [] then None
    else Larger(FinancialValue(ids[..|ids| - 1], signals), BestFigure(signals[ids[|ids| - 1]].figures))
  }

  /** When the newest of the signals was seen. */
  function Newest(ids: seq<string>, signals: Signals): Option<int>
    requires forall id :: id in ids ==> id in signals
  {
    if ids == [] then None
    else
      var seen, newest := signals[ids[|ids| - 1]].seen, Newest(ids[..|ids| - 1], signals);
      if newest.Some? && newest.value >= seen then newest else Some(seen)
  }

  /******* The score *******/

  datatype Curves = Curves(financial: real -> real, decay: int -> real)

  /** What the logarithm and the half-life promise. */
  ghost predicate CurvesOk(c: Curves) {
    && (forall v :: v > 0.0 ==> c.financial(v) > 0.0)
    && (forall u, v :: 0.0 < u <= v ==> c.financial(u) <= c.financial(v))
    && (forall t :: 0 <= t ==> 0.0 < c.decay(t) <= 1.0)
    && (forall s, t :: 0 <= s <= t ==> c.decay(t) <= c.decay(s))
  }

  function Capability(matches: nat): Option<real> {
    if matches == 0 then None else Some(if matches >= 4 then 1.0 else matches as real / 4.0)
  }

  function Financial(c: Curves, value: Option<real>): Option<real> {
    if value.None? || value.value <= 0.0 then None
    else Some(if c.financial(value.value) < 1.0 then c.financial(value.value) else 1.0)
  }

  function Recency(c: Curves, newest: Option<int>, now: int): Option<real> {
    if newest.None? then None
    else
      var recent := c.decay(if now > newest.value then now - newest.value else 0);
      Some(if recent > 0.2 then recent else 0.2)
  }

  function Factors(capability: Option<real>, financial: Option<real>, momentum: Option<real>,
                   strategic: Option<real>): seq<Factor> {
    [Factor("capability_alignment", 0.25, capability),
     Factor("addressable_work_package", 0.20, financial),
     Factor("program_award_momentum", 0.15, momentum),
     Factor("repeat_production", 0.15, None),
     Factor("strategic_relevance", 0.10, strategic),
     Factor("supply_chain_accessibility", 0.10, None),
     Factor("geographic_relevance", 0.05, None)]
  }

  function FactorsOf(c: Curves, matches: nat, ids: seq<string>, signals: Signals, now: int): seq<Factor>
    requires forall id :: id in ids ==> id in signals
  {
    Factors(Capability(matches), Financial(c, FinancialValue(ids, signals)), Recency(c, Newest(ids, signals), now),
            if ids == [] then None else Some(0.7))
  }

  lemma {:induction false} ConfirmedAreStored(rows: seq<RelRow>, signals: Signals, tenant: string, account: AccountId)
    ensures forall id :: id in ConfirmedSignals(rows, signals, tenant, account) ==> id in signals
  {
    if rows != [] {
      ConfirmedAreStored(rows[..|rows| - 1], signals, tenant, account);
    }
  }

  function AccountAttractiveness(c: Curves, rows: seq<RelRow>, signals: Signals, tenant: string, account: AccountId,
                                 matches: nat, now: int): Result {
    ConfirmedAreStored(rows, signals, tenant, account);
    ScoreResult(FactorsOf(c, matches, ConfirmedSignals(rows, signals, tenant, account), signals, now), STANDARD)
  }

  /******* Only confirmed evidence counts *******/

  lemma {:induction false} ConfirmedExactly(rows: seq<RelRow>, signals: Signals, tenant: string, account: AccountId,
                                            id: string)
    ensures id in ConfirmedSignals(rows, signals, tenant, account) <==>
            exists row :: row in rows && Counts(row, signals, tenant, account) && row.key.signal == id
  {
    if rows != [] {
      var before, last := rows[..|rows| - 1], rows[|rows| - 1];
      ConfirmedExactly(before, signals, tenant, account, id);
      assert rows == before + [last];
    }
  }

  lemma Covers(some: seq<RelRow>, all: seq<RelRow>, signals: Signals, tenant: string, account: AccountId)
    requires forall row :: row in some && Eligible(row) ==> row in all
    ensures forall id :: id in ConfirmedSignals(some, signals, tenant, account) ==>
        id in ConfirmedSignals(all, signals, tenant, account)
  {
    forall id | id in ConfirmedSignals(some, signals, tenant, account)
      ensures id in ConfirmedSignals(all, signals, tenant, account)
    {
      ConfirmedExactly(some, signals, tenant, account, id);
      ConfirmedExactly(all, signals, tenant, account, id);
    }
  }

  /** A signal with figures at least v. */
  ghost predicate HasFigure(ids: seq<string>, signals: Signals, v: real) {
    exists id :: id in ids && id in signals && BestFigure(signals[id].figures).Some?
        && BestFigure(signals[id].figures).value >= v
  }

  lemma {:induction false} BestFigureIsPositive(figures: seq<real>)
    ensures BestFigure(figures).Some? <==> exists i :: 0 <= i < |figures| && figures[i] > 0.0
    ensures BestFigure(figures).Some? ==> BestFigure(figures).value > 0.0 && BestFigure(figures).value in figures
    ensures forall i :: 0 <= i < |figures| && figures[i] > 0.0 ==> figures[i] <= BestFigure(figures).value
  {
    if figures != [] {
      var before := figures[..|figures| - 1];
      BestFigureIsPositive(before);
      assert forall i :: 0 <= i < |before| ==> before[i] == figures[i];
      if BestFigure(before).Some? {
        var i :| 0 <= i < |before| && before[i] > 0.0;
        assert figures[i] > 0.0;
      }
    }
  }

  /**
   The financial value is the largest positive figure of any signal, and there is one exactly when some figure is
   positive.
   */
  lemma {:induction false} FinancialValueIsLargest(ids: seq<string>, signals: Signals, v: real)
    requires forall id :: id in ids ==> id in signals
    ensures (FinancialValue(ids, signals).Some? && FinancialValue(ids, signals).value >= v)
        <==> HasFigure(ids, signals, v)
  {
    if ids != [] {
      var before, last := ids[..|ids| - 1], ids[|ids| - 1];
      FinancialValueIsLargest(before, signals, v);
      assert ids == before + [last];
      if HasFigure(before, signals, v) {
        var id :| id in before && id in signals && BestFigure(signals[id].figures).Some?
            && BestFigure(signals[id].figures).value >= v;
        assert id in ids;
      }
    }
  }

  lemma MoreFigures(some: seq<string>, all: seq<string>, signals: Signals)
    requires (forall id :: id in some ==> id in all) && (forall id :: id in all ==> id in signals)
    ensures var v, u := FinancialValue(some, signals), FinancialValue(all, signals);
            v.Some? ==> u.Some? && v.value <= u.value
  {
    var v := FinancialValue(some, signals);
    if v.Some? {
      FinancialValueIsLargest(some, signals, v.value);
      FinancialValueIsLargest(all, signals, v.value);
    }
  }

  lemma {:induction false} NewestIsLargest(ids: seq<string>, signals: Signals, t: int)
    requires forall id :: id in ids ==> id in signals
    ensures (Newest(ids, signals).Some? && Newest(ids, signals).value >= t) <==> exists id ::
        id in ids && signals[id].seen >= t
    ensures Newest(ids, signals).Some? <==> ids != []
  {
    if ids != [] {
      var before, last := ids[..|ids| - 1], ids[|ids| - 1];
      NewestIsLargest(before, signals, t);
      assert ids == before + [last];
      if Newest(ids, signals).value >= t && signals[last].seen < t {
        var id :| id in before && signals[id].seen >= t;
        assert id in ids;
      }
    }
  }

  lemma MoreRecent(some: seq<string>, all: seq<string>, signals: Signals)
    requires (forall id :: id in some ==> id in all) && (forall id :: id in all ==> id in signals)
    ensures var s, t := Newest(some, signals), Newest(all, signals);
            s.Some? ==> t.Some? && s.value <= t.value
  {
    var s := Newest(some, signals);
    if s.Some? {
      NewestIsLargest(some, signals, s.value);
      NewestIsLargest(all, signals, s.value);
    }
  }

  predicate InRange(value: Option<real>) { value.Some? ==> 0.0 <= value.value <= 1.0 }

  predicate NoLess(u: Option<real>, v: Option<real>) { v.Some? ==> u.Some? && v.value <= u.value }

  lemma FactorsInRange(a: Option<real>, b: Option<real>, d: Option<real>, e: Option<real>)
    requires InRange(a) && InRange(b) && InRange(d) && InRange(e)
    ensures FactorsOk(Factors(a, b, d, e))
  {
  }

  lemma FactorsAtLeast(a: Option<real>, b: Option<real>, d: Option<real>, e: Option<real>,
                       a': Option<real>, b': Option<real>, d': Option<real>, e': Option<real>)
    requires NoLess(a', a) && NoLess(b', b) && NoLess(d', d) && NoLess(e', e)
    ensures AllAtLeast(Factors(a', b', d', e'), Factors(a, b, d, e))
  {
  }

  lemma FinancialIsMonotone(c: Curves, u: Option<real>, v: Option<real>)
    requires CurvesOk(c) && NoLess(u, v)
    ensures NoLess(Financial(c, u), Financial(c, v)) && InRange(Financial(c, u))
  {
  }

  lemma RecencyIsMonotone(c: Curves, s: Option<int>, t: Option<int>, now: int)
    requires CurvesOk(c) && (s.Some? ==> t.Some? && s.value <= t.value)
    ensures NoLess(Recency(c, t, now), Recency(c, s, now)) && InRange(Recency(c, t, now))
  {
  }

  /** Every factor stays in range, and learning of more signals lowers none. */
  lemma MoreSignals(c: Curves, matches: nat, some: seq<string>, all: seq<string>, signals: Signals, now: int)
    requires CurvesOk(c) && (forall id :: id in some ==> id in all) && (forall id :: id in all ==> id in signals)
    ensures AllAtLeast(FactorsOf(c, matches, all, signals, now), FactorsOf(c, matches, some, signals, now))
    ensures FactorsOk(FactorsOf(c, matches, all, signals, now))
  {
    MoreFigures(some, all, signals);
    MoreRecent(some, all, signals);
    var v, u, s, t := FinancialValue(some, signals), FinancialValue(all, signals), Newest(some, signals),
        Newest(all, signals);
    FinancialIsMonotone(c, u, v);
    RecencyIsMonotone(c, s, t, now);
    var strategic, strategic' := if some == [] then None else Some(0.7), if all == [] then None else Some(0.7);
    assert some != [] ==> some[0] in all;
    FactorsAtLeast(Capability(matches), Financial(c, v), Recency(c, s, now), strategic,
                   Capability(matches), Financial(c, u), Recency(c, t, now), strategic');
    FactorsInRange(Capability(matches), Financial(c, u), Recency(c, t, now), strategic');
  }

  /** A further confirmed signal never lowers an account's score and never takes one away. */
  lemma MoreEvidenceNeverLowers(c: Curves, some: seq<RelRow>, all: seq<RelRow>, signals: Signals, tenant: string,
                                account: AccountId, matches: nat, now: int)
    requires CurvesOk(c) && forall row :: row in some && Eligible(row) ==> row in all
    ensures var r := AccountAttractiveness(c, some, signals, tenant, account, matches, now);
            var s := AccountAttractiveness(c, all, signals, tenant, account, matches, now);
            && r.completeness <= s.completeness && (r.status == Available ==> s.status == Available)
            && (r.score.Some? ==> s.score.Some? && r.score.value <= s.score.value)
  {
    var fewer, more := ConfirmedSignals(some, signals, tenant, account),
        ConfirmedSignals(all, signals, tenant, account);
    Covers(some, all, signals, tenant, account);
    ConfirmedAreStored(all, signals, tenant, account);
    MoreSignals(c, matches, fewer, more, signals, now);
    MoreSignals(c, matches, fewer, fewer, signals, now);
    ScoreIsMonotone(FactorsOf(c, matches, more, signals, now), FactorsOf(c, matches, fewer, signals, now), STANDARD);
  }

  /**
   Two tables with the same confirmed rows of at least the minimum confidence, in any order and however often, whatever
   else they hold and whatever the curves, give every account the same result.
   */
  lemma OnlyEligibleRowsMatter(c: Curves, rows: seq<RelRow>, others: seq<RelRow>, signals: Signals, tenant: string,
                               account: AccountId, matches: nat, now: int)
    requires forall row :: Eligible(row) ==> (row in rows <==> row in others)
    ensures AccountAttractiveness(c, rows, signals, tenant, account, matches, now)
         == AccountAttractiveness(c, others, signals, tenant, account, matches, now)
  {
    Covers(rows, others, signals, tenant, account);
    Covers(others, rows, signals, tenant, account);
    ConfirmedAreStored(rows, signals, tenant, account);
    ConfirmedAreStored(others, signals, tenant, account);
    SameSignals(c, matches, ConfirmedSignals(rows, signals, tenant, account),
                ConfirmedSignals(others, signals, tenant, account), signals, now);
  }

  lemma SameSignals(c: Curves, matches: nat, ids: seq<string>, others: seq<string>, signals: Signals, now: int)
    requires (forall id :: id in ids <==> id in others) && forall id :: id in ids ==> id in signals
    ensures FactorsOf(c, matches, ids, signals, now) == FactorsOf(c, matches, others, signals, now)
  {
    MoreFigures(ids, others, signals);
    MoreFigures(others, ids, signals);
    MoreRecent(ids, others, signals);
    MoreRecent(others, ids, signals);
    assert ids != [] ==> ids[0] in others;
    assert others != [] ==> others[0] in ids;
  }

  /******* When there is a score, and which *******/

  lemma SumPrefix(fs: seq<Factor>, part: Factor -> real, i: nat)
    requires i < |fs|
    ensures Sum(fs[..i + 1], part) == Sum(fs[..i], part) + part(fs[i])
  {
    assert fs[..i + 1][..i] == fs[..i];
  }

  lemma SumOfSeven(fs: seq<Factor>, part: Factor -> real)
    requires |fs| == 7
    ensures Sum(fs, part) == part(fs[0]) + part(fs[1]) + part(fs[2]) + part(fs[3]) + part(fs[4]) + part(fs[5])
        + part(fs[6])
  {
    SumPrefix(fs, part, 0);
    SumPrefix(fs, part, 1);
    SumPrefix(fs, part, 2);
    SumPrefix(fs, part, 3);
    SumPrefix(fs, part, 4);
    SumPrefix(fs, part, 5);
    SumPrefix(fs, part, 6);
    assert fs[..7] == fs;
  }

  /** Points with at most four digits after the point are not changed by rounding. */
  lemma ExactPoints(f: Factor, n: int)
    requires f.normalized.Some? && Points(f.normalized.value, f.weight) * 10000.0 == n as real
    ensures PointPart(f) == n as real / 10000.0
  {
    RoundKeepsGrid(n);
  }

  lemma LeastPoints()
    ensures Total(Factors(Some(0.25), Some(0.0), Some(0.2), Some(0.7))) == 16.25
  {
    var fs := Factors(Some(0.25), Some(0.0), Some(0.2), Some(0.7));
    SumOfSeven(fs, PointPart);
    ExactPoints(fs[0], 62500);
    ExactPoints(fs[1], 0);
    ExactPoints(fs[2], 30000);
    ExactPoints(fs[4], 70000);
  }

  lemma MostPoints()
    ensures Total(Factors(Some(1.0), Some(1.0), Some(1.0), Some(0.7))) == 67.0
  {
    var fs := Factors(Some(1.0), Some(1.0), Some(1.0), Some(0.7));
    SumOfSeven(fs, PointPart);
    ExactPoints(fs[0], 250000);
    ExactPoints(fs[1], 200000);
    ExactPoints(fs[2], 150000);
    ExactPoints(fs[4], 70000);
  }

  /** Enough is known exactly when capability, money and recency all are. */
  lemma EnoughIsKnown(a: Option<real>, b: Option<real>, d: Option<real>, e: Option<real>)
    ensures Completeness(Factors(a, b, d, e)) >= 0.60 <==> a.Some? && b.Some? && d.Some?
    ensures a.Some? && b.Some? && d.Some? && e.Some? ==> Completeness(Factors(a, b, d, e)) == 0.70
  {
    SumOfSeven(Factors(a, b, d, e), WeightPart);
  }

  lemma ScoreRange(a: Option<real>, b: Option<real>, d: Option<real>, e: Option<real>)
    requires InRange(a) && InRange(b) && InRange(d) && a.Some? && b.Some? && d.Some? && e == Some(0.7)
    requires 0.25 <= a.value && 0.2 <= d.value
    ensures 16.25 <= Round2(Total(Factors(a, b, d, e))) <= 67.0
  {
    FactorsInRange(a, b, d, e);
    FactorsInRange(Some(0.25), Some(0.0), Some(0.2), Some(0.7));
    FactorsInRange(Some(1.0), Some(1.0), Some(1.0), Some(0.7));
    FactorsAtLeast(Some(0.25), Some(0.0), Some(0.2), Some(0.7), a, b, d, e);
    FactorsAtLeast(a, b, d, e, Some(1.0), Some(1.0), Some(1.0), Some(0.7));
    SumsAreMonotone(Factors(a, b, d, e), Factors(Some(0.25), Some(0.0), Some(0.2), Some(0.7)));
    SumsAreMonotone(Factors(Some(1.0), Some(1.0), Some(1.0), Some(0.7)), Factors(a, b, d, e));
    LeastPoints();
    MostPoints();
    Round2IsMonotone(16.25, Total(Factors(a, b, d, e)));
    Round2IsMonotone(Total(Factors(a, b, d, e)), 67.0);
  }

  /** Some signal that counts for the account carries a positive figure. */
  ghost predicate HasMoney(rows: seq<RelRow>, signals: Signals, tenant: string, account: AccountId) {
    exists row, i :: row in rows && Counts(row, signals, tenant, account)
                     && 0 <= i < |signals[row.key.signal].figures| && signals[row.key.signal].figures[i] > 0.0
  }

  lemma MoneyIsValue(rows: seq<RelRow>, signals: Signals, tenant: string, account: AccountId)
    ensures var ids := ConfirmedSignals(rows, signals, tenant, account);
            && (forall id :: id in ids ==> id in signals)
            && (FinancialValue(ids, signals).Some? <==> HasMoney(rows, signals, tenant, account))
            && (FinancialValue(ids, signals).Some? ==> FinancialValue(ids, signals).value > 0.0)
  {
    var ids := ConfirmedSignals(rows, signals, tenant, account);
    ConfirmedAreStored(rows, signals, tenant, account);
    var value := FinancialValue(ids, signals);
    if value.Some? {
      FinancialValueIsLargest(ids, signals, value.value);
      var id :| id in ids && id in signals && BestFigure(signals[id].figures).Some?
          && BestFigure(signals[id].figures).value >= value.value;
      ConfirmedExactly(rows, signals, tenant, account, id);
      BestFigureIsPositive(signals[id].figures);
      FinancialValueIsLargest(ids, signals, BestFigure(signals[id].figures).value);
    }
    if HasMoney(rows, signals, tenant, account) {
      var row, i :| row in rows && Counts(row, signals, tenant, account)
                    && 0 <= i < |signals[row.key.signal].figures| && signals[row.key.signal].figures[i] > 0.0;
      var id := row.key.signal;
      ConfirmedExactly(rows, signals, tenant, account, id);
      BestFigureIsPositive(signals[id].figures);
      FinancialValueIsLargest(ids, signals, BestFigure(signals[id].figures).value);
    }
  }

  /**
   An account has an attractiveness score exactly when its text names a capability and some signal that counts for it
   carries money; the score then lies between 16.25 and 67, on 70 percent of the weights.
   */
  lemma AvailableExactlyWhen(c: Curves, rows: seq<RelRow>, signals: Signals, tenant: string, account: AccountId,
                             matches: nat, now: int)
    requires CurvesOk(c)
    ensures var r := AccountAttractiveness(c, rows, signals, tenant, account, matches, now);
            && (r.status == Available <==> matches > 0 && HasMoney(rows, signals, tenant, account))
            && (r.status == Available ==> r.score.Some? && 16.25 <= r.score.value <= 67.0 && r.completeness == 0.70)
            && (r.status != Available ==> r.status == InsufficientData && r.score.None?)
  {
    var ids := ConfirmedSignals(rows, signals, tenant, account);
    MoneyIsValue(rows, signals, tenant, account);
    NewestIsLargest(ids, signals, 0);
    var a, b, d := Capability(matches), Financial(c, FinancialValue(ids, signals)),
        Recency(c, Newest(ids, signals), now);
    var e := if ids == [] then None else Some(0.7);
    EnoughIsKnown(a, b, d, e);
    FinancialIsMonotone(c, FinancialValue(ids, signals), FinancialValue(ids, signals));
    RecencyIsMonotone(c, Newest(ids, signals), Newest(ids, signals), now);
    if a.Some? && b.Some? && d.Some? {
      ScoreRange(a, b, d, e);
      assert Factors(a, b, d, e)[0].normalized.Some?;
    }
  }

  /******* One signal, one account *******/

  /** A confirmed row of the account for the signal, at the minimum confidence or more and with evidence. */
  ghost predicate HasRow(rows: seq<RelRow>, tenant: string, account: AccountId, id: string) {
    exists row :: row in rows && row.key.tenant == tenant && row.key.account == account && row.key.signal == id
                  && row.rel.review == Confirmed && row.rel.confidence >= 0.80 && row.rel.evidence != []
  }

  /**
   A signal counts for an account exactly when it is about one account, has a row for this one, and names this
   one or none.
   */
  lemma CountsExactlyWhen(rows: seq<RelRow>, signals: Signals, tenant: string, account: AccountId, id: string)
    ensures id in ConfirmedSignals(rows, signals, tenant, account) <==>
            && id in signals && signals[id].link.scope.SpecificAccount? && HasRow(rows, tenant, account, id)
            && signals[id].link.subject in {NoSubject, Portfolio, Subject(account)}
  {
    ConfirmedExactly(rows, signals, tenant, account, id);
    if HasRow(rows, tenant, account, id) && id in signals && signals[id].link.scope.SpecificAccount?
       && signals[id].link.subject in {NoSubject, Portfolio, Subject(account)} {
      var row :| row in rows && row.key.tenant == tenant && row.key.account == account && row.key.signal == id
                 && row.rel.review == Confirmed && row.rel.confidence >= 0.80 && row.rel.evidence != [];
      assert Counts(row, signals, tenant, account);
    }
  }

  /**
   A signal with rows for two accounts counts for both exactly when it names no account: a named one counts for
   its own only.
   */
  lemma CountsForTwoExactlyWhenUnnamed(rows: seq<RelRow>, signals: Signals, tenant: string, a: AccountId,
                                       b: AccountId, id: string)
    requires a != b && HasRow(rows, tenant, a, id) && HasRow(rows, tenant, b, id)
    requires id in signals && signals[id].link.scope.SpecificAccount?
    ensures id in ConfirmedSignals(rows, signals, tenant, a) && id in ConfirmedSignals(rows, signals, tenant, b)
            <==> !signals[id].link.subject.Subject?
    ensures signals[id].link.subject == Subject(a) ==>
              id in ConfirmedSignals(rows, signals, tenant, a) && id !in ConfirmedSignals(rows, signals, tenant, b)
  {
    CountsExactlyWhen(rows, signals, tenant, a, id);
    CountsExactlyWhen(rows, signals, tenant, b, id);
  }

  /** Every stored signal about one account names that account. */
  ghost predicate SignalsNamed(w: World) {
    forall id :: id in w.signals && w.signals[id].scope.SpecificAccount? ==> w.signals[id].subject.Subject?
  }

  /** No signal comes in that claims to be about one account without naming it. */
  predicate NamedIncoming(step: RelationshipRuns.Step) {
    step.ResolveSignal? && step.incoming.scope.SpecificAccount? ==> step.incoming.subject.Subject?
  }

  lemma NextKeepsNamed(w: World, step: RelationshipRuns.Step)
    requires SignalsNamed(w) && NamedIncoming(step)
    ensures SignalsNamed(RelationshipRuns.Next(w, step))
  {
    if step.ResolveSignal? {
      RelationshipRuns.OnlyHandledRowsChange(LookupOf(w.index), w,
                                             KeysOf(LookupOf(w.index), step.tenant, step.signal, step.entities,
                                                    step.order));
    }
  }

  lemma {:induction false} RunKeepsNamed(worlds: seq<World>, steps: seq<RelationshipRuns.Step>, n: nat)
    requires RelationshipRuns.IsRun(worlds, steps) && n <= |steps| && forall i :: 0 <= i < n ==> NamedIncoming(steps[i])
    ensures SignalsNamed(worlds[n])
  {
    if n > 0 {
      RunKeepsNamed(worlds, steps, n - 1);
      NextKeepsNamed(worlds[n - 1], steps[n - 1]);
    }
  }

  /** The rows and signals hold what a state of the resolver and the reviewers holds. */
  ghost predicate Shows(w: World, rows: seq<RelRow>, signals: Signals) {
    && (forall row :: row in rows ==> row.key in w.rels && w.rels[row.key] == row.rel)
    && (forall id :: id in signals ==> id in w.signals && w.signals[id] == signals[id].link)
  }

  /**
   After any run of resolutions, reviews and identifier changes, a signal counts towards the score of one account at
   most, as long as no incoming signal claims to be about one account without naming it.
   */
  lemma SignalCountsForOneAccount(worlds: seq<World>, steps: seq<RelationshipRuns.Step>, n: nat, rows: seq<RelRow>,
                                  signals: Signals,
                                  tenant: string, a: AccountId, other: string, b: AccountId, id: string)
    requires RelationshipRuns.IsRun(worlds, steps) && n <= |steps|
    requires forall i :: 0 <= i < n ==> NamedIncoming(steps[i])
    requires Shows(worlds[n], rows, signals)
    requires id in ConfirmedSignals(rows, signals, tenant, a) && id in ConfirmedSignals(rows, signals, other, b)
    ensures a == b
  {
    RunKeepsNamed(worlds, steps, n);
    ConfirmedExactly(rows, signals, tenant, a, id);
    ConfirmedExactly(rows, signals, other, b, id);
  }

  /******* What review and resolution do to the evidence *******/

  /**
   A confirmation counts at once; a rejection or reopening takes its row out; marking the signal takes it out for
   every account.
   */
  lemma ReviewDecidesWhatCounts(w: World, k: RelKey, action: Action, actor: string, rows: seq<RelRow>, signals: Signals)
    requires k in w.rels && w.rels[k].evidence != [] && k.signal in w.signals && k.signal in signals
    requires var w' := DoReview(w, k, action, actor).1; Shows(w', rows, signals) && RelRow(k, w'.rels[k]) in rows
    ensures action == Confirm ==> k.signal in ConfirmedSignals(rows, signals, k.tenant, k.account)
    ensures action in {Reject, Reopen} ==> forall row :: row in rows && row.key == k ==>
        !Counts(row, signals, k.tenant, k.account)
    ensures action in {MarkMarket, MarkProgram} ==>
              forall tenant, account :: k.signal !in ConfirmedSignals(rows, signals, tenant, account)
  {
    var w' := DoReview(w, k, action, actor).1;
    assert w'.signals[k.signal] == ReviewedSignal(w.signals[k.signal], action, k.account) == signals[k.signal].link;
    if action == Confirm {
      CountsExactlyWhen(rows, signals, k.tenant, k.account, k.signal);
      assert Eligible(RelRow(k, w'.rels[k]));
    }
    if action in {MarkMarket, MarkProgram} {
      forall tenant, account
        ensures k.signal !in ConfirmedSignals(rows, signals, tenant, account)
      {
        CountsExactlyWhen(rows, signals, tenant, account, k.signal);
      }
    }
  }

  lemma {:induction false} FirstConfirmedIsConfirmed(rels: map<RelKey, Rel>, keys: seq<RelKey>)
    ensures var first := FirstConfirmed(rels, keys);
            && (first.Some? <==> exists k :: k in keys && k in rels && rels[k].review == Confirmed)
            && (first.Some? ==> first.value in keys && first.value in rels && rels[first.value].review == Confirmed)
  {
    if keys != [] {
      FirstConfirmedIsConfirmed(rels, keys[1..]);
      assert keys == [keys[0]] + keys[1..];
    }
  }

  /**
   A resolution that leaves a confirmed relationship ties its signal to one account: the signal counts for no other
   one, however many relationships are confirmed, and it counts for that one if its match is strong.
   */
  lemma ResolutionLinksOneAccount(w: World, step: RelationshipRuns.Step, k: RelKey, rows: seq<RelRow>,
                                  signals: Signals, other: AccountId)
    requires step.ResolveSignal? && IsOrder(step.order)
    requires var lookup := LookupOf(w.index);
             var keys := KeysOf(lookup, step.tenant, step.signal, step.entities, step.order);
             !Raises(lookup, w, keys) && FirstConfirmed(UpsertRels(lookup, w, keys).rels, keys) == Some(k)
    requires var w' := RelationshipRuns.Next(w, step);
             Shows(w', rows, signals) && step.signal in signals && k in w'.rels && RelRow(k, w'.rels[k]) in rows
    ensures RelationshipRuns.StrongMatch(w.index, k.tenant, k.entity, k.account) ==>
              step.signal in ConfirmedSignals(rows, signals, step.tenant, k.account)
    ensures other != k.account ==> step.signal !in ConfirmedSignals(rows, signals, step.tenant, other)
  {
    var lookup := LookupOf(w.index);
    var keys := KeysOf(lookup, step.tenant, step.signal, step.entities, step.order);
    FirstConfirmedIsConfirmed(UpsertRels(lookup, w, keys).rels, keys);
    RelationshipRuns.KeysOfExactly(lookup, step.tenant, step.signal, step.entities, step.order, k);
    RelationshipRuns.HandledConfidence(w, keys, k);
    LinkedCounts(RelationshipRuns.Next(w, step), k, rows, signals, other);
  }

  lemma LinkedCounts(w: World, k: RelKey, rows: seq<RelRow>, signals: Signals, other: AccountId)
    requires k.signal in w.signals && w.signals[k.signal] == Signal(SpecificAccount, Subject(k.account))
    requires Shows(w, rows, signals) && k.signal in signals && k in w.rels && RelRow(k, w.rels[k]) in rows
    requires w.rels[k].review == Confirmed && w.rels[k].evidence != []
    ensures w.rels[k].confidence >= MINIMUM_CONFIDENCE ==>
        k.signal in ConfirmedSignals(rows, signals, k.tenant, k.account)
    ensures other != k.account ==> k.signal !in ConfirmedSignals(rows, signals, k.tenant, other)
  {
    CountsExactlyWhen(rows, signals, k.tenant, k.account, k.signal);
    CountsExactlyWhen(rows, signals, k.tenant, other, k.signal);
    if w.rels[k].confidence >= MINIMUM_CONFIDENCE {
      assert Eligible(RelRow(k, w.rels[k]));
    }
  }
}
