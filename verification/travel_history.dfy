/** The travel history card: totals over the signed-in user's logged trips,
    the emissions shown per trip, and the improvement tip. */
module TravelHistory {
  import opened Optional
  import opened Emissions

  /** One row of the travel_logs table. The transport mode is whatever
      string the row holds, so unknown modes are possible. */
  datatype TravelLog = TravelLog(
    id: string,
    date: string,
    origin: string,
    destination: string,
    distance: real,
    transportMode: string,
    notes: Option<string>,
    createdAt: string)

  /** `logs.reduce((sum, log) => sum + f(log), 0)`, folding from the left. */
  function SumBy(logs: seq<TravelLog>, f: TravelLog -> real): real
    decreases |logs|
  {
    if |logs| == 0 then 0.0 else SumBy(logs[..|logs| - 1], f) + f(logs[|logs| - 1])
  }

  /** A trip's emissions; a mode missing from the factor table counts 0. */
  function TripEmissions(log: TravelLog): real {
    log.distance * FactorOf(log.transportMode)
  }

  /** What a car trip would have saved by train; other trips add nothing. */
  function CarTripSaving(log: TravelLog): real {
    if log.transportMode == "car" then log.distance * Factor(Car) - log.distance * Factor(Train)
    else 0.0
  }

  function CarDistance(log: TravelLog): real {
    if log.transportMode == "car" then log.distance else 0.0
  }

  function TotalCO2(logs: seq<TravelLog>): real {
    SumBy(logs, TripEmissions)
  }

  function PotentialCO2Savings(logs: seq<TravelLog>): real {
    SumBy(logs, CarTripSaving)
  }

  /** The two figures the card keeps. Both start at 0 and are set, rounded
      to two places, only when the fetch returned at least one row. */
  datatype Stats = Stats(totalEmissions: real, potentialSavings: real)

  function FetchedStats(data: seq<TravelLog>): Stats {
    if |data| > 0 then Stats(ToFixed(TotalCO2(data), 2), ToFixed(PotentialCO2Savings(data), 2))
    else Stats(0.0, 0.0)
  }

  /** The emissions badge of one row, rounded to two places. */
  function GetEmissionsForTrip(distance: real, mode: string): real {
    ToFixed(distance * FactorOf(mode), 2)
  }

  function CarTrips(logs: seq<TravelLog>): nat
    decreases |logs|
  {
    if |logs| == 0 then 0
    else CarTrips(logs[..|logs| - 1]) + (if logs[|logs| - 1].transportMode == "car" then 1 else 0)
  }

  function CarPercentage(logs: seq<TravelLog>): real {
    if |logs| > 0 then CarTrips(logs) as real / |logs| as real * 100.0 else 0.0
  }

  /** The four tips; the third quotes the savings with one decimal place. */
  datatype Tip = UsePublicTransport | ReplaceSomeCarTrips | SwitchRemaining(kg: real) | AlreadySustainable

  /** The tip for the shown logs, given the potential-savings figure the
      card holds (the rounded one from the fetch). */
  function GetImprovementTip(logs: seq<TravelLog>, potentialSavings: real): Tip {
    var carPercentage := CarPercentage(logs);
    if carPercentage > 70.0 then UsePublicTransport
    else if carPercentage > 40.0 then ReplaceSomeCarTrips
    else if potentialSavings > 5.0 then SwitchRemaining(ToFixed(potentialSavings, 1))
    else AlreadySustainable
  }

  /** The "potential savings" line appears only for a positive figure. */
  predicate ShowsPotentialSavings(stats: Stats) {
    stats.potentialSavings > 0.0
  }

  /** What the card shows once loading is over: for an empty history only
      the "no trips yet" message; otherwise the total, the trip count, the
      tip and, when the figure is positive, the potential-savings line. */
  datatype Card =
    | NoTripsYet
    | Overview(totalEmissions: real, trips: nat, tip: Tip, potentialSavingsLine: Option<real>)

  function HistoryCard(logs: seq<TravelLog>, stats: Stats): Card {
    if |logs| > 0 then
      Overview(stats.totalEmissions, |logs|, GetImprovementTip(logs, stats.potentialSavings),
               if ShowsPotentialSavings(stats) then Some(stats.potentialSavings) else None)
    else NoTripsYet
  }

  // ---------------------------------------------------------------- the fold

  /** Folding a concatenation is adding the two folds. */
  lemma {:induction false} SumByAppend(a: seq<TravelLog>, b: seq<TravelLog>, f: TravelLog -> real)
    ensures SumBy(a + b, f) == SumBy(a, f) + SumBy(b, f)
    decreases |b|
  {
    if |b| == 0 {
      assert a + b == a;
    } else {
      var b' := b[..|b| - 1];
      assert (a + b)[..|a + b| - 1] == a + b';
      assert (a + b)[|a + b| - 1] == b[|b| - 1];
      SumByAppend(a, b', f);
    }
  }

  /** Taking one row out of the fold takes out its term. */
  lemma {:induction false} SumByRemove(b: seq<TravelLog>, k: nat, f: TravelLog -> real)
    requires k < |b|
    ensures SumBy(b, f) == f(b[k]) + SumBy(b[..k] + b[k + 1..], f)
    decreases |b|
  {
    var init := b[..|b| - 1];
    var rest := b[..k] + b[k + 1..];
    if k == |b| - 1 {
      assert rest == init;
    } else {
      SumByRemove(init, k, f);
      var initRest := init[..k] + init[k + 1..];
      assert rest[..|rest| - 1] == initRest;
      assert rest[|rest| - 1] == b[|b| - 1];
    }
  }

  lemma MatchingIndex(a: seq<TravelLog>, b: seq<TravelLog>) returns (k: nat)
    requires |a| > 0 && multiset(a) == multiset(b)
    ensures k < |b| && b[k] == a[0]
  {
    assert a[0] in multiset(a);
    k :| 0 <= k < |b| && b[k] == a[0];
  }

  lemma MultisetRemove(a: seq<TravelLog>, b: seq<TravelLog>, k: nat)
    requires |a| > 0 && k < |b| && b[k] == a[0] && multiset(a) == multiset(b)
    ensures multiset(a[1..]) == multiset(b[..k] + b[k + 1..])
  {
    var left, right := b[..k], b[k + 1..];
    assert a == [a[0]] + a[1..];
    assert b == left + [b[k]] + right;
    assert multiset(a) == multiset{a[0]} + multiset(a[1..]);
    assert multiset(b) == multiset(left) + multiset{b[k]} + multiset(right);
    assert multiset(left + right) == multiset(left) + multiset(right);
    assert multiset(a[1..]) == multiset(a) - multiset{a[0]};
    assert multiset(left + right) == multiset(b) - multiset{b[k]};
  }

  /** The fold does not depend on the order of the rows, so the
      newest-first order of the query does not affect the totals. */
  lemma {:induction false} SumByPermutation(a: seq<TravelLog>, b: seq<TravelLog>, f: TravelLog -> real)
    requires multiset(a) == multiset(b)
    ensures SumBy(a, f) == SumBy(b, f)
    decreases |a|
  {
    if |a| == 0 {
      assert |b| == |multiset(b)| == 0;
    } else {
      var k := MatchingIndex(a, b);
      MultisetRemove(a, b, k);
      SumByPermutation(a[1..], b[..k] + b[k + 1..], f);
      SumByRemove(a, 0, f);
      SumByRemove(b, k, f);
      assert a[..0] + a[1..] == a[1..];
    }
  }

  /** Term by term larger terms give a larger sum. */
  lemma {:induction false} SumByMonotone(logs: seq<TravelLog>, f: TravelLog -> real, g: TravelLog -> real)
    requires forall i :: 0 <= i < |logs| ==> f(logs[i]) <= g(logs[i])
    ensures SumBy(logs, f) <= SumBy(logs, g)
    decreases |logs|
  {
    if |logs| > 0 {
      var init := logs[..|logs| - 1];
      assert forall i :: 0 <= i < |init| ==> init[i] == logs[i];
      SumByMonotone(init, f, g);
    }
  }

  /** Scaling every term scales the sum. */
  lemma {:induction false} SumByScale(logs: seq<TravelLog>, f: TravelLog -> real, g: TravelLog -> real, c: real)
    requires forall i :: 0 <= i < |logs| ==> f(logs[i]) == c * g(logs[i])
    ensures SumBy(logs, f) == c * SumBy(logs, g)
    decreases |logs|
  {
    if |logs| > 0 {
      var init := logs[..|logs| - 1];
      assert forall i :: 0 <= i < |init| ==> init[i] == logs[i];
      SumByScale(init, f, g, c);
    }
  }

  // ---------------------------------------------------------- the two totals

  /** Logging one more trip adds exactly its emissions and its saving. */
  lemma TotalsOfAppendedTrip(logs: seq<TravelLog>, log: TravelLog)
    ensures TotalCO2(logs + [log]) == TotalCO2(logs) + log.distance * FactorOf(log.transportMode)
    ensures PotentialCO2Savings(logs + [log]) ==
              PotentialCO2Savings(logs) + (if log.transportMode == "car" then log.distance * 0.151 else 0.0)
  {
    assert (logs + [log])[..|logs|] == logs;
  }

  /** The potential saving is the car kilometres times the gap between the
      car and train factors. */
  lemma PotentialIsCarDistanceTimesGap(logs: seq<TravelLog>)
    ensures PotentialCO2Savings(logs) == (Factor(Car) - Factor(Train)) * SumBy(logs, CarDistance)
  {
    forall i | 0 <= i < |logs|
      ensures CarTripSaving(logs[i]) == (Factor(Car) - Factor(Train)) * CarDistance(logs[i])
    {
    }
    SumByScale(logs, CarTripSaving, CarDistance, Factor(Car) - Factor(Train));
  }

  /** With no negative distances the potential saving is between 0 and the
      total emitted: it never claims more than was emitted. */
  lemma PotentialWithinTotal(logs: seq<TravelLog>)
    requires forall i :: 0 <= i < |logs| ==> logs[i].distance >= 0.0
    ensures 0.0 <= PotentialCO2Savings(logs) <= TotalCO2(logs)
  {
    forall i | 0 <= i < |logs|
      ensures (x => 0.0)(logs[i]) <= CarTripSaving(logs[i]) <= TripEmissions(logs[i])
    {
      FactorOfAgrees(logs[i].transportMode);
      var m := ParseMode(logs[i].transportMode);
      if m.Some? {
        FactorOrder(m.value);
        assert 0.0 <= logs[i].distance * Factor(m.value);
      }
    }
    SumByMonotone(logs, x => 0.0, CarTripSaving);
    SumByMonotone(logs, CarTripSaving, TripEmissions);
    SumByZero(logs);
  }

  lemma {:induction false} SumByZero(logs: seq<TravelLog>)
    ensures SumBy(logs, x => 0.0) == 0.0
    decreases |logs|
  {
    if |logs| > 0 {
      SumByZero(logs[..|logs| - 1]);
    }
  }

  /** Without car trips there is nothing to save. */
  lemma NoCarTripsNoPotential(logs: seq<TravelLog>)
    requires forall i :: 0 <= i < |logs| ==> logs[i].transportMode != "car"
    ensures PotentialCO2Savings(logs) == 0.0
    ensures CarTrips(logs) == 0
  {
    forall i | 0 <= i < |logs|
      ensures CarTripSaving(logs[i]) == (x => 0.0)(logs[i])
    {
    }
    SumByMonotone(logs, CarTripSaving, x => 0.0);
    SumByMonotone(logs, x => 0.0, CarTripSaving);
    SumByZero(logs);
    NoCarTripsCount(logs);
  }

  lemma {:induction false} NoCarTripsCount(logs: seq<TravelLog>)
    requires forall i :: 0 <= i < |logs| ==> logs[i].transportMode != "car"
    ensures CarTrips(logs) == 0
    decreases |logs|
  {
    if |logs| > 0 {
      var init := logs[..|logs| - 1];
      assert forall i :: 0 <= i < |init| ==> init[i] == logs[i];
      NoCarTripsCount(init);
    }
  }

  /** The line about potential savings appears only if some car trip has
      a positive distance. */
  lemma PotentialShownOnlyWithCarTrip(data: seq<TravelLog>)
    ensures ShowsPotentialSavings(FetchedStats(data)) ==>
              exists i :: 0 <= i < |data| && data[i].transportMode == "car" && data[i].distance > 0.0
  {
    if !exists i :: 0 <= i < |data| && data[i].transportMode == "car" && data[i].distance > 0.0 {
      forall i | 0 <= i < |data|
        ensures CarTripSaving(data[i]) <= (x => 0.0)(data[i])
      {
      }
      SumByMonotone(data, CarTripSaving, x => 0.0);
      SumByZero(data);
      ToFixedSign(PotentialCO2Savings(data), 2);
    }
  }

  /** The badge of a row agrees with the calculator for a known mode and is
      0 for an unknown one. */
  lemma TripEmissionsByMode(distance: real, mode: string)
    ensures ParseMode(mode).Some? ==>
              GetEmissionsForTrip(distance, mode) == ToFixed(distance * Factor(ParseMode(mode).value), 2)
    ensures ParseMode(mode).None? ==> GetEmissionsForTrip(distance, mode) == 0.0
  {
    FactorOfAgrees(mode);
    ToFixedSign(0.0, 2);
  }

  // ------------------------------------------------------------- the tip

  /** There are never more car trips than trips, so the car share is a
      percentage, and it is 100 exactly when every trip is by car. */
  lemma {:induction false} CarTripsAtMostTrips(logs: seq<TravelLog>)
    ensures CarTrips(logs) <= |logs|
    ensures CarTrips(logs) == |logs| <==> forall i :: 0 <= i < |logs| ==> logs[i].transportMode == "car"
    decreases |logs|
  {
    if |logs| > 0 {
      var init := logs[..|logs| - 1];
      assert forall i :: 0 <= i < |init| ==> init[i] == logs[i];
      CarTripsAtMostTrips(init);
    }
  }

  lemma CarPercentageRange(logs: seq<TravelLog>)
    ensures 0.0 <= CarPercentage(logs) <= 100.0
    ensures CarPercentage(logs) == 100.0 <==>
              |logs| > 0 && forall i :: 0 <= i < |logs| ==> logs[i].transportMode == "car"
  {
    CarTripsAtMostTrips(logs);
    if |logs| > 0 {
      ShareAbove(CarTrips(logs), |logs|, 100);
      ShareIs(CarTrips(logs), |logs|, 100);
    }
  }

  /** The four tiers in whole numbers, with `c` car trips among `n`: more
      than 70% is 10c > 7n, more than 40% is 5c > 2n. */
  lemma TipTiers(logs: seq<TravelLog>, potentialSavings: real)
    ensures var c, n := CarTrips(logs), |logs|;
              GetImprovementTip(logs, potentialSavings) == UsePublicTransport <==> 10 * c > 7 * n
    ensures var c, n := CarTrips(logs), |logs|;
              GetImprovementTip(logs, potentialSavings) == ReplaceSomeCarTrips <==> 2 * n < 5 * c && 10 * c <= 7 * n
    ensures var c, n := CarTrips(logs), |logs|;
              GetImprovementTip(logs, potentialSavings).SwitchRemaining? <==> 5 * c <= 2 * n && potentialSavings > 5.0
    ensures var c, n := CarTrips(logs), |logs|;
              GetImprovementTip(logs, potentialSavings) == AlreadySustainable <==> 5 * c <= 2 * n && potentialSavings <= 5.0
  {
    CarTripsAtMostTrips(logs);
    if |logs| > 0 {
      ShareAbove(CarTrips(logs), |logs|, 70);
      ShareAbove(CarTrips(logs), |logs|, 40);
    }
  }

  /** c out of n is more than k percent exactly when 100c > kn. */
  lemma ShareAbove(c: nat, n: nat, k: nat)
    requires 0 < n
    ensures c as real / n as real * 100.0 > k as real <==> 100 * c > k * n
  {
    var q := c as real / n as real;
    assert q * n as real == c as real;
    assert (q * 100.0) * n as real == 100.0 * c as real;
  }

  /** c out of n is exactly k percent when 100c == kn. */
  lemma ShareIs(c: nat, n: nat, k: nat)
    requires 0 < n
    ensures c as real / n as real * 100.0 == k as real <==> 100 * c == k * n
  {
    var q := c as real / n as real;
    assert q * n as real == c as real;
    assert (q * 100.0) * n as real == 100.0 * c as real;
  }

  /** A history of car trips only gets the strongest tip. */
  lemma AllCarTripsTip(logs: seq<TravelLog>, potentialSavings: real)
    requires |logs| > 0 && forall i :: 0 <= i < |logs| ==> logs[i].transportMode == "car"
    ensures GetImprovementTip(logs, potentialSavings) == UsePublicTransport
  {
    CarPercentageRange(logs);
  }

  /** After the fetch, a history without car trips is praised. */
  lemma NoCarTripsPraised(data: seq<TravelLog>)
    requires forall i :: 0 <= i < |data| ==> data[i].transportMode != "car"
    ensures GetImprovementTip(data, FetchedStats(data).potentialSavings) == AlreadySustainable
  {
    NoCarTripsNoPotential(data);
    ToFixedSign(0.0, 2);
  }

  /** The savings tip is given only for a car share of at most 40% and a
      shown saving above 5 kg, and quotes that saving to within 0.05 kg. */
  lemma SwitchRemainingTip(logs: seq<TravelLog>, potentialSavings: real)
    ensures GetImprovementTip(logs, potentialSavings).SwitchRemaining? <==>
              CarPercentage(logs) <= 40.0 && potentialSavings > 5.0
    ensures GetImprovementTip(logs, potentialSavings).SwitchRemaining? ==>
              -0.05 <= GetImprovementTip(logs, potentialSavings).kg - potentialSavings <= 0.05
  {
    ToFixedNearest(potentialSavings, 1);
    KnownScale(1);
  }

  /** After the fetch the card shows the overview exactly for a non-empty
      history, with the tip computed from the fetched figure, and a savings
      line only when some car trip has a positive distance. */
  lemma CardAfterFetch(data: seq<TravelLog>)
    ensures HistoryCard(data, FetchedStats(data)).NoTripsYet? <==> |data| == 0
    ensures |data| > 0 ==>
              HistoryCard(data, FetchedStats(data)).tip
              == GetImprovementTip(data, FetchedStats(data).potentialSavings)
    ensures |data| > 0 ==>
              HistoryCard(data, FetchedStats(data)).totalEmissions == ToFixed(TotalCO2(data), 2)
    ensures HistoryCard(data, FetchedStats(data)).Overview? &&
            HistoryCard(data, FetchedStats(data)).potentialSavingsLine.Some? ==>
              exists i :: 0 <= i < |data| && data[i].transportMode == "car" && data[i].distance > 0.0
  {
    PotentialShownOnlyWithCarTrip(data);
  }

  /** An empty history keeps both figures at 0, and the card shows only the
      "no trips yet" message: no tip and no savings line. The tip function
      itself would answer "Great job" on it, but the card never asks. */
  lemma EmptyHistory()
    ensures FetchedStats([]) == Stats(0.0, 0.0)
    ensures HistoryCard([], FetchedStats([])) == NoTripsYet
    ensures GetImprovementTip([], 0.0) == AlreadySustainable
  {
  }
}
