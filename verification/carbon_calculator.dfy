/** The carbon footprint calculator card: the daily emissions of a commute
    by one transport mode, and what that saves against driving alone. */
module CarbonCalculator {
  import opened Optional
  import opened Emissions

  /** A distance the slider can produce: a whole number of km, 1 to 50. */
  predicate SliderDistance(d: real) {
    1.0 <= d <= 50.0 && d.Floor as real == d
  }

  /** The card starts on car and 10 km. */
  const InitialMode: Mode := Car
  const InitialDistance: real := 10.0

  /** Daily emissions in kg CO2, rounded to two places for display. */
  function CalculateEmissions(mode: Mode, distance: real): real {
    ToFixed(distance * Factor(mode), 2)
  }

  /** The savings against a car, as shown: the amount rounded to two places,
      and the percentage rounded to a whole number and read back by
      parseInt. A zero distance makes the percentage 0/0, which is NaN;
      `None` stands for it. */
  datatype Savings = Savings(amount: real, percentage: Option<int>)

  function CalculateSavings(mode: Mode, distance: real): Savings {
    var carEmissions := distance * Factor(Car);
    var currentEmissions := distance * Factor(mode);
    var savings := carEmissions - currentEmissions;
    Savings(ToFixed(savings, 2),
            if carEmissions == 0.0 then None
            else Some(WholeNumber(savings / carEmissions * 100.0)))
  }

  /** The message under the progress bar. */
  datatype Impact = Amazing | GreatJob | RightTrack

  /** Percentages of 75 and up are amazing, 40 and up a great job; NaN fails
      both comparisons and lands on the last message. */
  function ImpactOf(percentage: Option<int>): Impact {
    if percentage.Some? && percentage.value >= 75 then Amazing
    else if percentage.Some? && percentage.value >= 40 then GreatJob
    else RightTrack
  }

  /** Driving alone shows a tip; every other mode shows its savings. */
  datatype Panel = DrivingTip | SavingsPanel(amount: real, progress: Option<int>, impact: Impact)

  datatype View = View(emissions: real, panel: Panel)

  function CalculatorView(mode: Mode, distance: real): View {
    var savings := CalculateSavings(mode, distance);
    View(CalculateEmissions(mode, distance),
         if mode == Car then DrivingTip
         else SavingsPanel(savings.amount, savings.percentage, ImpactOf(savings.percentage)))
  }

  /** The share of a car's emissions a mode avoids, as the card rounds it. */
  function SavedPercent(mode: Mode): int {
    match mode
    case Car => 0
    case Carpool => 50
    case Bus => 73
    case Train => 79
    case Bike => 100
    case Walk => 100
  }

  lemma DistanceTimesFactor(mode: Mode, d: real)
    requires 0.0 <= d
    ensures 0.0 <= d * Factor(mode) <= d * Factor(Car)
    ensures Factor(mode) == 0.0 ==> d * Factor(mode) == 0.0
  {
    match mode
    case Car =>
    case Carpool =>
    case Bus =>
    case Train =>
    case Bike =>
    case Walk =>
  }

  /** For a non-negative distance the shown emissions lie between 0 and
      those of a car, within half a cent of the exact product, and are 0
      exactly for the modes that emit nothing. */
  lemma EmissionsBounds(mode: Mode, d: real)
    requires 0.0 <= d
    ensures 0.0 <= CalculateEmissions(mode, d) <= CalculateEmissions(Car, d)
    ensures -0.005 <= CalculateEmissions(mode, d) - d * Factor(mode) <= 0.005
    ensures Factor(mode) == 0.0 ==> CalculateEmissions(mode, d) == 0.0
  {
    DistanceTimesFactor(mode, d);
    ToFixedBetween(d * Factor(mode), d * Factor(Car), 2);
  }

  /** On the slider's range nothing shown exceeds a 50 km car commute. */
  lemma SliderEmissionsAtMost(mode: Mode, d: real)
    requires SliderDistance(d)
    ensures CalculateEmissions(mode, d) <= 9.6
  {
    EmissionsBounds(mode, d);
    ToFixedMonotone(d * Factor(Car), 50.0 * Factor(Car), 2);
    KnownScale(2);
    RoundWhole(960);
  }

  /** For a non-negative distance the saved amount is at least 0, at most
      the car's own emissions, 0 for a car, and within half a cent of the
      car's exact emissions minus the mode's. */
  lemma SavingsAmountBounds(mode: Mode, d: real)
    requires 0.0 <= d
    ensures 0.0 <= CalculateSavings(mode, d).amount <= CalculateEmissions(Car, d)
    ensures mode == Car ==> CalculateSavings(mode, d).amount == 0.0
    ensures -0.005 <= CalculateSavings(mode, d).amount - (d * Factor(Car) - d * Factor(mode)) <= 0.005
  {
    DistanceTimesFactor(mode, d);
    ToFixedBetween(d * Factor(Car) - d * Factor(mode), d * Factor(Car), 2);
  }

  lemma SavedShare(mode: Mode, d: real)
    requires d != 0.0
    ensures (d * Factor(Car) - d * Factor(mode)) / (d * Factor(Car)) * 100.0
            == (Factor(Car) - Factor(mode)) / Factor(Car) * 100.0
  {
    var q := (Factor(Car) - Factor(mode)) / Factor(Car);
    assert q * Factor(Car) == Factor(Car) - Factor(mode);
    assert q * (d * Factor(Car)) == d * Factor(Car) - d * Factor(mode);
  }

  /** The percentage is NaN exactly at distance 0; otherwise it does not
      depend on the distance and is the mode's share of a car's factor. */
  lemma SavingsPercentIgnoresDistance(mode: Mode, d: real)
    ensures CalculateSavings(mode, d).percentage.None? <==> d == 0.0
    ensures d != 0.0 ==>
              CalculateSavings(mode, d).percentage
              == Some(WholeNumber((Factor(Car) - Factor(mode)) / Factor(Car) * 100.0))
  {
    if d != 0.0 {
      SavedShare(mode, d);
    }
  }

  /** Carpooling saves half, the bus 73%, the train 79%, and cycling and
      walking all of a car's emissions. */
  lemma SavedPercentages(mode: Mode, d: real)
    requires d != 0.0
    ensures CalculateSavings(mode, d).percentage == Some(SavedPercent(mode))
    ensures 0 <= SavedPercent(mode) <= 100
  {
    SavingsPercentIgnoresDistance(mode, d);
    match mode
    case Car =>
      RoundWhole(0);
    case Carpool =>
      RoundWhole(50);
    case Bus =>
      assert (Factor(Car) - Factor(Bus)) / Factor(Car) * 100.0 + 0.5 == 73.0 + 5.0 / 12.0;
    case Train =>
      assert (Factor(Car) - Factor(Train)) / Factor(Car) * 100.0 + 0.5 == 79.0 + 7.0 / 48.0;
    case Bike =>
      RoundWhole(100);
    case Walk =>
      RoundWhole(100);
  }

  /** A higher percentage never earns a lesser message. */
  lemma ImpactMonotone(p: int, q: int)
    requires p <= q
    ensures ImpactOf(Some(p)) == Amazing ==> ImpactOf(Some(q)) == Amazing
    ensures ImpactOf(Some(p)) == GreatJob ==> ImpactOf(Some(q)) != RightTrack
  {
  }

  /** What the card shows for each mode at any slider distance: a tip for a
      car, "great job" for carpool and bus, "amazing" for train, bike and
      walk. */
  lemma ImpactByMode(mode: Mode, d: real)
    requires SliderDistance(d)
    ensures CalculatorView(mode, d).panel.DrivingTip? <==> mode == Car
    ensures mode == Carpool || mode == Bus ==> CalculatorView(mode, d).panel.impact == GreatJob
    ensures mode == Train || mode == Bike || mode == Walk ==>
              CalculatorView(mode, d).panel.impact == Amazing
    ensures mode != Car ==> CalculatorView(mode, d).panel.progress == Some(SavedPercent(mode))
  {
    SavedPercentages(mode, d);
  }

  /** The initial card: 1.92 kg for 10 km by car, and the driving tip. */
  lemma InitialCard()
    ensures CalculatorView(InitialMode, InitialDistance) == View(1.92, DrivingTip)
  {
    KnownScale(2);
    assert InitialDistance * Factor(Car) * 100.0 + 0.5 == 192.5;
    RoundWhole(192);
  }

  /** 15 km by train: exactly 0.615 kg, a tie, which rounds up to 0.62. */
  lemma TrainFifteenKilometres()
    ensures CalculateEmissions(Train, 15.0) == 0.62
  {
    KnownScale(2);
    assert 15.0 * Factor(Train) * 100.0 + 0.5 == 62.0;
    RoundWhole(62);
  }

  /** 10 km by bus: 0.52 kg, 1.40 kg saved, 73% less than driving. */
  lemma BusTenKilometres()
    ensures CalculatorView(Bus, 10.0) == View(0.52, SavingsPanel(1.4, Some(73), GreatJob))
  {
    KnownScale(2);
    assert 10.0 * Factor(Bus) * 100.0 + 0.5 == 52.5;
    assert (10.0 * Factor(Car) - 10.0 * Factor(Bus)) * 100.0 + 0.5 == 140.5;
    SavedPercentages(Bus, 10.0);
  }
}
