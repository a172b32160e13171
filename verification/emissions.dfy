/** Transport modes, their CO2 emission factors, and the fixed-point
    rounding the components apply before they show an emission figure. */
module Emissions {
  import opened Optional

  /** The six transport modes the radio groups offer. */
  datatype Mode = Car | Carpool | Bus | Train | Bike | Walk

  /** The value a radio item carries for a mode, which is also the key of
      the factor table and what a travel log stores as its transport mode. */
  function ModeName(m: Mode): string {
    match m
    case Car => "car"
    case Carpool => "carpool"
    case Bus => "bus"
    case Train => "train"
    case Bike => "bike"
    case Walk => "walk"
  }

  /** The mode a stored transport-mode string names, if it names one. */
  function ParseMode(s: string): Option<Mode> {
    if s == "car" then Some(Car)
    else if s == "carpool" then Some(Carpool)
    else if s == "bus" then Some(Bus)
    else if s == "train" then Some(Train)
    else if s == "bike" then Some(Bike)
    else if s == "walk" then Some(Walk)
    else None
  }

  lemma ParseModeName(m: Mode)
    ensures ParseMode(ModeName(m)) == Some(m)
  {
  }

  lemma ModeNameParse(s: string)
    ensures ParseMode(s).Some? ==> ModeName(ParseMode(s).value) == s
  {
  }

  /** Kilograms of CO2 per kilometre. */
  function Factor(m: Mode): real {
    match m
    case Car => 0.192
    case Carpool => 0.096
    case Bus => 0.052
    case Train => 0.041
    case Bike => 0.0
    case Walk => 0.0
  }

  /** The factor object literal, as (key, kg CO2 per km) in declaration
      order; the calculator and the travel history declare the same one. */
  const EmissionFactors: seq<(string, real)> :=
    [("car", 0.192), ("carpool", 0.096), ("bus", 0.052),
     ("train", 0.041), ("bike", 0.0), ("walk", 0.0)]

  function LookupFrom(table: seq<(string, real)>, key: string, i: nat): real
    requires i <= |table|
    decreases |table| - i
  {
    if i == |table| then 0.0
    else if table[i].0 == key then table[i].1
    else LookupFrom(table, key, i + 1)
  }

  /** `emissionFactors[key] || 0`: the stored factor for a known key, and 0
      for any other key (a missing property is undefined, which is falsy). */
  function FactorOf(key: string): real {
    LookupFrom(EmissionFactors, key, 0)
  }

  /** The object literal agrees with the per-mode factors: a key that names a
      mode gets that mode's factor and every other key gets 0. */
  lemma FactorOfAgrees(key: string)
    ensures FactorOf(key) == (if ParseMode(key).Some? then Factor(ParseMode(key).value) else 0.0)
  {
    var t := EmissionFactors;
    assert t[0].0 == "car" && t[1].0 == "carpool" && t[2].0 == "bus";
    assert t[3].0 == "train" && t[4].0 == "bike" && t[5].0 == "walk";
    assert LookupFrom(t, key, 6) == 0.0;
  }

  /** Car is the dirtiest mode, carpool halves it, and bike and walk emit
      nothing; bus and train sit strictly in between. */
  lemma FactorOrder(m: Mode)
    ensures 0.0 <= Factor(m) <= Factor(Car)
    ensures Factor(m) == 0.0 <==> m == Bike || m == Walk
    ensures Factor(m) == Factor(Car) <==> m == Car
    ensures Factor(Carpool) * 2.0 == Factor(Car)
    ensures Factor(Walk) < Factor(Train) < Factor(Bus) < Factor(Carpool)
  {
  }

  function Pow10(digits: nat): (r: real)
    ensures r >= 1.0
  {
    if digits == 0 then 1.0 else 10.0 * Pow10(digits - 1)
  }

  /** 10^digits, for use in the rounding below. */
  function Scale(digits: nat): (r: real)
    ensures r >= 1.0
  {
    Pow10(digits)
  }

  /** Rounds to the nearest whole number, a tie going to the larger
      magnitude. */
  function RoundHalfAway(z: real): int {
    if z < 0.0 then -((-z + 0.5).Floor) else (z + 0.5).Floor
  }

  /** The value of the string `x.toFixed(digits)`: the magnitude is rounded
      to the nearest multiple of 10^-digits, a tie going to the larger
      magnitude, and the sign is put back. */
  function ToFixed(x: real, digits: nat): real {
    RoundHalfAway(x * Scale(digits)) as real / Scale(digits)
  }

  /** `parseInt(x.toFixed(0))`: the nearest whole number, ties away from 0. */
  function WholeNumber(x: real): (r: int)
    ensures r as real == ToFixed(x, 0)
  {
    RoundHalfAway(x)
  }

  /** r is a multiple of 10^-digits. */
  predicate OnGrid(r: real, digits: nat) {
    var scaled := r * Scale(digits);
    scaled.Floor as real == scaled
  }

  lemma RoundHalfAwayNearest(z: real)
    ensures -0.5 <= RoundHalfAway(z) as real - z <= 0.5
  {
  }

  lemma RoundHalfAwayMonotone(z1: real, z2: real)
    requires z1 <= z2
    ensures RoundHalfAway(z1) <= RoundHalfAway(z2)
  {
    if z1 < 0.0 && 0.0 <= z2 {
      assert RoundHalfAway(z1) <= 0 <= RoundHalfAway(z2);
    }
  }

  lemma RoundWhole(k: int)
    ensures RoundHalfAway(k as real) == k
  {
    if k < 0 {
      assert (-(k as real) + 0.5).Floor == -k;
    } else {
      assert (k as real + 0.5).Floor == k;
    }
  }

  /** The scales of the decimal places the components round to. */
  lemma KnownScale(digits: nat)
    requires digits <= 2
    ensures digits == 0 ==> Scale(digits) == 1.0
    ensures digits == 1 ==> Scale(digits) == 10.0
    ensures digits == 2 ==> Scale(digits) == 100.0
  {
  }

  /** The rounded value is a multiple of 10^-digits no more than half a
      step from x. */
  lemma ToFixedNearest(x: real, digits: nat)
    requires digits <= 2
    ensures OnGrid(ToFixed(x, digits), digits)
    ensures -0.5 <= (ToFixed(x, digits) - x) * Scale(digits) <= 0.5
  {
    KnownScale(digits);
    RoundHalfAwayNearest(x * Scale(digits));
  }

  /** A multiple of 10^-digits is left as it is. */
  lemma ToFixedOnGrid(x: real, digits: nat)
    requires digits <= 2 && OnGrid(x, digits)
    ensures ToFixed(x, digits) == x
  {
    KnownScale(digits);
    RoundWhole((x * Scale(digits)).Floor);
  }

  lemma ToFixedIdempotent(x: real, digits: nat)
    requires digits <= 2
    ensures ToFixed(ToFixed(x, digits), digits) == ToFixed(x, digits)
  {
    ToFixedNearest(x, digits);
    ToFixedOnGrid(ToFixed(x, digits), digits);
  }

  /** Rounding keeps the order of its arguments. */
  lemma ToFixedMonotone(x: real, y: real, digits: nat)
    requires digits <= 2 && x <= y
    ensures ToFixed(x, digits) <= ToFixed(y, digits)
  {
    KnownScale(digits);
    RoundHalfAwayMonotone(x * Scale(digits), y * Scale(digits));
  }

  /** A value between 0 and an upper bound is shown between 0 and the shown
      bound, and within half a step of itself. */
  lemma ToFixedBetween(x: real, hi: real, digits: nat)
    requires digits <= 2 && 0.0 <= x <= hi
    ensures 0.0 <= ToFixed(x, digits) <= ToFixed(hi, digits)
    ensures x == 0.0 ==> ToFixed(x, digits) == 0.0
    ensures digits == 2 ==> -0.005 <= ToFixed(x, digits) - x <= 0.005
  {
    ToFixedSign(x, digits);
    ToFixedMonotone(x, hi, digits);
    ToFixedNearest(x, digits);
    KnownScale(digits);
  }

  /** Rounding keeps the sign of its argument, fixes 0, and commutes with
      negation. */
  lemma ToFixedSign(x: real, digits: nat)
    requires digits <= 2
    ensures 0.0 <= x ==> 0.0 <= ToFixed(x, digits)
    ensures x <= 0.0 ==> ToFixed(x, digits) <= 0.0
    ensures ToFixed(0.0, digits) == 0.0
    ensures ToFixed(-x, digits) == -ToFixed(x, digits)
  {
    KnownScale(digits);
    RoundWhole(0);
    if 0.0 <= x {
      RoundHalfAwayMonotone(0.0, x * Scale(digits));
    } else {
      RoundHalfAwayMonotone(x * Scale(digits), 0.0);
    }
  }
}
