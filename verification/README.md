# Transit footprint hub: distance lookup and emissions arithmetic

This project models the computational core of a Navi Mumbai commuting app, in Dafny.

- **Distance lookup.** `calculateNaviMumbaiDistance` searches a fixed, ordered table. The table has 11 base locations, and each base has an ordered map of 13 target locations with distances in km. The search lower-cases both place names and tests substring containment. For each base in table order it tries the forward direction (the origin holds the base, the destination holds a target), then the reverse direction. It returns the first hit, or `null`.
- **Calculator card.** It computes the daily emissions of one transport mode at a slider distance, and the savings against driving alone. It then picks a message from the percentage saved.
- **Travel history card.** It sums emissions over the logged trips, and sums the potential saving if every car trip had gone by train. It shows per-trip emissions and chooses an improvement tip.
- **Travel log form.** Its submit handler rejects a missing origin or destination. It defaults the distance to 5 km when the lookup gives nothing, or gives 0. It stores the trip and clears the form.

Modules:

- `Optional`: the `Option` type.
- `Text`: ASCII lower-casing and substring containment.
- `DistanceCalculator`: the table, the search, and its first-match characterization.
- `DistanceTableFacts`: facts about the concrete table and worked lookups.
- `Emissions`: the modes, the factor table, and the `toFixed` rounding.
- `CarbonCalculator`, `TravelHistory` and `TravelLogForm`: the three components.

Numbers are exact `real`s. Rounding follows `toFixed` on exact decimals: round the magnitude to the nearest step, send a tie to the larger magnitude, then restore the sign. A NaN percentage (0 km) is `None`. The backend is a parameter: the signed-in user and the insert's error message come in as arguments. Every function is pure, so equal inputs give equal outputs by construction.

## Model

| member | source | states |
|---|---|---|
| `Text.ToLower` | src/utils/distanceCalculator.ts:172-173 | `toLowerCase()`: the result has the input's length, each A-Z becomes its a-z letter and every other character is kept (through `LowerChar`'s contract); see also `ToLowerIdempotent` and `ToLowerHasNoUpper` |
| `Text.Contains` | src/utils/distanceCalculator.ts:177-188 | `includes`: the key occurs at some position of the string, and the empty key everywhere (no contract; specified by `ContainsSelf`, `ContainsTransitive` and `AbsentCharNotContained`) |
| `Text.ToLowerIdempotent` | src/utils/distanceCalculator.ts:172-173 | lower-casing an already lower-cased string changes nothing |
| `Text.ToLowerHasNoUpper` | src/utils/distanceCalculator.ts:172-173 | a lower-cased string holds no letter A-Z |
| `Text.ContainsSelf` | src/utils/distanceCalculator.ts:177 | every string `includes` itself |
| `Text.ContainsTransitive` | src/utils/distanceCalculator.ts:177-179 | a string including k1 includes every substring of k1 |
| `Text.AbsentCharNotContained` | src/utils/distanceCalculator.ts:177-179 | a key with a character the string lacks is not included |
| `DistanceCalculator.NaviMumbaiDistances` | src/utils/distanceCalculator.ts:2-168 | the `naviMumbaiDistances` table, with bases and targets in insertion order (a constant; specified by `TableShape`, `TableValuesInRange`, `NoSelfTarget` and `KeysArePlaces`) |
| `DistanceCalculator.FindTargetFrom` | src/utils/distanceCalculator.ts:178-182 | the inner `Object.entries` loop from position j: the index of the first target the string includes, or nothing (no contract; specified by `FindTargetFromSpec`) |
| `DistanceCalculator.FindTarget` | src/utils/distanceCalculator.ts:178-182 | the inner loop over a whole map (no contract; specified by `FindTargetSpec` and `FirstTargetUnique`) |
| `DistanceCalculator.ResolveFrom` | src/utils/distanceCalculator.ts:176-192 | the outer loop from base i: the forward check, then the reverse check, per base, and the first hit (no contract; specified by `ResolveFromSpec`) |
| `DistanceCalculator.Resolve` | src/utils/distanceCalculator.ts:176-195 | the whole search: the first hit, or nothing for `return null` (no contract; specified by `ResolveSpec` and `ResolveIsFirstHit`) |
| `DistanceCalculator.NaviMumbaiDistance` | src/utils/distanceCalculator.ts:171-196 | `calculateNaviMumbaiDistance`: lower-case both inputs, search, and return the hit's distance or nothing (no contract; specified by `NaviMumbaiDistanceMissIff`, `NaviMumbaiDistanceAtFirstHit` and `NaviMumbaiDistanceCaseInsensitive`) |
| `DistanceCalculator.FindTargetFromSpec` | src/utils/distanceCalculator.ts:178-182 | the inner loop from position j returns the earliest contained target at or after j, and nothing exactly when there is none |
| `DistanceCalculator.FindTargetSpec` | src/utils/distanceCalculator.ts:178-182 | a base's map yields its earliest contained target, and nothing exactly when no target is contained |
| `DistanceCalculator.ResolveFromSpec` | src/utils/distanceCalculator.ts:176-195 | the outer loop from base i returns the first hit at or after i, and nothing exactly when no later base passes either check |
| `DistanceCalculator.ResolveSpec` | src/utils/distanceCalculator.ts:176-195 | the search returns nothing exactly when no base passes the forward or the reverse check, and otherwise a first hit |
| `DistanceCalculator.ResolveIsFirstHit` | src/utils/distanceCalculator.ts:176-192 | the search returns h exactly when h is the first hit: earliest base, forward before reverse, earliest target |
| `DistanceCalculator.FirstHitIsBaseHit` | src/utils/distanceCalculator.ts:177-191 | the base of a first hit passes the forward or the reverse check |
| `DistanceCalculator.FirstTargetUnique` | src/utils/distanceCalculator.ts:178-180 | only one index is the earliest contained target |
| `DistanceCalculator.FirstHitUnique` | src/utils/distanceCalculator.ts:176-192 | the first-hit conditions fix a single hit |
| `DistanceCalculator.ForwardWinsAtFirstBase` | src/utils/distanceCalculator.ts:177-183 | if a base passes the forward check and no earlier base hits, that base's forward match is returned, before any reverse check |
| `DistanceCalculator.ShadowedTargetNeverFound` | src/utils/distanceCalculator.ts:178-180 | a target whose key contains an earlier target's key is never returned |
| `DistanceCalculator.NaviMumbaiDistanceMissIff` | src/utils/distanceCalculator.ts:171-196 | the lookup returns `null` exactly when no base is held by one lower-cased input while one of its targets is held by the other |
| `DistanceCalculator.NaviMumbaiDistanceAtFirstHit` | src/utils/distanceCalculator.ts:171-196 | a non-null result is the distance stored at the first hit |
| `DistanceCalculator.NaviMumbaiDistanceCaseInsensitive` | src/utils/distanceCalculator.ts:172-173 | the result depends only on the lower-cased inputs |
| `DistanceCalculator.ScanTable` | src/utils/distanceCalculator.ts:176-195 | the nested loops with early return give the first hit's distance, or nothing exactly when the search misses |
| `DistanceCalculator.CalculateNaviMumbaiDistance` | src/utils/distanceCalculator.ts:171-196 | the function as written returns what the lookup specifies |
| `DistanceTableFacts.TableShape` | src/utils/distanceCalculator.ts:2-168 | 11 bases with 13 targets each |
| `DistanceTableFacts.TableValuesInRange` | src/utils/distanceCalculator.ts:2-168 | every stored distance lies in [0.0, 29.7]; belapur to cbd belapur is 0.0 and airoli to taloja is 29.7 |
| `DistanceTableFacts.NoSelfTarget` | src/utils/distanceCalculator.ts:3-167 | no base lists itself as a target |
| `DistanceTableFacts.NaviMumbaiDistanceInRange` | src/utils/distanceCalculator.ts:176-195 | a non-null result lies in [0.0, 29.7] |
| `DistanceTableFacts.VashiToNerul` | src/utils/distanceCalculator.ts:3-4 | ("Vashi", "Nerul") gives 5.2 |
| `DistanceTableFacts.ResolveNerulStationVashiCreek` | src/utils/distanceCalculator.ts:186-191 | ("nerul station", "vashi creek") hits base vashi, target nerul, by the reverse check |
| `DistanceTableFacts.NerulStationToVashiCreek` | src/utils/distanceCalculator.ts:186-191 | ("Nerul Station", "Vashi Creek") gives 5.2 |
| `DistanceTableFacts.CbdBelapurFirstInBelapurMap` | src/utils/distanceCalculator.ts:33-44 | in belapur's map the first target held by "cbd belapur" is itself, at index 10 |
| `DistanceTableFacts.ResolveBelapurCbdBelapur` | src/utils/distanceCalculator.ts:33-44 | ("belapur", "cbd belapur") hits base belapur, target cbd belapur, forward |
| `DistanceTableFacts.BelapurToCbdBelapur` | src/utils/distanceCalculator.ts:44 | ("Belapur", "CBD Belapur") gives 0.0 |
| `DistanceTableFacts.KeysArePlaces` | src/utils/distanceCalculator.ts:2-168 | the bases are, in order, the first eleven of the fourteen place names, and every target key is one of them |
| `DistanceTableFacts.BaseHoldsNoOtherPlace` | src/utils/distanceCalculator.ts:2-168 | no base name holds any other place name as a substring |
| `DistanceTableFacts.SameBaseNameMisses` | src/utils/distanceCalculator.ts:3-167 | a base name given as both origin and destination matches nothing |
| `DistanceTableFacts.VashiToVashi` | src/utils/distanceCalculator.ts:3-17 | ("Vashi", "Vashi") gives `null` |
| `DistanceTableFacts.CbdBelapurShadowed` | src/utils/distanceCalculator.ts:5-14 | outside belapur's map, "belapur" comes before "cbd belapur", so the cbd belapur entry is never the target found |
| `DistanceTableFacts.CbdBelapurOnlyFromBelapur` | src/utils/distanceCalculator.ts:176-192 | a hit on a cbd belapur entry always comes from belapur's map |
| `Emissions.ParseModeName` | src/components/CarbonCalculator.tsx:15-22 | reading back a mode's key gives the mode |
| `Emissions.ModeNameParse` | src/components/TravelHistory.tsx:13-20 | a string read as a mode is that mode's key |
| `Emissions.Factor` | src/components/TravelHistory.tsx:13-20 | the factor of each of the six modes (no contract; specified by `FactorOrder` and `FactorOfAgrees`) |
| `Emissions.EmissionFactors` | src/components/CarbonCalculator.tsx:15-22 | the `emissionFactors` object as key-factor pairs in its order (a constant; the same table as TravelHistory.tsx:13-20; specified by `FactorOfAgrees`) |
| `Emissions.FactorOf` | src/components/TravelHistory.tsx:89 | the factor of a mode read as a free string, falling back to 0 (no contract; specified by `FactorOfAgrees`) |
| `Emissions.FactorOfAgrees` | src/components/TravelHistory.tsx:89 | the factor lookup with its fallback to 0 (here and again at line 121) gives each mode's factor, and 0 for any other string |
| `Emissions.FactorOrder` | src/components/CarbonCalculator.tsx:15-22 | car > carpool > bus > train > bike = walk = 0, and carpool is half of car |
| `Emissions.ToFixed` | src/components/CarbonCalculator.tsx:26 | the value of `x.toFixed(digits)` on exact decimals (no contract; specified by the `ToFixed` lemmas below) |
| `Emissions.WholeNumber` | src/components/CarbonCalculator.tsx:40 | the integer `parseInt` reads back from `toFixed(0)` (also at lines 154 and 162-164) is the value of that string |
| `Emissions.ToFixedNearest` | src/components/CarbonCalculator.tsx:26 | the shown value is on the 10^-digits grid and at most half a step from the exact one |
| `Emissions.ToFixedOnGrid` | src/components/TravelHistory.tsx:122 | a value already on the grid is shown unchanged |
| `Emissions.ToFixedIdempotent` | src/components/TravelHistory.tsx:103-104 | rounding a rounded figure again changes nothing |
| `Emissions.ToFixedMonotone` | src/components/TravelHistory.tsx:103-104 | rounding keeps order |
| `Emissions.ToFixedSign` | src/components/CarbonCalculator.tsx:39 | rounding keeps the sign, fixes 0 and commutes with negation |
| `Emissions.ToFixedBetween` | src/components/CarbonCalculator.tsx:39 | a value between 0 and a bound is shown between 0 and the shown bound, within half a cent of itself |
| `CarbonCalculator.InitialMode` | src/components/CarbonCalculator.tsx:11-12 | the card opens on car (a constant; specified by `InitialCard`) |
| `CarbonCalculator.InitialDistance` | src/components/CarbonCalculator.tsx:11-12 | the card opens on 10 km (a constant; specified by `InitialCard`) |
| `CarbonCalculator.SliderDistance` | src/components/CarbonCalculator.tsx:116-123 | the distances the slider produces: whole km from 1 to 50 (no contract; used by `SliderEmissionsAtMost` and `ImpactByMode`) |
| `CarbonCalculator.CalculateEmissions` | src/components/CarbonCalculator.tsx:25-27 | `calculateEmissions`: distance × factor, rounded to two places (no contract; specified by `EmissionsBounds`, `SliderEmissionsAtMost` and the worked examples) |
| `CarbonCalculator.CalculateSavings` | src/components/CarbonCalculator.tsx:32-42 | `calculateSavings`: the amount saved against a car to two places, and the share saved as a whole percentage, NaN at 0 km (no contract; specified by `SavingsAmountBounds`, `SavingsPercentIgnoresDistance` and `SavedPercentages`) |
| `CarbonCalculator.ImpactOf` | src/components/CarbonCalculator.tsx:162-168 | the impact message for a parsed percentage (no contract; specified by `ImpactMonotone` and `ImpactByMode`) |
| `CarbonCalculator.CalculatorView` | src/components/CarbonCalculator.tsx:143-181 | what the card shows: the emissions, then the driving tip for a car or the savings panel otherwise (no contract; specified by `ImpactByMode`, `InitialCard` and `BusTenKilometres`) |
| `CarbonCalculator.DistanceTimesFactor` | src/components/CarbonCalculator.tsx:33-35 | for distance ≥ 0, 0 ≤ mode emissions ≤ car emissions, and a mode with factor 0 emits 0 |
| `CarbonCalculator.EmissionsBounds` | src/components/CarbonCalculator.tsx:25-27 | the shown emissions lie between 0 and the car's, within half a cent of distance × factor, and are 0 for bike and walk |
| `CarbonCalculator.SliderEmissionsAtMost` | src/components/CarbonCalculator.tsx:116-123 | on slider distances (whole km, 1 to 50) the shown emissions are at most 9.6 kg |
| `CarbonCalculator.SavingsAmountBounds` | src/components/CarbonCalculator.tsx:33-39 | the saved amount lies between 0 and the car's emissions, is 0 for a car, and is within half a cent of car minus mode |
| `CarbonCalculator.SavedShare` | src/components/CarbonCalculator.tsx:36 | for distance ≠ 0 the saved share equals (car − factor) / car × 100 |
| `CarbonCalculator.SavingsPercentIgnoresDistance` | src/components/CarbonCalculator.tsx:36-40 | the percentage is NaN exactly at 0 km; otherwise it is the rounded share, whatever the distance |
| `CarbonCalculator.SavedPercentages` | src/components/CarbonCalculator.tsx:36-40 | for distance ≠ 0: car 0, carpool 50, bus 73, train 79, bike and walk 100, all in [0, 100] |
| `CarbonCalculator.ImpactMonotone` | src/components/CarbonCalculator.tsx:162-168 | a higher percentage never gets a lesser message |
| `CarbonCalculator.ImpactByMode` | src/components/CarbonCalculator.tsx:148-181 | at every slider distance: car shows the tip, carpool and bus "great job", train, bike and walk "amazing"; the progress bar shows the mode's percentage |
| `CarbonCalculator.InitialCard` | src/components/CarbonCalculator.tsx:11-12 | the card opens on 1.92 kg for 10 km by car, with the driving tip |
| `CarbonCalculator.TrainFifteenKilometres` | src/components/CarbonCalculator.tsx:25-27 | 15 km by train is exactly 0.615 kg, a tie, shown as 0.62 on exact decimals |
| `CarbonCalculator.BusTenKilometres` | src/components/CarbonCalculator.tsx:26-40 | 10 km by bus shows 0.52 kg, saves 1.40 kg, 73%, "great job" |
| `TravelHistory.SumBy` | src/components/TravelHistory.tsx:88-101 | `reduce` from 0 over the rows in order (no contract; specified by `SumByAppend`, `SumByRemove`, `SumByPermutation`, `SumByMonotone` and `SumByScale`) |
| `TravelHistory.TripEmissions` | src/components/TravelHistory.tsx:89-90 | one row's term of the total: distance × factor, 0 for an unknown mode (no contract; specified by `TotalsOfAppendedTrip`) |
| `TravelHistory.CarTripSaving` | src/components/TravelHistory.tsx:95-100 | one row's term of the potential: distance × car − distance × train for a car trip, else 0 (no contract; specified by `TotalsOfAppendedTrip` and `PotentialIsCarDistanceTimesGap`) |
| `TravelHistory.CarTrips` | src/components/TravelHistory.tsx:144 | the number of rows whose mode is "car" (no contract; specified by `CarTripsAtMostTrips` and `NoCarTripsCount`) |
| `TravelHistory.TotalCO2` | src/components/TravelHistory.tsx:88-91 | the total-emissions reduce (no contract; specified by `TotalsOfAppendedTrip`, `SumByPermutation` and `PotentialWithinTotal`) |
| `TravelHistory.PotentialCO2Savings` | src/components/TravelHistory.tsx:94-101 | the potential-savings reduce over car trips (no contract; specified by `PotentialIsCarDistanceTimesGap` and `PotentialWithinTotal`) |
| `TravelHistory.FetchedStats` | src/components/TravelHistory.tsx:86-105 | the two figures after the fetch: both rounded to two places for a non-empty result, else left at 0 (no contract; specified by `CardAfterFetch`, `NoCarTripsPraised` and `EmptyHistory`) |
| `TravelHistory.GetEmissionsForTrip` | src/components/TravelHistory.tsx:120-123 | `getEmissionsForTrip` (no contract; specified by `TripEmissionsByMode`) |
| `TravelHistory.CarPercentage` | src/components/TravelHistory.tsx:144-146 | the share of car trips, 0 for an empty log (no contract; specified by `CarPercentageRange`) |
| `TravelHistory.GetImprovementTip` | src/components/TravelHistory.tsx:142-157 | `getImprovementTip` (no contract; specified by `AllCarTripsTip`, `NoCarTripsPraised` and `SwitchRemainingTip`) |
| `TravelHistory.HistoryCard` | src/components/TravelHistory.tsx:174-247 | the card after loading: the no-trips message for an empty log, otherwise the figures, the tip and the savings line when positive (no contract; specified by `CardAfterFetch` and `EmptyHistory`) |
| `TravelHistory.SumByAppend` | src/components/TravelHistory.tsx:88-101 | the total over concatenated logs is the sum of the two totals |
| `TravelHistory.SumByRemove` | src/components/TravelHistory.tsx:88-101 | removing one row removes exactly its term |
| `TravelHistory.SumByPermutation` | src/components/TravelHistory.tsx:79-101 | both totals are independent of the order the rows arrive in |
| `TravelHistory.SumByMonotone` | src/components/TravelHistory.tsx:88-101 | term-wise larger terms give a larger total |
| `TravelHistory.SumByScale` | src/components/TravelHistory.tsx:94-101 | scaling every term scales the total |
| `TravelHistory.TotalsOfAppendedTrip` | src/components/TravelHistory.tsx:88-101 | one more trip adds distance × factor (0 for an unknown mode) to the total, and distance × 0.151 to the potential if it is a car trip |
| `TravelHistory.PotentialIsCarDistanceTimesGap` | src/components/TravelHistory.tsx:94-101 | the potential saving is the car kilometres times (0.192 − 0.041) |
| `TravelHistory.PotentialWithinTotal` | src/components/TravelHistory.tsx:88-101 | with no negative distance, 0 ≤ potential saving ≤ total emissions |
| `TravelHistory.NoCarTripsNoPotential` | src/components/TravelHistory.tsx:94-101 | without car trips the potential saving is 0 |
| `TravelHistory.NoCarTripsCount` | src/components/TravelHistory.tsx:144 | without car trips the car-trip count is 0 |
| `TravelHistory.PotentialShownOnlyWithCarTrip` | src/components/TravelHistory.tsx:189-193 | the potential-savings line appears only if some car trip has a positive distance |
| `TravelHistory.TripEmissionsByMode` | src/components/TravelHistory.tsx:120-123 | a row's badge is the rounded distance × factor of its mode, and 0 for an unknown mode |
| `TravelHistory.CarTripsAtMostTrips` | src/components/TravelHistory.tsx:144-145 | car trips never exceed trips, and are all trips exactly when every trip is by car |
| `TravelHistory.CarPercentageRange` | src/components/TravelHistory.tsx:146 | the car share lies in [0, 100] and is 100 exactly for a non-empty all-car log |
| `TravelHistory.TipTiers` | src/components/TravelHistory.tsx:142-157 | with c car trips among n: the public-transport tip exactly when 10c > 7n, the replace-some tip exactly when 2n < 5c and 10c ≤ 7n, and otherwise the switch tip or "Great job" as the figure is above 5 or not |
| `TravelHistory.AllCarTripsTip` | src/components/TravelHistory.tsx:148-149 | an all-car history gets the public-transport tip |
| `TravelHistory.NoCarTripsPraised` | src/components/TravelHistory.tsx:86-105 | after the fetch, a history without car trips gets "Great job" |
| `TravelHistory.SwitchRemainingTip` | src/components/TravelHistory.tsx:150-153 | the switch tip is given exactly for car share ≤ 40 and shown saving > 5, and quotes the saving to within 0.05 |
| `TravelHistory.CardAfterFetch` | src/components/TravelHistory.tsx:174-193 | after the fetch the overview is shown exactly for a non-empty history, with the rounded total and the tip from the fetched figure, and a savings line only if some car trip has a positive distance |
| `TravelHistory.EmptyHistory` | src/components/TravelHistory.tsx:242-246 | an empty history keeps both figures at 0 and the card shows only the no-trips message, with no tip and no savings line; `getImprovementTip` would answer "Great job" on it but is never called |
| `TravelLogForm.InitialForm` | src/components/TravelLog.tsx:15-19 | the form's initial state: the given date, empty places and notes, car (no contract; specified by `InitialFormRejected`) |
| `TravelLogForm.LoggedDistance` | src/components/TravelLog.tsx:39-42 | the lookup's distance, with a falsy result (`null` or 0) replaced by 5 (no contract; specified by `LoggedDistanceRange`) |
| `TravelLogForm.HandleSubmit` | src/components/TravelLog.tsx:23-90 | `handleSubmit`: the place check, the distance, the sign-in check, the insert, and the form reset (no contract; specified by the lemmas below) |
| `TravelLogForm.LoggedDistanceRange` | src/components/TravelLog.tsx:39-42 | the stored distance is the lookup's when that is non-zero and 5 otherwise, so it always lies in (0, 29.7] |
| `TravelLogForm.MissingPlaceRejected` | src/components/TravelLog.tsx:26-33 | a submission is rejected as missing information exactly when origin or destination is empty |
| `TravelLogForm.LoggedExactly` | src/components/TravelLog.tsx:44-69 | a trip is stored exactly when both places are filled in, a user is signed in and the insert succeeds; the row carries the form, the user and the defaulted distance |
| `TravelLogForm.FailuresReported` | src/components/TravelLog.tsx:44-86 | a missing user is reported only after the place check, and a failed insert is reported with a non-empty message |
| `TravelLogForm.FormAfterSubmit` | src/components/TravelLog.tsx:76-79 | only a stored trip changes the form: it clears origin, destination and notes and keeps the date and mode |
| `TravelLogForm.InitialFormRejected` | src/components/TravelLog.tsx:15-33 | the form as it opens, with empty origin and destination, is refused with the missing-information message and left as it was, whoever is signed in |
| `TravelLogForm.ResubmitRejected` | src/components/TravelLog.tsx:26-33 | submitting again right after a stored trip is rejected |
| `TravelLogForm.VashiToNerulLogged` | src/components/TravelLog.tsx:39-42 | ("Vashi", "Nerul") stores 5.2 km |
| `TravelLogForm.BelapurToCbdBelapurLogged` | src/components/TravelLog.tsx:40-41 | ("Belapur", "CBD Belapur") is found at 0 km, which is falsy, so 5 km is stored |
| `TravelLogForm.SamePlaceLogged` | src/components/TravelLog.tsx:40-41 | ("Vashi", "Vashi") misses, so 5 km is stored |

## Left out

- `Text.ToLower` maps only ASCII A-Z. `String.prototype.toLowerCase` also maps other Unicode capitals, and some of them lower-case to ASCII letters: 'İ' becomes 'i' plus a combining dot. An input holding such capitals may therefore match differently in the browser.
- `Emissions.ToFixed` works on exact decimals. In IEEE doubles a product can fall just below a tie. 15 × 0.041 is stored as 0.61499999…, so the browser shows 0.61 for 15 km by train, while `CarbonCalculator.TrainFifteenKilometres` gives 0.62. 45 × 0.041 likewise shows 1.84 against the model's 1.85. Exponential output for values ≥ 10^21 is also not modelled. The model keeps the value a rounded string denotes, not its characters, so trailing zeros such as the 0 in "1.40" are not modelled.
- `Emissions.ToFixedNearest`, `Emissions.ToFixedOnGrid`, `Emissions.ToFixedIdempotent`, `Emissions.ToFixedMonotone`, `Emissions.ToFixedSign` and `Emissions.ToFixedBetween` are proved for 0 to 2 decimal places only. Those are the only places the components use.
- `Emissions.FactorOf`: a key such as "constructor" finds an inherited property of the object literal, and the sum becomes NaN. The model gives such keys 0.
- The mode radio groups of the calculator and the form are the `Mode` datatype, so they offer exactly the six modes. The history reads modes as free strings.
- Supabase: sign-in, the query and the insert are outside the model. They become parameters of the submit handler, or the input rows of the history. Error toasts, the loading flag and the rendering are left out too.
- The form's initial date comes from the clock (`new Date()`), so it is a parameter of `TravelLogForm.InitialForm`.
- Date formatting through date-fns, the mode icons and the badge colours are presentation only.
- The carpool list, transit updates, community, trip planner, header, footer, profile and index pages are outside the model. They hold mock data, markup, or a one-line seat subtraction over fetched rows.
