# Soil calculator core, modelled in Dafny

The soil calculator works out how much soil a raised bed needs and which
bags to buy to hold it. This project models its four services over exact
real numbers:

- **Catalog** (`catalog.dfy`, `BagSizeRepository` with the `active()` and
  `ordered()` scopes of the `BagSize` model). These are read-only views of a
  snapshot of the `bag_sizes` rows: the active bags, the active bags by
  descending weight, by ascending price per kg, and the lightest active bag.
  Every ordering is one stable insertion sort, `SortBy`, proved to return a
  sorted permutation of its input.
- **Optimizer** (`optimizer.dfy`, `BagOptimizationService`).
  - `GetSimpleCombination` is imperative, like the source. It has three
    phases:
    - the greedy `foreach` loop (`Accumulate`), which keeps the insertion
      order and the counts of the accumulation map;
    - the one-unit top-up of the last bag (`TopUp`);
    - the conversion loop (`Assemble`), which looks each key up by name.
  - The method is proved equal to `Combine`, an index-based reference
    definition of the same greedy choice (`Takes`, `Leftover`, `Counts`,
    `Entries`).
  - The service's promises are lemmas about `Combine`: it never under-fills,
    the top-up adds exactly one unit of the last bag, entries are positive
    and in bag order, and the totals and wastage agree with the entries.
  - The fallback buys ceil(required / weight) units of the lightest bag, or
    reports that no bag sizes are available.
- **Soil** (`soil.dfy`, `SoilCalculationService`). This covers:
  - the bed's volume;
  - the soil mass for a soil type;
  - the litres, rounded;
  - the list of soil types.

  The density table is a parameter, built by `ConfiguredDensities` from
  optional overrides, with defaults of 1.3 and 1.1 tonnes/m³.
- **Units** (`units.dfy`, `UnitConversionService`). The table of factors to
  metres, the validation of units (the source unit is checked first) and
  conversion through metres. Lemmas prove that converting to the same unit,
  converting there and back, and converting in two hops are all exact.
- **Scenarios** (`scenarios.dfy`). The seeded catalog (25 kg at £4, 600 kg at
  £90, 1000 kg at £140) worked through the optimizer:
  - 750 kg, met exactly;
  - 760 kg, which needs a top-up;
  - 5 kg;
  - the fallback for 760 kg.

  A two-bag catalog shows that under the 'cost' objective the top-up can add
  the heaviest bag.
- `numbers.dfy` holds floor, ceiling and PHP's `round()`, which rounds halves
  away from zero. `wrappers.dfy` holds `Option` and `Result`.

Exceptions become `Result`/`Option` values:

| exception | modelled as |
|---|---|
| `RuntimeException('No bag sizes available')` | `NoBagSizesAvailable` |
| invalid soil type | `InvalidSoilType` |
| unsupported units | `UnsupportedFromUnit` / `UnsupportedToUnit` |

## Model

| member | source | states |
|---|---|---|
| Catalog.Active | app/Models/BagSize.php:24-27 | keeps every active row with its multiplicity and drops every inactive one |
| Catalog.SortBy | app/Repositories/BagSizeRepository.php:19-34 | the result is a permutation of the input, sorted under the ordering, and keeps names distinct |
| Catalog.GetActiveBags | app/Repositories/BagSizeRepository.php:14-17 | exactly the active bags (as a multiset), all active, ordered by sort_order and then by weight |
| Catalog.GetBagsSortedByWeight | app/Repositories/BagSizeRepository.php:19-24 | exactly the active bags, weights non-increasing |
| Catalog.GetBagsSortedByPricePerKg | app/Repositories/BagSizeRepository.php:26-34 | exactly the active bags, reindexed, price/weight non-decreasing |
| Catalog.GetSmallestBag | app/Repositories/BagSizeRepository.php:36-51 | None iff no bag is active; otherwise an active bag no heavier than any active bag |
| Catalog.LastByWeightIsLightest | app/Repositories/BagSizeRepository.php:19-24 | the last bag of the weight-descending view is a lightest active bag |
| Optimizer.FindOptimalCombination | app/Services/BagOptimizationService.php:17-22 | the greedy combination over the bags sorted for the objective; consistent totals; covers any positive requirement when a bag is active; empty for an empty catalog or a negative requirement |
| Optimizer.GetSortedBags | app/Services/BagOptimizationService.php:50-57 | 'cost' gives the active bags by ascending price per kg; any other objective gives them by descending weight; always a permutation of the active bags |
| Optimizer.GetSimpleCombination | app/Services/BagOptimizationService.php:59-111 | the imperative loops compute exactly the reference combination `Combine`, and its totals and wastage figures agree with its entries |
| Optimizer.Accumulate | app/Services/BagOptimizationService.php:61-76 | the map and its key order tally the greedy entries; what remains is the leftover, equal to the requirement less the weight taken; the running cost is the cost of the entries |
| Optimizer.TopUp | app/Services/BagOptimizationService.php:78-85 | turns the tally, remaining and cost of the greedy entries into those of the topped-up counts |
| Optimizer.Assemble | app/Services/BagOptimizationService.php:87-99 | walking the keys in insertion order and finding each bag by name rebuilds exactly the tallied entries |
| Optimizer.TallyTopUp | app/Services/BagOptimizationService.php:81-82 | the top-up bag already has a key iff the loop took it; after the update the map tallies the topped-up entries |
| Optimizer.TallyAppend | app/Services/BagOptimizationService.php:70-72 | a bag visited for the first time gets a new key at the end of the key order |
| Optimizer.LoopStep | app/Services/BagOptimizationService.php:66-76 | one pass of the loop moves one bag's entry from the unvisited part to the done part and keeps the leftover |
| Optimizer.RemainderBounds | app/Services/BagOptimizationService.php:69-73 | floor(remaining / weight) units leave between 0 and less than one unit, never more than there was |
| Optimizer.GreedyNeverOvershoots | app/Services/BagOptimizationService.php:66-76 | the leftover is the requirement less the weight taken, lies in [0, requirement], and is less than the last bag's weight |
| Optimizer.LeftoverIsUncovered | app/Services/BagOptimizationService.php:62-76 | for any requirement, the leftover is the requirement less the weight taken |
| Optimizer.NothingTakenOnceCovered | app/Services/BagOptimizationService.php:67 | once nothing remains, the loop takes no more bags |
| Optimizer.GreedyStep | app/Services/BagOptimizationService.php:66-76 | one greedy step leaves less than that bag's weight, and the rest of the loop runs on what is left |
| Optimizer.TopUpAddsLastBag | app/Services/BagOptimizationService.php:79-85 | one more unit of the last bag adds exactly its weight and its price to the totals |
| Optimizer.TopUpSums | app/Services/BagOptimizationService.php:79-85 | when mass remains, the topped-up totals are the greedy totals plus one unit of the last bag |
| Optimizer.TopUpBagIsLightest | app/Services/BagOptimizationService.php:78-80 | under any objective but 'cost', the bag the top-up adds is a lightest active bag |
| Optimizer.CountsCover | app/Services/BagOptimizationService.php:66-85 | the topped-up weight covers the requirement by less than one unit of the last bag, and exceeds it iff the top-up ran |
| Optimizer.CombineCovers | app/Services/BagOptimizationService.php:59-111 | with bags, total_weight ≥ required and total_weight < required + the last bag's weight; total_weight > required iff mass remained after the loop; with no bags, empty and zero |
| Optimizer.NothingRequired | app/Services/BagOptimizationService.php:67-79 | a negative requirement buys nothing: no entries, zero weight and cost |
| Optimizer.CombineEntries | app/Services/BagOptimizationService.php:70-99 | every entry has count ≥ 1 and carries the name, weight and price of the bag its name finds, and entries follow the bag order |
| Optimizer.EntriesFound | app/Services/BagOptimizationService.php:89-98 | with distinct names, looking up each entry's name finds a bag with that name, weight and price |
| Optimizer.EntriesFromBags | app/Services/BagOptimizationService.php:70-72 | every entry has count ≥ 1 and names a bag of the list |
| Optimizer.EntriesFollowBagOrder | app/Services/BagOptimizationService.php:88-99 | entries appear in strictly increasing bag position, which is the first-insertion order of their names |
| Optimizer.FirstWhereFindsBag | app/Services/BagOptimizationService.php:90 | with distinct names, firstWhere on a bag's name returns that bag |
| Optimizer.IndexOf | app/Services/BagOptimizationService.php:90 | the position of the first bag with the name, or -1 when none has it |
| Optimizer.FirstWhere | app/Services/BagOptimizationService.php:90 | the first bag of the list with that name, or none when no bag has it |
| Optimizer.UnitsToCoverBounds | app/Services/BagOptimizationService.php:32 | ceil(required / weight) units cover the requirement and one fewer would not; at least one for a positive requirement |
| Optimizer.GetFallbackCombination | app/Services/BagOptimizationService.php:24-47 | error iff no bag is active; otherwise one entry of the smallest bag's name, weight and price, covering with the fewest units, with consistent totals and wastage |
| Optimizer.FallbackWithoutBags | app/Services/BagOptimizationService.php:26-30 | with no active bag the fallback raises 'No bag sizes available' for any requirement, zero included, before any division |
| Optimizer.FallbackFor | app/Services/BagOptimizationService.php:32-47 | one entry for the bag, count = the fewest units that cover, totals and wastage consistent with it |
| Numbers.Round | app/Services/BagOptimizationService.php:45-46 | round(x, places), counted in units of the last kept place, is the whole number that x rounds to half away from zero: at most `places` decimals, within half a unit of x |
| Numbers.RoundHalfAwayFromZero | app/Services/SoilCalculationService.php:55 | the nearest integer, halves away from zero; exact on integers |
| Numbers.FloorDivision | app/Services/BagOptimizationService.php:69 | floor(x / w) units of w fit in x and one more would not |
| Numbers.CeilDivision | app/Services/BagOptimizationService.php:32 | ceil(x / w) units of w cover x and one fewer would not |
| Soil.ConfiguredDensities | app/Services/SoilCalculationService.php:17-23 | the table has exactly the keys intensive and extensive; each holds the override or else the default 1.3 / 1.1 |
| Soil.CalculateVolume | app/Services/SoilCalculationService.php:25-28 | positive for positive dimensions, zero when any dimension is zero |
| Soil.GetSoilDensity | app/Services/SoilCalculationService.php:44-51 | error InvalidSoilType iff the type is not in the table; otherwise the table's density |
| Soil.CalculateSoilRequired | app/Services/SoilCalculationService.php:30-34 | fails exactly when the density lookup fails, with the same error; otherwise kg / 1000 = volume × density, positive for positive inputs |
| Soil.GetSoilTypes | app/Services/SoilCalculationService.php:36-42 | exactly the keys intensive and extensive, titled Intensive and Extensive, each with the density that getSoilDensity returns |
| Soil.CalculateLiters | app/Services/SoilCalculationService.php:53-56 | within half a litre of volume × 1000, non-negative for a non-negative volume, exact for whole litres |
| Soil.LitersOfWholeCubicMeters | app/Services/SoilCalculationService.php:53-56 | k cubic metres are exactly 1000·k litres |
| Soil.DefaultSoilRequired | app/Services/SoilCalculationService.php:17-34 | with the defaults, a volume v takes 1300·v kg of intensive and 1100·v kg of extensive soil |
| Soil.OnlyConfiguredTypes | app/Services/SoilCalculationService.php:44-48 | with a configured table, the soil calculation succeeds iff the type is intensive or extensive |
| Soil.SoilRequiredScales | app/Services/SoilCalculationService.php:30-34 | the soil mass is linear in the volume |
| Units.Lookup | app/Services/UnitConversionService.php:34-43 | None iff the unit is not a key of the table; otherwise the factor paired with it |
| Units.GetSupportedUnits | app/Services/UnitConversionService.php:29-32 | the keys of the factor table, in order |
| Units.SupportedUnits | app/Services/UnitConversionService.php:12-16 | the supported units are exactly meters, feet and inches, a unit has a factor iff it is among them, and every factor is positive |
| Units.ValidateUnits | app/Services/UnitConversionService.php:34-43 | no error iff both units are supported; an unsupported source unit is reported first, then an unsupported target unit |
| Units.Convert | app/Services/UnitConversionService.php:18-27 | fails exactly when validation fails, with its error; otherwise result × factor(to) = value × factor(from) |
| Units.ConvertIdentity | app/Services/UnitConversionService.php:18-27 | converting to the same supported unit returns the value |
| Units.ConvertRoundTrip | app/Services/UnitConversionService.php:18-27 | converting there and back returns the value |
| Units.ConvertCompose | app/Services/UnitConversionService.php:18-27 | converting through an intermediate unit equals converting directly |
| Units.InchesFeetMeters | app/Services/UnitConversionService.php:12-16 | 12 inches convert to 1 foot, and 1 foot to 0.3048 metres |
| Scenarios.SeededActive | database/seeders/BagSizeSeeder.php:15-37 | every seeded bag is active, with positive weights and distinct names |
| Scenarios.SeededOrders | app/Repositories/BagSizeRepository.php:19-34 | on the seeded catalog both objectives visit tonne, bulk, standard |
| Scenarios.SeededSmallest | app/Repositories/BagSizeRepository.php:36-51 | the smallest seeded bag is the 25 kg bag |
| Scenarios.Exact750 | app/Services/BagOptimizationService.php:59-111 | 750 kg: one bulk and six standard bags, 750 kg, £114, no wastage |
| Scenarios.TopUp760 | app/Services/BagOptimizationService.php:78-85 | 760 kg: one bulk and seven standard bags, 775 kg, £118, 2.0 % and 15 kg wastage |
| Scenarios.Small5 | app/Services/BagOptimizationService.php:78-85 | 5 kg: one standard bag from the top-up alone, 25 kg, £4, 400.0 % and 20 kg wastage |
| Scenarios.SeededOptimal760 | app/Services/BagOptimizationService.php:17-22 | findOptimalCombination on the seeded catalog for 760 kg, under any objective |
| Scenarios.SeededFallback760 | app/Services/BagOptimizationService.php:24-47 | the fallback for 760 kg: 31 standard bags, 775 kg, £124, 2.0 % and 15 kg wastage |
| Scenarios.CostTopUpAddsDearBag | app/Services/BagOptimizationService.php:78-80 | under 'cost', when the cheapest bag per kg is the lightest, 30 kg is topped up with a 1000 kg bag, for 1025 kg |

## Left out

- Floating point. Weights and prices are `decimal(8,2)` and are modelled as
  exact reals. PHP's float arithmetic and the pre-rounding of `round()` are
  not modelled, so the figures are the exact values that the floats
  approximate.
- The `(int)` casts of `floor`, `ceil` and `round` are modelled as exact
  integers. The overflow of very large floats is not modelled.
- The order of bags with equal sort keys. Neither the query nor `sortBy`
  fixes it. `SortBy` keeps the stored order, which is one of the orders
  the database may return. Where keys tie, the exact results that
  FindOptimalCombination, GetSimpleCombination and GetFallbackCombination
  state (through `GetSortedBags` and `GetSmallestBag`) are the results for
  that order, not for every order the source allows. Their other
  contracts (consistency, coverage, a lightest bag) hold for any order.
- Catalog.GetSmallestBag: returns the whole `Bag` rather than an array of
  its name, weight and price. Of several equally light bags, the query
  names no particular one. The model takes the first in stored order, and
  the contract promises only an active bag that no active bag is lighter
  than.
- Soil.GetSoilTypes: returns a title and a density instead of the
  formatted label string `'Intensive (1.3 tonnes/m³)'`. Number-to-string
  formatting is not modelled. The function requires both keys to be in
  the table, and `ConfiguredDensities` always provides them.
- Soil.CalculateVolume: the contract gives only the sign of the volume.
  The volume being the product of the dimensions is its definition.
- The catalog and the optimizer assume the active bags have positive
  weights and distinct names. The source would divide by zero on a zero
  weight, and would merge two bags that share a name under one key.
- FindOptimalCombination, GetSimpleCombination and Combine require a
  non-zero requirement. For zero, PHP raises a division-by-zero error.
  GetFallbackCombination requires a non-zero requirement only when a bag
  is active. With no active bag it returns the 'No bag sizes available'
  error before any division, for a zero requirement too
  (`FallbackWithoutBags`).
- FindOptimalCombination takes the objective as an argument. The source's
  default `'wastage'` is not modelled. Any string other than `"cost"`,
  `"wastage"` included, gives the weight-descending order that the default
  selects.
- Optimizer.CombineCovers requires a positive requirement. A negative one
  is covered by `NothingRequired`.
- GetSimpleCombination: the `optimizeBy` argument is accepted and unused,
  as in the source.
- Reading the configuration, the `.env` overrides and the database is not
  modelled. The density table and the catalog snapshot are parameters.
- The controller, views, routes, providers, interfaces, migration and
  seeder runner are not modelled. Request validation, JSON shaping and
  logging are not modelled either.
- PHP's numeric-string array keys are not modelled. Names are plain
  strings.
