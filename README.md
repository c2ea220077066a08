# OD demand records and the BPR travel cost function

This project models two small pieces of a traffic-assignment code base in
Dafny and proves properties about them.

- `origin_destination.dfy`, module `OriginDestinations`, models
  `DataStructures/Utilities/OriginDestination.h`:
  - The `OriginDestination` record is a value triple (origin, destination,
    volume) of C++ `int`s. The datatype constructor plays the part of the C++
    constructor. `Less` is its `operator<`, lexicographic on (origin,
    destination).
  - `ClusteredOriginDestination` adds an origin zone and a destination zone.
    `Clustered` is its constructor, with the C++ argument order.
    `ClusteredLess` is its refined `operator<`, where the zones dominate.
    `HasSameZones` is `hasSameZones`.
  - `ImportODPairs` and `ImportClusteredODPairs` are the two loaders. Each is
    a loop over rows that the table reader has already parsed, and it appends
    one record per row.
  - Both orders are proved to be strict orders, against a reference
    lexicographic order on integer keys (`LexLess`). `hasSameZones` is proved
    to be an equivalence that the clustered order refines. A sequence sorted
    by the clustered order is proved to keep every zone-to-zone group
    contiguous.
- `bpr_function.dfy`, module `BprFunction`, models
  `Algorithms/TrafficAssignment/TravelCostFunctions/BprFunction.h`:
  - The five members of `BprFunction` are modelled with exact real
    arithmetic: the travel time `t0 * (1 + 0.15 * (x / c)^4)`, its first and
    second derivative, its antiderivative and its integral from 0.
  - The graph is reduced to the two per-edge attributes the class reads,
    capacity and free-flow travel time.
  - Each operation is tied to its partners by exact identities:
    - the Taylor expansions of the cost, the derivative and the
      antiderivative, whose coefficients are the other operations;
    - the algebraic links between the cost, the derivative and the
      antiderivative.
  - The integral is proved to lie between the lower and the upper Riemann
    sums of the cost over every uniform partition of non-negative flows.
  - Sign and monotonicity facts are also proved: the cost is increasing and
    convex on non-negative flows, strictly so when the free-flow time is
    positive.

## Model

| member | source | states |
|---|---|---|
| OriginDestinations.LexLessIrreflexive | DataStructures/Utilities/OriginDestination.h:17-20 | the reference lexicographic order never relates a key to itself |
| OriginDestinations.LexLessTransitive | DataStructures/Utilities/OriginDestination.h:17-20 | the reference lexicographic order is transitive |
| OriginDestinations.LexLessTrichotomy | DataStructures/Utilities/OriginDestination.h:34-45 | two keys of one length are equal or ordered one way or the other |
| OriginDestinations.LessIsLexicographic | DataStructures/Utilities/OriginDestination.h:18-20 | `operator<` holds exactly when the (origin, destination) key is lexicographically smaller |
| OriginDestinations.LessIgnoresVolume | DataStructures/Utilities/OriginDestination.h:18-20 | changing the volumes of either pair never changes the outcome of `operator<` |
| OriginDestinations.LessIsStrictOrder | DataStructures/Utilities/OriginDestination.h:18-20 | `operator<` is irreflexive, asymmetric and transitive |
| OriginDestinations.LessIncomparableIff | DataStructures/Utilities/OriginDestination.h:18-20 | two pairs are incomparable exactly when origin and destination agree, whatever the volumes |
| OriginDestinations.Clustered | DataStructures/Utilities/OriginDestination.h:31-32 | the clustered constructor stores o, d and v in the base pair and oZone, dZone in the zone fields |
| OriginDestinations.ClusteredLessIsLexicographic | DataStructures/Utilities/OriginDestination.h:35-45 | the clustered `operator<` is exactly lexicographic order on (originZone, destinationZone, origin, destination) |
| OriginDestinations.OriginZoneDominates | DataStructures/Utilities/OriginDestination.h:35-39 | a smaller origin zone makes a record less and a larger one makes it not less, whatever the other fields |
| OriginDestinations.DestinationZoneThenEndpoints | DataStructures/Utilities/OriginDestination.h:40-44 | with equal origin zones the destination zone decides the same way; with both zones equal the result is the base `operator<` |
| OriginDestinations.ClusteredLessIsStrictOrder | DataStructures/Utilities/OriginDestination.h:35-45 | the clustered `operator<` is irreflexive, asymmetric and transitive |
| OriginDestinations.ClusteredIncomparableHasSameZones | DataStructures/Utilities/OriginDestination.h:35-50 | records the clustered order cannot tell apart satisfy `hasSameZones` and have the same origin and destination |
| OriginDestinations.HasSameZonesIsEquivalence | DataStructures/Utilities/OriginDestination.h:48-50 | `hasSameZones` is reflexive, symmetric and transitive |
| OriginDestinations.HasSameZonesIgnoresEndpoints | DataStructures/Utilities/OriginDestination.h:48-50 | `hasSameZones` does not depend on origin, destination or volume |
| OriginDestinations.SortedGroupsAreContiguous | DataStructures/Utilities/OriginDestination.h:35-50 | in a sequence sorted by the clustered order, every record between two records with the same zones has those zones too |
| OriginDestinations.ImportODPairs | DataStructures/Utilities/OriginDestination.h:57-73 | one record per row, in row order, each with the row's origin, destination and volume; every record is non-negative, as the loop asserts for each row |
| OriginDestinations.ImportClusteredODPairs | DataStructures/Utilities/OriginDestination.h:76-92 | one record per row, in row order, with the row's fields and each zone defaulting to `INVALID_ID` when its column is missing; with both zone columns missing every two records satisfy `hasSameZones`; the volume is not required to be non-negative |
| BprFunction.Cost | Algorithms/TrafficAssignment/TravelCostFunctions/BprFunction.h:14-17 | the travel time at zero flow is the free-flow time, and it is never below the free-flow time when that is non-negative |
| BprFunction.Derivative | Algorithms/TrafficAssignment/TravelCostFunctions/BprFunction.h:20-23 | the slope is 0 at zero flow and non-negative on non-negative flows |
| BprFunction.SecondDerivative | Algorithms/TrafficAssignment/TravelCostFunctions/BprFunction.h:26-29 | the curvature is 0 at zero flow and never negative |
| BprFunction.Antiderivative | Algorithms/TrafficAssignment/TravelCostFunctions/BprFunction.h:32-35 | the antiderivative vanishes at 0 and is at least t0 * x on non-negative flows |
| BprFunction.Integral | Algorithms/TrafficAssignment/TravelCostFunctions/BprFunction.h:38-40 | the integral from 0 to b equals the antiderivative at b, and is 0 for b = 0 |
| BprFunction.CostAtCapacity | Algorithms/TrafficAssignment/TravelCostFunctions/BprFunction.h:14-17 | at a flow equal to the capacity the travel time is 1.15 times the free-flow time |
| BprFunction.CostMonotone | Algorithms/TrafficAssignment/TravelCostFunctions/BprFunction.h:14-17 | the travel time is non-decreasing on non-negative flows, strictly increasing when the free-flow time is positive |
| BprFunction.DerivativeMonotone | Algorithms/TrafficAssignment/TravelCostFunctions/BprFunction.h:20-23 | the derivative is non-decreasing on non-negative flows, strictly increasing when the free-flow time is positive, so the cost is convex there |
| BprFunction.SecondDerivativePositive | Algorithms/TrafficAssignment/TravelCostFunctions/BprFunction.h:26-29 | with a positive free-flow time the curvature is strictly positive at every non-zero flow, so the cost is strictly convex |
| BprFunction.CostDerivativeLink | Algorithms/TrafficAssignment/TravelCostFunctions/BprFunction.h:14-23 | x times the derivative equals 4 times the congestion penalty, cost minus free-flow time |
| BprFunction.AntiderivativeCostLink | Algorithms/TrafficAssignment/TravelCostFunctions/BprFunction.h:14-35 | the antiderivative equals t0 * x plus x times the congestion penalty divided by 5 |
| BprFunction.CostExpansion | Algorithms/TrafficAssignment/TravelCostFunctions/BprFunction.h:14-29 | the cost at x + h is exactly its Taylor polynomial around x, whose first two coefficients are `derivative` and `secondDerivative` |
| BprFunction.DerivativeExpansion | Algorithms/TrafficAssignment/TravelCostFunctions/BprFunction.h:20-29 | the derivative at x + h is exactly its Taylor polynomial around x, whose first coefficient is `secondDerivative` |
| BprFunction.AntiderivativeExpansion | Algorithms/TrafficAssignment/TravelCostFunctions/BprFunction.h:14-35 | the antiderivative at x + h is exactly its Taylor polynomial around x, whose first coefficients are the cost, `derivative` and `secondDerivative` |
| BprFunction.IntegralBetweenRectangles | Algorithms/TrafficAssignment/TravelCostFunctions/BprFunction.h:14-40 | over a step [a, a + h] of non-negative flows the integral grows by at least h times the cost at a and at most h times the cost at a + h |
| BprFunction.SumsBound | Algorithms/TrafficAssignment/TravelCostFunctions/BprFunction.h:38-40 | a function whose every step lies between rectangles under f has every run of n steps between the lower and upper Riemann sums of f |
| BprFunction.SumsGap | Algorithms/TrafficAssignment/TravelCostFunctions/BprFunction.h:38-40 | the upper and lower Riemann sums of any f differ by h times the rise of f over the range |
| BprFunction.IntegralBetweenRiemannSums | Algorithms/TrafficAssignment/TravelCostFunctions/BprFunction.h:14-40 | the integral over any uniform partition of non-negative flows lies between the lower and the upper Riemann sum of the cost |
| BprFunction.RiemannSumsGap | Algorithms/TrafficAssignment/TravelCostFunctions/BprFunction.h:14-40 | the two Riemann sums of the cost differ by h times the rise of the cost, so they close in on the integral as h shrinks |
| BprFunction.ExampleEdge | Algorithms/TrafficAssignment/TravelCostFunctions/BprFunction.h:14-40 | for free-flow time 10 and capacity 100: cost 11.5 at flow 100, cost 10, slope 0, curvature 0 and integral 0 at flow 0 |

## Left out

- Reading the demand files. The CSV reader (`csv.h`) splits lines, trims
  whitespace, skips `#` comments, matches the header by column name and
  rejects values that overflow `int`. It is a foreign library and is not part
  of this model. Each loader takes the rows it would produce. The clustered
  loader also takes a flag per zone column saying whether the header names
  it.
- The value of `INVALID_ID`. `Tools/Constants.h` is not part of this model,
  so `InvalidId` is an integer constant of unknown value. No property depends
  on its value.
- The loaders' `assert`s become preconditions on the rows. A release build
  compiles them away, and what such a build does with negative values is not
  modelled.
- Missing origin, destination or volume columns in a clustered demand file.
  The reader accepts them, but the code then appends records built from
  uninitialised locals. That behaviour is undefined, so it is not modelled:
  every row carries those three values.
- Zone columns are handled one by one. One zone column can be present while
  the other is missing: each zone falls back to `INVALID_ID` by itself, as
  the reader's per-column ignore policy does.
- Floating point. The BPR members compute in `double`. The model uses exact
  reals, so rounding, overflow, infinities and NaN are not captured. Every
  BPR lemma holds for exact arithmetic only.
- The graph. The `Graph` class is not part of this model. It is reduced to
  two sequences indexed by edge: capacity and free-flow travel time.
  - Every operation requires a positive capacity, since the code divides by
    it.
  - The sign and order lemmas also require a non-negative free-flow time.
  - How long the stored graph reference lives is not modelled.
- The macros `APT`, `XTH` and `XEND` in `BprFunction.h` are never used by the
  class, so they are not modelled.
- Negative flows. The code does not reject them, and the model computes them
  like any other flow. The sign and monotonicity lemmas are stated for
  non-negative flows only, where the source's use of the function lies.
- `ThirdDerivative` and `FourthDerivative` are not members of the class. They
  are ghost definitions that exist only to state the exact expansions.
