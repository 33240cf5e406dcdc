# lab1: a fallback cascade over a lookup table, in Dafny

`lab1.cpp` computes `fun(x, y, z)` through three algorithms. Each one falls
back on the next when a C++ exception reaches it:

- **The table.** `TableData::getValue` and `TableData::Tbl` form a
  piecewise-linear lookup table.
  - `getValue` tests for an empty table (lab1.cpp:75) before its exact-match
    scan (|x_i - x| < 1e-9); the order changes no result.
  - It then checks the range, which raises a range error carrying x.
  - Finally it interpolates on the first segment that brackets x.
  - `Tbl` also rejects x outside [-10, 10).
- **Algorithm 1** is floor-based: `Krl`, `Nrl`, `Grl`, `algorithm1`.
- **Algorithm 2** is its continuous variant, with a projection onto the unit
  circle: `Kr12`, `Nr12`, `Gr12`, `algorithm2`.
- **Algorithm 3** is the closed-form `algorithm3`.
- **The controller** is `computeFun`. It dispatches on the kind of exception
  that reaches it.
  - `computeFun` is not total. A range or empty-table error raised inside
    `algorithm2` escapes it, because the `catch (const exception&)` at
    lab1.cpp:256 is a sibling handler, not an enclosing one.
  - `main` catches such a failure (lab1.cpp:285-291).

The model has five modules:

- `Outcomes` (outcomes.dfy):
  - the exception hierarchy as the result type `Result = Ok(value) | Err(failure)`;
  - the helpers `Both`, `FirstErr` and `Floored`;
  - a few facts of real arithmetic.
  - Each `try`/`catch` becomes a match that rewrites only the failure kinds
    that frame catches.
  - The `Failure` kinds are: the file error, the range error (with its value),
    division by zero, a request to switch to algorithm 2 or 3, and the two
    `runtime_error`s of `getValue` ("No data loaded", "Interpolation failed").
- `LookupTable` (lookup_table.dfy):
  - `getValue` as the method `GetValue`, whose two scans are `while` loops. It
    is proved equal to the function `Lookup`.
  - `Tbl`, with its properties.
  - The function-local static table becomes an explicit parameter: either
    `Loaded(samples)` or `LoadFailed`.
  - A static whose initialiser throws is initialised again on the next call.
    So with a failed load, every `Tbl` call fails with the file error, and it
    does so before the [-10, 10) guard.
- `AlgorithmOne` (algorithm_one.dfy) and `AlgorithmTwo` (algorithm_two.dfy):
  the two chains, as pure functions over `Result`.
- `Cascade` (cascade.dfy): `algorithm3` and `computeFun`.

Evaluation order and the square root:

- Every sum of fallible calls is evaluated left to right, so the first failing
  operand's failure is the one seen. C++ leaves this order unspecified.
  - The order decides which of two failures is reported.
  - With an empty table, that can decide what `computeFun` does. In algorithm1,
    one Grl call may fail with "No data loaded" while another requests
    Algorithm 2 (input (3, 1, 2.5), `Cascade.EmptyTableFallsBack`).
  - Left to right, "No data loaded" wins and `computeFun` falls back on
    algorithm3.
  - In the other order, algorithm2 runs, and its own "No data loaded" error
    escapes `computeFun`.
- `Nr12` takes the square root as a parameter `sqrt: real -> real`. The
  properties that depend on its value require `IsSqrt(sqrt)`: the parameter
  returns the exact non-negative root. The escape example needs it exact only
  at 1 (`SqrtAt(sqrt, 1.0)`).

## Model

| member | source | states |
|---|---|---|
| LookupTable.GetValue | lab1.cpp:74-96 | The two scans with early return compute exactly `Lookup`: the loop invariants keep the first exact match and the first bracketing segment unchanged from the scan's start. |
| LookupTable.Lookup | lab1.cpp:74-96 | The empty-table error is raised exactly when there are no samples. Every failure is a table failure. A range error carries the queried x. |
| LookupTable.FirstNear | lab1.cpp:78-80 | The index found is the first sample within 1e-9 of x. None means no sample matches. |
| LookupTable.FirstBracket | lab1.cpp:88-89 | The index found is the first segment with x_i <= x <= x_{i+1}. None means no segment brackets x. |
| LookupTable.LookupExactMatch | lab1.cpp:78-80 | If sample i is the first exact match, the result is its y unchanged. This holds before any range check, for any table. |
| LookupTable.LookupRangeError | lab1.cpp:75-85 | Both directions: a range error carrying exactly x occurs iff the table is non-empty, no sample matches, and x < front.x or x > back.x. |
| LookupTable.Interpolate | lab1.cpp:90-91 | The interpolated point lies on the straight line through the two samples. |
| LookupTable.LookupInterpolates | lab1.cpp:88-92 | With no exact match and x in span, the result is the linear interpolant on the first bracketing segment, and x lies strictly inside that segment. |
| LookupTable.InterpolateBetween | lab1.cpp:88-92 | An interpolated value lies between the y values of its two samples. |
| LookupTable.BracketExists | lab1.cpp:88-93 | For x between sample `from` and the last sample, some later segment brackets x, even in an unsorted table. |
| LookupTable.LookupTotalInSpan | lab1.cpp:74-96 | Every query inside [front.x, back.x] of a non-empty table succeeds. |
| LookupTable.LookupNeverInterpolationFails | lab1.cpp:88-95 | The "Interpolation failed" error is unreachable for every table, sorted or not. |
| LookupTable.Tbl | lab1.cpp:98-101 | A failed load always yields the file error. Otherwise x outside [-10, 10) yields a range error carrying x, even if the table covers x. Only file, range and empty-table errors can come out. |
| LookupTable.SampleTableQueries | lab1.cpp:269-270 | On the driver's table, 0 is an exact match (10.1) and 2.5 interpolates to 8.485. |
| AlgorithmOne.SumQuot | lab1.cpp:109-120 | Tbl(a) + Tbl(b) / c fails only with a failure Tbl can raise, and a range error carries a or b. |
| AlgorithmOne.Substitute | lab1.cpp:122-126 | The value substituted after a division by zero: for x within 1e-9 of zero, the whole number floor(y + z), which lies in (y + z - 1, y + z]; otherwise x + 1. |
| AlgorithmOne.KrlTry | lab1.cpp:108-121 | The try block always runs one of its branches. Its only failures are the divide-by-zero throw and the failures Tbl can raise. |
| AlgorithmOne.Krl | lab1.cpp:107-128 | Division by zero never escapes: every failure is one Tbl can raise. |
| AlgorithmOne.KrlOperands | lab1.cpp:109-127 | One of the three branch guards always holds, so the final `return 0` is unreachable. The operands Krl divides with are a rotation of (x, y, z). |
| AlgorithmOne.KrlCases | lab1.cpp:107-128 | A divisor within 1e-9 of zero yields floor(y + z) if abs(x) < 1e-9, else x + 1. Otherwise Krl is the floor of Tbl(a) + Tbl(b) / c over its operands. |
| AlgorithmOne.KrlPassesTableFailure | lab1.cpp:107-128 | Any failure of Krl is one of its Tbl calls' failures, unchanged. |
| AlgorithmOne.KrlWithoutTable | lab1.cpp:107-128 | With a failed load, Krl returns the substitute value for a near-zero divisor and the file error otherwise. |
| AlgorithmOne.Nrl | lab1.cpp:130-133 | Every failure comes from the table. |
| AlgorithmOne.Grl | lab1.cpp:135-145 | Both directions: Grl requests Algorithm 2 iff floor(x + y) == floor(z). Every other failure comes from the table. |
| AlgorithmOne.Algorithm1 | lab1.cpp:147-158 | x outside [-10, 10) requests Algorithm 2 whatever the table. Only switch requests, or the empty-table error of an empty table, can come out. |
| AlgorithmOne.WeightedSum1FirstErr | lab1.cpp:150 | The sum x * Grl(x,y,z) + y * Grl(y,z,x) + z * Grl(z,x,y), evaluated left to right, is the weighted sum when no call fails, and otherwise fails with the first failing call's failure. |
| AlgorithmOne.Algorithm1Escalation | lab1.cpp:147-158 | Inside the domain, with no failing Grl call, the result is the weighted sum. Otherwise the first failure in left-to-right order decides: a file error becomes a request for Algorithm 3, a range error a request for Algorithm 2, and anything else (Grl's own request, the empty-table error) passes through. |
| AlgorithmOne.Algorithm1WithoutTable | lab1.cpp:147-158 | With a failed load, algorithm1 succeeds or requests Algorithm 2 or 3. |
| AlgorithmTwo.Kr12Operands | lab1.cpp:164-172 | A branch is taken only for a divisor farther than 1e-9 from zero, and its operands are a rotation of (x, y, z). |
| AlgorithmTwo.Kr12Try | lab1.cpp:163-176 | Both directions: the try block throws the divide-by-zero error iff none of the three branches applies. Its other failures are the ones Tbl can raise. |
| AlgorithmTwo.Kr12 | lab1.cpp:162-182 | Division by zero never escapes: every failure is one Tbl can raise. |
| AlgorithmTwo.Kr12Recovers | lab1.cpp:173-181 | When no branch applies, Kr12 returns floor(y + z) if abs(x) < 1e-9, else x + 1, without consulting the table. |
| AlgorithmTwo.Kr12PassesTableFailure | lab1.cpp:162-182 | Any failure of Kr12 is one of its Tbl calls' failures, unchanged. |
| AlgorithmTwo.KrlFloorsKr12 | lab1.cpp:162-182 | Wherever Kr12 divides (except x > 0 and y > 1), Krl is the floor of Kr12. |
| AlgorithmTwo.Nr12 | lab1.cpp:184-196 | Every failure comes from the table. |
| AlgorithmTwo.Nr12Scaled | lab1.cpp:191-195 | Every failure comes from the table. |
| AlgorithmTwo.NormBelowTolerance | lab1.cpp:185-186 | With an exact root, sqrt(s) < 1e-9 iff s < 1e-18. |
| AlgorithmTwo.Nr12Sentinel | lab1.cpp:184-189 | A point with x*x + y*y < 1e-18 yields the sentinel -0.05. |
| AlgorithmTwo.NormalizedWithinUnit | lab1.cpp:191-195 | A coordinate divided by the norm lies in [-1, 1]. |
| AlgorithmTwo.UnitCoordinates | lab1.cpp:185-195 | The coordinates Nr12 passes to Kr12 lie in [-1, 1]. |
| AlgorithmTwo.Gr12 | lab1.cpp:198-204 | Gr12 never requests another algorithm: every failure comes from the table. |
| AlgorithmTwo.Algorithm2 | lab1.cpp:206-222 | x outside [-10, 10) yields abs(x) / 10. Every failure is a request for Algorithm 3 or a failure of the loaded table. |
| AlgorithmTwo.WeightedSum2FirstErr | lab1.cpp:213-216 | The sum of the four weighted Gr12 calls, evaluated left to right, is the weighted sum when no call fails, and otherwise fails with the first failing call's failure. |
| AlgorithmTwo.Algorithm2Escalation | lab1.cpp:206-222 | Inside the domain, with no failing Gr12 call, the result is the weighted sum. Otherwise the first failure in left-to-right order decides: a file error becomes a request for Algorithm 3, and any other failure passes through unchanged. |
| AlgorithmTwo.Nr12ScaledOk | lab1.cpp:191-195 | With a table covering [-1, 1] and both divided coordinates in [-1, 1], the Kr12 step of Nr12 succeeds. |
| AlgorithmTwo.Nr12OkOnCoveringTable | lab1.cpp:184-196 | With an exact root and a table covering [-1, 1], Nr12 never fails. |
| AlgorithmTwo.Algorithm2OkOnCoveringTable | lab1.cpp:206-222 | With an exact root and a table covering [-1, 1], algorithm2 always succeeds. |
| AlgorithmTwo.Algorithm2WithoutTable | lab1.cpp:206-222 | With a failed load, algorithm2 succeeds or requests Algorithm 3. |
| Cascade.Algorithm3 | lab1.cpp:226-228 | The fallback always yields a value. Two identities of its formula: at y = 0 the value is 1.3498 z, and at x = 2.2362 / 2.348 it is also 1.3498 z. |
| Cascade.ComputeFun | lab1.cpp:232-261 | Only a range error, or the empty-table error of an empty table, can reach the caller, and only with a loaded table. |
| Cascade.ComputeFunFailsIff | lab1.cpp:236-255 | Both directions: a failure reaches the caller iff algorithm1 requests a switch and algorithm2 then fails with something other than a request. That failure is algorithm2's. |
| Cascade.ComputeFunAfterAlgorithm1 | lab1.cpp:236-260 | algorithm1's success is returned. Its non-request failure (only the empty-table error) leads to algorithm3. |
| Cascade.ComputeFunAfterSwitch | lab1.cpp:240-254 | After a switch request, algorithm2's success is returned and its request leads to algorithm3. |
| Cascade.ComputeFunOutsideDomain | lab1.cpp:232-261 | x outside [-10, 10) yields abs(x) / 10 whatever the table. |
| Cascade.DriverOutOfDomainCases | lab1.cpp:274-279 | The driver's cases (15, 2, 3) and (-20, 1, 1) yield 1.5 and 2. |
| Cascade.ComputeFunWithoutTable | lab1.cpp:232-261 | With a failed load, computeFun always succeeds. |
| Cascade.ComputeFunOnCoveringTable | lab1.cpp:232-261 | With an exact root and a table covering [-1, 1], computeFun always succeeds. |
| Cascade.ComputeFunOnDriverTable | lab1.cpp:269-270 | With an exact root and the driver's table, computeFun always succeeds. |
| Cascade.EmptyTableFallsBack | lab1.cpp:135-158 | With an empty table and the query (3, 1, 2.5), the first Grl call fails with "No data loaded" and the second requests Algorithm 2. Left to right, algorithm1 fails with "No data loaded" and computeFun returns algorithm3's value. |
| Cascade.ComputeFunRangeErrorEscapes | lab1.cpp:240-256 | A failure does reach the caller. With samples only on [0, 5], the query (-0.6, 1, 0.8) ends in the range error for -0.6, raised inside algorithm2, for any square root that is exact at 1. |

## Left out

- Loading the data file is left out. This covers `loadData`, the `ifstream`
  parsing (lab1.cpp:53-62), and the creation and removal of the test file in
  `main`. Only the outcome is modelled, as `Loaded(samples)` or `LoadFailed`.
- `main`'s test loop, the interactive loop and all `cout`/`cerr` diagnostics
  are left out. They do not affect returned values.
- Exception message strings, and the mechanics of the function-local static,
  are left out. The table is a parameter instead.
- `double` becomes `real`: IEEE-754 rounding, NaN and infinities are not
  modelled. The 1e-9 tolerances are exact real comparisons.
- Nr12OkOnCoveringTable: the `sqrt` parameter stands in for the library square
  root. Properties about it assume an exact root, whereas the library's is
  correctly rounded.
- The evaluation order of operands is fixed left to right. C++ leaves it
  unspecified. Other orders are not modelled: with an empty table, another
  order can turn the algorithm3 fallback into an escaping "No data loaded"
  error.
- Cascade.Algorithm3: the source promises nothing about `algorithm3` beyond its
  formula, so its contract states only the formula's shape.
