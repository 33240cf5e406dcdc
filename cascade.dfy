/** The cascade controller of lab1.cpp: algorithm3 and computeFun. */
module Cascade {
  import opened Outcomes
  import opened LookupTable
  import opened AlgorithmOne
  import opened AlgorithmTwo

  /** algorithm3: the closed-form fallback; it cannot throw. At y == 0 only
      the z term is left, and at x == 2.2362 / 2.348 the two y terms cancel. */
  function Algorithm3(x: real, y: real, z: real): (r: real)
    ensures y == 0.0 ==> r == 1.3498 * z
    ensures x * 2.348 == 2.2362 ==> r == 1.3498 * z
  {
    1.3498 * z + 2.2362 * y - 2.348 * x * y
  }

  /** computeFun. The handler for AlgorithmChangeException wraps algorithm2 in
      its own try that catches only AlgorithmChangeException; the handler for
      std::exception is a sibling of the outer one, so it catches what
      algorithm1 throws but not what escapes algorithm2. Such a failure
      reaches the caller: only range and empty-table errors can. */
  function ComputeFun(t: Table, sqrt: real -> real, x: real, y: real, z: real): (r: Result)
    ensures r.Err? ==> t.Loaded? && (r.failure.RangeErr? || (t.points == [] && r.failure == NoData))
  {
    match Algorithm1(t, x, y, z)
    case Ok(v) => Ok(v)
    case Err(Switch(_)) =>
      (match Algorithm2(t, sqrt, x, y, z)
       case Ok(v) => Ok(v)
       case Err(Switch(_)) => Ok(Algorithm3(x, y, z))
       case Err(f) => Err(f))
    case Err(_) => Ok(Algorithm3(x, y, z))
  }

  /** A failure reaches the caller exactly when algorithm1 asks for another
      algorithm and algorithm2 then throws something other than a request;
      the failure is algorithm2's. */
  lemma ComputeFunFailsIff(t: Table, sqrt: real -> real, x: real, y: real, z: real)
    ensures ComputeFun(t, sqrt, x, y, z).Err?
        <==> Algorithm1(t, x, y, z).Err? && Algorithm1(t, x, y, z).failure.Switch?
             && Algorithm2(t, sqrt, x, y, z).Err? && !Algorithm2(t, sqrt, x, y, z).failure.Switch?
    ensures ComputeFun(t, sqrt, x, y, z).Err? ==> ComputeFun(t, sqrt, x, y, z) == Algorithm2(t, sqrt, x, y, z)
  {}

  /** The result of algorithm1 is returned when it succeeds; a failure of
      algorithm1 that is not a request for another algorithm (only the
      empty-table error can be one) skips algorithm2 and uses algorithm3. */
  lemma ComputeFunAfterAlgorithm1(t: Table, sqrt: real -> real, x: real, y: real, z: real)
    ensures Algorithm1(t, x, y, z).Ok? ==> ComputeFun(t, sqrt, x, y, z) == Algorithm1(t, x, y, z)
    ensures Algorithm1(t, x, y, z).Err? && !Algorithm1(t, x, y, z).failure.Switch?
        ==> t == Loaded([]) && ComputeFun(t, sqrt, x, y, z) == Ok(Algorithm3(x, y, z))
  {}

  /** Whichever algorithm algorithm1 asks for (2 or 3), algorithm2 runs
      next; its own request leads to algorithm3. */
  lemma ComputeFunAfterSwitch(t: Table, sqrt: real -> real, x: real, y: real, z: real)
    ensures var first := Algorithm1(t, x, y, z);
      (first.Err? && first.failure.Switch? && Algorithm2(t, sqrt, x, y, z).Ok?) ==>
        ComputeFun(t, sqrt, x, y, z) == Algorithm2(t, sqrt, x, y, z)
    ensures var first := Algorithm1(t, x, y, z);
      (first.Err? && first.failure.Switch? && Algorithm2(t, sqrt, x, y, z) == Err(Switch(3))) ==>
        ComputeFun(t, sqrt, x, y, z) == Ok(Algorithm3(x, y, z))
  {}

  /** x outside [-10, 10): algorithm1 asks for algorithm2, which returns
      |x| / 10, whatever the table (the driver's cases (15, 2, 3) and
      (-20, 1, 1)). */
  lemma ComputeFunOutsideDomain(t: Table, sqrt: real -> real, x: real, y: real, z: real)
    requires x < -10.0 || x >= 10.0
    ensures ComputeFun(t, sqrt, x, y, z) == Ok(Abs(x) / 10.0)
  {}

  lemma DriverOutOfDomainCases(t: Table, sqrt: real -> real)
    ensures ComputeFun(t, sqrt, 15.0, 2.0, 3.0) == Ok(1.5)
    ensures ComputeFun(t, sqrt, -20.0, 1.0, 1.0) == Ok(2.0)
  {
    ComputeFunOutsideDomain(t, sqrt, 15.0, 2.0, 3.0);
    ComputeFunOutsideDomain(t, sqrt, -20.0, 1.0, 1.0);
  }

  /** With a failed load nothing reaches the caller. */
  lemma ComputeFunWithoutTable(sqrt: real -> real, x: real, y: real, z: real)
    ensures ComputeFun(LoadFailed, sqrt, x, y, z).Ok?
  {}

  /** With an exact square root and a table covering [-1, 1] (the driver's
      table covers [-10, 10]), nothing reaches the caller. */
  lemma ComputeFunOnCoveringTable(t: Table, sqrt: real -> real, x: real, y: real, z: real)
    requires CoversUnit(t) && IsSqrt(sqrt)
    ensures ComputeFun(t, sqrt, x, y, z).Ok?
  {
    Algorithm2OkOnCoveringTable(t, sqrt, x, y, z);
  }

  lemma ComputeFunOnDriverTable(sqrt: real -> real, x: real, y: real, z: real)
    requires IsSqrt(sqrt)
    ensures ComputeFun(Loaded(SampleTable()), sqrt, x, y, z).Ok?
  {
    ComputeFunOnCoveringTable(Loaded(SampleTable()), sqrt, x, y, z);
  }

  /** A failure does reach the caller: with samples only on [0, 5], the query
      (-0.6, 1, 0.8) makes Grl ask for algorithm2 (floor(0.4) == floor(0.8)),
      whose first Nr12 call passes (0.8, -0.6, 0.8) to Kr12, and Tbl(-0.6) is
      below the first sample. */
  lemma ComputeFunRangeErrorEscapes(sqrt: real -> real)
    requires SqrtAt(sqrt, 1.0)
    ensures ComputeFun(Loaded(HalfTable()), sqrt, -0.6, 1.0, 0.8) == Err(RangeErr(-0.6))
  {
    HalfTableAlgorithm1();
    HalfTableNr12(sqrt);
    assert Gr12(Loaded(HalfTable()), sqrt, -0.6, 1.0, 0.8) == Err(RangeErr(-0.6));
  }

  /** With an empty table and the query (3, 1, 2.5), the first Grl call of
      algorithm1 fails with "No data loaded" (through Nrl(3, 2.5), Krl(3, 2.5, 3)
      and Tbl(2.5)), ahead of the second call's request for Algorithm 2
      (floor(3.5) == floor(3)). Evaluated left to right, computeFun therefore
      falls back on algorithm3. */
  lemma EmptyTableFallsBack(sqrt: real -> real)
    ensures Grl(Loaded([]), 3.0, 1.0, 2.5) == Err(NoData)
    ensures Grl(Loaded([]), 1.0, 2.5, 3.0) == Err(Switch(2))
    ensures Algorithm1(Loaded([]), 3.0, 1.0, 2.5) == Err(NoData)
    ensures ComputeFun(Loaded([]), sqrt, 3.0, 1.0, 2.5) == Ok(Algorithm3(3.0, 1.0, 2.5))
  {
    assert Krl(Loaded([]), 3.0, 2.5, 3.0) == Err(NoData);
  }

  /** Samples on [0, 5] only. */
  function HalfTable(): seq<Point> {
    [Point(0.0, 1.0), Point(5.0, 2.0)]
  }

  lemma HalfTableAlgorithm1()
    ensures Algorithm1(Loaded(HalfTable()), -0.6, 1.0, 0.8) == Err(Switch(2))
  {
    assert Grl(Loaded(HalfTable()), -0.6, 1.0, 0.8) == Err(Switch(2));
  }

  lemma HalfTableNr12(sqrt: real -> real)
    requires SqrtAt(sqrt, 1.0)
    ensures Nr12(Loaded(HalfTable()), sqrt, -0.6, 0.8) == Err(RangeErr(-0.6))
  {
    assert (-0.6) * (-0.6) + 0.8 * 0.8 == 1.0;
    UnitRoot(sqrt(1.0));
    Nr12Cases(Loaded(HalfTable()), sqrt, -0.6, 0.8);
    HalfTableKr12();
    assert Nr12Scaled(Loaded(HalfTable()), -0.6, 0.8, 1.0) == Err(RangeErr(-0.6));
  }

  lemma HalfTableKr12()
    ensures Kr12(Loaded(HalfTable()), 0.8, -0.6, 0.8) == Err(RangeErr(-0.6))
  {
    var t := Loaded(HalfTable());
    LookupTotalInSpan(t.points, 0.8);
    LookupRangeError(t.points, -0.6);
  }

  lemma UnitRoot(r: real)
    requires 0.0 <= r && r * r == 1.0
    ensures r == 1.0
  {
    SquaresOrdered(r, 1.0);
    SquaresOrdered(1.0, r);
  }
}
