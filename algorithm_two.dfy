/** Algorithm 2 of lab1.cpp: Kr12 -> Nr12 -> Gr12 -> algorithm2, continuous-valued.

    `sqrt` has no counterpart here; the chain takes the square root as a
    parameter, and the properties that depend on it assume that it is exact
    (IsSqrt). */
module AlgorithmTwo {
  import opened Outcomes
  import opened LookupTable
  import opened AlgorithmOne

  /** `sqrt(s)` is the exact square root of `s`. */
  ghost predicate SqrtAt(sqrt: real -> real, s: real) {
    0.0 <= sqrt(s) && sqrt(s) * sqrt(s) == s
  }

  /** `sqrt` is exact on every non-negative argument. */
  ghost predicate IsSqrt(sqrt: real -> real) {
    forall s {:trigger SqrtAt(sqrt, s)} :: 0.0 <= s ==> SqrtAt(sqrt, s)
  }

  /** The operands (a, b, c) of the branch Kr12 takes, read as
      Tbl(a) + Tbl(b) / c; None when no branch applies and Kr12 throws the
      divide-by-zero error. A branch is taken only for a divisor farther than
      1e-9 from zero. */
  function Kr12Operands(x: real, y: real, z: real): (o: Option<Triple>)
    ensures o.Some? ==> Abs(o.value.c) > Eps
    ensures o.Some? ==> o.value == Triple(x, y, z) || o.value == Triple(y, z, x) || o.value == Triple(z, x, y)
  {
    if x > 0.0 && Abs(z) > Eps then Some(Triple(x, y, z))
    else if x < 0.0 && y > 1.0 && Abs(x) > Eps then Some(Triple(y, z, x))
    else if x <= 0.0 && y <= 1.0 && Abs(y) > Eps then Some(Triple(z, x, y))
    else None
  }

  /** Kr12 takes one of its three branches, and divides. */
  predicate Kr12Divides(x: real, y: real, z: real) {
    Kr12Operands(x, y, z).Some?
  }

  /** The try block of Kr12: the divide-by-zero throw exactly when no branch
      applies; otherwise the failures of the table. */
  function Kr12Try(t: Table, x: real, y: real, z: real): (r: Result)
    ensures r == Err(ZeroDiv) <==> !Kr12Divides(x, y, z)
    ensures r.Err? && r != Err(ZeroDiv) ==> Raisable(t, r.failure)
  {
    match Kr12Operands(x, y, z)
    case None => Err(ZeroDiv)
    case Some(o) => SumQuot(t, o.a, o.b, o.c)
  }

  /** Kr12: the divide-by-zero throw is caught and replaced by Substitute. */
  function Kr12(t: Table, x: real, y: real, z: real): (r: Result)
    ensures r.Err? ==> Raisable(t, r.failure)
  {
    match Kr12Try(t, x, y, z)
    case Err(ZeroDiv) => Ok(Substitute(x, y, z))
    case outcome => outcome
  }

  /** When none of Kr12's branches applies, it returns the substitute value
      without consulting the table, even when the table failed to load. */
  lemma Kr12Recovers(t: Table, x: real, y: real, z: real)
    requires !Kr12Divides(x, y, z)
    ensures Kr12(t, x, y, z) == Ok(Substitute(x, y, z))
  {}

  /** Wherever Kr12 divides, Krl divides by the same operand and returns the
      floor of Kr12's outcome (Algorithm 2 is the unfloored variant), except
      for x > 0 and y > 1, where Krl takes its second branch and Kr12 its
      first. */
  lemma KrlFloorsKr12(t: Table, x: real, y: real, z: real)
    requires Kr12Divides(x, y, z) && !(x > 0.0 && y > 1.0)
    ensures Krl(t, x, y, z) == Floored(Kr12(t, x, y, z))
  {
    KrlCases(t, x, y, z);
  }

  /** Any failure of Kr12 is the failure of one of its Tbl calls, unchanged. */
  lemma Kr12PassesTableFailure(t: Table, x: real, y: real, z: real)
    ensures var r := Kr12(t, x, y, z);
      r.Err? ==> r == Tbl(t, x) || r == Tbl(t, y) || r == Tbl(t, z)
  {}

  /** Nr12: project (x, y) onto the unit circle; a norm below 1e-9 yields the
      sentinel -0.05 instead of a division. */
  function Nr12(t: Table, sqrt: real -> real, x: real, y: real): (r: Result)
    ensures r.Err? ==> Raisable(t, r.failure)
  {
    var norm := sqrt(x * x + y * y);
    if Abs(norm) < Eps then Ok(-0.05) else Nr12Scaled(t, x, y, norm)
  }

  /** The part of Nr12 after the norm test: (x, y) divided by the norm, and
      the test x > y made on the undivided pair. */
  function Nr12Scaled(t: Table, x: real, y: real, norm: real): (r: Result)
    requires norm != 0.0
    ensures r.Err? ==> Raisable(t, r.failure)
  {
    if x > y then Kr12(t, x / norm, y / norm, x / norm).Map(k => 0.42 * k)
    else Kr12(t, y / norm, x / norm, y / norm).Map(k => 0.57 * k)
  }

  /** The norm test sqrt(s) < 1e-9 is the test s < 1e-18. */
  lemma NormBelowTolerance(sqrt: real -> real, s: real)
    requires IsSqrt(sqrt) && 0.0 <= s
    ensures Abs(sqrt(s)) < Eps <==> s < Eps * Eps
  {
    assert SqrtAt(sqrt, s);
    var n := sqrt(s);
    if n < Eps {
      NonNegativeProduct(Eps - n, Eps + n);
      assert (Eps - n) * (Eps + n) == Eps * Eps - s;
      assert s != Eps * Eps by {
        if s == Eps * Eps {
          NonNegativeFactor(n - Eps, n + Eps);
        }
      }
    } else {
      NonNegativeProduct(n - Eps, n + Eps);
      assert (n - Eps) * (n + Eps) == s - Eps * Eps;
    }
  }

  /** A point at or near the origin, x*x + y*y < 1e-18, yields the sentinel. */
  lemma Nr12Sentinel(t: Table, sqrt: real -> real, x: real, y: real)
    requires IsSqrt(sqrt) && x * x + y * y < Eps * Eps
    ensures Nr12(t, sqrt, x, y) == Ok(-0.05)
  {
    Square(x);
    Square(y);
    NormBelowTolerance(sqrt, x * x + y * y);
  }

  /** Dividing a coordinate by the norm lands in [-1, 1]. */
  lemma NormalizedWithinUnit(u: real, v: real, n: real)
    requires n != 0.0 && n * n == u * u + v * v
    ensures -1.0 <= u / n <= 1.0
  {
    Square(v);
    Square(u);
    Square(n);
    SquaresOrdered(Abs(u), Abs(n));
    QuotientWithinUnit(u, n);
  }

  /** Gr12 never asks for another algorithm: every failure it lets through
      comes from the table. */
  function Gr12(t: Table, sqrt: real -> real, x: real, y: real, z: real): (r: Result)
    ensures r.Err? ==> Raisable(t, r.failure)
  {
    if x + y >= z then
      Both(Nr12(t, sqrt, x, z), Nr12(t, sqrt, y, z), (n1, n2) => x + y + 0.3 * n1 + 0.7 * n2)
    else
      Both(Nr12(t, sqrt, x, z), Nr12(t, sqrt, y, z), (n1, n2) => x + y + 1.3 * n1 - 0.3 * n2)
  }

  /** The expression x * g1 + y * g2 + y * g3 - x * y * z * g4 of algorithm2's
      try block over the outcomes of its four Gr12 calls, evaluated left to
      right. */
  function WeightedSum2(x: real, y: real, z: real, g1: Result, g2: Result, g3: Result, g4: Result): Result {
    Both(Both(Both(g1, g2, (v1, v2) => x * v1 + y * v2), g3, (s, v3) => s + y * v3), g4, (s, v4) => s - x * y * z * v4)
  }

  /** The first failing call decides the failure of the weighted sum; when
      none fails it is the sum. */
  lemma WeightedSum2FirstErr(x: real, y: real, z: real, g1: Result, g2: Result, g3: Result, g4: Result)
    ensures FirstErr([g1, g2, g3, g4]).None? ==>
      g1.Ok? && g2.Ok? && g3.Ok? && g4.Ok?
      && WeightedSum2(x, y, z, g1, g2, g3, g4) == Ok(x * g1.value + y * g2.value + y * g3.value - x * y * z * g4.value)
    ensures FirstErr([g1, g2, g3, g4]).Some? ==> WeightedSum2(x, y, z, g1, g2, g3, g4) == Err(FirstErr([g1, g2, g3, g4]).value)
  {
    assert [g1, g2, g3, g4] == [g1] + [g2, g3, g4] && [g2, g3, g4] == [g2] + [g3, g4];
    assert [g3, g4] == [g3] + [g4] && [g4] == [g4] + [];
    FirstErrStep(g1, [g2, g3, g4]);
    FirstErrStep(g2, [g3, g4]);
    FirstErrStep(g3, [g4]);
    FirstErrStep(g4, []);
  }

  /** algorithm2: x outside [-10, 10) is handled locally as |x| / 10; a file
      error becomes a request for Algorithm 3; range and empty-table errors are
      not caught. */
  function Algorithm2(t: Table, sqrt: real -> real, x: real, y: real, z: real): (r: Result)
    ensures x < -10.0 || x >= 10.0 ==> r == Ok(Abs(x) / 10.0)
    ensures r.Err? ==> (r.failure == Switch(3) || (t.Loaded? && Raisable(t, r.failure)))
  {
    if x < -10.0 || x >= 10.0 then Ok(Abs(x) / 10.0)
    else
      var attempt :=
        WeightedSum2(x, y, z, Gr12(t, sqrt, x, y, z), Gr12(t, sqrt, x, y, z), Gr12(t, sqrt, z, y, x), Gr12(t, sqrt, y, x, z));
      if attempt == Err(FileErr) then Err(Switch(3)) else attempt
  }

  /** Inside the domain, algorithm2 evaluates its four Gr12 calls left to
      right. If all succeed it returns their weighted sum; otherwise the first
      failure decides: a file error becomes a request for Algorithm 3, and any
      other failure (range or empty table) passes through unchanged. */
  lemma Algorithm2Escalation(t: Table, sqrt: real -> real, x: real, y: real, z: real)
    requires -10.0 <= x < 10.0
    ensures var g1, g2, g3, g4 := Gr12(t, sqrt, x, y, z), Gr12(t, sqrt, x, y, z), Gr12(t, sqrt, z, y, x), Gr12(t, sqrt, y, x, z);
      FirstErr([g1, g2, g3, g4]).None? ==>
        g1.Ok? && g2.Ok? && g3.Ok? && g4.Ok?
        && Algorithm2(t, sqrt, x, y, z) == Ok(x * g1.value + y * g2.value + y * g3.value - x * y * z * g4.value)
    ensures var f := FirstErr([Gr12(t, sqrt, x, y, z), Gr12(t, sqrt, x, y, z), Gr12(t, sqrt, z, y, x), Gr12(t, sqrt, y, x, z)]);
      f.Some? ==> Algorithm2(t, sqrt, x, y, z) == Err(if f.value == FileErr then Switch(3) else f.value)
  {
    WeightedSum2FirstErr(x, y, z, Gr12(t, sqrt, x, y, z), Gr12(t, sqrt, x, y, z), Gr12(t, sqrt, z, y, x), Gr12(t, sqrt, y, x, z));
  }

  /** The table covers [-1, 1], the range of every coordinate Nr12 passes on. */
  ghost predicate CoversUnit(t: Table) {
    t.Loaded? && InSpan(t.points, -1.0) && InSpan(t.points, 1.0)
  }

  lemma TblOkOnUnit(t: Table, v: real)
    requires CoversUnit(t) && -1.0 <= v <= 1.0
    ensures Tbl(t, v).Ok?
  {
    LookupTotalInSpan(t.points, v);
  }

  lemma Kr12OkOnUnit(t: Table, x: real, y: real, z: real)
    requires CoversUnit(t)
    requires -1.0 <= x <= 1.0 && -1.0 <= y <= 1.0 && -1.0 <= z <= 1.0
    ensures Kr12(t, x, y, z).Ok?
  {
    TblOkOnUnit(t, x);
    TblOkOnUnit(t, y);
    TblOkOnUnit(t, z);
  }

  /** With an exact square root and a table covering [-1, 1], Nr12 never fails. */
  lemma Nr12OkOnCoveringTable(t: Table, sqrt: real -> real, x: real, y: real)
    requires CoversUnit(t) && IsSqrt(sqrt)
    ensures Nr12(t, sqrt, x, y).Ok?
  {
    Nr12Cases(t, sqrt, x, y);
    var norm := sqrt(x * x + y * y);
    if Abs(norm) >= Eps {
      UnitCoordinates(sqrt, x, y);
      Nr12ScaledOk(t, x, y, norm);
    }
  }

  /** An unfolding step of Nr12's definition, used by the proofs that reason
      about its two cases separately. */
  lemma Nr12Cases(t: Table, sqrt: real -> real, x: real, y: real)
    ensures Abs(sqrt(x * x + y * y)) < Eps ==> Nr12(t, sqrt, x, y) == Ok(-0.05)
    ensures Abs(sqrt(x * x + y * y)) >= Eps ==>
      Nr12(t, sqrt, x, y) == Nr12Scaled(t, x, y, sqrt(x * x + y * y))
  {}

  lemma Nr12ScaledOk(t: Table, x: real, y: real, norm: real)
    requires CoversUnit(t) && norm != 0.0
    requires -1.0 <= x / norm <= 1.0 && -1.0 <= y / norm <= 1.0
    ensures Nr12Scaled(t, x, y, norm).Ok?
  {
    Kr12OkOnUnit(t, x / norm, y / norm, x / norm);
    Kr12OkOnUnit(t, y / norm, x / norm, y / norm);
  }

  /** The coordinates Nr12 passes on to Kr12 lie in [-1, 1]. */
  lemma UnitCoordinates(sqrt: real -> real, x: real, y: real)
    requires IsSqrt(sqrt) && Abs(sqrt(x * x + y * y)) >= Eps
    ensures -1.0 <= x / sqrt(x * x + y * y) <= 1.0
    ensures -1.0 <= y / sqrt(x * x + y * y) <= 1.0
  {
    var norm := sqrt(x * x + y * y);
    Square(x);
    Square(y);
    assert SqrtAt(sqrt, x * x + y * y);
    NormalizedWithinUnit(x, y, norm);
    NormalizedWithinUnit(y, x, norm);
  }

  /** With an exact square root and a table covering [-1, 1], Algorithm 2
      always succeeds. */
  lemma Algorithm2OkOnCoveringTable(t: Table, sqrt: real -> real, x: real, y: real, z: real)
    requires CoversUnit(t) && IsSqrt(sqrt)
    ensures Algorithm2(t, sqrt, x, y, z).Ok?
  {
    forall a: real, b: real ensures Nr12(t, sqrt, a, b).Ok? {
      Nr12OkOnCoveringTable(t, sqrt, a, b);
    }
  }

  /** With a failed load, Algorithm 2 either succeeds or asks for Algorithm 3. */
  lemma Algorithm2WithoutTable(sqrt: real -> real, x: real, y: real, z: real)
    ensures Algorithm2(LoadFailed, sqrt, x, y, z).Ok? || Algorithm2(LoadFailed, sqrt, x, y, z) == Err(Switch(3))
  {}
}
