/** Algorithm 1 of lab1.cpp: Krl -> Nrl -> Grl -> algorithm1, floor-based. */
module AlgorithmOne {
  import opened Outcomes
  import opened LookupTable

  /** Tbl(a) + Tbl(b) / c, the operands evaluated left to right (C++ leaves the
      order unspecified; it decides only which of two failures is seen). */
  function SumQuot(t: Table, a: real, b: real, c: real): (r: Result)
    requires c != 0.0
    ensures r.Err? ==> Raisable(t, r.failure)
    ensures r.Err? && r.failure.RangeErr? ==> r.failure.arg == a || r.failure.arg == b
  {
    Both(Tbl(t, a), Tbl(t, b), (p, q) => p + q / c)
  }

  /** The value substituted after a division by zero in Krl and in Kr12:
      floor(y + z) when x is within 1e-9 of zero, x + 1 otherwise. */
  function Substitute(x: real, y: real, z: real): (r: real)
    ensures Abs(x) < Eps ==> r == Floor(r) && y + z - 1.0 < r <= y + z
    ensures Abs(x) >= Eps ==> r == x + 1.0
  {
    if Abs(x) < Eps then Floor(y + z) else x + 1.0
  }

  /** The operands (a, b, c) of the branch Krl takes, read as
      floor(Tbl(a) + Tbl(b) / c): always a rotation of (x, y, z). None stands
      for control falling out of the three branches to the final `return 0`,
      which never happens: the three guards cover every (x, y). */
  function KrlOperands(x: real, y: real, z: real): (o: Option<Triple>)
    ensures o.Some?
    ensures o.value == Triple(x, y, z) || o.value == Triple(y, z, x) || o.value == Triple(z, x, y)
  {
    if x > 0.0 && y <= 1.0 then Some(Triple(x, y, z))
    else if y > 1.0 then Some(Triple(y, z, x))
    else if x <= 0.0 then Some(Triple(z, x, y))
    else None
  }

  /** The try block of Krl: Some(outcome) when one of its three branches runs
      (the outcome may be the divide-by-zero throw), None when control would
      fall out of it to the final `return 0`. */
  function KrlTry(t: Table, x: real, y: real, z: real): (r: Option<Result>)
    ensures r.Some?
    ensures r.value.Err? ==> r.value == Err(ZeroDiv) || Raisable(t, r.value.failure)
  {
    match KrlOperands(x, y, z)
    case None => None
    case Some(o) =>
      Some(if Abs(o.c) < Eps then Err(ZeroDiv) else Floored(SumQuot(t, o.a, o.b, o.c)))
  }

  /** Krl: the divide-by-zero throw is caught here and replaced by Substitute;
      nothing else is caught. */
  function Krl(t: Table, x: real, y: real, z: real): (r: Result)
    ensures r.Err? ==> Raisable(t, r.failure)
  {
    match KrlTry(t, x, y, z)
    case Some(Err(ZeroDiv)) => Ok(Substitute(x, y, z))
    case Some(outcome) => outcome
    case None => Ok(0.0)
  }

  /** Krl either recovers from a near-zero divisor with the substitute value or
      returns floor(Tbl(a) + Tbl(b) / c) for its rotated operands; a failure of
      Tbl passes through unchanged. */
  lemma KrlCases(t: Table, x: real, y: real, z: real)
    ensures var o := KrlOperands(x, y, z).value;
      Krl(t, x, y, z) == if Abs(o.c) < Eps then Ok(Substitute(x, y, z)) else Floored(SumQuot(t, o.a, o.b, o.c))
  {}

  /** With a failed load Krl still returns the substitute value when its
      divisor is near zero, and otherwise raises the file error. */
  lemma KrlWithoutTable(x: real, y: real, z: real)
    ensures Krl(LoadFailed, x, y, z)
         == if Abs(KrlOperands(x, y, z).value.c) < Eps then Ok(Substitute(x, y, z)) else Err(FileErr)
  {
    KrlCases(LoadFailed, x, y, z);
  }

  /** Any failure of Krl is the failure of one of its Tbl calls, unchanged. */
  lemma KrlPassesTableFailure(t: Table, x: real, y: real, z: real)
    ensures var r := Krl(t, x, y, z);
      r.Err? ==> r == Tbl(t, x) || r == Tbl(t, y) || r == Tbl(t, z)
  {
    KrlCases(t, x, y, z);
  }

  function Nrl(t: Table, x: real, y: real): (r: Result)
    ensures r.Err? ==> Raisable(t, r.failure)
  {
    if x > y then Krl(t, x, y, x).Map(k => 0.42 * k)
    else Both(Krl(t, y, x, y), Krl(t, y, y, y), (k1, k2) => 0.57 * k1 - 0.42 * k2)
  }

  /** Grl asks for Algorithm 2 exactly when floor(x + y) == floor(z); any other
      failure it lets through comes from the table. */
  function Grl(t: Table, x: real, y: real, z: real): (r: Result)
    ensures r == Err(Switch(2)) <==> Floor(x + y) == Floor(z)
    ensures r.Err? && r != Err(Switch(2)) ==> Raisable(t, r.failure)
  {
    if Floor(x + y) == Floor(z) then Err(Switch(2))
    else if x + y >= z then
      Both(Nrl(t, x, z), Nrl(t, y, z), (n1, n2) => Floor(x + y) + 0.4 * n1 + 0.6 * n2)
    else
      match Nrl(t, x, z)
      case Err(f) => Err(f)
      case Ok(n1) =>
        match Nrl(t, y, 1.0)
        case Err(f) => Err(f)
        case Ok(inner) => Nrl(t, y * inner, z).Map(n2 => Floor(x + y) + 1.4 * n1 - 0.4 * n2)
  }

  /** The expression x * g1 + y * g2 + z * g3 of algorithm1's try block over
      the outcomes of its three Grl calls, evaluated left to right. */
  function WeightedSum1(x: real, y: real, z: real, g1: Result, g2: Result, g3: Result): Result {
    Both(Both(g1, g2, (v1, v2) => x * v1 + y * v2), g3, (s, v3) => s + z * v3)
  }

  /** The first failing call decides the failure of the weighted sum; when
      none fails it is the sum. */
  lemma WeightedSum1FirstErr(x: real, y: real, z: real, g1: Result, g2: Result, g3: Result)
    ensures FirstErr([g1, g2, g3]).None? ==>
      g1.Ok? && g2.Ok? && g3.Ok? && WeightedSum1(x, y, z, g1, g2, g3) == Ok(x * g1.value + y * g2.value + z * g3.value)
    ensures FirstErr([g1, g2, g3]).Some? ==> WeightedSum1(x, y, z, g1, g2, g3) == Err(FirstErr([g1, g2, g3]).value)
  {
    assert [g1, g2, g3] == [g1] + [g2, g3] && [g2, g3] == [g2] + [g3] && [g3] == [g3] + [];
    FirstErrStep(g1, [g2, g3]);
    FirstErrStep(g2, [g3]);
    FirstErrStep(g3, []);
  }

  /** algorithm1: x outside [-10, 10) asks for Algorithm 2 before anything is
      computed; a file error becomes a request for Algorithm 3 and a range error
      a request for Algorithm 2. Only the empty-table error gets past it. */
  function Algorithm1(t: Table, x: real, y: real, z: real): (r: Result)
    ensures x < -10.0 || x >= 10.0 ==> r == Err(Switch(2))
    ensures r.Err? ==> (r.failure == Switch(2) || r.failure == Switch(3) || (t == Loaded([]) && r.failure == NoData))
  {
    var attempt :=
      if x < -10.0 || x >= 10.0 then Err(Switch(2))
      else WeightedSum1(x, y, z, Grl(t, x, y, z), Grl(t, y, z, x), Grl(t, z, x, y));
    match attempt
    case Err(FileErr) => Err(Switch(3))
    case Err(RangeErr(_)) => Err(Switch(2))
    case _ => attempt
  }

  /** Inside the domain, algorithm1 evaluates its three Grl calls left to
      right. If all succeed it returns their weighted sum; otherwise the first
      failure decides: a file error becomes a request for Algorithm 3, a range
      error one for Algorithm 2, and anything else (Grl's own request for
      Algorithm 2, the empty-table error) passes through. */
  lemma Algorithm1Escalation(t: Table, x: real, y: real, z: real)
    requires -10.0 <= x < 10.0
    ensures var g1, g2, g3 := Grl(t, x, y, z), Grl(t, y, z, x), Grl(t, z, x, y);
      FirstErr([g1, g2, g3]).None? ==> g1.Ok? && g2.Ok? && g3.Ok? && Algorithm1(t, x, y, z) == Ok(x * g1.value + y * g2.value + z * g3.value)
    ensures var f := FirstErr([Grl(t, x, y, z), Grl(t, y, z, x), Grl(t, z, x, y)]);
      f.Some? ==> Algorithm1(t, x, y, z) == Err(if f.value == FileErr then Switch(3) else if f.value.RangeErr? then Switch(2) else f.value)
  {
    WeightedSum1FirstErr(x, y, z, Grl(t, x, y, z), Grl(t, y, z, x), Grl(t, z, x, y));
  }

  /** With a failed load, Algorithm 1 either succeeds or asks for another
      algorithm: for Algorithm 3 exactly when the file error reached its
      boundary. */
  lemma Algorithm1WithoutTable(x: real, y: real, z: real)
    ensures var r := Algorithm1(LoadFailed, x, y, z);
      r.Ok? || r == Err(Switch(2)) || r == Err(Switch(3))
  {}
}
