/** Failure signalling shared by every level of the cascade.

    The source signals failure with C++ exceptions: FileException, RangeException
    (carrying the offending value), ZeroDivideException, AlgorithmChangeException
    (carrying the algorithm to switch to) and two std::runtime_error throws inside
    the table lookup. Here each throw becomes an `Err` value returned up the call
    chain, and each try/catch becomes a match that rewrites only the kinds that
    frame catches. */
module Outcomes {

  /** The tolerance of every near-zero and near-equal test in the source (1e-9). */
  const Eps: real := 0.000000001

  function Abs(r: real): real { if r < 0.0 then -r else r }

  /** C's `floor` on a real, kept as a real as the source keeps it a double. */
  function Floor(r: real): real { r.Floor as real }

  datatype Option<T> = None | Some(value: T)

  /** The three operands (a, b, c) of the shape Tbl(a) + Tbl(b) / c used by Krl and Kr12. */
  datatype Triple = Triple(a: real, b: real, c: real)

  datatype Failure =
    | FileErr              // FileException: the table file could not be opened
    | RangeErr(arg: real)  // RangeException with the value that was out of range
    | ZeroDiv              // ZeroDivideException
    | Switch(target: int)  // AlgorithmChangeException(target)
    | NoData               // runtime_error "No data loaded"
    | InterpolationFailed  // runtime_error "Interpolation failed"

  /** The failures that can come out of the lookup table. */
  predicate IsTableFailure(f: Failure) {
    f.FileErr? || f.RangeErr? || f.NoData? || f.InterpolationFailed?
  }

  /** A double-valued computation that either returns or throws. */
  datatype Result = Ok(value: real) | Err(failure: Failure)
  {
    /** Apply `f` to the value; a failure passes through untouched. */
    function Map(f: real -> real): Result {
      if Ok? then Ok(f(value)) else this
    }
  }

  /** The binary expression `a op b` whose operands are evaluated left to right:
      the first operand that throws decides the failure. */
  function Both(a: Result, b: Result, op: (real, real) -> real): Result {
    if a.Err? then a else if b.Err? then b else Ok(op(a.value, b.value))
  }

  /** The failure of the first computation in `rs` that throws, if any: what a
      left-to-right evaluation of all of them propagates. */
  function FirstErr(rs: seq<Result>): (r: Option<Failure>)
    ensures r.None? <==> forall i :: 0 <= i < |rs| ==> rs[i].Ok?
    ensures r.Some? ==> Err(r.value) in rs
  {
    if |rs| == 0 then None
    else if rs[0].Err? then Some(rs[0].failure)
    else FirstErr(rs[1..])
  }

  /** One step of the left-to-right evaluation: the first computation decides
      if it throws, and otherwise the rest do. */
  lemma FirstErrStep(head: Result, rest: seq<Result>)
    ensures FirstErr([head] + rest) == if head.Err? then Some(head.failure) else FirstErr(rest)
  {
    assert ([head] + rest)[1..] == rest;
  }

  /** `floor(e)` applied to a computation that may throw. */
  function Floored(r: Result): Result {
    if r.Ok? then Ok(Floor(r.value)) else r
  }

  // Sign facts about products, which the solver does not find on its own.

  lemma NonNegativeProduct(a: real, b: real)
    requires a >= 0.0 && b >= 0.0
    ensures a * b >= 0.0
  {}

  lemma PositiveProduct(a: real, b: real)
    requires a > 0.0 && b > 0.0
    ensures a * b > 0.0
  {}

  lemma NonNegativeFactor(a: real, b: real)
    requires b > 0.0 && a * b >= 0.0
    ensures a >= 0.0
  {
    if a < 0.0 {
      NonNegativeProduct(-a, b);
    }
  }

  lemma Square(a: real)
    ensures a * a >= 0.0
    ensures a != 0.0 ==> a * a > 0.0
    ensures Abs(a) * Abs(a) == a * a
  {
    if a < 0.0 {
      NonNegativeProduct(-a, -a);
    }
  }

  lemma SquaresOrdered(a: real, b: real)
    requires 0.0 <= a && 0.0 <= b && a * a <= b * b
    ensures a <= b
  {
    if a > b {
      PositiveProduct(a - b, a + b);
    }
  }

  lemma QuotientWithinUnit(u: real, n: real)
    requires n != 0.0 && Abs(u) <= Abs(n)
    ensures -1.0 <= u / n <= 1.0
  {
    var q := u / n;
    assert q * n == u;
    if n > 0.0 {
      NonNegativeFactor(1.0 - q, n);
      NonNegativeFactor(1.0 + q, n);
    } else {
      assert (1.0 - q) * -n == u - n;
      assert (1.0 + q) * -n == -n - u;
      NonNegativeFactor(1.0 - q, -n);
      NonNegativeFactor(1.0 + q, -n);
    }
  }
}
