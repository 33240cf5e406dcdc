/** The piecewise-linear lookup table (class TableData of lab1.cpp).

    The table is the outcome of loading the data file: either the samples that
    were read, in file order, or a failed load. The function-local static of
    `Tbl` is replaced by this explicit parameter; since a static whose
    initialiser throws is initialised again on the next call, a failed load
    makes every `Tbl` call throw the file error. */
module LookupTable {
  import opened Outcomes

  datatype Point = Point(x: real, y: real)

  datatype Table = Loaded(points: seq<Point>) | LoadFailed

  /** The exact-match test of getValue: |a - b| < 1e-9. */
  predicate Near(a: real, b: real) {
    Abs(a - b) < Eps
  }

  /** No stored sample is an exact match for x. */
  ghost predicate NoSampleNear(data: seq<Point>, x: real) {
    forall j :: 0 <= j < |data| ==> !Near(data[j].x, x)
  }

  /** x lies inside [front.x, back.x] of a non-empty table. */
  ghost predicate InSpan(data: seq<Point>, x: real) {
    |data| > 0 && data[0].x <= x <= data[|data| - 1].x
  }

  /** The first index at or after `from` whose sample matches x exactly. */
  function FirstNear(data: seq<Point>, x: real, from: nat): (r: Option<nat>)
    requires from <= |data|
    ensures r.Some? ==> from <= r.value < |data| && Near(data[r.value].x, x)
    ensures r.Some? ==> forall j :: from <= j < r.value ==> !Near(data[j].x, x)
    ensures r.None? ==> forall j :: from <= j < |data| ==> !Near(data[j].x, x)
    decreases |data| - from
  {
    if from == |data| then None
    else if Near(data[from].x, x) then Some(from)
    else FirstNear(data, x, from + 1)
  }

  /** Segment i, from sample i to sample i + 1, brackets x. */
  predicate Brackets(data: seq<Point>, i: nat, x: real)
    requires i + 1 < |data|
  {
    data[i].x <= x <= data[i + 1].x
  }

  /** The first segment at or after `from` that brackets x. */
  function FirstBracket(data: seq<Point>, x: real, from: nat): (r: Option<nat>)
    ensures r.Some? ==> from <= r.value && r.value + 1 < |data| && Brackets(data, r.value, x)
    ensures r.Some? ==> forall j :: from <= j < r.value ==> !Brackets(data, j, x)
    ensures r.None? ==> forall j :: from <= j && j + 1 < |data| ==> !Brackets(data, j, x)
    decreases |data| - from
  {
    if from + 1 >= |data| then None
    else if Brackets(data, from, x) then Some(from)
    else FirstBracket(data, x, from + 1)
  }

  /** The value at x of the straight line through samples p and q. */
  function Interpolate(p: Point, q: Point, x: real): (r: real)
    requires p.x != q.x
    ensures (r - p.y) * (q.x - p.x) == (q.y - p.y) * (x - p.x)
  {
    p.y + (q.y - p.y) * (x - p.x) / (q.x - p.x)
  }

  /** TableData::getValue, as a function of the loaded samples. */
  function Lookup(data: seq<Point>, x: real): (r: Result)
    ensures r == Err(NoData) <==> |data| == 0
    ensures r.Err? ==> IsTableFailure(r.failure)
    ensures r.Err? && r.failure.RangeErr? ==> r.failure.arg == x
  {
    if |data| == 0 then Err(NoData)
    else match FirstNear(data, x, 0)
      case Some(i) => Ok(data[i].y)
      case None =>
        if x < data[0].x || x > data[|data| - 1].x then Err(RangeErr(x))
        else match FirstBracket(data, x, 0)
          case Some(i) => Ok(Interpolate(data[i], data[i + 1], x))
          case None => Err(InterpolationFailed)
  }

  /** TableData::getValue: an empty-table check, then an exact-match scan, then
      the range check, then a scan for the first bracketing segment. */
  method GetValue(data: seq<Point>, x: real) returns (r: Result)
    ensures r == Lookup(data, x)
  {
    if |data| == 0 {
      return Err(NoData);
    }
    var i := 0;
    while i < |data|
      invariant 0 <= i <= |data|
      invariant FirstNear(data, x, i) == FirstNear(data, x, 0)
    {
      if Abs(data[i].x - x) < Eps {
        return Ok(data[i].y);
      }
      i := i + 1;
    }
    if x < data[0].x || x > data[|data| - 1].x {
      return Err(RangeErr(x));
    }
    var k := 0;
    while k < |data| - 1
      invariant 0 <= k <= |data| - 1
      invariant FirstBracket(data, x, k) == FirstBracket(data, x, 0)
    {
      if data[k].x <= x && x <= data[k + 1].x {
        return Ok(data[k].y + (data[k + 1].y - data[k].y) * (x - data[k].x) / (data[k + 1].x - data[k].x));
      }
      k := k + 1;
    }
    return Err(InterpolationFailed);
  }

  /** The failures a Tbl call on table t can raise. */
  predicate Raisable(t: Table, f: Failure) {
    match t
    case LoadFailed => f == FileErr
    case Loaded(points) => f.RangeErr? || (|points| == 0 && f == NoData)
  }

  /** TableData::Tbl: construct the table (a failed load throws first), then
      reject x outside [-10, 10), then look x up. */
  function Tbl(t: Table, x: real): (r: Result)
    ensures t.LoadFailed? ==> r == Err(FileErr)
    ensures t.Loaded? && (x < -10.0 || x >= 10.0) ==> r == Err(RangeErr(x))
    ensures r.Err? ==> Raisable(t, r.failure)
    ensures r.Err? && r.failure.RangeErr? ==> r.failure.arg == x
  {
    match t
    case LoadFailed => Err(FileErr)
    case Loaded(points) =>
      if x < -10.0 || x >= 10.0 then Err(RangeErr(x))
      else
        LookupNeverInterpolationFails(points, x);
        Lookup(points, x)
  }

  /** An exact match returns the y of the first matching sample, before any
      range check: it holds for unsorted tables and for samples outside the
      table's span alike. */
  lemma LookupExactMatch(data: seq<Point>, x: real, i: nat)
    requires i < |data| && Near(data[i].x, x)
    requires forall j :: 0 <= j < i ==> !Near(data[j].x, x)
    ensures Lookup(data, x) == Ok(data[i].y)
  {
    var found := FirstNear(data, x, 0);
    assert found.Some? && found.value == i;
  }

  /** Without an exact match, a query outside [front.x, back.x] of a non-empty
      table fails with the range error carrying exactly the queried x, and this
      is the only way Lookup raises a range error. */
  lemma LookupRangeError(data: seq<Point>, x: real)
    ensures Lookup(data, x) == Err(RangeErr(x))
        <==> |data| > 0 && NoSampleNear(data, x) && (x < data[0].x || x > data[|data| - 1].x)
  {
    if |data| > 0 && NoSampleNear(data, x) {
      assert FirstNear(data, x, 0).None?;
    }
  }

  /** Without an exact match, an in-span query returns the linear interpolant of
      the first segment that brackets it. */
  lemma LookupInterpolates(data: seq<Point>, x: real, i: nat)
    requires NoSampleNear(data, x) && InSpan(data, x)
    requires i + 1 < |data| && Brackets(data, i, x)
    requires forall j :: 0 <= j < i ==> !Brackets(data, j, x)
    ensures data[i].x < x < data[i + 1].x
    ensures Lookup(data, x) == Ok(Interpolate(data[i], data[i + 1], x))
  {
    assert !Near(data[i].x, x) && !Near(data[i + 1].x, x);
    assert FirstNear(data, x, 0).None?;
    var seg := FirstBracket(data, x, 0);
    assert seg.Some? && seg.value == i;
  }

  /** If x is between sample `from` and the last sample, some segment at or
      after `from` brackets x (whether or not the table is sorted). */
  lemma {:induction false} BracketExists(data: seq<Point>, x: real, from: nat)
    requires from + 1 < |data|
    requires data[from].x <= x <= data[|data| - 1].x
    ensures FirstBracket(data, x, from).Some?
    decreases |data| - from
  {
    if !Brackets(data, from, x) && from + 2 < |data| {
      BracketExists(data, x, from + 1);
    }
  }

  /** Every in-span query of a non-empty table succeeds. */
  lemma LookupTotalInSpan(data: seq<Point>, x: real)
    requires InSpan(data, x)
    ensures Lookup(data, x).Ok?
  {
    if FirstNear(data, x, 0).None? && |data| > 1 {
      BracketExists(data, x, 0);
    }
  }

  /** The "Interpolation failed" throw is unreachable, for every table: an
      in-span query with no exact match always meets a bracketing segment. */
  lemma LookupNeverInterpolationFails(data: seq<Point>, x: real)
    ensures Lookup(data, x) != Err(InterpolationFailed)
  {
    if InSpan(data, x) {
      LookupTotalInSpan(data, x);
    }
  }

  /** The interpolated value lies between the y values of its two samples. */
  lemma InterpolateBetween(p: Point, q: Point, x: real)
    requires p.x < x < q.x
    ensures p.y <= q.y ==> p.y <= Interpolate(p, q, x) <= q.y
    ensures q.y <= p.y ==> q.y <= Interpolate(p, q, x) <= p.y
  {
    var r, run, e, rise := Interpolate(p, q, x), q.x - p.x, x - p.x, q.y - p.y;
    // from the collinearity of (x, r) with p and q
    assert (r - p.y) * run == rise * e;
    assert (q.y - r) * run == rise * (run - e);
    if p.y <= q.y {
      NonNegativeProduct(rise, e);
      NonNegativeProduct(rise, run - e);
      NonNegativeFactor(r - p.y, run);
      NonNegativeFactor(q.y - r, run);
    } else {
      NonNegativeProduct(-rise, e);
      NonNegativeProduct(-rise, run - e);
      NonNegativeFactor(p.y - r, run);
      NonNegativeFactor(r - q.y, run);
    }
  }

  /** The table written by the program's test driver. */
  function SampleTable(): seq<Point> {
    [Point(-10.0, 23.5), Point(-5.0, 12.4), Point(0.0, 10.1), Point(5.0, 6.87), Point(10.0, 1.21)]
  }

  /** On the test driver's table, 0 is an exact match and 2.5 interpolates
      between (0, 10.1) and (5, 6.87). */
  lemma SampleTableQueries()
    ensures Lookup(SampleTable(), 0.0) == Ok(10.1)
    ensures Lookup(SampleTable(), 2.5) == Ok(8.485)
  {
    var data := SampleTable();
    LookupExactMatch(data, 0.0, 2);
    assert !Brackets(data, 0, 2.5) && !Brackets(data, 1, 2.5);
    LookupInterpolates(data, 2.5, 2);
  }
}
