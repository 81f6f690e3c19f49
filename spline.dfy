/** The B-spline sampling of src/entities/splineEntity.js: the distinct knot
    values between the degree-th knot and its mirror become segment breaks, every
    segment is sampled at `interpolationsPerSplineSegment + 1` evenly spaced
    parameters, and each parameter is mapped onto the knot domain and clamped to
    [0, 1] before the evaluator of the b-spline library, a parameter here, is
    called. Knots are reals; a JavaScript NaN is `None`. */
module SplineEntity {
  import opened Js
  import opened GeometryHelper
  import opened LineEntity

  /** `bSpline.default(t, degree, points, knots, weights)` with everything but the
      parameter fixed; `None` is a NaN parameter. */
  type Evaluator = Option<real> -> (real, real)

  /** The breaks after scanning knot indices degree+1 .. k-1: a knot is appended
      when it differs from the last break. */
  function Breaks(knots: seq<real>, degree: nat, k: nat): (b: seq<real>)
    requires degree < |knots| && degree + 1 <= k <= |knots|
    ensures |b| >= 1 && b[0] == knots[degree]
    decreases k
  {
    if k == degree + 1 then [knots[degree]]
    else
      var b := Breaks(knots, degree, k - 1);
      if b[|b| - 1] != knots[k - 1] then b + [knots[k - 1]] else b
  }

  /** The index one past the last knot scanned: `knots.length - degree`, or no
      scan at all. */
  function ScanEnd(knots: seq<real>, degree: nat): nat
    requires degree < |knots|
  {
    if |knots| - degree > degree + 1 then |knots| - degree else degree + 1
  }

  /** `segmentTs`. */
  function SegmentTs(knots: seq<real>, degree: nat): seq<real>
    requires degree < |knots|
  {
    Breaks(knots, degree, ScanEnd(knots, degree))
  }

  /** Neighbouring breaks differ, and every break is a knot of the scanned range. */
  lemma {:induction false} BreaksShape(knots: seq<real>, degree: nat, k: nat)
    requires degree < |knots| && degree + 1 <= k <= |knots|
    ensures var b := Breaks(knots, degree, k);
      && (forall i :: 0 <= i < |b| - 1 ==> b[i] != b[i + 1])
      && (forall i :: 0 <= i < |b| ==> exists j :: degree <= j < k && b[i] == knots[j])
      && b[|b| - 1] == knots[k - 1]
  {
    if k > degree + 1 {
      BreaksShape(knots, degree, k - 1);
      var b := Breaks(knots, degree, k - 1);
      var b' := Breaks(knots, degree, k);
      forall i | 0 <= i < |b'|
        ensures exists j :: degree <= j < k && b'[i] == knots[j]
      {
        if i < |b| {
          var j :| degree <= j < k - 1 && b[i] == knots[j];
        } else {
          assert b'[i] == knots[k - 1];
        }
      }
    }
  }

  /** With non-decreasing knots the breaks are strictly increasing. */
  lemma {:induction false} BreaksIncrease(knots: seq<real>, degree: nat, k: nat)
    requires degree < |knots| && degree + 1 <= k <= |knots|
    requires forall i, j :: 0 <= i <= j < |knots| ==> knots[i] <= knots[j]
    ensures var b := Breaks(knots, degree, k);
      forall i, j :: 0 <= i < j < |b| ==> b[i] < b[j]
  {
    if k > degree + 1 {
      BreaksIncrease(knots, degree, k - 1);
      BreaksShape(knots, degree, k - 1);
      var b := Breaks(knots, degree, k - 1);
      if b[|b| - 1] != knots[k - 1] {
        assert knots[k - 2] <= knots[k - 1];
        IncreasingAppend(b, knots[k - 1]);
      }
    }
  }

  lemma IncreasingAppend(b: seq<real>, x: real)
    requires |b| > 0 && b[|b| - 1] < x
    requires forall i, j :: 0 <= i < j < |b| ==> b[i] < b[j]
    ensures forall i, j :: 0 <= i < j < |b + [x]| ==> (b + [x])[i] < (b + [x])[j]
  {
    var r := b + [x];
    forall i, j | 0 <= i < j < |r| ensures r[i] < r[j] {
      if j == |b| {
        assert r[i] <= b[|b| - 1];
      } else {
        assert r[i] == b[i] && r[j] == b[j];
      }
    }
  }

  /** With non-decreasing knots the breaks run from the start of the domain
      `knots[degree]` to its end `knots[length - 1 - degree]`. */
  lemma SegmentTsSpanDomain(knots: seq<real>, degree: nat)
    requires |knots| >= 2 * degree + 2
    requires forall i, j :: 0 <= i <= j < |knots| ==> knots[i] <= knots[j]
    ensures var b := SegmentTs(knots, degree);
      && b[0] == knots[degree] && b[|b| - 1] == knots[|knots| - 1 - degree]
      && forall i, j :: 0 <= i < j < |b| ==> b[i] < b[j]
  {
    BreaksShape(knots, degree, |knots| - degree);
    BreaksIncrease(knots, degree, |knots| - degree);
  }

  /** `Math.min(Math.max(t, 0), 1)` for `t = (u - d0) / (d1 - d0)`. A degenerate
      domain divides by zero: ±Infinity clamps to 1 or 0, and 0/0 is NaN, which
      both clamps keep. */
  function Param(u: real, d0: real, d1: real): (t: Option<real>)
    ensures t.Some? ==> 0.0 <= t.value <= 1.0
    ensures t.None? <==> d1 == d0 && u == d0
    ensures d1 > d0 && d0 <= u <= d1 ==> t == Some((u - d0) / (d1 - d0))
  {
    if d1 == d0 then
      if u > d0 then Some(1.0) else if u < d0 then Some(0.0) else None
    else
      var t := (u - d0) / (d1 - d0);
      if d1 > d0 && d0 <= u <= d1 then
        UnitQuotient(u - d0, d1 - d0);
        Some(if t < 0.0 then 0.0 else if t > 1.0 then 1.0 else t)
      else
        Some(if t < 0.0 then 0.0 else if t > 1.0 then 1.0 else t)
  }

  lemma UnitQuotient(n: real, d: real)
    requires d > 0.0 && 0.0 <= n <= d
    ensures 0.0 <= n / d <= 1.0
  {
    assert (n / d) * d == n;
  }

  /** The parameter of sample k of n+1 between two breaks. */
  function Sample(k: nat, n: nat, uMin: real, uMax: real): real
    requires n > 0
  {
    (k as real) / (n as real) * (uMax - uMin) + uMin
  }

  /** The points of one segment: samples 0 .. n of the row. */
  function Row(uMin: real, uMax: real, n: nat, d0: real, d1: real, eval: Evaluator, k: nat): seq<Vec3>
    requires n > 0 && k <= n + 1
  {
    if k == 0 then []
    else
      var p := eval(Param(Sample(k - 1, n, uMin, uMax), d0, d1));
      Row(uMin, uMax, n, d0, d1, eval, k - 1) + [Vec3(p.0, p.1, 0.0)]
  }

  /** The points of segments 1 .. m - 1. */
  function Rows(ts: seq<real>, m: nat, n: nat, d0: real, d1: real, eval: Evaluator): seq<Vec3>
    requires n > 0 && 1 <= m <= |ts|
  {
    if m == 1 then [] else Rows(ts, m - 1, n, d0, d1, eval) + Row(ts[m - 2], ts[m - 1], n, d0, d1, eval, n + 1)
  }

  /** `interpolationsPerSplineSegment || 25`. */
  function Interpolations(given: Option<nat>): (n: nat)
    ensures n > 0
    ensures given.Some? && given.value > 0 ==> n == given.value
  {
    if given.Some? && given.value != 0 then given.value else 25
  }

  /** `_getBSplinePolyline` as a value. With fewer knots than the degree needs,
      the scan and the sampling run no iteration and nothing is emitted. */
  function BSplinePolylineSpec(knots: seq<real>, degree: nat, given: Option<nat>, eval: Evaluator): seq<Vec3>
  {
    if |knots| <= degree then []
    else
      var ts := SegmentTs(knots, degree);
      Rows(ts, |ts|, Interpolations(given), knots[degree], knots[|knots| - 1 - degree], eval)
  }

  lemma {:induction false} RowLength(uMin: real, uMax: real, n: nat, d0: real, d1: real, eval: Evaluator, k: nat)
    requires n > 0 && k <= n + 1
    ensures |Row(uMin, uMax, n, d0, d1, eval, k)| == k
  {
    if k > 0 {
      RowLength(uMin, uMax, n, d0, d1, eval, k - 1);
    }
  }

  lemma {:induction false} RowsLength(ts: seq<real>, m: nat, n: nat, d0: real, d1: real, eval: Evaluator)
    requires n > 0 && 1 <= m <= |ts|
    ensures |Rows(ts, m, n, d0, d1, eval)| == (m - 1) * (n + 1)
  {
    if m > 1 {
      RowsLength(ts, m - 1, n, d0, d1, eval);
      RowLength(ts[m - 2], ts[m - 1], n, d0, d1, eval, n + 1);
    }
  }

  /** One point per sample: (number of segments) × (interpolations + 1). */
  lemma PolylineLength(knots: seq<real>, degree: nat, given: Option<nat>, eval: Evaluator)
    requires degree < |knots|
    ensures |BSplinePolylineSpec(knots, degree, given, eval)| ==
      (|SegmentTs(knots, degree)| - 1) * (Interpolations(given) + 1)
  {
    var ts := SegmentTs(knots, degree);
    RowsLength(ts, |ts|, Interpolations(given), knots[degree], knots[|knots| - 1 - degree], eval);
  }

  /** Sample k of a row is the evaluator at the clamped parameter of
      `uMin + k/n (uMax - uMin)`; the first sample sits on `uMin`, the last on `uMax`. */
  lemma {:induction false} RowSamples(uMin: real, uMax: real, n: nat, d0: real, d1: real, eval: Evaluator, k: nat)
    requires n > 0 && k <= n + 1
    ensures var r := Row(uMin, uMax, n, d0, d1, eval, k);
      forall j :: 0 <= j < |r| ==>
        r[j] == Vec3(eval(Param(Sample(j, n, uMin, uMax), d0, d1)).0, eval(Param(Sample(j, n, uMin, uMax), d0, d1)).1, 0.0)
    ensures Sample(0, n, uMin, uMax) == uMin && Sample(n, n, uMin, uMax) == uMax
  {
    SampleEnds(n, uMin, uMax);
    RowSamplesAt(uMin, uMax, n, d0, d1, eval, k);
  }

  lemma SampleEnds(n: nat, uMin: real, uMax: real)
    requires n > 0
    ensures Sample(0, n, uMin, uMax) == uMin && Sample(n, n, uMin, uMax) == uMax
  {
    assert (n as real) / (n as real) == 1.0;
    assert (0 as real) / (n as real) == 0.0;
  }

  lemma {:induction false} RowSamplesAt(uMin: real, uMax: real, n: nat, d0: real, d1: real, eval: Evaluator, k: nat)
    requires n > 0 && k <= n + 1
    ensures var r := Row(uMin, uMax, n, d0, d1, eval, k);
      forall j :: 0 <= j < |r| ==>
        r[j] == Vec3(eval(Param(Sample(j, n, uMin, uMax), d0, d1)).0, eval(Param(Sample(j, n, uMin, uMax), d0, d1)).1, 0.0)
  {
    if k > 0 {
      RowSamplesAt(uMin, uMax, n, d0, d1, eval, k - 1);
      RowLength(uMin, uMax, n, d0, d1, eval, k - 1);
      var r0 := Row(uMin, uMax, n, d0, d1, eval, k - 1);
      var p := eval(Param(Sample(k - 1, n, uMin, uMax), d0, d1));
      var r := Row(uMin, uMax, n, d0, d1, eval, k);
      assert r == r0 + [Vec3(p.0, p.1, 0.0)];
      forall j | 0 <= j < |r|
        ensures r[j] == Vec3(eval(Param(Sample(j, n, uMin, uMax), d0, d1)).0, eval(Param(Sample(j, n, uMin, uMax), d0, d1)).1, 0.0)
      {
        if j < k - 1 {
          assert r[j] == r0[j];
        }
      }
    }
  }

  /** `_getBSplinePolyline(controlPoints, degree, knots, interpolations)`: the
      control points and weights only reach the evaluator. */
  method GetBSplinePolyline(knots: seq<real>, degree: nat, given: Option<nat>, eval: Evaluator)
    returns (polyline: seq<Vec3>)
    ensures polyline == BSplinePolylineSpec(knots, degree, given, eval)
  {
    polyline := [];
    if |knots| <= degree {
      return;
    }
    var segmentTs := [knots[degree]];
    var d0, d1 := knots[degree], knots[|knots| - 1 - degree];
    var k := degree + 1;
    while k < |knots| - degree
      invariant degree + 1 <= k <= ScanEnd(knots, degree)
      invariant segmentTs == Breaks(knots, degree, k)
    {
      if segmentTs[|segmentTs| - 1] != knots[k] {
        segmentTs := segmentTs + [knots[k]];
      }
      k := k + 1;
    }
    var n := Interpolations(given);
    for i := 1 to |segmentTs|
      invariant polyline == Rows(segmentTs, i, n, d0, d1, eval)
    {
      var uMin, uMax := segmentTs[i - 1], segmentTs[i];
      var row := [];
      for j := 0 to n + 1
        invariant row == Row(uMin, uMax, n, d0, d1, eval, j)
      {
        var p := eval(Param(Sample(j, n, uMin, uMax), d0, d1));
        row := row + [Vec3(p.0, p.1, 0.0)];
      }
      polyline := polyline + row;
    }
  }

  /** `drawSpline(entity)`: the polyline, its segment index and the material kind. */
  method DrawSpline(knots: seq<real>, degree: nat, eval: Evaluator, lineTypeName: Option<string>, ltypes: map<string, seq<real>>)
    returns (points: seq<Vec3>, index: seq<nat>, kind: string)
    ensures points == BSplinePolylineSpec(knots, degree, None, eval)
    ensures index == PointIndex(|points|)
    ensures kind == LineTypeFor(lineTypeName, ltypes)
  {
    kind := LineTypeFor(lineTypeName, ltypes);
    points := GetBSplinePolyline(knots, degree, None, eval);
    index := GeneratePointIndex(points);
  }
}
