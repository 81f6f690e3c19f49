/** Point and index construction for LINE, POLYLINE and LWPOLYLINE entities
    (src/entities/lineEntity.js). The bulge-arc generator of the dxf library
    (`createArcForLWPolyline`) is a parameter: given the two end points and the
    bulge it returns the arc's intermediate points as (x, y) pairs. A vertex's
    bulge is a real number, with an absent bulge read as 0 (both are falsy). */
module LineEntity {
  import opened Js
  import opened GeometryHelper

  datatype Vec3 = Vec3(x: real, y: real, z: real)

  /** A polyline vertex as `_getPolyLinePoints` reads it: x, y and the bulge. */
  datatype Vertex = Vertex(x: real, y: real, bulge: real)

  /** `createArcForLWPolyline([x0, y0], [x1, y1], bulge)`. */
  type ArcGen = (real, real, real, real, real) -> seq<(real, real)>

  /** An element of a JavaScript points array: a Vector3, or `undefined` (what
      `points[0]` yields on an empty array). */
  type Slot = Option<Vec3>

  function Flat(v: Vertex): Vec3 { Vec3(v.x, v.y, 0.0) }

  /** The arc points of a generator, each as a Vector3 with z = 0. */
  function Lift(pts: seq<(real, real)>): (r: seq<Slot>)
    ensures |r| == |pts|
    ensures forall j :: 0 <= j < |r| ==> r[j] == Some(Vec3(pts[j].0, pts[j].1, 0.0))
  {
    seq(|pts|, j requires 0 <= j < |pts| => Some(Vec3(pts[j].0, pts[j].1, 0.0)))
  }

  /** The points inserted after vertex i: its bulge arc towards vertex i+1, if the
      bulge is non-zero. */
  function ArcPoints(vs: seq<Vertex>, i: nat, arc: ArcGen): seq<Slot>
    requires i + 1 < |vs|
  {
    if vs[i].bulge != 0.0 then Lift(arc(vs[i].x, vs[i].y, vs[i + 1].x, vs[i + 1].y, vs[i].bulge)) else []
  }

  /** What iteration i of the loop pushes: vertex i, its arc points and, on the last
      iteration, vertex i+1. */
  function Segment(vs: seq<Vertex>, i: nat, arc: ArcGen): seq<Slot>
    requires i + 1 < |vs|
  {
    [Some(Flat(vs[i]))] + ArcPoints(vs, i, arc) + (if i == |vs| - 2 then [Some(Flat(vs[i + 1]))] else [])
  }

  /** The points after the first k iterations. */
  function Body(vs: seq<Vertex>, k: nat, arc: ArcGen): seq<Slot>
    requires k < |vs| || k == 0
  {
    if k == 0 then [] else Body(vs, k - 1, arc) + Segment(vs, k - 1, arc)
  }

  /** The number of vertices the loop runs over: `vertices.length - 1`, or none. */
  function Steps(vs: seq<Vertex>): nat { if |vs| == 0 then 0 else |vs| - 1 }

  /** `_getPolyLinePoints(vertices, closed)` as a value. */
  function PolyLinePointsSpec(vs: seq<Vertex>, closed: bool, arc: ArcGen): seq<Slot>
  {
    var body := Body(vs, Steps(vs), arc);
    if closed then body + [if |body| > 0 then body[0] else None] else body
  }

  /** The inner loop: pushes each arc point as a Vector3 with z = 0. */
  method PushArc(points: seq<Slot>, arcPoints: seq<(real, real)>) returns (out: seq<Slot>)
    ensures out == points + Lift(arcPoints)
  {
    out := points;
    var j := 0;
    while j < |arcPoints|
      invariant 0 <= j <= |arcPoints|
      invariant out == points + Lift(arcPoints[..j])
    {
      assert Lift(arcPoints[..j + 1]) == Lift(arcPoints[..j]) + [Some(Vec3(arcPoints[j].0, arcPoints[j].1, 0.0))];
      out := out + [Some(Vec3(arcPoints[j].0, arcPoints[j].1, 0.0))];
      j := j + 1;
    }
    assert arcPoints[..j] == arcPoints;
  }

  /** One iteration of the vertex loop: vertex i, its arc, and on the last iteration
      vertex i+1. */
  method PushSegment(points: seq<Slot>, vs: seq<Vertex>, i: nat, arc: ArcGen) returns (out: seq<Slot>)
    requires i + 1 < |vs|
    ensures out == points + Segment(vs, i, arc)
  {
    var from := Vec3(vs[i].x, vs[i].y, 0.0);
    var to := Vec3(vs[i + 1].x, vs[i + 1].y, 0.0);
    out := points + [Some(from)];
    if vs[i].bulge != 0.0 {
      out := PushArc(out, arc(from.x, from.y, to.x, to.y, vs[i].bulge));
    }
    assert out == points + [Some(from)] + ArcPoints(vs, i, arc);
    if i == |vs| - 2 {
      out := out + [Some(to)];
    }
  }

  /** `_getPolyLinePoints`: the vertex loop, then the close. */
  method PolyLinePoints(vs: seq<Vertex>, closed: bool, arc: ArcGen) returns (points: seq<Slot>)
    ensures points == PolyLinePointsSpec(vs, closed, arc)
  {
    points := [];
    var i := 0;
    while i < |vs| - 1
      invariant 0 <= i <= Steps(vs)
      invariant points == Body(vs, i, arc)
    {
      points := PushSegment(points, vs, i, arc);
      assert Body(vs, i + 1, arc) == Body(vs, i, arc) + Segment(vs, i, arc);
      i := i + 1;
    }
    assert i == Steps(vs);
    if closed {
      points := points + [if |points| > 0 then points[0] else None];
    }
  }

  // ---------------------------------------------------------------- what the points are

  /** The sum of the arc lengths after vertices 0..k-1. */
  function ArcTotal(vs: seq<Vertex>, k: nat, arc: ArcGen): nat
    requires k < |vs| || k == 0
  {
    if k == 0 then 0 else ArcTotal(vs, k - 1, arc) + |ArcPoints(vs, k - 1, arc)|
  }

  lemma {:induction false} BodyLength(vs: seq<Vertex>, k: nat, arc: ArcGen)
    requires k < |vs| || k == 0
    ensures |Body(vs, k, arc)| == k + ArcTotal(vs, k, arc) + (if k > 0 && k == |vs| - 1 then 1 else 0)
  {
    if k > 0 {
      BodyLength(vs, k - 1, arc);
    }
  }

  /** n vertices give n points plus the arc points of vertices 0..n-2, plus one when
      closed; fewer than two vertices give no points at all. */
  lemma PolyLineLength(vs: seq<Vertex>, closed: bool, arc: ArcGen)
    ensures |vs| >= 2 ==>
      |PolyLinePointsSpec(vs, closed, arc)| == |vs| + ArcTotal(vs, |vs| - 1, arc) + (if closed then 1 else 0)
    ensures |vs| < 2 ==> PolyLinePointsSpec(vs, closed, arc) == (if closed then [None] else [])
  {
    BodyLength(vs, Steps(vs), arc);
  }

  /** Every point is defined and lies in the z = 0 plane. */
  predicate AllFlat(ps: seq<Slot>)
  {
    forall j :: 0 <= j < |ps| ==> ps[j].Some? && ps[j].value.z == 0.0
  }

  lemma AllFlatAppend(a: seq<Slot>, b: seq<Slot>)
    requires AllFlat(a) && AllFlat(b)
    ensures AllFlat(a + b)
  {
    forall j | 0 <= j < |a + b|
      ensures (a + b)[j].Some? && (a + b)[j].value.z == 0.0
    {
      if j < |a| {
        assert (a + b)[j] == a[j];
      } else {
        assert (a + b)[j] == b[j - |a|];
      }
    }
  }

  /** Every point is defined and lies in the z = 0 plane, except the `undefined`
      that closing a polyline of fewer than two vertices pushes. */
  lemma {:induction false} BodyFlat(vs: seq<Vertex>, k: nat, arc: ArcGen)
    requires k < |vs| || k == 0
    ensures AllFlat(Body(vs, k, arc))
  {
    if k > 0 {
      BodyFlat(vs, k - 1, arc);
      var s := Segment(vs, k - 1, arc);
      assert AllFlat(s);
      AllFlatAppend(Body(vs, k - 1, arc), s);
    }
  }

  /** The output starts at vertex 0, ends at vertex n-1 (or, when closed, back at
      vertex 0), and holds only defined points with z = 0. */
  lemma PolyLineEnds(vs: seq<Vertex>, closed: bool, arc: ArcGen)
    requires |vs| >= 2
    ensures var r := PolyLinePointsSpec(vs, closed, arc);
      && |r| >= 2
      && r[0] == Some(Flat(vs[0]))
      && r[|r| - 1] == (if closed then Some(Flat(vs[0])) else Some(Flat(vs[|vs| - 1])))
      && AllFlat(r)
  {
    var body := Body(vs, |vs| - 1, arc);
    BodyFacts(vs, arc);
    assert PolyLinePointsSpec(vs, closed, arc) == if closed then body + [body[0]] else body;
    if closed {
      assert AllFlat([body[0]]);
      AllFlatAppend(body, [body[0]]);
    }
  }

  /** The loop's points for two or more vertices: at least two, from vertex 0
      to vertex n-1, all defined with z = 0. */
  lemma BodyFacts(vs: seq<Vertex>, arc: ArcGen)
    requires |vs| >= 2
    ensures var body := Body(vs, |vs| - 1, arc);
      |body| >= 2 && body[0] == Some(Flat(vs[0])) && body[|body| - 1] == Some(Flat(vs[|vs| - 1])) && AllFlat(body)
  {
    BodyFlat(vs, |vs| - 1, arc);
    BodyStart(vs, |vs| - 1, arc);
    BodyEnd(vs, arc);
  }

  /** An open polyline's points end at the last vertex. */
  lemma BodyEnd(vs: seq<Vertex>, arc: ArcGen)
    requires |vs| >= 2
    ensures var body := Body(vs, |vs| - 1, arc); |body| >= 2 && body[|body| - 1] == Some(Flat(vs[|vs| - 1]))
  {
    var n := |vs|;
    var seg := Segment(vs, n - 2, arc);
    assert seg == [Some(Flat(vs[n - 2]))] + ArcPoints(vs, n - 2, arc) + [Some(Flat(vs[n - 1]))];
    assert Body(vs, n - 1, arc) == Body(vs, n - 2, arc) + seg;
  }

  lemma {:induction false} BodyStart(vs: seq<Vertex>, k: nat, arc: ArcGen)
    requires 0 < k < |vs|
    ensures |Body(vs, k, arc)| > 0 && Body(vs, k, arc)[0] == Some(Flat(vs[0]))
  {
    if k > 1 {
      BodyStart(vs, k - 1, arc);
    }
  }

  /** Without bulges the points are the vertices themselves, flattened to z = 0. */
  lemma {:induction false} BodyNoBulge(vs: seq<Vertex>, k: nat, arc: ArcGen)
    requires k < |vs| || k == 0
    requires forall i :: 0 <= i < k ==> vs[i].bulge == 0.0
    ensures Body(vs, k, arc) == seq(k + (if k > 0 && k == |vs| - 1 then 1 else 0), i requires 0 <= i < |vs| => Some(Flat(vs[i])))
  {
    if k > 0 {
      BodyNoBulge(vs, k - 1, arc);
    }
  }

  lemma PolyLineNoBulge(vs: seq<Vertex>, arc: ArcGen)
    requires |vs| >= 2
    requires forall i :: 0 <= i < |vs| - 1 ==> vs[i].bulge == 0.0
    ensures PolyLinePointsSpec(vs, false, arc) == seq(|vs|, i requires 0 <= i < |vs| => Some(Flat(vs[i])))
  {
    BodyNoBulge(vs, |vs| - 1, arc);
  }

  /** The last vertex's bulge is never read. */
  lemma {:induction false} BodyIgnoresLastBulge(vs: seq<Vertex>, ws: seq<Vertex>, k: nat, arc: ArcGen)
    requires |vs| == |ws| && (k < |vs| || k == 0)
    requires forall i :: 0 <= i < |vs| ==> vs[i].x == ws[i].x && vs[i].y == ws[i].y
    requires forall i :: 0 <= i < |vs| - 1 ==> vs[i].bulge == ws[i].bulge
    ensures Body(vs, k, arc) == Body(ws, k, arc)
  {
    if k > 0 {
      BodyIgnoresLastBulge(vs, ws, k - 1, arc);
      assert Flat(vs[k - 1]) == Flat(ws[k - 1]);
      assert ArcPoints(vs, k - 1, arc) == ArcPoints(ws, k - 1, arc);
      if k - 1 == |vs| - 2 {
        assert Flat(vs[k]) == Flat(ws[k]);
      }
      assert Segment(vs, k - 1, arc) == Segment(ws, k - 1, arc);
    }
  }

  lemma LastBulgeIgnored(vs: seq<Vertex>, b: real, closed: bool, arc: ArcGen)
    requires |vs| >= 1
    ensures var ws := vs[|vs| - 1 := Vertex(vs[|vs| - 1].x, vs[|vs| - 1].y, b)];
      PolyLinePointsSpec(vs, closed, arc) == PolyLinePointsSpec(ws, closed, arc)
  {
    var ws := vs[|vs| - 1 := Vertex(vs[|vs| - 1].x, vs[|vs| - 1].y, b)];
    BodyIgnoresLastBulge(vs, ws, Steps(vs), arc);
  }

  // ---------------------------------------------------------------- drawLine / drawPolyLine

  /** The material kind: 'dashed' exactly when the entity names a line type that the
      ltypes table holds with a non-empty pattern. */
  function LineTypeFor(lineTypeName: Option<string>, ltypes: map<string, seq<real>>): (kind: string)
    ensures kind == "dashed" || kind == "line"
    ensures kind == "dashed" <==>
      (lineTypeName.Some? && lineTypeName.value != "" && lineTypeName.value in ltypes && |ltypes[lineTypeName.value]| > 0)
  {
    if lineTypeName.Some? && lineTypeName.value != "" && lineTypeName.value in ltypes && |ltypes[lineTypeName.value]| > 0
    then "dashed" else "line"
  }

  /** `drawLine`: the two end points, joined by the single segment (0, 1). */
  function DrawLinePoints(start: Vec3, end: Vec3): (r: (seq<Vec3>, seq<nat>))
    ensures r.0 == [start, end]
    ensures r.1 == PointIndex(|r.0|)
  {
    ([start, end], [0, 1])
  }

  /** `drawPolyLine`: the polyline points and the segment index over them. */
  method DrawPolyLine(vs: seq<Vertex>, closed: bool, arc: ArcGen) returns (points: seq<Slot>, index: seq<nat>)
    ensures points == PolyLinePointsSpec(vs, closed, arc)
    ensures index == PointIndex(|points|)
  {
    points := PolyLinePoints(vs, closed, arc);
    index := GeneratePointIndex(points);
  }
}
