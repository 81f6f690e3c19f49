/** Boundary assembly of HATCH entities (src/entities/hatchEntity.js). The
    boundary edges are objects that `_getBoundaryPoints` rewrites in place: each
    LINE, ARC, ELLIPSE or SPLINE edge gets a fresh `points` array. The loops'
    point chains are then merged edge by edge, the hole loops (type bit 16) are
    collected first, and each outer loop (type bit 1) becomes a shape; the first
    shape takes all the holes.

    three.js is not modelled: `ArcCurve`/`EllipseCurve.getPoints(32)` are
    samplers passed in as parameters, and a shape geometry is represented by the
    shape it is built from, so the hatch geometry is the list of merged shapes. */
module HatchEntity {
  import opened Js
  import opened LineEntity

  /** What the ARC and ELLIPSE curves are built from. */
  datatype Curve = Curve(cx: real, cy: real, radius: real, startAngle: real, endAngle: real,
                         majorX: real, majorY: real, minor: real)

  /** `new ArcCurve(…).getPoints(32)` or `new EllipseCurve(…).getPoints(32)`. */
  type Sampler = Curve -> seq<(real, real)>

  /** A boundary edge. `kind` is its `type`, with "" for a missing type. A POLYLINE
      edge keeps its vertex records (with bulges) in `vertices`; every other edge
      keeps its point list in `points`, which is `None` while it is undefined. */
  class Edge {
    const kind: string
    const start: Vec3
    const end: Vec3
    const curve: Curve
    const vertices: seq<Vertex>
    const closed: bool
    var points: Option<seq<Vec3>>

    constructor (kind: string, start: Vec3, end: Vec3, curve: Curve, vertices: seq<Vertex>, closed: bool, points: Option<seq<Vec3>>)
      ensures this.kind == kind && this.start == start && this.end == end && this.curve == curve
      ensures this.vertices == vertices && this.closed == closed && this.points == points
    {
      this.kind := kind;
      this.start := start;
      this.end := end;
      this.curve := curve;
      this.vertices := vertices;
      this.closed := closed;
      this.points := points;
    }
  }

  /** A boundary loop: its type bits and its edges, `None` for a null entry. */
  datatype BoundaryLoop = BoundaryLoop(loopType: int, entities: seq<Option<Edge>>)

  /** `entity.boundary`: the declared loop count and the loops. */
  datatype Boundary = Boundary(count: int, loops: seq<BoundaryLoop>)

  /** The non-null edges of a list. */
  ghost function EdgesIn(es: seq<Option<Edge>>): set<Edge>
  {
    set j | 0 <= j < |es| && es[j].Some? :: es[j].value
  }

  /** The non-null edges of all the loops. */
  ghost function EdgesOf(ls: seq<BoundaryLoop>): set<Edge>
  {
    set i, j | 0 <= i < |ls| && 0 <= j < |ls[i].entities| && ls[i].entities[j].Some? :: ls[i].entities[j].value
  }

  function Plane(ps: seq<(real, real)>): (r: seq<Vec3>)
    ensures |r| == |ps|
    ensures forall j :: 0 <= j < |r| ==> r[j] == Vec3(ps[j].0, ps[j].1, 0.0)
  {
    seq(|ps|, j requires 0 <= j < |ps| => Vec3(ps[j].0, ps[j].1, 0.0))
  }

  /** The points array `_getBoundaryPoints` writes into an edge, or `None` for the
      kinds it leaves alone (POLYLINE and unknown types). It depends only on the
      edge's constant fields, so converting an edge twice gives the same array. */
  function Converted(e: Edge, arcS: Sampler, ellS: Sampler): Option<seq<Vec3>>
  {
    if e.kind == "LINE" then Some([Vec3(e.start.x, e.start.y, 0.0), Vec3(e.end.x, e.end.y, 0.0)])
    else if e.kind == "ARC" then Some(Plane(arcS(e.curve)))
    else if e.kind == "ELLIPSE" then Some(Plane(ellS(e.curve)))
    else if e.kind == "SPLINE" then Some([])
    else None
  }

  /** The number of loops `_getBoundaryPoints` gets through: `boundary.count`,
      cut short at the end of the loop list, where it throws. */
  function VisitedCount(b: Boundary): (n: nat)
    ensures n <= |b.loops|
  {
    if b.count <= 0 then 0 else if b.count < |b.loops| then b.count else |b.loops|
  }

  lemma EdgesInSnoc(es: seq<Option<Edge>>, j: nat)
    requires j < |es|
    ensures EdgesIn(es[..j + 1]) == EdgesIn(es[..j]) + (if es[j].Some? then {es[j].value} else {})
  {
    assert es[..j + 1][..j] == es[..j];
  }

  lemma EdgesOfSnoc(ls: seq<BoundaryLoop>, i: nat)
    requires i < |ls|
    ensures EdgesOf(ls[..i + 1]) == EdgesOf(ls[..i]) + EdgesIn(ls[i].entities)
  {
    assert ls[..i + 1][..i] == ls[..i];
  }

  lemma {:induction false} EdgesOfPrefix(ls: seq<BoundaryLoop>, i: nat)
    requires i <= |ls|
    ensures EdgesOf(ls[..i]) <= EdgesOf(ls)
    decreases |ls| - i
  {
    if i < |ls| {
      EdgesOfSnoc(ls, i);
      EdgesOfPrefix(ls, i + 1);
    } else {
      assert ls[..i] == ls;
    }
  }

  lemma {:induction false} EdgesInPrefix(es: seq<Option<Edge>>, j: nat)
    requires j <= |es|
    ensures EdgesIn(es[..j]) <= EdgesIn(es)
    decreases |es| - j
  {
    if j < |es| {
      EdgesInSnoc(es, j);
      EdgesInPrefix(es, j + 1);
    } else {
      assert es[..j] == es;
    }
  }

  /** The state an edge is left in once the first `done` edges are converted. */
  ghost predicate ConvertedUpTo(all: set<Edge>, done: set<Edge>, arcS: Sampler, ellS: Sampler, before: map<Edge, Option<seq<Vec3>>>)
    reads all
  {
    forall e :: e in all ==>
      (e in before && e.points == (if e in done && Converted(e, arcS, ellS).Some? then Converted(e, arcS, ellS) else before[e]))
  }

  /** The conversion of one edge, by its type: LINE gets its two end points, ARC
      and ELLIPSE the sampled curve, SPLINE an empty array (`_getSplinePoints` is
      not written yet), and a POLYLINE or unknown edge is left alone. */
  method ConvertEdge(e: Edge, arcS: Sampler, ellS: Sampler)
    modifies e
    ensures e.points == (if Converted(e, arcS, ellS).Some? then Converted(e, arcS, ellS) else old(e.points))
  {
    if e.kind == "LINE" {
      e.points := Some([Vec3(e.start.x, e.start.y, 0.0), Vec3(e.end.x, e.end.y, 0.0)]);
    } else if e.kind == "POLYLINE" {
    } else if e.kind == "ARC" || e.kind == "ELLIPSE" {
      var ps := if e.kind == "ARC" then arcS(e.curve) else ellS(e.curve);
      e.points := Some([]);
      for k := 0 to |ps|
        invariant e.points == Some(Plane(ps[..k]))
      {
        assert Plane(ps[..k + 1]) == Plane(ps[..k]) + [Vec3(ps[k].0, ps[k].1, 0.0)];
        e.points := Some(e.points.value + [Vec3(ps[k].0, ps[k].1, 0.0)]);
      }
      assert ps[..|ps|] == ps;
    } else if e.kind == "SPLINE" {
      e.points := Some([]);
    }
  }

  /** One loop's edges: null entries and edges without a type are skipped. */
  method ConvertLoop(es: seq<Option<Edge>>, arcS: Sampler, ellS: Sampler, ghost all: set<Edge>, ghost done: set<Edge>,
                     ghost before: map<Edge, Option<seq<Vec3>>>)
    requires EdgesIn(es) <= all
    requires ConvertedUpTo(all, done, arcS, ellS, before)
    modifies all
    ensures ConvertedUpTo(all, done + EdgesIn(es), arcS, ellS, before)
  {
    for j := 0 to |es|
      invariant ConvertedUpTo(all, done + EdgesIn(es[..j]), arcS, ellS, before)
    {
      EdgesInSnoc(es, j);
      EdgesInPrefix(es, j + 1);
      var ent := es[j];
      if ent.None? || ent.value.kind == "" {
        continue;
      }
      ConvertEdge(ent.value, arcS, ellS);
    }
    assert es[..|es|] == es;
  }

  /** `_getBoundaryPoints(boundary)`: converts the edges of loops 0..count-1 in
      place; with a count beyond the loop list it throws after converting all the
      loops there are. Edges of later loops, and POLYLINE or unknown edges, keep
      their points. */
  method GetBoundaryPoints(b: Boundary, arcS: Sampler, ellS: Sampler) returns (threw: bool)
    modifies EdgesOf(b.loops)
    ensures threw <==> b.count > |b.loops|
    ensures forall e :: old(allocated(e)) && e in EdgesOf(b.loops) ==>
      e.points == (if e in EdgesOf(b.loops[..VisitedCount(b)]) && Converted(e, arcS, ellS).Some?
                   then Converted(e, arcS, ellS) else old(e.points))
  {
    ghost var all := EdgesOf(b.loops);
    ghost var before := map e | e in all :: e.points;
    var i := 0;
    while i < b.count
      invariant 0 <= i <= VisitedCount(b)
      invariant ConvertedUpTo(all, EdgesOf(b.loops[..i]), arcS, ellS, before)
    {
      if i >= |b.loops| {
        // `boundary.loops[i]` is undefined and reading `.entities` throws.
        return true;
      }
      EdgesOfSnoc(b.loops, i);
      EdgesOfPrefix(b.loops, i + 1);
      ConvertLoop(b.loops[i].entities, arcS, ellS, all, EdgesOf(b.loops[..i]), before);
      i := i + 1;
    }
    threw := false;
  }

  /** What a visited edge holds afterwards: a LINE exactly its two end points in
      the z = 0 plane, a SPLINE an empty array, an ARC or ELLIPSE its sampled
      curve at z = 0; POLYLINE and unknown edges are not converted. */
  lemma ConvertedRules(e: Edge, arcS: Sampler, ellS: Sampler)
    ensures e.kind == "LINE" ==> Converted(e, arcS, ellS) == Some([Vec3(e.start.x, e.start.y, 0.0), Vec3(e.end.x, e.end.y, 0.0)])
    ensures e.kind == "SPLINE" ==> Converted(e, arcS, ellS) == Some([])
    ensures Converted(e, arcS, ellS).None? <==> !(e.kind == "LINE" || e.kind == "ARC" || e.kind == "ELLIPSE" || e.kind == "SPLINE")
    ensures Converted(e, arcS, ellS).Some? ==> forall k :: 0 <= k < |Converted(e, arcS, ellS).value| ==> Converted(e, arcS, ellS).value[k].z == 0.0
  {
  }

  // ---------------------------------------------------------------- merging a loop's points

  function Slots(ps: seq<Vec3>): (r: seq<Slot>)
    ensures |r| == |ps|
    ensures forall j :: 0 <= j < |r| ==> r[j] == Some(ps[j])
  {
    seq(|ps|, j requires 0 <= j < |ps| => Some(ps[j]))
  }

  /** `lastPoint && lastPoint.x === point.x && lastPoint.y === point.y`, with
      lastPoint the point accumulated so far (an `undefined` one is falsy). */
  predicate JoinsAt(acc: seq<Slot>, p: Vec3)
  {
    |acc| > 0 && acc[|acc| - 1].Some? && acc[|acc| - 1].value.x == p.x && acc[|acc| - 1].value.y == p.y
  }

  /** The points a non-POLYLINE edge contributes: all of them, except a first point
      that repeats the last accumulated one in x and y. */
  function JoinPoints(acc: seq<Slot>, ps: seq<Vec3>): seq<Slot>
  {
    if |ps| > 0 && JoinsAt(acc, ps[0]) then Slots(ps[1..]) else Slots(ps)
  }

  function MergeStep(acc: seq<Slot>, ent: Option<Edge>, arc: ArcGen): seq<Slot>
    reads if ent.Some? then {ent.value} else {}
  {
    if ent.None? then acc
    else if ent.value.kind == "POLYLINE" then acc + PolyLinePointsSpec(ent.value.vertices, ent.value.closed, arc)
    else if ent.value.points.None? then acc
    else acc + JoinPoints(acc, ent.value.points.value)
  }

  /** `_mergeLoopPoints` over a loop's edges, as a value. */
  function Merged(es: seq<Option<Edge>>, arc: ArcGen): seq<Slot>
    reads set j | 0 <= j < |es| && es[j].Some? :: es[j].value
  {
    if es == [] then [] else MergeStep(Merged(es[..|es| - 1], arc), es[|es| - 1], arc)
  }

  /** `_mergeLoopPoints(loop)`: null edges are skipped, a POLYLINE edge's points come
      from `_getPolyLinePoints(points, closed)` and are concatenated as they are, an
      edge whose points are undefined adds nothing, and any other edge's points are
      pushed one by one, except a first point that joins the last accumulated one. */
  method MergeLoopPoints(es: seq<Option<Edge>>, arc: ArcGen) returns (points: seq<Slot>)
    ensures points == Merged(es, arc)
  {
    points := [];
    for i := 0 to |es|
      invariant points == Merged(es[..i], arc)
    {
      assert es[..i + 1][..i] == es[..i];
      assert Merged(es[..i + 1], arc) == MergeStep(Merged(es[..i], arc), es[i], arc);
      var ent := es[i];
      if ent.None? {
        continue;
      }
      var e := ent.value;
      if e.kind == "POLYLINE" {
        var p := PolyLinePoints(e.vertices, e.closed, arc);
        points := points + p;
      } else {
        if e.points.None? {
          continue;
        }
        points := PushPoints(points, e.points.value);
      }
    }
    assert es[..|es|] == es;
  }

  /** The inner loop of `_mergeLoopPoints` for a non-POLYLINE edge. */
  method PushPoints(acc: seq<Slot>, ps: seq<Vec3>) returns (points: seq<Slot>)
    ensures points == acc + JoinPoints(acc, ps)
  {
    points := acc;
    var lastJoins := |ps| > 0 && JoinsAt(points, ps[0]);
    for j := 0 to |ps|
      invariant points == acc + (if lastJoins && j > 0 then Slots(ps[1..j]) else Slots(ps[..j]))
    {
      if j == 0 && lastJoins {
        continue;
      }
      points := points + [Some(ps[j])];
      if lastJoins {
        assert Slots(ps[1..j + 1]) == Slots(ps[1..j]) + [Some(ps[j])];
      } else {
        assert Slots(ps[..j + 1]) == Slots(ps[..j]) + [Some(ps[j])];
      }
    }
    assert ps[..|ps|] == ps;
  }

  /** A loop of LINE edges whose points run P[0]→P[1], P[1]→P[2], … merges into the
      path P: each shared corner appears once. */
  lemma {:induction false} LineChainMerges(es: seq<Option<Edge>>, P: seq<Vec3>, arc: ArcGen)
    requires |es| >= 1 && |P| == |es| + 1
    requires forall j :: 0 <= j < |es| ==>
      es[j].Some? && es[j].value.kind == "LINE" && es[j].value.points == Some([P[j], P[j + 1]])
    ensures Merged(es, arc) == Slots(P)
  {
    var n := |es|;
    var e := es[n - 1].value;
    if n == 1 {
      assert Merged(es[..0], arc) == [];
      assert JoinPoints([], [P[0], P[1]]) == Slots(P);
    } else {
      LineChainMerges(es[..n - 1], P[..n], arc);
      var acc := Slots(P[..n]);
      assert JoinsAt(acc, P[n - 1]);
      assert [P[n - 1], P[n]][1..] == [P[n]];
      assert Merged(es, arc) == acc + Slots([P[n]]);
    }
  }

  // ---------------------------------------------------------------- holes and outer shapes

  /** A three.js Shape: its outline and its holes. */
  datatype Shape = Shape(outline: seq<Slot>, holes: seq<seq<Slot>>)

  /** `(loop.type & 16) === 16`. */
  predicate IsHole(loopType: int) { BitSet(loopType, 4) }

  /** `(loop.type & 1) === 1`. */
  predicate IsOuter(loopType: int) { BitSet(loopType, 0) }

  /** The first pass: the non-empty chains of the hole loops among the first k. */
  function HolesOf(types: seq<int>, chains: seq<seq<Slot>>, k: nat): seq<seq<Slot>>
    requires |types| == |chains| && k <= |types|
  {
    if k == 0 then []
    else HolesOf(types, chains, k - 1) + (if IsHole(types[k - 1]) && |chains[k - 1]| > 0 then [chains[k - 1]] else [])
  }

  /** The state of the second pass: the shapes so far and the holes not yet given out. */
  datatype OuterState = OuterState(shapes: seq<Shape>, holes: seq<seq<Slot>>)

  function OuterPass(types: seq<int>, chains: seq<seq<Slot>>, k: nat, holes: seq<seq<Slot>>): OuterState
    requires |types| == |chains| && k <= |types|
  {
    if k == 0 then OuterState([], holes)
    else
      var st := OuterPass(types, chains, k - 1, holes);
      if IsOuter(types[k - 1]) && |chains[k - 1]| > 0
      then OuterState(st.shapes + [Shape(chains[k - 1], st.holes)], [])
      else st
  }

  /** `_generateBoundary` as a value: the shapes, or null when there are none. */
  function BoundaryOf(types: seq<int>, chains: seq<seq<Slot>>): Option<seq<Shape>>
    requires |types| == |chains|
  {
    var st := OuterPass(types, chains, |types|, HolesOf(types, chains, |types|));
    if |st.shapes| > 0 then Some(st.shapes) else None
  }

  /** How many of the first k loops are outer loops with a non-empty chain. */
  function OuterCount(types: seq<int>, chains: seq<seq<Slot>>, k: nat): nat
    requires |types| == |chains| && k <= |types|
  {
    if k == 0 then 0 else OuterCount(types, chains, k - 1) + (if IsOuter(types[k - 1]) && |chains[k - 1]| > 0 then 1 else 0)
  }

  /** How many of the first k loops are hole loops with a non-empty chain. */
  function HoleCount(types: seq<int>, chains: seq<seq<Slot>>, k: nat): nat
    requires |types| == |chains| && k <= |types|
  {
    if k == 0 then 0 else HoleCount(types, chains, k - 1) + (if IsHole(types[k - 1]) && |chains[k - 1]| > 0 then 1 else 0)
  }

  /** The holes are non-empty chains of hole loops, one per such loop. */
  lemma {:induction false} HolesOfMeaning(types: seq<int>, chains: seq<seq<Slot>>, k: nat)
    requires |types| == |chains| && k <= |types|
    ensures |HolesOf(types, chains, k)| == HoleCount(types, chains, k)
    ensures forall h :: h in HolesOf(types, chains, k) ==>
      |h| > 0 && exists i :: 0 <= i < k && IsHole(types[i]) && chains[i] == h
  {
    if k > 0 {
      HolesOfMeaning(types, chains, k - 1);
    }
  }

  /** One shape per outer loop with points; the first takes every hole collected
      before it, later shapes take none, and the holes are used up once a shape exists. */
  lemma {:induction false} OuterPassShape(types: seq<int>, chains: seq<seq<Slot>>, k: nat, holes: seq<seq<Slot>>)
    requires |types| == |chains| && k <= |types|
    ensures var st := OuterPass(types, chains, k, holes);
      && |st.shapes| == OuterCount(types, chains, k)
      && (forall j :: 0 <= j < |st.shapes| ==> |st.shapes[j].outline| > 0)
      && (|st.shapes| > 0 ==> st.shapes[0].holes == holes)
      && (forall j :: 1 <= j < |st.shapes| ==> st.shapes[j].holes == [])
      && st.holes == (if |st.shapes| > 0 then [] else holes)
  {
    if k > 0 {
      OuterPassShape(types, chains, k - 1, holes);
    }
  }

  /** `_generateBoundary` returns null exactly when no outer loop has points;
      otherwise the first shape holds all the holes and the others none. */
  lemma BoundaryOfShape(types: seq<int>, chains: seq<seq<Slot>>)
    requires |types| == |chains|
    ensures BoundaryOf(types, chains).None? <==> OuterCount(types, chains, |types|) == 0
    ensures BoundaryOf(types, chains).Some? ==>
      var shapes := BoundaryOf(types, chains).value;
      && |shapes| == OuterCount(types, chains, |types|)
      && shapes[0].holes == HolesOf(types, chains, |types|)
      && (forall j :: 1 <= j < |shapes| ==> shapes[j].holes == [])
  {
    OuterPassShape(types, chains, |types|, HolesOf(types, chains, |types|));
  }

  function TypesOf(ls: seq<BoundaryLoop>): (types: seq<int>)
    ensures |types| == |ls|
    ensures forall i :: 0 <= i < |ls| ==> types[i] == ls[i].loopType
  {
    seq(|ls|, i requires 0 <= i < |ls| => ls[i].loopType)
  }

  /** Each loop's merged chain, in loop order. */
  function ChainsOf(ls: seq<BoundaryLoop>, arc: ArcGen): (chains: seq<seq<Slot>>)
    reads set i, j | 0 <= i < |ls| && 0 <= j < |ls[i].entities| && ls[i].entities[j].Some? :: ls[i].entities[j].value
    ensures |chains| == |ls|
    ensures forall i :: 0 <= i < |ls| ==> chains[i] == Merged(ls[i].entities, arc)
  {
    if ls == [] then []
    else
      var init := ls[..|ls| - 1];
      assert forall i :: 0 <= i < |init| ==> init[i] == ls[i];
      ChainsOf(init, arc) + [Merged(ls[|ls| - 1].entities, arc)]
  }

  /** `_generateBoundary(boundary)`: the hole pass, then the outer pass with the
      holes handed to the first shape and cleared (`holes.length = 0`). The line
      variant (`polylineGeos`) is never filled, so only the shapes decide. */
  method GenerateBoundary(ls: seq<BoundaryLoop>, arc: ArcGen) returns (r: Option<seq<Shape>>)
    ensures r == BoundaryOf(TypesOf(ls), ChainsOf(ls, arc))
  {
    var holes := CollectHoles(ls, arc);
    var edgeGeos, rest := CollectShapes(ls, arc, holes);
    r := if |edgeGeos| > 0 then Some(edgeGeos) else None;
  }

  /** The hole pass of `_generateBoundary`. */
  method CollectHoles(ls: seq<BoundaryLoop>, arc: ArcGen) returns (holes: seq<seq<Slot>>)
    ensures holes == HolesOf(TypesOf(ls), ChainsOf(ls, arc), |ls|)
  {
    ghost var types := TypesOf(ls);
    ghost var chains := ChainsOf(ls, arc);
    holes := [];
    for i := 0 to |ls|
      invariant holes == HolesOf(types, chains, i)
    {
      if IsHole(ls[i].loopType) {
        var points := MergeLoopPoints(ls[i].entities, arc);
        assert points == chains[i];
        if |points| > 0 {
          holes := holes + [points];
        }
      }
    }
  }

  /** The outer pass of `_generateBoundary`: each outer loop with points becomes a
      shape holding a copy of the pending holes, which are then cleared. */
  method CollectShapes(ls: seq<BoundaryLoop>, arc: ArcGen, holes0: seq<seq<Slot>>) returns (edgeGeos: seq<Shape>, holes: seq<seq<Slot>>)
    ensures OuterState(edgeGeos, holes) == OuterPass(TypesOf(ls), ChainsOf(ls, arc), |ls|, holes0)
  {
    ghost var types := TypesOf(ls);
    ghost var chains := ChainsOf(ls, arc);
    edgeGeos := [];
    holes := holes0;
    for i := 0 to |ls|
      invariant OuterState(edgeGeos, holes) == OuterPass(types, chains, i, holes0)
    {
      assert types[i] == ls[i].loopType;
      if IsOuter(ls[i].loopType) {
        var points := MergeLoopPoints(ls[i].entities, arc);
        assert points == chains[i];
        if |points| > 0 {
          edgeGeos := edgeGeos + [Shape(points, holes)];
          holes := [];
        }
      }
    }
  }

  // ---------------------------------------------------------------- drawHatch and draw

  /** The material `drawHatch` picks: the entity's 'shape' material for a SOLID fill,
      the shared pattern material for a PATTERN fill, none otherwise. */
  datatype HatchMaterial = NoMaterial | ShapeMaterial | PatternMaterial

  datatype HatchDraw = HatchDraw(geometry: Option<seq<Shape>>, material: HatchMaterial, mirrored: bool)

  datatype Hatch = Hatch(fillType: string, boundary: Boundary, extrusionZ: real)

  /** `_extrusionTransform`: the geometry is mirrored by scale(-1, 1, 1) exactly when
      the extrusion direction points down and there is a geometry. */
  function Mirrored(extrusionZ: real, geometry: Option<seq<Shape>>): (m: bool)
    ensures m ==> geometry.Some?
    ensures geometry.Some? ==> (m <==> extrusionZ < 0.0)
  {
    extrusionZ < 0.0 && geometry.Some?
  }

  /** `drawHatch(entity)`: converts the boundary edges, then builds the boundary
      shapes for a SOLID or PATTERN fill; any other fill type has no geometry. A
      boundary count beyond the loop list makes it throw, after the edges of every
      loop there is have been converted. */
  method DrawHatch(h: Hatch, arcS: Sampler, ellS: Sampler, arc: ArcGen) returns (r: Result<HatchDraw>)
    modifies EdgesOf(h.boundary.loops)
    ensures r.Err? <==> h.boundary.count > |h.boundary.loops|
    ensures forall e :: old(allocated(e)) && e in EdgesOf(h.boundary.loops) ==>
      e.points == (if e in EdgesOf(h.boundary.loops[..VisitedCount(h.boundary)]) && Converted(e, arcS, ellS).Some?
                   then Converted(e, arcS, ellS) else old(e.points))
    ensures r.Ok? ==> (r.value.geometry ==
      (if h.fillType == "SOLID" || h.fillType == "PATTERN"
       then BoundaryOf(TypesOf(h.boundary.loops), ChainsOf(h.boundary.loops, arc)) else None))
    ensures r.Ok? ==> (r.value.material ==
      (if h.fillType == "SOLID" then ShapeMaterial else if h.fillType == "PATTERN" then PatternMaterial else NoMaterial))
    ensures r.Ok? ==> r.value.mirrored == Mirrored(h.extrusionZ, r.value.geometry)
  {
    var threw := GetBoundaryPoints(h.boundary, arcS, ellS);
    if threw {
      return Err("Cannot read properties of undefined (reading 'entities')");
    }
    var geometry: Option<seq<Shape>> := None;
    var material := NoMaterial;
    if h.fillType == "SOLID" {
      geometry := GenerateBoundary(h.boundary.loops, arc);
      material := ShapeMaterial;
    } else if h.fillType == "PATTERN" {
      geometry := GenerateBoundary(h.boundary.loops, arc);
      material := PatternMaterial;
    }
    var mirrored := h.extrusionZ < 0.0 && geometry.Some?;
    r := Ok(HatchDraw(geometry, material, mirrored));
  }

  /** The mesh placement in `draw`: a SOLID fill is drawn first (renderOrder -1) and
      pushed just behind the plane (z = -0.1); every other fill sits at order 0, z 0. */
  function RenderFlags(fillType: string): (r: (int, real))
    ensures r.0 < 0 <==> fillType == "SOLID"
    ensures r.1 < 0.0 <==> fillType == "SOLID"
    ensures fillType == "SOLID" ==> r == (-1, -0.1)
    ensures fillType != "SOLID" ==> r == (0, 0.0)
  {
    if fillType == "SOLID" then (-1, -0.1) else (0, 0.0)
  }
}
