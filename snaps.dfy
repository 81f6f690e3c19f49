/** The snap index of src/tools/snaps.js: the first and last vertex of every line
    of the scene are collected, the scene's bounding box is cut into a voxel
    tree (1, then 8, 27 and 64 children per level, down to leaves at count 5)
    and each snap is pushed into the first leaf that contains it. Coordinates
    are reals; a JavaScript NaN coordinate is a `None` point or a `NaNBox`.
    World matrices and the bounding boxes three.js computes for an object are
    inputs. Voxels are values held by the index's `voxel` field. */
module SnapsIndex {
  import opened Js
  import opened LineEntity

  /** The kinds of scene object the collection distinguishes. */
  datatype ObjKind = LineObj | LineSegmentsObj | MeshObj | OtherObj

  /** `Box3().setFromObject(obj)`: empty (min +Infinity, max -Infinity) or finite. */
  datatype Bounds = Empty | Finite(lo: Vec3, hi: Vec3)

  /** A scene object: identity, kind, vertex positions in world coordinates,
      the box three.js computes for it, children. */
  datatype SceneObj = SceneObj(id: nat, kind: ObjKind, positions: seq<Vec3>, box: Bounds, children: seq<SceneObj>)

  /** `{ entity, point }`; a vertex read past the end gives a NaN point. */
  datatype Snap = Snap(entity: nat, point: Option<Vec3>)

  // ----- collection -----

  function VertexAt(ps: seq<Vec3>, i: int): Option<Vec3>
  {
    if 0 <= i < |ps| then Some(ps[i]) else None
  }

  function AllVertices(o: SceneObj): (r: seq<Snap>)
    ensures |r| == |o.positions|
    ensures forall k :: 0 <= k < |r| ==> r[k] == Snap(o.id, Some(o.positions[k]))
  {
    seq(|o.positions|, k requires 0 <= k < |o.positions| => Snap(o.id, Some(o.positions[k])))
  }

  /** What the traversal callback pushes for one object. */
  function OwnSnaps(o: SceneObj, lines: bool, meshes: bool): seq<Snap>
  {
    (if lines && (o.kind == LineObj || o.kind == LineSegmentsObj)
     then [Snap(o.id, VertexAt(o.positions, 0)), Snap(o.id, VertexAt(o.positions, |o.positions| - 1))]
     else [])
    + (if meshes && o.kind == MeshObj then AllVertices(o) else [])
  }

  /** `obj.traverse(callback)`: the object, then its children in order. */
  function Traverse(o: SceneObj, lines: bool, meshes: bool): seq<Snap>
    decreases o, 1
  {
    OwnSnaps(o, lines, meshes) + TraverseAll(o.children, lines, meshes)
  }

  /** `_getSnaps(objs, lines, meshes)`. */
  function TraverseAll(objs: seq<SceneObj>, lines: bool, meshes: bool): seq<Snap>
    decreases objs, 0
  {
    if |objs| == 0 then [] else Traverse(objs[0], lines, meshes) + TraverseAll(objs[1..], lines, meshes)
  }

  function LineCount(o: SceneObj): nat
    decreases o, 1
  {
    (if o.kind == LineObj || o.kind == LineSegmentsObj then 1 else 0) + LineCountAll(o.children)
  }

  function LineCountAll(objs: seq<SceneObj>): nat
    decreases objs, 0
  {
    if |objs| == 0 then 0 else LineCount(objs[0]) + LineCountAll(objs[1..])
  }

  /** As `process` calls it: two snaps per line, the first and the last vertex,
      and none for a mesh. */
  lemma {:induction false} TwoSnapsPerLine(objs: seq<SceneObj>)
    ensures |TraverseAll(objs, true, false)| == 2 * LineCountAll(objs)
    decreases objs, 0
  {
    if |objs| > 0 {
      TwoSnapsPerLineOne(objs[0]);
      TwoSnapsPerLine(objs[1..]);
    }
  }

  lemma {:induction false} TwoSnapsPerLineOne(o: SceneObj)
    ensures |Traverse(o, true, false)| == 2 * LineCount(o)
    ensures o.kind == LineObj || o.kind == LineSegmentsObj ==>
      Traverse(o, true, false)[..2] == [Snap(o.id, VertexAt(o.positions, 0)), Snap(o.id, VertexAt(o.positions, |o.positions| - 1))]
    ensures o.kind == MeshObj || o.kind == OtherObj ==> Traverse(o, true, false) == TraverseAll(o.children, true, false)
    decreases o, 1
  {
    TwoSnapsPerLine(o.children);
  }

  // ----- size -----

  function Min(a: real, b: real): real { if a <= b then a else b }
  function Max(a: real, b: real): real { if a >= b then a else b }

  /** One step of `_getSize`: the component-wise min of the minima and max of
      the maxima; an empty box changes nothing. */
  function Union(a: Bounds, b: Bounds): (r: Bounds)
    ensures a.Empty? ==> r == b
    ensures b.Empty? ==> r == a
    ensures a.Finite? && b.Finite? ==> r.Finite?
  {
    match (a, b)
    case (Empty, _) => b
    case (_, Empty) => a
    case (Finite(l1, h1), Finite(l2, h2)) =>
      Finite(Vec3(Min(l1.x, l2.x), Min(l1.y, l2.y), Min(l1.z, l2.z)),
             Vec3(Max(h1.x, h2.x), Max(h1.y, h2.y), Max(h1.z, h2.z)))
  }

  /** Box b lies inside box a. */
  predicate Within(b: Bounds, a: Bounds)
  {
    b.Empty? || (a.Finite? &&
      a.lo.x <= b.lo.x && a.lo.y <= b.lo.y && a.lo.z <= b.lo.z &&
      b.hi.x <= a.hi.x && b.hi.y <= a.hi.y && b.hi.z <= a.hi.z)
  }

  /** `_getSize(objs)` from the current min and max. */
  function SizeOf(b: Bounds, objs: seq<SceneObj>): Bounds
    decreases |objs|
  {
    if |objs| == 0 then b else SizeOf(Union(b, objs[0].box), objs[1..])
  }

  /** The size holds the starting box and every object's box, and it is the
      smallest such box: every face is a face of one of them. */
  lemma {:induction false} SizeOfMeaning(b: Bounds, objs: seq<SceneObj>)
    ensures Within(b, SizeOf(b, objs))
    ensures forall k :: 0 <= k < |objs| ==> Within(objs[k].box, SizeOf(b, objs))
    ensures SizeOf(b, objs).Empty? <==> b.Empty? && forall k :: 0 <= k < |objs| ==> objs[k].box.Empty?
    decreases |objs|
  {
    if |objs| > 0 {
      var u := Union(b, objs[0].box);
      SizeOfMeaning(u, objs[1..]);
      assert Within(b, u) && Within(objs[0].box, u);
      WithinTrans(b, u, SizeOf(b, objs));
      WithinTrans(objs[0].box, u, SizeOf(b, objs));
      forall k | 1 <= k < |objs|
        ensures Within(objs[k].box, SizeOf(b, objs))
      {
        assert objs[k] == objs[1..][k - 1];
      }
      if SizeOf(b, objs).Empty? {
        forall k | 1 <= k < |objs|
          ensures objs[k].box.Empty?
        {
          assert objs[k] == objs[1..][k - 1];
        }
      }
      if b.Empty? && forall k :: 0 <= k < |objs| ==> objs[k].box.Empty? {
        forall k | 0 <= k < |objs[1..]|
          ensures objs[1..][k].box.Empty?
        {
          assert objs[1..][k] == objs[k + 1];
        }
      }
    }
  }

  lemma WithinTrans(a: Bounds, b: Bounds, c: Bounds)
    requires Within(a, b) && Within(b, c)
    ensures Within(a, c)
  {
  }

  // ----- voxels -----

  /** A voxel's box; NaN bounds (from an empty size) contain nothing. */
  datatype Box = Box(lo: Vec3, hi: Vec3) | NaNBox

  datatype Voxel = Voxel(name: string, box: Box, snaps: seq<Snap>, children: seq<Voxel>)

  const Cuts: nat := 5

  /** The closed-box test of `_addPointToVoxel` and `findVoxel`. */
  predicate InBox(b: Box, p: Vec3)
  {
    b.Box? && b.lo.x <= p.x <= b.hi.x && b.lo.y <= p.y <= b.hi.y && b.lo.z <= p.z <= b.hi.z
  }

  /** The lower end of cut i of [lo, hi] into count parts. */
  function CutLo(lo: real, hi: real, count: nat, i: nat): real
    requires count > 0
  {
    lo + i as real * ((hi - lo) / count as real)
  }

  /** The upper end of cut i of [lo, hi] into count parts. */
  function CutHi(lo: real, hi: real, count: nat, i: nat): real
    requires count > 0
  {
    lo + (i + 1) as real * ((hi - lo) / count as real)
  }

  /** The box of voxel (i, j, h) of a count-per-axis cut. */
  function Sub(b: Box, count: nat, i: nat, j: nat, h: nat): Box
    requires count > 0
  {
    match b
    case NaNBox => NaNBox
    case Box(lo, hi) =>
      Box(Vec3(CutLo(lo.x, hi.x, count, i), CutLo(lo.y, hi.y, count, j), CutLo(lo.z, hi.z, count, h)),
          Vec3(CutHi(lo.x, hi.x, count, i), CutHi(lo.y, hi.y, count, j), CutHi(lo.z, hi.z, count, h)))
  }

  function VoxelName(i: nat, j: nat, h: nat): string
  {
    "VOXEL_" + DecimalString(i) + "_" + DecimalString(j) + "_" + DecimalString(h)
  }

  /** `_generateVoxels(min, max, count)`: nothing at count 5, otherwise count³
      voxels in (i, j, h) order, each cut again at count + 1. */
  function Voxels(b: Box, count: nat): seq<Voxel>
    requires 1 <= count <= Cuts
    decreases Cuts - count, 4, 0
  {
    if count == Cuts then [] else VI(b, count, count)
  }

  /** The voxels of the i-loop's first n rounds. */
  function VI(b: Box, count: nat, n: nat): seq<Voxel>
    requires 1 <= count < Cuts && n <= count
    decreases Cuts - count, 3, n
  {
    if n == 0 then [] else VI(b, count, n - 1) + VJ(b, count, n - 1, count)
  }

  /** The voxels of the j-loop's first m rounds for a given i. */
  function VJ(b: Box, count: nat, i: nat, m: nat): seq<Voxel>
    requires 1 <= count < Cuts && i < count && m <= count
    decreases Cuts - count, 2, m
  {
    if m == 0 then [] else VJ(b, count, i, m - 1) + VH(b, count, i, m - 1, count)
  }

  /** The voxels of the h-loop's first m rounds for given i and j. */
  function VH(b: Box, count: nat, i: nat, j: nat, m: nat): seq<Voxel>
    requires 1 <= count < Cuts && i < count && j < count && m <= count
    decreases Cuts - count, 1, m
  {
    if m == 0 then [] else VH(b, count, i, j, m - 1) + [V(b, count, i, j, m - 1)]
  }

  function V(b: Box, count: nat, i: nat, j: nat, h: nat): (v: Voxel)
    requires 1 <= count < Cuts && i < count && j < count && h < count
    decreases Cuts - count, 0, 0
  {
    var s := Sub(b, count, i, j, h);
    Voxel(VoxelName(i, j, h), s, [], Voxels(s, count + 1))
  }

  /** Every voxel of a list holds the cut of its own box at the next count. */
  predicate CutBelow(vs: seq<Voxel>, count: nat)
    requires 1 <= count < Cuts
  {
    forall v :: v in vs ==> v.children == Voxels(v.box, count + 1)
  }

  lemma {:induction false} VHShape(b: Box, count: nat, i: nat, j: nat, m: nat)
    requires 1 <= count < Cuts && i < count && j < count && m <= count
    ensures |VH(b, count, i, j, m)| == m
    ensures forall h :: 0 <= h < m ==> V(b, count, i, j, h) in VH(b, count, i, j, m)
    ensures CutBelow(VH(b, count, i, j, m), count)
  {
    if m > 0 {
      VHShape(b, count, i, j, m - 1);
      var last := V(b, count, i, j, m - 1);
      assert VH(b, count, i, j, m) == VH(b, count, i, j, m - 1) + [last];
      assert last in VH(b, count, i, j, m);
    }
  }

  lemma {:induction false} VJShape(b: Box, count: nat, i: nat, m: nat)
    requires 1 <= count < Cuts && i < count && m <= count
    ensures |VJ(b, count, i, m)| == m * count
    ensures forall j, h :: 0 <= j < m && 0 <= h < count ==> V(b, count, i, j, h) in VJ(b, count, i, m)
    ensures CutBelow(VJ(b, count, i, m), count)
  {
    if m > 0 {
      VJShape(b, count, i, m - 1);
      VHShape(b, count, i, m - 1, count);
      assert (m - 1) * count + count == m * count;
      var left, right := VJ(b, count, i, m - 1), VH(b, count, i, m - 1, count);
      assert VJ(b, count, i, m) == left + right;
      forall j, h | 0 <= j < m && 0 <= h < count
        ensures V(b, count, i, j, h) in left + right
      {
        if j < m - 1 {
          assert V(b, count, i, j, h) in left;
        } else {
          assert V(b, count, i, j, h) in right;
        }
      }
    }
  }

  lemma {:induction false} VIShape(b: Box, count: nat, n: nat)
    requires 1 <= count < Cuts && n <= count
    ensures |VI(b, count, n)| == n * count * count
    ensures forall i, j, h :: 0 <= i < n && 0 <= j < count && 0 <= h < count ==> V(b, count, i, j, h) in VI(b, count, n)
    ensures CutBelow(VI(b, count, n), count)
  {
    if n > 0 {
      VIShape(b, count, n - 1);
      VJShape(b, count, n - 1, count);
      assert (n - 1) * count * count + count * count == n * count * count;
      var left, right := VI(b, count, n - 1), VJ(b, count, n - 1, count);
      assert VI(b, count, n) == left + right;
      forall i, j, h | 0 <= i < n && 0 <= j < count && 0 <= h < count
        ensures V(b, count, i, j, h) in left + right
      {
        if i < n - 1 {
          assert V(b, count, i, j, h) in left;
        } else {
          assert V(b, count, i, j, h) in right;
        }
      }
    }
  }

  /** count³ voxels below count 5, none at 5; every (i, j, h) is one of them,
      and each of them holds the cut of its own box at count + 1. */
  lemma VoxelsShape(b: Box, count: nat)
    requires 1 <= count <= Cuts
    ensures count == Cuts ==> Voxels(b, count) == []
    ensures count < Cuts ==> |Voxels(b, count)| == count * count * count
    ensures count < Cuts ==> forall i, j, h :: 0 <= i < count && 0 <= j < count && 0 <= h < count ==>
      V(b, count, i, j, h) in Voxels(b, count)
    ensures count < Cuts ==> CutBelow(Voxels(b, count), count)
  {
    if count < Cuts {
      VIShape(b, count, count);
    }
  }

  /** `_generateVoxels`: the triple loop, recursing for the children. */
  method GenerateVoxels(b: Box, count: nat) returns (voxels: seq<Voxel>)
    requires 1 <= count <= Cuts
    ensures voxels == Voxels(b, count)
    decreases Cuts - count, 2
  {
    if count == Cuts {
      return [];
    }
    voxels := [];
    for i := 0 to count
      invariant voxels == VI(b, count, i)
    {
      var row := CutRow(b, count, i);
      voxels := voxels + row;
    }
  }

  /** The j-loop of `_generateVoxels` for one i. */
  method CutRow(b: Box, count: nat, i: nat) returns (row: seq<Voxel>)
    requires 1 <= count < Cuts && i < count
    ensures row == VJ(b, count, i, count)
    decreases Cuts - count, 1
  {
    row := [];
    for j := 0 to count
      invariant row == VJ(b, count, i, j)
    {
      var column := CutColumn(b, count, i, j);
      row := row + column;
    }
  }

  /** The h-loop of `_generateVoxels` for one i and j. */
  method CutColumn(b: Box, count: nat, i: nat, j: nat) returns (column: seq<Voxel>)
    requires 1 <= count < Cuts && i < count && j < count
    ensures column == VH(b, count, i, j, count)
    decreases Cuts - count, 0
  {
    column := [];
    for h := 0 to count
      invariant column == VH(b, count, i, j, h)
    {
      var s := Sub(b, count, i, j, h);
      var children := GenerateVoxels(s, count + 1);
      column := column + [Voxel(VoxelName(i, j, h), s, [], children)];
    }
  }

  // ----- tiling -----

  lemma MulMono(a: real, b: real, s: real)
    requires a <= b && s >= 0.0
    ensures a * s <= b * s
  {
  }

  lemma FloorBounds(t: real)
    ensures t.Floor as real <= t < t.Floor as real + 1.0
  {
  }

  /** Scaling a bound: u = t·s with t between a and b gives u between a·s and b·s. */
  lemma ScaleBetween(u: real, t: real, s: real, a: real, b: real)
    requires u == t * s && s >= 0.0 && a <= t <= b
    ensures a * s <= u <= b * s
  {
    MulMono(a, t, s);
    MulMono(t, b, s);
  }

  /** Along one axis the count cuts of [0, w] cover it. */
  lemma CoverUnit(w: real, count: nat, u: real) returns (i: nat)
    requires count > 0 && 0.0 <= u <= w
    ensures i < count
    ensures i as real * (w / count as real) <= u <= (i + 1) as real * (w / count as real)
  {
    var s := w / count as real;
    assert s * count as real == w;
    if s == 0.0 {
      i := 0;
      assert u == 0.0;
      assert (i + 1) as real * s == 0.0 && i as real * s == 0.0;
    } else {
      var t := u / s;
      assert t * s == u;
      FloorBounds(t);
      var f := t.Floor;
      if f >= count {
        i := count - 1;
        MulMono(count as real, t, s);
        assert u == w;
        ScaleBetween(u, count as real, s, i as real, (i + 1) as real);
      } else {
        assert f >= 0;
        i := f;
        ScaleBetween(u, t, s, i as real, (i + 1) as real);
      }
    }
  }

  /** Along one axis the count cuts of [lo, hi] cover it. */
  lemma Cover1D(lo: real, hi: real, count: nat, x: real) returns (i: nat)
    requires count > 0 && lo <= x <= hi
    ensures i < count
    ensures CutLo(lo, hi, count, i) <= x <= CutHi(lo, hi, count, i)
  {
    i := CoverUnit(hi - lo, count, x - lo);
  }

  /** The children of a well-formed box tile it: every point of the box lies
      in the box of some (i, j, h). */
  lemma CutsCover(b: Box, count: nat, p: Vec3) returns (i: nat, j: nat, h: nat)
    requires count > 0 && InBox(b, p)
    ensures i < count && j < count && h < count && InBox(Sub(b, count, i, j, h), p)
  {
    i := Cover1D(b.lo.x, b.hi.x, count, p.x);
    j := Cover1D(b.lo.y, b.hi.y, count, p.y);
    h := Cover1D(b.lo.z, b.hi.z, count, p.z);
  }

  /** Each child box lies inside its parent box. */
  lemma CutsInside(b: Box, count: nat, i: nat, j: nat, h: nat)
    requires count > 0 && i < count && j < count && h < count
    requires b.Box? && b.lo.x <= b.hi.x && b.lo.y <= b.hi.y && b.lo.z <= b.hi.z
    ensures var s := Sub(b, count, i, j, h);
      && b.lo.x <= s.lo.x <= s.hi.x <= b.hi.x
      && b.lo.y <= s.lo.y <= s.hi.y <= b.hi.y
      && b.lo.z <= s.lo.z <= s.hi.z <= b.hi.z
  {
    var s := Sub(b, count, i, j, h);
    Inside1D(b.lo.x, b.hi.x, count, i);
    Inside1D(b.lo.y, b.hi.y, count, j);
    Inside1D(b.lo.z, b.hi.z, count, h);
  }

  lemma Inside1D(lo: real, hi: real, count: nat, i: nat)
    requires count > 0 && i < count && lo <= hi
    ensures lo <= CutLo(lo, hi, count, i) <= CutHi(lo, hi, count, i) <= hi
  {
    var s := (hi - lo) / count as real;
    assert s * count as real == hi - lo;
    assert s >= 0.0;
    ScaleBetween(i as real * s, i as real, s, 0.0, (i + 1) as real);
    ScaleBetween((i + 1) as real * s, (i + 1) as real, s, (i + 1) as real, count as real);
  }

  // ----- adding points -----

  /** The first voxel of the list whose closed box contains the point. */
  function FirstContaining(vs: seq<Voxel>, p: Vec3): (r: Option<nat>)
    ensures r.Some? ==> r.value < |vs| && InBox(vs[r.value].box, p)
    ensures r.Some? ==> forall k :: 0 <= k < r.value ==> !InBox(vs[k].box, p)
    ensures r.None? ==> forall k :: 0 <= k < |vs| ==> !InBox(vs[k].box, p)
  {
    if |vs| == 0 then None
    else if InBox(vs[0].box, p) then Some(0)
    else
      match FirstContaining(vs[1..], p)
      case None => None
      case Some(k) => Some(k + 1)
  }

  /** `_addPointToVoxel(snap, voxels)`: into the first containing voxel, down to
      a leaf; a NaN point, or one outside every box, is dropped. */
  function AddPoint(s: Snap, vs: seq<Voxel>): seq<Voxel>
    decreases vs
  {
    if s.point.None? then vs
    else
      match FirstContaining(vs, s.point.value)
      case None => vs
      case Some(k) =>
        var v := vs[k];
        vs[k := if |v.children| == 0 then v.(snaps := v.snaps + [s]) else v.(children := AddPoint(s, v.children))]
  }

  /** Whether the descent of `_addPointToVoxel` reaches a leaf. */
  predicate Stores(p: Vec3, vs: seq<Voxel>)
    decreases vs
  {
    match FirstContaining(vs, p)
    case None => false
    case Some(k) => |vs[k].children| == 0 || Stores(p, vs[k].children)
  }

  /** The voxels without their snaps. */
  datatype Frame = Frame(name: string, box: Box, children: seq<Frame>)

  function FrameOf(v: Voxel): Frame
    decreases v, 1
  {
    Frame(v.name, v.box, FramesOf(v.children))
  }

  function FramesOf(vs: seq<Voxel>): (r: seq<Frame>)
    ensures |r| == |vs|
    decreases vs, 0
  {
    if |vs| == 0 then [] else [FrameOf(vs[0])] + FramesOf(vs[1..])
  }

  function SnapCount(v: Voxel): nat
    decreases v, 1
  {
    |v.snaps| + SnapCountAll(v.children)
  }

  function SnapCountAll(vs: seq<Voxel>): nat
    decreases vs, 0
  {
    if |vs| == 0 then 0 else SnapCount(vs[0]) + SnapCountAll(vs[1..])
  }

  lemma {:induction false} FramesOfAt(vs: seq<Voxel>, k: nat)
    requires k < |vs|
    ensures FramesOf(vs)[k] == FrameOf(vs[k])
  {
    if k > 0 {
      FramesOfAt(vs[1..], k - 1);
    }
  }

  lemma {:induction false} FramesEqual(a: seq<Voxel>, b: seq<Voxel>)
    requires |a| == |b| && forall k :: 0 <= k < |a| ==> FrameOf(a[k]) == FrameOf(b[k])
    ensures FramesOf(a) == FramesOf(b)
  {
    if |a| > 0 {
      FramesEqual(a[1..], b[1..]);
    }
  }

  lemma {:induction false} SnapCountUpdate(vs: seq<Voxel>, k: nat, v: Voxel)
    requires k < |vs|
    ensures SnapCountAll(vs[k := v]) == SnapCountAll(vs) - SnapCount(vs[k]) + SnapCount(v)
  {
    if k > 0 {
      assert vs[k := v][1..] == vs[1..][k - 1 := v];
      SnapCountUpdate(vs[1..], k - 1, v);
    }
  }

  /** Adding a point keeps every box and name, and stores it in at most one
      leaf: exactly one when the descent reaches a leaf, none otherwise. */
  lemma {:induction false} AddPointMeaning(s: Snap, vs: seq<Voxel>)
    ensures FramesOf(AddPoint(s, vs)) == FramesOf(vs)
    ensures SnapCountAll(AddPoint(s, vs)) == SnapCountAll(vs) + (if s.point.Some? && Stores(s.point.value, vs) then 1 else 0)
    decreases vs
  {
    if s.point.Some? {
      var p := s.point.value;
      match FirstContaining(vs, p)
      case None =>
      case Some(k) =>
        var v := vs[k];
        var v' := if |v.children| == 0 then v.(snaps := v.snaps + [s]) else v.(children := AddPoint(s, v.children));
        if |v.children| > 0 {
          AddPointMeaning(s, v.children);
        }
        assert FrameOf(v') == FrameOf(v);
        var r := vs[k := v'];
        forall q | 0 <= q < |vs|
          ensures FrameOf(r[q]) == FrameOf(vs[q])
        {
        }
        FramesEqual(r, vs);
        SnapCountUpdate(vs, k, v');
    }
  }

  /** Adding one point does not change where another one goes. */
  lemma {:induction false} AddPointKeepsRoutes(s: Snap, vs: seq<Voxel>, q: Vec3)
    ensures Stores(q, AddPoint(s, vs)) == Stores(q, vs)
    ensures FirstContaining(AddPoint(s, vs), q) == FirstContaining(vs, q)
    decreases vs
  {
    var r := AddPoint(s, vs);
    assert |r| == |vs| && forall k :: 0 <= k < |vs| ==> r[k].box == vs[k].box && |r[k].children| == |vs[k].children| by {
      if s.point.Some? {
        match FirstContaining(vs, s.point.value)
        case None =>
        case Some(k) =>
          if |vs[k].children| > 0 {
            AddPointMeaning(s, vs[k].children);
          }
      }
    }
    SameBoxesSameFirst(r, vs, q);
    match FirstContaining(vs, q)
    case None =>
    case Some(k) =>
      if |vs[k].children| > 0 && s.point.Some? && FirstContaining(vs, s.point.value) == Some(k) {
        AddPointKeepsRoutes(s, vs[k].children, q);
      }
  }

  lemma {:induction false} SameBoxesSameFirst(a: seq<Voxel>, b: seq<Voxel>, q: Vec3)
    requires |a| == |b| && forall k :: 0 <= k < |a| ==> a[k].box == b[k].box
    ensures FirstContaining(a, q) == FirstContaining(b, q)
  {
    if |a| > 0 {
      SameBoxesSameFirst(a[1..], b[1..], q);
    }
  }

  /** `this.snaps.forEach(point => this._addPointToVoxel(point, voxels))`. */
  function AddAll(ss: seq<Snap>, vs: seq<Voxel>): seq<Voxel>
  {
    if |ss| == 0 then vs else AddAll(ss[1..], AddPoint(ss[0], vs))
  }

  /** A point of a box reaches a leaf of a fresh cut of that box: the cuts
      cover the box, and the first voxel holding the point is cut again. */
  lemma {:induction false} InsideIsStored(b: Box, count: nat, p: Vec3)
    requires 1 <= count < Cuts && InBox(b, p)
    ensures Stores(p, Voxels(b, count))
    decreases Cuts - count
  {
    var vs := Voxels(b, count);
    VoxelsShape(b, count);
    var i, j, h := CutsCover(b, count, p);
    var w := V(b, count, i, j, h);
    assert w in vs;
    var k :| 0 <= k < |vs| && vs[k] == w;
    assert InBox(vs[k].box, p);
    var f := FirstContaining(vs, p);
    assert f.Some?;
    var v := vs[f.value];
    assert v in vs;
    assert v.children == Voxels(v.box, count + 1);
    if count + 1 < Cuts {
      InsideIsStored(v.box, count + 1, p);
    } else {
      assert v.children == [];
    }
  }

  // ----- finding -----

  const Scale6: real := 1000000.0

  /** `Number(x.toFixed(6))`: rounded to six decimals, halves away from zero;
      from 1e21 on `toFixed` prints the number itself. */
  function Round6(x: real): real
  {
    if x >= 1000000000000000000000.0 || x <= -1000000000000000000000.0 then x
    else if x >= 0.0 then (x * Scale6 + 0.5).Floor as real / Scale6
    else -((-x * Scale6 + 0.5).Floor as real / Scale6)
  }

  /** Rounding twice is rounding once. */
  lemma Round6Idempotent(x: real)
    ensures Round6(Round6(x)) == Round6(x)
  {
    var r := Round6(x);
    if -1000000000000000000000.0 < x < 1000000000000000000000.0 && -1000000000000000000000.0 < r < 1000000000000000000000.0 {
      if x >= 0.0 {
        var n := (x * Scale6 + 0.5).Floor;
        assert n >= 0;
        assert r * Scale6 == n as real;
        assert (r * Scale6 + 0.5).Floor == n;
      } else {
        var n := (-x * Scale6 + 0.5).Floor;
        assert r * Scale6 == -(n as real);
        if n == 0 {
          assert r == 0.0;
        } else {
          assert n > 0;
          assert -r * Scale6 == n as real;
          assert (-r * Scale6 + 0.5).Floor == n;
        }
      }
    }
  }

  function Rounded(p: Vec3): Vec3
  {
    Vec3(Round6(p.x), Round6(p.y), Round6(p.z))
  }

  /** `findVoxel(point, voxels)`: the first voxel containing the rounded point;
      a voxel with children is searched and its siblings are not. */
  function FindVoxelIn(p: Vec3, vs: seq<Voxel>): (r: Option<Voxel>)
    ensures r.Some? ==> |r.value.children| == 0 && InBox(r.value.box, Rounded(p))
    decreases vs
  {
    match FirstContaining(vs, Rounded(p))
    case None => None
    case Some(k) => if |vs[k].children| > 0 then FindVoxelIn(p, vs[k].children) else Some(vs[k])
  }

  /** A point with at most six decimals, once added, is found in the leaf it
      was added to, together with what that leaf held before. */
  lemma {:induction false} AddThenFind(s: Snap, vs: seq<Voxel>)
    requires s.point.Some? && Rounded(s.point.value) == s.point.value
    ensures var found := FindVoxelIn(s.point.value, AddPoint(s, vs));
      && (found.Some? <==> Stores(s.point.value, vs))
      && (found.Some? ==> FindVoxelIn(s.point.value, vs).Some? &&
                          found.value.snaps == FindVoxelIn(s.point.value, vs).value.snaps + [s])
    decreases vs
  {
    var p := s.point.value;
    AddPointKeepsRoutes(s, vs, p);
    match FirstContaining(vs, p)
    case None =>
    case Some(k) =>
      if |vs[k].children| > 0 {
        AddThenFind(s, vs[k].children);
      }
  }

  /** The voxel every `process` rebuilds: the single voxel of the count-1 cut. */
  function RootVoxel(b: Bounds): (v: Voxel)
  {
    var box := if b.Finite? then Box(b.lo, b.hi) else NaNBox;
    VoxelsShape(box, 1);
    Voxels(box, 1)[0]
  }

  /** The snap index: `snaps`, the `min`/`max` pair as one box (`None` once
      cleared) and the root `voxel`. */
  class Snaps {
    var snaps: seq<Snap>
    var size: Option<Bounds>
    var voxel: Option<Voxel>

    constructor()
      ensures snaps == [] && size == Some(Empty) && voxel == None
    {
      snaps := [];
      size := Some(Empty);
      voxel := None;
    }

    /** `process(objs)`: the lines' snaps are appended, the size grows to the
        objects' boxes, the voxel tree is rebuilt and every snap collected so
        far is added to it. After `clear` the null min throws once the snaps
        are collected. */
    method Process(objs: seq<SceneObj>) returns (r: Result<()>)
      modifies this
      ensures snaps == old(snaps) + TraverseAll(objs, true, false)
      ensures old(size).None? ==> r.Err? && size == old(size) && voxel == old(voxel)
      ensures old(size).Some? ==> r.Ok? && size == Some(SizeOf(old(size).value, objs))
      ensures old(size).Some? ==>
        var root := RootVoxel(size.value);
        voxel == Some(root.(children := AddAll(snaps, root.children)))
    {
      snaps := snaps + TraverseAll(objs, true, false);
      if size.None? {
        return Err("TypeError");
      }
      var b := size.value;
      for k := 0 to |objs|
        invariant SizeOf(b, objs[k..]) == SizeOf(size.value, objs)
      {
        assert objs[k..][0] == objs[k] && objs[k..][1..] == objs[k + 1..];
        b := Union(b, objs[k].box);
      }
      assert objs[|objs|..] == [];
      size := Some(b);
      var box := if b.Finite? then Box(b.lo, b.hi) else NaNBox;
      var top := GenerateVoxels(box, 1);
      VoxelsShape(box, 1);
      var root := top[0];
      var children := root.children;
      for k := 0 to |snaps|
        invariant AddAll(snaps[k..], children) == AddAll(snaps, root.children)
      {
        assert snaps[k..][0] == snaps[k] && snaps[k..][1..] == snaps[k + 1..];
        children := AddPoint(snaps[k], children);
      }
      assert snaps[|snaps|..] == [];
      voxel := Some(root.(children := children));
      return Ok(());
    }

    /** `findVoxel(point)`: a leaf containing the rounded point, or null; before
        any `process` the null voxel throws. */
    method FindVoxel(p: Vec3) returns (r: Result<Option<Voxel>>)
      ensures voxel.None? ==> r.Err?
      ensures voxel.Some? ==> r == Ok(FindVoxelIn(p, voxel.value.children))
    {
      if voxel.None? {
        return Err("TypeError");
      }
      var vs := voxel.value.children;
      while true
        invariant FindVoxelIn(p, vs) == FindVoxelIn(p, voxel.value.children)
        decreases vs
      {
        var q := Rounded(p);
        var found := None;
        for i := 0 to |vs|
          invariant found.None? ==> forall k :: 0 <= k < i ==> !InBox(vs[k].box, q)
          invariant found.Some? ==> found == FirstContaining(vs, q)
        {
          if found.None? && InBox(vs[i].box, q) {
            found := Some(i);
            assert found == FirstContaining(vs, q);
          }
        }
        if found.None? {
          return Ok(None);
        }
        var v := vs[found.value];
        if |v.children| == 0 {
          return Ok(Some(v));
        }
        vs := v.children;
      }
    }

    /** `clear()`. */
    method Clear()
      modifies this
      ensures snaps == [] && size == None && voxel == None
    {
      snaps := [];
      size := None;
      voxel := None;
    }
  }
}
