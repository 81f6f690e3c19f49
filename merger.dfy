/** The batch merger of src/utils/merger.js: every Mesh, LineSegments and Line of
    a scene (or only those whose uuid is listed) is detached from the tree and
    its geometry is collected into per-material groups, one list for meshes and
    one for lines; the groups become one merged mesh and one merged line, and
    groups left empty are pruned. Scene nodes are values: a detachment is the
    parent's child list losing that child. Materials are compared by identity,
    which is a number here. Geometry merging, world matrices and normals
    computation belong to three.js and are recorded, not computed. */
module Merger {
  import opened Js

  datatype Kind = Mesh | LineSegments | Line | Group | Other

  /** A uv attribute: `itemSize` numbers per vertex. */
  datatype UvAttr = UvAttr(itemSize: nat, data: seq<real>)

  /** The node's own data: uuid, kind, material identity, user data (an opaque
      token), vertex count of its non-indexed geometry, whether it has normals,
      and its uv attribute. */
  datatype Item = Item(uuid: string, kind: Kind, material: nat, userData: nat, count: nat,
                       hasNormal: bool, uv: Option<UvAttr>)

  datatype Node = Node(item: Item, children: seq<Node>)

  /** A geometry as collected: a mesh records whether normals were computed and
      its fixed uv; a line its segment index. */
  datatype Geom =
    | MeshGeom(uuid: string, count: nat, normalsComputed: bool, uv: UvAttr)
    | LineGeom(uuid: string, count: nat, index: seq<nat>)

  datatype MatGroup = MatGroup(material: nat, geometries: seq<Geom>)

  /** `{ uuid: child.uuid, userData: child.userData }`. */
  datatype Record = Record(uuid: string, userData: nat)

  /** The callback's condition: a mesh or line, and listed when a list is given. */
  predicate Mergeable(it: Item, uuids: seq<string>)
  {
    (it.kind == Mesh || it.kind == LineSegments || it.kind == Line) && (|uuids| == 0 || it.uuid in uuids)
  }

  // ----- traversal -----

  /** The order in which `_removableTraverse` calls its callback: children from
      last to first, each subtree before its root, the root last. */
  function Order(n: Node): seq<Item>
    decreases n, 1
  {
    OrderRev(n.children) + [n.item]
  }

  /** The visits of a child list walked from its last element to its first. */
  function OrderRev(cs: seq<Node>): seq<Item>
    decreases cs, 0
  {
    if |cs| == 0 then [] else OrderRev(cs[1..]) + Order(cs[0])
  }

  /** The tree left behind: every mergeable node below the root is detached
      together with what is still under it. */
  function Pruned(n: Node, uuids: seq<string>): Node
    decreases n, 1
  {
    Node(n.item, Kept(n.children, uuids))
  }

  function Kept(cs: seq<Node>, uuids: seq<string>): seq<Node>
    decreases cs, 0
  {
    if |cs| == 0 then []
    else (if Mergeable(cs[0].item, uuids) then [] else [Pruned(cs[0], uuids)]) + Kept(cs[1..], uuids)
  }

  /** No node strictly below the root is mergeable. */
  predicate NoMergeableBelow(n: Node, uuids: seq<string>)
    decreases n
  {
    forall i :: 0 <= i < |n.children| ==>
      !Mergeable(n.children[i].item, uuids) && NoMergeableBelow(n.children[i], uuids)
  }

  lemma {:induction false} KeptMeaning(cs: seq<Node>, uuids: seq<string>)
    ensures forall c :: c in Kept(cs, uuids) ==> !Mergeable(c.item, uuids) && NoMergeableBelow(c, uuids)
    decreases cs, 0
  {
    if |cs| > 0 {
      KeptMeaning(cs[1..], uuids);
      if !Mergeable(cs[0].item, uuids) {
        PrunedMeaning(cs[0], uuids);
      }
    }
  }

  /** After the traversal nothing mergeable is left under the root. */
  lemma {:induction false} PrunedMeaning(n: Node, uuids: seq<string>)
    ensures NoMergeableBelow(Pruned(n, uuids), uuids)
    decreases n, 1
  {
    KeptMeaning(n.children, uuids);
    var p := Pruned(n, uuids);
    forall i | 0 <= i < |p.children|
      ensures !Mergeable(p.children[i].item, uuids) && NoMergeableBelow(p.children[i], uuids)
    {
      assert p.children[i] in Kept(n.children, uuids);
    }
  }

  /** Walking the list from the end means a detached child only shifts siblings
      already visited: every node of the tree is visited exactly once. */
  function Size(n: Node): nat
    decreases n, 1
  {
    1 + SizeAll(n.children)
  }

  function SizeAll(cs: seq<Node>): nat
    decreases cs, 0
  {
    if |cs| == 0 then 0 else Size(cs[0]) + SizeAll(cs[1..])
  }

  lemma {:induction false} OrderVisitsAll(n: Node)
    ensures |Order(n)| == Size(n)
    decreases n, 1
  {
    OrderRevVisitsAll(n.children);
  }

  lemma {:induction false} OrderRevVisitsAll(cs: seq<Node>)
    ensures |OrderRev(cs)| == SizeAll(cs)
    decreases cs, 0
  {
    if |cs| > 0 {
      OrderRevVisitsAll(cs[1..]);
      OrderVisitsAll(cs[0]);
    }
  }

  // ----- geometry fixes -----

  function Zeros(n: nat): (r: seq<real>)
    ensures |r| == n && forall k :: 0 <= k < n ==> r[k] == 0.0
  {
    seq(n, k => 0.0)
  }

  /** `attribute.count`. */
  function UvCount(u: UvAttr): nat
    requires u.itemSize > 0
  {
    |u.data| / u.itemSize
  }

  lemma SlotInRange(i: nat, n: nat, size: nat, len: nat)
    requires size > 2 && i < n && n == len / size
    ensures i * size + 1 < len
  {
    assert i * size + size <= n * size by {
      assert (i + 1) * size <= n * size;
    }
    assert n * size <= len;
  }

  /** The x and y of the first n vertices of a uv with more than two numbers
      per vertex. */
  function XYPrefix(u: UvAttr, n: nat): seq<real>
    requires u.itemSize > 2 && n <= UvCount(u)
  {
    if n == 0 then []
    else
      SlotInRange(n - 1, UvCount(u), u.itemSize, |u.data|);
      XYPrefix(u, n - 1) + [u.data[(n - 1) * u.itemSize], u.data[(n - 1) * u.itemSize + 1]]
  }

  lemma {:induction false} XYPrefixMeaning(u: UvAttr, n: nat)
    requires u.itemSize > 2 && n <= UvCount(u)
    ensures var r := XYPrefix(u, n);
      && |r| == 2 * n
      && forall i :: 0 <= i < n ==>
        i * u.itemSize + 1 < |u.data| && r[2 * i] == u.data[i * u.itemSize] && r[2 * i + 1] == u.data[i * u.itemSize + 1]
  {
    if n > 0 {
      XYPrefixMeaning(u, n - 1);
      SlotInRange(n - 1, UvCount(u), u.itemSize, |u.data|);
    }
  }

  /** The x and y of every vertex of a uv with more than two numbers per vertex. */
  function XY(u: UvAttr): (r: seq<real>)
    requires u.itemSize > 2
    ensures |r| == 2 * UvCount(u)
    ensures forall i :: 0 <= i < UvCount(u) ==>
      i * u.itemSize + 1 < |u.data| && r[2 * i] == u.data[i * u.itemSize] && r[2 * i + 1] == u.data[i * u.itemSize + 1]
  {
    XYPrefixMeaning(u, UvCount(u));
    XYPrefix(u, UvCount(u))
  }

  /** The uv a mesh ends with: a zero uv of two numbers per vertex when it has
      none, the x and y per vertex when it has more than two, otherwise its own. */
  function FixedUv(uv: Option<UvAttr>, count: nat): (r: UvAttr)
    ensures uv.None? ==> r == UvAttr(2, Zeros(2 * count))
    ensures uv.Some? && uv.value.itemSize > 2 ==> r == UvAttr(2, XY(uv.value))
    ensures uv.Some? && uv.value.itemSize <= 2 ==> r == uv.value
  {
    if uv.None? then UvAttr(2, Zeros(2 * count))
    else if uv.value.itemSize > 2 then UvAttr(2, XY(uv.value))
    else uv.value
  }

  /** The uv fix: a zero-filled buffer when there is none, the x and y of each
      vertex when there are more than two numbers per vertex. */
  method FixUv(uv: Option<UvAttr>, count: nat) returns (r: UvAttr)
    ensures r == FixedUv(uv, count)
  {
    if uv.None? {
      var zero := new real[2 * count](k => 0.0);
      assert zero[..] == Zeros(2 * count);
      return UvAttr(2, zero[..]);
    }
    if uv.value.itemSize <= 2 {
      return uv.value;
    }
    var xy := CopyXY(uv.value);
    return UvAttr(2, xy);
  }

  /** The copy loop of the uv fix. */
  method CopyXY(u: UvAttr) returns (xy: seq<real>)
    requires u.itemSize > 2
    ensures xy == XY(u)
  {
    var n := |u.data| / u.itemSize;
    xy := [];
    for i := 0 to n
      invariant xy == XYPrefix(u, i)
    {
      SlotInRange(i, n, u.itemSize, |u.data|);
      xy := xy + [u.data[i * u.itemSize], u.data[i * u.itemSize + 1]];
    }
  }

  /** `_indexLineGeometry`: the pairs (i - 1, i) for i = 1 .. count - 1, stored
      in a Uint16Array, so every index is taken modulo 65536. */
  function LinePairs(count: nat): (r: seq<nat>)
    ensures |r| == if count == 0 then 0 else 2 * (count - 1)
    ensures forall k :: 0 <= k < |r| && k % 2 == 0 ==>
      r[k] == (k / 2) % 0x1_0000 && r[k + 1] == (k / 2 + 1) % 0x1_0000
  {
    if count == 0 then [] else seq(2 * (count - 1), k => (k / 2 + k % 2) % 0x1_0000)
  }

  /** Below 65537 vertices no index wraps: the segments join each vertex to the
      next, and every index names a vertex. */
  lemma LinePairsChain(count: nat)
    requires count <= 0x1_0000
    ensures var r := LinePairs(count);
      && (forall k :: 0 <= k < |r| ==> r[k] < count)
      && (forall k :: 0 <= k < |r| && k % 2 == 0 ==> r[k + 1] == r[k] + 1)
  {
    var r := LinePairs(count);
    forall k | 0 <= k < |r|
      ensures r[k] < count
      ensures k % 2 == 0 ==> r[k + 1] == r[k] + 1
    {
      var j := k / 2;
      assert j + 1 < count;
      if k % 2 == 0 {
        assert r[k] == j % 0x1_0000 && r[k + 1] == (j + 1) % 0x1_0000;
        SmallMod(j);
        SmallMod(j + 1);
      } else {
        assert (k - 1) / 2 == j && (k - 1) % 2 == 0;
        assert r[k] == (j + 1) % 0x1_0000;
        SmallMod(j + 1);
      }
    }
  }

  lemma SmallMod(x: nat)
    requires x < 0x1_0000
    ensures x % 0x1_0000 == x
  {
  }

  method IndexLineGeometry(count: nat) returns (index: seq<nat>)
    ensures index == LinePairs(count)
  {
    var pushed: seq<nat> := [];
    for i := 0 to count
      invariant |pushed| == if i == 0 then 0 else 2 * (i - 1)
      invariant forall k :: 0 <= k < |pushed| ==> pushed[k] == k / 2 + k % 2
    {
      if i > 0 {
        pushed := pushed + [i - 1, i];
      }
    }
    index := seq(|pushed|, k requires 0 <= k < |pushed| => pushed[k] % 0x1_0000);
  }

  // ----- grouping -----

  /** `_findGroup`: the first group holding the same material. */
  function FindGroupSpec(groups: seq<MatGroup>, material: nat): (r: Option<nat>)
    ensures r.Some? ==> r.value < |groups| && groups[r.value].material == material
    ensures r.Some? ==> forall j :: 0 <= j < r.value ==> groups[j].material != material
    ensures r.None? ==> forall j :: 0 <= j < |groups| ==> groups[j].material != material
  {
    if |groups| == 0 then None
    else if groups[0].material == material then Some(0)
    else
      match FindGroupSpec(groups[1..], material)
      case None => None
      case Some(i) => Some(i + 1)
  }

  method FindGroup(groups: seq<MatGroup>, material: nat) returns (r: Option<nat>)
    ensures r == FindGroupSpec(groups, material)
  {
    for i := 0 to |groups|
      invariant forall j :: 0 <= j < i ==> groups[j].material != material
    {
      if groups[i].material == material {
        return Some(i);
      }
    }
    return None;
  }

  /** The geometry joins the group of its material, or a new group at the end. */
  function AddToGroups(groups: seq<MatGroup>, material: nat, g: Geom): (r: seq<MatGroup>)
  {
    match FindGroupSpec(groups, material)
    case None => groups + [MatGroup(material, [g])]
    case Some(i) => groups[i := MatGroup(material, groups[i].geometries + [g])]
  }

  predicate DistinctMaterials(groups: seq<MatGroup>)
  {
    forall i, j :: 0 <= i < j < |groups| ==> groups[i].material != groups[j].material
  }

  function GeomCount(groups: seq<MatGroup>): nat
  {
    if |groups| == 0 then 0 else |groups[0].geometries| + GeomCount(groups[1..])
  }

  lemma {:induction false} GeomCountAppend(a: seq<MatGroup>, b: seq<MatGroup>)
    ensures GeomCount(a + b) == GeomCount(a) + GeomCount(b)
  {
    if |a| > 0 {
      assert (a + b)[0] == a[0] && (a + b)[1..] == a[1..] + b;
      GeomCountAppend(a[1..], b);
    } else {
      assert a + b == b;
    }
  }

  lemma {:induction false} GeomCountUpdate(groups: seq<MatGroup>, i: nat, m: MatGroup)
    requires i < |groups|
    ensures GeomCount(groups[i := m]) == GeomCount(groups) - |groups[i].geometries| + |m.geometries|
  {
    if i > 0 {
      assert groups[i := m][1..] == groups[1..][i - 1 := m];
      GeomCountUpdate(groups[1..], i - 1, m);
    }
  }

  /** Adding keeps materials distinct, keeps first-seen order, puts the geometry
      into the one group of its material and adds exactly one geometry. */
  lemma AddToGroupsMeaning(groups: seq<MatGroup>, material: nat, g: Geom)
    requires DistinctMaterials(groups)
    ensures var r := AddToGroups(groups, material, g);
      && DistinctMaterials(r)
      && |r| >= |groups|
      && (forall j :: 0 <= j < |groups| ==> r[j].material == groups[j].material)
      && (exists j :: 0 <= j < |r| && r[j].material == material && g in r[j].geometries)
      && GeomCount(r) == GeomCount(groups) + 1
  {
    var r := AddToGroups(groups, material, g);
    match FindGroupSpec(groups, material)
    case None =>
      GeomCountAppend(groups, [MatGroup(material, [g])]);
      assert GeomCount([MatGroup(material, [g])]) == 1;
      assert r[|groups|].material == material && g in r[|groups|].geometries;
    case Some(i) =>
      GeomCountUpdate(groups, i, MatGroup(material, groups[i].geometries + [g]));
      assert r[i].material == material && g in r[i].geometries;
  }

  // ----- the callback's state -----

  /** The lists the callback fills: the mesh and line groups, the mesh and line
      user-data records, and the uuids of nodes whose own geometry object was
      changed or replaced. */
  datatype BatchState = BatchState(meshGroups: seq<MatGroup>, lineGroups: seq<MatGroup>,
                                   meshData: seq<Record>, lineData: seq<Record>, touched: seq<string>)

  const EmptyState := BatchState([], [], [], [], [])

  function MeshGeomOf(it: Item): Geom
  {
    MeshGeom(it.uuid, it.count, !it.hasNormal, FixedUv(it.uv, it.count))
  }

  function LineGeomOf(it: Item): Geom
  {
    LineGeom(it.uuid, it.count, LinePairs(it.count))
  }

  /** One call of the callback. A mesh's own geometry is changed only when it is
      not cloned; a line's is always rewritten (line distances, and a
      non-indexed copy replacing an indexed one), whatever `clone` says. */
  function Step(s: BatchState, it: Item, uuids: seq<string>, clone: bool): BatchState
  {
    if !Mergeable(it, uuids) then s
    else if it.kind == Mesh then
      s.(meshGroups := AddToGroups(s.meshGroups, it.material, MeshGeomOf(it)),
         meshData := s.meshData + [Record(it.uuid, it.userData)],
         touched := if clone then s.touched else s.touched + [it.uuid])
    else
      s.(lineGroups := AddToGroups(s.lineGroups, it.material, LineGeomOf(it)),
         lineData := s.lineData + [Record(it.uuid, it.userData)],
         touched := s.touched + [it.uuid])
  }

  function Fold(s: BatchState, items: seq<Item>, uuids: seq<string>, clone: bool): BatchState
    decreases |items|
  {
    if |items| == 0 then s else Fold(Step(s, items[0], uuids, clone), items[1..], uuids, clone)
  }

  lemma {:induction false} FoldAppend(s: BatchState, a: seq<Item>, b: seq<Item>, uuids: seq<string>, clone: bool)
    ensures Fold(s, a + b, uuids, clone) == Fold(Fold(s, a, uuids, clone), b, uuids, clone)
    decreases |a|
  {
    if |a| > 0 {
      assert (a + b)[0] == a[0] && (a + b)[1..] == a[1..] + b;
      FoldAppend(Step(s, a[0], uuids, clone), a[1..], b, uuids, clone);
    } else {
      assert a + b == b;
    }
  }

  /** The records of the merged items of one family, in visiting order. */
  function RecordsOf(items: seq<Item>, uuids: seq<string>, meshes: bool): seq<Record>
  {
    if |items| == 0 then []
    else
      (if Mergeable(items[0], uuids) && (items[0].kind == Mesh) == meshes
       then [Record(items[0].uuid, items[0].userData)] else [])
      + RecordsOf(items[1..], uuids, meshes)
  }

  /** The uuids whose own geometry changes: with `clone` only the lines'. */
  function TouchedOf(items: seq<Item>, uuids: seq<string>, clone: bool): seq<string>
  {
    if |items| == 0 then []
    else
      (if Mergeable(items[0], uuids) && (items[0].kind != Mesh || !clone) then [items[0].uuid] else [])
      + TouchedOf(items[1..], uuids, clone)
  }

  /** Every merged node adds exactly one record to its family's list, in
      visiting order, and one geometry to its family's groups, whose materials
      stay distinct. */
  lemma FoldMeaning(s: BatchState, items: seq<Item>, uuids: seq<string>, clone: bool)
    requires DistinctMaterials(s.meshGroups) && DistinctMaterials(s.lineGroups)
    ensures var f := Fold(s, items, uuids, clone);
      && DistinctMaterials(f.meshGroups) && DistinctMaterials(f.lineGroups)
      && f.meshData == s.meshData + RecordsOf(items, uuids, true)
      && f.lineData == s.lineData + RecordsOf(items, uuids, false)
      && f.touched == s.touched + TouchedOf(items, uuids, clone)
      && GeomCount(f.meshGroups) == GeomCount(s.meshGroups) + |RecordsOf(items, uuids, true)|
      && GeomCount(f.lineGroups) == GeomCount(s.lineGroups) + |RecordsOf(items, uuids, false)|
  {
    FoldGroups(s, items, uuids, clone);
    FoldLists(s, items, uuids, clone);
  }

  lemma {:induction false} FoldGroups(s: BatchState, items: seq<Item>, uuids: seq<string>, clone: bool)
    requires DistinctMaterials(s.meshGroups) && DistinctMaterials(s.lineGroups)
    ensures var f := Fold(s, items, uuids, clone);
      && DistinctMaterials(f.meshGroups) && DistinctMaterials(f.lineGroups)
      && GeomCount(f.meshGroups) == GeomCount(s.meshGroups) + |RecordsOf(items, uuids, true)|
      && GeomCount(f.lineGroups) == GeomCount(s.lineGroups) + |RecordsOf(items, uuids, false)|
    decreases |items|
  {
    if |items| > 0 {
      var it := items[0];
      var s' := Step(s, it, uuids, clone);
      if Mergeable(it, uuids) {
        if it.kind == Mesh {
          AddToGroupsMeaning(s.meshGroups, it.material, MeshGeomOf(it));
        } else {
          AddToGroupsMeaning(s.lineGroups, it.material, LineGeomOf(it));
        }
      }
      FoldGroups(s', items[1..], uuids, clone);
    }
  }

  lemma FoldLists(s: BatchState, items: seq<Item>, uuids: seq<string>, clone: bool)
    ensures var f := Fold(s, items, uuids, clone);
      && f.meshData == s.meshData + RecordsOf(items, uuids, true)
      && f.lineData == s.lineData + RecordsOf(items, uuids, false)
      && f.touched == s.touched + TouchedOf(items, uuids, clone)
  {
    FoldMeshData(s, items, uuids, clone);
    FoldLineData(s, items, uuids, clone);
    FoldTouched(s, items, uuids, clone);
  }

  lemma {:induction false} FoldMeshData(s: BatchState, items: seq<Item>, uuids: seq<string>, clone: bool)
    ensures Fold(s, items, uuids, clone).meshData == s.meshData + RecordsOf(items, uuids, true)
    decreases |items|
  {
    if |items| > 0 {
      var it := items[0];
      var s' := Step(s, it, uuids, clone);
      FoldMeshData(s', items[1..], uuids, clone);
      var mine := if Mergeable(it, uuids) && it.kind == Mesh then [Record(it.uuid, it.userData)] else [];
      assert s'.meshData == s.meshData + mine;
      assert s.meshData + mine + RecordsOf(items[1..], uuids, true) == s.meshData + (mine + RecordsOf(items[1..], uuids, true));
    }
  }

  lemma {:induction false} FoldLineData(s: BatchState, items: seq<Item>, uuids: seq<string>, clone: bool)
    ensures Fold(s, items, uuids, clone).lineData == s.lineData + RecordsOf(items, uuids, false)
    decreases |items|
  {
    if |items| > 0 {
      var it := items[0];
      var s' := Step(s, it, uuids, clone);
      FoldLineData(s', items[1..], uuids, clone);
      var line := if Mergeable(it, uuids) && it.kind != Mesh then [Record(it.uuid, it.userData)] else [];
      assert s'.lineData == s.lineData + line;
      assert s.lineData + line + RecordsOf(items[1..], uuids, false) == s.lineData + (line + RecordsOf(items[1..], uuids, false));
    }
  }

  lemma {:induction false} FoldTouched(s: BatchState, items: seq<Item>, uuids: seq<string>, clone: bool)
    ensures Fold(s, items, uuids, clone).touched == s.touched + TouchedOf(items, uuids, clone)
    decreases |items|
  {
    if |items| > 0 {
      var it := items[0];
      var s' := Step(s, it, uuids, clone);
      FoldTouched(s', items[1..], uuids, clone);
      var touch := if Mergeable(it, uuids) && (it.kind != Mesh || !clone) then [it.uuid] else [];
      assert s'.touched == s.touched + touch;
      assert s.touched + touch + TouchedOf(items[1..], uuids, clone) == s.touched + (touch + TouchedOf(items[1..], uuids, clone));
    }
  }

  /** A merged line whose uuid is `u`. */
  predicate LineWithUuid(it: Item, uuids: seq<string>, u: string)
  {
    Mergeable(it, uuids) && it.kind != Mesh && it.uuid == u
  }

  /** With `clone` (the default) the meshes' geometries are left alone, but every
      merged line's geometry object is still rewritten. */
  lemma {:induction false} CloneStillTouchesLines(items: seq<Item>, uuids: seq<string>)
    ensures forall u :: u in TouchedOf(items, uuids, true) <==>
      exists k :: 0 <= k < |items| && LineWithUuid(items[k], uuids, u)
    decreases |items|
  {
    if |items| > 0 {
      var rest := items[1..];
      CloneStillTouchesLines(rest, uuids);
      forall u
        ensures u in TouchedOf(items, uuids, true) <==> exists k :: 0 <= k < |items| && LineWithUuid(items[k], uuids, u)
      {
        if u in TouchedOf(rest, uuids, true) {
          var k :| 0 <= k < |rest| && LineWithUuid(rest[k], uuids, u);
          assert items[k + 1] == rest[k];
        }
        if exists k :: 0 <= k < |items| && LineWithUuid(items[k], uuids, u) {
          var k :| 0 <= k < |items| && LineWithUuid(items[k], uuids, u);
          if k > 0 {
            assert rest[k - 1] == items[k];
          }
        }
      }
    }
  }

  /** The closure state of `_getMergedGeometry`: the lists the callback fills. */
  class Batch {
    var meshGroups: seq<MatGroup>
    var lineGroups: seq<MatGroup>
    var meshData: seq<Record>
    var lineData: seq<Record>
    var touched: seq<string>

    function State(): BatchState
      reads this
    {
      BatchState(meshGroups, lineGroups, meshData, lineData, touched)
    }

    constructor()
      ensures State() == EmptyState
    {
      meshGroups, lineGroups, meshData, lineData, touched := [], [], [], [], [];
    }

    /** The callback on one node; `detach` is whether it leaves its parent. */
    method Visit(it: Item, uuids: seq<string>, clone: bool) returns (detach: bool)
      modifies this
      ensures State() == Step(old(State()), it, uuids, clone)
      ensures detach == Mergeable(it, uuids)
    {
      if !Mergeable(it, uuids) {
        return false;
      }
      var g: Geom;
      if it.kind == Mesh {
        var uv := FixUv(it.uv, it.count);
        g := MeshGeom(it.uuid, it.count, !it.hasNormal, uv);
        meshData := meshData + [Record(it.uuid, it.userData)];
        if !clone {
          touched := touched + [it.uuid];
        }
      } else {
        var index := IndexLineGeometry(it.count);
        g := LineGeom(it.uuid, it.count, index);
        lineData := lineData + [Record(it.uuid, it.userData)];
        touched := touched + [it.uuid];
      }
      var list := if it.kind == Mesh then meshGroups else lineGroups;
      var found := FindGroup(list, it.material);
      if found.None? {
        list := list + [MatGroup(it.material, [g])];
      } else {
        var i := found.value;
        list := list[i := MatGroup(it.material, list[i].geometries + [g])];
      }
      if it.kind == Mesh {
        meshGroups := list;
      } else {
        lineGroups := list;
      }
      return true;
    }
  }

  /** `_removableTraverse(root, callback)`: the children are walked from the
      last index down, so removing the current child never moves an unvisited
      sibling; the node's own callback runs last. */
  method RemovableTraverse(n: Node, uuids: seq<string>, clone: bool, acc: Batch)
    returns (r: Node, detach: bool)
    modifies acc
    ensures r == Pruned(n, uuids)
    ensures detach == Mergeable(n.item, uuids)
    ensures acc.State() == Fold(old(acc.State()), Order(n), uuids, clone)
    decreases n
  {
    var cs := n.children;
    var cur := cs;
    var i := |cs|;
    assert cs[i..] == [];
    while i > 0
      invariant 0 <= i <= |cs|
      invariant cur == cs[..i] + Kept(cs[i..], uuids)
      invariant acc.State() == Fold(old(acc.State()), OrderRev(cs[i..]), uuids, clone)
    {
      i := i - 1;
      assert cs[i..][1..] == cs[i + 1..];
      var before := acc.State();
      var child, gone := RemovableTraverse(cs[i], uuids, clone, acc);
      FoldAppend(old(acc.State()), OrderRev(cs[i + 1..]), Order(cs[i]), uuids, clone);
      assert cur[i] == cs[i];
      if gone {
        cur := cur[..i] + cur[i + 1..];
        assert cur == cs[..i] + Kept(cs[i..], uuids);
      } else {
        cur := cur[..i] + [child] + cur[i + 1..];
        assert cur == cs[..i] + Kept(cs[i..], uuids);
      }
    }
    assert cs[0..] == cs;
    detach := acc.Visit(n.item, uuids, clone);
    FoldAppend(old(acc.State()), OrderRev(cs), [n.item], uuids, clone);
    r := Node(n.item, cur);
  }

  // ----- pruning empty groups -----

  predicate EmptyGroup(n: Node)
  {
    n.item.kind == Group && |n.children| == 0
  }

  /** `_removeEmptyGroups` as a value: children are cleaned first, then dropped
      when they are groups left without children. */
  function Cleaned(n: Node): Node
    decreases n, 1
  {
    Node(n.item, CleanedAll(n.children))
  }

  function CleanedAll(cs: seq<Node>): seq<Node>
    decreases cs, 0
  {
    if |cs| == 0 then []
    else (if EmptyGroup(Cleaned(cs[0])) then [] else [Cleaned(cs[0])]) + CleanedAll(cs[1..])
  }

  /** No group strictly below the root is empty. */
  predicate NoEmptyGroupBelow(n: Node)
    decreases n
  {
    forall i :: 0 <= i < |n.children| ==> !EmptyGroup(n.children[i]) && NoEmptyGroupBelow(n.children[i])
  }

  lemma {:induction false} CleanedAllMeaning(cs: seq<Node>, uuids: seq<string>)
    ensures forall c :: c in CleanedAll(cs) ==> !EmptyGroup(c) && NoEmptyGroupBelow(c)
    ensures (forall c :: c in cs ==> !Mergeable(c.item, uuids) && NoMergeableBelow(c, uuids)) ==>
      forall c :: c in CleanedAll(cs) ==> !Mergeable(c.item, uuids) && NoMergeableBelow(c, uuids)
    decreases cs, 0
  {
    if |cs| > 0 {
      CleanedAllMeaning(cs[1..], uuids);
      CleanedMeaning(cs[0], uuids);
      assert forall c :: c in cs[1..] ==> c in cs;
    }
  }

  /** After cleaning no group below the root is empty, and cleaning only removes
      nodes, so a tree with nothing mergeable below the root keeps that. */
  lemma {:induction false} CleanedMeaning(n: Node, uuids: seq<string>)
    ensures NoEmptyGroupBelow(Cleaned(n))
    ensures Cleaned(n).item == n.item
    ensures NoMergeableBelow(n, uuids) ==> NoMergeableBelow(Cleaned(n), uuids)
    decreases n, 1
  {
    CleanedAllMeaning(n.children, uuids);
    var c := Cleaned(n);
    forall i | 0 <= i < |c.children|
      ensures !EmptyGroup(c.children[i]) && NoEmptyGroupBelow(c.children[i])
    {
      assert c.children[i] in CleanedAll(n.children);
    }
    if NoMergeableBelow(n, uuids) {
      assert forall d :: d in n.children ==> !Mergeable(d.item, uuids) && NoMergeableBelow(d, uuids);
      forall i | 0 <= i < |c.children|
        ensures !Mergeable(c.children[i].item, uuids) && NoMergeableBelow(c.children[i], uuids)
      {
        assert c.children[i] in CleanedAll(n.children);
      }
    }
  }

  /** `_removeEmptyGroups(node)`, walking the children from the last index down. */
  method RemoveEmptyGroups(n: Node) returns (r: Node)
    ensures r == Cleaned(n)
    decreases n
  {
    var cs := n.children;
    var cur := cs;
    var i := |cs|;
    assert cs[i..] == [];
    while i > 0
      invariant 0 <= i <= |cs|
      invariant cur == cs[..i] + CleanedAll(cs[i..])
    {
      i := i - 1;
      assert cs[i..][1..] == cs[i + 1..];
      assert cur[i] == cs[i];
      var child := RemoveEmptyGroups(cs[i]);
      if child.item.kind == Group && |child.children| == 0 {
        cur := cur[..i] + cur[i + 1..];
      } else {
        cur := cur[..i] + [child] + cur[i + 1..];
      }
      assert cur == cs[..i] + CleanedAll(cs[i..]);
    }
    assert cs[0..] == cs;
    r := Node(n.item, cur);
  }

  // ----- merge -----

  /** A merged object: its material list (one per group, first seen first), the
      geometries of each group in order, and the records of its sources. */
  datatype Merged = Merged(materials: seq<nat>, parts: seq<seq<Geom>>, userData: seq<Record>)

  function MaterialsOf(groups: seq<MatGroup>): (r: seq<nat>)
    ensures |r| == |groups| && forall i :: 0 <= i < |groups| ==> r[i] == groups[i].material
  {
    seq(|groups|, i requires 0 <= i < |groups| => groups[i].material)
  }

  function PartsOf(groups: seq<MatGroup>): (r: seq<seq<Geom>>)
    ensures |r| == |groups| && forall i :: 0 <= i < |groups| ==> r[i] == groups[i].geometries
  {
    seq(|groups|, i requires 0 <= i < |groups| => groups[i].geometries)
  }

  /** `_getMergedObjects`: an object per family that collected any geometry. */
  function MergedOf(groups: seq<MatGroup>, data: seq<Record>): Option<Merged>
  {
    if |groups| > 0 then Some(Merged(MaterialsOf(groups), PartsOf(groups), data)) else None
  }

  /** `merge(scene, clone, uuids)`. The merged mesh, then the merged line, are
      added after the root's children; neither is a group, so the pruning of
      empty groups leaves them where they are, and they are returned beside
      the tree. */
  method Merge(scene: Node, clone: bool, uuids: seq<string>)
    returns (r: Node, mesh: Option<Merged>, line: Option<Merged>, touched: seq<string>)
    ensures var s := Fold(EmptyState, Order(scene), uuids, clone);
      && r == Cleaned(Pruned(scene, uuids))
      && mesh == MergedOf(s.meshGroups, s.meshData)
      && line == MergedOf(s.lineGroups, s.lineData)
      && touched == s.touched
  {
    var acc := new Batch();
    var pruned, _ := RemovableTraverse(scene, uuids, clone, acc);
    mesh := MergedOf(acc.meshGroups, acc.meshData);
    line := MergedOf(acc.lineGroups, acc.lineData);
    touched := acc.touched;
    r := RemoveEmptyGroups(pruned);
  }

  /** What `merge` promises: nothing mergeable and no empty group is left below
      the root; each family's records are its merged nodes in visiting order,
      one each; the groups have distinct materials and hold one geometry per
      record; with `clone` only the lines' own geometries change. */
  lemma MergeMeaning(scene: Node, clone: bool, uuids: seq<string>)
    ensures var s := Fold(EmptyState, Order(scene), uuids, clone);
      var r := Cleaned(Pruned(scene, uuids));
      && NoEmptyGroupBelow(r) && NoMergeableBelow(r, uuids) && r.item == scene.item
      && s.meshData == RecordsOf(Order(scene), uuids, true)
      && s.lineData == RecordsOf(Order(scene), uuids, false)
      && DistinctMaterials(s.meshGroups) && DistinctMaterials(s.lineGroups)
      && GeomCount(s.meshGroups) == |s.meshData| && GeomCount(s.lineGroups) == |s.lineData|
      && (clone ==> s.touched == TouchedOf(Order(scene), uuids, true))
  {
    FoldMeaning(EmptyState, Order(scene), uuids, clone);
    PrunedMeaning(scene, uuids);
    CleanedMeaning(Pruned(scene, uuids), uuids);
  }
}
