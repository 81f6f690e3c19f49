/** The snap helper of src/utils/snapsHelper.js: on every mouse move the mouse
    position in the scene is looked up in the voxel index, the nearest snap point
    of the voxel found is searched, and the mouse position jumps to it when it lies
    closer than 5 units; the orange marker cube follows it or is hidden.

    Distances are compared squared: `distanceTo` is the square root of the squared
    distance and the square root is increasing on non-negative reals, so every
    comparison the source makes between distances (and against 5) decides the same
    as the comparison of the squares (`SquaresKeepOrder`). The ray cast that turns
    the mouse event into a scene position is a parameter. */
module SnapsHelperTool {
  import opened Js
  import opened LineEntity
  import opened SnapsIndex

  function SqDist(a: Vec3, b: Vec3): (d: real)
    ensures d >= 0.0
  {
    (a.x - b.x) * (a.x - b.x) + (a.y - b.y) * (a.y - b.y) + (a.z - b.z) * (a.z - b.z)
  }

  /** Comparing two distances is comparing their squares. */
  lemma SquaresKeepOrder(d1: real, d2: real)
    requires d1 >= 0.0 && d2 >= 0.0
    ensures d1 < d2 <==> d1 * d1 < d2 * d2
  {
    if d1 < d2 {
      SquareSteps(d1, d2, d1 * d1, d1 * d2, d2 * d2);
    } else {
      SquareSteps(d2, d1, d2 * d2, d2 * d1, d1 * d1);
    }
  }

  /** With x = a², y = ab and z = b²: x <= z, strictly when a < b. */
  lemma SquareSteps(a: real, b: real, x: real, y: real, z: real)
    requires 0.0 <= a <= b && x == a * a && y == a * b && z == b * b
    ensures x <= z && (a < b ==> x < z)
  {
    var c := b - a;
    assert y == x + a * c;
    assert z == y + b * c;
    assert a * c >= 0.0;
    if a < b {
      assert b * c > 0.0;
    }
  }

  /** The snap radius: a distance d >= 0 is below 5 exactly when d² is below 25. */
  const SnapRadius: real := 5.0

  lemma WithinRadiusBySquares(d: real)
    requires d >= 0.0
    ensures d < SnapRadius <==> d * d < SnapRadius * SnapRadius
  {
    SquaresKeepOrder(d, SnapRadius);
  }

  /** `snap.point.distanceTo(point)`, squared; a NaN point gives NaN (`None`), which
      compares false with everything. */
  function DistTo(s: Snap, p: Vec3): Option<real>
  {
    if s.point.Some? then Some(SqDist(s.point.value, p)) else None
  }

  /** The index of the running minimum after the first k snaps: a snap replaces it
      only when strictly closer, so the earliest of equally near snaps stays. */
  function NearestIdx(snaps: seq<Snap>, p: Vec3, k: nat): (r: Option<nat>)
    requires k <= |snaps|
    ensures r.Some? ==> r.value < k && snaps[r.value].point.Some?
  {
    if k == 0 then None
    else
      var r0 := NearestIdx(snaps, p, k - 1);
      var d := DistTo(snaps[k - 1], p);
      if d.Some? && (r0.None? || d.value < DistTo(snaps[r0.value], p).value) then Some(k - 1) else r0
  }

  /** `{ snap, distance }` with the squared distance; `Infinity` until a snap is taken. */
  datatype Distance = Infinity | Sq(value: real)
  datatype Nearest = Nearest(snap: Option<Snap>, distance: Distance)

  function NearestOf(snaps: seq<Snap>, p: Vec3): Nearest
  {
    match NearestIdx(snaps, p, |snaps|)
    case None => Nearest(None, Infinity)
    case Some(i) => Nearest(Some(snaps[i]), Sq(DistTo(snaps[i], p).value))
  }

  /** No snap is taken exactly when no snap has a point; a taken snap is at least
      as near as every snap with a point and strictly nearer than every earlier one. */
  lemma {:induction false} NearestIdxMeaning(snaps: seq<Snap>, p: Vec3, k: nat)
    requires k <= |snaps|
    ensures var r := NearestIdx(snaps, p, k);
      && (r.None? <==> forall j :: 0 <= j < k ==> snaps[j].point.None?)
      && (r.Some? ==> forall j :: 0 <= j < k && snaps[j].point.Some? ==>
            DistTo(snaps[r.value], p).value <= DistTo(snaps[j], p).value)
      && (r.Some? ==> forall j :: 0 <= j < r.value && snaps[j].point.Some? ==>
            DistTo(snaps[r.value], p).value < DistTo(snaps[j], p).value)
  {
    if k > 0 {
      NearestIdxMeaning(snaps, p, k - 1);
    }
  }

  /** `_findNearestSnapPoint` on the snaps of a voxel, as its properties: the empty
      result when no snap has a point, else a snap of the voxel with the least
      distance, the earliest on ties. */
  lemma NearestOfMeaning(snaps: seq<Snap>, p: Vec3)
    ensures var n := NearestOf(snaps, p);
      && (n.snap.None? <==> forall j :: 0 <= j < |snaps| ==> snaps[j].point.None?)
      && (n.snap.None? ==> n.distance == Infinity)
      && (n.snap.Some? ==> exists i :: (0 <= i < |snaps| && snaps[i] == n.snap.value
            && n.distance == Sq(DistTo(snaps[i], p).value)
            && (forall j :: 0 <= j < |snaps| && snaps[j].point.Some? ==> n.distance.value <= DistTo(snaps[j], p).value)
            && (forall j :: 0 <= j < i && snaps[j].point.Some? ==> n.distance.value < DistTo(snaps[j], p).value)))
  {
    NearestIdxMeaning(snaps, p, |snaps|);
    var r := NearestIdx(snaps, p, |snaps|);
    if r.Some? {
      var i := r.value;
      assert snaps[i] == NearestOf(snaps, p).snap.value;
    }
  }

  /** `_findNearestSnapPoint(point, voxel)`: one pass keeping the running minimum. */
  method FindNearestSnapPoint(p: Vec3, voxel: Voxel) returns (min: Nearest)
    ensures min == NearestOf(voxel.snaps, p)
  {
    min := Nearest(None, Infinity);
    ghost var idx: Option<nat> := None;
    for i := 0 to |voxel.snaps|
      invariant idx == NearestIdx(voxel.snaps, p, i)
      invariant min == (if idx.None? then Nearest(None, Infinity)
                        else Nearest(Some(voxel.snaps[idx.value]), Sq(DistTo(voxel.snaps[idx.value], p).value)))
    {
      var snap := voxel.snaps[i];
      var distance := DistTo(snap, p);
      if distance.Some? && (min.distance.Infinity? || distance.value < min.distance.value) {
        min := Nearest(Some(snap), Sq(distance.value));
        idx := Some(i);
      }
    }
  }

  /** What `_mouseMove` does once the voxel lookup has answered. */
  datatype MoveAction = Unchanged | HideMarker | SnapTo(point: Vec3)

  /** No voxel: nothing; no snap: hide; a snap within 5 units: jump to it; else hide. */
  function MoveActionOf(found: Option<Voxel>, p: Vec3): (a: MoveAction)
  {
    if found.None? then Unchanged
    else
      var n := NearestOf(found.value.snaps, p);
      if n.snap.None? then HideMarker
      else if n.distance.value < SnapRadius * SnapRadius then SnapTo(n.snap.value.point.value)
      else HideMarker
  }

  /** The mouse jumps exactly when the voxel holds a snap point closer than 5 units,
      and it jumps to the nearest one. */
  lemma MoveActionMeaning(found: Option<Voxel>, p: Vec3)
    ensures MoveActionOf(found, p).Unchanged? <==> found.None?
    ensures MoveActionOf(found, p).SnapTo? <==>
      found.Some? && exists j :: (0 <= j < |found.value.snaps| && found.value.snaps[j].point.Some?
        && DistTo(found.value.snaps[j], p).value < SnapRadius * SnapRadius)
    ensures MoveActionOf(found, p).SnapTo? ==>
      var n := NearestOf(found.value.snaps, p);
      n.snap.Some? && MoveActionOf(found, p).point == n.snap.value.point.value
  {
    if found.Some? {
      var snaps := found.value.snaps;
      NearestOfMeaning(snaps, p);
      var n := NearestOf(snaps, p);
      if n.snap.Some? && n.distance.value >= SnapRadius * SnapRadius {
        forall j | 0 <= j < |snaps| && snaps[j].point.Some?
          ensures DistTo(snaps[j], p).value >= SnapRadius * SnapRadius
        {
        }
      }
      if n.snap.Some? && n.distance.value < SnapRadius * SnapRadius {
        var i :| 0 <= i < |snaps| && snaps[i] == n.snap.value && n.distance == Sq(DistTo(snaps[i], p).value);
        assert snaps[i].point.Some?;
      }
    }
  }

  /** The marker cube: absent until first shown, then at a position, visible or not. */
  datatype Marker = Marker(position: Vec3, visible: bool)

  class SnapsHelper {
    /** `this.snaps`, null after `clear()`. */
    var snaps: Option<Snaps>
    /** `this._snapSquare`. */
    var marker: Option<Marker>

    constructor(s: Snaps)
      ensures snaps == Some(s) && marker == None
    {
      snaps := Some(s);
      marker := None;
    }

    /** `_hideSnapSquare`. */
    method HideSnapSquare()
      modifies this
      ensures snaps == old(snaps)
      ensures marker == (if old(marker).Some? then Some(Marker(old(marker).value.position, false)) else None)
    {
      if marker.Some? {
        marker := Some(Marker(marker.value.position, false));
      }
    }

    /** `_showSnapSquare`: creates the marker on first use, moves it, shows it. */
    method ShowSnapSquare(point: Vec3)
      modifies this
      ensures snaps == old(snaps)
      ensures marker == Some(Marker(point, true))
    {
      if marker.None? {
        marker := Some(Marker(Vec3(0.0, 0.0, 0.0), false));
      }
      marker := Some(Marker(point, true));
    }

    /** `_mouseMove(e)` with `mouse` the position the ray cast gives: returns the
        event's `mousePosInScene` after the handler. Looking up a point in an index
        that was never processed throws. */
    method MouseMove(mouse: Vec3) returns (r: Result<Vec3>)
      modifies this
      ensures snaps == old(snaps)
      ensures old(snaps).None? ==> r == Ok(mouse) && marker == old(marker)
      ensures old(snaps).Some? && old(snaps.value.voxel).None? ==> r.Err? && marker == old(marker)
      ensures old(snaps).Some? && old(snaps.value.voxel).Some? ==>
        var found := FindVoxelIn(mouse, old(snaps.value.voxel).value.children);
        match MoveActionOf(found, mouse)
        case Unchanged => r == Ok(mouse) && marker == old(marker)
        case HideMarker => r == Ok(mouse) && marker == (if old(marker).Some? then Some(Marker(old(marker).value.position, false)) else None)
        case SnapTo(q) => r == Ok(q) && marker == Some(Marker(q, true))
    {
      if snaps.None? {
        return Ok(mouse);
      }
      var found := snaps.value.FindVoxel(mouse);
      if found.Err? {
        return Err(found.message);
      }
      if found.value.Some? {
        var nearest := FindNearestSnapPoint(mouse, found.value.value);
        if nearest.snap.None? {
          HideSnapSquare();
          return Ok(mouse);
        }
        if nearest.distance.value < SnapRadius * SnapRadius {
          var q := nearest.snap.value.point.value;
          ShowSnapSquare(q);
          return Ok(q);
        } else {
          HideSnapSquare();
        }
      }
      return Ok(mouse);
    }
  }
}
