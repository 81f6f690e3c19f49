/** SOLID entities (src/entities/solidEntity.js): the corner list is rotated so
    that its last corner comes first, and the shape is mirrored in x when the
    extrusion direction points down. The triangulation of the outline by three.js
    is not part of this model; the outline is what it receives. */
module SolidEntity {
  import opened Js
  import opened LineEntity

  /** `points.splice(0, 0, points.pop())` on the corner list: the last corner moves
      to the front. On an empty list `pop` yields `undefined`, which is inserted. */
  function RotateLast(corners: seq<Vec3>): (r: seq<Slot>)
    ensures |r| == if |corners| == 0 then 1 else |corners|
  {
    if |corners| == 0 then [None]
    else [Some(corners[|corners| - 1])] + Slots(corners[..|corners| - 1])
  }

  function Slots(ps: seq<Vec3>): (r: seq<Slot>)
    ensures |r| == |ps| && forall i :: 0 <= i < |ps| ==> r[i] == Some(ps[i])
  {
    seq(|ps|, i requires 0 <= i < |ps| => Some(ps[i]))
  }

  /** The rotation keeps every corner: the outline is the corners, last first, in
      their cyclic order, and moving the first element back to the end restores
      the input. */
  lemma RotateLastMeaning(corners: seq<Vec3>)
    requires |corners| > 0
    ensures var r := RotateLast(corners);
      && r[0] == Some(corners[|corners| - 1])
      && (forall i :: 0 <= i < |corners| - 1 ==> r[i + 1] == Some(corners[i]))
      && r[1..] + [r[0]] == Slots(corners)
      && multiset(r) == multiset(Slots(corners))
  {
    var r := RotateLast(corners);
    var n := |corners|;
    assert r[1..] == Slots(corners[..n - 1]);
    assert Slots(corners) == Slots(corners[..n - 1]) + [Some(corners[n - 1])];
    calc {
      multiset(r);
      multiset([r[0]] + r[1..]);
      { assert [r[0]] + r[1..] == r; }
      multiset([r[0]]) + multiset(r[1..]);
      multiset(r[1..] + [r[0]]);
    }
  }

  /** `drawSolid` on the corner list: pop, then insert at the front. */
  method ReorderCorners(corners: seq<Vec3>) returns (points: seq<Slot>)
    ensures points == RotateLast(corners)
  {
    points := Slots(corners);
    var last: Slot := None;
    if |points| > 0 {
      last := points[|points| - 1];
      points := points[..|points| - 1];
    }
    points := [last] + points;
  }

  /** `geometry.scale(-1, 1, 1)` on the outline's points. */
  function MirrorX(ps: seq<Slot>): (r: seq<Slot>)
    ensures |r| == |ps|
    ensures forall i :: 0 <= i < |ps| ==>
      r[i] == if ps[i].Some? then Some(Vec3(-ps[i].value.x, ps[i].value.y, ps[i].value.z)) else None
  {
    seq(|ps|, i requires 0 <= i < |ps| =>
      if ps[i].Some? then Some(Vec3(-ps[i].value.x, ps[i].value.y, ps[i].value.z)) else None)
  }

  /** Mirroring twice is the identity. */
  lemma MirrorXInvolution(ps: seq<Slot>)
    ensures MirrorX(MirrorX(ps)) == ps
  {
    assert forall i :: 0 <= i < |ps| ==> MirrorX(MirrorX(ps))[i] == ps[i];
  }

  /** `_extrusionTransform(entity, geometry)`: an undefined `extrusionZ` compares
      false and leaves the geometry alone. */
  function ExtrusionTransform(extrusionZ: Option<real>, ps: seq<Slot>): (r: seq<Slot>)
    ensures extrusionZ.Some? && extrusionZ.value < 0.0 ==> r == MirrorX(ps)
    ensures !(extrusionZ.Some? && extrusionZ.value < 0.0) ==> r == ps
  {
    if extrusionZ.Some? && extrusionZ.value < 0.0 then MirrorX(ps) else ps
  }

  /** The outline `drawSolid` hands to the shape triangulation. */
  method DrawSolid(corners: seq<Vec3>, extrusionZ: Option<real>) returns (outline: seq<Slot>)
    ensures outline == ExtrusionTransform(extrusionZ, RotateLast(corners))
  {
    var points := ReorderCorners(corners);
    outline := ExtrusionTransform(extrusionZ, points);
  }
}
