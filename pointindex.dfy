/** The line-segment index arrays that the viewer hands to three.js: for a
    polyline of n points the segments are (0,1), (1,2), …, (n-2,n-1), written out
    flat. Two copies of the same loop exist in the source, one in
    src/entities/baseEntity/geometryHelper.js and one in
    src/entities/baseEntity/baseGeometry.js. */
module GeometryHelper {

  /** Flat segment indices for `n` points: entry j is j/2 + j%2, so entries 2k and
      2k+1 are k and k+1. */
  function PointIndex(n: nat): (index: seq<nat>)
    ensures |index| == if n == 0 then 0 else 2 * (n - 1)
  {
    if n <= 1 then [] else PointIndex(n - 1) + [n - 2, n - 1]
  }

  /** The meaning of the index: segment k joins points k and k+1, every index names
      an existing point, and consecutive segments share an endpoint. */
  lemma {:induction false} PointIndexShape(n: nat)
    ensures forall k :: 0 <= k && 2 * k + 1 < |PointIndex(n)| ==>
      PointIndex(n)[2 * k] == k && PointIndex(n)[2 * k + 1] == k + 1
    ensures forall j :: 0 <= j < |PointIndex(n)| ==> PointIndex(n)[j] < n
    ensures forall k :: 0 <= k && 2 * k + 2 < |PointIndex(n)| ==>
      PointIndex(n)[2 * k + 1] == PointIndex(n)[2 * k + 2]
  {
    if n > 1 {
      PointIndexShape(n - 1);
      var p := PointIndex(n - 1);
      assert PointIndex(n) == p + [n - 2, n - 1];
      forall k | 0 <= k && 2 * k + 1 < |PointIndex(n)|
        ensures PointIndex(n)[2 * k] == k && PointIndex(n)[2 * k + 1] == k + 1
      {
        if 2 * k + 1 >= |p| {
          assert 2 * k == |p|;
        }
      }
    }
  }

  /** `generatePointIndex(points)`: only the number of points is read. */
  method GeneratePointIndex<T>(points: seq<T>) returns (index: seq<nat>)
    ensures index == PointIndex(|points|)
  {
    index := [];
    var i := 1;
    while i < |points|
      invariant 1 <= i <= if |points| == 0 then 1 else |points|
      invariant index == PointIndex(i)
    {
      index := index + [i - 1];
      index := index + [i];
      i := i + 1;
    }
  }
}

/** `BaseGeometry._generatePointIndex`: the same loop as in GeometryHelper. */
module BaseGeometry {
  import opened GeometryHelper

  method GenerateBasePointIndex<T>(points: seq<T>) returns (index: seq<nat>)
    ensures index == PointIndex(|points|)
  {
    index := [];
    var i := 1;
    while i < |points|
      invariant 1 <= i <= if |points| == 0 then 1 else |points|
      invariant index == PointIndex(i)
    {
      index := index + [i - 1, i];
      i := i + 1;
    }
  }
}
