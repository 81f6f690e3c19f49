/** The hatch clipper (src/entities/hatchCalculator.js). A hatch line from P0 to
    P1 is clipped by the boundary loops: the work is done in "line space", where
    the x axis runs along the line and the y axis along its normal; the loops'
    edges are crossed with y = 0 using a half-open rule, the crossings are
    sorted and de-duplicated, and the spans are chosen either by pairing
    crossings (odd parity) or by the loop depth at each sub-interval's midpoint
    (the outermost and through-entire-area styles).

    Coordinates are mathematical reals, not IEEE doubles; `Math.hypot` is a given
    length `L` with `L * L == dx * dx + dy * dy`. */
module HatchClip {
  import opened Js

  datatype Point = Point(x: real, y: real)

  /** A kept piece of the line, as fractions of its length. */
  datatype Span = Span(t0: real, t1: real)

  const ODD_PARITY: int := 0
  const OUTERMOST: int := 1
  const THROUGH_ENTIRE_AREA: int := 2

  const EPS: real := 0.000000001
  /** The gap below which two sorted crossings count as one. */
  const MERGE_GAP: real := 0.0000001
  /** The bias added to a denominator in the point-in-loop test. */
  const PIP_BIAS: real := 0.000000000000000000000000000001

  function Abs(r: real): real { if r < 0.0 then -r else r }
  function MaxR(a: real, b: real): real { if a < b then b else a }
  function MinR(a: real, b: real): real { if a < b then a else b }

  // ---------------------------------------------------------------- closing loops

  /** The loop's ends are more than EPS apart in x or in y. */
  predicate OpenEnds(loop: seq<Point>)
    requires |loop| >= 1
  {
    Abs(loop[0].x - loop[|loop| - 1].x) > EPS || Abs(loop[0].y - loop[|loop| - 1].y) > EPS
  }

  /** The constructor's per-loop copy: a loop of two or more points whose ends differ
      gets a copy of its first point appended. */
  function CloseLoop(loop: seq<Point>): (out: seq<Point>)
    ensures loop <= out && |out| <= |loop| + 1
  {
    if |loop| >= 2 && OpenEnds(loop) then loop + [Point(loop[0].x, loop[0].y)] else loop
  }

  /** After closing, a loop of two or more points ends within EPS of where it starts;
      a loop that already did, or has fewer than two points, is kept as it is. */
  lemma CloseLoopCloses(loop: seq<Point>)
    ensures |loop| >= 2 ==> !OpenEnds(CloseLoop(loop))
    ensures (|loop| < 2 || !OpenEnds(loop)) <==> CloseLoop(loop) == loop
  {
  }

  lemma CloseLoopIdempotent(loop: seq<Point>)
    ensures CloseLoop(CloseLoop(loop)) == CloseLoop(loop)
  {
    CloseLoopCloses(loop);
  }

  function CloseLoops(loops: seq<seq<Point>>): (r: seq<seq<Point>>)
    ensures |r| == |loops| && forall i :: 0 <= i < |loops| ==> r[i] == CloseLoop(loops[i])
  {
    seq(|loops|, i requires 0 <= i < |loops| => CloseLoop(loops[i]))
  }

  // ---------------------------------------------------------------- point in loop

  /** `P.x < (xj - xi) * (P.y - yi) / (yj - yi + 1e-30) + xi`, with JavaScript's
      division by zero: a positive numerator gives +Infinity (the test holds), a
      negative one -Infinity and a zero one NaN (the test fails). */
  predicate LeftOfCrossing(P: Point, a: Point, b: Point)
  {
    var num := (b.x - a.x) * (P.y - a.y);
    var den := b.y - a.y + PIP_BIAS;
    if den != 0.0 then P.x < num / den + a.x else num > 0.0
  }

  /** Edge (a, b) straddles the horizontal through P and crosses it to the right of P. */
  predicate EdgeCrosses(P: Point, a: Point, b: Point)
  {
    ((a.y > P.y) != (b.y > P.y)) && LeftOfCrossing(P, a, b)
  }

  /** The index paired with `i` by `j = i++`: the previous vertex, cyclically. */
  function Prev(n: nat, i: nat): nat
    requires i < n
    ensures Prev(n, i) < n
  {
    if i == 0 then n - 1 else i - 1
  }

  /** How many of the edges (loop[i], loop[Prev(i)]), i < k, cross to the right of P. */
  function CrossingCount(P: Point, loop: seq<Point>, k: nat): (c: nat)
    requires k <= |loop|
    ensures c <= k
  {
    if k == 0 then 0
    else CrossingCount(P, loop, k - 1) + (if EdgeCrosses(P, loop[k - 1], loop[Prev(|loop|, k - 1)]) then 1 else 0)
  }

  /** `_pointInLoop`: the even-odd rule over all edges of the loop. */
  predicate InLoop(P: Point, loop: seq<Point>)
  {
    CrossingCount(P, loop, |loop|) % 2 == 1
  }

  /** A loop of fewer than two points contains nothing: its only edge is degenerate. */
  lemma ShortLoopContainsNothing(P: Point, loop: seq<Point>)
    requires |loop| <= 1
    ensures !InLoop(P, loop)
  {
    if |loop| == 1 {
      assert !EdgeCrosses(P, loop[0], loop[Prev(1, 0)]);
    }
  }

  /** `_depthAt`: the number of loops containing P. */
  function Depth(P: Point, loops: seq<seq<Point>>): (d: nat)
    ensures d <= |loops|
  {
    if loops == [] then 0
    else Depth(P, loops[..|loops| - 1]) + (if InLoop(P, loops[|loops| - 1]) then 1 else 0)
  }

  /** The depth is positive exactly when some loop contains the point. */
  lemma {:induction false} DepthPositive(P: Point, loops: seq<seq<Point>>)
    ensures Depth(P, loops) >= 1 <==> exists k :: 0 <= k < |loops| && InLoop(P, loops[k])
  {
    if loops != [] {
      var init := loops[..|loops| - 1];
      DepthPositive(P, init);
      if exists k :: 0 <= k < |init| && InLoop(P, init[k]) {
        var k :| 0 <= k < |init| && InLoop(P, init[k]);
        assert InLoop(P, loops[k]);
      }
      if exists k :: 0 <= k < |loops| && InLoop(P, loops[k]) {
        var k :| 0 <= k < |loops| && InLoop(P, loops[k]);
        if k < |init| { assert InLoop(P, init[k]); }
      }
    }
  }

  // ---------------------------------------------------------------- line space

  function Sub(a: Point, b: Point): Point { Point(a.x - b.x, a.y - b.y) }
  function Dot(a: Point, b: Point): real { a.x * b.x + a.y * b.y }

  /** `toLine`: coordinates along the unit direction `u` and along its normal (-u.y, u.x). */
  function ToLine(p: Point, P0: Point, u: Point): Point
  {
    var v := Sub(p, P0);
    Point(Dot(v, u), Dot(v, Point(-u.y, u.x)))
  }

  /** The half-open straddle rule: exactly one end strictly above y = 0. */
  predicate HalfOpen(A: Point, B: Point)
  {
    (A.y <= 0.0 && 0.0 < B.y) || (B.y <= 0.0 && 0.0 < A.y)
  }

  /** The crossing of edge (A, B), in line space, with y = 0; none for an edge closer to
      horizontal than EPS or one that does not straddle. */
  function EdgeCrossing(A: Point, B: Point): (r: Option<real>)
    ensures r.Some? <==> Abs(B.y - A.y) >= EPS && HalfOpen(A, B)
  {
    var dy := B.y - A.y;
    if Abs(dy) < EPS then None
    else if !HalfOpen(A, B) then None
    else
      var t := (0.0 - A.y) / dy;
      Some(Lerp(A.x, B.x, t))
  }

  function Lerp(a: real, b: real, t: real): real
  {
    a + t * (b - a)
  }

  /** The crossing is the point of the edge on the line: the interpolation parameter
      lies in [0, 1] and puts y at 0, so x lies between the edge's ends. */
  lemma CrossingOnEdge(A: Point, B: Point)
    requires EdgeCrossing(A, B).Some?
    ensures var dy := B.y - A.y; var t := (0.0 - A.y) / dy;
      && 0.0 <= t <= 1.0
      && A.y + t * dy == 0.0
      && EdgeCrossing(A, B).value == Lerp(A.x, B.x, t)
      && MinR(A.x, B.x) <= EdgeCrossing(A, B).value <= MaxR(A.x, B.x)
  {
    var dy := B.y - A.y;
    var t := (0.0 - A.y) / dy;
    assert t * dy == 0.0 - A.y;
    if dy > 0.0 {
      assert 0.0 <= -A.y <= dy;
      DivBounds(-A.y, dy);
    } else {
      assert 0.0 <= A.y <= -dy;
      assert t == A.y / (-dy);
      DivBounds(A.y, -dy);
    }
    ConvexBetween(A.x, B.x, t);
  }

  lemma DivBounds(n: real, d: real)
    requires d > 0.0 && 0.0 <= n <= d
    ensures 0.0 <= n / d <= 1.0
  {
    assert (n / d) * d == n;
  }

  lemma ConvexBetween(a: real, b: real, t: real)
    requires 0.0 <= t <= 1.0
    ensures MinR(a, b) <= Lerp(a, b, t) <= MaxR(a, b)
  {
    if a <= b {
      MulNonneg(t, b - a);
      MulNonneg(1.0 - t, b - a);
    } else {
      MulNonneg(t, a - b);
      MulNonneg(1.0 - t, a - b);
    }
  }

  lemma MulNonneg(x: real, y: real)
    requires x >= 0.0 && y >= 0.0
    ensures x * y >= 0.0
  {
  }

  // ---------------------------------------------------------------- gathering crossings

  function NumEdges(loop: seq<Point>): nat
  {
    if |loop| == 0 then 0 else |loop| - 1
  }

  function OptionSeq(o: Option<real>): seq<real>
  {
    if o.Some? then [o.value] else []
  }

  /** The crossings of the loop's open edges (loop[i], loop[i+1]) for i < k. */
  function EdgeXs(loop: seq<Point>, P0: Point, u: Point, k: nat): (xs: seq<real>)
    requires k <= NumEdges(loop)
    ensures |xs| <= k
  {
    if k == 0 then []
    else EdgeXs(loop, P0, u, k - 1) + OptionSeq(EdgeCrossing(ToLine(loop[k - 1], P0, u), ToLine(loop[k], P0, u)))
  }

  /** The crossings of the first `k` loops, loop by loop, edge by edge. */
  function AllXs(loops: seq<seq<Point>>, P0: Point, u: Point, k: nat): seq<real>
    requires k <= |loops|
  {
    if k == 0 then [] else AllXs(loops, P0, u, k - 1) + EdgeXs(loops[k - 1], P0, u, NumEdges(loops[k - 1]))
  }

  // ---------------------------------------------------------------- sorting

  predicate Sorted(s: seq<real>)
  {
    forall i, j :: 0 <= i < j < |s| ==> s[i] <= s[j]
  }

  /** Every element of s is at least a. */
  predicate AtLeast(a: real, s: seq<real>)
  {
    forall k :: 0 <= k < |s| ==> a <= s[k]
  }

  lemma ConsSorted(a: real, s: seq<real>)
    requires Sorted(s) && AtLeast(a, s)
    ensures Sorted([a] + s)
  {
    var r := [a] + s;
    forall i, j | 0 <= i < j < |r| ensures r[i] <= r[j] {
      if i > 0 {
        assert r[i] == s[i - 1] && r[j] == s[j - 1];
      }
    }
  }

  lemma AtLeastPerm(a: real, s: seq<real>, t: seq<real>, x: real)
    requires AtLeast(a, s) && a <= x && multiset(t) == multiset(s) + multiset{x}
    ensures AtLeast(a, t)
  {
    forall k | 0 <= k < |t| ensures a <= t[k] {
      assert t[k] in multiset(t);
      if t[k] != x {
        assert t[k] in multiset(s);
      }
    }
  }

  function Insert(x: real, s: seq<real>): (r: seq<real>)
    requires Sorted(s)
    ensures Sorted(r) && multiset(r) == multiset(s) + multiset{x}
  {
    if s == [] then [x]
    else if x <= s[0] then
      assert AtLeast(x, s);
      ConsSorted(x, s);
      [x] + s
    else
      var rest := Insert(x, s[1..]);
      assert s == [s[0]] + s[1..];
      assert AtLeast(s[0], s[1..]);
      AtLeastPerm(s[0], s[1..], rest, x);
      ConsSorted(s[0], rest);
      [s[0]] + rest
  }

  /** `xs.sort((a, b) => a - b)`: ascending order (an insertion sort stands for the
      library's algorithm; `SortedPermutationUnique` shows every algorithm agrees). */
  function SortReals(s: seq<real>): (r: seq<real>)
    ensures Sorted(r) && multiset(r) == multiset(s)
  {
    if s == [] then []
    else
      assert s == [s[0]] + s[1..];
      Insert(s[0], SortReals(s[1..]))
  }

  /** Two sorted arrangements of the same values are the same sequence. */
  lemma {:induction false} SortedPermutationUnique(a: seq<real>, b: seq<real>)
    requires Sorted(a) && Sorted(b) && multiset(a) == multiset(b)
    ensures a == b
    decreases |a|
  {
    if a != [] {
      SameHead(a, b);
      SortedTail(a);
      SortedTail(b);
      SortedPermutationUnique(a[1..], b[1..]);
      assert a == [a[0]] + a[1..] && b == [b[0]] + b[1..];
    }
  }

  /** Two sorted arrangements of the same non-empty values share their head and
      the values of their tails. */
  lemma SameHead(a: seq<real>, b: seq<real>)
    requires Sorted(a) && Sorted(b) && multiset(a) == multiset(b) && a != []
    ensures b != [] && a[0] == b[0] && multiset(a[1..]) == multiset(b[1..])
  {
    assert a[0] in multiset(a);
    HeadIsLeast(b, a[0]);
    assert b[0] in multiset(b);
    HeadIsLeast(a, b[0]);
    SplitHead(a);
    SplitHead(b);
  }

  /** The head of a sorted sequence is its least element. */
  lemma HeadIsLeast(s: seq<real>, v: real)
    requires Sorted(s) && v in multiset(s)
    ensures |s| > 0 && s[0] <= v
  {
    var i :| 0 <= i < |s| && s[i] == v;
  }

  lemma SortedTail(s: seq<real>)
    requires Sorted(s) && |s| > 0
    ensures Sorted(s[1..])
  {
    var t := s[1..];
    forall i, j | 0 <= i < j < |t| ensures t[i] <= t[j] {
      assert t[i] == s[i + 1] && t[j] == s[j + 1];
    }
  }

  lemma SplitHead(s: seq<real>)
    requires |s| > 0
    ensures multiset(s[1..]) == multiset(s) - multiset{s[0]}
  {
    assert s == [s[0]] + s[1..];
  }

  // ---------------------------------------------------------------- de-duplication

  /** The `last`/`uniq` loop: an element is kept when it is the first or lies more than
      1e-7 from its predecessor in the input (not from the last kept one). */
  function Dedup(xs: seq<real>): (r: seq<real>)
    ensures |r| <= |xs|
    ensures |xs| > 0 ==> |r| > 0 && r[0] == xs[0]
  {
    if |xs| == 0 then []
    else
      var n := |xs|;
      Dedup(xs[..n - 1]) + (if n == 1 || Abs(xs[n - 1] - xs[n - 2]) > MERGE_GAP then [xs[n - 1]] else [])
  }

  predicate StrictlyIncreasing(s: seq<real>)
  {
    forall i, j :: 0 <= i < j < |s| ==> s[i] < s[j]
  }

  predicate WideGaps(s: seq<real>)
  {
    forall k :: 0 <= k < |s| - 1 ==> s[k + 1] - s[k] > MERGE_GAP
  }

  /** After sorting and de-duplication the kept crossings are strictly increasing, with
      neighbouring gaps above 1e-7, and each is one of the crossings. */
  lemma {:induction false} DedupOfSorted(xs: seq<real>)
    requires Sorted(xs)
    ensures var r := Dedup(xs);
      && StrictlyIncreasing(r) && WideGaps(r)
      && (forall k :: 0 <= k < |r| ==> r[k] in xs)
      && (|xs| > 0 ==> r[|r| - 1] <= xs[|xs| - 1])
  {
    DedupMembers(xs);
    DedupGaps(xs);
  }

  /** Every kept crossing is one of the crossings. */
  lemma {:induction false} DedupMembers(xs: seq<real>)
    ensures forall k :: 0 <= k < |Dedup(xs)| ==> Dedup(xs)[k] in xs
  {
    if |xs| > 0 {
      var init := xs[..|xs| - 1];
      DedupMembers(init);
      var r0 := Dedup(init);
      forall k | 0 <= k < |r0| ensures r0[k] in xs {
        assert r0[k] in init;
      }
    }
  }

  /** A strictly increasing sequence with wide gaps stays so when an element more
      than the gap above its last is appended. */
  lemma AppendWide(r0: seq<real>, x: real)
    requires StrictlyIncreasing(r0) && WideGaps(r0)
    requires |r0| > 0 && x - r0[|r0| - 1] > MERGE_GAP
    ensures StrictlyIncreasing(r0 + [x]) && WideGaps(r0 + [x])
  {
    var r := r0 + [x];
    forall i, j | 0 <= i < j < |r| ensures r[i] < r[j] {
      if j == |r0| {
        assert r[i] <= r0[|r0| - 1];
      }
    }
  }

  lemma {:induction false} DedupGaps(xs: seq<real>)
    requires Sorted(xs)
    ensures var r := Dedup(xs);
      && StrictlyIncreasing(r) && WideGaps(r)
      && (|xs| > 0 ==> r[|r| - 1] <= xs[|xs| - 1])
  {
    if |xs| > 1 {
      var n := |xs|;
      var init := xs[..n - 1];
      assert Sorted(init);
      DedupGaps(init);
      var r0 := Dedup(init);
      assert r0[|r0| - 1] <= xs[n - 2];
      assert xs[n - 2] <= xs[n - 1];
      if Abs(xs[n - 1] - xs[n - 2]) > MERGE_GAP {
        assert Dedup(xs) == r0 + [xs[n - 1]];
        AppendWide(r0, xs[n - 1]);
      } else {
        assert Dedup(xs) == r0;
      }
    }
  }

  // ---------------------------------------------------------------- spans

  /** The spans of pairs (u[2p], u[2p+1]) for p < m: each clamped to [0, L] and kept when
      longer than EPS. */
  function OddSpans(u: seq<real>, L: real, m: nat): seq<Span>
    requires 2 * m <= |u| && L > 0.0
  {
    if m == 0 then []
    else
      var a := MaxR(0.0, u[2 * m - 2]);
      var b := MinR(L, u[2 * m - 1]);
      OddSpans(u, L, m - 1) + (if b - a > EPS then [Span(a / L, b / L)] else [])
  }

  /** The crossings strictly inside (EPS, L - EPS) among the first k, in order. */
  function InnerCuts(u: seq<real>, L: real, k: nat): seq<real>
    requires k <= |u|
  {
    if k == 0 then []
    else InnerCuts(u, L, k - 1) + (if u[k - 1] > EPS && u[k - 1] < L - EPS then [u[k - 1]] else [])
  }

  function Cuts(u: seq<real>, L: real): (c: seq<real>)
    ensures |c| >= 2
  {
    [0.0] + InnerCuts(u, L, |u|) + [L]
  }

  function Midpoint(P0: Point, dirU: Point, a: real, b: real): Point
  {
    var mid := (a + b) * 0.5;
    Point(P0.x + dirU.x * mid, P0.y + dirU.y * mid)
  }

  /** The depth rule for a sub-interval (a, b): longer than EPS, and its midpoint in a loop. */
  predicate KeepByDepth(loops: seq<seq<Point>>, P0: Point, dirU: Point, a: real, b: real)
  {
    b - a > EPS && Depth(Midpoint(P0, dirU, a, b), loops) >= 1
  }

  /** The sub-intervals (cuts[i], cuts[i+1]), i < k, longer than EPS whose midpoint lies
      in at least one loop. */
  function DepthSpans(loops: seq<seq<Point>>, cuts: seq<real>, P0: Point, dirU: Point, L: real, k: nat): seq<Span>
    requires k < |cuts| && L > 0.0
  {
    if k == 0 then []
    else
      var a := cuts[k - 1];
      var b := cuts[k];
      DepthSpans(loops, cuts, P0, dirU, L, k - 1)
        + (if KeepByDepth(loops, P0, dirU, a, b) then [Span(a / L, b / L)] else [])
  }

  /** `Math.hypot(dx, dy)`, as a given non-negative root. */
  predicate IsLength(L: real, P0: Point, P1: Point)
  {
    L >= 0.0 && L * L == (P1.x - P0.x) * (P1.x - P0.x) + (P1.y - P0.y) * (P1.y - P0.y)
  }

  function UnitDir(P0: Point, P1: Point, L: real): Point
    requires L > 0.0
  {
    Point((P1.x - P0.x) / L, (P1.y - P0.y) / L)
  }

  /** `ClipLine([P0, P1])` over the given (already closed) loops. */
  function ClipSpans(loops: seq<seq<Point>>, style: int, P0: Point, P1: Point, L: real): seq<Span>
    requires IsLength(L, P0, P1)
  {
    if L < EPS then []
    else
      var u := UnitDir(P0, P1, L);
      var xs := AllXs(loops, P0, u, |loops|);
      if |xs| == 0 then [] else SpansOf(loops, style, P0, u, L, Dedup(SortReals(xs)))
  }

  /** The spans chosen from the de-duplicated crossings `uniq`, by the style's rule. */
  function SpansOf(loops: seq<seq<Point>>, style: int, P0: Point, u: Point, L: real, uniq: seq<real>): seq<Span>
    requires L > 0.0
  {
    if style == ODD_PARITY then OddSpans(uniq, L, |uniq| / 2)
    else DepthSpans(loops, Cuts(uniq, L), P0, u, L, |Cuts(uniq, L)| - 1)
  }

  // ---------------------------------------------------------------- span properties

  /** Each span satisfies 0 <= t0 < t1 <= 1, and spans are in order without overlap. */
  predicate WellFormedSpans(spans: seq<Span>)
  {
    && (forall k :: 0 <= k < |spans| ==> 0.0 <= spans[k].t0 < spans[k].t1 <= 1.0)
    && (forall k :: 0 <= k < |spans| - 1 ==> spans[k].t1 <= spans[k + 1].t0)
  }

  /** Appending a span that starts after the last one ends keeps the sequence well formed. */
  lemma AppendSpan(s0: seq<Span>, sp: Span)
    requires WellFormedSpans(s0) && 0.0 <= sp.t0 < sp.t1 <= 1.0
    requires |s0| > 0 ==> s0[|s0| - 1].t1 <= sp.t0
    ensures WellFormedSpans(s0 + [sp])
  {
  }

  lemma ScaledSpan(a: real, b: real, L: real)
    requires L > 0.0 && 0.0 <= a < b <= L
    ensures 0.0 <= a / L < b / L <= 1.0
  {
    assert (a / L) * L == a && (b / L) * L == b;
  }

  lemma ScaledLe(a: real, b: real, L: real)
    requires L > 0.0 && a <= b
    ensures a / L <= b / L
  {
    assert (a / L) * L == a && (b / L) * L == b;
  }

  lemma {:induction false} OddSpansWellFormed(u: seq<real>, L: real, m: nat)
    requires 2 * m <= |u| && L > 0.0 && StrictlyIncreasing(u)
    ensures var s := OddSpans(u, L, m);
      WellFormedSpans(s) && (m > 0 && |s| > 0 ==> s[|s| - 1].t1 <= MaxR(0.0, u[2 * m - 1]) / L)
  {
    if m > 0 {
      OddSpansWellFormed(u, L, m - 1);
      var s0 := OddSpans(u, L, m - 1);
      var a := MaxR(0.0, u[2 * m - 2]);
      var b := MinR(L, u[2 * m - 1]);
      if b - a > EPS {
        ScaledSpan(a, b, L);
        if |s0| > 0 {
          assert u[2 * m - 3] < u[2 * m - 2];
          ScaledLe(MaxR(0.0, u[2 * m - 3]), a, L);
        }
        AppendSpan(s0, Span(a / L, b / L));
        ScaledLe(b, MaxR(0.0, u[2 * m - 1]), L);
        assert OddSpans(u, L, m) == s0 + [Span(a / L, b / L)];
      } else {
        assert OddSpans(u, L, m) == s0;
        if |s0| > 0 {
          assert u[2 * m - 3] < u[2 * m - 1];
          ScaledLe(MaxR(0.0, u[2 * m - 3]), MaxR(0.0, u[2 * m - 1]), L);
        }
      }
    }
  }

  /** The inner cuts keep the crossings' order and lie strictly between 0 and L. */
  lemma {:induction false} InnerCutsSorted(u: seq<real>, L: real, k: nat)
    requires k <= |u| && StrictlyIncreasing(u)
    ensures var c := InnerCuts(u, L, k);
      && Sorted(c)
      && (forall i :: 0 <= i < |c| ==> EPS < c[i] < L - EPS)
      && (|c| > 0 ==> k > 0 && c[|c| - 1] <= u[k - 1])
  {
    if k > 0 {
      InnerCutsSorted(u, L, k - 1);
      var c0 := InnerCuts(u, L, k - 1);
      if |c0| > 0 {
        assert u[k - 2] < u[k - 1];
      }
    }
  }

  lemma CutsSorted(u: seq<real>, L: real)
    requires StrictlyIncreasing(u) && L > 0.0
    ensures var c := Cuts(u, L);
      Sorted(c) && c[0] == 0.0 && c[|c| - 1] == L && forall i :: 0 <= i < |c| ==> 0.0 <= c[i] <= L
  {
    InnerCutsSorted(u, L, |u|);
    var inner := InnerCuts(u, L, |u|);
    var c := Cuts(u, L);
    assert c == [0.0] + inner + [L];
    assert |c| == |inner| + 2;
    forall i | 0 <= i < |c| ensures 0.0 <= c[i] <= L {
      if 0 < i < |c| - 1 {
        assert c[i] == inner[i - 1];
      }
    }
    forall i, j | 0 <= i < j < |c| ensures c[i] <= c[j] {
      if 0 < i && j < |c| - 1 {
        assert c[i] == inner[i - 1] && c[j] == inner[j - 1];
      } else if i == 0 {
        assert c[i] == 0.0;
      } else {
        assert c[j] == L;
      }
    }
  }

  lemma {:induction false} DepthSpansWellFormed(loops: seq<seq<Point>>, cuts: seq<real>, P0: Point, dirU: Point, L: real, k: nat)
    requires k < |cuts| && L > 0.0 && Sorted(cuts) && forall i :: 0 <= i < |cuts| ==> 0.0 <= cuts[i] <= L
    ensures var s := DepthSpans(loops, cuts, P0, dirU, L, k);
      WellFormedSpans(s) && (|s| > 0 ==> s[|s| - 1].t1 <= cuts[k] / L)
  {
    if k > 0 {
      DepthSpansWellFormed(loops, cuts, P0, dirU, L, k - 1);
      var s0 := DepthSpans(loops, cuts, P0, dirU, L, k - 1);
      var a, b := cuts[k - 1], cuts[k];
      ScaledLe(a, b, L);
      if KeepByDepth(loops, P0, dirU, a, b) {
        ScaledSpan(a, b, L);
        AppendSpan(s0, Span(a / L, b / L));
        assert DepthSpans(loops, cuts, P0, dirU, L, k) == s0 + [Span(a / L, b / L)];
      } else {
        assert DepthSpans(loops, cuts, P0, dirU, L, k) == s0;
      }
    }
  }

  /** Every span `ClipLine` returns satisfies 0 <= t0 < t1 <= 1, and the spans are
      ordered and do not overlap; a segment shorter than EPS, or one no edge crosses,
      gives none. */
  lemma SpansOfWellFormed(loops: seq<seq<Point>>, style: int, P0: Point, u: Point, L: real, uniq: seq<real>)
    requires L > 0.0 && StrictlyIncreasing(uniq)
    ensures WellFormedSpans(SpansOf(loops, style, P0, u, L, uniq))
  {
    if style == ODD_PARITY {
      OddSpansWellFormed(uniq, L, |uniq| / 2);
    } else {
      var cuts := Cuts(uniq, L);
      CutsSorted(uniq, L);
      DepthSpansWellFormed(loops, cuts, P0, u, L, |cuts| - 1);
    }
  }

  lemma ClipSpansWellFormed(loops: seq<seq<Point>>, style: int, P0: Point, P1: Point, L: real)
    requires IsLength(L, P0, P1)
    ensures WellFormedSpans(ClipSpans(loops, style, P0, P1, L))
    ensures L < EPS ==> ClipSpans(loops, style, P0, P1, L) == []
    ensures L >= EPS && AllXs(loops, P0, UnitDir(P0, P1, L), |loops|) == [] ==> ClipSpans(loops, style, P0, P1, L) == []
  {
    if L >= EPS {
      var u := UnitDir(P0, P1, L);
      var xs := AllXs(loops, P0, u, |loops|);
      if |xs| > 0 {
        var sorted := SortReals(xs);
        DedupOfSorted(sorted);
        SpansOfWellFormed(loops, style, P0, u, L, Dedup(sorted));
      }
    }
  }

  /** With OUTERMOST and THROUGH_ENTIRE_AREA (and any style other than ODD_PARITY), a
      sub-interval between neighbouring cuts is kept exactly when it is longer than EPS
      and some loop contains its midpoint. */
  lemma {:induction false} DepthSpansKeepInside(loops: seq<seq<Point>>, cuts: seq<real>, P0: Point, dirU: Point, L: real, k: nat)
    requires 0 < k < |cuts| && L > 0.0
    ensures var a := cuts[k - 1]; var b := cuts[k];
      DepthSpans(loops, cuts, P0, dirU, L, k) ==
        DepthSpans(loops, cuts, P0, dirU, L, k - 1)
        + (if b - a > EPS && exists j :: 0 <= j < |loops| && InLoop(Midpoint(P0, dirU, a, b), loops[j])
           then [Span(a / L, b / L)] else [])
  {
    DepthPositive(Midpoint(P0, dirU, cuts[k - 1], cuts[k]), loops);
  }

  // ---------------------------------------------------------------- the calculator

  class HatchCalculator {
    const loops: seq<seq<Point>>
    const style: int

    /** `new HatchCalculator(loops, style)`: `loops || []` with every loop closed, and
        the style defaulting to ODD_PARITY. */
    constructor (input: Option<seq<seq<Point>>>, styleArg: Option<int>)
      ensures loops == CloseLoops(if input.Some? then input.value else [])
      ensures style == (if styleArg.Some? then styleArg.value else ODD_PARITY)
    {
      loops := CloseLoops(if input.Some? then input.value else []);
      style := if styleArg.Some? then styleArg.value else ODD_PARITY;
    }

    /** `_pointInLoop`: the `j = i++` walk toggling `inside` at each crossing edge. */
    method PointInLoop(P: Point, loop: seq<Point>) returns (inside: bool)
      ensures inside == InLoop(P, loop)
    {
      inside := false;
      var i, j := 0, |loop| - 1;
      while i < |loop|
        invariant 0 <= i <= |loop|
        invariant i < |loop| ==> j == Prev(|loop|, i)
        invariant inside == (CrossingCount(P, loop, i) % 2 == 1)
      {
        var yi, yj := loop[i].y, loop[j].y;
        var intersect := ((yi > P.y) != (yj > P.y)) && LeftOfCrossing(P, loop[i], loop[j]);
        if intersect {
          inside := !inside;
        }
        j, i := i, i + 1;
      }
    }

    /** `_depthAt`: how many loops contain P. */
    method DepthAt(P: Point) returns (count: nat)
      ensures count == Depth(P, loops)
      ensures count <= |loops|
    {
      count := 0;
      var k := 0;
      while k < |loops|
        invariant 0 <= k <= |loops|
        invariant count == Depth(P, loops[..k])
      {
        var inside := PointInLoop(P, loops[k]);
        if inside {
          count := count + 1;
        }
        assert loops[..k + 1][..k] == loops[..k];
        k := k + 1;
      }
      assert loops[..k] == loops;
    }

    /** The crossings of all loops' edges with the line, in loop and edge order. */
    method GatherCrossings(P0: Point, dirU: Point) returns (xs: seq<real>)
      ensures xs == AllXs(loops, P0, dirU, |loops|)
    {
      xs := [];
      var li := 0;
      while li < |loops|
        invariant 0 <= li <= |loops|
        invariant xs == AllXs(loops, P0, dirU, li)
      {
        var more := LoopCrossings(loops[li], P0, dirU);
        xs := xs + more;
        li := li + 1;
      }
    }

    /** The crossings of one loop's edges with the line, in edge order. */
    static method LoopCrossings(loop: seq<Point>, P0: Point, dirU: Point) returns (xs: seq<real>)
      ensures xs == EdgeXs(loop, P0, dirU, NumEdges(loop))
    {
      xs := [];
      var i := 0;
      while i + 1 < |loop|
        invariant 0 <= i <= NumEdges(loop)
        invariant xs == EdgeXs(loop, P0, dirU, i)
      {
        var A, B := ToLine(loop[i], P0, dirU), ToLine(loop[i + 1], P0, dirU);
        var dy := B.y - A.y;
        if Abs(dy) >= EPS && ((A.y <= 0.0 && 0.0 < B.y) || (B.y <= 0.0 && 0.0 < A.y)) {
          var t := (0.0 - A.y) / dy;
          var x := Lerp(A.x, B.x, t);
          xs := xs + [x];
        } else {
          assert EdgeCrossing(A, B) == None;
        }
        assert EdgeXs(loop, P0, dirU, i + 1) == EdgeXs(loop, P0, dirU, i) + OptionSeq(EdgeCrossing(A, B));
        i := i + 1;
      }
    }

    /** The `last`/`uniq` pass over the sorted crossings. */
    static method DedupSorted(xs: seq<real>) returns (uniq: seq<real>)
      ensures uniq == Dedup(xs)
    {
      uniq := [];
      var last: Option<real> := None;
      var k := 0;
      while k < |xs|
        invariant 0 <= k <= |xs|
        invariant uniq == Dedup(xs[..k])
        invariant last == (if k == 0 then None else Some(xs[k - 1]))
      {
        var x := xs[k];
        if last.None? || Abs(x - last.value) > MERGE_GAP {
          uniq := uniq + [x];
        }
        last := Some(x);
        assert xs[..k + 1][..k] == xs[..k];
        k := k + 1;
      }
      assert xs[..k] == xs;
    }

    /** ODD_PARITY: pairs (0,1), (2,3), ... clamped to [x0, x1]. */
    static method PairSpans(uniq: seq<real>, x0: real, x1: real) returns (spans: seq<Span>)
      requires x0 == 0.0 && x1 > 0.0
      ensures spans == OddSpans(uniq, x1, |uniq| / 2)
    {
      spans := [];
      var i := 0;
      while i + 1 < |uniq|
        invariant 0 <= i <= |uniq| && i % 2 == 0
        invariant spans == OddSpans(uniq, x1, i / 2)
      {
        var a := MaxR(x0, uniq[i]);
        var b := MinR(x1, uniq[i + 1]);
        if b - a > EPS {
          spans := spans + [Span((a - x0) / (x1 - x0), (b - x0) / (x1 - x0))];
        }
        i := i + 2;
      }
    }

    /** OUTERMOST / THROUGH_ENTIRE_AREA: the cut points, then each sub-interval judged by
        the depth at its midpoint. Both styles use the same test, depth >= 1. */
    method DepthRuleSpans(uniq: seq<real>, P0: Point, dirU: Point, x0: real, x1: real) returns (spans: seq<Span>)
      requires x0 == 0.0 && x1 > 0.0
      ensures spans == DepthSpans(loops, Cuts(uniq, x1), P0, dirU, x1, |Cuts(uniq, x1)| - 1)
    {
      var cuts := CutPoints(uniq, x0, x1);
      spans := DepthTest(cuts, P0, dirU, x0, x1);
    }

    /** The cut points: 0, the crossings strictly inside (EPS, L - EPS), then L. */
    method CutPoints(uniq: seq<real>, x0: real, x1: real) returns (cuts: seq<real>)
      requires x0 == 0.0
      ensures cuts == Cuts(uniq, x1)
    {
      cuts := [x0];
      var k := 0;
      while k < |uniq|
        invariant 0 <= k <= |uniq|
        invariant cuts == [0.0] + InnerCuts(uniq, x1, k)
      {
        var x := uniq[k];
        if x > x0 + EPS && x < x1 - EPS {
          cuts := cuts + [x];
        }
        k := k + 1;
      }
      cuts := cuts + [x1];
    }

    /** Each sub-interval between neighbouring cut points, kept by the depth at its
        midpoint. */
    method DepthTest(cuts: seq<real>, P0: Point, dirU: Point, x0: real, x1: real) returns (spans: seq<Span>)
      requires x0 == 0.0 && x1 > 0.0 && |cuts| >= 1
      ensures spans == DepthSpans(loops, cuts, P0, dirU, x1, |cuts| - 1)
    {
      spans := [];
      var i := 0;
      while i + 1 < |cuts|
        invariant 0 <= i < |cuts|
        invariant spans == DepthSpans(loops, cuts, P0, dirU, x1, i)
      {
        var a, b := cuts[i], cuts[i + 1];
        if b - a > EPS {
          var M := Midpoint(P0, dirU, a, b);
          var depth := DepthAt(M);
          var inside := depth >= 1;
          assert inside == KeepByDepth(loops, P0, dirU, a, b);
          if inside {
            assert (a - x0) / (x1 - x0) == a / x1 && (b - x0) / (x1 - x0) == b / x1;
            spans := spans + [Span((a - x0) / (x1 - x0), (b - x0) / (x1 - x0))];
          }
        }
        else {
          assert !KeepByDepth(loops, P0, dirU, a, b);
        }
        i := i + 1;
      }
    }

    /** `ClipLine([P0, P1])`, with `L` the segment's length. */
    method ClipLine(P0: Point, P1: Point, L: real) returns (spans: seq<Span>)
      requires IsLength(L, P0, P1)
      ensures spans == ClipSpans(loops, style, P0, P1, L)
      ensures WellFormedSpans(spans)
    {
      ClipSpansWellFormed(loops, style, P0, P1, L);
      if L < EPS {
        return [];
      }
      var dirU := UnitDir(P0, P1, L);
      var x0, x1 := 0.0, L;
      var xs := GatherCrossings(P0, dirU);
      if |xs| == 0 {
        return [];
      }
      var sorted := SortReals(xs);
      var uniq := DedupSorted(sorted);
      if style == ODD_PARITY {
        spans := PairSpans(uniq, x0, x1);
        return;
      }
      spans := DepthRuleSpans(uniq, P0, dirU, x0, x1);
    }
  }
}
