/** The monotone-chain loop that finds one side of a convex hull. */
module Hull {
  import opened Options

  datatype Point = Point(x: real, y: real)

  /** Positive when `a`, `b`, `c` turn left (counter-clockwise, y up). */
  function Cross(a: Point, b: Point, c: Point): real {
    (b.x - a.x) * (c.y - a.y) - (b.y - a.y) * (c.x - a.x)
  }

  /** Later in the order that the caller sorts by: by x, and equal x by ascending y, or by
      descending y for the flipped points of the other side. */
  predicate Before(a: Point, b: Point, ascending: bool) {
    a.x < b.x || (a.x == b.x && if ascending then a.y < b.y else a.y > b.y)
  }

  predicate AtMost(a: Point, b: Point, ascending: bool) {
    a == b || Before(a, b, ascending)
  }

  /** Points may repeat. */
  predicate Sorted(points: seq<Point>, ascending: bool) {
    forall i, j :: 0 <= i < j < |points| ==> AtMost(points[i], points[j], ascending)
  }

  predicate Indexes(points: seq<Point>, chain: seq<nat>) {
    forall k :: 0 <= k < |chain| ==> chain[k] < |points|
  }

  predicate Increasing(chain: seq<nat>) {
    forall j, k :: 0 <= j < k < |chain| ==> chain[j] < chain[k]
  }

  predicate LeftAt(points: seq<Point>, chain: seq<nat>, k: nat)
    requires Indexes(points, chain) && k + 2 < |chain|
  {
    Cross(points[chain[k]], points[chain[k + 1]], points[chain[k + 2]]) > 0.0
  }

  predicate Sees(points: seq<Point>, chain: seq<nat>, k: nat, p: nat)
    requires Indexes(points, chain) && k + 1 < |chain| && p < |points|
  {
    Cross(points[chain[k]], points[chain[k + 1]], points[p]) >= 0.0
  }

  /** Every three consecutive points of the chain turn strictly left. */
  predicate TurnsLeft(points: seq<Point>, chain: seq<nat>)
    requires Indexes(points, chain)
  {
    forall k: nat :: k + 2 < |chain| ==> LeftAt(points, chain, k)
  }

  /** The first `n` points are on or to the left of the line through every edge of the chain. */
  predicate Supports(points: seq<Point>, chain: seq<nat>, n: nat)
    requires Indexes(points, chain) && n <= |points|
  {
    forall k: nat, p: nat :: k + 1 < |chain| && p < n ==> Sees(points, chain, k, p)
  }

  function Wedge(u: Point, v: Point): real {
    u.x * v.y - u.y * v.x
  }

  predicate Forward(u: Point, asc: bool) {
    Before(Point(0.0, 0.0), u, asc)
  }

  /** Going left from `u` to `v` and from `v` to `w` is going left from `u` to `w`, for
      directions in one half-plane. */
  lemma LeftIsTransitive(u: Point, v: Point, w: Point, asc: bool)
    requires Forward(u, asc) && Forward(v, asc) && Forward(w, asc)
    requires Wedge(u, v) >= 0.0 && Wedge(v, w) >= 0.0
    ensures Wedge(u, w) >= 0.0
    ensures Wedge(u, v) > 0.0 && Wedge(v, w) > 0.0 ==> Wedge(u, w) > 0.0
  {
    hide Wedge;
    if v.x > 0.0 {
      Passed(u, v, w);
      PassedSigns(Wedge(u, v), Wedge(v, w), Wedge(u, w), u.x, v.x, w.x);
      if u.x == 0.0 && w.x == 0.0 { UprightSides(u, v, w, asc); }
    } else {
      UprightMiddle(u, v, w, asc);
    }
  }

  lemma Passed(u: Point, v: Point, w: Point)
    ensures Wedge(u, w) * v.x == Wedge(u, v) * w.x + Wedge(v, w) * u.x
  {
  }

  lemma PassedSigns(uv: real, vw: real, uw: real, ux: real, vx: real, wx: real)
    requires uw * vx == uv * wx + vw * ux && uv >= 0.0 && vw >= 0.0 && ux >= 0.0 && vx > 0.0 && wx >= 0.0
    ensures uw >= 0.0 && (uv > 0.0 && vw > 0.0 && (ux > 0.0 || wx > 0.0) ==> uw > 0.0)
  {
    Signs(uv, wx);
    Signs(vw, ux);
    Signs(-uw, vx);
  }

  lemma UprightSides(u: Point, v: Point, w: Point, asc: bool)
    requires Forward(u, asc) && Forward(w, asc) && u.x == 0.0 && v.x > 0.0 && w.x == 0.0
    ensures Wedge(u, v) <= 0.0 || Wedge(v, w) <= 0.0
  {
    if asc { Signs(u.y, v.x); } else { Signs(v.x, -w.y); }
  }

  lemma UprightMiddle(u: Point, v: Point, w: Point, asc: bool)
    requires Forward(u, asc) && Forward(v, asc) && Forward(w, asc) && v.x == 0.0
    requires Wedge(u, v) >= 0.0 && Wedge(v, w) >= 0.0
    ensures Wedge(u, w) >= 0.0
    ensures Wedge(u, v) > 0.0 && Wedge(v, w) > 0.0 ==> Wedge(u, w) > 0.0
  {
    assert Wedge(u, v) == u.x * v.y && Wedge(v, w) == -v.y * w.x;
    Signs(v.y, w.x);
    Signs(-v.y, u.x);
    Signs(u.x, w.y);
    Signs(-u.y, w.x);
  }

  lemma Signs(a: real, b: real)
    ensures a > 0.0 && b > 0.0 ==> a * b > 0.0
    ensures a >= 0.0 && b >= 0.0 ==> a * b >= 0.0
  {
  }

  function To(a: Point, b: Point): Point {
    Point(b.x - a.x, b.y - a.y)
  }

  lemma OnTheEdge(a: Point, b: Point)
    ensures Cross(a, b, a) == 0.0 && Cross(a, b, b) == 0.0 && Cross(a, a, b) == 0.0
  {
  }

  /** Once `b` is dropped because `a`, `b`, `i` do not turn left, what was left of a-b is left of a-i. */
  lemma DroppedPoint(a: Point, b: Point, i: Point, p: Point, asc: bool)
    requires AtMost(a, b, asc) && AtMost(a, i, asc) && AtMost(a, p, asc) && a != b
    requires Cross(a, b, p) >= 0.0 && Cross(a, b, i) <= 0.0
    ensures Cross(a, i, p) >= 0.0
  {
    OnTheEdge(a, i);
    OnTheEdge(a, p);
    if i == a || p == a { return; }
    var u, v, w := To(a, i), To(a, b), To(a, p);
    assert u.x * v.y - u.y * v.x == -Cross(a, b, i);
    LeftIsTransitive(u, v, w, asc);
  }

  /** An edge of a left-turning chain sees what the next edge sees. */
  lemma NextEdge(c: Point, d: Point, e: Point, i: Point, asc: bool)
    requires AtMost(c, d, asc) && AtMost(d, e, asc) && AtMost(d, i, asc)
    requires Cross(c, d, e) > 0.0 && Cross(d, e, i) > 0.0
    ensures Cross(c, d, i) > 0.0
  {
    OnTheEdge(c, e);
    OnTheEdge(d, i);
    OnTheEdge(d, e);
    var u, v, w := To(c, d), To(d, e), To(d, i);
    assert u.x * v.y - u.y * v.x == Cross(c, d, e);
    assert u.x * w.y - u.y * w.x == Cross(c, d, i);
    LeftIsTransitive(u, v, w, asc);
  }

  /** Points before `a` are left of a-i when they are left of the edge z-a before it. */
  lemma EarlierPoint(z: Point, a: Point, i: Point, p: Point, asc: bool)
    requires AtMost(z, a, asc) && AtMost(a, i, asc) && AtMost(p, a, asc)
    requires Cross(z, a, p) >= 0.0 && Cross(z, a, i) > 0.0
    ensures Cross(a, i, p) >= 0.0
  {
    OnTheEdge(a, i);
    OnTheEdge(z, a);
    if p == a { return; }
    var u, v, w := To(p, a), To(z, a), To(a, i);
    assert u.x * v.y - u.y * v.x == Cross(z, a, p);
    assert v.x * w.y - v.y * w.x == Cross(z, a, i);
    assert u.x * w.y - u.y * w.x == Cross(a, i, p);
    LeftIsTransitive(u, v, w, asc);
  }

  lemma {:induction false} ChainSeesLast(points: seq<Point>, chain: seq<nat>, k: nat, asc: bool)
    requires Sorted(points, asc) && Indexes(points, chain) && Increasing(chain) && TurnsLeft(points, chain)
    requires k + 2 < |chain|
    ensures Cross(points[chain[k]], points[chain[k + 1]], points[chain[|chain| - 1]]) > 0.0
    decreases |chain| - k
  {
    assert LeftAt(points, chain, k);
    if k + 3 < |chain| {
      ChainSeesLast(points, chain, k + 1, asc);
      NextEdge(points[chain[k]], points[chain[k + 1]], points[chain[k + 2]], points[chain[|chain| - 1]], asc);
    }
  }

  /** The points between the top of the chain and `i` are on or left of the line from one to the other. */
  predicate Covered(points: seq<Point>, top: nat, i: nat)
    requires top < |points| && i < |points|
  {
    forall p :: top < p < i ==> Cross(points[top], points[i], points[p]) >= 0.0
  }

  /** A left-turning chain from the first point that supports the first `n` points. */
  predicate Chain(points: seq<Point>, chain: seq<nat>, n: nat) {
    && n <= |points| && chain != [] && chain[0] == 0 && chain[|chain| - 1] < n
    && Increasing(chain) && Indexes(points, chain)
    && TurnsLeft(points, chain) && Supports(points, chain, n)
  }

  lemma StartChain(points: seq<Point>)
    requires |points| >= 2
    ensures Chain(points, [0, 1], 2)
  {
    hide Cross;
    OnTheEdge(points[0], points[1]);
  }

  lemma Between(points: seq<Point>, a: nat, p: nat, b: nat, asc: bool)
    requires Sorted(points, asc) && a < p <= b < |points| && points[a] == points[b]
    ensures points[p] == points[a]
  {
    assert AtMost(points[a], points[p], asc) && (p < b ==> AtMost(points[p], points[b], asc));
  }

  lemma PopChain(points: seq<Point>, chain: seq<nat>, i: nat, asc: bool)
    requires Sorted(points, asc) && i < |points| && Chain(points, chain, i) && |chain| > 1
    requires Covered(points, chain[|chain| - 1], i)
    requires Cross(points[chain[|chain| - 2]], points[chain[|chain| - 1]], points[i]) <= 0.0
    ensures Chain(points, chain[..|chain| - 1], i) && Covered(points, chain[|chain| - 2], i)
  {
    hide Cross;
    var a, b, popped := chain[|chain| - 2], chain[|chain| - 1], chain[..|chain| - 1];
    forall k: nat | k + 2 < |popped| ensures LeftAt(points, popped, k) {
      assert LeftAt(points, chain, k);
    }
    forall k: nat, p: nat | k + 1 < |popped| && p < i ensures Sees(points, popped, k, p) {
      assert Sees(points, chain, k, p);
    }
    forall p | a < p < i
      ensures Cross(points[a], points[i], points[p]) >= 0.0
    {
      assert Sees(points, chain, |chain| - 2, p);
      if points[a] != points[b] {
        DroppedPoint(points[a], points[b], points[i], points[p], asc);
      } else if p <= b {
        assert points[p] == points[a] by { Between(points, a, p, b, asc); }
        OnTheEdge(points[a], points[i]);
      }
    }
  }

  /** What the new edge sees of the points before its start. */
  lemma NewEdgeSeesEarlier(points: seq<Point>, chain: seq<nat>, i: nat, p: nat, asc: bool)
    requires Sorted(points, asc) && i < |points| && Chain(points, chain, i)
    requires |chain| > 1 ==> Cross(points[chain[|chain| - 2]], points[chain[|chain| - 1]], points[i]) > 0.0
    requires p < chain[|chain| - 1]
    ensures Cross(points[chain[|chain| - 1]], points[i], points[p]) >= 0.0
  {
    hide Cross;
    var k := |chain| - 2;
    assert Sees(points, chain, k, p);
    EarlierPoint(points[chain[k]], points[chain[k + 1]], points[i], points[p], asc);
  }

  lemma NewEdgeSees(points: seq<Point>, chain: seq<nat>, i: nat, p: nat, asc: bool)
    requires Sorted(points, asc) && i < |points| && Chain(points, chain, i)
    requires |chain| > 1 ==> Cross(points[chain[|chain| - 2]], points[chain[|chain| - 1]], points[i]) > 0.0
    requires Covered(points, chain[|chain| - 1], i) && p <= i
    ensures Cross(points[chain[|chain| - 1]], points[i], points[p]) >= 0.0
  {
    hide Cross;
    var top := chain[|chain| - 1];
    OnTheEdge(points[top], points[i]);
    if p < top { NewEdgeSeesEarlier(points, chain, i, p, asc); }
  }

  lemma OldEdgesSee(points: seq<Point>, chain: seq<nat>, i: nat, k: nat, asc: bool)
    requires Sorted(points, asc) && i < |points| && Chain(points, chain, i)
    requires |chain| > 1 ==> Cross(points[chain[|chain| - 2]], points[chain[|chain| - 1]], points[i]) > 0.0
    requires k < |chain| - 1
    ensures Cross(points[chain[k]], points[chain[k + 1]], points[i]) >= 0.0
  {
    hide Cross;
    PushTurnsLeft(points, chain, i);
    var chain1 := chain + [i];
    if k + 2 < |chain1| { ChainSeesLast(points, chain1, k, asc); }
  }

  lemma PushTurnsLeft(points: seq<Point>, chain: seq<nat>, i: nat)
    requires i < |points| && Chain(points, chain, i)
    requires |chain| > 1 ==> Cross(points[chain[|chain| - 2]], points[chain[|chain| - 1]], points[i]) > 0.0
    ensures Indexes(points, chain + [i]) && Increasing(chain + [i]) && TurnsLeft(points, chain + [i])
  {
    hide Cross;
    var chain1 := chain + [i];
    forall k: nat | k + 2 < |chain1|
      ensures LeftAt(points, chain1, k)
    {
      if k + 2 < |chain| { assert LeftAt(points, chain, k); }
    }
  }

  lemma PushChain(points: seq<Point>, chain: seq<nat>, i: nat, asc: bool)
    requires Sorted(points, asc) && i < |points| && Chain(points, chain, i)
    requires |chain| > 1 ==> Cross(points[chain[|chain| - 2]], points[chain[|chain| - 1]], points[i]) > 0.0
    requires Covered(points, chain[|chain| - 1], i)
    ensures Chain(points, chain + [i], i + 1)
  {
    hide Cross;
    var chain1 := chain + [i];
    PushTurnsLeft(points, chain, i);
    forall k: nat, p: nat | k + 1 < |chain1| && p < i + 1
      ensures Sees(points, chain1, k, p)
    {
      if k == |chain| - 1 {
        NewEdgeSees(points, chain, i, p, asc);
      } else if p == i {
        OldEdgesSee(points, chain, i, k, asc);
      } else {
        assert Sees(points, chain, k, p);
      }
    }
  }

  /** The indexes of one side of the hull, from the first point to the last: the chain turns
      strictly left, and no point lies to the right of any of its edges. */
  method ComputeUpperHullIndexes(points: seq<Point>, ghost asc: bool) returns (chain: seq<nat>)
    requires |points| >= 2 && Sorted(points, asc)
    ensures Indexes(points, chain) && Increasing(chain)
    ensures |chain| >= 2 && chain[0] == 0 && chain[|chain| - 1] == |points| - 1
    ensures TurnsLeft(points, chain)
    ensures Supports(points, chain, |points|)
  {
    hide Cross, TurnsLeft, Supports, Covered, Increasing, Sorted;
    var n := |points|;
    var indexes := new nat[n](_ => 0);
    indexes[0], indexes[1] := 0, 1;
    var size := 2;
    var i := 2;
    assert indexes[..2] == [0, 1];
    StartChain(points);
    while i < n
      invariant 2 <= i <= n && 2 <= size <= i
      invariant Chain(points, indexes[..size], i) && indexes[size - 1] == i - 1
    {
      NothingBetween(points, i);
      while size > 1 && Cross(points[indexes[size - 2]], points[indexes[size - 1]], points[i]) <= 0.0
        invariant 1 <= size <= i
        invariant Chain(points, indexes[..size], i) && Covered(points, indexes[size - 1], i)
      {
        ghost var before := indexes[..size];
        PopChain(points, before, i, asc);
        size := size - 1;
        assert indexes[..size] == before[..size];
      }
      ghost var top := indexes[..size];
      PushChain(points, top, i, asc);
      indexes[size] := i;
      size := size + 1;
      assert indexes[..size] == top + [i];
      i := i + 1;
    }
    chain := indexes[..size];
  }

  lemma NothingBetween(points: seq<Point>, i: nat)
    requires 0 < i < |points|
    ensures Covered(points, i - 1, i)
  {
  }

  // The polygon of both sides

  function Flip(p: Point): Point {
    Point(p.x, -p.y)
  }

  function Flipped(points: seq<Point>): (r: seq<Point>)
    ensures |r| == |points| && forall i :: 0 <= i < |points| ==> r[i] == Flip(points[i])
  {
    seq(|points|, i requires 0 <= i < |points| => Flip(points[i]))
  }

  lemma CrossFlipped(a: Point, b: Point, c: Point)
    ensures Cross(Flip(a), Flip(b), Flip(c)) == -Cross(a, b, c)
  {
  }

  lemma FlippedSorted(points: seq<Point>)
    requires Sorted(points, true)
    ensures Sorted(Flipped(points), false)
  {
    forall i, j | 0 <= i < j < |points|
      ensures AtMost(Flipped(points)[i], Flipped(points)[j], false)
    {
      assert AtMost(points[i], points[j], true);
    }
  }

  /** All points lie on one line, or on one another. */
  ghost predicate Collinear(points: seq<Point>) {
    forall p, q, r :: p in points && q in points && r in points ==> Cross(p, q, r) == 0.0
  }

  /** The next position on a closed polygon. */
  function After(k: nat, m: nat): (r: nat)
    requires k < m
    ensures r < m
  {
    if k + 1 < m then k + 1 else 0
  }

  /** No point lies to the left of an edge, going round. */
  ghost predicate Encloses(points: seq<Point>, hull: seq<nat>)
    requires Indexes(points, hull)
  {
    forall k: nat, p :: k < |hull| && p in points ==> RightOf(points, hull, k, p)
  }

  predicate RightOf(points: seq<Point>, hull: seq<nat>, k: nat, p: Point)
    requires Indexes(points, hull) && k < |hull|
  {
    Cross(points[hull[k]], points[hull[After(k, |hull|)]], p) <= 0.0
  }

  /** Every corner turns strictly right. */
  ghost predicate Convex(points: seq<Point>, hull: seq<nat>)
    requires Indexes(points, hull)
  {
    forall k: nat :: k < |hull| ==> RightAt(points, hull, k)
  }

  predicate RightAt(points: seq<Point>, hull: seq<nat>, k: nat)
    requires Indexes(points, hull) && k < |hull|
  {
    var k1 := After(k, |hull|);
    Cross(points[hull[k]], points[hull[k1]], points[hull[After(k1, |hull|)]]) < 0.0
  }

  /** One side, as the loop above leaves it. */
  ghost predicate Side(points: seq<Point>, chain: seq<nat>) {
    && Indexes(points, chain) && |chain| >= 2 && chain[0] == 0 && chain[|chain| - 1] == |points| - 1
    && Increasing(chain) && TurnsLeft(points, chain) && Supports(points, chain, |points|)
  }

  function Reversed(s: seq<nat>): (r: seq<nat>)
    ensures |r| == |s| && forall i :: 0 <= i < |s| ==> r[i] == s[|s| - 1 - i]
  {
    seq(|s|, i requires 0 <= i < |s| => s[|s| - 1 - i])
  }

  /** The upper side from right to left, then the inner part of the lower side from left to right. */
  function Joined(upper: seq<nat>, lower: seq<nat>): seq<nat>
    requires |upper| >= 2 && |lower| >= 2
  {
    Reversed(upper) + lower[1..|lower| - 1]
  }

  /** The polygon runs along the upper side up to position `|upper| - 1`, and from there along the lower. */
  lemma Along(points: seq<Point>, upper: seq<nat>, lower: seq<nat>, k: nat)
    requires Side(points, upper) && Side(Flipped(points), lower) && k < |upper| + |lower| - 2
    ensures var h := Joined(upper, lower);
            var k1 := After(k, |h|);
            && |h| == |upper| + |lower| - 2
            && (k < |upper| - 1 ==> h[k] == upper[|upper| - 1 - k] && h[k1] == upper[|upper| - 2 - k])
            && (k >= |upper| - 1 ==> h[k] == lower[k + 1 - |upper|] && h[k1] == lower[k + 2 - |upper|])
  {
    hide TurnsLeft, Supports, Increasing;
  }

  lemma JoinedIndexes(points: seq<Point>, upper: seq<nat>, lower: seq<nat>)
    requires Side(points, upper) && Side(Flipped(points), lower)
    ensures Indexes(points, Joined(upper, lower))
  {
    hide TurnsLeft, Supports, Increasing;
    var h := Joined(upper, lower);
    forall k | 0 <= k < |h| ensures h[k] < |points| {
      Along(points, upper, lower, k);
    }
  }

  lemma Turned(a: Point, b: Point, c: Point)
    ensures Cross(b, a, c) == -Cross(a, b, c) && Cross(c, b, a) == -Cross(a, b, c) && Cross(b, c, a) == Cross(a, b, c)
  {
  }

  lemma LowerSees(points: seq<Point>, lower: seq<nat>, j: nat, p: nat)
    requires Side(Flipped(points), lower) && j + 1 < |lower| && p < |points|
    ensures Cross(points[lower[j]], points[lower[j + 1]], points[p]) <= 0.0
  {
    assert Sees(Flipped(points), lower, j, p);
    CrossFlipped(points[lower[j]], points[lower[j + 1]], points[p]);
  }

  lemma UpperSees(points: seq<Point>, upper: seq<nat>, j: nat, p: nat)
    requires Side(points, upper) && j + 1 < |upper| && p < |points|
    ensures Cross(points[upper[j]], points[upper[j + 1]], points[p]) >= 0.0
  {
    assert Sees(points, upper, j, p);
  }

  lemma JoinedEncloses(points: seq<Point>, upper: seq<nat>, lower: seq<nat>)
    requires Side(points, upper) && Side(Flipped(points), lower)
    ensures Indexes(points, Joined(upper, lower)) && Encloses(points, Joined(upper, lower))
  {
    JoinedIndexes(points, upper, lower);
    var h := Joined(upper, lower);
    hide Cross, Side, Joined;
    forall k: nat, p | k < |h| && p in points ensures RightOf(points, h, k, p) {
      var i: nat :| i < |points| && points[i] == p;
      EdgeSees(points, upper, lower, k, i);
    }
  }

  lemma EdgeSees(points: seq<Point>, upper: seq<nat>, lower: seq<nat>, k: nat, i: nat)
    requires Side(points, upper) && Side(Flipped(points), lower) && i < |points|
    requires Indexes(points, Joined(upper, lower)) && k < |Joined(upper, lower)|
    ensures RightOf(points, Joined(upper, lower), k, points[i])
  {
    hide Cross, TurnsLeft, Supports, Increasing;
    Along(points, upper, lower, k);
    if k < |upper| - 1 {
      var j := |upper| - 2 - k;
      UpperSees(points, upper, j, i);
      Turned(points[upper[j]], points[upper[j + 1]], points[i]);
    } else {
      LowerSees(points, lower, k + 1 - |upper|, i);
    }
  }

  // The corners

  /** What is left of one direction and right of a parallel one lies on the line. */
  lemma BetweenParallels(d: Point, e: Point, w: Point)
    requires Forward(d, true) && Forward(e, true) && Wedge(d, e) == 0.0
    requires Wedge(d, w) >= 0.0 && Wedge(e, w) <= 0.0
    ensures Wedge(d, w) == 0.0
  {
    hide Wedge;
    if d.x > 0.0 {
      BothSlanted(d, e);
      Scaled(d, e, w);
      ScaledSigns(d.x, e.x, Wedge(d, w), Wedge(e, w));
    } else {
      BothUpright(d, e, w);
    }
  }

  lemma BothSlanted(d: Point, e: Point)
    requires Forward(e, true) && Wedge(d, e) == 0.0 && d.x > 0.0
    ensures e.x > 0.0
  {
    Signs(d.x, e.y);
    assert e.x == 0.0 ==> d.y * e.x == 0.0;
  }

  lemma Scaled(d: Point, e: Point, w: Point)
    requires Wedge(d, e) == 0.0
    ensures d.x * Wedge(e, w) == e.x * Wedge(d, w)
  {
    assert d.x * Wedge(e, w) == e.x * Wedge(d, w) + Wedge(d, e) * -w.x;
  }

  lemma ScaledSigns(dx: real, ex: real, dw: real, ew: real)
    requires dx > 0.0 && ex > 0.0 && dx * ew == ex * dw && dw >= 0.0 && ew <= 0.0
    ensures dw == 0.0
  {
    Signs(ex, dw);
    Signs(dx, -ew);
  }

  lemma BothUpright(d: Point, e: Point, w: Point)
    requires Forward(d, true) && Forward(e, true) && Wedge(d, e) == 0.0 && d.x == 0.0
    requires Wedge(d, w) >= 0.0 && Wedge(e, w) <= 0.0
    ensures Wedge(d, w) == 0.0
  {
    assert d.y > 0.0 && Wedge(d, e) == -(d.y * e.x);
    Signs(d.y, e.x);
    assert e.x == 0.0 && e.y > 0.0;
    assert Wedge(d, w) == -(d.y * w.x) && Wedge(e, w) == -(e.y * w.x);
    Signs(d.y, w.x);
    Signs(e.y, -w.x);
  }

  /** Two vectors along a third one are along each other. */
  lemma Parallel(d: Point, v: Point, w: Point)
    requires Forward(d, true) && Wedge(d, v) == 0.0 && Wedge(d, w) == 0.0
    ensures Wedge(v, w) == 0.0
  {
    assert d.x * Wedge(v, w) == v.x * Wedge(d, w) - w.x * Wedge(d, v);
    assert d.y * Wedge(v, w) == v.y * Wedge(d, w) - w.y * Wedge(d, v);
    if d.x > 0.0 { Signs(d.x, Wedge(v, w)); Signs(d.x, -Wedge(v, w)); } else { Signs(d.y, Wedge(v, w)); Signs(d.y, -Wedge(v, w)); }
  }

  lemma CrossIsWedge(a: Point, b: Point, c: Point)
    ensures Cross(a, b, c) == Wedge(To(a, b), To(a, c)) == Wedge(To(a, b), To(b, c))
  {
  }

  /** Points on the line through two different ones are collinear. */
  lemma OnOneLine(points: seq<Point>, a: Point, b: Point)
    requires Before(a, b, true) && forall p :: p in points ==> Cross(a, b, p) == 0.0
    ensures Collinear(points)
  {
    forall p, q, r | p in points && q in points && r in points
      ensures Cross(p, q, r) == 0.0
    {
      var d := To(a, b);
      SameLine(a, b, p, q);
      SameLine(a, b, p, r);
      Parallel(d, To(p, q), To(p, r));
      CrossIsWedge(p, q, r);
    }
  }

  lemma SameLine(a: Point, b: Point, p: Point, q: Point)
    requires Cross(a, b, p) == 0.0 && Cross(a, b, q) == 0.0
    ensures Wedge(To(a, b), To(p, q)) == 0.0
  {
    assert Wedge(To(a, b), To(p, q)) == Cross(a, b, q) - Cross(a, b, p);
  }

  lemma LeftCorner(points: seq<Point>, o: Point, u: Point, l: Point)
    requires Before(o, u, true) && Before(o, l, true) && u in points
    requires forall p :: p in points ==> Cross(o, u, p) >= 0.0 && Cross(o, l, p) <= 0.0
    ensures Cross(u, o, l) < 0.0 || Collinear(points)
  {
    Turned(o, l, u);
    Turned(u, o, l);
    Turned(o, u, l);
    if Cross(o, l, u) == 0.0 {
      forall p | p in points ensures Cross(o, u, p) == 0.0 {
        CrossIsWedge(o, u, l);
        CrossIsWedge(o, u, p);
        CrossIsWedge(o, l, p);
        hide Wedge, Cross;
        BetweenParallels(To(o, u), To(o, l), To(o, p));
      }
      OnOneLine(points, o, u);
    }
  }

  lemma RightCorner(points: seq<Point>, z: Point, u: Point, l: Point)
    requires Before(u, z, true) && Before(l, z, true) && u in points
    requires forall p :: p in points ==> Cross(u, z, p) >= 0.0 && Cross(l, z, p) <= 0.0
    ensures Cross(l, z, u) < 0.0 || Collinear(points)
  {
    if Cross(l, z, u) == 0.0 {
      assert Wedge(To(u, z), To(l, z)) == Cross(l, z, u);
      forall p | p in points ensures Cross(u, z, p) == 0.0 {
        CrossIsWedge(u, z, p);
        CrossIsWedge(l, z, p);
        hide Wedge, Cross;
        BetweenParallels(To(u, z), To(l, z), To(z, p));
      }
      OnOneLine(points, u, z);
    }
  }

  lemma AllTheSame(points: seq<Point>, asc: bool)
    requires Sorted(points, asc) && points != [] && points[0] == points[|points| - 1]
    ensures forall i :: 0 <= i < |points| ==> points[i] == points[0]
  {
    forall i | 0 <= i < |points| ensures points[i] == points[0] {
      if 0 < i { Between(points, 0, i, |points| - 1, asc); }
    }
  }

  /** An edge goes somewhere, unless all points are one. */
  lemma EdgeMoves(points: seq<Point>, chain: seq<nat>, asc: bool, k: nat)
    requires Sorted(points, asc) && Side(points, chain) && k + 1 < |chain|
    ensures Before(points[chain[k]], points[chain[k + 1]], asc) || points[0] == points[|points| - 1]
  {
    var a, b := points[chain[k]], points[chain[k + 1]];
    assert chain[k] < chain[k + 1];
    assert AtMost(a, b, asc);
    if k + 2 < |chain| {
      assert LeftAt(points, chain, k);
      OnTheEdge(a, points[chain[k + 2]]);
    } else if k > 0 {
      assert LeftAt(points, chain, k - 1);
      OnTheEdge(points[chain[k - 1]], a);
    }
  }

  lemma UpperMoves(points: seq<Point>, upper: seq<nat>, k: nat)
    requires Sorted(points, true) && Side(points, upper) && k + 1 < |upper| && !Collinear(points)
    ensures Before(points[upper[k]], points[upper[k + 1]], true)
  {
    hide Cross, Side;
    EdgeMoves(points, upper, true, k);
    if points[0] == points[|points| - 1] { OnePoint(points, true); }
  }

  lemma FlippedBefore(a: Point, b: Point)
    ensures Before(Flip(a), Flip(b), false) <==> Before(a, b, true)
    ensures Flip(a) == Flip(b) <==> a == b
  {
  }

  lemma LowerMoves(points: seq<Point>, lower: seq<nat>, k: nat)
    requires Sorted(points, true) && Side(Flipped(points), lower) && k + 1 < |lower| && !Collinear(points)
    ensures Before(points[lower[k]], points[lower[k + 1]], true)
  {
    assert Indexes(Flipped(points), lower);
    hide Cross, Side;
    FlippedSorted(points);
    EdgeMoves(Flipped(points), lower, false, k);
    var n := |points|;
    FlippedBefore(points[0], points[n - 1]);
    assert Flipped(points)[0] == Flip(points[0]) && Flipped(points)[n - 1] == Flip(points[n - 1]);
    FlippedBefore(points[lower[k]], points[lower[k + 1]]);
    if points[0] == points[n - 1] { OnePoint(points, true); }
  }

  lemma OnePoint(points: seq<Point>, asc: bool)
    requires Sorted(points, asc) && points != [] && points[0] == points[|points| - 1]
    ensures Collinear(points)
  {
    AllTheSame(points, asc);
    forall p, q, r | p in points && q in points && r in points ensures Cross(p, q, r) == 0.0 {
      OnTheEdge(p, p);
    }
  }

  lemma CornerTurns(points: seq<Point>, upper: seq<nat>, lower: seq<nat>, k: nat)
    requires Sorted(points, true) && Side(points, upper) && Side(Flipped(points), lower) && !Collinear(points)
    requires Indexes(points, Joined(upper, lower)) && k < |Joined(upper, lower)|
    ensures RightAt(points, Joined(upper, lower), k)
  {
    hide Cross, Collinear, Sorted, Supports, Increasing;
    var a, h := |upper|, Joined(upper, lower);
    var k1 := After(k, |h|);
    Along(points, upper, lower, k);
    Along(points, upper, lower, k1);
    if k + 2 < a {
      var j := a - 3 - k;
      assert LeftAt(points, upper, j);
      Turned(points[upper[j]], points[upper[j + 1]], points[upper[j + 2]]);
    } else if k + 2 == a {
      AtLeftEnd(points, upper, lower);
    } else if k1 != 0 {
      var j := k + 1 - a;
      assert LeftAt(Flipped(points), lower, j);
      CrossFlipped(points[lower[j]], points[lower[j + 1]], points[lower[j + 2]]);
    } else {
      AtRightEnd(points, upper, lower);
    }
  }

  lemma AtLeftEnd(points: seq<Point>, upper: seq<nat>, lower: seq<nat>)
    requires Sorted(points, true) && Side(points, upper) && Side(Flipped(points), lower) && !Collinear(points)
    ensures Cross(points[upper[1]], points[0], points[lower[1]]) < 0.0
  {
    UpperMoves(points, upper, 0);
    LowerMoves(points, lower, 0);
    hide Cross, TurnsLeft, Supports, Increasing, Collinear;
    var o, u, l := points[0], points[upper[1]], points[lower[1]];
    forall p | p in points ensures Cross(o, u, p) >= 0.0 && Cross(o, l, p) <= 0.0 {
      var i: nat :| i < |points| && points[i] == p;
      UpperSees(points, upper, 0, i);
      LowerSees(points, lower, 0, i);
    }
    LeftCorner(points, o, u, l);
  }

  lemma AtRightEnd(points: seq<Point>, upper: seq<nat>, lower: seq<nat>)
    requires Sorted(points, true) && Side(points, upper) && Side(Flipped(points), lower) && !Collinear(points)
    ensures Cross(points[lower[|lower| - 2]], points[|points| - 1], points[upper[|upper| - 2]]) < 0.0
  {
    var j, k := |upper| - 2, |lower| - 2;
    var z, u, l := points[|points| - 1], points[upper[j]], points[lower[k]];
    assert points[upper[j + 1]] == z && points[lower[k + 1]] == z;
    hide Cross, Side, Collinear, Sorted, Flipped, Before;
    UpperMoves(points, upper, j);
    LowerMoves(points, lower, k);
    forall p | p in points ensures Cross(u, z, p) >= 0.0 && Cross(l, z, p) <= 0.0 {
      var i: nat :| i < |points| && points[i] == p;
      UpperSees(points, upper, j, i);
      LowerSees(points, lower, k, i);
    }
    RightCorner(points, z, u, l);
  }

  /** Unless all points are collinear, the polygon has three corners or more and turns right at each. */
  lemma JoinedIsConvex(points: seq<Point>, upper: seq<nat>, lower: seq<nat>)
    requires Sorted(points, true) && Side(points, upper) && Side(Flipped(points), lower)
    ensures var h := Joined(upper, lower);
            && Indexes(points, h)
            && (if Collinear(points) then |h| == 2 else |h| > 2 && Convex(points, h))
  {
    JoinedIndexes(points, upper, lower);
    var h := Joined(upper, lower);
    if Collinear(points) {
      StraightSide(points, upper);
      StraightSide(Flipped(points), lower) by { FlippedCollinear(points); }
    } else {
      forall k: nat | k < |h| ensures RightAt(points, h, k) {
        CornerTurns(points, upper, lower, k);
      }
      assert RightAt(points, h, 0);
      OnTheEdge(points[h[0]], points[h[1]]);
    }
  }

  lemma FlippedCollinear(points: seq<Point>)
    requires Collinear(points)
    ensures Collinear(Flipped(points))
  {
    forall p, q, r | p in Flipped(points) && q in Flipped(points) && r in Flipped(points)
      ensures Cross(p, q, r) == 0.0
    {
      var a, b, c := Flip(p), Flip(q), Flip(r);
      assert a in points && b in points && c in points;
      CrossFlipped(a, b, c);
    }
  }

  lemma StraightSide(points: seq<Point>, chain: seq<nat>)
    requires Side(points, chain) && Collinear(points)
    ensures |chain| == 2
  {
    assert |chain| > 2 ==> LeftAt(points, chain, 0);
  }

  // The hull of points in any order

  /** What sorting promises: the positions of all points, each of them somewhere. */
  ghost predicate Permutation(order: seq<nat>, n: nat) {
    |order| == n && (forall i :: 0 <= i < n ==> order[i] < n) && forall p: nat :: p < n ==> p in order
  }

  function Picked(points: seq<Point>, order: seq<nat>): (r: seq<Point>)
    requires Indexes(points, order)
    ensures |r| == |order| && forall i :: 0 <= i < |order| ==> r[i] == points[order[i]]
  {
    seq(|order|, i requires 0 <= i < |order| => points[order[i]])
  }

  function Renamed(order: seq<nat>, chain: seq<nat>): (r: seq<nat>)
    requires forall k :: 0 <= k < |chain| ==> chain[k] < |order|
    ensures |r| == |chain| && forall k :: 0 <= k < |chain| ==> r[k] == order[chain[k]]
  {
    seq(|chain|, k requires 0 <= k < |chain| => order[chain[k]])
  }

  lemma SamePoints(points: seq<Point>, order: seq<nat>)
    requires Permutation(order, |points|)
    ensures Indexes(points, order)
    ensures forall p :: p in points <==> p in Picked(points, order)
    ensures Collinear(points) <==> Collinear(Picked(points, order))
  {
    hide Cross;
    forall p | p in points ensures p in Picked(points, order) {
      var i: nat :| i < |points| && points[i] == p;
      assert i in order;
      var j :| 0 <= j < |order| && order[j] == i;
      assert Picked(points, order)[j] == p;
    }
  }

  lemma RenamedHull(points: seq<Point>, order: seq<nat>, h: seq<nat>)
    requires Permutation(order, |points|) && Indexes(points, order) && Indexes(Picked(points, order), h)
    ensures Indexes(points, Renamed(order, h))
    ensures Encloses(Picked(points, order), h) ==> Encloses(points, Renamed(order, h))
    ensures Convex(Picked(points, order), h) ==> Convex(points, Renamed(order, h))
  {
    hide Cross, Permutation, Collinear;
    SamePoints(points, order);
    var sorted, r := Picked(points, order), Renamed(order, h);
    if Encloses(sorted, h) {
      forall k: nat, p | k < |r| && p in points ensures RightOf(points, r, k, p) {
        assert RightOf(sorted, h, k, p);
      }
    }
    if Convex(sorted, h) {
      forall k: nat | k < |r| ensures RightAt(points, r, k) {
        assert RightAt(sorted, h, k);
      }
    }
  }

  /** No point is after the one at `i` in the order by x and then by y. */
  predicate IsLast(points: seq<Point>, i: nat) {
    i < |points| && forall p :: p in points ==> AtMost(p, points[i], true)
  }

  /** No point is before the one at `i`. */
  predicate IsFirst(points: seq<Point>, i: nat) {
    i < |points| && forall p :: p in points ==> AtMost(points[i], p, true)
  }

  /** The polygon begins at the last point, and comes by the first one at the end of the upper side. */
  lemma EndsOfPolygon(points: seq<Point>, order: seq<nat>, upper: seq<nat>, lower: seq<nat>)
    requires Permutation(order, |points|) && Indexes(points, order) && Sorted(Picked(points, order), true)
    requires Side(Picked(points, order), upper) && Side(Flipped(Picked(points, order)), lower)
    ensures IsLast(points, order[upper[|upper| - 1]]) && IsFirst(points, order[upper[0]])
  {
    hide Cross, Supports, TurnsLeft;
    var sorted := Picked(points, order);
    var n := |sorted|;
    SamePoints(points, order);
    forall p | p in points ensures AtMost(p, points[order[n - 1]], true) && AtMost(points[order[0]], p, true) {
      var i :| 0 <= i < n && sorted[i] == p;
      assert i < n - 1 ==> AtMost(sorted[i], sorted[n - 1], true);
      assert 0 < i ==> AtMost(sorted[0], sorted[i], true);
    }
  }

  /** `hull`, with the outcome of the sort as a parameter. Nothing for less than three points; otherwise
      a polygon of some of them that goes round clockwise (y up), has all points on or to the right
      of every edge, and turns strictly right at every corner, unless all points are collinear:
      then it is the last point and the first, which it begins with and comes by in any case. */
  method PolygonHull(points: seq<Point>, order: seq<nat>) returns (hull: Option<seq<nat>>)
    requires Permutation(order, |points|) && Indexes(points, order) && Sorted(Picked(points, order), true)
    ensures hull.None? <==> |points| < 3
    ensures hull.Some? ==> Indexes(points, hull.value) && Encloses(points, hull.value)
    ensures hull.Some? ==> if Collinear(points) then |hull.value| == 2 else |hull.value| > 2 && Convex(points, hull.value)
    ensures hull.Some? ==> IsLast(points, hull.value[0]) && exists k :: 0 <= k < |hull.value| && IsFirst(points, hull.value[k])
    ensures hull.Some? && Collinear(points) ==> IsFirst(points, hull.value[1])
  {
    var n := |points|;
    assert |order| == n;
    hide Cross, TurnsLeft, Supports, Increasing, Sorted, Encloses, Convex, Collinear, Permutation;
    if n < 3 { return None; }
    var sortedPoints := Picked(points, order);
    var flippedPoints := Flipped(sortedPoints);
    FlippedSorted(sortedPoints);
    var upperIndexes := ComputeUpperHullIndexes(sortedPoints, true);
    var lowerIndexes := ComputeUpperHullIndexes(flippedPoints, false);
    var skipLeft := if lowerIndexes[0] == upperIndexes[0] then 1 else 0;
    var skipRight := if lowerIndexes[|lowerIndexes| - 1] == upperIndexes[|upperIndexes| - 1] then 1 else 0;
    ghost var joined := Joined(upperIndexes, lowerIndexes);
    var h: seq<nat> := [];
    for i := |upperIndexes| downto 0
      invariant |h| == |upperIndexes| - i
      invariant forall k :: 0 <= k < |h| ==> h[k] == order[upperIndexes[|upperIndexes| - 1 - k]]
    {
      h := h + [order[upperIndexes[i]]];
    }
    ghost var up := h;
    for i := skipLeft to |lowerIndexes| - skipRight
      invariant |h| == |upperIndexes| + i - 1 && up <= h
      invariant forall k :: 1 <= k < i ==> h[|upperIndexes| + k - 1] == order[lowerIndexes[k]]
    {
      h := h + [order[lowerIndexes[i]]];
    }
    JoinedEncloses(sortedPoints, upperIndexes, lowerIndexes);
    JoinedIsConvex(sortedPoints, upperIndexes, lowerIndexes);
    assert h == Renamed(order, joined);
    RenamedHull(points, order, joined);
    SamePoints(points, order);
    EndsOfPolygon(points, order, upperIndexes, lowerIndexes);
    assert h[0] == order[upperIndexes[|upperIndexes| - 1]] && h[|upperIndexes| - 1] == order[upperIndexes[0]];
    hide IsLast, IsFirst, Indexes;
    hull := Some(h);
  }
}
