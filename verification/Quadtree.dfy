/** The quadtree: cells that halve, growth by doubling, insertion, and the nearest-neighbour
    search with its shrinking box. Coordinates are exact reals. */
module Quadtree {
  import opened Options

  /** A datum with the coordinates that the accessors give it. */
  datatype Datum = Datum(x: real, y: real, id: int)

  datatype Box = Box(x0: real, y0: real, x1: real, y1: real) {
    function MidX(): real { (x0 + x1) / 2.0 }
    function MidY(): real { (y0 + y1) / 2.0 }

    /** Closed on every side. */
    predicate Contains(x: real, y: real) { x0 <= x <= x1 && y0 <= y <= y1 }
  }

  /** `Leaf` holds coincident data, the newest first. Children are numbered top left, top right,
      bottom left, bottom right. */
  datatype Node =
    | Empty
    | Leaf(data: seq<Datum>)
    | Cell(c0: Node, c1: Node, c2: Node, c3: Node)
  {
    function Child(i: nat): Node
      requires Cell? && i < 4
    {
      if i == 0 then c0 else if i == 1 then c1 else if i == 2 then c2 else c3
    }

    function With(i: nat, n: Node): Node
      requires Cell? && i < 4
    {
      if i == 0 then Cell(n, c1, c2, c3) else if i == 1 then Cell(c0, n, c2, c3)
      else if i == 2 then Cell(c0, c1, n, c3) else Cell(c0, c1, c2, n)
    }

    function Data(): multiset<Datum> {
      match this
      case Empty => multiset{}
      case Leaf(data) => multiset(data)
      case Cell(a, b, c, d) => a.Data() + b.Data() + c.Data() + d.Data()
    }

    function Size(): nat {
      match this
      case Cell(a, b, c, d) => 1 + a.Size() + b.Size() + c.Size() + d.Size()
      case _ => 1
    }
  }

  const NO_CHILDREN := Cell(Empty, Empty, Empty, Empty)

  /** `bottom << 1 | right` */
  function Quadrant(b: Box, x: real, y: real): (i: nat)
    ensures i < 4
  {
    (if y >= b.MidY() then 2 else 0) + (if x >= b.MidX() then 1 else 0)
  }

  function Sub(b: Box, i: nat): Box
    requires i < 4
  {
    Box(if i % 2 == 1 then b.MidX() else b.x0, if i >= 2 then b.MidY() else b.y0,
        if i % 2 == 1 then b.x1 else b.MidX(), if i >= 2 then b.y1 else b.MidY())
  }

  predicate Coincident(data: seq<Datum>) {
    data != [] && forall d :: d in data ==> d.x == data[0].x && d.y == data[0].y
  }

  /** Every stored point is inside the closed rectangle of its cell, and a leaf is never empty. */
  predicate Placed(n: Node, b: Box) {
    match n
    case Empty => true
    case Leaf(data) => Coincident(data) && b.Contains(data[0].x, data[0].y)
    case Cell(c0, c1, c2, c3) => Placed(c0, Sub(b, 0)) && Placed(c1, Sub(b, 1)) && Placed(c2, Sub(b, 2)) && Placed(c3, Sub(b, 3))
  }

  lemma SubContains(b: Box, x: real, y: real)
    requires b.Contains(x, y)
    ensures Sub(b, Quadrant(b, x, y)).Contains(x, y)
  {
  }

  lemma SubInside(b: Box, i: nat, x: real, y: real)
    requires i < 4 && b.x0 <= b.x1 && b.y0 <= b.y1 && Sub(b, i).Contains(x, y)
    ensures b.Contains(x, y)
  {
  }

  predicate Proper(b: Box) { b.x0 <= b.x1 && b.y0 <= b.y1 }

  lemma {:induction false} DataInside(n: Node, b: Box)
    requires Placed(n, b) && Proper(b)
    ensures forall d :: d in n.Data() ==> b.Contains(d.x, d.y)
  {
    if n.Cell? {
      DataInside(n.c0, Sub(b, 0));
      DataInside(n.c1, Sub(b, 1));
      DataInside(n.c2, Sub(b, 2));
      DataInside(n.c3, Sub(b, 3));
      forall d | d in n.Data()
        ensures b.Contains(d.x, d.y)
      {
        var i := if d in n.c0.Data() then 0 else if d in n.c1.Data() then 1 else if d in n.c2.Data() then 2 else 3;
        SubInside(b, i, d.x, d.y);
      }
    }
  }

  lemma PlacedChild(n: Node, b: Box, i: nat)
    requires Placed(n, b) && n.Cell? && i < 4
    ensures Placed(n.Child(i), Sub(b, i))
  {
  }

  lemma PlacedWith(n: Node, b: Box, i: nat, c: Node)
    requires Placed(n, b) && n.Cell? && i < 4 && Placed(c, Sub(b, i))
    ensures Placed(n.With(i, c), b)
  {
  }

  lemma DataWith(n: Node, i: nat, c: Node)
    requires n.Cell? && i < 4
    ensures n.With(i, c).Data() + n.Child(i).Data() == n.Data() + c.Data()
  {
    Exchange(n.c0.Data(), n.c1.Data(), n.c2.Data(), n.c3.Data(), c.Data());
    match n
    case Cell(a, b, d, e) =>
      if i == 0 {
        assert Cell(c, b, d, e).Data() == c.Data() + b.Data() + d.Data() + e.Data();
      } else if i == 1 {
        assert Cell(a, c, d, e).Data() == a.Data() + c.Data() + d.Data() + e.Data();
      } else if i == 2 {
        assert Cell(a, b, c, e).Data() == a.Data() + b.Data() + c.Data() + e.Data();
      } else {
        assert Cell(a, b, d, c).Data() == a.Data() + b.Data() + d.Data() + c.Data();
      }
  }

  lemma Exchange(a: multiset<Datum>, b: multiset<Datum>, c: multiset<Datum>, d: multiset<Datum>, e: multiset<Datum>)
    ensures e + b + c + d + a == a + b + c + d + e
    ensures a + e + c + d + b == a + b + c + d + e
    ensures a + b + e + d + c == a + b + c + d + e
    ensures a + b + c + e + d == a + b + c + d + e
  {
  }

  /** The data in the leaf that the quadrants of the point lead to, if it is the leaf of that point. */
  function Here(n: Node, b: Box, x: real, y: real): seq<Datum>
    decreases n
  {
    match n
    case Empty => []
    case Leaf(data) => if data != [] && data[0].x == x && data[0].y == y then data else []
    case Cell(_, _, _, _) => var i := Quadrant(b, x, y); Here(n.Child(i), Sub(b, i), x, y)
  }

  lemma {:induction false} HereIsStored(n: Node, b: Box, x: real, y: real)
    requires Placed(n, b)
    ensures forall d :: d in Here(n, b, x, y) ==> d in n.Data() && d.x == x && d.y == y
    ensures Here(n, b, x, y) == [] || (Here(n, b, x, y)[0] in n.Data() && Here(n, b, x, y)[0].x == x && Here(n, b, x, y)[0].y == y)
    decreases n
  {
    if n.Cell? {
      var i := Quadrant(b, x, y);
      PlacedChild(n, b, i);
      HereIsStored(n.Child(i), Sub(b, i), x, y);
      DataOfChild(n, i);
    }
  }

  lemma DataOfChild(n: Node, i: nat)
    requires n.Cell? && i < 4
    ensures n.Child(i).Data() <= n.Data()
  {
  }

  // Nearest neighbour

  function Distance2(x: real, y: real, d: Datum): real {
    (x - d.x) * (x - d.x) + (y - d.y) * (y - d.y)
  }

  datatype Quad = Quad(node: Node, box: Box)

  /** Strictly closer than the current squared radius; None is an infinite radius. */
  predicate Closer(x: real, y: real, d: Datum, radius2: Option<real>) {
    radius2.None? || Distance2(x, y, d) < radius2.value
  }

  /** `Math.sqrt` without rounding. */
  ghost predicate IsSqrt(sqrt: real -> real) {
    forall r :: r >= 0.0 ==> sqrt(r) >= 0.0 && sqrt(r) * sqrt(r) == r
  }

  function Around(x: real, y: real, d: real): Box {
    Box(x - d, y - d, x + d, y + d)
  }

  /** Outside the square of half-width `d` around the point is farther than `d`. */
  lemma OutsideIsFarther(x: real, y: real, d: real, p: Datum)
    requires d >= 0.0 && !Around(x, y, d).Contains(p.x, p.y)
    ensures Distance2(x, y, p) > d * d
  {
    var dx, dy := x - p.x, y - p.y;
    if dx > d || dx < -d {
      FartherSquare(dx, d);
      FartherSquare(dy, 0.0);
    } else {
      FartherSquare(dy, d);
      FartherSquare(dx, 0.0);
    }
  }

  lemma FartherSquare(a: real, d: real)
    requires d >= 0.0
    ensures a > d || a < -d ==> a * a > d * d
    ensures a * a >= 0.0
  {
    if a > d { BiggerSquare(a, d); }
    if a < -d { BiggerSquare(-a, d); assert -a * -a == a * a; }
    if a > 0.0 { BiggerSquare(a, 0.0); }
    if a < 0.0 { BiggerSquare(-a, 0.0); assert -a * -a == a * a; }
  }

  lemma BiggerSquare(a: real, d: real)
    requires a > d >= 0.0
    ensures a * a > d * d
  {
    PositiveProduct(a - d, a + d);
    assert (a - d) * (a + d) == a * a - d * d;
  }

  lemma PositiveProduct(a: real, b: real)
    requires a > 0.0 && b > 0.0
    ensures a * b > 0.0
  {
  }

  predicate Apart(b: Box, search: Box) {
    b.x0 > search.x1 || b.y0 > search.y1 || b.x1 < search.x0 || b.y1 < search.y0
  }

  function StackSize(quads: seq<Quad>): nat {
    if quads == [] then 0 else StackSize(quads[..|quads| - 1]) + quads[|quads| - 1].node.Size()
  }

  predicate OnStack(quads: seq<Quad>, d: Datum) {
    exists k :: 0 <= k < |quads| && d in quads[k].node.Data()
  }

  /** The four children, the closest quadrant on top. */
  function PushChildren(rest: seq<Quad>, q: Quad, x: real, y: real): seq<Quad>
    requires q.node.Cell?
  {
    var quads := rest + [Quad(q.node.c3, Sub(q.box, 3)), Quad(q.node.c2, Sub(q.box, 2)),
                         Quad(q.node.c1, Sub(q.box, 1)), Quad(q.node.c0, Sub(q.box, 0))];
    var i := Quadrant(q.box, x, y);
    var top := quads[|quads| - 1];
    quads[|quads| - 1 := quads[|quads| - 1 - i]][|quads| - 1 - i := top]
  }

  // The search

  /** No datum still to be visited or already dismissed is forgotten. */
  ghost predicate Accounted(root: Node, quads: seq<Quad>, x: real, y: real, radius2: Option<real>) {
    forall d :: d in root.Data() ==> OnStack(quads, d) || !Closer(x, y, d, radius2)
  }

  ghost predicate StackPlaced(root: Node, quads: seq<Quad>) {
    forall k :: 0 <= k < |quads| ==>
      && Placed(quads[k].node, quads[k].box) && Proper(quads[k].box)
      && quads[k].node.Data() <= root.Data()
  }

  /** Every stored datum outside the search box is not closer than the radius. */
  ghost predicate BoxIsFair(root: Node, search: Box, x: real, y: real, radius2: Option<real>) {
    forall d :: d in root.Data() && !search.Contains(d.x, d.y) ==> !Closer(x, y, d, radius2)
  }

  lemma SizeOfPush(rest: seq<Quad>, q: Quad)
    ensures StackSize(rest + [q]) == StackSize(rest) + q.node.Size()
  {
    assert (rest + [q])[..|rest|] == rest;
  }

  lemma {:induction false} SizeOfUpdate(quads: seq<Quad>, k: nat, q: Quad)
    requires k < |quads|
    ensures StackSize(quads[k := q]) == StackSize(quads) - quads[k].node.Size() + q.node.Size()
  {
    var n := |quads| - 1;
    if k == n {
      assert quads[k := q][..n] == quads[..n];
    } else {
      SizeOfUpdate(quads[..n], k, q);
      assert quads[k := q][..n] == quads[..n][k := q];
    }
  }

  function FourQuads(q: Quad): seq<Quad>
    requires q.node.Cell?
  {
    [Quad(q.node.c3, Sub(q.box, 3)), Quad(q.node.c2, Sub(q.box, 2)), Quad(q.node.c1, Sub(q.box, 1)), Quad(q.node.c0, Sub(q.box, 0))]
  }

  lemma PushedSize(rest: seq<Quad>, q: Quad, x: real, y: real)
    requires q.node.Cell?
    ensures StackSize(PushChildren(rest, q, x, y)) < StackSize(rest) + q.node.Size()
  {
    var f := FourQuads(q);
    SizeOfPush(rest, f[0]);
    SizeOfPush(rest + [f[0]], f[1]);
    SizeOfPush(rest + [f[0]] + [f[1]], f[2]);
    SizeOfPush(rest + [f[0]] + [f[1]] + [f[2]], f[3]);
    var quads := rest + [f[0]] + [f[1]] + [f[2]] + [f[3]];
    assert rest + f == quads;
    var i := Quadrant(q.box, x, y);
    var n := |quads| - 1;
    SizeOfUpdate(quads, n, quads[n - i]);
    SizeOfUpdate(quads[n := quads[n - i]], n - i, quads[n]);
  }

  /** The stack after bisection holds the old stack and the four children, in some order. */
  lemma PushedQuads(rest: seq<Quad>, q: Quad, x: real, y: real)
    requires q.node.Cell?
    ensures var quads := PushChildren(rest, q, x, y);
            && |quads| == |rest| + 4
            && (forall k :: 0 <= k < |rest| ==> quads[k] == rest[k])
            && (forall k :: |rest| <= k < |quads| ==> quads[k] in FourQuads(q))
            && (forall c :: c in FourQuads(q) ==> exists k :: |rest| <= k < |quads| && quads[k] == c)
  {
    var f, quads, n := FourQuads(q), PushChildren(rest, q, x, y), |rest|;
    var i := Quadrant(q.box, x, y);
    assert quads[n + 3] == f[3 - i] && quads[n + 3 - i] == f[3];
    assert i != 3 ==> quads[n] == f[0];
    assert i != 2 ==> quads[n + 1] == f[1];
    assert i != 1 ==> quads[n + 2] == f[2];
  }

  lemma {:induction false} PushKeepsStack(root: Node, rest: seq<Quad>, q: Quad, x: real, y: real, radius2: Option<real>)
    requires StackPlaced(root, rest + [q]) && q.node.Cell? && Accounted(root, rest + [q], x, y, radius2)
    ensures StackPlaced(root, PushChildren(rest, q, x, y)) && Accounted(root, PushChildren(rest, q, x, y), x, y, radius2)
  {
    var quads := PushChildren(rest, q, x, y);
    PushedQuads(rest, q, x, y);
    assert (rest + [q])[|rest|] == q;
    forall k | 0 <= k < |quads|
      ensures Placed(quads[k].node, quads[k].box) && Proper(quads[k].box) && quads[k].node.Data() <= root.Data()
    {
      if k < |rest| {
        assert (rest + [q])[k] == quads[k];
      } else {
        ChildQuad(q, quads[k]);
      }
    }
    forall d | d in root.Data() && Closer(x, y, d, radius2)
      ensures OnStack(quads, d)
    {
      var k :| 0 <= k < |rest + [q]| && d in (rest + [q])[k].node.Data();
      if k < |rest| {
        assert quads[k] == rest[k];
      } else {
        var c := ChildWith(q, d);
      }
    }
  }

  lemma ChildQuad(q: Quad, c: Quad)
    requires q.node.Cell? && Placed(q.node, q.box) && Proper(q.box) && c in FourQuads(q)
    ensures Placed(c.node, c.box) && Proper(c.box) && c.node.Data() <= q.node.Data()
  {
  }

  lemma ChildWith(q: Quad, d: Datum) returns (c: Quad)
    requires q.node.Cell? && d in q.node.Data()
    ensures c in FourQuads(q) && d in c.node.Data()
  {
    var f := FourQuads(q);
    c := if d in q.node.c0.Data() then f[3] else if d in q.node.c1.Data() then f[2] else if d in q.node.c2.Data() then f[1] else f[0];
  }

  /** A cell apart from the search box holds nothing closer, so it can be skipped. */
  lemma {:induction false} SkipIsSafe(root: Node, rest: seq<Quad>, q: Quad, search: Box, x: real, y: real, radius2: Option<real>)
    requires StackPlaced(root, rest + [q]) && Accounted(root, rest + [q], x, y, radius2)
    requires BoxIsFair(root, search, x, y, radius2)
    requires q.node.Empty? || Apart(q.box, search)
    ensures StackPlaced(root, rest) && Accounted(root, rest, x, y, radius2)
  {
    PopStack(root, rest, q);
    forall d | d in root.Data() && Closer(x, y, d, radius2)
      ensures OnStack(rest, d)
    {
      var k :| 0 <= k < |rest + [q]| && d in (rest + [q])[k].node.Data();
      if k == |rest| {
        if !q.node.Empty? { DataInside(q.node, q.box); }
      } else {
        assert rest[k] == (rest + [q])[k];
      }
    }
  }

  lemma PopStack(root: Node, rest: seq<Quad>, q: Quad)
    requires StackPlaced(root, rest + [q])
    ensures StackPlaced(root, rest) && Placed(q.node, q.box) && Proper(q.box) && q.node.Data() <= root.Data()
  {
    assert (rest + [q])[|rest|] == q;
    assert forall k :: 0 <= k < |rest| ==> rest[k] == (rest + [q])[k];
  }

  /** Visiting a leaf: its coincident data are no closer than its first. */
  lemma {:induction false} VisitIsSafe(root: Node, rest: seq<Quad>, q: Quad, x: real, y: real, radius2: Option<real>, radius2': Option<real>)
    requires StackPlaced(root, rest + [q]) && Accounted(root, rest + [q], x, y, radius2) && q.node.Leaf?
    requires Placed(q.node, q.box)
    requires if Closer(x, y, q.node.data[0], radius2) then radius2' == Some(Distance2(x, y, q.node.data[0])) else radius2' == radius2
    ensures StackPlaced(root, rest) && Accounted(root, rest, x, y, radius2')
  {
    hide Distance2;
    PopStack(root, rest, q);
    forall d | d in root.Data() && Closer(x, y, d, radius2')
      ensures OnStack(rest, d)
    {
      assert OnStack(rest + [q], d);
      var k :| 0 <= k < |rest + [q]| && d in (rest + [q])[k].node.Data();
      if k == |rest| {
        CoincidentDistance(q.node.data, d, x, y);
      } else {
        assert rest[k] == (rest + [q])[k];
      }
    }
  }

  lemma CoincidentDistance(data: seq<Datum>, d: Datum, x: real, y: real)
    requires Coincident(data) && d in data
    ensures Distance2(x, y, d) == Distance2(x, y, data[0])
  {
  }

  lemma ShrunkBoxIsFair(root: Node, x: real, y: real, d: real, radius2: real)
    requires d >= 0.0 && d * d == radius2
    ensures BoxIsFair(root, Around(x, y, d), x, y, Some(radius2))
  {
    forall p | p in root.Data() && !Around(x, y, d).Contains(p.x, p.y)
      ensures !Closer(x, y, p, Some(radius2))
    {
      OutsideIsFarther(x, y, d, p);
    }
  }

  lemma NothingIsCloser(root: Node, quads: seq<Quad>, search: Box, x: real, y: real)
    ensures Accounted(root, quads, x, y, Some(-1.0)) && BoxIsFair(root, search, x, y, Some(-1.0))
  {
    forall d: Datum | d in root.Data() ensures !Closer(x, y, d, Some(-1.0)) { DistanceIsNotNegative(x, y, d); }
  }

  /** `find`: a stored datum that no other beats, or nothing exactly when none is strictly
      inside the radius. A negative radius turns the search box inside out, and then what is
      found is inside the radius, but need not be the nearest. */
  method Find(root: Node, extent: Box, x: real, y: real, radius: Option<real>, sqrt: real -> real) returns (found: Option<Datum>)
    requires Placed(root, extent) && Proper(extent) && IsSqrt(sqrt)
    ensures found.Some? ==>
      && found.value in root.Data()
      && (radius.Some? ==> Distance2(x, y, found.value) < radius.value * radius.value)
    ensures found.Some? && (radius.Some? ==> radius.value >= 0.0) ==>
      forall d :: d in root.Data() ==> Distance2(x, y, found.value) <= Distance2(x, y, d)
    ensures (radius.Some? ==> radius.value >= 0.0) ==>
      (found.None? <==> forall d :: d in root.Data() ==> radius.Some? && Distance2(x, y, d) >= radius.value * radius.value)
    ensures (radius.Some? ==> radius.value > 0.0) && extent.Contains(x, y) && Here(root, extent, x, y) != [] ==>
      found == Some(Here(root, extent, x, y)[0])
  {
    hide Distance2, Placed, StackSize, PushChildren, Sub, Around, Proper, Apart, IsSqrt, Here, Searching;
    found := None;
    var quads: seq<Quad> := [];
    if root != Empty { quads := [Quad(root, extent)]; }
    var search := extent;
    var radius2: Option<real> := None;
    if radius.Some? {
      search := Around(x, y, radius.value);
      radius2 := Some(radius.value * radius.value);
    }
    ghost var t := Search(root, x, y, radius2, radius.Some? ==> radius.value >= 0.0,
      if (radius.Some? ==> radius.value > 0.0) && extent.Contains(x, y) then Here(root, extent, x, y) else []);
    StartSearch(root, extent, x, y, radius);
    while quads != []
      invariant Searching(t, quads, search, radius2, found)
      decreases StackSize(quads)
    {
      var q, rest := quads[|quads| - 1], quads[..|quads| - 1];
      assert quads == rest + [q];
      SizeOfPush(rest, q);
      LeafHasFirst(t, rest, q, search, radius2, found);
      if q.node.Empty? || Apart(q.box, search) {
        SearchSkip(t, rest, q, search, radius2, found);
        quads := rest;
      } else if q.node.Cell? {
        SearchPush(t, rest, q, search, radius2, found);
        PushedSize(rest, q, x, y);
        quads := PushChildren(rest, q, x, y);
      } else {
        var first := q.node.data[0];
        var d2 := Distance2(x, y, first);
        if Closer(x, y, first, radius2) {
          var d := Sqrt(sqrt, d2, x, y, first);
          SearchTake(t, rest, q, search, radius2, found, d);
          radius2 := Some(d2);
          search := Around(x, y, d);
          found := Some(first);
        } else {
          SearchLeave(t, rest, q, search, radius2, found);
        }
        quads := rest;
      }
    }
    EndSearch(t, search, radius2, found);
  }

  /** What a search is about: `start2` is the squared radius it began with, `exact` says that this was
      not negative, and `here` what it must find. */
  datatype Search = Search(root: Node, x: real, y: real, start2: Option<real>, exact: bool, here: seq<Datum>) {
    /** The squared radius that the search accounts for. */
    function Bound(radius2: Option<real>): Option<real> { if exact then radius2 else Some(-1.0) }
  }

  ghost predicate Searching(t: Search, quads: seq<Quad>, search: Box, radius2: Option<real>, found: Option<Datum>) {
    && StackPlaced(t.root, quads) && Accounted(t.root, quads, t.x, t.y, t.Bound(radius2))
    && BoxIsFair(t.root, search, t.x, t.y, t.Bound(radius2))
    && (found.None? ==> radius2 == t.start2)
    && (found.Some? ==>
          && found.value in t.root.Data() && radius2 == Some(Distance2(t.x, t.y, found.value))
          && Closer(t.x, t.y, found.value, t.start2))
    && (t.here != [] ==> Direct(quads, search, t.x, t.y, radius2, found, t.here))
  }

  lemma StartSearch(root: Node, extent: Box, x: real, y: real, radius: Option<real>)
    requires Placed(root, extent) && Proper(extent)
    ensures var quads := if root != Empty then [Quad(root, extent)] else [];
            var search := if radius.Some? then Around(x, y, radius.value) else extent;
            var radius2 := if radius.Some? then Some(radius.value * radius.value) else None;
            var t := Search(root, x, y, radius2, radius.Some? ==> radius.value >= 0.0,
              if (radius.Some? ==> radius.value > 0.0) && extent.Contains(x, y) then Here(root, extent, x, y) else []);
            Searching(t, quads, search, radius2, None)
  {
    hide Distance2, Placed, Around, StackPlaced, Accounted, BoxIsFair, Proper, Here, Direct, Box.Contains;
    var quads := if root != Empty then [Quad(root, extent)] else [];
    StartStack(root, extent, x, y);
    var search := extent;
    var radius2: Option<real> := None;
    if radius.Some? {
      search := Around(x, y, radius.value);
      radius2 := Some(radius.value * radius.value);
      if radius.value >= 0.0 { ShrunkBoxIsFair(root, x, y, radius.value, radius2.value); }
      FewerCloser(root, quads, x, y, radius2);
      if radius.value > 0.0 { AroundPoint(x, y, radius.value, radius2.value); }
    }
    NothingIsCloser(root, quads, search, x, y);
    if (radius.Some? ==> radius.value > 0.0) && extent.Contains(x, y) && Here(root, extent, x, y) != [] {
      StartDirect(root, extent, search, x, y, radius2);
    }
  }

  lemma SearchSkip(t: Search, rest: seq<Quad>, q: Quad, search: Box, radius2: Option<real>, found: Option<Datum>)
    requires Searching(t, rest + [q], search, radius2, found) && (q.node.Empty? || Apart(q.box, search))
    ensures Searching(t, rest, search, radius2, found)
  {
    hide Distance2, StackPlaced, Accounted, BoxIsFair, Direct, Apart;
    SkipIsSafe(t.root, rest, q, search, t.x, t.y, t.Bound(radius2));
    if t.here != [] { DirectSkip(rest, q, search, t.x, t.y, radius2, found, t.here); }
  }

  lemma SearchPush(t: Search, rest: seq<Quad>, q: Quad, search: Box, radius2: Option<real>, found: Option<Datum>)
    requires Searching(t, rest + [q], search, radius2, found) && q.node.Cell?
    ensures Searching(t, PushChildren(rest, q, t.x, t.y), search, radius2, found)
  {
    hide Distance2, StackPlaced, Accounted, BoxIsFair, Direct, PushChildren;
    PushKeepsStack(t.root, rest, q, t.x, t.y, t.Bound(radius2));
    if t.here != [] { DirectPush(rest, q, search, t.x, t.y, radius2, found, t.here); }
  }

  /** The first datum of the leaf is closer: it is taken, and the box shrinks. */
  lemma SearchTake(t: Search, rest: seq<Quad>, q: Quad, search: Box, radius2: Option<real>, found: Option<Datum>, d: real)
    requires Searching(t, rest + [q], search, radius2, found) && q.node.Leaf? && q.node.data != []
    requires Closer(t.x, t.y, q.node.data[0], radius2) && d >= 0.0 && d * d == Distance2(t.x, t.y, q.node.data[0])
    ensures Searching(t, rest, Around(t.x, t.y, d), Some(Distance2(t.x, t.y, q.node.data[0])), Some(q.node.data[0]))
  {
    hide Distance2, StackPlaced, Accounted, BoxIsFair, Direct, Around;
    var first := q.node.data[0];
    var d2 := Distance2(t.x, t.y, first);
    PopStack(t.root, rest, q);
    NotCloserThanNothing(t.x, t.y, first);
    VisitIsSafe(t.root, rest, q, t.x, t.y, t.Bound(radius2), t.Bound(Some(d2)));
    ShrunkBoxIsFair(t.root, t.x, t.y, d, d2);
    NothingIsCloser(t.root, rest, Around(t.x, t.y, d), t.x, t.y);
    FirstIsData(q.node);
    if t.here != [] { DirectVisit(rest, q, search, t.x, t.y, radius2, found, t.here); }
  }

  lemma FirstIsData(n: Node)
    requires n.Leaf? && n.data != []
    ensures n.data[0] in n.Data()
  {
  }

  lemma SearchLeave(t: Search, rest: seq<Quad>, q: Quad, search: Box, radius2: Option<real>, found: Option<Datum>)
    requires Searching(t, rest + [q], search, radius2, found) && q.node.Leaf? && q.node.data != []
    requires !Closer(t.x, t.y, q.node.data[0], radius2)
    ensures Searching(t, rest, search, radius2, found)
  {
    hide Distance2, StackPlaced, Accounted, BoxIsFair, Direct;
    PopStack(t.root, rest, q);
    NotCloserThanNothing(t.x, t.y, q.node.data[0]);
    VisitIsSafe(t.root, rest, q, t.x, t.y, t.Bound(radius2), t.Bound(radius2));
    if t.here != [] { DirectVisit(rest, q, search, t.x, t.y, radius2, found, t.here); }
  }

  lemma LeafHasFirst(t: Search, rest: seq<Quad>, q: Quad, search: Box, radius2: Option<real>, found: Option<Datum>)
    requires Searching(t, rest + [q], search, radius2, found)
    ensures (q.node.Leaf? ==> q.node.data != []) && q.node.Size() > 0
  {
    PopStack(t.root, rest, q);
  }

  lemma EndSearch(t: Search, search: Box, radius2: Option<real>, found: Option<Datum>)
    requires Searching(t, [], search, radius2, found)
    ensures found.Some? ==> found.value in t.root.Data() && Closer(t.x, t.y, found.value, t.start2)
    ensures found.Some? && t.exact ==> forall d :: d in t.root.Data() ==> Distance2(t.x, t.y, found.value) <= Distance2(t.x, t.y, d)
    ensures t.exact ==> (found.None? <==> forall d :: d in t.root.Data() ==> t.start2.Some? && Distance2(t.x, t.y, d) >= t.start2.value)
    ensures t.here != [] ==> found == Some(t.here[0])
  {
    hide Distance2;
    NothingLeft(t.root, t.x, t.y, t.Bound(radius2));
    if t.here != [] { DirectEnd(search, t.x, t.y, radius2, found, t.here); }
  }

  /** Until something is found the top of the stack leads to the data at the point, and then it is the
      first of them. */
  ghost predicate Direct(quads: seq<Quad>, search: Box, x: real, y: real, radius2: Option<real>, found: Option<Datum>, here: seq<Datum>) {
    && here != []
    && match found
       case None =>
         && quads != [] && (radius2.Some? ==> radius2.value > 0.0) && search.Contains(x, y)
         && var q := quads[|quads| - 1]; q.box.Contains(x, y) && Here(q.node, q.box, x, y) == here
       case Some(d) => d == here[0] && radius2 == Some(0.0)
  }

  lemma StartDirect(root: Node, extent: Box, search: Box, x: real, y: real, radius2: Option<real>)
    requires (radius2.Some? ==> radius2.value > 0.0) && search.Contains(x, y) && extent.Contains(x, y)
    requires Here(root, extent, x, y) != []
    ensures root != Empty && Direct([Quad(root, extent)], search, x, y, radius2, None, Here(root, extent, x, y))
  {
  }

  lemma AroundPoint(x: real, y: real, d: real, d2: real)
    requires d > 0.0 && d2 == d * d
    ensures Around(x, y, d).Contains(x, y) && d2 > 0.0
  {
    PositiveResult(d, d, d2);
  }

  lemma PositiveResult(a: real, b: real, c: real)
    requires a > 0.0 && b > 0.0 && c == a * b
    ensures c > 0.0
  {
    PositiveProduct(a, b);
  }

  lemma DirectSkip(rest: seq<Quad>, q: Quad, search: Box, x: real, y: real, radius2: Option<real>, found: Option<Datum>, here: seq<Datum>)
    requires Direct(rest + [q], search, x, y, radius2, found, here) && (q.node.Empty? || Apart(q.box, search))
    ensures Direct(rest, search, x, y, radius2, found, here)
  {
    assert (rest + [q])[|rest|] == q;
  }

  lemma DirectPush(rest: seq<Quad>, q: Quad, search: Box, x: real, y: real, radius2: Option<real>, found: Option<Datum>, here: seq<Datum>)
    requires Direct(rest + [q], search, x, y, radius2, found, here) && q.node.Cell?
    ensures Direct(PushChildren(rest, q, x, y), search, x, y, radius2, found, here)
  {
    assert (rest + [q])[|rest|] == q;
    var i, quads := Quadrant(q.box, x, y), PushChildren(rest, q, x, y);
    if found.None? { SubContains(q.box, x, y); }
    hide Here, Sub, Quadrant;
    assert quads[|quads| - 1] == Quad(q.node.Child(i), Sub(q.box, i));
    HereOfChild(q.node, q.box, x, y);
  }

  lemma HereOfChild(n: Node, b: Box, x: real, y: real)
    requires n.Cell?
    ensures var i := Quadrant(b, x, y); Here(n, b, x, y) == Here(n.Child(i), Sub(b, i), x, y)
  {
  }

  lemma DirectVisit(rest: seq<Quad>, q: Quad, search: Box, x: real, y: real, radius2: Option<real>, found: Option<Datum>, here: seq<Datum>)
    requires Direct(rest + [q], search, x, y, radius2, found, here) && q.node.Leaf? && q.node.data != []
    ensures var d := q.node.data[0];
      if Closer(x, y, d, radius2) then forall s :: Direct(rest, s, x, y, Some(Distance2(x, y, d)), Some(d), here)
      else Direct(rest, search, x, y, radius2, found, here)
  {
    assert (rest + [q])[|rest|] == q;
    var d := q.node.data[0];
    if found.None? {
      AtThePoint(d);
      assert here == q.node.data && d.x == x && d.y == y;
    } else {
      hide Distance2;
      DistanceIsNotNegative(x, y, d);
    }
  }

  lemma AtThePoint(d: Datum)
    ensures Distance2(d.x, d.y, d) == 0.0
  {
  }

  lemma DirectEnd(search: Box, x: real, y: real, radius2: Option<real>, found: Option<Datum>, here: seq<Datum>)
    requires Direct([], search, x, y, radius2, found, here)
    ensures here != [] && found == Some(here[0])
  {
  }

  lemma NotCloserThanNothing(x: real, y: real, d: Datum)
    ensures !Closer(x, y, d, Some(-1.0))
  {
    DistanceIsNotNegative(x, y, d);
  }

  method Sqrt(sqrt: real -> real, d2: real, ghost x: real, ghost y: real, ghost p: Datum) returns (d: real)
    requires IsSqrt(sqrt) && d2 == Distance2(x, y, p)
    ensures d >= 0.0 && d * d == d2
  {
    DistanceIsNotNegative(x, y, p);
    d := sqrt(d2);
  }

  lemma {:induction false} StartStack(root: Node, extent: Box, x: real, y: real)
    requires Placed(root, extent) && Proper(extent)
    ensures var quads := if root != Empty then [Quad(root, extent)] else [];
            StackPlaced(root, quads) && Accounted(root, quads, x, y, None)
    ensures BoxIsFair(root, extent, x, y, None)
  {
    DataInside(root, extent);
    if root != Empty {
      var quads := [Quad(root, extent)];
      forall d | d in root.Data()
        ensures OnStack(quads, d)
      {
        assert d in quads[0].node.Data();
      }
    }
  }

  lemma FewerCloser(root: Node, quads: seq<Quad>, x: real, y: real, radius2: Option<real>)
    requires Accounted(root, quads, x, y, None)
    ensures Accounted(root, quads, x, y, radius2)
  {
    forall d | d in root.Data()
      ensures OnStack(quads, d)
    {
      assert Closer(x, y, d, None);
    }
  }

  lemma NothingLeft(root: Node, x: real, y: real, radius2: Option<real>)
    requires Accounted(root, [], x, y, radius2)
    ensures forall d :: d in root.Data() ==> !Closer(x, y, d, radius2)
  {
  }

  lemma DistanceIsNotNegative(x: real, y: real, d: Datum)
    ensures Distance2(x, y, d) >= 0.0
  {
    FartherSquare(x - d.x, 0.0);
    FartherSquare(y - d.y, 0.0);
  }

  // Insertion

  /** Halvings until two distinct points of one box separate. */
  function Levels(b: Box, p: Datum, d: Datum): nat {
    var gap := Abs(p.x - d.x) + Abs(p.y - d.y);
    if gap > 0.0 && Proper(b) then Whole((b.x1 - b.x0 + (b.y1 - b.y0)) / gap) else 0
  }

  function Abs(r: real): real { if r < 0.0 then -r else r }

  function Whole(r: real): nat { if r < 0.0 then 0 else r.Floor }

  lemma SameQuadrantHalves(b: Box, p: Datum, d: Datum)
    requires b.Contains(p.x, p.y) && b.Contains(d.x, d.y) && (p.x != d.x || p.y != d.y)
    requires Quadrant(b, p.x, p.y) == Quadrant(b, d.x, d.y)
    ensures Levels(Sub(b, Quadrant(b, d.x, d.y)), p, d) < Levels(b, p, d)
  {
    var s := Sub(b, Quadrant(b, d.x, d.y));
    var gap := Abs(p.x - d.x) + Abs(p.y - d.y);
    var size, half := b.x1 - b.x0 + (b.y1 - b.y0), s.x1 - s.x0 + (s.y1 - s.y0);
    SubContains(b, p.x, p.y);
    SubContains(b, d.x, d.y);
    assert half == size / 2.0 && half >= gap;
    HalfRatio(size, half, gap);
  }

  lemma HalfRatio(size: real, half: real, gap: real)
    requires gap > 0.0 && half == size / 2.0 && half >= gap
    ensures Whole(half / gap) < Whole(size / gap)
  {
    var r := half / gap;
    assert r * gap == half;
    assert size / gap == 2.0 * r;
    if r < 1.0 {
      PositiveProduct(1.0 - r, gap);
    }
  }

  /** Splits a leaf until its point and the new one are in different quadrants. */
  function Split(leaf: Node, b: Box, d: Datum): (r: Node)
    requires leaf.Leaf? && Placed(leaf, b) && b.Contains(d.x, d.y)
    requires leaf.data[0].x != d.x || leaf.data[0].y != d.y
    decreases Levels(b, leaf.data[0], d)
  {
    var p := leaf.data[0];
    var i, j := Quadrant(b, d.x, d.y), Quadrant(b, p.x, p.y);
    SubContains(b, p.x, p.y);
    SubContains(b, d.x, d.y);
    if i == j then
      SameQuadrantHalves(b, p, d);
      NO_CHILDREN.With(i, Split(leaf, Sub(b, i), d))
    else NO_CHILDREN.With(j, leaf).With(i, Leaf([d]))
  }

  /** `add` below a node: descends by quadrant to a hole, a coincident leaf or a leaf to split. */
  function Add(n: Node, b: Box, d: Datum): Node
    requires Placed(n, b) && b.Contains(d.x, d.y)
    decreases n
  {
    match n
    case Empty => Leaf([d])
    case Leaf(data) =>
      if d.x == data[0].x && d.y == data[0].y then Leaf([d] + data) else Split(n, b, d)
    case Cell(_, _, _, _) =>
      var i := Quadrant(b, d.x, d.y);
      SubContains(b, d.x, d.y);
      n.With(i, Add(n.Child(i), Sub(b, i), d))
  }

  lemma EmptyCell()
    ensures NO_CHILDREN.Data() == multiset{}
    ensures forall b :: Placed(NO_CHILDREN, b)
  {
  }

  lemma SingleLeaf(b: Box, d: Datum)
    requires b.Contains(d.x, d.y)
    ensures Placed(Leaf([d]), b) && Leaf([d]).Data() == multiset{d}
  {
  }

  lemma WithData(n: Node, i: nat, c: Node, more: multiset<Datum>)
    requires n.Cell? && i < 4 && c.Data() == n.Child(i).Data() + more
    ensures n.With(i, c).Data() == n.Data() + more
  {
    DataWith(n, i, c);
    Cancel(n.With(i, c).Data(), n.Child(i).Data(), n.Data(), more);
  }

  lemma Cancel(w: multiset<Datum>, c: multiset<Datum>, n: multiset<Datum>, more: multiset<Datum>)
    requires w + c == n + (c + more)
    ensures w == n + more
  {
    forall x
      ensures w[x] == (n + more)[x]
    {
      assert (w + c)[x] == (n + (c + more))[x];
    }
  }

  lemma Neighbours(n: Node, i: nat, j: nat, c: Node)
    requires n.Cell? && i < 4 && j < 4 && i != j
    ensures n.With(j, c).Child(i) == n.Child(i) && n.With(j, c).Cell?
  {
  }

  lemma ChildOfEmpty(i: nat)
    requires i < 4
    ensures NO_CHILDREN.Child(i) == Empty && Empty.Data() == multiset{}
  {
  }

  lemma PlainLeaf(leaf: Node, b: Box, j: nat)
    requires leaf.Leaf? && j < 4
    ensures leaf.Data() == Empty.Data() + leaf.Data()
  {
  }

  lemma SplitApart(leaf: Node, b: Box, d: Datum, i: nat, j: nat)
    requires leaf.Leaf? && i < 4 && j < 4 && i != j
    requires Placed(leaf, Sub(b, j)) && Sub(b, i).Contains(d.x, d.y)
    ensures var r := NO_CHILDREN.With(j, leaf).With(i, Leaf([d]));
            Placed(r, b) && r.Data() == leaf.Data() + multiset{d}
  {
    hide Sub, Placed, Node.With, Node.Child, Node.Data;
    EmptyCell();
    var one := NO_CHILDREN.With(j, leaf);
    Neighbours(NO_CHILDREN, i, j, leaf);
    ChildOfEmpty(i);
    ChildOfEmpty(j);
    PlainLeaf(leaf, b, j);
    PlacedWith(NO_CHILDREN, b, j, leaf);
    WithData(NO_CHILDREN, j, leaf, leaf.Data());
    SingleLeaf(Sub(b, i), d);
    PlacedWith(one, b, i, Leaf([d]));
    WithData(one, i, Leaf([d]), multiset{d});
  }

  lemma {:induction false} SplitKeeps(leaf: Node, b: Box, d: Datum)
    requires leaf.Leaf? && Placed(leaf, b) && b.Contains(d.x, d.y)
    requires leaf.data[0].x != d.x || leaf.data[0].y != d.y
    ensures Placed(Split(leaf, b, d), b) && Split(leaf, b, d).Data() == leaf.Data() + multiset{d}
    decreases Levels(b, leaf.data[0], d)
  {
    var p := leaf.data[0];
    var i, j := Quadrant(b, d.x, d.y), Quadrant(b, p.x, p.y);
    SubContains(b, p.x, p.y);
    SubContains(b, d.x, d.y);
    assert Placed(leaf, Sub(b, j));
    hide Levels, Quadrant, Sub, Placed, Node.With, Node.Child, Node.Data;
    if i == j {
      EmptyCell();
      ChildOfEmpty(i);
      SameQuadrantHalves(b, p, d);
      SplitKeeps(leaf, Sub(b, i), d);
      PlacedWith(NO_CHILDREN, b, i, Split(leaf, Sub(b, i), d));
      assert Empty.Data() + (leaf.Data() + multiset{d}) == leaf.Data() + multiset{d};
      WithData(NO_CHILDREN, i, Split(leaf, Sub(b, i), d), leaf.Data() + multiset{d});
    } else {
      SplitApart(leaf, b, d, i, j);
    }
  }

  /** Insertion keeps every point in its cell and adds exactly the new datum. */
  lemma {:induction false} AddKeeps(n: Node, b: Box, d: Datum)
    requires Placed(n, b) && b.Contains(d.x, d.y)
    ensures Placed(Add(n, b, d), b) && Add(n, b, d).Data() == n.Data() + multiset{d}
    decreases n
  {
    hide Split, Sub, Quadrant;
    match n
    case Empty => SingleLeaf(b, d);
    case Leaf(data) =>
      if d.x == data[0].x && d.y == data[0].y {
        assert multiset([d] + data) == multiset([d]) + multiset(data);
      } else {
        SplitKeeps(n, b, d);
      }
    case Cell(_, _, _, _) =>
      var i := Quadrant(b, d.x, d.y);
      SubContains(b, d.x, d.y);
      PlacedChild(n, b, i);
      AddKeeps(n.Child(i), Sub(b, i), d);
      PlacedWith(n, b, i, Add(n.Child(i), Sub(b, i), d));
      WithData(n, i, Add(n.Child(i), Sub(b, i), d), multiset{d});
  }

  lemma HereWith(n: Node, b: Box, i: nat, c: Node, x: real, y: real)
    requires n.Cell? && i < 4
    ensures n.With(i, c).Cell?
    ensures Here(n.With(i, c), b, x, y) ==
      if Quadrant(b, x, y) == i then Here(c, Sub(b, i), x, y) else Here(n.Child(Quadrant(b, x, y)), Sub(b, Quadrant(b, x, y)), x, y)
  {
  }

  lemma HereOfNothing(b: Box, i: nat, x: real, y: real)
    requires i < 4
    ensures Here(NO_CHILDREN.Child(i), b, x, y) == []
  {
  }

  lemma {:induction false} SplitHere(leaf: Node, b: Box, d: Datum, x: real, y: real)
    requires leaf.Leaf? && Placed(leaf, b) && b.Contains(d.x, d.y)
    requires leaf.data[0].x != d.x || leaf.data[0].y != d.y
    ensures Here(Split(leaf, b, d), b, x, y) == if x == d.x && y == d.y then [d] else Here(leaf, b, x, y)
    decreases Levels(b, leaf.data[0], d)
  {
    hide Levels, Sub, Quadrant, Node.With, Node.Child;
    var p := leaf.data[0];
    var i, j, k := Quadrant(b, d.x, d.y), Quadrant(b, p.x, p.y), Quadrant(b, x, y);
    SubContains(b, p.x, p.y);
    SubContains(b, d.x, d.y);
    HereOfNothing(Sub(b, k), k, x, y);
    if i == j {
      SameQuadrantHalves(b, p, d);
      SplitHere(leaf, Sub(b, i), d, x, y);
      HereWith(NO_CHILDREN, b, i, Split(leaf, Sub(b, i), d), x, y);
    } else {
      HereWith(NO_CHILDREN, b, j, leaf, x, y);
      HereWith(NO_CHILDREN.With(j, leaf), b, i, Leaf([d]), x, y);
      if k != i { Neighbours(NO_CHILDREN, k, i, leaf); HereBeside(leaf, b, d, i, j, x, y); }
    }
  }

  lemma HereBeside(leaf: Node, b: Box, d: Datum, i: nat, j: nat, x: real, y: real)
    requires leaf.Leaf? && i < 4 && j < 4 && i != j && Quadrant(b, x, y) != i
    ensures Here(NO_CHILDREN.With(j, leaf).With(i, Leaf([d])), b, x, y) == Here(NO_CHILDREN.With(j, leaf), b, x, y)
  {
  }

  /** A datum is added in front of those at its point, and what is at other points stays. */
  lemma {:induction false} AddHere(n: Node, b: Box, d: Datum, x: real, y: real)
    requires Placed(n, b) && b.Contains(d.x, d.y)
    ensures Here(Add(n, b, d), b, x, y) == (if x == d.x && y == d.y then [d] else []) + Here(n, b, x, y)
    decreases n
  {
    hide Split, Sub, Quadrant, Node.With;
    match n
    case Empty =>
    case Leaf(data) =>
      if d.x != data[0].x || d.y != data[0].y { SplitHere(n, b, d, x, y); }
    case Cell(_, _, _, _) =>
      var i := Quadrant(b, d.x, d.y);
      SubContains(b, d.x, d.y);
      PlacedChild(n, b, i);
      AddHere(n.Child(i), Sub(b, i), d, x, y);
      HereWith(n, b, i, Add(n.Child(i), Sub(b, i), d), x, y);
  }

  /** On a border of the tree that has grown since, a point can have two leaves: the quadrants lead to
      the later one. */
  lemma BorderPointHasTwoLeaves()
    ensures var b, p, q := Box(0.0, 0.0, 2.0, 2.0), Datum(1.0, 0.5, 1), Datum(1.0, 0.5, 2);
      var n := Cell(Cell(Empty, Leaf([p]), Empty, Empty), Empty, Empty, Empty);
      && Placed(n, b) && Here(n, b, 1.0, 0.5) == [] && p in n.Data()
      && Here(Add(n, b, q), b, 1.0, 0.5) == [q] && Add(n, b, q).Data() == multiset{p, q}
  {
    var b, p, q := Box(0.0, 0.0, 2.0, 2.0), Datum(1.0, 0.5, 1), Datum(1.0, 0.5, 2);
    var n := Cell(Cell(Empty, Leaf([p]), Empty, Empty), Empty, Empty, Empty);
    BorderBoxes();
    EmptyCell();
    hide Placed, Sub, Quadrant, Here, Node.Data;
    SingleLeaf(Box(0.5, 0.0, 1.0, 0.5), p);
    PlacedWith(NO_CHILDREN, Sub(b, 0), 1, Leaf([p]));
    PlacedWith(NO_CHILDREN, b, 0, n.c0);
    AddHere(n, b, q, 1.0, 0.5);
    AddKeeps(n, b, q);
    BorderHere(n, b, p);
  }

  lemma BorderBoxes()
    ensures var b := Box(0.0, 0.0, 2.0, 2.0);
            Quadrant(b, 1.0, 0.5) == 1 && Sub(Sub(b, 0), 1) == Box(0.5, 0.0, 1.0, 0.5)
  {
    assert Sub(Box(0.0, 0.0, 2.0, 2.0), 0) == Box(0.0, 0.0, 1.0, 1.0);
  }

  lemma BorderHere(n: Node, b: Box, p: Datum)
    requires n == Cell(Cell(Empty, Leaf([p]), Empty, Empty), Empty, Empty, Empty) && Quadrant(b, 1.0, 0.5) == 1
    ensures Here(n, b, 1.0, 0.5) == [] && n.Data() == multiset{p}
  {
    hide Quadrant, Sub;
    assert n.c0.Data() == multiset{p};
  }

  // Growth

  predicate Square(b: Box) { b.x1 - b.x0 == b.y1 - b.y0 > 0.0 }

  /** The box of twice the side in which `b` is quadrant `i`. */
  function Doubled(b: Box, i: nat): Box
    requires i < 4
  {
    var z := (b.x1 - b.x0) * 2.0;
    Box(if i % 2 == 1 then b.x1 - z else b.x0, if i >= 2 then b.y1 - z else b.y0,
        if i % 2 == 1 then b.x1 else b.x0 + z, if i >= 2 then b.y1 else b.y0 + z)
  }

  /** The loop condition of the growth in direction `i`. */
  predicate Uncovered(b: Box, i: nat, x: real, y: real) {
    (if i % 2 == 1 then b.x0 > x else x > b.x1) || (if i >= 2 then b.y0 > y else y > b.y1)
  }

  /** The sides that growth in direction `i` does not move are already right. */
  predicate OtherSides(b: Box, i: nat, x: real, y: real) {
    (if i % 2 == 1 then x <= b.x1 else b.x0 <= x) && (if i >= 2 then y <= b.y1 else b.y0 <= y)
  }

  function Max(a: real, b: real): real { if a > b then a else b }

  /** How far the point is outside, on the moving sides. */
  function Outside(b: Box, i: nat, x: real, y: real): real {
    Max(if i % 2 == 1 then b.x0 - x else x - b.x1, if i >= 2 then b.y0 - y else y - b.y1)
  }

  lemma DoubledBox(b: Box, i: nat, x: real, y: real)
    requires Square(b) && i < 4 && OtherSides(b, i, x, y)
    ensures var b1 := Doubled(b, i);
      && Square(b1) && Sub(b1, i) == b && OtherSides(b1, i, x, y)
      && b1.x1 - b1.x0 >= b.x1 - b.x0
      && Outside(b1, i, x, y) == Outside(b, i, x, y) - (b.x1 - b.x0)
  {
  }

  lemma OneSideLess(o: real, side: real, z: real)
    requires z > 0.0 && side >= z && o - side > 0.0
    ensures Whole((o - side) / z) < Whole(o / z)
  {
    var q, r := o / z, (o - side) / z;
    assert q * z == o && r * z == o - side;
    assert (q - r) * z == side;
    if q - r < 1.0 { PositiveProduct(1.0 - (q - r), z); }
    if r < 0.0 { PositiveProduct(-r, z); }
  }

  /** Inside the box, and not on the sides that belong to the quadrants beyond. */
  predicate Interior(b: Option<Box>, x: real, y: real) {
    b.Some? && b.value.x0 <= x < b.value.x1 && b.value.y0 <= y < b.value.y1
  }

  /** The box has grown, and the quadrant it grew from last did not cover the point. */
  predicate LastDoubling(small: Box, large: Box, i: nat, x: real, y: real)
    requires i < 4
  {
    Inside(small, Sub(large, i)) && Inside(Sub(large, i), large) && !Sub(large, i).Contains(x, y)
  }

  /** The do-while loop that wraps the root until the box covers the point. */
  method Grow(root: Node, extent: Box, i: nat, x: real, y: real) returns (node: Node, b: Box)
    requires i < 4 && Square(extent) && Placed(root, extent) && OtherSides(extent, i, x, y) && !extent.Contains(x, y)
    ensures Square(b) && b.Contains(x, y) && Placed(node, b) && node.Data() == root.Data()
    ensures LastDoubling(extent, b, i, x, y)
    ensures forall u, v :: Interior(Some(extent), u, v) ==> Here(node, b, u, v) == Here(root, extent, u, v)
  {
    hide Sub, Placed, Whole, Outside, Doubled, Here, Grown;
    node, b := root, extent;
    ghost var z := extent.x1 - extent.x0;
    GrownFromStart(root, extent);
    while true
      invariant Square(b) && OtherSides(b, i, x, y) && Grown(root, extent, node, b)
      invariant b.x1 - b.x0 >= z > 0.0 && !b.Contains(x, y)
      decreases Whole(Outside(b, i, x, y) / z)
    {
      ghost var b0 := b;
      DoubledBox(b, i, x, y);
      GrownNext(root, extent, node, b, i);
      node := NO_CHILDREN.With(i, node);
      b := Doubled(b, i);
      CoveredOrOutside(b, i, x, y);
      if !Uncovered(b, i, x, y) {
        GrownInto(root, extent, node, b, b0, i);
        break;
      }
      OneSideLess(Outside(b0, i, x, y), b0.x1 - b0.x0, z);
    }
  }

  /** The tree in its grown box: the same data, and inner points lead to the same leaves. */
  ghost predicate Grown(root: Node, extent: Box, node: Node, b: Box) {
    && Placed(node, b) && node.Data() == root.Data() && Inside(extent, b)
    && forall u, v :: Interior(Some(extent), u, v) ==> Here(node, b, u, v) == Here(root, extent, u, v)
  }

  lemma GrownFromStart(root: Node, extent: Box)
    requires Placed(root, extent)
    ensures Grown(root, extent, root, extent)
  {
  }

  lemma GrownNext(root: Node, extent: Box, node: Node, b: Box, i: nat)
    requires i < 4 && Square(b) && Sub(Doubled(b, i), i) == b && Grown(root, extent, node, b)
    ensures Grown(root, extent, NO_CHILDREN.With(i, node), Doubled(b, i)) && Inside(b, Doubled(b, i)) && Inside(extent, b)
  {
    hide Sub, Placed, Doubled, Here, Node.With, Node.Data;
    WrapKeeps(node, Doubled(b, i), i);
    DoubledContains(extent, b, i);
    DoubledContains(b, b, i);
    forall u, v | Interior(Some(extent), u, v) ensures Here(NO_CHILDREN.With(i, node), Doubled(b, i), u, v) == Here(root, extent, u, v) {
      WrapHere(node, extent, b, i, u, v);
    }
  }

  lemma GrownInto(root: Node, extent: Box, node: Node, b: Box, b0: Box, i: nat)
    requires i < 4 && Grown(root, extent, node, b) && Sub(b, i) == b0 && Inside(extent, b0) && Inside(b0, b)
    ensures Placed(node, b) && node.Data() == root.Data()
    ensures forall u, v :: Interior(Some(extent), u, v) ==> Here(node, b, u, v) == Here(root, extent, u, v)
  {
  }

  lemma WrapHere(n: Node, extent: Box, b: Box, i: nat, x: real, y: real)
    requires i < 4 && Square(b) && Inside(extent, b) && Interior(Some(extent), x, y)
    ensures Here(NO_CHILDREN.With(i, n), Doubled(b, i), x, y) == Here(n, b, x, y)
  {
    assert Quadrant(Doubled(b, i), x, y) == i && Sub(Doubled(b, i), i) == b;
    HereWith(NO_CHILDREN, Doubled(b, i), i, n, x, y);
  }

  /** What grows without a new datum has nothing at a point that it did not cover. */
  lemma NothingOutside(n: Node, b: Box, n1: Node, b1: Box, x: real, y: real)
    requires Placed(n, b) && Proper(b) && Placed(n1, b1) && n1.Data() == n.Data() && !b.Contains(x, y)
    ensures Here(n1, b1, x, y) == []
  {
    hide Placed, Here;
    DataInside(n, b);
    HereIsStored(n1, b1, x, y);
  }

  /** What `Cover` makes the root of the larger box. */
  lemma KeptInLarger(n: Node, b: Box, node: Node, b1: Box, x: real, y: real)
    requires Placed(n, b) && Proper(b) && Placed(node, b1) && node.Data() == n.Data() && !b.Contains(x, y) && Inside(b, b1)
    requires forall u, v :: Interior(Some(b), u, v) ==> Here(node, b1, u, v) == Here(n, b, u, v)
    ensures var n1 := if n.Cell? then node else n;
            && Placed(n1, b1) && n1.Data() == n.Data() && Here(n1, b1, x, y) == []
            && forall u, v :: Interior(Some(b), u, v) ==> Here(n1, b1, u, v) == Here(n, b, u, v)
  {
    hide Placed, Here;
    if n.Cell? {
      NothingOutside(n, b, node, b1, x, y);
    } else {
      LeafInLarger(n, b, b1);
      NothingOutside(n, b, n, b1, x, y);
      forall u, v ensures Here(n, b1, u, v) == Here(n, b, u, v) { HereOfLeaf(n, b, b1, u, v); }
    }
  }

  lemma HereOfLeaf(n: Node, b: Box, b1: Box, x: real, y: real)
    requires !n.Cell?
    ensures Here(n, b, x, y) == Here(n, b1, x, y) && (n == Empty ==> Here(n, b, x, y) == [])
  {
  }

  predicate Inside(small: Box, large: Box) {
    large.x0 <= small.x0 && large.y0 <= small.y0 && small.x1 <= large.x1 && small.y1 <= large.y1
  }

  lemma CoveredOrOutside(b: Box, i: nat, x: real, y: real)
    requires Square(b) && OtherSides(b, i, x, y)
    ensures Uncovered(b, i, x, y) <==> !b.Contains(x, y)
    ensures Uncovered(b, i, x, y) <==> Outside(b, i, x, y) > 0.0
  {
  }

  lemma DoubledContains(extent: Box, b: Box, i: nat)
    requires i < 4 && Square(b) && Inside(extent, b)
    ensures Inside(extent, Doubled(b, i))
  {
  }

  lemma WrapKeeps(n: Node, b: Box, i: nat)
    requires i < 4 && Placed(n, Sub(b, i))
    ensures Placed(NO_CHILDREN.With(i, n), b) && NO_CHILDREN.With(i, n).Data() == n.Data()
  {
    hide Sub, Placed, Node.With;
    EmptyCell();
    ChildOfEmpty(i);
    PlacedWith(NO_CHILDREN, b, i, n);
    assert n.Data() == Empty.Data() + n.Data();
    WithData(NO_CHILDREN, i, n, n.Data());
  }

  /** A leaf or hole at the root stays in place in any larger box. */
  lemma LeafInLarger(n: Node, small: Box, large: Box)
    requires Placed(n, small) && !n.Cell? && Inside(small, large)
    ensures Placed(n, large)
  {
  }

  class Quadtree {
    var extent: Option<Box>   // None until something is covered
    var root: Node

    ghost predicate Valid()
      reads this
    {
      match extent
      case None => root == Empty
      case Some(b) => Square(b) && Placed(root, b)
    }

    /** The data stored at a point, the newest first. */
    ghost function At(x: real, y: real): seq<Datum>
      reads this
    {
      if extent.None? || !extent.value.Contains(x, y) then [] else Here(root, extent.value, x, y)
    }

    constructor ()
      ensures Valid() && root.Data() == multiset{}
    {
      extent, root := None, Empty;
    }

    method Cover(x: real, y: real)
      requires Valid()
      modifies this
      ensures Valid() && root.Data() == old(root.Data())
      ensures extent.Some? && extent.value.Contains(x, y)
      ensures old(extent).Some? ==> Inside(old(extent).value, extent.value)
      ensures old(extent).None? ==> extent.value.x0 == x.Floor as real && extent.value.y0 == y.Floor as real && extent.value.x1 == extent.value.x0 + 1.0
      ensures old(extent).Some? && old(extent).value.Contains(x, y) ==> extent == old(extent) && root == old(root)
      ensures old(extent).Some? && !old(extent).value.Contains(x, y) ==>
        exists i :: 0 <= i < 4 && LastDoubling(old(extent).value, extent.value, i, x, y)
      ensures At(x, y) == old(At(x, y))
      ensures forall u, v :: Interior(old(extent), u, v) ==> At(u, v) == old(At(u, v))
    {
      hide Placed, Here;
      if extent.None? {
        UnitBox(x, y);
        HereOfLeaf(root, Box(x.Floor as real, y.Floor as real, x.Floor as real + 1.0, y.Floor as real + 1.0), Box(0.0, 0.0, 0.0, 0.0), x, y);
        extent := Some(Box(x.Floor as real, y.Floor as real, x.Floor as real + 1.0, y.Floor as real + 1.0));
      } else {
        var b := extent.value;
        if !b.Contains(x, y) {
          var i := (if y < b.MidY() then 2 else 0) + (if x < b.MidX() then 1 else 0);
          var node, b1 := Grow(root, b, i, x, y);
          KeptInLarger(root, b, node, b1, x, y);
          if root.Cell? { root := node; }
          extent := Some(b1);
        }
      }
    }

    method Insert(d: Datum)
      requires Valid()
      modifies this
      ensures Valid() && root.Data() == old(root.Data()) + multiset{d}
      ensures At(d.x, d.y) == [d] + old(At(d.x, d.y))
      ensures forall x, y :: (x != d.x || y != d.y) && (Interior(old(extent), x, y) || extent == old(extent)) ==> At(x, y) == old(At(x, y))
    {
      hide Placed, Here;
      Cover(d.x, d.y);
      AddKeeps(root, extent.value, d);
      forall x, y ensures Here(Add(root, extent.value, d), extent.value, x, y) == (if x == d.x && y == d.y then [d] else []) + Here(root, extent.value, x, y) {
        AddHere(root, extent.value, d, x, y);
      }
      root := Add(root, extent.value, d);
    }

    /** Whatever was inserted before, the search is exact, and at a point with data it finds the newest. */
    method Nearest(x: real, y: real, radius: Option<real>, sqrt: real -> real) returns (found: Option<Datum>)
      requires Valid() && IsSqrt(sqrt)
      ensures found.Some? ==>
        && found.value in root.Data()
        && (radius.Some? ==> Distance2(x, y, found.value) < radius.value * radius.value)
      ensures found.Some? && (radius.Some? ==> radius.value >= 0.0) ==>
        forall d :: d in root.Data() ==> Distance2(x, y, found.value) <= Distance2(x, y, d)
      ensures (radius.Some? ==> radius.value >= 0.0) ==>
        (found.None? <==> forall d :: d in root.Data() ==> radius.Some? && Distance2(x, y, d) >= radius.value * radius.value)
      ensures (radius.Some? ==> radius.value > 0.0) && At(x, y) != [] ==> found == Some(At(x, y)[0])
    {
      hide Distance2, Placed, IsSqrt, Here;
      if extent.None? {
        found := None;
      } else {
        found := Find(root, extent.value, x, y, radius, sqrt);
      }
    }
  }

  lemma UnitBox(x: real, y: real)
    ensures var b := Box(x.Floor as real, y.Floor as real, x.Floor as real + 1.0, y.Floor as real + 1.0);
            Square(b) && b.Contains(x, y) && Placed(Empty, b)
  {
  }
}
