/** The linked nodes of the threaded red-black tree. Ghost trees and contexts (module RedBlackShape)
    say which tree the parent and child fields spell; sequences say what the threads spell. */
module RedBlackLinks {
  import opened RedBlackShape

  class RBNode {
    var U: RBNode?   // parent
    var C: bool      // true for red
    var L: RBNode?
    var R: RBNode?
    var P: RBNode?   // previous in order
    var N: RBNode?   // next in order

    constructor ()
    {
      U, C, L, R, P, N := null, false, null, null, null, null;
    }
  }

  type Shape = Tree<RBNode>
  type Hole = Ctx<RBNode>

  function Root(t: Shape): RBNode? {
    if t.Nil? then null else t.n
  }

  /** The parent of the hole. */
  function Above(c: Hole): RBNode? {
    if c.Top? then null else c.n
  }

  ghost function Set(t: Shape): set<RBNode> {
    match t
    case Nil => {}
    case Node(l, n, _, r) => Set(l) + {n} + Set(r)
  }

  ghost function CtxSet(c: Hole): set<RBNode> {
    match c
    case Top => {}
    case InL(up, n, _, r) => CtxSet(up) + {n} + Set(r)
    case InR(l, n, _, up) => CtxSet(up) + {n} + Set(l)
  }

  // No node occurs twice

  ghost predicate Apart(t: Shape) {
    match t
    case Nil => true
    case Node(l, n, _, r) => n !in Set(l) && n !in Set(r) && Set(l) !! Set(r) && Apart(l) && Apart(r)
  }

  ghost predicate CtxApart(c: Hole) {
    match c
    case Top => true
    case InL(up, n, _, r) => n !in Set(r) && n !in CtxSet(up) && Set(r) !! CtxSet(up) && Apart(r) && CtxApart(up)
    case InR(l, n, _, up) => n !in Set(l) && n !in CtxSet(up) && Set(l) !! CtxSet(up) && Apart(l) && CtxApart(up)
  }

  // The links spell the tree

  ghost predicate Linked(t: Shape, up: RBNode?)
    reads Set(t)`L, Set(t)`R, Set(t)`U, Set(t)`C
  {
    match t
    case Nil => true
    case Node(l, n, red, r) =>
      && n.L == Root(l) && n.R == Root(r) && n.U == up && n.C == red
      && Linked(l, n) && Linked(r, n)
  }

  ghost predicate CtxLinked(c: Hole, hole: RBNode?, root: RBNode?)
    reads CtxSet(c)`L, CtxSet(c)`R, CtxSet(c)`U, CtxSet(c)`C
  {
    match c
    case Top => hole == root
    case InL(up, n, red, r) =>
      && n.L == hole && n.R == Root(r) && n.U == Above(up) && n.C == red
      && Linked(r, n) && CtxLinked(up, n, root)
    case InR(l, n, red, up) =>
      && n.L == Root(l) && n.R == hole && n.U == Above(up) && n.C == red
      && Linked(l, n) && CtxLinked(up, n, root)
  }

  /** A proper subtree hanging under `up`. */
  ghost predicate Sub(t: Shape, up: RBNode?)
    reads Set(t)`L, Set(t)`R, Set(t)`U, Set(t)`C
  {
    Apart(t) && Linked(t, up)
  }

  /** The tree whose root field is `root` spells `t` below the hole and `c` above it. */
  ghost predicate Spells(c: Hole, t: Shape, root: RBNode?)
    reads CtxSet(c)`L, CtxSet(c)`R, CtxSet(c)`U, CtxSet(c)`C, Set(t)`L, Set(t)`R, Set(t)`U, Set(t)`C
  {
    Sub(t, Above(c)) && CtxApart(c) && Set(t) !! CtxSet(c) && CtxLinked(c, Root(t), root)
  }

  // Opening and closing one node

  lemma OpenNode(t: Shape, up: RBNode?)
    requires t.Node? && Sub(t, up)
    ensures t.n.L == Root(t.l) && t.n.R == Root(t.r) && t.n.U == up && t.n.C == t.red
    ensures Sub(t.l, t.n) && Sub(t.r, t.n)
    ensures Set(t) == Set(t.l) + {t.n} + Set(t.r)
    ensures t.n !in Set(t.l) && t.n !in Set(t.r) && Set(t.l) !! Set(t.r)
  {
  }

  lemma CloseNode(l: Shape, n: RBNode, red: bool, r: Shape, up: RBNode?)
    requires n.L == Root(l) && n.R == Root(r) && n.U == up && n.C == red
    requires Sub(l, n) && Sub(r, n)
    requires n !in Set(l) && n !in Set(r) && Set(l) !! Set(r)
    ensures Sub(Node(l, n, red, r), up)
    ensures Set(Node(l, n, red, r)) == Set(l) + {n} + Set(r)
  {
  }

  lemma RootInSet(t: Shape)
    ensures t.Nil? <==> Set(t) == {}
    ensures Root(t) != null ==> Root(t) in Set(t)
  {
    if t.Node? { assert t.n in Set(t); }
  }

  /** Moving the hole one level: what it is the left or the right child of joins the subtree. */
  lemma ZipL(up: Hole, n: RBNode, red: bool, r: Shape, t: Shape, root: RBNode?)
    ensures Spells(InL(up, n, red, r), t, root) <==> Spells(up, Node(t, n, red, r), root)
  {
    var whole := Node(t, n, red, r);
    assert Set(whole) == Set(t) + {n} + Set(r);
    assert CtxSet(InL(up, n, red, r)) == CtxSet(up) + {n} + Set(r);
  }

  lemma ZipR(l: Shape, n: RBNode, red: bool, up: Hole, t: Shape, root: RBNode?)
    ensures Spells(InR(l, n, red, up), t, root) <==> Spells(up, Node(l, n, red, t), root)
  {
    var whole := Node(l, n, red, t);
    assert Set(whole) == Set(l) + {n} + Set(t);
    assert CtxSet(InR(l, n, red, up)) == CtxSet(up) + {n} + Set(l);
  }

  // Nodes of a tree value exist already, which frames need to know

  lemma {:induction false} SetAllocated(t: Shape)
    ensures forall o :: o in Set(t) ==> allocated(o)
  {
    if t.Node? { SetAllocated(t.l); SetAllocated(t.r); }
  }

  lemma {:induction false} CtxAllocated(c: Hole)
    ensures forall o :: o in CtxSet(c) ==> allocated(o)
  {
    if c.InL? { SetAllocated(c.r); CtxAllocated(c.up); }
    if c.InR? { SetAllocated(c.l); CtxAllocated(c.up); }
  }

  // Steps inside a subtree

  method Adopt(x: RBNode?, ghost t: Shape, ghost before: RBNode?, up: RBNode?)
    requires x == Root(t) && Sub(t, before)
    modifies Set(t)`U
    ensures Sub(t, up)
  {
    if x != null {
      x.U := up;
      assert Linked(t.l, t.n) && Linked(t.r, t.n);
    }
  }

  method Paint(n: RBNode, red: bool, ghost t: Shape, ghost up: RBNode?)
    requires t.Node? && t.n == n && Sub(t, up)
    modifies n`C
    ensures Sub(t.(red := red), up) && Set(t.(red := red)) == Set(t)
  {
    hide Set, Apart, Linked;
    OpenNode(t, up);
    n.C := red;
    CloseNode(t.l, n, red, t.r, up);
  }

  method PaintLeft(n: RBNode, red: bool, ghost t: Shape, ghost up: RBNode?)
    requires t.Node? && t.l.Node? && t.l.n == n && Sub(t, up)
    modifies n`C
    ensures Sub(t.(l := t.l.(red := red)), up) && Set(t.(l := t.l.(red := red))) == Set(t)
  {
    hide Set, Apart, Linked;
    OpenNode(t, up);
    SetAllocated(t);
    RootInSet(t.l);
    Paint(n, red, t.l, t.n);
    CloseNode(t.l.(red := red), t.n, t.red, t.r, up);
  }

  method PaintRight(n: RBNode, red: bool, ghost t: Shape, ghost up: RBNode?)
    requires t.Node? && t.r.Node? && t.r.n == n && Sub(t, up)
    modifies n`C
    ensures Sub(t.(r := t.r.(red := red)), up) && Set(t.(r := t.r.(red := red))) == Set(t)
  {
    hide Set, Apart, Linked;
    OpenNode(t, up);
    SetAllocated(t);
    RootInSet(t.r);
    Paint(n, red, t.r, t.n);
    CloseNode(t.l, t.n, t.red, t.r.(red := red), up);
  }

  /** A change of colours or links inside the subtree leaves the context alone. */
  lemma SubSpells(c: Hole, t: Shape, t': Shape, root: RBNode?)
    requires CtxApart(c) && Set(t) !! CtxSet(c) && CtxLinked(c, Root(t), root)
    requires Sub(t', Above(c)) && Set(t') == Set(t) && Root(t') == Root(t)
    ensures Spells(c, t', root)
  {
  }

  method PaintAt(n: RBNode, red: bool, ghost c: Hole, ghost t: Shape, ghost root: RBNode?)
    requires Spells(c, t, root) && t.Node? && t.n == n
    modifies n`C
    ensures Spells(c, t.(red := red), root)
    ensures Set(t.(red := red)) == Set(t) && InOrder(t.(red := red)) == InOrder(t)
  {
    hide Set, Apart, Linked, CtxLinked, CtxApart, CtxSet;
    OpenNode(t, Above(c));
    CtxAllocated(c);
    Paint(n, red, t, Above(c));
    SubSpells(c, t, t.(red := red), root);
  }

  /** The rotation below `up`: `q`, the right child of `p`, becomes its parent. */
  method LowerLeft(p: RBNode, q: RBNode, ghost up: RBNode?, ghost a: Shape, ghost pc: bool, ghost b: Shape, ghost qc: bool, ghost d: Shape)
    requires Sub(Node(a, p, pc, Node(b, q, qc, d)), up)
    modifies p`U, p`R, q`U, q`L, Set(b)`U
    ensures Sub(Node(Node(a, p, pc, b), q, qc, d), up)
    ensures Set(Node(Node(a, p, pc, b), q, qc, d)) == Set(Node(a, p, pc, Node(b, q, qc, d)))
  {
    hide Linked, Apart, Set;
    ghost var right := Node(b, q, qc, d);
    OpenNode(Node(a, p, pc, right), up);
    OpenNode(right, p);
    SetAllocated(a);
    SetAllocated(d);
    var b' := q.L;
    q.U := p.U;
    p.U := q;
    p.R := b';
    Adopt(b', b, q, p);
    q.L := p;
    CloseNode(a, p, pc, b, q);
    CloseNode(Node(a, p, pc, b), q, qc, d, up);
  }

  method LowerRight(p: RBNode, q: RBNode, ghost up: RBNode?, ghost a: Shape, ghost qc: bool, ghost b: Shape, ghost pc: bool, ghost d: Shape)
    requires Sub(Node(Node(a, q, qc, b), p, pc, d), up)
    modifies p`U, p`L, q`U, q`R, Set(b)`U
    ensures Sub(Node(a, q, qc, Node(b, p, pc, d)), up)
    ensures Set(Node(a, q, qc, Node(b, p, pc, d))) == Set(Node(Node(a, q, qc, b), p, pc, d))
  {
    hide Linked, Apart, Set;
    ghost var left := Node(a, q, qc, b);
    OpenNode(Node(left, p, pc, d), up);
    OpenNode(left, p);
    SetAllocated(a);
    SetAllocated(d);
    var b' := q.R;
    q.U := p.U;
    p.U := q;
    p.L := b';
    Adopt(b', b, q, p);
    q.R := p;
    CloseNode(b, p, pc, d, q);
    CloseNode(a, q, qc, Node(b, p, pc, d), up);
  }

  // Where a node hangs

  method SetLeft(parent: RBNode, x: RBNode?, ghost c: Hole, ghost before: RBNode?, ghost root: RBNode?)
    requires c.InL? && c.n == parent && CtxApart(c) && CtxLinked(c, before, root)
    modifies parent`L
    ensures CtxLinked(c, x, root)
  {
    assert Linked(c.r, c.n);
    parent.L := x;
    assert CtxLinked(c.up, c.n, root);
  }

  method SetRight(parent: RBNode, x: RBNode?, ghost c: Hole, ghost before: RBNode?, ghost root: RBNode?)
    requires c.InR? && c.n == parent && CtxApart(c) && CtxLinked(c, before, root)
    modifies parent`R
    ensures CtxLinked(c, x, root)
  {
    assert Linked(c.l, c.n);
    parent.R := x;
    assert CtxLinked(c.up, c.n, root);
  }

  lemma EmptyTop(t: Shape, node: RBNode)
    requires Root(t) == null
    ensures t.Nil? && CtxApart(Top) && CtxLinked(Top, node, node) && Before<RBNode>(Top) == [] == InOrder(t)
  {
  }

  /** A new red node fits an empty hole. */
  lemma Attached(c: Hole, node: RBNode, root: RBNode?)
    requires CtxApart(c) && CtxLinked(c, node, root) && node !in CtxSet(c)
    requires node.L == null && node.R == null && node.U == Above(c) && node.C
    ensures Spells(c, Node(Nil, node, true, Nil), root)
  {
  }

  /** Every node of the tree is the root of a subtree below some hole. */
  lemma {:induction false} Locate(c0: Hole, t0: Shape, x: RBNode) returns (c: Hole, t: Shape)
    requires x in Set(t0)
    ensures t.Node? && t.n == x && Plug(c, t) == Plug(c0, t0)
    decreases t0
  {
    if t0.n == x {
      c, t := c0, t0;
    } else if x in Set(t0.l) {
      c, t := Locate(InL(c0, t0.n, t0.red, t0.r), t0.l, x);
    } else {
      c, t := Locate(InR(t0.l, t0.n, t0.red, c0), t0.r, x);
    }
  }

  lemma LocateIn(tree: Shape, x: RBNode) returns (c: Hole, t: Shape)
    requires x in Set(tree)
    ensures t.Node? && t.n == x && Plug(c, t) == tree
  {
    c, t := Locate(Top, tree, x);
  }

  /** RedBlackFirst: down the left children. */
  method First(node: RBNode, ghost c: Hole, ghost t: Shape, ghost root: RBNode?)
    returns (first: RBNode, ghost c': Hole, ghost t': Shape, ghost p: Hole)
    requires Spells(c, t, root) && t.Node? && t.n == node
    ensures Spells(c', t', root) && t'.Node? && t'.n == first && t'.l.Nil?
    ensures Plug(c', t') == Plug(c, t) && Before(c') == Before(c)
    ensures c' == Compose(p, c) && Plug(p, t') == t && Before(p) == [] && !p.InR?
  {
    hide Linked, Apart, Set, CtxLinked, CtxApart, CtxSet, InOrder;
    first, c', t', p := node, c, t, Top;
    OpenNode(t', Above(c'));
    while first.L != null
      invariant Spells(c', t', root) && t'.Node? && t'.n == first && first.L == Root(t'.l)
      invariant Plug(c', t') == Plug(c, t) && Before(c') == Before(c)
      invariant c' == Compose(p, c) && Plug(p, t') == t && Before(p) == [] && !p.InR?
      decreases t'
    {
      first := first.L;
      ZipL(c', t'.n, t'.red, t'.r, t'.l, root);
      c', t', p := InL(c', t'.n, t'.red, t'.r), t'.l, InL(p, t'.n, t'.red, t'.r);
      OpenNode(t', Above(c'));
    }
  }

  // Threads

  function PrevIn(s: seq<RBNode>, i: nat): RBNode?
    requires i < |s|
  {
    if i == 0 then null else s[i - 1]
  }

  function NextIn(s: seq<RBNode>, i: nat): RBNode?
    requires i < |s|
  {
    if i == |s| - 1 then null else s[i + 1]
  }

  /** The previous and next fields spell the sequence. */
  ghost predicate Threaded(s: seq<RBNode>)
    reads s`P, s`N
  {
    && (forall i {:trigger PrevIn(s, i)} :: 0 <= i < |s| ==> s[i].P == PrevIn(s, i))
    && (forall i {:trigger NextIn(s, i)} :: 0 <= i < |s| ==> s[i].N == NextIn(s, i))
  }

  ghost predicate Distinct(s: seq<RBNode>) {
    forall i, j :: 0 <= i < j < |s| ==> s[i] != s[j]
  }

  function Inserted(s: seq<RBNode>, k: nat, x: RBNode): seq<RBNode>
    requires k <= |s|
  {
    s[..k] + [x] + s[k..]
  }

  ghost function Index(s: seq<RBNode>, x: RBNode): (k: nat)
    requires x in s
    ensures k < |s| && s[k] == x
  {
    if s[0] == x then 0 else 1 + Index(s[1..], x)
  }

  lemma {:induction false} IndexOf(s: seq<RBNode>, k: nat)
    requires k < |s| && Distinct(s)
    ensures Index(s, s[k]) == k
  {
    var i := Index(s, s[k]);
    if i < k {} else if k < i {}
  }

  /** The empty hole on the right of a node lies just behind it. */
  lemma AfterNode(c: Hole, t: Shape, tree: Shape, root: RBNode?)
    requires c.InR? && Plug(c, t) == tree && Spells(Top, tree, root)
    ensures c.n in InOrder(tree) && |Before(c)| == Index(InOrder(tree), c.n) + 1
  {
    PlugInOrder(c, t);
    InOrderSet(tree);
    var s := InOrder(tree);
    var k := |Before(c)| - 1;
    assert s[k] == c.n;
    IndexOf(s, k);
  }

  lemma FirstNode(c: Hole, t: Shape, s: seq<RBNode>)
    requires t.Node? && t.l.Nil? && Before(c) == [] && InOrder(Plug(c, t)) == s
    ensures 0 < |s| && s[0] == t.n
  {
    PlugInOrder(c, t);
    assert InOrder(t) == [t.n] + InOrder(t.r);
  }

  lemma ThreadedAlone(node: RBNode)
    requires node.P == null && node.N == null
    ensures Threaded(Inserted([], 0, node))
  {
  }

  lemma PlugUp(c: Hole, t: Shape)
    requires !c.Top?
    ensures Plug(c, t) == Plug(c.up, if c.InL? then Node(t, c.n, c.red, c.r) else Node(c.l, c.n, c.red, t))
    ensures c.InL? ==> Before(c) == Before(c.up)
  {
  }

  lemma OnTheWay(c: Hole)
    ensures !c.Top? ==> c.n in CtxSet(c)
  {
  }

  lemma SetSingle(node: RBNode)
    ensures Set(Node(Nil, node, true, Nil)) == {node} && Set(Nil) == {}
  {
  }

  /** A node put into an empty hole comes behind what was before the hole. */
  lemma Filled(c: Hole, node: RBNode, s: seq<RBNode>)
    requires s == InOrder(Plug(c, Nil))
    ensures |Before(c)| <= |s|
    ensures InOrder(Plug(c, Node(Nil, node, true, Nil))) == Inserted(s, |Before(c)|, node)
  {
    PlugInOrder(c, Nil);
    PlugInOrder(c, Node(Nil, node, true, Nil));
    assert s == Before(c) + After(c);
  }

  method ThreadAfter(after: RBNode, node: RBNode, ghost s: seq<RBNode>, ghost k: nat)
    requires Threaded(s) && Distinct(s) && node !in s && k < |s| && s[k] == after
    modifies node`P, node`N, after`N, s`P
    ensures Threaded(Inserted(s, k + 1, node))
  {
    assert after.N == NextIn(s, k);
    node.P := after;
    node.N := after.N;
    if after.N != null { after.N.P := node; }
    after.N := node;
    ghost var t := Inserted(s, k + 1, node);
    forall i | 0 <= i < |t| ensures t[i].P == PrevIn(t, i) {
      if i <= k { assert old(s[i].P) == PrevIn(s, i); } else if k + 1 < i { assert old(s[i - 1].P) == PrevIn(s, i - 1); }
    }
    forall i | 0 <= i < |t| ensures t[i].N == NextIn(t, i) {
      if i <= k { assert old(s[i].N) == NextIn(s, i); } else if k + 1 < i { assert old(s[i - 1].N) == NextIn(s, i - 1); }
    }
  }

  method ThreadFirst(first: RBNode, node: RBNode, ghost s: seq<RBNode>)
    requires Threaded(s) && Distinct(s) && node !in s && 0 < |s| && s[0] == first
    modifies node`P, node`N, first`P
    ensures Threaded(Inserted(s, 0, node))
  {
    node.P := null;
    node.N := first;
    first.P := node;
    ghost var t := Inserted(s, 0, node);
    forall i | 0 <= i < |t| ensures t[i].P == PrevIn(t, i) && t[i].N == NextIn(t, i) {
      if 0 < i { assert old(s[i - 1].P) == PrevIn(s, i - 1) && old(s[i - 1].N) == NextIn(s, i - 1); }
    }
  }

  function Without(s: seq<RBNode>, k: nat): seq<RBNode>
    requires k < |s|
  {
    s[..k] + s[k + 1..]
  }

  lemma OnlyThere(s: seq<RBNode>, k: nat)
    requires Distinct(s) && k < |s|
    ensures forall i :: 0 <= i < |s| && i != k ==> s[i] != s[k]
  {
    forall i | 0 <= i < |s| && i != k ensures s[i] != s[k] {
      if i < k { assert s[i] != s[k]; } else { assert s[k] != s[i]; }
    }
  }

  method Unthread(node: RBNode, ghost s: seq<RBNode>, ghost k: nat)
    requires Threaded(s) && Distinct(s) && k < |s| && s[k] == node
    modifies s`P, s`N
    ensures Threaded(Without(s, k)) && node.P == null && node.N == null
  {
    assert node.N == NextIn(s, k) && node.P == PrevIn(s, k);
    hide Distinct;
    OnlyThere(s, k);
    if k + 1 < |s| { OnlyThere(s, k + 1); }
    if 0 < k { OnlyThere(s, k - 1); }
    if node.N != null { node.N.P := node.P; }
    if node.P != null { node.P.N := node.N; }
    node.N, node.P := null, null;
    ghost var t := Without(s, k);
    forall i | 0 <= i < |t| ensures t[i].P == PrevIn(t, i) {
      if i < k { assert old(s[i].P) == PrevIn(s, i); } else { assert old(s[i + 1].P) == PrevIn(s, i + 1); }
    }
    forall i | 0 <= i < |t| ensures t[i].N == NextIn(t, i) {
      if i < k { assert old(s[i].N) == NextIn(s, i); } else { assert old(s[i + 1].N) == NextIn(s, i + 1); }
    }
  }

  lemma DistinctJoin(a: seq<RBNode>, x: RBNode, b: seq<RBNode>)
    requires Distinct(a) && Distinct(b) && x !in a && x !in b
    requires forall i, j :: 0 <= i < |a| && 0 <= j < |b| ==> a[i] != b[j]
    ensures Distinct(a + [x] + b)
  {
    var s := a + [x] + b;
    forall i, j | 0 <= i < j < |s| ensures s[i] != s[j] {
      if i < |a| {
        assert s[i] == a[i];
        if |a| < j { assert s[j] == b[j - |a| - 1]; }
      } else {
        assert s[j] in b;
      }
    }
  }

  lemma {:induction false} InOrderSet(t: Shape)
    ensures forall i :: 0 <= i < |InOrder(t)| ==> InOrder(t)[i] in Set(t)
    ensures forall x :: x in Set(t) ==> x in InOrder(t)
    ensures Apart(t) ==> Distinct(InOrder(t))
  {
    if t.Node? {
      InOrderSet(t.l);
      InOrderSet(t.r);
      if Apart(t) {
        var a, b := InOrder(t.l), InOrder(t.r);
        forall i, j | 0 <= i < |a| && 0 <= j < |b| ensures a[i] != b[j] { assert a[i] in Set(t.l) && b[j] in Set(t.r); }
        DistinctJoin(InOrder(t.l), t.n, InOrder(t.r));
      }
    }
  }

  /** `next` takes over the colour, the children and the parent of `node`. */
  method Inherit(node: RBNode, next: RBNode, ghost t: Shape, ghost up: RBNode?)
    requires Sub(t, up) && t.Node? && t.n == node && next !in Set(t)
    modifies next`U, next`C, next`L, next`R, Set(t.l)`U, Set(t.r)`U
    ensures Sub(t.(n := next), up) && Set(t.(n := next)) == Set(t.l) + {next} + Set(t.r)
  {
    hide Linked, Apart, Set;
    OpenNode(t, up);
    SetAllocated(t);
    next.C := node.C;
    next.L := node.L;
    next.U := node.U;
    next.R := node.R;
    Adopt(node.L, t.l, node, next);
    Adopt(node.R, t.r, node, next);
    CloseNode(t.l, next, t.red, t.r, up);
  }

  /** The left child `next` of `parent` leaves its place to its right child `x`. */
  method TakeOut(parent: RBNode, next: RBNode, x: RBNode?, ghost c: Hole, ghost t: Shape, ghost root: RBNode?)
    requires Spells(c, t, root) && c.InL? && c.n == parent && t.Node? && t.n == next && t.l.Nil? && x == Root(t.r)
    modifies parent`L, Set(t.r)`U
    ensures Spells(c, t.r, root)
  {
    hide Linked, Apart, Set, CtxLinked, CtxApart, CtxSet;
    OpenNode(t, Above(c));
    SetAllocated(t);
    CtxAllocated(c);
    OnTheWay(c);
    SetLeft(parent, x, c, next, root);
    Adopt(x, t.r, next, parent);
  }

  ghost function Nodes(c: Hole, t: Shape): set<RBNode> {
    CtxSet(c) + Set(t)
  }

  lemma ZipUp(c: Hole, t: Shape, root: RBNode?)
    requires !c.Top?
    ensures var t1 := if c.InL? then Node(t, c.n, c.red, c.r) else Node(c.l, c.n, c.red, t);
            && (Spells(c, t, root) <==> Spells(c.up, t1, root))
            && Nodes(c, t) == Nodes(c.up, t1)
  {
    if c.InL? { ZipL(c.up, c.n, c.red, c.r, t, root); } else { ZipR(c.l, c.n, c.red, c.up, t, root); }
  }

  lemma SetRecolored(t: Shape, t': Shape)
    requires t.Node? && t.l.Node? && t.r.Node?
    requires exists a: bool, b: bool, d: bool :: t' == Node(t.l.(red := a), t.n, b, t.r.(red := d))
    ensures Set(t') == Set(t) && InOrder(t') == InOrder(t)
  {
  }

  lemma BlackRoot(t: Shape, up: RBNode?)
    requires Sub(t, up)
    ensures Red(t) <==> Root(t) != null && Root(t).C
  {
  }

  /** The hole is a right child exactly when the right link says so. */
  lemma WhichChild(c: Hole, t: Shape, up: RBNode?)
    requires !c.Top? && t.Node? && Sub(if c.InL? then Node(t, c.n, c.red, c.r) else Node(c.l, c.n, c.red, t), up)
    ensures c.InR? <==> c.n.R == t.n
    ensures c.InL? <==> c.n.L == t.n
  {
    RootInSet(t);
    if c.InL? { RootInSet(c.r); } else { RootInSet(c.l); }
  }

  /** The outer case: the parent rises over the grandparent. */
  lemma RaisedOuter(t: Shape, p: RBNode, b: Shape, g: RBNode, u: Shape, up: Hole)
    ensures var c := InL(InL(up, g, false, u), p, true, b);
            var c' := InL(up, p, false, Node(b, g, true, u));
            InOrder(Plug(c', t)) == InOrder(Plug(c, t)) && Nodes(c', t) == Nodes(c, t)
  {
    hide InOrder;
    var before, after := Node(Node(t, p, true, b), g, false, u), Node(t, p, false, Node(b, g, true, u));
    RotationInOrder(t, p, true, b, g, false, u, false, true);
    SameInOrder(up, before, after);
    var c, c' := InL(InL(up, g, false, u), p, true, b), InL(up, p, false, Node(b, g, true, u));
    assert Plug(c, t) == Plug(up, before);
    assert Plug(c', t) == Plug(up, after);
    assert Nodes(c, t) == Nodes(c', t) by {
      assert Set(Node(b, g, true, u)) == Set(b) + {g} + Set(u);
      assert CtxSet(c) == CtxSet(up) + {g} + Set(u) + {p} + Set(b);
    }
  }

  /** The inner case: the focus first rises over the parent. */
  lemma {:induction false} RaisedInner(s: Shape, p: RBNode, t: Shape, g: RBNode, u: Shape, up: Hole)
    requires t.Node? && t.red
    ensures var c := InR(s, p, true, InL(up, g, false, u));
            var c' := InL(up, t.n, false, Node(t.r, g, true, u));
            var t' := Node(s, p, true, t.l);
            InOrder(Plug(c', t')) == InOrder(Plug(c, t)) && Nodes(c', t') == Nodes(c, t)
  {
    hide InOrder;
    var c := InR(s, p, true, InL(up, g, false, u));
    var t' := Node(s, p, true, t.l);
    RaisedOuter(t', t.n, t.r, g, u, up);
    RotationInOrder(s, p, true, t.l, t.n, true, t.r, true, true);
    var mid := InL(up, g, false, u);
    SameInOrder(mid, Node(t', t.n, true, t.r), Node(s, p, true, t));
    assert Plug(c, t) == Plug(mid, Node(s, p, true, t));
    assert Plug(InL(mid, t.n, true, t.r), t') == Plug(mid, Node(t', t.n, true, t.r));
  }

  lemma RaisedOuterRight(t: Shape, p: RBNode, b: Shape, g: RBNode, u: Shape, up: Hole)
    ensures var c := InR(b, p, true, InR(u, g, false, up));
            var c' := InR(Node(u, g, true, b), p, false, up);
            InOrder(Plug(c', t)) == InOrder(Plug(c, t)) && Nodes(c', t) == Nodes(c, t)
  {
    hide InOrder;
    var before, after := Node(u, g, false, Node(b, p, true, t)), Node(Node(u, g, true, b), p, false, t);
    RotationInOrder(u, g, true, b, p, false, t, false, true);
    SameInOrder(up, before, after);
    var c, c' := InR(b, p, true, InR(u, g, false, up)), InR(Node(u, g, true, b), p, false, up);
    assert Plug(c, t) == Plug(up, before);
    assert Plug(c', t) == Plug(up, after);
    assert Nodes(c, t) == Nodes(c', t) by {
      assert Set(Node(u, g, true, b)) == Set(u) + {g} + Set(b);
      assert CtxSet(c) == CtxSet(up) + {g} + Set(u) + {p} + Set(b);
    }
  }

  lemma {:induction false} RaisedInnerRight(s: Shape, p: RBNode, t: Shape, g: RBNode, u: Shape, up: Hole)
    requires t.Node? && t.red
    ensures var c := InL(InR(u, g, false, up), p, true, s);
            var c' := InR(Node(u, g, true, t.l), t.n, false, up);
            var t' := Node(t.r, p, true, s);
            InOrder(Plug(c', t')) == InOrder(Plug(c, t)) && Nodes(c', t') == Nodes(c, t)
  {
    hide InOrder;
    var mid := InR(u, g, false, up);
    var c := InL(mid, p, true, s);
    var t' := Node(t.r, p, true, s);
    RaisedOuterRight(t', t.n, t.l, g, u, up);
    RotationInOrder(t.l, t.n, true, t.r, p, true, s, true, true);
    SameInOrder(mid, Node(t.l, t.n, true, t'), Node(t, p, true, s));
    assert Plug(c, t) == Plug(mid, Node(t, p, true, s));
    assert Plug(InR(t.l, t.n, true, mid), t') == Plug(mid, Node(t.l, t.n, true, t'));
  }

  /** Moving the hole all the way up. */
  lemma {:induction false} ZipAll(c: Hole, t: Shape, root: RBNode?)
    ensures Spells(c, t, root) <==> Spells(Top, Plug(c, t), root)
    ensures Set(Plug(c, t)) == Nodes(c, t)
    decreases Depth(c)
  {
    if !c.Top? {
      ZipUp(c, t, root);
      ZipAll(c.up, if c.InL? then Node(t, c.n, c.red, c.r) else Node(c.l, c.n, c.red, t), root);
    }
  }

  /** What the parent's fields say. */
  lemma OpenParent(c: Hole, t: Shape, root: RBNode?)
    requires Spells(c, t, root) && !c.Top?
    ensures c.n.U == Above(c.up) && c.n.C == c.red
  {
  }

  /** A red parent has a black parent, and hangs on the side its links say. */
  lemma OpenAbove(c: Hole, t: Shape, h: nat, root: RBNode?)
    requires Spells(c, t, root) && !c.Top? && c.n.C && CtxGood(c, h)
    ensures c.red && !c.up.Top? && !c.up.red && c.n.U == c.up.n
    ensures c.up.InL? <==> c.up.n.L == c.n
  {
    hide Linked, Apart, Set, CtxLinked, CtxApart, CtxSet;
    OpenParent(c, t, root);
    ZipUp(c, t, root);
    var pt := if c.InL? then Node(t, c.n, c.red, c.r) else Node(c.l, c.n, c.red, t);
    ZipUp(c.up, pt, root);
    WhichChild(c.up, pt, Above(c.up.up));
  }

  lemma {:induction false} PlugIsNode(c: Hole, t: Shape)
    requires t.Node?
    ensures Plug(c, t).Node?
    decreases Depth(c)
  {
    if !c.Top? { PlugIsNode(c.up, if c.InL? then Node(t, c.n, c.red, c.r) else Node(c.l, c.n, c.red, t)); }
  }

  lemma WholeTree(t: Shape, root: RBNode?)
    ensures Spells(Top, t, root) <==> Sub(t, null) && root == Root(t)
  {
  }

  lemma PlugTop(t: Shape)
    ensures Plug(Top, t) == t
  {
  }

  lemma Recoloured(t: Shape, red: bool)
    requires t.Node?
    ensures InOrder(t.(red := red)) == InOrder(t) && Set(t.(red := red)) == Set(t)
  {
  }

  // Removal

  /** The subtree in the hole is black, and one black node short. */
  ghost predicate Short(c: Hole, t: Shape, h: nat) {
    Good(t, h) && !Red(t) && CtxGood(c, h + 1)
  }

  lemma SiblingRaised(up: Hole, t: Shape, p: RBNode, s: RBNode, a: Shape, b: Shape)
    ensures var c, c' := InL(up, p, false, Node(a, s, true, b)), InL(InL(up, s, false, b), p, true, a);
            Nodes(c', t) == Nodes(c, t) && InOrder(Plug(c', t)) == InOrder(Plug(c, t))
  {
    hide InOrder;
    var c, c' := InL(up, p, false, Node(a, s, true, b)), InL(InL(up, s, false, b), p, true, a);
    var before, after := Node(t, p, false, Node(a, s, true, b)), Node(Node(t, p, true, a), s, false, b);
    RotationInOrder(t, p, true, a, s, false, b, false, true);
    SameInOrder(up, before, after);
    assert Plug(c, t) == Plug(up, before);
    assert Plug(c', t) == Plug(up, after);
    assert Nodes(c, t) == Nodes(c', t) by {
      assert Set(Node(a, s, true, b)) == Set(a) + {s} + Set(b);
      assert CtxSet(c') == CtxSet(up) + {s} + Set(b) + {p} + Set(a);
    }
  }

  lemma LeanedGood(inner: Shape, x: RBNode, s: RBNode, d: Shape, h: nat)
    requires Good(Node(inner, s, false, d), h + 1) && Red(inner) && !Red(d)
    ensures Good(Node(inner.l, x, false, Node(inner.r, s, true, d)), h + 1)
  {
    assert Good(inner, h) && Good(d, h);
    assert Good(Node(inner.r, s, true, d), h);
  }

  lemma TurnedGood(t: Shape, p: RBNode, a: Shape, s: RBNode, col: bool, outer: Shape, h: nat)
    requires Good(t, h) && Good(Node(a, s, false, outer), h + 1) && Red(outer)
    ensures Good(Node(Node(t, p, false, a), s, col, outer.(red := false)), if col then h + 1 else h + 2)
  {
    assert Good(a, h) && Good(outer, h);
    assert Good(Node(t, p, false, a), h + 1);
    assert Good(outer.l, h) && Good(outer.r, h);
    assert Good(outer.(red := false), h + 1);
  }

  lemma Leaned(up: Hole, t: Shape, p: RBNode, col: bool, a: Shape, x: RBNode, b: Shape, s: RBNode, d: Shape)
    ensures var c, c' := InL(up, p, col, Node(Node(a, x, true, b), s, false, d)), InL(up, p, col, Node(a, x, false, Node(b, s, true, d)));
            Nodes(c', t) == Nodes(c, t) && InOrder(Plug(c', t)) == InOrder(Plug(c, t))
  {
    var sib, sib' := Node(Node(a, x, true, b), s, false, d), Node(a, x, false, Node(b, s, true, d));
    RotationInOrder(a, x, true, b, s, false, d, false, true);
    SameInOrder(InR(t, p, col, up), sib, sib');
    assert Set(sib) == Set(sib');
  }

  lemma Turned(up: Hole, t: Shape, p: RBNode, col: bool, a: Shape, s: RBNode, outer: Shape)
    requires outer.Node?
    ensures var c, t' := InL(up, p, col, Node(a, s, false, outer)), Node(Node(t, p, false, a), s, col, outer.(red := false));
            Nodes(up, t') == Nodes(c, t) && InOrder(Plug(up, t')) == InOrder(Plug(c, t))
  {
    var outer' := outer.(red := false);
    var before, after := Node(t, p, col, Node(a, s, false, outer)), Node(Node(t, p, false, a), s, col, outer');
    RotationInOrder(t, p, false, a, s, col, outer', col, false);
    assert InOrder(outer') == InOrder(outer) && Set(outer') == Set(outer);
    assert InOrder(Node(a, s, false, outer)) == InOrder(Node(a, s, false, outer'));
    SameInOrder(up, before, after);
    assert Set(before) == Set(after) by {
      assert Set(Node(a, s, false, outer)) == Set(a) + {s} + Set(outer);
    }
    var c := InL(up, p, col, Node(a, s, false, outer));
    assert Nodes(c, t) == CtxSet(up) + Set(before);
  }

  lemma Demoted(c: Hole, t: Shape, sib: Shape)
    requires c.InL? && Set(sib) == Set(c.r) && InOrder(sib) == InOrder(c.r)
    ensures var t' := Node(t, c.n, c.red, sib);
            Nodes(c.up, t') == Nodes(c, t) && InOrder(Plug(c.up, t')) == InOrder(Plug(c, t))
  {
    SameInOrder(c.up, Node(t, c.n, c.red, c.r), Node(t, c.n, c.red, sib));
  }

  /** The sibling of a short left child, as the fields show it. */
  lemma OpenLeft(c: Hole, t: Shape, h: nat, root: RBNode?)
    requires Spells(c, t, root) && c.InL? && Short(c, t, h)
    ensures c.r.Node? && c.n.R == c.r.n && c.r.n.C == c.r.red && c.r.n.L == Root(c.r.l) && c.r.n.R == Root(c.r.r)
    ensures Red(c.r.l) <==> c.r.n.L != null && c.r.n.L.C
    ensures Red(c.r.r) <==> c.r.n.R != null && c.r.n.R.C
    ensures c.n in Nodes(c, t) && c.r.n in Nodes(c, t)
  {
    assert Good(c.r, h + 1);
    assert Linked(c.r, c.n);
    assert c.r.l.Node? ==> Linked(c.r.l, c.r.n);
    assert c.r.r.Node? ==> Linked(c.r.r, c.r.n);
  }

  // Mirror images

  lemma SiblingRaisedRight(up: Hole, t: Shape, p: RBNode, s: RBNode, a: Shape, b: Shape)
    ensures var c, c' := InR(Node(a, s, true, b), p, false, up), InR(b, p, true, InR(a, s, false, up));
            Nodes(c', t) == Nodes(c, t) && InOrder(Plug(c', t)) == InOrder(Plug(c, t))
  {
    hide InOrder;
    var c, c' := InR(Node(a, s, true, b), p, false, up), InR(b, p, true, InR(a, s, false, up));
    var before, after := Node(Node(a, s, true, b), p, false, t), Node(a, s, false, Node(b, p, true, t));
    RotationInOrder(a, s, true, b, p, false, t, false, true);
    SameInOrder(up, before, after);
    assert Plug(c, t) == Plug(up, before);
    assert Plug(c', t) == Plug(up, after);
    assert Nodes(c, t) == Nodes(c', t) by {
      assert Set(Node(a, s, true, b)) == Set(a) + {s} + Set(b);
      assert CtxSet(c') == CtxSet(up) + {s} + Set(b) + {p} + Set(a);
    }
  }

  lemma LeanedGoodRight(inner: Shape, x: RBNode, s: RBNode, d: Shape, h: nat)
    requires Good(Node(d, s, false, inner), h + 1) && Red(inner) && !Red(d)
    ensures Good(Node(Node(d, s, true, inner.l), x, false, inner.r), h + 1)
  {
    assert Good(inner, h) && Good(d, h);
    assert Good(Node(d, s, true, inner.l), h);
  }

  lemma TurnedGoodRight(t: Shape, p: RBNode, a: Shape, s: RBNode, col: bool, outer: Shape, h: nat)
    requires Good(t, h) && Good(Node(outer, s, false, a), h + 1) && Red(outer)
    ensures Good(Node(outer.(red := false), s, col, Node(a, p, false, t)), if col then h + 1 else h + 2)
  {
    assert Good(a, h) && Good(outer, h);
    assert Good(Node(a, p, false, t), h + 1);
    assert Good(outer.l, h) && Good(outer.r, h);
    assert Good(outer.(red := false), h + 1);
  }

  lemma LeanedRight(up: Hole, t: Shape, p: RBNode, col: bool, a: Shape, x: RBNode, b: Shape, s: RBNode, d: Shape)
    ensures var c, c' := InR(Node(d, s, false, Node(a, x, true, b)), p, col, up), InR(Node(Node(d, s, true, a), x, false, b), p, col, up);
            Nodes(c', t) == Nodes(c, t) && InOrder(Plug(c', t)) == InOrder(Plug(c, t))
  {
    var sib, sib' := Node(d, s, false, Node(a, x, true, b)), Node(Node(d, s, true, a), x, false, b);
    RotationInOrder(d, s, true, a, x, false, b, false, true);
    SameInOrder(InL(up, p, col, t), sib, sib');
    assert Set(sib) == Set(sib');
  }

  lemma TurnedRight(up: Hole, t: Shape, p: RBNode, col: bool, a: Shape, s: RBNode, outer: Shape)
    requires outer.Node?
    ensures var c, t' := InR(Node(outer, s, false, a), p, col, up), Node(outer.(red := false), s, col, Node(a, p, false, t));
            Nodes(up, t') == Nodes(c, t) && InOrder(Plug(up, t')) == InOrder(Plug(c, t))
  {
    var outer' := outer.(red := false);
    var before, after := Node(Node(outer, s, false, a), p, col, t), Node(outer', s, col, Node(a, p, false, t));
    RotationInOrder(outer', s, false, a, p, col, t, col, false);
    assert InOrder(outer') == InOrder(outer) && Set(outer') == Set(outer);
    assert InOrder(Node(outer, s, false, a)) == InOrder(Node(outer', s, false, a));
    SameInOrder(up, before, after);
    assert Set(before) == Set(after) by {
      assert Set(Node(outer, s, false, a)) == Set(a) + {s} + Set(outer);
    }
    var c := InR(Node(outer, s, false, a), p, col, up);
    assert Nodes(c, t) == CtxSet(up) + Set(before);
  }

  lemma DemotedRight(c: Hole, t: Shape, sib: Shape)
    requires c.InR? && Set(sib) == Set(c.l) && InOrder(sib) == InOrder(c.l)
    ensures var t' := Node(sib, c.n, c.red, t);
            Nodes(c.up, t') == Nodes(c, t) && InOrder(Plug(c.up, t')) == InOrder(Plug(c, t))
  {
    SameInOrder(c.up, Node(c.l, c.n, c.red, t), Node(sib, c.n, c.red, t));
  }

  lemma OpenRight(c: Hole, t: Shape, h: nat, root: RBNode?)
    requires Spells(c, t, root) && c.InR? && Short(c, t, h)
    ensures c.l.Node? && c.n.L == c.l.n && c.l.n.C == c.l.red && c.l.n.L == Root(c.l.l) && c.l.n.R == Root(c.l.r)
    ensures Red(c.l.l) <==> c.l.n.L != null && c.l.n.L.C
    ensures Red(c.l.r) <==> c.l.n.R != null && c.l.n.R.C
    ensures c.n in Nodes(c, t) && c.l.n in Nodes(c, t)
  {
    assert Good(c.l, h + 1);
    assert Linked(c.l, c.n);
    assert c.l.l.Node? ==> Linked(c.l.l, c.l.n);
    assert c.l.r.Node? ==> Linked(c.l.r, c.l.n);
  }

  /** A short subtree is the whole tree exactly when it hangs on the root field; otherwise its
      sibling is not empty, and the parent's left link tells its side. */
  lemma WhichSide(c: Hole, t: Shape, h: nat, root: RBNode?)
    requires Spells(c, t, root) && Short(c, t, h)
    ensures c.Top? <==> Root(t) == root
    ensures !c.Top? ==> (c.InL? <==> c.n.L == Root(t))
  {
    RootInSet(t);
    if c.InR? { OpenRight(c, t, h, root); RootInSet(c.l); }
    if !c.Top? { RootOnTheWay(c, Root(t), root); }
  }

  lemma {:induction false} RootOnTheWay(c: Hole, hole: RBNode?, root: RBNode?)
    requires CtxLinked(c, hole, root) && !c.Top?
    ensures root in CtxSet(c)
    decreases Depth(c)
  {
    if !c.up.Top? { RootOnTheWay(c.up, c.n, root); }
  }

  /** The whole tree as a subtree of the empty context. */
  lemma Flat(c: Hole, t: Shape, k: nat, root: RBNode?) returns (c': Hole, t': Shape, k': nat)
    requires Spells(c, t, root) && Good(t, k) && CtxGood(c, k) && (Red(t) ==> !RedAbove(c))
    ensures Spells(c', t', root) && Good(t', k') && CtxGood(c', k') && !Red(t') && Root(t') == root
    ensures Nodes(c', t') == Nodes(c, t) && Plug(c', t') == Plug(c, t)
  {
    PlugIsRedBlack(c, t, k);
    ZipAll(c, t, root);
    c', t' := Top, Plug(c, t);
    WholeTree(t', root);
    k' :| Good(t', k');
  }

  // What is left after a removal

  ghost function Other(t: Shape): Shape
    requires t.Node?
  {
    if t.l.Nil? then t.r else t.l
  }

  /** The colours below and above a removed node: the subtree is one black node short unless it was red. */
  ghost predicate Gap(c: Hole, t: Shape, h: nat, red: bool) {
    Good(t, h) && CtxGood(c, if red then h else h + 1) && (red ==> !Red(t))
  }

  /** In order, `whole` is the tree with `t` in the hole `c` without the root of `t`. */
  ghost predicate Spliced(c: Hole, t: Shape, whole: Shape)
    requires t.Node?
  {
    InOrder(whole) == Before(c) + InOrder(t.l) + InOrder(t.r) + After(c)
  }

  lemma BypassedOrder(c: Hole, t: Shape)
    requires t.Node? && (t.l.Nil? || t.r.Nil?)
    ensures Spliced(c, t, Plug(c, Other(t))) && (t.l.Nil? ==> Set(t.l) == {}) && (t.r.Nil? ==> Set(t.r) == {})
  {
    PlugInOrder(c, Other(t));
  }


  lemma NearOrder(c: Hole, t: Shape)
    requires t.Node? && t.r.Node? && t.r.l.Nil?
    ensures Spliced(c, t, Plug(InR(t.l, t.r.n, t.red, c), t.r.r)) && Set(t.r.l) == {}
  {
    FarOrder(c, t, Top, t.r);
  }

  /** Moving the hole up a path. */
  lemma {:induction false} ZipPath(p: Hole, c: Hole, t: Shape, root: RBNode?)
    ensures Spells(Compose(p, c), t, root) <==> Spells(c, Plug(p, t), root)
    ensures Set(Plug(p, t)) == CtxSet(p) + Set(t) && CtxSet(Compose(p, c)) == CtxSet(p) + CtxSet(c)
    ensures Above(Compose(p, c)) == if p.Top? then Above(c) else p.n
    ensures p.InL? ==> Compose(p, c).InL?
    decreases Depth(p)
  {
    if !p.Top? {
      ZipUp(Compose(p, c), t, root);
      ZipPath(p.up, c, if p.InL? then Node(t, p.n, p.red, p.r) else Node(p.l, p.n, p.red, t), root);
    }
  }

  lemma Regroup<T>(a: seq<T>, b: seq<T>, x: T, d: seq<T>, e: seq<T>)
    ensures a + b + [x] + d + e == a + b + ([x] + d) + e
  {
    assert a + b + ([x] + d) == a + b + [x] + d;
  }

  lemma HeadFirst<T>(x: T, a: seq<T>, b: seq<T>)
    ensures [] + ([] + [x] + a) + b == [x] + ([] + a + b)
  {
  }

  /** The first node at the end of a leftmost path comes first in order. */
  lemma HeadOf(p: Hole, s: Shape)
    requires Before(p) == [] && s.Node? && s.l.Nil?
    ensures InOrder(Plug(p, s)) == [s.n] + InOrder(Plug(p, s.r))
  {
    hide Plug, Before, After;
    PlugInOrder(p, s);
    PlugInOrder(p, s.r);
    HeadFirst(s.n, InOrder(s.r), After(p));
  }

  lemma FarOrder(c: Hole, t: Shape, p: Hole, s: Shape)
    requires t.Node? && Before(p) == [] && Plug(p, s) == t.r && s.Node? && s.l.Nil?
    ensures Spliced(c, t, Plug(Compose(p, InR(t.l, s.n, t.red, c)), s.r))
  {
    hide InOrder, Plug;
    var hole, right := InR(t.l, s.n, t.red, c), Plug(p, s.r);
    HeadOf(p, s);
    PlugCompose(p, hole, s.r);
    PlugInOrder(hole, right);
    Regroup(Before(c), InOrder(t.l), s.n, InOrder(right), After(c));
  }

  lemma RootColor(t: Shape, up: RBNode?)
    requires Sub(t, up)
    ensures Red(t) <==> Root(t) != null && Root(t).C
  {
  }

  /** A leftmost path is empty exactly when its end is its start. */
  lemma {:induction false} SamePath(p: Hole, c: Hole, s: Shape, root: RBNode?)
    requires Spells(Compose(p, c), s, root) && s.Node? && !p.InR?
    ensures if Root(Plug(p, s)) == s.n then Plug(p, s) == s else p.InL?
  {
    if p.InL? {
      ZipPath(p, c, s, root);
      RootOfPath(p, s);
      OnTheWay(p);
    }
  }

  lemma {:induction false} RootOfPath(p: Hole, s: Shape)
    requires !p.Top?
    ensures Root(Plug(p, s)) in CtxSet(p)
    decreases Depth(p)
  {
    if !p.up.Top? { RootOfPath(p.up, if p.InL? then Node(s, p.n, p.red, p.r) else Node(p.l, p.n, p.red, s)); }
  }

  lemma InOrderNode(t: Shape)
    requires t.Node?
    ensures InOrder(t) == InOrder(t.l) + [t.n] + InOrder(t.r)
  {
  }

  lemma WithoutMiddle(a: seq<RBNode>, b: seq<RBNode>, x: RBNode, d: seq<RBNode>, e: seq<RBNode>)
    ensures var s, k := a + (b + [x] + d) + e, |a| + |b|;
            k < |s| && s[k] == x && Without(s, k) == a + b + d + e
  {
  }

  lemma SplicedOut(c: Hole, t: Shape, tree: Shape, whole: Shape, root: RBNode?)
    requires t.Node? && Plug(c, t) == tree && Spliced(c, t, whole) && Apart(tree)
    ensures t.n in InOrder(tree) && InOrder(whole) == Without(InOrder(tree), Index(InOrder(tree), t.n))
  {
    hide InOrder, Apart, Plug, Before, After;
    PlugInOrder(c, t);
    InOrderSet(tree);
    InOrderNode(t);
    WithoutMiddle(Before(c), InOrder(t.l), t.n, InOrder(t.r), After(c));
    IndexOf(InOrder(tree), |Before(c)| + |InOrder(t.l)|);
  }
}
