/** The threaded red-black tree: insertion and removal, with their repair loops. */
module RedBlackTree {
  import opened RedBlackShape
  import opened RedBlackLinks

  class RedBlackTree {
    var root: RBNode?
    ghost var tree: Shape

    constructor ()
      ensures Valid() && tree == Nil
    {
      root, tree := null, Nil;
      assert Good<RBNode>(Nil, 0);
    }

    /** The links spell the red-black tree `tree`, and the threads its in-order sequence. */
    ghost predicate Valid()
      reads this, Set(tree)
    {
      InOrderSet(tree);
      Spells(Top, tree, root) && RedBlack(tree) && Threaded(InOrder(tree))
    }

    /** Makes `node` the right child of `after`, or the left child of the first node on its right. */
    method HangBehind(after: RBNode, node: RBNode) returns (parent: RBNode, ghost c: Hole)
      requires Spells(Top, tree, root) && after in Set(tree)
      modifies Set(tree)`L, Set(tree)`R
      ensures CtxApart(c) && CtxLinked(c, node, root) && parent == Above(c) && Plug(c, Nil) == tree
      ensures after in InOrder(tree) && |Before(c)| == Index(InOrder(tree), after) + 1
    {
      hide Linked, Apart, Set, CtxLinked, CtxApart, CtxSet, InOrder, Plug, Before;
      ghost var t;
      c, t := LocateIn(tree, after);
      ZipAll(c, t, root);
      OpenNode(t, Above(c));
      ZipUp(InR(t.l, after, t.red, c), t.r, root);
      c, t := InR(t.l, after, t.red, c), t.r;
      PlugUp(c, t);
      AfterNode(c, t, tree, root);
      if after.R != null {
        ghost var p;
        parent, c, t, p := First(after.R, c, t, root);
        OpenNode(t, Above(c));
        ZipUp(InL(c, parent, t.red, t.r), Nil, root);
        c := InL(c, parent, t.red, t.r);
        PlugUp(c, Nil);
        ZipAll(c, Nil, root);
        OnTheWay(c);
        SetLeft(parent, node, c, null, root);
      } else {
        parent := after;
        SetRight(parent, node, c, null, root);
      }
    }

    /** Makes `node` the left child of the first node. */
    method HangFirst(node: RBNode) returns (parent: RBNode, ghost c: Hole)
      requires Spells(Top, tree, root) && root != null
      modifies Set(tree)`L
      ensures CtxApart(c) && CtxLinked(c, node, root) && parent == Above(c) && Plug(c, Nil) == tree
      ensures |Before(c)| == 0 && InOrder(tree) != [] && InOrder(tree)[0] == parent
    {
      hide Linked, Apart, Set, CtxLinked, CtxApart, CtxSet, InOrder;
      ghost var t;
      WholeTree(tree, root);
      ghost var p;
      parent, c, t, p := First(root, Top, tree, root);
      OpenNode(t, Above(c));
      ZipAll(c, t, root);
      FirstNode(c, t, InOrder(tree));
      ZipL(c, parent, t.red, t.r, Nil, root);
      c := InL(c, parent, t.red, t.r);
      SetLeft(parent, node, c, null, root);
    }

    /** The second half of an insertion: a red leaf, then the repair. */
    method Settle(parent: RBNode?, node: RBNode, ghost c: Hole)
      requires CtxApart(c) && CtxLinked(c, node, root) && parent == Above(c) && Plug(c, Nil) == tree
      requires RedBlack(tree) && node !in Set(tree)
      modifies `root, `tree, Set(tree)`L, Set(tree)`R, Set(tree)`U, Set(tree)`C, node`L, node`R, node`U, node`C
      ensures Spells(Top, tree, root) && RedBlack(tree)
      ensures |Before(c)| <= |old(InOrder(tree))| && InOrder(tree) == Inserted(old(InOrder(tree)), |Before(c)|, node)
      ensures Set(tree) == old(Set(tree)) + {node}
    {
      hide Linked, Apart, Set, CtxLinked, CtxApart, CtxSet, InOrder;
      ZipAll(c, Nil, root);
      SetSingle(node);
      CtxAllocated(c);
      node.L, node.R := null, null;
      node.U := parent;
      node.C := true;
      Attached(c, node, root);
      ghost var h := SplitIsGood(c, Nil);
      Filled(c, node, InOrder(tree));
      tree := Repair(node, c, Node(Nil, node, true, Nil), h);
    }

    /** The first half of an insertion, behind `after`: threads and child link. */
    method HookBehind(after: RBNode, node: RBNode) returns (parent: RBNode, ghost c: Hole)
      requires Valid() && node !in Set(tree) && after in Set(tree)
      modifies Set(tree)`L, Set(tree)`R, Set(tree)`P, Set(tree)`N, node`P, node`N
      ensures CtxApart(c) && CtxLinked(c, node, root) && parent == Above(c) && Plug(c, Nil) == tree
      ensures after in InOrder(tree) && |Before(c)| == Index(InOrder(tree), after) + 1
      ensures Threaded(Inserted(InOrder(tree), |Before(c)|, node))
    {
      hide Linked, Apart, Set, CtxLinked, CtxApart, CtxSet, InOrder, Threaded, Distinct, Spells, RedBlack, Before, Plug;
      InOrderSet(tree);
      SetAllocated(tree);
      CtxAllocated(Top);
      WholeTree(tree, root);
      ThreadAfter(after, node, InOrder(tree), Index(InOrder(tree), after));
      parent, c := HangBehind(after, node);
    }

    /** The same in front of the first node. */
    method HookFirst(node: RBNode) returns (parent: RBNode, ghost c: Hole)
      requires Valid() && node !in Set(tree) && root != null
      modifies Set(tree)`L, Set(tree)`P, node`P, node`N
      ensures CtxApart(c) && CtxLinked(c, node, root) && parent == Above(c) && Plug(c, Nil) == tree
      ensures |Before(c)| == 0 && Threaded(Inserted(InOrder(tree), 0, node))
    {
      hide Linked, Apart, Set, CtxLinked, CtxApart, CtxSet, InOrder, Threaded, Distinct, Spells, RedBlack, Before, Plug, Inserted;
      InOrderSet(tree);
      SetAllocated(tree);
      CtxAllocated(Top);
      WholeTree(tree, root);
      parent, c := HangFirst(node);
      CtxAllocated(c);
      ThreadFirst(parent, node, InOrder(tree));
    }

    /** The same in an empty tree. */
    method HookRoot(node: RBNode)
      requires Valid() && root == null
      modifies `root, node`P, node`N
      ensures CtxApart(Top) && CtxLinked(Top, node, root) && Plug(Top, Nil) == tree
      ensures InOrder(tree) == [] && Before<RBNode>(Top) == [] && Threaded(Inserted([], 0, node))
    {
      hide Linked, Apart, Set, CtxLinked, CtxApart, CtxSet, Threaded, Spells, RedBlack, Inserted;
      WholeTree(tree, root);
      EmptyTop(tree, node);
      node.P, node.N := null, null;
      ThreadedAlone(node);
      root := node;
    }

    /** The place of a new node behind `after`, or in front when there is none. */
    ghost function Place(after: RBNode?): (k: nat)
      reads this
      requires after != null ==> after in InOrder(tree)
      ensures k <= |InOrder(tree)|
    {
      if after == null then 0 else Index(InOrder(tree), after) + 1
    }

    method Insert(after: RBNode?, node: RBNode)
      requires Valid() && node !in Set(tree) && (after != null ==> after in Set(tree))
      modifies this, Set(tree), node
      ensures Valid() && Set(tree) == old(Set(tree)) + {node}
      ensures after != null ==> after in old(InOrder(tree))
      ensures InOrder(tree) == Inserted(old(InOrder(tree)), old(Place(after)), node)
    {
      hide Linked, Apart, Set, CtxLinked, CtxApart, CtxSet, InOrder, Threaded, Distinct, Spells, RedBlack, Before;
      InOrderSet(tree);
      SetAllocated(tree);
      ghost var c := Top;
      var parent: RBNode? := null;
      if after != null {
        parent, c := HookBehind(after, node);
      } else if root != null {
        parent, c := HookFirst(node);
      } else {
        HookRoot(node);
      }
      Settle(parent, node, c);
    }

    // Repairs after a removal: the subtree in the hole is one black node short

    /** A red sibling: it rises over the parent, and the new sibling is black. */
    method RaiseSiblingLeft(p: RBNode, s: RBNode, ghost c: Hole, ghost t: Shape, ghost h: nat) returns (ghost c': Hole)
      requires Spells(c, t, root) && c.InL? && c.n == p && c.r.Node? && c.r.n == s && c.r.red
      requires Short(c, t, h)
      modifies `root, Nodes(c, t)`L, Nodes(c, t)`R, Nodes(c, t)`U, Nodes(c, t)`C
      ensures Spells(c', t, root) && c'.InL? && c'.n == p && c'.red && !Red(c'.r) && Short(c', t, h)
      ensures Nodes(c', t) == Nodes(c, t) && InOrder(Plug(c', t)) == InOrder(Plug(c, t))
    {
      hide Linked, Apart, Set, CtxLinked, CtxApart, CtxSet, InOrder;
      ghost var up, sib := c.up, c.r;
      ghost var pt := Node(t, p, false, sib);
      ZipUp(c, t, root);
      OpenNode(pt, Above(up));
      OpenNode(sib, p);
      ZipUp(InR(t, p, false, up), sib, root);
      PaintAt(s, false, InR(t, p, false, up), sib, root);
      ghost var sib' := sib.(red := false);
      ZipUp(InR(t, p, false, up), sib', root);
      PaintAt(p, true, up, Node(t, p, false, sib'), root);
      RotateLeft(p, up, t, true, sib.l, s, false, sib.r);
      ghost var mid := InL(up, s, false, sib.r);
      assert Good(sib, h + 1) && CtxGood(mid, h + 1);
      c' := InL(mid, p, true, sib.l);
      ZipUp(mid, Node(t, p, true, sib.l), root);
      ZipUp(c', t, root);
      SiblingRaised(up, t, p, s, sib.l, sib.r);
    }

    /** A black sibling whose only red child is the inner one: that child rises over it. */
    method LeanRight(p: RBNode, s: RBNode, ghost c: Hole, ghost t: Shape, ghost h: nat) returns (ghost c': Hole)
      requires Spells(c, t, root) && c.InL? && c.n == p && c.r.Node? && c.r.n == s && !c.r.red
      requires Short(c, t, h) && Red(c.r.l) && !Red(c.r.r)
      modifies `root, Nodes(c, t)`L, Nodes(c, t)`R, Nodes(c, t)`U, Nodes(c, t)`C
      ensures Spells(c', t, root) && c'.InL? && c'.up == c.up && c'.n == p && c'.red == c.red
      ensures c'.r.Node? && !c'.r.red && Red(c'.r.r) && Short(c', t, h)
      ensures Nodes(c', t) == Nodes(c, t) && InOrder(Plug(c', t)) == InOrder(Plug(c, t))
    {
      hide Linked, Apart, Set, CtxLinked, CtxApart, CtxSet, InOrder;
      ghost var up, sib := c.up, c.r;
      ghost var hole := InR(t, p, c.red, up);
      ghost var inner := sib.l;
      ZipUp(c, t, root);
      ZipUp(hole, sib, root);
      OpenNode(sib, p);
      OpenNode(inner, s);
      ZipUp(InL(hole, s, false, sib.r), inner, root);
      RootInSet(inner);
      RootInSet(sib);
      var x := s.L;
      PaintAt(x, false, InL(hole, s, false, sib.r), inner, root);
      ghost var mid := Node(inner.(red := false), s, false, sib.r);
      ZipUp(InL(hole, s, false, sib.r), inner.(red := false), root);
      PaintAt(s, true, hole, mid, root);
      RotateRight(s, hole, inner.l, x, false, inner.r, true, sib.r);
      ghost var sib' := Node(inner.l, x, false, Node(inner.r, s, true, sib.r));
      c' := c.(r := sib');
      ZipUp(hole, sib', root);
      ZipUp(c', t, root);
      LeanedGood(inner, x, s, sib.r, h);
      Leaned(up, t, p, c.red, inner.l, x, inner.r, s, sib.r);
    }

    /** A black sibling with a red outer child: it rises over the parent and the tree is whole again. */
    method TurnLeft(p: RBNode, s: RBNode, ghost c: Hole, ghost t: Shape, ghost h: nat) returns (ghost t': Shape, ghost k: nat)
      requires Spells(c, t, root) && c.InL? && c.n == p && c.r.Node? && c.r.n == s && !c.r.red
      requires Short(c, t, h) && Red(c.r.r)
      modifies `root, Nodes(c, t)`L, Nodes(c, t)`R, Nodes(c, t)`U, Nodes(c, t)`C
      ensures Spells(c.up, t', root) && Good(t', k) && CtxGood(c.up, k) && (Red(t') ==> !RedAbove(c.up))
      ensures Nodes(c.up, t') == Nodes(c, t) && InOrder(Plug(c.up, t')) == InOrder(Plug(c, t))
    {
      hide Linked, Apart, Set, CtxLinked, CtxApart, CtxSet, InOrder;
      ghost var up, sib, col := c.up, c.r, c.red;
      ghost var outer := sib.r;
      ZipUp(c, t, root);
      ZipUp(InR(t, p, col, up), sib, root);
      OpenNode(Node(t, p, col, sib), Above(up));
      OpenNode(sib, p);
      OpenNode(outer, s);
      RootInSet(sib);
      RootInSet(outer);
      PaintAt(s, p.C, InR(t, p, col, up), sib, root);
      ghost var sib1 := sib.(red := col);
      ZipUp(InR(t, p, col, up), sib1, root);
      PaintAt(p, false, up, Node(t, p, col, sib1), root);
      ZipUp(InR(t, p, false, up), sib1, root);
      ZipUp(InR(sib.l, s, col, InR(t, p, false, up)), outer, root);
      OpenNode(sib1, p);
      PaintAt(s.R, false, InR(sib.l, s, col, InR(t, p, false, up)), outer, root);
      ghost var outer' := outer.(red := false);
      ZipUp(InR(sib.l, s, col, InR(t, p, false, up)), outer', root);
      ZipUp(InR(t, p, false, up), Node(sib.l, s, col, outer'), root);
      RotateLeft(p, up, t, false, sib.l, s, col, outer');
      t', k := Node(Node(t, p, false, sib.l), s, col, outer'), if col then h + 1 else h + 2;
      TurnedGood(t, p, sib.l, s, col, outer, h);
      Turned(up, t, p, col, sib.l, s, outer);
    }

    /** One turn of the repair loop for a short left child. Either the tree is whole again, or the
        shortness has moved up to the parent. */
    method MendLeft(p: RBNode, ghost c: Hole, ghost t: Shape, ghost h: nat)
      returns (whole: bool, ghost c': Hole, ghost t': Shape, ghost k: nat)
      requires Spells(c, t, root) && c.InL? && c.n == p && Short(c, t, h)
      modifies `root, Nodes(c, t)`L, Nodes(c, t)`R, Nodes(c, t)`U, Nodes(c, t)`C
      ensures Spells(c', t', root)
      ensures Nodes(c', t') == Nodes(c, t) && InOrder(Plug(c', t')) == InOrder(Plug(c, t))
      ensures whole ==> Good(t', k) && CtxGood(c', k) && (Red(t') ==> !RedAbove(c'))
      ensures !whole ==> t'.Node? && t'.n == p && Good(t'.(red := false), k) && CtxGood(c', if t'.red then k else k + 1)
      ensures !whole && !t'.red ==> Depth(c') < Depth(c)
    {
      hide Linked, Apart, Set, CtxLinked, CtxApart, CtxSet, InOrder;
      c', t' := c, t;
      OpenLeft(c', t', h, root);
      var sibling := p.R;
      if sibling.C {
        c' := RaiseSiblingLeft(p, sibling, c', t', h);
        OpenLeft(c', t', h, root);
        sibling := p.R;
      }
      if (sibling.L != null && sibling.L.C) || (sibling.R != null && sibling.R.C) {
        if sibling.R == null || !sibling.R.C {
          c' := LeanRight(p, sibling, c', t', h);
          OpenLeft(c', t', h, root);
          sibling := p.R;
        }
        t', k := TurnLeft(p, sibling, c', t', h);
        c', whole := c'.up, true;
      } else {
        ghost var sib := c'.r;
        ghost var hole := InR(t', p, c'.red, c'.up);
        ZipUp(c', t', root);
        ZipUp(hole, sib, root);
        PaintAt(sibling, true, hole, sib, root);
        ZipUp(hole, sib.(red := true), root);
        Demoted(c', t', sib.(red := true));
        c', t', k, whole := c'.up, Node(t', p, c'.red, sib.(red := true)), h + 1, false;
      }
    }

    // The same for a short right child

    method RaiseSiblingRight(p: RBNode, s: RBNode, ghost c: Hole, ghost t: Shape, ghost h: nat) returns (ghost c': Hole)
      requires Spells(c, t, root) && c.InR? && c.n == p && c.l.Node? && c.l.n == s && c.l.red
      requires Short(c, t, h)
      modifies `root, Nodes(c, t)`L, Nodes(c, t)`R, Nodes(c, t)`U, Nodes(c, t)`C
      ensures Spells(c', t, root) && c'.InR? && c'.n == p && c'.red && !Red(c'.l) && Short(c', t, h)
      ensures Nodes(c', t) == Nodes(c, t) && InOrder(Plug(c', t)) == InOrder(Plug(c, t))
    {
      hide Linked, Apart, Set, CtxLinked, CtxApart, CtxSet, InOrder;
      ghost var up, sib := c.up, c.l;
      ghost var pt := Node(sib, p, false, t);
      ZipUp(c, t, root);
      OpenNode(pt, Above(up));
      OpenNode(sib, p);
      ZipUp(InL(up, p, false, t), sib, root);
      PaintAt(s, false, InL(up, p, false, t), sib, root);
      ghost var sib' := sib.(red := false);
      ZipUp(InL(up, p, false, t), sib', root);
      PaintAt(p, true, up, Node(sib', p, false, t), root);
      RotateRight(p, up, sib.l, s, false, sib.r, true, t);
      ghost var mid := InR(sib.l, s, false, up);
      assert Good(sib, h + 1) && CtxGood(mid, h + 1);
      c' := InR(sib.r, p, true, mid);
      ZipUp(mid, Node(sib.r, p, true, t), root);
      ZipUp(c', t, root);
      SiblingRaisedRight(up, t, p, s, sib.l, sib.r);
    }

    method LeanLeft(p: RBNode, s: RBNode, ghost c: Hole, ghost t: Shape, ghost h: nat) returns (ghost c': Hole)
      requires Spells(c, t, root) && c.InR? && c.n == p && c.l.Node? && c.l.n == s && !c.l.red
      requires Short(c, t, h) && Red(c.l.r) && !Red(c.l.l)
      modifies `root, Nodes(c, t)`L, Nodes(c, t)`R, Nodes(c, t)`U, Nodes(c, t)`C
      ensures Spells(c', t, root) && c'.InR? && c'.up == c.up && c'.n == p && c'.red == c.red
      ensures c'.l.Node? && !c'.l.red && Red(c'.l.l) && Short(c', t, h)
      ensures Nodes(c', t) == Nodes(c, t) && InOrder(Plug(c', t)) == InOrder(Plug(c, t))
    {
      hide Linked, Apart, Set, CtxLinked, CtxApart, CtxSet, InOrder;
      ghost var up, sib := c.up, c.l;
      ghost var hole := InL(up, p, c.red, t);
      ghost var inner := sib.r;
      ZipUp(c, t, root);
      ZipUp(hole, sib, root);
      OpenNode(sib, p);
      OpenNode(inner, s);
      ZipUp(InR(sib.l, s, false, hole), inner, root);
      RootInSet(inner);
      RootInSet(sib);
      var x := s.R;
      PaintAt(x, false, InR(sib.l, s, false, hole), inner, root);
      ghost var mid := Node(sib.l, s, false, inner.(red := false));
      ZipUp(InR(sib.l, s, false, hole), inner.(red := false), root);
      PaintAt(s, true, hole, mid, root);
      RotateLeft(s, hole, sib.l, true, inner.l, x, false, inner.r);
      ghost var sib' := Node(Node(sib.l, s, true, inner.l), x, false, inner.r);
      c' := c.(l := sib');
      ZipUp(hole, sib', root);
      ZipUp(c', t, root);
      LeanedGoodRight(inner, x, s, sib.l, h);
      LeanedRight(up, t, p, c.red, inner.l, x, inner.r, s, sib.l);
    }

    method TurnRight(p: RBNode, s: RBNode, ghost c: Hole, ghost t: Shape, ghost h: nat) returns (ghost t': Shape, ghost k: nat)
      requires Spells(c, t, root) && c.InR? && c.n == p && c.l.Node? && c.l.n == s && !c.l.red
      requires Short(c, t, h) && Red(c.l.l)
      modifies `root, Nodes(c, t)`L, Nodes(c, t)`R, Nodes(c, t)`U, Nodes(c, t)`C
      ensures Spells(c.up, t', root) && Good(t', k) && CtxGood(c.up, k) && (Red(t') ==> !RedAbove(c.up))
      ensures Nodes(c.up, t') == Nodes(c, t) && InOrder(Plug(c.up, t')) == InOrder(Plug(c, t))
    {
      hide Linked, Apart, Set, CtxLinked, CtxApart, CtxSet, InOrder;
      ghost var up, sib, col := c.up, c.l, c.red;
      ghost var outer := sib.l;
      ZipUp(c, t, root);
      ZipUp(InL(up, p, col, t), sib, root);
      OpenNode(Node(sib, p, col, t), Above(up));
      OpenNode(sib, p);
      OpenNode(outer, s);
      RootInSet(sib);
      RootInSet(outer);
      PaintAt(s, p.C, InL(up, p, col, t), sib, root);
      ghost var sib1 := sib.(red := col);
      ZipUp(InL(up, p, col, t), sib1, root);
      PaintAt(p, false, up, Node(sib1, p, col, t), root);
      ZipUp(InL(up, p, false, t), sib1, root);
      ZipUp(InL(InL(up, p, false, t), s, col, sib.r), outer, root);
      OpenNode(sib1, p);
      PaintAt(s.L, false, InL(InL(up, p, false, t), s, col, sib.r), outer, root);
      ghost var outer' := outer.(red := false);
      ZipUp(InL(InL(up, p, false, t), s, col, sib.r), outer', root);
      ZipUp(InL(up, p, false, t), Node(outer', s, col, sib.r), root);
      RotateRight(p, up, outer', s, col, sib.r, false, t);
      t', k := Node(outer', s, col, Node(sib.r, p, false, t)), if col then h + 1 else h + 2;
      TurnedGoodRight(t, p, sib.r, s, col, outer, h);
      TurnedRight(up, t, p, col, sib.r, s, outer);
    }

    method MendRight(p: RBNode, ghost c: Hole, ghost t: Shape, ghost h: nat)
      returns (whole: bool, ghost c': Hole, ghost t': Shape, ghost k: nat)
      requires Spells(c, t, root) && c.InR? && c.n == p && Short(c, t, h)
      modifies `root, Nodes(c, t)`L, Nodes(c, t)`R, Nodes(c, t)`U, Nodes(c, t)`C
      ensures Spells(c', t', root)
      ensures Nodes(c', t') == Nodes(c, t) && InOrder(Plug(c', t')) == InOrder(Plug(c, t))
      ensures whole ==> Good(t', k) && CtxGood(c', k) && (Red(t') ==> !RedAbove(c'))
      ensures !whole ==> t'.Node? && t'.n == p && Good(t'.(red := false), k) && CtxGood(c', if t'.red then k else k + 1)
      ensures !whole && !t'.red ==> Depth(c') < Depth(c)
    {
      hide Linked, Apart, Set, CtxLinked, CtxApart, CtxSet, InOrder;
      c', t' := c, t;
      OpenRight(c', t', h, root);
      var sibling := p.L;
      if sibling.C {
        c' := RaiseSiblingRight(p, sibling, c', t', h);
        OpenRight(c', t', h, root);
        sibling := p.L;
      }
      if (sibling.L != null && sibling.L.C) || (sibling.R != null && sibling.R.C) {
        if sibling.L == null || !sibling.L.C {
          c' := LeanLeft(p, sibling, c', t', h);
          OpenRight(c', t', h, root);
          sibling := p.L;
        }
        t', k := TurnRight(p, sibling, c', t', h);
        c', whole := c'.up, true;
      } else {
        ghost var sib := c'.l;
        ghost var hole := InL(c'.up, p, c'.red, t');
        ZipUp(c', t', root);
        ZipUp(hole, sib, root);
        PaintAt(sibling, true, hole, sib, root);
        ZipUp(hole, sib.(red := true), root);
        DemotedRight(c', t', sib.(red := true));
        c', t', k, whole := c'.up, Node(sib.(red := true), p, c'.red, t'), h + 1, false;
      }
    }

    /** The loop that ends a removal: mends upwards while the hole is one black node short. */
    method Mend(x: RBNode?, parent0: RBNode?, ghost c0: Hole, ghost t0: Shape, ghost h0: nat) returns (ghost tree': Shape)
      requires Spells(c0, t0, root) && Short(c0, t0, h0) && x == Root(t0) && parent0 == Above(c0)
      modifies `root, Nodes(c0, t0)`L, Nodes(c0, t0)`R, Nodes(c0, t0)`U, Nodes(c0, t0)`C
      ensures Spells(Top, tree', root) && RedBlack(tree')
      ensures InOrder(tree') == InOrder(Plug(c0, t0)) && Set(tree') == Nodes(c0, t0)
    {
      hide Linked, Apart, Set, CtxLinked, CtxApart, CtxSet, InOrder, Plug;
      ghost var c, t, h, k := c0, t0, h0, h0;
      var node, parent := x, parent0;
      CtxAllocated(c);
      SetAllocated(t);
      while true
        invariant Spells(c, t, root) && Short(c, t, h) && node == Root(t) && parent == Above(c)
        invariant Nodes(c, t) == Nodes(c0, t0) && InOrder(Plug(c, t)) == InOrder(Plug(c0, t0))
        decreases Depth(c)
      {
        WhichSide(c, t, h, root);
        if node == root {
          k := h;
          break;
        }
        var whole;
        if node == parent.L {
          whole, c, t, k := MendLeft(parent, c, t, h);
        } else {
          whole, c, t, k := MendRight(parent, c, t, h);
        }
        if whole {
          c, t, k := Flat(c, t, k, root);
          node := root;
          break;
        }
        node := parent;
        OpenNode(t, Above(c));
        parent := parent.U;
        if node.C { break; }
        h := k;
      }
      if node != null {
        RootInSet(t);
        PaintAt(node, false, c, t, root);
        SameInOrder(c, t, t.(red := false));
        t := t.(red := false);
      }
      PlugIsRedBlack(c, t, k);
      ZipAll(c, t, root);
      tree' := Plug(c, t);
    }

    // Removal

    /** A node with at most one child gives its place to that child. */
    method Bypass(node: RBNode, next: RBNode?, ghost c: Hole, ghost t: Shape)
      requires Spells(c, t, root) && t.Node? && t.n == node && (t.l.Nil? || t.r.Nil?) && next == Root(Other(t))
      modifies `root, CtxSet(c)`L, CtxSet(c)`R, Set(Other(t))`U
      ensures Spells(c, Other(t), root)
    {
      hide Linked, Apart, Set, CtxLinked, CtxApart, CtxSet;
      OpenNode(t, Above(c));
      SetAllocated(t);
      CtxAllocated(c);
      var parent := node.U;
      Hang(parent, node, next, c);
      Adopt(next, Other(t), node, parent);
    }

    /** `next`, taken out of the right subtree before, takes the place of `node`. */
    method Substitute(node: RBNode, next: RBNode, ghost c: Hole, ghost t: Shape)
      requires Spells(c, t, root) && t.Node? && t.n == node && t.l.Node? && next !in Nodes(c, t)
      modifies `root, CtxSet(c)`L, CtxSet(c)`R, next`U, next`C, next`L, next`R, Set(t.l)`U, Set(t.r)`U
      ensures Spells(c, t.(n := next), root)
    {
      hide Linked, Apart, Set, CtxLinked, CtxApart, CtxSet;
      OpenNode(t, Above(c));
      SetAllocated(t);
      CtxAllocated(c);
      Hang(node.U, node, next, c);
      Inherit(node, next, t, Above(c));
    }

    /** `next`, the right child of `node` without a left child, takes the place of `node`. */
    method SubstituteChild(node: RBNode, next: RBNode, ghost c: Hole, ghost t: Shape)
      requires Spells(c, t, root) && t.Node? && t.n == node && t.l.Node? && t.r.Node? && t.r.n == next && t.r.l.Nil?
      modifies `root, CtxSet(c)`L, CtxSet(c)`R, next`U, next`C, next`L, Set(t.l)`U
      ensures Spells(c, Node(t.l, next, t.red, t.r.r), root)
    {
      hide Linked, Apart, Set, CtxLinked, CtxApart, CtxSet;
      OpenNode(t, Above(c));
      OpenNode(t.r, node);
      SetAllocated(t);
      CtxAllocated(c);
      Hang(node.U, node, next, c);
      next.C := node.C;
      next.L := node.L;
      Adopt(node.L, t.l, node, next);
      next.U := node.U;
      CloseNode(t.l, next, t.red, t.r.r, Above(c));
    }

    /** A node with at most one child: the hole is where it was. */
    method SpliceOne(node: RBNode, ghost c: Hole, ghost t: Shape)
      returns (red: bool, x: RBNode?, parent: RBNode?, ghost t': Shape, ghost h: nat)
      requires Spells(c, t, root) && t.Node? && t.n == node && RedBlack(Plug(c, t)) && (t.l.Nil? || t.r.Nil?)
      modifies `root, Nodes(c, t)`L, Nodes(c, t)`R, Nodes(c, t)`U
      ensures Spells(c, t', root) && x == Root(t') && parent == Above(c) && Gap(c, t', h, red)
      ensures Nodes(c, t') == Nodes(c, t) - {node} && Spliced(c, t, Plug(c, t'))
    {
      hide Linked, Apart, Set, CtxLinked, CtxApart, CtxSet, InOrder, Plug;
      ghost var k := SplitIsGood(c, t);
      OpenNode(t, Above(c));
      RootInSet(t.l);
      RootInSet(t.r);
      parent := node.U;
      x := if node.L == null then node.R else node.L;
      t' := Other(t);
      Bypass(node, x, c, t);
      red := node.C;
      h := if red then k else k - 1;
      BypassedOrder(c, t);
    }

    /** The right child is the successor: it moves up, and the hole is its right child. */
    method SpliceNear(node: RBNode, next: RBNode, ghost c: Hole, ghost t: Shape)
      returns (red: bool, x: RBNode?, parent: RBNode?, ghost c': Hole, ghost t': Shape, ghost h: nat)
      requires Spells(c, t, root) && t.Node? && t.n == node && RedBlack(Plug(c, t))
      requires t.l.Node? && t.r.Node? && t.r.n == next && t.r.l.Nil?
      modifies `root, Nodes(c, t)`L, Nodes(c, t)`R, Nodes(c, t)`U, Nodes(c, t)`C
      ensures Spells(c', t', root) && x == Root(t') && parent == Above(c') && Gap(c', t', h, red)
      ensures Nodes(c', t') == Nodes(c, t) - {node} && Spliced(c, t, Plug(c', t'))
    {
      hide Linked, Apart, Set, CtxLinked, CtxApart, CtxSet, InOrder, Plug;
      PlugUp(InR(t.l, node, t.red, c), t.r);
      ghost var k' := SplitIsGood(InR(t.l, node, t.red, c), t.r);
      RenamedGood(Top, t.l, node, next, t.red, c, k');
      OpenNode(t, Above(c));
      OpenNode(t.r, node);
      RootInSet(t.l);
      red := next.C;
      SubstituteChild(node, next, c, t);
      OpenNode(Node(t.l, next, t.red, t.r.r), Above(c));
      c', t' := InR(t.l, next, t.red, c), t.r.r;
      ZipUp(c', t', root);
      parent := next;
      x := next.R;
      h := if red then k' else k' - 1;
      NearOrder(c, t);
    }

    /** The successor is deeper: it leaves its place to its right child, which is where the hole is,
        and takes the place of `node`. The two groups of writes touch different fields. */
    method SpliceFar(node: RBNode, next: RBNode, ghost c: Hole, ghost t: Shape, ghost p: Hole, ghost s: Shape)
      returns (red: bool, x: RBNode?, parent: RBNode?, ghost c': Hole, ghost h: nat)
      requires Spells(c, t, root) && t.Node? && t.n == node && RedBlack(Plug(c, t)) && t.l.Node?
      requires p.InL? && Before(p) == [] && Plug(p, s) == t.r && s.Node? && s.n == next && s.l.Nil?
      modifies `root, Nodes(c, t)`L, Nodes(c, t)`R, Nodes(c, t)`U, Nodes(c, t)`C
      ensures Spells(c', s.r, root) && x == Root(s.r) && parent == Above(c') && Gap(c', s.r, h, red)
      ensures Nodes(c', s.r) == Nodes(c, t) - {node} && Spliced(c, t, Plug(c', s.r))
    {
      hide Linked, Apart, Set, CtxLinked, CtxApart, CtxSet, InOrder, Plug, Compose, Before;
      ghost var hole := InR(t.l, node, t.red, c);
      ghost var low := Compose(p, hole);
      PlugUp(hole, t.r);
      PlugCompose(p, hole, s);
      ghost var k := SplitIsGood(low, s);
      RenamedGood(p, t.l, node, next, t.red, c, k);
      OpenNode(t, Above(c));
      RootInSet(t.l);
      CtxAllocated(c);
      SetAllocated(t);
      ZipUp(hole, t.r, root);
      ZipPath(p, hole, s, root);
      OpenNode(s, Above(low));
      OnTheWay(low);
      RootInSet(s.l);
      red := next.C;
      parent := next.U;
      x := next.R;
      TakeOut(parent, next, x, low, s, root);
      ghost var right := Plug(p, s.r);
      ZipPath(p, hole, s.r, root);
      ZipUp(hole, right, root);
      Substitute(node, next, c, Node(t.l, node, t.red, right));
      OpenNode(Node(t.l, next, t.red, right), Above(c));
      ghost var hole' := InR(t.l, next, t.red, c);
      ZipUp(hole', right, root);
      ZipPath(p, hole', s.r, root);
      c', h := Compose(p, hole'), if red then k else k - 1;
      FarOrder(c, t, p, s);
    }

    /** Takes `node` out of the links. The hole is where a colour may be missing. */
    method Splice(node: RBNode)
      returns (red: bool, x: RBNode?, parent: RBNode?, ghost c: Hole, ghost t: Shape, ghost h: nat)
      requires Spells(Top, tree, root) && RedBlack(tree) && node in Set(tree)
      modifies `root, Set(tree)`L, Set(tree)`R, Set(tree)`U, Set(tree)`C
      ensures Spells(c, t, root) && x == Root(t) && parent == Above(c) && Gap(c, t, h, red)
      ensures Nodes(c, t) == Set(tree) - {node} && node in InOrder(tree)
      ensures InOrder(Plug(c, t)) == Without(InOrder(tree), Index(InOrder(tree), node))
    {
      hide Linked, Apart, Set, CtxLinked, CtxApart, CtxSet, InOrder, Plug, Compose, Before, Gap, Spliced, RedBlack;
      ghost var c0, t0 := LocateIn(tree, node);
      ZipAll(c0, t0, root);
      OpenNode(t0, Above(c0));
      var left, right := node.L, node.R;
      if left == null || right == null {
        c := c0;
        red, x, parent, t, h := SpliceOne(node, c0, t0);
      } else {
        ghost var hole := InR(t0.l, node, t0.red, c0);
        CtxAllocated(c0);
        SetAllocated(t0);
        ZipUp(hole, t0.r, root);
        var next;
        ghost var low, s, p;
        next, low, s, p := First(right, hole, t0.r, root);
        SamePath(p, hole, s, root);
        if next != right {
          red, x, parent, c, h := SpliceFar(node, next, c0, t0, p, s);
          t := s.r;
        } else {
          red, x, parent, c, t, h := SpliceNear(node, next, c0, t0);
        }
      }
      SplicedOut(c0, t0, tree, Plug(c, t), root);
    }

    method Remove(node: RBNode)
      requires Valid() && node in Set(tree)
      modifies this, Set(tree)
      ensures Valid() && Set(tree) == old(Set(tree)) - {node}
      ensures node.N == null && node.P == null && node in old(InOrder(tree))
      ensures InOrder(tree) == Without(old(InOrder(tree)), Index(old(InOrder(tree)), node))
    {
      hide Linked, Apart, Set, CtxLinked, CtxApart, CtxSet, InOrder, Plug, Threaded, Distinct, RedBlack, Spells;
      InOrderSet(tree);
      SetAllocated(tree);
      CtxAllocated(Top);
      WholeTree(tree, root);
      Unthread(node, InOrder(tree), Index(InOrder(tree), node));
      tree := Relink(node);
    }

    /** A removal but for the threads. */
    method Relink(node: RBNode) returns (ghost tree': Shape)
      requires Spells(Top, tree, root) && RedBlack(tree) && node in Set(tree)
      modifies `root, Set(tree)`L, Set(tree)`R, Set(tree)`U, Set(tree)`C
      ensures Spells(Top, tree', root) && RedBlack(tree') && Set(tree') == Set(tree) - {node}
      ensures node in InOrder(tree) && InOrder(tree') == Without(InOrder(tree), Index(InOrder(tree), node))
    {
      hide Linked, Apart, Set, CtxLinked, CtxApart, CtxSet, InOrder, Plug, RedBlack, Spells, Gap, Without;
      var red, x, parent;
      ghost var c, t, h;
      red, x, parent, c, t, h := Splice(node);
      tree' := Close(red, x, parent, c, t, h);
    }

    /** The colours after a removal. */
    method Close(red: bool, x: RBNode?, parent: RBNode?, ghost c: Hole, ghost t: Shape, ghost h: nat) returns (ghost tree': Shape)
      requires Spells(c, t, root) && x == Root(t) && parent == Above(c) && Gap(c, t, h, red)
      modifies `root, Nodes(c, t)`L, Nodes(c, t)`R, Nodes(c, t)`U, Nodes(c, t)`C
      ensures Spells(Top, tree', root) && RedBlack(tree')
      ensures InOrder(tree') == InOrder(Plug(c, t)) && Set(tree') == Nodes(c, t)
    {
      hide Linked, Apart, Set, CtxLinked, CtxApart, CtxSet, InOrder, Plug;
      RootColor(t, Above(c));
      if red {
        PlugIsRedBlack(c, t, h);
        ZipAll(c, t, root);
        tree' := Plug(c, t);
      } else if x != null && x.C {
        RootInSet(t);
        PaintAt(x, false, c, t, root);
        ghost var t' := t.(red := false);
        PlugIsRedBlack(c, t', h + 1);
        ZipAll(c, t', root);
        SameInOrder(c, t, t');
        tree' := Plug(c, t');
      } else {
        tree' := Mend(x, parent, c, t, h);
      }
    }

    /** Puts `q` in the place of child `p` of `parent`, or of the root. */
    method Hang(parent: RBNode?, p: RBNode, q: RBNode?, ghost c: Hole)
      requires CtxApart(c) && CtxLinked(c, p, root) && parent == Above(c) && p !in CtxSet(c)
      modifies `root, CtxSet(c)`L, CtxSet(c)`R
      ensures CtxLinked(c, q, root)
    {
      if parent != null {
        ghost var up := c.up;
        assert c.InL? ==> Linked(c.r, c.n);
        assert c.InR? ==> Linked(c.l, c.n) && (c.l.Node? ==> c.l.n in Set(c.l));
        if parent.L == p { parent.L := q; } else { parent.R := q; }
        assert CtxLinked(up, c.n, root);
      } else {
        root := q;
      }
    }

    method RotateLeft(p: RBNode, ghost c: Hole, ghost a: Shape, ghost pc: bool, ghost b: Shape, ghost q: RBNode, ghost qc: bool, ghost d: Shape)
      requires Spells(c, Node(a, p, pc, Node(b, q, qc, d)), root)
      modifies `root, CtxSet(c)`L, CtxSet(c)`R, p`U, p`R, q`U, q`L, Set(b)`U
      ensures Spells(c, Node(Node(a, p, pc, b), q, qc, d), root)
    {
      hide Linked, Apart, Set, CtxLinked, CtxApart, CtxSet;
      ghost var t := Node(a, p, pc, Node(b, q, qc, d));
      OpenNode(t, Above(c));
      OpenNode(t.r, p);
      SetAllocated(t);
      CtxAllocated(c);
      var q' := p.R;
      Hang(p.U, p, q', c);
      LowerLeft(p, q', Above(c), a, pc, b, qc, d);
    }

    method RotateRight(p: RBNode, ghost c: Hole, ghost a: Shape, ghost q: RBNode, ghost qc: bool, ghost b: Shape, ghost pc: bool, ghost d: Shape)
      requires Spells(c, Node(Node(a, q, qc, b), p, pc, d), root)
      modifies `root, CtxSet(c)`L, CtxSet(c)`R, p`U, p`L, q`U, q`R, Set(b)`U
      ensures Spells(c, Node(a, q, qc, Node(b, p, pc, d)), root)
    {
      hide Linked, Apart, Set, CtxLinked, CtxApart, CtxSet;
      ghost var t := Node(Node(a, q, qc, b), p, pc, d);
      OpenNode(t, Above(c));
      OpenNode(t.l, p);
      SetAllocated(t);
      CtxAllocated(c);
      var q' := p.L;
      Hang(p.U, p, q', c);
      LowerRight(p, q', Above(c), a, qc, b, pc, d);
    }

    // Repairs after an insertion: `p` is red and has a red child

    /** The red uncle: both go black, the grandparent goes red. */
    method RecolorUncle(p: RBNode, g: RBNode, u: RBNode, left: bool, ghost c: Hole, ghost t: Shape)
      requires Spells(c, t, root) && t.Node? && t.n == g && t.l.Node? && t.r.Node?
      requires if left then t.l.n == p && t.r.n == u else t.r.n == p && t.l.n == u
      modifies p`C, u`C, g`C
      ensures Spells(c, t.(red := true, l := t.l.(red := false), r := t.r.(red := false)), root)
    {
      hide Linked, Apart, Set, CtxLinked, CtxApart, CtxSet;
      OpenNode(t, Above(c));
      RootInSet(t);
      RootInSet(t.l);
      RootInSet(t.r);
      SetAllocated(t);
      CtxAllocated(c);
      ghost var t1 := t.(l := t.l.(red := false));
      ghost var t2 := t1.(r := t.r.(red := false));
      if left {
        PaintLeft(p, false, t, Above(c));
        PaintRight(u, false, t1, Above(c));
      } else {
        PaintLeft(u, false, t, Above(c));
        PaintRight(p, false, t1, Above(c));
      }
      Paint(g, true, t2, Above(c));
      SubSpells(c, t, t2.(red := true), root);
    }

    /** The red grandchild on the outside: black parent over red grandparent. */
    method RaiseLeft(p: RBNode, g: RBNode, ghost c: Hole, ghost a: Shape, ghost b: Shape, ghost u: Shape)
      requires Spells(c, Node(Node(a, p, true, b), g, false, u), root)
      modifies `root, CtxSet(c)`L, CtxSet(c)`R, p`U, p`R, p`C, g`U, g`L, g`C, Set(b)`U
      ensures Spells(c, Node(a, p, false, Node(b, g, true, u)), root)
    {
      hide Linked, Apart, Set, CtxLinked, CtxApart, CtxSet;
      ghost var t := Node(Node(a, p, true, b), g, false, u);
      ghost var t1 := t.(l := t.l.(red := false));
      OpenNode(t, Above(c));
      RootInSet(t.l);
      CtxAllocated(c);
      PaintLeft(p, false, t, Above(c));
      Paint(g, true, t1, Above(c));
      SubSpells(c, t, t1.(red := true), root);
      RotateRight(g, c, a, p, false, b, true, u);
    }

    method RaiseRight(p: RBNode, g: RBNode, ghost c: Hole, ghost u: Shape, ghost a: Shape, ghost b: Shape)
      requires Spells(c, Node(u, g, false, Node(a, p, true, b)), root)
      modifies `root, CtxSet(c)`L, CtxSet(c)`R, p`U, p`L, p`C, g`U, g`R, g`C, Set(a)`U
      ensures Spells(c, Node(Node(u, g, true, a), p, false, b), root)
    {
      hide Linked, Apart, Set, CtxLinked, CtxApart, CtxSet;
      ghost var t := Node(u, g, false, Node(a, p, true, b));
      ghost var t1 := t.(r := t.r.(red := false));
      OpenNode(t, Above(c));
      RootInSet(t.r);
      CtxAllocated(c);
      PaintRight(p, false, t, Above(c));
      Paint(g, true, t1, Above(c));
      SubSpells(c, t, t1.(red := true), root);
      RotateLeft(g, c, u, true, a, p, false, b);
    }

    /** One turn of the repair loop, for a parent that is a left child. The red focus moves up two
        levels, or the trouble is over. */
    method RepairLeft(after: RBNode, parent: RBNode, ghost c: Hole, ghost t: Shape, ghost h: nat)
      returns (after': RBNode, ghost c': Hole, ghost t': Shape, ghost h': nat)
      requires Spells(c, t, root) && !c.Top? && c.n == parent && c.red && c.up.InL?
      requires t.Node? && t.red && t.n == after && Good(t, h) && CtxGood(c, h)
      modifies `root, Nodes(c, t)`L, Nodes(c, t)`R, Nodes(c, t)`U, Nodes(c, t)`C
      ensures Spells(c', t', root) && Nodes(c', t') == Nodes(c, t)
      ensures t'.Node? && t'.red && t'.n == after' && Good(t', h') && CtxGood(c', h')
      ensures InOrder(Plug(c', t')) == InOrder(Plug(c, t)) && Depth(c') < Depth(c)
    {
      hide Linked, Apart, Set, CtxLinked, CtxApart, CtxSet;
      ghost var up, g, u := c.up.up, c.up.n, c.up.r;
      ghost var pt := if c.InL? then Node(t, parent, true, c.r) else Node(c.l, parent, true, t);
      ghost var gt := Node(pt, g, false, u);
      ZipUp(c, t, root);
      ZipUp(c.up, pt, root);
      OpenNode(gt, Above(up));
      OpenNode(pt, g);
      var grandpa := parent.U;
      var uncle := grandpa.R;
      if uncle != null && uncle.C {
        OpenNode(u, g);
        RecolorUncle(parent, grandpa, uncle, true, up, gt);
        c', t', h', after' := up, Node(pt.(red := false), g, true, u.(red := false)), h + 1, grandpa;
        SetRecolored(gt, t');
        SameInOrder(up, gt, t');
      } else {
        BlackRoot(u, g);
        WhichChild(c, t, g);
        if after == parent.R {
          OpenNode(t, parent);
          ghost var s := c.l;
          RotateLeft(parent, c.up, s, true, t.l, t.n, true, t.r);
          ghost var low := Node(s, parent, true, t.l);
          ZipUp(c.up, Node(low, after, true, t.r), root);
          RaiseLeft(after, grandpa, up, low, t.r, u);
          after', t', h' := parent, low, h;
          c' := InL(up, after, false, Node(t.r, g, true, u));
          RaisedInner(s, parent, t, g, u, up);
        } else {
          RaiseLeft(parent, grandpa, up, t, c.r, u);
          after', t', h' := after, t, h;
          c' := InL(up, parent, false, Node(c.r, g, true, u));
          RaisedOuter(t, parent, c.r, g, u, up);
        }
        ZipUp(c', t', root);
      }
    }

    method RepairRight(after: RBNode, parent: RBNode, ghost c: Hole, ghost t: Shape, ghost h: nat)
      returns (after': RBNode, ghost c': Hole, ghost t': Shape, ghost h': nat)
      requires Spells(c, t, root) && !c.Top? && c.n == parent && c.red && c.up.InR?
      requires t.Node? && t.red && t.n == after && Good(t, h) && CtxGood(c, h)
      modifies `root, Nodes(c, t)`L, Nodes(c, t)`R, Nodes(c, t)`U, Nodes(c, t)`C
      ensures Spells(c', t', root) && Nodes(c', t') == Nodes(c, t)
      ensures t'.Node? && t'.red && t'.n == after' && Good(t', h') && CtxGood(c', h')
      ensures InOrder(Plug(c', t')) == InOrder(Plug(c, t)) && Depth(c') < Depth(c)
    {
      hide Linked, Apart, Set, CtxLinked, CtxApart, CtxSet;
      ghost var up, g, u := c.up.up, c.up.n, c.up.l;
      ghost var pt := if c.InL? then Node(t, parent, true, c.r) else Node(c.l, parent, true, t);
      ghost var gt := Node(u, g, false, pt);
      ZipUp(c, t, root);
      ZipUp(c.up, pt, root);
      OpenNode(gt, Above(up));
      OpenNode(pt, g);
      var grandpa := parent.U;
      var uncle := grandpa.L;
      if uncle != null && uncle.C {
        OpenNode(u, g);
        RecolorUncle(parent, grandpa, uncle, false, up, gt);
        c', t', h', after' := up, Node(u.(red := false), g, true, pt.(red := false)), h + 1, grandpa;
        SetRecolored(gt, t');
        SameInOrder(up, gt, t');
      } else {
        BlackRoot(u, g);
        WhichChild(c, t, g);
        if after == parent.L {
          OpenNode(t, parent);
          ghost var s := c.r;
          RotateRight(parent, c.up, t.l, t.n, true, t.r, true, s);
          ghost var low := Node(t.r, parent, true, s);
          ZipUp(c.up, Node(t.l, after, true, low), root);
          RaiseRight(after, grandpa, up, u, t.l, low);
          after', t', h' := parent, low, h;
          c' := InR(Node(u, g, true, t.l), after, false, up);
          RaisedInnerRight(s, parent, t, g, u, up);
        } else {
          RaiseRight(parent, grandpa, up, u, c.l, t);
          after', t', h' := after, t, h;
          c' := InR(Node(u, g, true, c.l), parent, false, up);
          RaisedOuterRight(t, parent, c.l, g, u, up);
        }
        ZipUp(c', t', root);
      }
    }

    /** The loop that ends an insertion: repairs while the parent is red, then blackens the root. */
    method Repair(node: RBNode, ghost c0: Hole, ghost t0: Shape, ghost h0: nat) returns (ghost tree': Shape)
      requires Spells(c0, t0, root)
      requires t0.Node? && t0.red && t0.n == node && Good(t0, h0) && CtxGood(c0, h0)
      modifies `root, Nodes(c0, t0)`L, Nodes(c0, t0)`R, Nodes(c0, t0)`U, Nodes(c0, t0)`C
      ensures Spells(Top, tree', root) && RedBlack(tree')
      ensures InOrder(tree') == InOrder(Plug(c0, t0)) && Set(tree') == Nodes(c0, t0)
    {
      hide Linked, Apart, Set, CtxLinked, CtxApart, CtxSet, InOrder, Plug, Depth;
      ghost var c, t, h := c0, t0, h0;
      var after := node;
      CtxAllocated(c);
      SetAllocated(t);
      OpenNode(t, Above(c));
      var parent := node.U;
      while parent != null && parent.C
        invariant Spells(c, t, root) && Nodes(c, t) == Nodes(c0, t0)
        invariant t.Node? && t.red && t.n == after && Good(t, h) && CtxGood(c, h)
        invariant parent == Above(c)
        invariant InOrder(Plug(c, t)) == InOrder(Plug(c0, t0))
        decreases Depth(c)
      {
        OpenAbove(c, t, h, root);
        var grandpa := parent.U;
        if parent == grandpa.L {
          after, c, t, h := RepairLeft(after, parent, c, t, h);
        } else {
          after, c, t, h := RepairRight(after, parent, c, t, h);
        }
        OpenNode(t, Above(c));
        parent := after.U;
      }
      if parent != null { OpenParent(c, t, root); }
      tree' := Blacken(c, t, h);
    }

    /** Blackens the root of a tree that is red-black but for its colour. */
    method Blacken(ghost c: Hole, ghost t: Shape, ghost h: nat) returns (ghost tree': Shape)
      requires Spells(c, t, root) && Red(t) && Good(t, h) && CtxGood(c, h) && (c.Top? || !c.red)
      modifies Nodes(c, t)`C
      ensures Spells(Top, tree', root) && RedBlack(tree')
      ensures InOrder(tree') == InOrder(Plug(c, t)) && Set(tree') == Nodes(c, t)
    {
      hide Linked, Apart, Set, CtxLinked, CtxApart, CtxSet, InOrder, Plug;
      ZipAll(c, t, root);
      tree' := Plug(c, t);
      if c.Top? {
        PlugTop(t);
      } else {
        PlugIsRedBlack(c, t, h);
      }
      PlugIsNode(c, t);
      WholeTree(tree', root);
      OpenNode(tree', null);
      RootInSet(tree');
      Paint(root, false, tree', null);
      Recoloured(tree', false);
      tree' := tree'.(red := false);
      WholeTree(tree', root);
      assert Good(tree', h + 1) || RedBlack(tree');
    }
  }
}
