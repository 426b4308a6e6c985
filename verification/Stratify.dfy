/** Building a tree from data that name their parents, with depths and heights. Nodes are numbers:
    the position of their datum. */
module Stratify {
  import opened Options

  /** An id or a parent id is absent, or a string; the empty string counts as absent. */
  datatype Datum = Datum(id: Option<string>, parentId: Option<string>)

  datatype Error = MultipleRoots | Missing(id: string) | Ambiguous(id: string) | NoRoot | Cycle

  datatype Result = Failure(error: Error)
                  | Tree(root: nat, parent: seq<Option<nat>>, children: seq<seq<nat>>, depth: seq<int>, height: seq<int>)

  // What the data say

  predicate Present(s: Option<string>) {
    s.Some? && s.value != ""
  }

  predicate Named(data: seq<Datum>, i: nat, id: string) {
    i < |data| && Present(data[i].id) && data[i].id.value == id
  }

  predicate IsRoot(data: seq<Datum>, i: nat) {
    i < |data| && !Present(data[i].parentId)
  }

  /** `id` names one datum only. */
  ghost predicate Names(data: seq<Datum>, id: string, p: nat) {
    Named(data, p, id) && forall j: nat :: Named(data, j, id) ==> j == p
  }

  ghost predicate OneRoot(data: seq<Datum>, root: nat) {
    IsRoot(data, root) && forall j: nat :: IsRoot(data, j) ==> j == root
  }

  /** `parent` says for every datum what its parent id names. */
  ghost predicate Parents(data: seq<Datum>, parent: seq<Option<nat>>) {
    && |parent| == |data|
    && forall i :: 0 <= i < |data| ==>
         if IsRoot(data, i) then parent[i] == None
         else parent[i].Some? && Names(data, data[i].parentId.value, parent[i].value)
  }

  /** Going up `k` times. */
  ghost function Up(parent: seq<Option<nat>>, i: nat, k: nat): Option<nat>
    decreases k
  {
    if k == 0 then Some(i)
    else if i < |parent| && parent[i].Some? then Up(parent, parent[i].value, k - 1)
    else None
  }

  ghost predicate Reaches(parent: seq<Option<nat>>, i: nat, root: nat) {
    exists k: nat :: Up(parent, i, k) == Some(root)
  }

  ghost predicate Connected(parent: seq<Option<nat>>, root: nat) {
    forall i :: 0 <= i < |parent| ==> Reaches(parent, i, root)
  }

  /** The data describe one tree. */
  ghost predicate Describes(data: seq<Datum>, root: nat, parent: seq<Option<nat>>) {
    OneRoot(data, root) && Parents(data, parent) && Connected(parent, root)
  }

  // The first loop: nodes by key

  datatype Entry = Node(i: nat) | AmbiguousKey

  ghost predicate KeysOK(data: seq<Datum>, n: nat, byKey: map<string, Entry>) {
    && n <= |data|
    && (forall id :: id in byKey ==> byKey[id].Node? ==>
          && byKey[id].i < n && Named(data, byKey[id].i, id)
          && forall j: nat :: j < n && Named(data, j, id) ==> j == byKey[id].i)
    && (forall id :: id in byKey ==> byKey[id].AmbiguousKey? ==>
          exists i: nat, j: nat :: i < j < n && Named(data, i, id) && Named(data, j, id))
    && (forall j: nat :: j < n && Present(data[j].id) ==> data[j].id.value in byKey)
  }

  method NodesByKey(data: seq<Datum>) returns (byKey: map<string, Entry>)
    ensures KeysOK(data, |data|, byKey)
  {
    byKey := map[];
    for i := 0 to |data|
      invariant KeysOK(data, i, byKey)
    {
      var d := data[i];
      if d.id.Some? && d.id.value != "" {
        var key := d.id.value;
        ghost var before := byKey;
        if key in byKey && byKey[key].Node? { assert Named(data, byKey[key].i, key) && Named(data, i, key); }
        byKey := byKey[key := if key in byKey then AmbiguousKey else Node(i)];
        AddKey(data, i, before, byKey, key);
      }
    }
  }

  lemma AddKey(data: seq<Datum>, n: nat, before: map<string, Entry>, after: map<string, Entry>, key: string)
    requires n < |data| && KeysOK(data, n, before) && Named(data, n, key)
    requires after == before[key := if key in before then AmbiguousKey else Node(n)]
    ensures KeysOK(data, n + 1, after)
  {
  }

  // The second loop: roots, parents and children

  /** The nodes below `n` whose parent is `p`, in order. */
  function Kids(parent: seq<Option<nat>>, p: nat, n: nat): seq<nat>
    requires n <= |parent|
  {
    if n == 0 then [] else Kids(parent, p, n - 1) + if parent[n - 1] == Some(p) then [n - 1] else []
  }

  lemma {:induction false} KidsMembers(parent: seq<Option<nat>>, p: nat, n: nat)
    requires n <= |parent|
    ensures forall c: nat :: c in Kids(parent, p, n) <==> c < n && parent[c] == Some(p)
    ensures forall i, j :: 0 <= i < j < |Kids(parent, p, n)| ==> Kids(parent, p, n)[i] < Kids(parent, p, n)[j]
  {
    if n > 0 {
      KidsMembers(parent, p, n - 1);
      var before := Kids(parent, p, n - 1);
      forall i | 0 <= i < |before| ensures before[i] < n - 1 { assert before[i] in before; }
    }
  }

  lemma {:induction false} KidsPrefix(a: seq<Option<nat>>, b: seq<Option<nat>>, p: nat, n: nat)
    requires n <= |a| && n <= |b| && a[..n] == b[..n]
    ensures Kids(a, p, n) == Kids(b, p, n)
  {
    if n > 0 {
      assert a[..n - 1] == a[..n][..n - 1] && b[..n - 1] == b[..n][..n - 1];
      assert a[n - 1] == a[..n][n - 1] && b[n - 1] == b[..n][n - 1];
      KidsPrefix(a, b, p, n - 1);
    }
  }

  ghost predicate Lists(parent: seq<Option<nat>>, children: seq<seq<nat>>, n: nat) {
    n <= |parent| == |children| && forall p :: 0 <= p < |children| ==> children[p] == Kids(parent, p, n)
  }

  /** What is wrong with the parent id of a datum. */
  ghost predicate ErrorAt(data: seq<Datum>, i: nat, e: Error) {
    && i < |data|
    && match e
       case MultipleRoots => IsRoot(data, i) && exists j: nat :: j < i && IsRoot(data, j)
       case Missing(id) => !IsRoot(data, i) && data[i].parentId.value == id && forall j :: !Named(data, j, id)
       case Ambiguous(id) =>
         !IsRoot(data, i) && data[i].parentId.value == id && exists j, k :: j != k && Named(data, j, id) && Named(data, k, id)
       case _ => false
  }

  ghost predicate Fine(data: seq<Datum>, n: nat) {
    forall i: nat, e :: i < n ==> !ErrorAt(data, i, e)
  }

  /** Why the data do not describe a tree: the first thing that is wrong with a parent id or, if nothing
      is, that no datum is a root, or not all reach it. */
  ghost predicate Explains(data: seq<Datum>, e: Error) {
    match e
    case NoRoot => Fine(data, |data|) && forall i :: !IsRoot(data, i)
    case Cycle => Fine(data, |data|) && exists root, parent :: OneRoot(data, root) && Parents(data, parent) && !Connected(parent, root)
    case _ => exists i :: ErrorAt(data, i, e) && Fine(data, i)
  }

  /** There is one explanation. */
  lemma UniqueError(data: seq<Datum>, e: Error, e': Error)
    requires Explains(data, e) && Explains(data, e')
    ensures e == e'
  {
    if !e.NoRoot? && !e.Cycle? {
      var i :| ErrorAt(data, i, e) && Fine(data, i);
      assert !Fine(data, |data|);
      var i' :| ErrorAt(data, i', e') && Fine(data, i');
      assert i == i';
    } else {
      assert e'.NoRoot? || e'.Cycle?;
    }
  }

  lemma FineSoFar(data: seq<Datum>, n: nat, root: Option<nat>, parent: seq<Option<nat>>)
    requires RootSoFar(data, n, root) && ParentsSoFar(data, n, parent)
    ensures Fine(data, n)
  {
    forall i: nat, e | i < n ensures !ErrorAt(data, i, e) {
      if !IsRoot(data, i) { assert Names(data, data[i].parentId.value, parent[i].value); }
    }
  }

  ghost predicate RootSoFar(data: seq<Datum>, n: nat, root: Option<nat>) {
    if root.None? then forall j: nat :: j < n ==> !IsRoot(data, j)
    else root.value < n && IsRoot(data, root.value) && forall j: nat :: j < n && IsRoot(data, j) ==> j == root.value
  }

  ghost predicate ParentsSoFar(data: seq<Datum>, n: nat, parent: seq<Option<nat>>) {
    && n <= |parent| == |data|
    && (forall i :: n <= i < |data| ==> parent[i] == None)
    && forall i :: 0 <= i < n ==>
         if IsRoot(data, i) then parent[i] == None
         else parent[i].Some? && Names(data, data[i].parentId.value, parent[i].value)
  }

  lemma KeyNames(data: seq<Datum>, byKey: map<string, Entry>, id: string)
    requires KeysOK(data, |data|, byKey) && id != ""
    ensures id !in byKey ==> forall j :: !Named(data, j, id)
    ensures id in byKey && byKey[id].Node? ==> Names(data, id, byKey[id].i)
    ensures id in byKey && byKey[id].AmbiguousKey? ==> exists j, k :: j != k && Named(data, j, id) && Named(data, k, id)
  {
  }

  lemma AddChild(parent: seq<Option<nat>>, children: seq<seq<nat>>, n: nat, p: nat)
    requires Lists(parent, children, n) && n < |parent| && p < |children|
    ensures Lists(parent[n := Some(p)], children[p := children[p] + [n]], n + 1)
  {
    var parent' := parent[n := Some(p)];
    assert parent'[..n] == parent[..n];
    var children' := children[p := children[p] + [n]];
    forall q | 0 <= q < |children| ensures children'[q] == Kids(parent', q, n + 1) {
      KidsPrefix(parent, parent', q, n);
    }
  }

  method Link(data: seq<Datum>, byKey: map<string, Entry>)
    returns (error: Option<Error>, root: Option<nat>, parent: seq<Option<nat>>, children: seq<seq<nat>>)
    requires KeysOK(data, |data|, byKey)
    ensures error.Some? ==> Explains(data, error.value) && !error.value.Cycle? && !error.value.NoRoot?
    ensures error.None? ==> RootSoFar(data, |data|, root) && Parents(data, parent) && Lists(parent, children, |data|) && Fine(data, |data|)
  {
    hide KeysOK, Named, Lists, Names, Fine;
    error, root := None, None;
    parent := seq(|data|, _ => None);
    children := seq(|data|, _ => []);
    NoLists(parent, children);
    for i := 0 to |data|
      invariant RootSoFar(data, i, root) && ParentsSoFar(data, i, parent) && Lists(parent, children, i) && |children| == |data|
    {
      if !(data[i].parentId.Some? && data[i].parentId.value != "") {
        assert IsRoot(data, i);
        if root.Some? {
          error := Some(MultipleRoots);
          FineSoFar(data, i, root, parent);
          assert ErrorAt(data, i, MultipleRoots);
          return;
        }
        root := Some(i);
        SkipChild(parent, children, i);
      } else {
        var id := data[i].parentId.value;
        assert !IsRoot(data, i);
        KeyNames(data, byKey, id);
        if id !in byKey {
          error := Some(Missing(id));
          FineSoFar(data, i, root, parent);
          assert ErrorAt(data, i, Missing(id));
          return;
        }
        if byKey[id].AmbiguousKey? {
          error := Some(Ambiguous(id));
          FineSoFar(data, i, root, parent);
          assert ErrorAt(data, i, Ambiguous(id));
          return;
        }
        var p := byKey[id].i;
        NamedInRange(data, id, p);
        AddChild(parent, children, i, p);
        children := children[p := children[p] + [i]];
        parent := parent[i := Some(p)];
      }
    }
    FineSoFar(data, |data|, root, parent);
  }

  lemma NoLists(parent: seq<Option<nat>>, children: seq<seq<nat>>)
    requires |parent| == |children| && forall p :: 0 <= p < |children| ==> children[p] == []
    ensures Lists(parent, children, 0)
  {
  }

  lemma SkipChild(parent: seq<Option<nat>>, children: seq<seq<nat>>, n: nat)
    requires Lists(parent, children, n) && n < |parent| && parent[n] == None
    ensures Lists(parent, children, n + 1)
  {
  }

  lemma NamedInRange(data: seq<Datum>, id: string, p: nat)
    requires Names(data, id, p)
    ensures p < |data|
  {
  }

  // Visiting every node before its children

  ghost function Elements(s: seq<nat>): set<nat> {
    set x | x in s
  }

  ghost predicate Distinct(s: seq<nat>) {
    |Elements(s)| == |s|
  }

  function Reversed(s: seq<nat>): seq<nat> {
    if s == [] then [] else Reversed(s[1..]) + [s[0]]
  }

  /** Everything but the root comes behind its parent. */
  ghost predicate BehindParent(parent: seq<Option<nat>>, root: nat, order: seq<nat>) {
    forall k :: 0 <= k < |order| ==> Behind(parent, root, order, k)
  }

  ghost predicate Behind(parent: seq<Option<nat>>, root: nat, order: seq<nat>, k: nat)
    requires k < |order|
  {
    order[k] < |parent| && (order[k] == root || (parent[order[k]].Some? && parent[order[k]].value in order[..k]))
  }

  /** A visit of all that can be reached from the root. */
  ghost predicate Visit(parent: seq<Option<nat>>, root: nat, order: seq<nat>) {
    && Distinct(order) && order != [] && order[0] == root && BehindParent(parent, root, order)
    && forall c: nat :: c < |parent| && parent[c].Some? && parent[c].value in order ==> c in order
  }

  /** What is on the stack is the root or has a visited parent, */
  ghost predicate Stacked(parent: seq<Option<nat>>, root: nat, order: seq<nat>, nodes: seq<nat>) {
    forall x :: x in nodes ==> x < |parent| && (x == root || (parent[x].Some? && parent[x].value in order))
  }

  /** and what has a visited parent is visited or on the stack. */
  ghost predicate Followed(parent: seq<Option<nat>>, order: seq<nat>, nodes: seq<nat>) {
    forall c: nat :: c < |parent| && parent[c].Some? && parent[c].value in order ==> c in order || c in nodes
  }

  /** The state of the visit: `order` is visited, `nodes` is the stack. */
  ghost predicate Visiting(parent: seq<Option<nat>>, root: nat, order: seq<nat>, nodes: seq<nat>) {
    && Distinct(order + nodes) && BehindParent(parent, root, order)
    && Stacked(parent, root, order, nodes) && Followed(parent, order, nodes)
    && (if order == [] then nodes == [root] else order[0] == root)
  }

  ghost function Numbers(n: nat): set<nat> {
    if n == 0 then {} else Numbers(n - 1) + {n - 1}
  }

  lemma {:induction false} NumbersSize(n: nat)
    ensures |Numbers(n)| == n && forall x: nat :: x in Numbers(n) <==> x < n
  {
    if n > 0 { NumbersSize(n - 1); }
  }

  lemma {:induction false} Subset(a: set<nat>, b: set<nat>)
    requires a <= b
    ensures |a| <= |b| && (|a| == |b| ==> a == b)
  {
    if a != {} {
      var x :| x in a;
      Subset(a - {x}, b - {x});
    }
  }

  lemma {:induction false} ElementsSize(s: seq<nat>)
    ensures |Elements(s)| <= |s|
  {
    if s != [] {
      ElementsSize(s[1..]);
      assert Elements(s) == Elements(s[1..]) + {s[0]};
    } else {
      assert Elements(s) == {};
    }
  }

  lemma UnionSize(a: set<nat>, b: set<nat>)
    ensures |a + b| <= |a| + |b| && (|a + b| == |a| + |b| <==> a !! b)
  {
    assert a + b == a + (b - a) && |a + (b - a)| == |a| + |b - a|;
    assert b == (b - a) + (a * b) && |b| == |b - a| + |a * b|;
  }

  /** Two parts are distinct together exactly when each is and they have nothing in common. */
  lemma DistinctParts(a: seq<nat>, b: seq<nat>)
    ensures Distinct(a + b) <==> Distinct(a) && Distinct(b) && Elements(a) !! Elements(b)
  {
    ElementsSize(a);
    ElementsSize(b);
    UnionSize(Elements(a), Elements(b));
    assert Elements(a + b) == Elements(a) + Elements(b);
  }

  /** Different numbers below `n` are at most `n`; they are `n` exactly if they are all. */
  lemma PigeonHole(s: seq<nat>, n: nat)
    requires Distinct(s) && forall x :: x in s ==> x < n
    ensures |s| <= n
    ensures |s| == n <==> Elements(s) == Numbers(n)
  {
    NumbersSize(n);
    Subset(Elements(s), Numbers(n));
  }

  lemma {:induction false} IncreasingDistinct(s: seq<nat>)
    requires forall i, j :: 0 <= i < j < |s| ==> s[i] < s[j]
    ensures Distinct(s)
  {
    if s != [] {
      IncreasingDistinct(s[1..]);
      assert Elements(s) == Elements(s[1..]) + {s[0]};
    } else {
      assert Elements(s) == {};
    }
  }

  lemma {:induction false} ReversedElements(s: seq<nat>)
    ensures Elements(Reversed(s)) == Elements(s) && |Reversed(s)| == |s|
  {
    if s != [] {
      ReversedElements(s[1..]);
      assert Elements(s) == Elements(s[1..]) + {s[0]};
      assert Elements(Reversed(s)) == Elements(Reversed(s[1..])) + {s[0]};
    }
  }

  lemma VisitingBounds(parent: seq<Option<nat>>, root: nat, order: seq<nat>, nodes: seq<nat>)
    requires Visiting(parent, root, order, nodes)
    ensures |order| + |nodes| <= |parent|
  {
    forall x | x in order + nodes ensures x < |parent| {
      if x in order {
        var k :| 0 <= k < |order| && order[k] == x;
        assert Behind(parent, root, order, k);
      }
    }
    PigeonHole(order + nodes, |parent|);
  }

  /** The children of a node on the stack are neither visited nor on the stack. */
  lemma NewKids(parent: seq<Option<nat>>, root: nat, order: seq<nat>, base: seq<nat>, node: nat, c: nat)
    requires Visiting(parent, root, order, base + [node]) && root < |parent| && parent[root] == None
    requires c < |parent| && parent[c] == Some(node)
    ensures c !in order && c !in base + [node]
  {
    hide Distinct;
    DistinctParts(order, base + [node]);
    assert node in Elements(base + [node]);
    assert node !in order by { assert node in order ==> node in Elements(order); }
    if c in order { ParentIn(parent, root, order, c); }
  }

  lemma ParentIn(parent: seq<Option<nat>>, root: nat, order: seq<nat>, c: nat)
    requires BehindParent(parent, root, order) && c in order
    ensures c == root || (c < |parent| && parent[c].Some? && parent[c].value in order)
  {
    var k :| 0 <= k < |order| && order[k] == c;
    assert Behind(parent, root, order, k);
  }

  lemma NextDistinct(order: seq<nat>, base: seq<nat>, node: nat, kids: seq<nat>)
    requires Distinct(order + (base + [node])) && Distinct(kids)
    requires forall c :: c in kids ==> c !in order && c !in base + [node]
    ensures Distinct(order + [node] + (base + Reversed(kids)))
  {
    hide Distinct;
    ReversedElements(kids);
    var a, b := order + (base + [node]), order + [node] + base;
    assert b + Reversed(kids) == order + [node] + (base + Reversed(kids));
    assert Elements(a) == Elements(b);
    SameDistinct(a, b);
    SameDistinct(kids, Reversed(kids));
    DistinctParts(b, Reversed(kids));
  }

  lemma SameDistinct(a: seq<nat>, b: seq<nat>)
    requires Elements(a) == Elements(b) && |a| == |b| && Distinct(a)
    ensures Distinct(b)
  {
  }

  lemma NextBehind(parent: seq<Option<nat>>, root: nat, order: seq<nat>, node: nat)
    requires BehindParent(parent, root, order) && node < |parent|
    requires node == root || (parent[node].Some? && parent[node].value in order)
    ensures BehindParent(parent, root, order + [node])
  {
    var order' := order + [node];
    forall k | 0 <= k < |order'| ensures Behind(parent, root, order', k) {
      if k < |order| {
        assert Behind(parent, root, order, k) && order'[..k] == order[..k];
      } else {
        assert order'[..k] == order;
      }
    }
  }

  lemma StackedNext(parent: seq<Option<nat>>, root: nat, order: seq<nat>, base: seq<nat>, node: nat, nodes: seq<nat>)
    requires Stacked(parent, root, order, base + [node])
    requires forall x :: x in nodes ==> x in base || (x < |parent| && parent[x] == Some(node))
    ensures Stacked(parent, root, order + [node], nodes)
  {
    forall x | x in nodes ensures x < |parent| && (x == root || (parent[x].Some? && parent[x].value in order + [node])) {
      if x in base { assert x in base + [node]; }
    }
  }

  lemma FollowedNext(parent: seq<Option<nat>>, order: seq<nat>, base: seq<nat>, node: nat, nodes: seq<nat>)
    requires Followed(parent, order, base + [node])
    requires forall x :: x in base ==> x in nodes
    requires forall c: nat :: c < |parent| && parent[c] == Some(node) ==> c in nodes
    ensures Followed(parent, order + [node], nodes)
  {
    forall c: nat | c < |parent| && parent[c].Some? && parent[c].value in order + [node]
      ensures c in order + [node] || c in nodes
    {
      if parent[c].value in order { assert c in order || c in base + [node]; }
    }
  }

  lemma InNext(base: seq<nat>, kids: seq<nat>, x: nat)
    ensures x in base + Reversed(kids) <==> x in base || x in kids
  {
    ReversedElements(kids);
    assert x in Reversed(kids) <==> x in Elements(Reversed(kids));
    assert x in kids <==> x in Elements(kids);
  }

  lemma VisitNext(parent: seq<Option<nat>>, root: nat, order: seq<nat>, base: seq<nat>, node: nat, kids: seq<nat>)
    requires Visiting(parent, root, order, base + [node]) && node < |parent| && kids == Kids(parent, node, |parent|)
    requires root < |parent| && parent[root] == None
    ensures Visiting(parent, root, order + [node], base + Reversed(kids))
  {
    KidsMembers(parent, node, |parent|);
    assert node in base + [node];
    assert node == root || (parent[node].Some? && parent[node].value in order);
    assert (order + [node])[0] == root by { assert (base + [node])[|base|] == node; }
    hide Distinct, BehindParent, Kids, Stacked, Followed, Reversed, Elements;
    forall c | c in kids ensures c !in order && c !in base + [node] { NewKids(parent, root, order, base, node, c); }
    IncreasingDistinct(kids);
    NextDistinct(order, base, node, kids);
    NextBehind(parent, root, order, node);
    var nodes := base + Reversed(kids);
    forall x ensures x in nodes <==> x in base || x in kids { InNext(base, kids, x); }
    StackedNext(parent, root, order, base, node, nodes);
    FollowedNext(parent, order, base, node, nodes);
  }

  // Which visit it is

  /** What is between a node and something below it is below the node too. */
  ghost predicate InBlock(parent: seq<Option<nat>>, s: seq<nat>, k: nat, m: nat, l: nat)
    requires k < m < l < |s|
  {
    Reaches(parent, s[l], s[k]) ==> Reaches(parent, s[m], s[k])
  }

  ghost predicate Blocks(parent: seq<Option<nat>>, s: seq<nat>) {
    forall k: nat, m: nat, l: nat :: k < m < l < |s| ==> InBlock(parent, s, k, m, l)
  }

  predicate InTurn(parent: seq<Option<nat>>, x: nat, y: nat) {
    x < |parent| && y < |parent| && parent[x].Some? && parent[x] == parent[y] ==> x < y
  }

  predicate SiblingsInTurn(parent: seq<Option<nat>>, s: seq<nat>) {
    forall k, l :: 0 <= k < l < |s| ==> InTurn(parent, s[k], s[l])
  }

  /** Every node stands in front of all that is below it, and behind what is below the siblings before it. */
  ghost predicate PreOrder(parent: seq<Option<nat>>, s: seq<nat>) {
    Blocks(parent, s) && SiblingsInTurn(parent, s)
  }

  lemma ReachesFromParent(parent: seq<Option<nat>>, c: nat, y: nat)
    requires c < |parent| && parent[c].Some? && c != y
    ensures Reaches(parent, c, y) <==> Reaches(parent, parent[c].value, y)
  {
    if Reaches(parent, c, y) {
      var k: nat :| Up(parent, c, k) == Some(y);
      assert Up(parent, parent[c].value, k - 1) == Some(y);
    }
    if Reaches(parent, parent[c].value, y) {
      var k: nat :| Up(parent, parent[c].value, k) == Some(y);
      assert Up(parent, c, k + 1) == Some(y);
    }
  }

  /** What is above a visited node has been visited before. */
  lemma {:induction false} AncestorVisited(parent: seq<Option<nat>>, root: nat, order: seq<nat>, i: nat, y: nat, k: nat)
    requires BehindParent(parent, root, order) && root < |parent| && parent[root] == None && i < |order|
    requires Up(parent, order[i], k) == Some(y)
    ensures y in order
    decreases k
  {
    assert Behind(parent, root, order, i);
    if k > 0 {
      var j :| 0 <= j < i && order[j] == parent[order[i]].value;
      AncestorVisited(parent, root, order, j, y, k - 1);
    }
  }

  /** So no visited node, and none that waits on the stack, is below another one that has not been visited. */
  lemma NotBelow(parent: seq<Option<nat>>, root: nat, order: seq<nat>, rest: seq<nat>, x: nat, y: nat)
    requires BehindParent(parent, root, order) && root < |parent| && parent[root] == None
    requires Stacked(parent, root, order, rest) && (x in order || x in rest) && y !in order && x != y
    ensures !Reaches(parent, x, y)
  {
    if Reaches(parent, x, y) {
      var k: nat :| Up(parent, x, k) == Some(y);
      if x in order {
        var i: nat :| i < |order| && order[i] == x;
        AncestorVisited(parent, root, order, i, y, k);
      } else {
        var i: nat :| i < |order| && order[i] == parent[x].value;
        AncestorVisited(parent, root, order, i, y, k - 1);
      }
    }
  }

  /** A node is taken off the stack, of which `rest` is what is left, the top first; its children are new. */
  ghost predicate Taking(parent: seq<Option<nat>>, root: nat, order: seq<nat>, node: nat, kids: seq<nat>, rest: seq<nat>) {
    && BehindParent(parent, root, order) && root < |parent| && parent[root] == None
    && Stacked(parent, root, order, rest) && Stacked(parent, root, order, [node])
    && node !in order && node !in rest
    && (forall c :: c in kids ==> c < |parent| && parent[c] == Some(node) && c !in order && c != node && c !in rest)
    && (forall i, j :: 0 <= i < j < |kids| ==> kids[i] < kids[j])
  }

  lemma KidReaches(parent: seq<Option<nat>>, root: nat, order: seq<nat>, node: nat, kids: seq<nat>, rest: seq<nat>, c: nat, y: nat)
    requires Taking(parent, root, order, node, kids, rest) && c in kids && (y in order || y == node || y in rest)
    ensures Reaches(parent, c, y) <==> Reaches(parent, node, y)
  {
    ReachesFromParent(parent, c, y);
  }

  /** Nothing else that is there is below a new child. */
  lemma NotBelowKid(parent: seq<Option<nat>>, root: nat, order: seq<nat>, node: nat, kids: seq<nat>, rest: seq<nat>, x: nat, c: nat)
    requires Taking(parent, root, order, node, kids, rest) && c in kids && x != c && (x in kids || x in rest)
    ensures !Reaches(parent, x, c)
  {
    if x in kids {
      ReachesFromParent(parent, x, c);
      NotBelow(parent, root, order, [node], node, c);
    } else {
      NotBelow(parent, root, order, rest, x, c);
    }
  }

  lemma NothingBelowYet(parent: seq<Option<nat>>, root: nat, order: seq<nat>, node: nat, kids: seq<nat>, rest: seq<nat>, x: nat)
    requires Taking(parent, root, order, node, kids, rest) && x in rest
    ensures !Reaches(parent, x, node)
  {
    NotBelow(parent, root, order, rest, x, node);
  }

  lemma ReachesItself(parent: seq<Option<nat>>, x: nat)
    ensures Reaches(parent, x, x)
  {
    assert Up(parent, x, 0) == Some(x);
  }

  lemma BlocksNext(parent: seq<Option<nat>>, root: nat, order: seq<nat>, node: nat, kids: seq<nat>, rest: seq<nat>)
    requires Taking(parent, root, order, node, kids, rest) && Blocks(parent, order + [node] + rest)
    ensures Blocks(parent, order + [node] + kids + rest)
  {
    var t := order + [node] + kids + rest;
    hide Reaches, BehindParent, Stacked, Blocks, Taking;
    forall k: nat, m: nat, l: nat | k < m < l < |t| ensures InBlock(parent, t, k, m, l) {
      BlockNext(parent, root, order, node, kids, rest, k, m, l);
    }
    assert Blocks(parent, t) by { BlocksAre(parent, t); }
  }

  lemma BlocksAre(parent: seq<Option<nat>>, s: seq<nat>)
    requires forall k: nat, m: nat, l: nat :: k < m < l < |s| ==> InBlock(parent, s, k, m, l)
    ensures Blocks(parent, s)
  {
  }

  lemma Block(parent: seq<Option<nat>>, s: seq<nat>, k: nat, m: nat, l: nat)
    requires Blocks(parent, s) && k < m <= l < |s| && Reaches(parent, s[l], s[k])
    ensures Reaches(parent, s[m], s[k])
  {
    assert m < l ==> InBlock(parent, s, k, m, l);
  }

  lemma BlockNext(parent: seq<Option<nat>>, root: nat, order: seq<nat>, node: nat, kids: seq<nat>, rest: seq<nat>, k: nat, m: nat, l: nat)
    requires Taking(parent, root, order, node, kids, rest) && Blocks(parent, order + [node] + rest)
    requires k < m < l < |order + [node] + kids + rest|
    ensures InBlock(parent, order + [node] + kids + rest, k, m, l)
  {
    var s, t, n, d := order + [node] + rest, order + [node] + kids + rest, |order|, |kids|;
    var b := n + 1 + d;
    hide Reaches, Blocks, Stacked, BehindParent;
    assert forall i :: 0 <= i <= n ==> s[i] == t[i] && (t[i] in order || t[i] == node);
    assert forall i :: n < i < b ==> t[i] == kids[i - n - 1];
    assert forall i :: b <= i < |t| ==> t[i] == rest[i - b] == s[i - d];
    assert forall i :: 0 <= i < d ==> kids[i] in kids;
    assert n < k < b ==> t[l] != t[k] && (t[l] in kids || t[l] in rest);
    hide Taking;
    if Reaches(parent, t[l], t[k]) {
      if n < k < b {
        NotBelowKid(parent, root, order, node, kids, rest, t[l], t[k]);
      } else if k > n {
        Block(parent, s, k - d, m - d, l - d);
      } else {
        if n < l < b { KidReaches(parent, root, order, node, kids, rest, t[l], t[k]); }
        if k == n {
          ReachesItself(parent, node);
          if l >= b { NothingBelowYet(parent, root, order, node, kids, rest, t[l]); }
        } else {
          var l1 := if l <= n then l else if l < b then n else l - d;
          Block(parent, s, k, if m <= n then m else if m < b then n else m - d, l1);
        }
        if n < m < b { KidReaches(parent, root, order, node, kids, rest, t[m], t[k]); }
      }
    }
  }
  lemma SiblingsNext(parent: seq<Option<nat>>, root: nat, order: seq<nat>, node: nat, kids: seq<nat>, rest: seq<nat>)
    requires Taking(parent, root, order, node, kids, rest) && SiblingsInTurn(parent, order + [node] + rest)
    ensures SiblingsInTurn(parent, order + [node] + kids + rest)
  {
    var s, t, n, d := order + [node] + rest, order + [node] + kids + rest, |order|, |kids|;
    var b := n + 1 + d;
    assert forall i :: 0 <= i <= n ==> s[i] == t[i] && (t[i] in order || t[i] == node);
    assert forall i :: n < i < b ==> t[i] == kids[i - n - 1] && t[i] in kids;
    assert forall i :: b <= i < |t| ==> t[i] == rest[i - b] == s[i - d] && t[i] in rest;
    forall k, l | 0 <= k < l < |t| ensures InTurn(parent, t[k], t[l]) {
      if n < k < b {
        if l >= b { NoOtherKid(parent, root, order, node, kids, rest, t[l]); }
      } else if n < l < b {
        NoOtherKid(parent, root, order, node, kids, rest, t[k]);
      } else {
        assert InTurn(parent, s[if k <= n then k else k - d], s[if l <= n then l else l - d]);
      }
    }
  }

  lemma NoOtherKid(parent: seq<Option<nat>>, root: nat, order: seq<nat>, node: nat, kids: seq<nat>, rest: seq<nat>, x: nat)
    requires Taking(parent, root, order, node, kids, rest) && (x in order || x == node || x in rest)
    ensures x < |parent| && parent[x] != Some(node)
  {
    if x in order {
      var i: nat :| i < |order| && order[i] == x;
      assert Behind(parent, root, order, i);
    } else if x == node {
      assert x in [node];
    }
  }

  lemma {:induction false} ReversedJoin(a: seq<nat>, b: seq<nat>)
    ensures Reversed(a + b) == Reversed(b) + Reversed(a)
  {
    if a == [] {
      assert a + b == b;
    } else {
      ReversedJoin(a[1..], b);
      assert (a + b)[0] == a[0] && (a + b)[1..] == a[1..] + b;
    }
  }

  lemma {:induction false} ReversedTwice(s: seq<nat>)
    ensures Reversed(Reversed(s)) == s
  {
    if s != [] {
      ReversedTwice(s[1..]);
      ReversedJoin(Reversed(s[1..]), [s[0]]);
      assert [s[0]][1..] == [] && Reversed([s[0]]) == [s[0]];
      assert [s[0]] + s[1..] == s;
    }
  }

  /** What is visited, and then the stack from the top. */
  function Agenda(order: seq<nat>, nodes: seq<nat>): seq<nat> {
    order + Reversed(nodes)
  }

  lemma AgendaTop(order: seq<nat>, base: seq<nat>, node: nat, kids: seq<nat>)
    ensures Agenda(order, base + [node]) == order + [node] + Reversed(base)
    ensures Agenda(order + [node], base + Reversed(kids)) == order + [node] + kids + Reversed(base)
  {
    ReversedJoin(base, [node]);
    ReversedOne(node);
    ReversedJoin(base, Reversed(kids));
    ReversedTwice(kids);
    hide Reversed;
    var rest := Reversed(base);
    assert order + ([node] + rest) == order + [node] + rest;
    assert order + [node] + (kids + rest) == order + [node] + kids + rest;
  }

  lemma ReversedOne(x: nat)
    ensures Reversed([x]) == [x]
  {
    assert [x][1..] == [];
  }

  lemma TakingNext(parent: seq<Option<nat>>, root: nat, order: seq<nat>, base: seq<nat>, node: nat, kids: seq<nat>)
    requires Visiting(parent, root, order, base + [node]) && node < |parent| && kids == Kids(parent, node, |parent|)
    requires root < |parent| && parent[root] == None
    ensures Taking(parent, root, order, node, kids, Reversed(base))
  {
    hide Distinct, Kids, Reversed, BehindParent, Followed;
    KidsMembers(parent, node, |parent|);
    DistinctParts(order, base + [node]);
    DistinctParts(base, [node]);
    assert node in base + [node] && node in Elements([node]);
    assert node !in order by { assert node in order ==> node in Elements(order); }
    assert node !in base by { assert node in base ==> node in Elements(base); }
    forall x ensures x in Reversed(base) <==> x in base { InReversed(base, x); }
    assert forall x :: x in base ==> x in base + [node];
    forall c | c in kids ensures c !in order && c !in base + [node] { NewKids(parent, root, order, base, node, c); }
  }

  lemma InReversed(s: seq<nat>, x: nat)
    ensures x in Reversed(s) <==> x in s
  {
    ReversedElements(s);
    assert x in Reversed(s) <==> x in Elements(Reversed(s));
    assert x in s <==> x in Elements(s);
  }

  lemma PreOrderNext(parent: seq<Option<nat>>, root: nat, order: seq<nat>, base: seq<nat>, node: nat, kids: seq<nat>)
    requires Visiting(parent, root, order, base + [node]) && node < |parent| && kids == Kids(parent, node, |parent|)
    requires root < |parent| && parent[root] == None && PreOrder(parent, Agenda(order, base + [node]))
    ensures PreOrder(parent, Agenda(order + [node], base + Reversed(kids)))
  {
    TakingNext(parent, root, order, base, node, kids);
    AgendaTop(order, base, node, kids);
    hide Taking, Visiting, Blocks, SiblingsInTurn, Reversed, Agenda, Kids;
    BlocksNext(parent, root, order, node, kids, Reversed(base));
    SiblingsNext(parent, root, order, node, kids, Reversed(base));
  }

  lemma PreOrderEnds(parent: seq<Option<nat>>, root: nat, order: seq<nat>)
    ensures PreOrder(parent, Agenda([], [root]))
    ensures Agenda(order, []) == order
  {
    assert [root][1..] == [] && Reversed([root]) == [root];
  }

  /** `eachBefore`: the order in which the callback sees the nodes. */
  method EachBefore(root: nat, children: seq<seq<nat>>, ghost parent: seq<Option<nat>>) returns (order: seq<nat>)
    requires root < |parent| && parent[root] == None && Lists(parent, children, |parent|)
    ensures Visit(parent, root, order) && PreOrder(parent, order)
  {
    hide Visiting, Visit, Lists, Kids, PreOrder, Agenda;
    var nodes := [root];
    order := [];
    VisitStart(parent, root);
    PreOrderEnds(parent, root, []);
    while nodes != []
      invariant Visiting(parent, root, order, nodes) && PreOrder(parent, Agenda(order, nodes))
      decreases |parent| - |order|
    {
      VisitingBounds(parent, root, order, nodes);
      var n := |nodes| - 1;
      var node := nodes[n];
      ghost var base := nodes[..n];
      assert nodes == base + [node];
      KidsOf(parent, root, order, nodes, children, node);
      VisitNext(parent, root, order, base, node, children[node]);
      PreOrderNext(parent, root, order, base, node, children[node]);
      nodes := Push(nodes[..n], children[node]);
      order := order + [node];
    }
    VisitEnd(parent, root, order);
    PreOrderEnds(parent, root, order);
  }

  /** Children go onto the stack from the last to the first. */
  method Push(base: seq<nat>, kids: seq<nat>) returns (nodes: seq<nat>)
    ensures nodes == base + Reversed(kids)
  {
    nodes := base;
    for i := |kids| downto 0
      invariant nodes == base + Reversed(kids[i..])
    {
      assert kids[i..][1..] == kids[i + 1..];
      nodes := nodes + [kids[i]];
    }
    assert kids[0..] == kids;
  }

  lemma VisitStart(parent: seq<Option<nat>>, root: nat)
    requires root < |parent| && parent[root] == None
    ensures Visiting(parent, root, [], [root])
  {
    assert [] + [root] == [root] && Elements([root]) == {root};
  }

  lemma VisitEnd(parent: seq<Option<nat>>, root: nat, order: seq<nat>)
    requires Visiting(parent, root, order, [])
    ensures Visit(parent, root, order)
  {
    assert order + [] == order;
  }

  lemma KidsOf(parent: seq<Option<nat>>, root: nat, order: seq<nat>, nodes: seq<nat>, children: seq<seq<nat>>, node: nat)
    requires Visiting(parent, root, order, nodes) && node in nodes && Lists(parent, children, |parent|)
    ensures node < |children| == |parent| && children[node] == Kids(parent, node, |parent|)
  {
  }

  // Reaching the root

  lemma {:induction false} VisitedReaches(parent: seq<Option<nat>>, root: nat, order: seq<nat>, k: nat)
    requires BehindParent(parent, root, order) && k < |order|
    ensures Reaches(parent, order[k], root)
  {
    assert Behind(parent, root, order, k);
    if order[k] == root {
      assert Up(parent, root, 0) == Some(root);
    } else {
      var m :| 0 <= m < k && order[m] == parent[order[k]].value;
      VisitedReaches(parent, root, order, m);
      var j: nat :| Up(parent, order[m], j) == Some(root);
      assert Up(parent, order[k], j + 1) == Some(root);
    }
  }

  lemma {:induction false} ReachingVisited(parent: seq<Option<nat>>, root: nat, order: seq<nat>, i: nat, k: nat)
    requires Visit(parent, root, order) && Up(parent, i, k) == Some(root)
    ensures i in order
    decreases k
  {
    if k > 0 { ReachingVisited(parent, root, order, parent[i].value, k - 1); }
  }

  /** The visit sees every node exactly when every node reaches the root. */
  lemma VisitComplete(parent: seq<Option<nat>>, root: nat, order: seq<nat>)
    requires Visit(parent, root, order)
    ensures |order| <= |parent|
    ensures |order| == |parent| <==> Connected(parent, root)
    ensures |order| == |parent| ==> forall i: nat :: i < |parent| ==> i in order
  {
    forall x | x in order ensures x < |parent| {
      var k :| 0 <= k < |order| && order[k] == x;
      assert Behind(parent, root, order, k);
    }
    PigeonHole(order, |parent|);
    NumbersSize(|parent|);
    if |order| == |parent| {
      forall i: nat | i < |parent| ensures i in order && Reaches(parent, i, root) {
        assert i in Elements(order);
        var k :| 0 <= k < |order| && order[k] == i;
        VisitedReaches(parent, root, order, k);
      }
    }
    if Connected(parent, root) {
      forall i: nat | i < |parent| ensures i in order {
        assert Reaches(parent, i, root);
        var k: nat :| Up(parent, i, k) == Some(root);
        ReachingVisited(parent, root, order, i, k);
      }
      assert Elements(order) == Numbers(|parent|);
    }
  }

  // Depths

  ghost predicate DepthOK(parent: seq<Option<nat>>, depth: seq<int>, x: nat) {
    x < |parent| == |depth| &&
    if parent[x].None? then depth[x] == 0 else parent[x].value < |depth| && depth[x] == depth[parent[x].value] + 1
  }

  lemma Later(order: seq<nat>, k: nat)
    requires Distinct(order) && k < |order|
    ensures order[k] !in order[..k]
  {
    DistinctParts(order[..k], order[k..]);
    assert order == order[..k] + order[k..] && order[k..][0] == order[k];
    assert order[k] in Elements(order[k..]);
  }

  /** The callback `node.depth = node.parent.depth + 1`, with -1 above the root. */
  method Depths(parent: seq<Option<nat>>, order: seq<nat>, ghost root: nat) returns (depth: seq<int>)
    requires Visit(parent, root, order) && root < |parent| && parent[root] == None
    ensures |depth| == |parent| && forall x: nat :: x in order ==> DepthOK(parent, depth, x)
  {
    hide Distinct;
    depth := seq(|parent|, _ => 0);
    for k := 0 to |order|
      invariant |depth| == |parent|
      invariant forall m :: 0 <= m < k ==> DepthOK(parent, depth, order[m])
    {
      assert Behind(parent, root, order, k);
      Later(order, k);
      var node := order[k];
      var above := -1;
      if parent[node].Some? {
        ghost var m :| 0 <= m < k && order[m] == parent[node].value;
        assert DepthOK(parent, depth, order[m]);
        above := depth[parent[node].value];
      }
      ghost var before := depth;
      depth := depth[node := above + 1];
      forall m | 0 <= m < k ensures DepthOK(parent, depth, order[m]) { DepthStays(parent, before, depth, order, k, m, root); }
    }
  }

  lemma DepthStays(parent: seq<Option<nat>>, before: seq<int>, after: seq<int>, order: seq<nat>, k: nat, m: nat, root: nat)
    requires m < k < |order| && BehindParent(parent, root, order) && order[k] !in order[..k]
    requires root < |parent| && parent[root] == None
    requires order[k] < |before| == |after| && after == before[order[k] := after[order[k]]]
    requires DepthOK(parent, before, order[m])
    ensures DepthOK(parent, after, order[m])
  {
    assert Behind(parent, root, order, m);
    assert order[m] in order[..k];
    if parent[order[m]].Some? {
      var j :| 0 <= j < m && order[j] == parent[order[m]].value;
      assert order[j] in order[..k];
    }
  }

  /** The depth is the number of steps to the root. */
  lemma {:induction false} DepthIsDistance(parent: seq<Option<nat>>, depth: seq<int>, root: nat, i: nat, k: nat)
    requires root < |parent| && parent[root] == None && Up(parent, i, k) == Some(root)
    requires forall x: nat :: x < |parent| ==> DepthOK(parent, depth, x)
    ensures i < |depth| && depth[i] == k
    decreases k
  {
    if k > 0 { DepthIsDistance(parent, depth, root, parent[i].value, k - 1); } else { assert DepthOK(parent, depth, root); }
    assert DepthOK(parent, depth, i);
  }

  // Heights

  /** The node is higher than its child. */
  ghost predicate Above(parent: seq<Option<nat>>, height: seq<int>, c: nat) {
    c < |parent| == |height| && (parent[c].Some? ==> parent[c].value < |height| && height[parent[c].value] > height[c])
  }

  /** A height is 0 or due to a child among `seen`. */
  ghost predicate Due(parent: seq<Option<nat>>, height: seq<int>, seen: set<nat>, v: nat) {
    v < |parent| == |height| && height[v] >= 0 &&
    (height[v] == 0 || exists c: nat :: c in seen && c < |parent| && parent[c] == Some(v) && height[v] == height[c] + 1)
  }

  ghost predicate HeightsOK(parent: seq<Option<nat>>, height: seq<int>, seen: set<nat>) {
    && |height| == |parent|
    && (forall v :: v in seen ==> Above(parent, height, v) && Due(parent, height, seen, v))
    && (forall v: nat :: v < |parent| && v !in seen ==> height[v] == 0)
  }

  /** In the middle of a climb: `w` is to be raised to `h`, because of a child that is that high already. */
  ghost predicate Climbing(parent: seq<Option<nat>>, height: seq<int>, seen: set<nat>, w: nat, h: int) {
    && |height| == |parent| && w in seen && w < |parent| && 0 <= height[w] <= h && (h == 0 || height[w] < h)
    && (h == 0 || exists c: nat :: c in seen && c < |parent| && parent[c] == Some(w) && h == height[c] + 1)
    && (forall v :: v in seen && v != w && v < |parent| && parent[v] != Some(w) ==> Above(parent, height, v))
    && (forall v :: v in seen && v < |parent| && parent[v] == Some(w) ==> height[v] < h)
    && (forall v :: v in seen && v != w ==> Due(parent, height, seen, v))
    && (forall v: nat :: v < |parent| && v !in seen ==> height[v] == 0)
  }

  ghost predicate ParentOnTheWay(parent: seq<Option<nat>>, height: seq<int>, seen: set<nat>, p: nat, h: int) {
    p in seen && p < |parent| == |height| && height[p] >= 0 && (height[p] > h ==> Due(parent, height, seen, p))
  }

  /** After raising `w` only its own parent may be too low. */
  ghost predicate Raised(parent: seq<Option<nat>>, height: seq<int>, seen: set<nat>, w: nat, h: int) {
    && |height| == |parent| && w in seen && w < |parent| && height[w] == h >= 0
    && (forall v :: v in seen && v != w ==> Above(parent, height, v))
    && (forall v :: v in seen && parent[w] != Some(v) ==> Due(parent, height, seen, v))
    && (forall v: nat :: v < |parent| && v !in seen ==> height[v] == 0)
    && (parent[w].Some? ==> ParentOnTheWay(parent, height, seen, parent[w].value, h))
  }

  ghost predicate Closed(parent: seq<Option<nat>>, seen: set<nat>) {
    forall v :: v in seen ==> v < |parent| && (parent[v].Some? ==> parent[v].value in seen && parent[v] != Some(v))
  }

  lemma Raise(parent: seq<Option<nat>>, height: seq<int>, seen: set<nat>, w: nat, h: int)
    requires Closed(parent, seen) && Climbing(parent, height, seen, w, h)
    ensures Raised(parent, height[w := h], seen, w, h)
  {
    var height' := height[w := h];
    assert w in seen && |height| == |parent| && h >= 0;
    assert forall v: nat :: v < |parent| && v !in seen ==> height'[v] == 0;
    hide Above, Due, Climbing, ParentOnTheWay, Closed;
    forall v | v in seen && v != w ensures Above(parent, height', v) {
      AboveStays(parent, height, seen, w, h, v);
    }
    forall v | v in seen && parent[w] != Some(v) ensures Due(parent, height', seen, v) {
      DueStays(parent, height, seen, w, h, v);
    }
    if parent[w].Some? { ParentStays(parent, height, seen, w, h); }
  }

  lemma AboveStays(parent: seq<Option<nat>>, height: seq<int>, seen: set<nat>, w: nat, h: int, v: nat)
    requires Closed(parent, seen) && Climbing(parent, height, seen, w, h) && v in seen && v != w
    ensures Above(parent, height[w := h], v)
  {
    if parent[v] != Some(w) { assert Above(parent, height, v); }
  }

  lemma ParentStays(parent: seq<Option<nat>>, height: seq<int>, seen: set<nat>, w: nat, h: int)
    requires Closed(parent, seen) && Climbing(parent, height, seen, w, h) && parent[w].Some?
    ensures ParentOnTheWay(parent, height[w := h], seen, parent[w].value, h)
  {
    var p := parent[w].value;
    assert p in seen && p != w && p < |parent|;
    assert height[p] >= 0 by { assert Due(parent, height, seen, p); }
    assert height[w := h][p] == height[p];
    if height[p] > h {
      hide Due, Climbing;
      DueStays(parent, height, seen, w, h, p);
    }
  }

  lemma DueStays(parent: seq<Option<nat>>, height: seq<int>, seen: set<nat>, w: nat, h: int, v: nat)
    requires Closed(parent, seen) && Climbing(parent, height, seen, w, h) && v in seen
    requires parent[w] != Some(v) || height[v] > h
    ensures Due(parent, height[w := h], seen, v)
  {
    var height' := height[w := h];
    if v == w {
      if h > 0 {
        var c: nat :| c in seen && c < |parent| && parent[c] == Some(w) && h == height[c] + 1;
        assert parent[c] == Some(v) && height'[v] == height'[c] + 1;
      }
    } else {
      assert Due(parent, height, seen, v);
      if height[v] > 0 {
        var c: nat :| c in seen && c < |parent| && parent[c] == Some(v) && height[v] == height[c] + 1;
        assert height'[c] == height[c];
      }
    }
  }

  lemma Stop(parent: seq<Option<nat>>, height: seq<int>, seen: set<nat>, w: nat, h: int)
    requires Closed(parent, seen) && Raised(parent, height, seen, w, h)
    requires parent[w].None? || height[parent[w].value] > h
    ensures HeightsOK(parent, height, seen)
  {
  }

  lemma ClimbOn(parent: seq<Option<nat>>, height: seq<int>, seen: set<nat>, w: nat, h: int)
    requires Closed(parent, seen) && Raised(parent, height, seen, w, h)
    requires parent[w].Some? && height[parent[w].value] <= h
    ensures Climbing(parent, height, seen, parent[w].value, h + 1)
  {
    var p := parent[w].value;
    forall v | v in seen && v < |parent| && parent[v] == Some(p) ensures height[v] < h + 1 {
      if v != w { assert Above(parent, height, v); }
    }
  }

  /** `computeHeight`: climbs while the parent is not high enough. */
  method ComputeHeight(parent: seq<Option<nat>>, height: seq<int>, node: nat, ghost seen: set<nat>, ghost depth: seq<int>)
    returns (r: seq<int>)
    requires Closed(parent, seen) && Climbing(parent, height, seen, node, 0)
    requires |depth| == |parent| && forall x :: x in seen ==> DepthOK(parent, depth, x) && depth[x] >= 0
    ensures HeightsOK(parent, r, seen)
  {
    hide Climbing, Raised, Above, Due, HeightsOK;
    r := height;
    var w: nat, h := node, 0;
    InSeen(parent, r, seen, w, h);
    while true
      invariant Climbing(parent, r, seen, w, h) && w in seen && w < |depth|
      decreases depth[w]
    {
      InSeen(parent, r, seen, w, h);
      Raise(parent, r, seen, w, h);
      r := r[w := h];
      RaisedParent(parent, r, seen, w, h);
      if parent[w].None? || r[parent[w].value] >= h + 1 {
        Stop(parent, r, seen, w, h);
        break;
      }
      ClimbOn(parent, r, seen, w, h);
      assert DepthOK(parent, depth, w);
      w, h := parent[w].value, h + 1;
    }
  }

  lemma InSeen(parent: seq<Option<nat>>, height: seq<int>, seen: set<nat>, w: nat, h: int)
    requires Climbing(parent, height, seen, w, h)
    ensures w in seen && w < |parent| == |height|
  {
  }

  lemma RaisedParent(parent: seq<Option<nat>>, height: seq<int>, seen: set<nat>, w: nat, h: int)
    requires Raised(parent, height, seen, w, h)
    ensures w in seen && w < |parent| == |height| && (parent[w].Some? ==> parent[w].value < |height| && parent[w].value in seen)
  {
  }

  lemma VisitClosed(parent: seq<Option<nat>>, root: nat, order: seq<nat>, k: nat)
    requires Visit(parent, root, order) && root < |parent| && parent[root] == None && k <= |order|
    ensures Closed(parent, Elements(order[..k]))
  {
    hide Distinct;
    forall v | v in Elements(order[..k])
      ensures v < |parent| && (parent[v].Some? ==> parent[v].value in Elements(order[..k]) && parent[v] != Some(v))
    {
      var m :| 0 <= m < k && order[m] == v;
      assert Behind(parent, root, order, m);
      Later(order, m);
      if parent[v].Some? {
        var j :| 0 <= j < m && order[j] == parent[v].value;
        assert order[j] in order[..k];
      }
    }
  }

  lemma StartClimb(parent: seq<Option<nat>>, height: seq<int>, seen: set<nat>, u: nat)
    requires Closed(parent, seen) && Closed(parent, seen + {u}) && HeightsOK(parent, height, seen) && u !in seen
    ensures Climbing(parent, height, seen + {u}, u, 0)
  {
    var seen' := seen + {u};
    forall v | v in seen' && v != u ensures Due(parent, height, seen', v) {
      assert Due(parent, height, seen, v);
    }
    forall v | v in seen' && v != u && v < |parent| && parent[v] != Some(u) ensures Above(parent, height, v) {
      assert v in seen;
    }
  }

  method Heights(parent: seq<Option<nat>>, order: seq<nat>, ghost root: nat, ghost depth: seq<int>) returns (height: seq<int>)
    requires Visit(parent, root, order) && root < |parent| && parent[root] == None
    requires |depth| == |parent| && forall x: nat :: x in order ==> DepthOK(parent, depth, x) && depth[x] >= 0
    ensures HeightsOK(parent, height, Elements(order))
  {
    hide Visit, Climbing, HeightsOK, Distinct, DepthOK;
    height := seq(|parent|, _ => 0);
    NoHeights(parent, height);
    assert Elements(order[..0]) == {};
    for k := 0 to |order|
      invariant HeightsOK(parent, height, Elements(order[..k]))
    {
      VisitClosed(parent, root, order, k);
      VisitClosed(parent, root, order, k + 1);
      VisitDistinct(parent, root, order);
      Later(order, k);
      assert Elements(order[..k + 1]) == Elements(order[..k]) + {order[k]};
      StartClimb(parent, height, Elements(order[..k]), order[k]);
      height := ComputeHeight(parent, height, order[k], Elements(order[..k + 1]), depth);
    }
    assert order[..|order|] == order;
  }

  lemma NoHeights(parent: seq<Option<nat>>, height: seq<int>)
    requires |height| == |parent| && forall v :: 0 <= v < |height| ==> height[v] == 0
    ensures HeightsOK(parent, height, {})
  {
  }

  lemma VisitDistinct(parent: seq<Option<nat>>, root: nat, order: seq<nat>)
    requires Visit(parent, root, order)
    ensures Distinct(order)
  {
  }

  // The height is the length of the longest way down

  lemma {:induction false} UpOneMore(parent: seq<Option<nat>>, u: nat, k: nat, c: nat, v: nat)
    requires Up(parent, u, k) == Some(c) && c < |parent| && parent[c] == Some(v)
    ensures Up(parent, u, k + 1) == Some(v)
    decreases k
  {
    if k > 0 { UpOneMore(parent, parent[u].value, k - 1, c, v); } else { assert Up(parent, v, 0) == Some(v); }
  }

  lemma {:induction false} NothingLower(parent: seq<Option<nat>>, height: seq<int>, u: nat, k: nat, v: nat)
    requires HeightsOK(parent, height, Numbers(|parent|)) && v < |parent| && Up(parent, u, k) == Some(v)
    ensures u < |parent| && height[u] + k <= height[v]
    decreases k
  {
    hide HeightsOK;
    AboveIn(parent, height, v);
    if k > 0 {
      AboveIn(parent, height, u);
      NothingLower(parent, height, parent[u].value, k - 1, v);
    }
  }

  lemma AboveIn(parent: seq<Option<nat>>, height: seq<int>, c: nat)
    requires HeightsOK(parent, height, Numbers(|parent|)) && c < |parent|
    ensures |height| == |parent| && Above(parent, height, c)
  {
    NumbersSize(|parent|);
  }

  lemma DueBelow(parent: seq<Option<nat>>, height: seq<int>, v: nat)
    requires HeightsOK(parent, height, Numbers(|parent|)) && v < |parent|
    ensures |height| == |parent| && height[v] >= 0
    ensures height[v] == 0 || exists c: nat :: c < |parent| && parent[c] == Some(v) && height[v] == height[c] + 1
  {
    NumbersSize(|parent|);
    assert Due(parent, height, Numbers(|parent|), v);
  }

  lemma {:induction false} SomethingThere(parent: seq<Option<nat>>, height: seq<int>, v: nat) returns (u: nat)
    requires HeightsOK(parent, height, Numbers(|parent|)) && v < |parent|
    ensures height[v] >= 0 && Up(parent, u, height[v]) == Some(v)
    decreases if |height| == |parent| && v < |height| then height[v] else 0
  {
    hide HeightsOK;
    DueBelow(parent, height, v);
    if height[v] == 0 {
      u := v;
    } else {
      var c: nat :| c < |parent| && parent[c] == Some(v) && height[v] == height[c] + 1;
      DueBelow(parent, height, c);
      u := SomethingThere(parent, height, c);
      UpOneMore(parent, u, height[c], c, v);
    }
  }

  /** The height of a node: some node is that far below it, and no node further. */
  ghost predicate IsHeight(parent: seq<Option<nat>>, v: nat, h: int) {
    && h >= 0
    && (exists u: nat :: Up(parent, u, h) == Some(v))
    && (forall u: nat, k: nat :: Up(parent, u, k) == Some(v) ==> k <= h)
  }

  lemma HeightIsLongest(parent: seq<Option<nat>>, height: seq<int>, v: nat)
    requires HeightsOK(parent, height, Numbers(|parent|)) && v < |parent|
    ensures IsHeight(parent, v, height[v])
  {
    var u := SomethingThere(parent, height, v);
    forall u: nat, k: nat | Up(parent, u, k) == Some(v) ensures k <= height[v] {
      NothingLower(parent, height, u, k, v);
      NumbersSize(|parent|);
      assert Due(parent, height, Numbers(|parent|), u);
    }
  }

  // All together

  /** The tree over all data: parents and children as the data say, the distance to the root, and the
      length of the longest way down. */
  ghost predicate IsTree(data: seq<Datum>, r: Result)
    requires r.Tree?
  {
    && r.root < |data| && Describes(data, r.root, r.parent) && |r.depth| == |r.height| == |data|
    && |r.children| == |data| && (forall p :: 0 <= p < |data| ==> r.children[p] == Kids(r.parent, p, |data|))
    && (forall i: nat :: i < |data| ==> r.depth[i] >= 0 && Up(r.parent, i, r.depth[i]) == Some(r.root))
    && (forall i: nat :: i < |data| ==> IsHeight(r.parent, i, r.height[i]))
  }

  /** `stratify` succeeds exactly when the data describe a tree, and otherwise says why not. */
  method StratifyData(data: seq<Datum>) returns (r: Result)
    ensures r.Tree? <==> exists root, parent :: Describes(data, root, parent)
    ensures r.Tree? ==> IsTree(data, r)
    ensures r.Failure? ==> Explains(data, r.error)
  {
    hide KeysOK, Explains, Describes, IsTree, Visit, HeightsOK, Lists, Parents, RootSoFar, Fine;
    var byKey := NodesByKey(data);
    var error, root, parent, children := Link(data, byKey);
    if error.Some? {
      ExplainedIsNoTree(data, error.value);
      return Failure(error.value);
    }
    if root.None? {
      NoRootFound(data);
      return Failure(NoRoot);
    }
    RootFound(data, root.value, parent);
    var order := EachBefore(root.value, children, parent);
    VisitComplete(parent, root.value, order);
    if |data| - |order| > 0 {
      NotAllVisited(data, root.value, parent);
      return Failure(Cycle);
    }
    var depth := Depths(parent, order, root.value);
    AllDepths(parent, depth, root.value, order);
    var height := Heights(parent, order, root.value, depth);
    AllHeights(parent, height, order);
    r := Tree(root.value, parent, children, depth, height);
    AllTogether(data, r);
  }

  function Absent(id: Option<string>): Option<string> {
    if id == Some("") then None else id
  }

  function WithoutEmpty(data: seq<Datum>): (r: seq<Datum>)
    ensures |r| == |data| && forall i :: 0 <= i < |data| ==> r[i] == Datum(Absent(data[i].id), Absent(data[i].parentId))
  {
    seq(|data|, i requires 0 <= i < |data| => Datum(Absent(data[i].id), Absent(data[i].parentId)))
  }

  /** Empty ids and parent ids are as good as none. */
  lemma EmptyIsAbsent(data: seq<Datum>, root: nat, parent: seq<Option<nat>>)
    ensures Describes(data, root, parent) <==> Describes(WithoutEmpty(data), root, parent)
  {
    var clean := WithoutEmpty(data);
    assert forall i: nat :: IsRoot(clean, i) == IsRoot(data, i);
    assert forall i: nat, id :: Named(clean, i, id) == Named(data, i, id);
    hide IsRoot, Named, Connected;
    assert OneRoot(clean, root) == OneRoot(data, root);
    SameParents(data, clean, parent);
  }

  lemma SameParents(data: seq<Datum>, clean: seq<Datum>, parent: seq<Option<nat>>)
    requires |clean| == |data| && clean == WithoutEmpty(data)
    requires forall i: nat :: IsRoot(clean, i) == IsRoot(data, i)
    requires forall i: nat, id :: Named(clean, i, id) == Named(data, i, id)
    ensures Parents(clean, parent) == Parents(data, parent)
  {
    forall i: nat | i < |data| && !IsRoot(data, i)
      ensures !IsRoot(clean, i) && clean[i].parentId.value == data[i].parentId.value
    {
    }
    assert forall id, p: nat :: Names(clean, id, p) == Names(data, id, p);
  }

  lemma UniqueTree(data: seq<Datum>, root: nat, parent: seq<Option<nat>>, root': nat, parent': seq<Option<nat>>)
    requires OneRoot(data, root) && Parents(data, parent) && OneRoot(data, root') && Parents(data, parent')
    ensures root == root' && parent == parent'
  {
  }

  lemma TreeIsFine(data: seq<Datum>, root: nat, parent: seq<Option<nat>>)
    requires Describes(data, root, parent)
    ensures Fine(data, |data|) && forall i: nat, e :: i >= |data| ==> !ErrorAt(data, i, e)
  {
    FineSoFar(data, |data|, Some(root), parent);
  }

  lemma ExplainedIsNoTree(data: seq<Datum>, e: Error)
    requires Explains(data, e)
    ensures !exists root, parent :: Describes(data, root, parent)
  {
    if root: nat, parent: seq<Option<nat>> :| Describes(data, root, parent) {
      TreeIsFine(data, root, parent);
      hide ErrorAt;
      if e.Cycle? {
        var root', parent' :| OneRoot(data, root') && Parents(data, parent') && !Connected(parent', root');
        UniqueTree(data, root, parent, root', parent');
      }
    }
  }

  lemma NoRootFound(data: seq<Datum>)
    requires RootSoFar(data, |data|, None) && Fine(data, |data|)
    ensures Explains(data, NoRoot) && !exists root, parent :: Describes(data, root, parent)
  {
    assert Explains(data, NoRoot);
    ExplainedIsNoTree(data, NoRoot);
  }

  lemma RootFound(data: seq<Datum>, root: nat, parent: seq<Option<nat>>)
    requires RootSoFar(data, |data|, Some(root)) && Parents(data, parent)
    ensures OneRoot(data, root) && root < |data| == |parent| && parent[root] == None
  {
  }

  lemma NotAllVisited(data: seq<Datum>, root: nat, parent: seq<Option<nat>>)
    requires OneRoot(data, root) && Parents(data, parent) && !Connected(parent, root) && Fine(data, |data|)
    ensures Explains(data, Cycle) && !exists root, parent :: Describes(data, root, parent)
  {
    assert Explains(data, Cycle);
    ExplainedIsNoTree(data, Cycle);
  }

  lemma AllDepths(parent: seq<Option<nat>>, depth: seq<int>, root: nat, order: seq<nat>)
    requires root < |parent| == |depth| && parent[root] == None && Connected(parent, root)
    requires forall i: nat :: i < |parent| ==> i in order
    requires forall x: nat :: x in order ==> DepthOK(parent, depth, x)
    ensures forall i: nat :: i < |parent| ==> depth[i] >= 0 && Up(parent, i, depth[i]) == Some(root)
    ensures forall x: nat :: x in order ==> DepthOK(parent, depth, x) && depth[x] >= 0
  {
    forall i: nat | i < |parent| ensures depth[i] >= 0 && Up(parent, i, depth[i]) == Some(root) {
      assert Reaches(parent, i, root);
      var k: nat :| Up(parent, i, k) == Some(root);
      DepthIsDistance(parent, depth, root, i, k);
    }
  }

  lemma AllHeights(parent: seq<Option<nat>>, height: seq<int>, order: seq<nat>)
    requires HeightsOK(parent, height, Elements(order)) && forall i: nat :: i < |parent| ==> i in order
    ensures |height| == |parent| && forall i: nat :: i < |parent| ==> IsHeight(parent, i, height[i])
  {
    NumbersSize(|parent|);
    forall v ensures v in Elements(order) <==> v in Numbers(|parent|) {
      if v in Elements(order) { assert Above(parent, height, v); }
    }
    assert Elements(order) == Numbers(|parent|);
    forall i: nat | i < |parent| ensures IsHeight(parent, i, height[i]) { HeightIsLongest(parent, height, i); }
  }

  lemma AllTogether(data: seq<Datum>, r: Result)
    requires r.Tree? && OneRoot(data, r.root) && Parents(data, r.parent) && Connected(r.parent, r.root)
    requires Lists(r.parent, r.children, |data|) && |r.depth| == |r.height| == |data|
    requires forall i: nat :: i < |data| ==> r.depth[i] >= 0 && Up(r.parent, i, r.depth[i]) == Some(r.root)
    requires forall i: nat :: i < |data| ==> IsHeight(r.parent, i, r.height[i])
    ensures IsTree(data, r) && Describes(data, r.root, r.parent)
  {
  }
}
