/** The shape of a red-black tree as a value: trees, contexts (trees with a hole), in-order
    sequences, and the colour and height rules split between a subtree and its context. */
module RedBlackShape {

  datatype Tree<+T> = Nil | Node(l: Tree<T>, n: T, red: bool, r: Tree<T>)

  /** The way from a hole up to the root: the hole is a left or a right child of `n`. */
  datatype Ctx<+T> = Top | InL(up: Ctx<T>, n: T, red: bool, r: Tree<T>) | InR(l: Tree<T>, n: T, red: bool, up: Ctx<T>)

  function Plug<T>(c: Ctx<T>, t: Tree<T>): Tree<T> {
    match c
    case Top => t
    case InL(up, n, red, r) => Plug(up, Node(t, n, red, r))
    case InR(l, n, red, up) => Plug(up, Node(l, n, red, t))
  }

  /** The context `c` extended downwards by the path `p`. */
  function Compose<T>(p: Ctx<T>, c: Ctx<T>): Ctx<T> {
    match p
    case Top => c
    case InL(up, n, red, r) => InL(Compose(up, c), n, red, r)
    case InR(l, n, red, up) => InR(l, n, red, Compose(up, c))
  }

  lemma {:induction false} PlugCompose<T>(p: Ctx<T>, c: Ctx<T>, t: Tree<T>)
    ensures Plug(Compose(p, c), t) == Plug(c, Plug(p, t))
  {
    match p
    case Top =>
    case InL(up, n, red, r) => PlugCompose(up, c, Node(t, n, red, r));
    case InR(l, n, red, up) => PlugCompose(up, c, Node(l, n, red, t));
  }

  function InOrder<T>(t: Tree<T>): seq<T> {
    match t
    case Nil => []
    case Node(l, n, _, r) => InOrder(l) + [n] + InOrder(r)
  }

  /** What comes before the hole, in order. */
  function Before<T>(c: Ctx<T>): seq<T> {
    match c
    case Top => []
    case InL(up, _, _, _) => Before(up)
    case InR(l, n, _, up) => Before(up) + InOrder(l) + [n]
  }

  function After<T>(c: Ctx<T>): seq<T> {
    match c
    case Top => []
    case InL(up, n, _, r) => [n] + InOrder(r) + After(up)
    case InR(_, _, _, up) => After(up)
  }

  lemma {:induction false} PlugInOrder<T>(c: Ctx<T>, t: Tree<T>)
    ensures InOrder(Plug(c, t)) == Before(c) + InOrder(t) + After(c)
  {
    match c
    case Top =>
    case InL(up, n, red, r) =>
      PlugInOrder(up, Node(t, n, red, r));
      Associate(Before(up), InOrder(t), [n], InOrder(r), After(up));
    case InR(l, n, red, up) =>
      PlugInOrder(up, Node(l, n, red, t));
      Associate(Before(up), InOrder(l), [n], InOrder(t), After(up));
  }

  lemma Associate<T>(a: seq<T>, b: seq<T>, c: seq<T>, d: seq<T>, e: seq<T>)
    ensures a + (b + c + d) + e == a + b + (c + d + e) == a + b + c + d + e
  {
  }

  lemma RotationInOrder<T>(a: Tree<T>, p: T, pc: bool, b: Tree<T>, q: T, qc: bool, d: Tree<T>, pc': bool, qc': bool)
    ensures InOrder(Node(Node(a, p, pc, b), q, qc, d)) == InOrder(Node(a, p, pc', Node(b, q, qc', d)))
  {
    assert InOrder(a) + [p] + InOrder(b) + [q] + InOrder(d) == InOrder(a) + [p] + (InOrder(b) + [q] + InOrder(d));
  }

  lemma SameInOrder<T>(c: Ctx<T>, t: Tree<T>, t': Tree<T>)
    requires InOrder(t) == InOrder(t')
    ensures InOrder(Plug(c, t)) == InOrder(Plug(c, t'))
  {
    PlugInOrder(c, t);
    PlugInOrder(c, t');
  }

  function Depth<T>(c: Ctx<T>): nat {
    if c.Top? then 0 else 1 + Depth(c.up)
  }

  // Colours and heights

  predicate Red<T>(t: Tree<T>) { t.Node? && t.red }

  /** Above the root counts as red: a tree fits there only with a black root. */
  predicate RedAbove<T>(c: Ctx<T>) { c.Top? || c.red }

  /** No red node has a red child, and every path down passes `h` black nodes. */
  predicate Good<T>(t: Tree<T>, h: nat) {
    match t
    case Nil => h == 0
    case Node(l, _, red, r) =>
      if red then Good(l, h) && Good(r, h) && !Red(l) && !Red(r)
      else h > 0 && Good(l, h - 1) && Good(r, h - 1)
  }

  /** The context keeps the rules once a subtree of black height `h` fills the hole, except that
      a red subtree also needs `RedAbove` to be false. */
  predicate CtxGood<T>(c: Ctx<T>, h: nat) {
    match c
    case Top => true
    case InL(up, _, red, r) => Good(r, h) && (red ==> !Red(r) && !RedAbove(up)) && CtxGood(up, if red then h else h + 1)
    case InR(l, _, red, up) => Good(l, h) && (red ==> !Red(l) && !RedAbove(up)) && CtxGood(up, if red then h else h + 1)
  }

  /** Which node sits above a right child does not matter to the colour rules. */
  lemma {:induction false} RenamedGood<T>(p: Ctx<T>, l: Tree<T>, n: T, n': T, red: bool, up: Ctx<T>, h: nat)
    requires CtxGood(Compose(p, InR(l, n, red, up)), h)
    ensures CtxGood(Compose(p, InR(l, n', red, up)), h)
    ensures RedAbove(Compose(p, InR(l, n, red, up))) == RedAbove(Compose(p, InR(l, n', red, up)))
  {
    match p
    case Top =>
    case InL(q, _, col, _) => RenamedGood(q, l, n, n', red, up, if col then h else h + 1);
    case InR(_, _, col, q) => RenamedGood(q, l, n, n', red, up, if col then h else h + 1);
  }

  /** The red-black rules of a whole tree: the root is black. */
  ghost predicate RedBlack<T>(t: Tree<T>) {
    !Red(t) && exists h: nat :: Good(t, h)
  }

  lemma {:induction false} PlugIsRedBlack<T>(c: Ctx<T>, t: Tree<T>, h: nat)
    requires CtxGood(c, h) && Good(t, h) && (Red(t) ==> !RedAbove(c))
    ensures RedBlack(Plug(c, t))
  {
    match c
    case Top =>
    case InL(up, n, red, r) => PlugIsRedBlack(up, Node(t, n, red, r), if red then h else h + 1);
    case InR(l, n, red, up) => PlugIsRedBlack(up, Node(l, n, red, t), if red then h else h + 1);
  }

  /** Any node of a red-black tree splits it into a good context and a good subtree. */
  lemma {:induction false} SplitIsGood<T>(c: Ctx<T>, t: Tree<T>) returns (h: nat)
    requires RedBlack(Plug(c, t))
    ensures CtxGood(c, h) && Good(t, h) && (Red(t) ==> !RedAbove(c))
  {
    match c {
      case Top => h :| Good(t, h);
      case InL(up, n, red, r) =>
        var k := SplitIsGood(up, Node(t, n, red, r));
        h := if red then k else k - 1;
      case InR(l, n, red, up) =>
        var k := SplitIsGood(up, Node(l, n, red, t));
        h := if red then k else k - 1;
    }
  }

  // Height

  function Height<T>(t: Tree<T>): nat {
    match t
    case Nil => 0
    case Node(l, _, _, r) => 1 + if Height(l) > Height(r) then Height(l) else Height(r)
  }

  function Pow2(n: nat): nat {
    if n == 0 then 1 else 2 * Pow2(n - 1)
  }

  lemma {:induction false} PowersOfTwo(m: nat, n: nat)
    ensures Pow2(0) == 1 && Pow2(1) == 2 && Pow2(m + n) == Pow2(m) * Pow2(n)
  {
    if m > 0 {
      PowersOfTwo(m - 1, n);
      Doubles(Pow2(m - 1), Pow2(n));
    }
  }

  lemma Doubles(a: nat, b: nat)
    ensures 2 * (a * b) == (2 * a) * b
  {
  }

  /** Where a way down from the root leads: right for true, left for false. */
  function Down<T>(t: Tree<T>, way: seq<bool>): Tree<T>
    decreases |way|
  {
    if way == [] || t.Nil? then t else Down(if way[0] then t.r else t.l, way[1..])
  }

  /** No way down has more nodes than the height, and one has as many. */
  lemma {:induction false} HeightIsLongest<T>(t: Tree<T>, way: seq<bool>)
    ensures |way| >= Height(t) ==> Down(t, way).Nil?
    decreases t
  {
    if way != [] && t.Node? { HeightIsLongest(if way[0] then t.r else t.l, way[1..]); }
  }

  lemma {:induction false} LongestWay<T>(t: Tree<T>) returns (way: seq<bool>)
    requires t.Node?
    ensures |way| == Height(t) - 1 && Down(t, way).Node?
  {
    if t.l.Nil? && t.r.Nil? {
      way := [];
    } else if Height(t.l) > Height(t.r) {
      var rest := LongestWay(t.l);
      way := [false] + rest;
      assert way[1..] == rest;
    } else {
      var rest := LongestWay(t.r);
      way := [true] + rest;
      assert way[1..] == rest;
    }
  }

  lemma {:induction false} HeightOfGood<T>(t: Tree<T>, h: nat)
    requires Good(t, h)
    ensures Height(t) <= 2 * h + if Red(t) then 1 else 0
    ensures Pow2(h) <= |InOrder(t)| + 1
  {
    match t
    case Nil =>
    case Node(l, _, red, r) =>
      HeightOfGood(l, if red then h else h - 1);
      HeightOfGood(r, if red then h else h - 1);
  }

  lemma {:induction false} Pow2Monotone(m: nat, n: nat)
    requires m <= n
    ensures Pow2(m) <= Pow2(n)
  {
    if m < n { Pow2Monotone(m, n - 1); }
  }

  /** The height is at most twice the base-2 logarithm of the number of nodes plus one. */
  lemma HeightIsLogarithmic<T>(t: Tree<T>)
    requires RedBlack(t)
    ensures Pow2((Height(t) + 1) / 2) <= |InOrder(t)| + 1
  {
    var h: nat :| Good(t, h);
    HeightOfGood(t, h);
    Pow2Monotone((Height(t) + 1) / 2, h);
  }

  /** So every node is few steps away from the root. */
  lemma WaysAreShort<T>(t: Tree<T>, way: seq<bool>)
    requires RedBlack(t) && Down(t, way).Node?
    ensures Pow2((|way| + 2) / 2) <= |InOrder(t)| + 1
  {
    HeightIsLogarithmic(t);
    HeightIsLongest(t, way);
    Pow2Monotone((|way| + 2) / 2, (Height(t) + 1) / 2);
  }
}
