/**
 The red-black tree of `opr_rbtree`: a head object and nodes linked in place.
 */
module RbTrees {
  import Basics
  import opened RbShape
  import opened RbBalance
  import opened RbRemove

  ghost function RotL(t: Tree): Tree
    requires t.Fork? && t.right.Fork?
  {
    Fork(Fork(t.left, t.node, t.red, t.right.left), t.right.node, t.right.red, t.right.right)
  }

  ghost function RotR(t: Tree): Tree
    requires t.Fork? && t.left.Fork?
  {
    Fork(t.left.left, t.left.node, t.left.red, Fork(t.left.right, t.node, t.red, t.right))
  }

  lemma {:induction false} RotNodes(t: Tree, z: Path)
    requires t.Fork?
    ensures t.right.Fork? ==> Nodes(Plug(RotL(t), z)) == Nodes(Plug(t, z))
    ensures t.left.Fork? ==> Nodes(Plug(RotR(t), z)) == Nodes(Plug(t, z))
  {
    if t.right.Fork? {
      assert Nodes(RotL(t)) == Nodes(t) by {
        Shift(Nodes(t.left), [t.node], Nodes(t.right.left), [t.right.node], Nodes(t.right.right));
      }
      PlugSame(RotL(t), t, z);
    }
    if t.left.Fork? {
      assert Nodes(RotR(t)) == Nodes(t) by {
        Shift(Nodes(t.left.left), [t.left.node], Nodes(t.left.right), [t.node], Nodes(t.right));
      }
      PlugSame(RotR(t), t, z);
    }
  }

  lemma {:induction false} AtDom(dom: set<Node>, root: Node?, t: Tree, z: Path)
    requires At(Snap(dom), root, t, z)
    ensures El(t) <= dom && PathEl(z) <= dom
  {
    RepDom(Snap(dom), t, Up(z));
    PathDom(Snap(dom), z, Ref(t), root, null);
  }

  lemma {:induction false} RepDom(m: Store, t: Tree, p: Node?)
    requires Rep(m, t, p)
    ensures El(t) <= m.Keys
  {
    if t.Fork? { RepDom(m, t.left, t.node); RepDom(m, t.right, t.node); }
  }

  lemma {:induction false} PathDom(m: Store, z: Path, child: Node?, top: Node?, p: Node?)
    requires RepPath(m, z, child, top, p)
    ensures PathEl(z) <= m.Keys
  {
    if z.Step? { RepDom(m, z.sib, z.node); PathDom(m, z.up, z.node, top, p); }
  }

  /** Painting the root of the focus. */
  lemma {:induction false} PaintAt(m: Store, m': Store, root: Node?, t: Tree, z: Path, c: bool)
    requires At(m, root, t, z) && t.Fork?
    requires Same(m, m', t.node, null, null, null)
    requires t.node in m ==> t.node in m' && m'[t.node] == m[t.node].(red := c)
    ensures At(m', root, Paint(t, c), z)
  {
    assert Rep(m', t.left, t.node) by { SameFrame(m, m', t.left, t.node, t.node, null, null, null); }
    assert Rep(m', t.right, t.node) by { SameFrame(m, m', t.right, t.node, t.node, null, null, null); }
    assert RepPath(m', z, t.node, root, null) by { PathFrame(m, m', z, t.node, root, null); }
  }

  /** Filling an empty place with a red leaf. */
  lemma {:induction false} LinkAt(m: Store, m': Store, root: Node?, root': Node?, node: Node, z: Path)
    requires At(m, root, Leaf, z) && node !in PathEl(z)
    requires Same(m, m', node, Up(z), null, null)
    requires node in m' && m'[node] == Cell(null, null, Up(z), true)
    requires z.Step? && z.node in m ==>
      z.node in m' && m'[z.node] == (if z.isLeft then m[z.node].(left := node) else m[z.node].(right := node))
    requires root' == if z.Top? then node else root
    ensures At(m', root', Fork(Leaf, node, true, Leaf), z)
  {
    var leaf := Fork(Leaf, node, true, Leaf);
    assert El(leaf) == {node} && Uniq(leaf) && Rep(m', leaf, Up(z));
    assert RepPath(m', z, node, root', null) by { PathRechild(m, m', z, null, node, root, root'); }
  }

  lemma {:induction false} PlugLeaf(node: Node, z: Path)
    ensures Nodes(Plug(Fork(Leaf, node, true, Leaf), z)) == Before(z) + [node] + After(z)
  {
    PlugNodes(Fork(Leaf, node, true, Leaf), z);
    assert Nodes(Fork(Leaf, node, true, Leaf)) == [node];
  }

  // ----- order -----

  /** The comparison function, on the keys of two nodes. */
  function Compare(a: int, b: int): int {
    if a < b then -1 else if a == b then 0 else 1
  }

  ghost function Keys(dom: set<Node>): map<Node, int>
    reads dom
  {
    map n | n in dom :: n.key
  }

  /** `s'` is `s` with `n` put in at one place. */
  ghost predicate Gains(s: seq<Node>, s': seq<Node>, n: Node) {
    exists i :: 0 <= i <= |s| && s' == s[..i] + [n] + s[i..]
  }

  /** `s'` is `s` with `n` taken out at one place. */
  ghost predicate Loses(s: seq<Node>, s': seq<Node>, n: Node) {
    exists i :: 0 <= i < |s| && s[i] == n && s' == s[..i] + s[i + 1..]
  }

  lemma {:induction false} GainsMiddle(a: seq<Node>, n: Node, b: seq<Node>)
    ensures Gains(a + b, a + [n] + b, n)
  {
    var s := a + b;
    assert s[..|a|] == a && s[|a|..] == b;
  }

  lemma {:induction false} LosesMiddle(a: seq<Node>, n: Node, b: seq<Node>)
    ensures Loses(a + [n] + b, a + b, n)
  {
    var s := a + [n] + b;
    assert s[|a|] == n && s[..|a|] == a && s[|a| + 1..] == b;
  }

  lemma {:induction false} KeysGrow(k: map<Node, int>, node: Node)
    requires node !in k && forall n :: n in k ==> n.key == k[n]
    ensures Keys(k.Keys + {node}) == k[node := node.key]
  {
  }

  ghost predicate Sorted(k: map<Node, int>, s: seq<Node>) {
    && SetOf(s) <= k.Keys
    && (forall i, j :: 0 <= i < j < |s| ==> k[s[i]] < k[s[j]])
  }

  ghost predicate AllBelow(k: map<Node, int>, s: seq<Node>, key: int) {
    SetOf(s) <= k.Keys && forall i :: 0 <= i < |s| ==> k[s[i]] < key
  }

  ghost predicate AllAbove(k: map<Node, int>, s: seq<Node>, key: int) {
    SetOf(s) <= k.Keys && forall i :: 0 <= i < |s| ==> key < k[s[i]]
  }

  /** The keys on either side of a node in a sorted sequence. */
  lemma {:induction false} Around(k: map<Node, int>, a: seq<Node>, x: Node, b: seq<Node>)
    requires Sorted(k, a + [x] + b)
    ensures x in k && AllBelow(k, a, k[x]) && AllAbove(k, b, k[x])
  {
    var s := a + [x] + b;
    assert s[|a|] == x;
    forall j | 0 <= j < |b|
      ensures b[j] in k && k[x] < k[b[j]]
    {
      assert s[|a| + 1 + j] == b[j];
    }
    forall i | 0 <= i < |a|
      ensures a[i] in k && k[a[i]] < k[x]
    {
      assert s[i] == a[i];
    }
  }

  /** Going down from the focus of a sorted tree. */
  lemma {:induction false} GoDown(k: map<Node, int>, t: Tree, z: Path, key: int)
    requires t.Fork? && Sorted(k, Nodes(Plug(t, z)))
    ensures t.node in k
    ensures key < k[t.node] ==> AllAbove(k, After(Step(z, true, t.node, t.red, t.right)), key)
    ensures k[t.node] < key ==> AllBelow(k, Before(Step(z, false, t.node, t.red, t.left)), key)
  {
    var a, b := Before(z) + Nodes(t.left), Nodes(t.right) + After(z);
    assert a + [t.node] + b == Nodes(Plug(t, z)) by {
      PlugNodes(t, z);
      Regroup(Before(z), Nodes(t.left), [t.node], Nodes(t.right), After(z));
    }
    Around(k, a, t.node, b);
    assert After(Step(z, true, t.node, t.red, t.right)) == [t.node] + b;
    assert Before(Step(z, false, t.node, t.red, t.left)) == a + [t.node];
  }

  lemma {:induction false} StaysSorted(k: map<Node, int>, k': map<Node, int>, a: seq<Node>, node: Node, b: seq<Node>)
    requires Sorted(k, a + b) && node in k' && AllBelow(k, a, k'[node]) && AllAbove(k, b, k'[node])
    requires forall x :: x in k ==> x in k' && k'[x] == k[x]
    ensures Sorted(k', a + [node] + b)
  {
    var s, s' := a + b, a + [node] + b;
    forall i, j | 0 <= i < j < |s'|
      ensures s'[i] in k' && s'[j] in k' && k'[s'[i]] < k'[s'[j]]
    {
      assert i < |a| ==> s'[i] == s[i] == a[i];
      assert i > |a| ==> s'[i] == s[i - 1] == b[i - |a| - 1];
      assert j < |a| ==> s'[j] == s[j] == a[j];
      assert j > |a| ==> s'[j] == s[j - 1] == b[j - |a| - 1];
    }
  }

  lemma {:induction false} SameNodes(a: Tree, b: Tree)
    requires Nodes(a) == Nodes(b)
    ensures El(a) == El(b)
  {
    NodesEl(a);
    NodesEl(b);
  }

  lemma {:induction false} LeafEl(r: Tree, node: Node, z: Path)
    requires Nodes(r) == Before(z) + [node] + After(z)
    ensures El(r) == PathEl(z) + {node}
  {
    var leaf := Fork(Leaf, node, true, Leaf);
    PlugLeaf(node, z);
    SameNodes(r, Plug(leaf, z));
    PlugEl(leaf, z);
    assert El(leaf) == {node};
  }

  /** The subtree at a node of the tree, and the way to it. */
  lemma {:induction false} Locate(m: Store, root: Node?, t: Tree, z: Path, node: Node) returns (s: Tree, z': Path)
    requires At(m, root, t, z) && Placed(t, z) && node in El(t)
    ensures At(m, root, s, z') && Placed(s, z') && s.Fork? && s.node == node && Plug(s, z') == Plug(t, z)
    decreases t
  {
    if t.node == node {
      s, z' := t, z;
    } else if node in El(t.left) {
      MoveDown(m, root, true, t.left, t.node, t.red, t.right, z);
      Descend(true, t.left, t.node, t.red, t.right, z);
      s, z' := Locate(m, root, t.left, Step(z, true, t.node, t.red, t.right), node);
    } else {
      MoveDown(m, root, false, t.right, t.node, t.red, t.left, z);
      Descend(false, t.right, t.node, t.red, t.left, z);
      s, z' := Locate(m, root, t.right, Step(z, false, t.node, t.red, t.left), node);
    }
  }

  /** Taking a node out of a sorted tree. */
  lemma {:induction false} DropSorted(k: map<Node, int>, k': map<Node, int>, a: seq<Node>, node: Node, b: seq<Node>)
    requires Sorted(k, a + [node] + b)
    requires k'.Keys == k.Keys - {node} && forall x :: x in k' ==> k'[x] == k[x]
    ensures node !in a + b && Sorted(k', a + b)
  {
    var s, s' := a + [node] + b, a + b;
    assert s[|a|] == node;
    assert forall i :: 0 <= i < |s'| ==> s'[i] == s[if i < |a| then i else i + 1];
    assert forall i :: 0 <= i < |s'| ==> s'[i] in SetOf(s) && s'[i] != node;
  }

  lemma {:induction false} DropEl(a: seq<Node>, node: Node, b: seq<Node>, t: Tree, r: Tree)
    requires Nodes(t) == a + [node] + b && Nodes(r) == a + b && node !in a + b
    ensures El(r) == El(t) - {node}
  {
    NodesEl(t);
    NodesEl(r);
    SetOfJoin(a, [node], b);
    SetOfJoin(a, [], b);
    assert a + [] + b == a + b && SetOf([node]) == {node} && SetOf([]) == {};
    assert node !in SetOf(a + b);
  }

  /** What the pointers look like before the successor `n` is moved to the place of `x`. */
  ghost predicate Ready(dom: set<Node>, root: Node?, x: Node, n: Node, l: Tree, cx: bool, cn: bool, c: Tree, w: Path, z: Path, top: Node)
    reads dom
  {
    && x in dom && n in dom && top in dom && l.Fork? && l.node in dom
    && (c.Fork? ==> c.node in dom) && (w.Step? ==> w.node in dom) && (z.Step? ==> z.node in dom)
    && x.left == l.node && x.right == top && x.parent == Up(z) && x.red == cx
    && n.left == null && n.right == Ref(c) && n.parent == (if w.Top? then x else w.node) && n.red == cn
    && x != n && l.node != x && l.node != n && l.node != top && top != x && (w.Step? <==> top != n)
    && (w.Step? ==> w.node != x && w.node != n && w.node != l.node && w.node.left == n)
    && (c.Fork? ==> c.node != x && c.node != n && c.node != l.node && c.node != top && c.node != Up(w) && c.node.parent == n)
    && (z.Step? ==> z.node != x && z.node != n && z.node != l.node && z.node != top && z.node != Up(w) && z.node != Ref(c))
    && (z.Step? ==> (z.isLeft <==> z.node.left == x))
    && (z.Top? ==> root == x)
  }

  lemma {:induction false} SpliceReady(dom: set<Node>, root: Node?, x: Node, n: Node, l: Tree, cx: bool, cn: bool, c: Tree,
                                       w: Path, z: Path, top: Node)
    requires AllLeft(w) && l.Fork? && top == Outer(w, n)
    requires At(Snap(dom), root, Fork(Leaf, n, cn, c), Cat(w, Step(z, false, x, cx, l)))
    ensures Ready(dom, root, x, n, l, cx, cn, c, w, z, top)
  {
    var base := Step(z, false, x, cx, l);
    AtDom(dom, root, Fork(Leaf, n, cn, c), Cat(w, base));
    CatEl(w, base);
    SuccessorParts(Snap(dom), root, l, x, cx, n, cn, c, w, z);
    Untouched(l, x, top, n, c, w, z);
    if z.Step? { RefIn(z.sib); }
  }

  // ----- neighbours -----

  function Elem(s: seq<Node>, i: int): Node? {
    if 0 <= i < |s| then s[i] else null
  }

  /** `r` follows `x` in `s`, or is null if `x` is last. */
  ghost predicate IsNext(s: seq<Node>, x: Node, r: Node?) {
    forall i :: 0 <= i < |s| && s[i] == x ==> r == Elem(s, i + 1)
  }

  /** `r` precedes `x` in `s`, or is null if `x` is first. */
  ghost predicate IsPrev(s: seq<Node>, x: Node, r: Node?) {
    forall i :: 0 <= i < |s| && s[i] == x ==> r == Elem(s, i - 1)
  }

  lemma {:induction false} Between(s: seq<Node>, a: seq<Node>, x: Node, y: Node, b: seq<Node>)
    requires Basics.NoDup(s) && s == a + [x] + [y] + b
    ensures IsNext(s, x, y) && IsPrev(s, y, x)
  {
    assert s[|a|] == x && s[|a| + 1] == y;
  }

  lemma {:induction false} AtEnd(s: seq<Node>, a: seq<Node>, x: Node)
    requires Basics.NoDup(s) && s == a + [x]
    ensures IsNext(s, x, null)
  {
    assert s[|a|] == x;
  }

  lemma {:induction false} AtStart(s: seq<Node>, x: Node, b: seq<Node>)
    requires Basics.NoDup(s) && s == [x] + b
    ensures IsPrev(s, x, null)
  {
    assert s[0] == x;
  }

  lemma {:induction false} LeftmostOrder(x: Node, cx: bool, c: Tree, w: Path, base: Path)
    requires AllLeft(w)
    ensures Nodes(Plug(Fork(Leaf, x, cx, c), Cat(w, base))) == Before(base) + [x] + (Nodes(c) + (After(w) + After(base)))
  {
    CatOrder(w, base);
    PlugNodes(Fork(Leaf, x, cx, c), Cat(w, base));
    assert Nodes(Fork(Leaf, x, cx, c)) == [x] + Nodes(c);
    Assoc(Before(base), [x], Nodes(c), After(w) + After(base));
  }

  lemma {:induction false} RightmostOrder(x: Node, cx: bool, c: Tree, w: Path, base: Path)
    requires AllRight(w)
    ensures Nodes(Plug(Fork(c, x, cx, Leaf), Cat(w, base))) == (Before(base) + Before(w) + Nodes(c)) + [x] + After(base)
  {
    CatOrderRight(w, base);
    PlugNodes(Fork(c, x, cx, Leaf), Cat(w, base));
    assert Nodes(Fork(c, x, cx, Leaf)) == Nodes(c) + [x];
    Assoc(Before(base) + Before(w), Nodes(c), [x], After(base));
  }

  lemma {:induction false} LeftEdge(t: Tree, z: Path)
    requires t.Fork? && t.left.Leaf?
    ensures Nodes(t) + After(z) == [t.node] + (Nodes(t.right) + After(z))
  {
    assert Nodes(t) == [t.node] + Nodes(t.right);
  }

  lemma {:induction false} RightEdge(t: Tree, z: Path)
    requires t.Fork? && t.right.Leaf?
    ensures Before(z) + Nodes(t) == (Before(z) + Nodes(t.left)) + [t.node]
  {
    assert Nodes(t) == Nodes(t.left) + [t.node];
  }

  /** The leftmost node of the right subtree. */
  lemma {:induction false} NextBelow(s: seq<Node>, r: Node, cr: bool, c: Tree, w: Path, base: Path)
    requires AllLeft(w) && base.Step? && !base.isLeft
    requires Basics.NoDup(s) && s == Nodes(Plug(Fork(Leaf, r, cr, c), Cat(w, base)))
    ensures IsNext(s, base.node, r)
  {
    LeftmostOrder(r, cr, c, w, base);
    Between(s, Before(base.up) + Nodes(base.sib), base.node, r, Nodes(c) + (After(w) + After(base)));
  }

  /** The rightmost node of the left subtree. */
  lemma {:induction false} PrevBelow(s: seq<Node>, r: Node, cr: bool, c: Tree, w: Path, base: Path)
    requires AllRight(w) && base.Step? && base.isLeft
    requires Basics.NoDup(s) && s == Nodes(Plug(Fork(c, r, cr, Leaf), Cat(w, base)))
    ensures IsPrev(s, base.node, r)
  {
    RightmostOrder(r, cr, c, w, base);
    var a, b := Before(base) + Before(w) + Nodes(c), Nodes(base.sib) + After(base.up);
    assert a + [r] + ([base.node] + Nodes(base.sib) + After(base.up)) == a + [r] + [base.node] + b;
    Between(s, a, r, base.node, b);
  }

  /** Where a climb from the right ends. */
  lemma {:induction false} NextAbove(s: seq<Node>, a: seq<Node>, x: Node, t: Tree, z: Path)
    requires Basics.NoDup(s) && s == Nodes(Plug(t, z)) && Before(z) + Nodes(t) == a + [x] && (z.Step? ==> z.isLeft)
    ensures IsNext(s, x, Up(z))
  {
    PlugNodes(t, z);
    if z.Top? {
      assert s == a + [x];
      AtEnd(s, a, x);
    } else {
      var rest := Nodes(z.sib) + After(z.up);
      assert s == a + [x] + ([z.node] + Nodes(z.sib) + After(z.up));
      assert s == a + [x] + [z.node] + rest;
      Between(s, a, x, z.node, rest);
    }
  }

  /** Where a climb from the left ends. */
  lemma {:induction false} PrevAbove(s: seq<Node>, x: Node, a: seq<Node>, t: Tree, z: Path)
    requires Basics.NoDup(s) && s == Nodes(Plug(t, z)) && Nodes(t) + After(z) == [x] + a && (z.Step? ==> !z.isLeft)
    ensures IsPrev(s, x, Up(z))
  {
    PlugNodes(t, z);
    assert s == Before(z) + ([x] + a);
    if z.Top? {
      assert s == [x] + a;
      AtStart(s, x, a);
    } else {
      var rest := Before(z.up) + Nodes(z.sib);
      assert s == rest + [z.node] + [x] + a;
      Between(s, rest, z.node, x, a);
    }
  }

  /** `m` holds the red-black search tree `t` below `root`. */
  ghost predicate Sound(m: Store, k: map<Node, int>, root: Node?, t: Tree) {
    // one fact: the verifier does not split it
    (At(m, root, t, Top) && RedBlack(t) && !IsRed(t) && Sorted(k, Nodes(t))) == true
  }

  const GEN_MOD: nat := 0x1_0000_0000_0000_0000
  const NODE_GEN_MOD: nat := 0x1_0000_0000

  function Some(n: Node?): set<Node> {
    if n == null then {} else {n}
  }

  predicate Apart(x: Node, y: Node, b: Node?, p: Node?) {
    x != y && b != x && b != y && p != x && p != y && (b != null ==> p != b)
  }

  /** `x` with `y` below it, away from `a` if `d`, hangs at `z`, ready to be rotated. */
  ghost predicate Poised(m: Store, root: Node?, d: bool, a: Node?, x: Node, cx: bool, b: Node?, y: Node, cy: bool, c: Node?, z: Path) {
    ( && x in m && y in m && Some(b) <= m.Keys && Some(Up(z)) <= m.Keys && Apart(x, y, b, Up(z))
      && m[x] == CellOf(d, a, y, Up(z), cx) && m[y] == CellOf(d, b, c, x, cy)
      && (z.Step? ==> z.node in m && (z.isLeft <==> m[z.node].left == x) && (!z.isLeft <==> m[z.node].right == x))
      && (z.Top? ==> root == x)) == true  // one fact: the verifier does not split it
  }

  lemma {:induction false} RotateFacts(m: Store, root: Node?, d: bool, a: Tree, x: Node, cx: bool, b: Tree, y: Node,
                                       cy: bool, c: Tree, z: Path)
    requires At(m, root, Mk(d, a, x, cx, Mk(d, b, y, cy, c)), z)
    ensures Poised(m, root, d, Ref(a), x, cx, Ref(b), y, cy, Ref(c), z)
  {
    var t2 := Mk(d, b, y, cy, c);
    RepDom(m, Mk(d, a, x, cx, t2), Up(z));
    PathDom(m, z, x, root, null);
    MkFacts(m, d, b, y, cy, c, x);
    MkFacts(m, d, a, x, cx, t2, Up(z));
    RefIn(b);
    if z.Step? { RefIn(z.sib); }
  }

  /** `x`, with no child but perhaps `c`, hangs at `z`, ready to be taken out. */
  ghost predicate Loose(m: Store, root: Node?, d: bool, c: Node?, x: Node, cx: bool, z: Path) {
    ( && x in m && Some(c) <= m.Keys && Some(Up(z)) <= m.Keys && c != x && Up(z) != x && (c != null ==> Up(z) != c)
      && m[x] == CellOf(d, c, null, Up(z), cx)
      && (z.Step? ==> z.node in m && (z.isLeft <==> m[z.node].left == x) && (!z.isLeft <==> m[z.node].right == x))
      && (z.Top? ==> root == x)) == true  // one fact: the verifier does not split it
  }

  lemma {:induction false} UnlinkedRest(m: Store, m': Store, rest: Store, root: Node?, root': Node?, d: bool, c: Node?, x: Node, cx: bool, z: Path)
    requires Loose(m, root, d, c, x, cx, z) && Unlinked(m, m', root, root', c, x, z) && rest == m' - {x}
    ensures Unlinked(m, rest, root, root', c, x, z)
  {
  }

  lemma {:induction false} UnlinkFacts(m: Store, root: Node?, d: bool, c: Tree, x: Node, cx: bool, z: Path)
    requires At(m, root, Mk(d, c, x, cx, Leaf), z)
    ensures Loose(m, root, d, Ref(c), x, cx, z)
  {
    RepDom(m, Mk(d, c, x, cx, Leaf), Up(z));
    PathDom(m, z, x, root, null);
    MkFacts(m, d, c, x, cx, Leaf, Up(z));
    RefIn(c);
    if z.Step? { RefIn(z.sib); }
  }

  /** The fields of the focus and of the node above it, read off the tree. */
  lemma {:induction false} Look(dom: set<Node>, root: Node?, t: Tree, z: Path)
    requires At(Snap(dom), root, t, z)
    ensures t.Fork? ==> t.node in dom && t.node.parent == Up(z) && t.node.red == t.red
    ensures t.Fork? ==> t.node.left == Ref(t.left) && t.node.right == Ref(t.right)
    ensures z.Step? ==> z.node in dom && z.node.parent == Up(z.up) && z.node.red == z.red
    ensures z.Step? ==> (if z.isLeft then z.node.left else z.node.right) == Ref(t)
    ensures z.Step? ==> (if z.isLeft then z.node.right else z.node.left) == Ref(z.sib)
    ensures z.Step? && z.sib.Fork? ==> z.sib.node in dom && z.sib.node.red == z.sib.red && z.sib.node != Ref(t)
    ensures z.Step? && z.sib.Fork? ==> z.sib.node.left == Ref(z.sib.left) && z.sib.node.right == Ref(z.sib.right)
    ensures z.Top? ==> root == Ref(t)
    ensures z.Step? ==> root != null && root != Ref(t)
  {
    if z.Step? {
      RefIn(t);
      RefIn(z.sib);
      RootOnPath(Snap(dom), z, Ref(t), root);
    }
  }

  lemma {:induction false} RootOnPath(m: Store, z: Path, child: Node?, root: Node?)
    requires z.Step? && RepPath(m, z, child, root, null)
    ensures root in PathEl(z)
  {
    if z.up.Step? { RootOnPath(m, z.up, z.node, root); }
  }

  class RbTree {
    var root: Node?
    var size: nat
    var gen: nat
    ghost var tree: Tree
    ghost var nodes: set<Node>

    /** The linked nodes, in order. */
    ghost function Contents(): seq<Node>
      reads this`tree, this`nodes
    {
      Nodes(tree)
    }

    /** Links and colours of the linked nodes. */
    ghost function Links(): Store
      reads this`nodes, nodes
    {
      Snap(nodes)
    }

    /** The linked nodes and their keys. */
    ghost function Table(): map<Node, int>
      reads this`nodes, nodes
    {
      Keys(nodes)
    }

    ghost predicate Valid()
      reads this, nodes
    {
      && nodes == El(tree) && size == |Nodes(tree)| && gen < GEN_MOD
      && Sound(Snap(nodes), Keys(nodes), root, tree)
      && forall n :: n in nodes ==> n.gen != 0
    }

    constructor ()
      ensures Valid() && Contents() == []
    {
      root, size, gen, tree, nodes := null, 0, 0, Leaf, {};
    }

    /** The linked nodes, in strictly increasing order of their keys. */
    lemma {:induction false} Ordered()
      requires Valid()
      ensures SetOf(Contents()) == nodes
      ensures forall i, j :: 0 <= i < j < |Contents()| ==> Contents()[i].key < Contents()[j].key
    {
      NodesEl(tree);
      ghost var c, k := Contents(), Keys(nodes);
      forall i, j | 0 <= i < j < |c| ensures c[i].key < c[j].key {
        assert c[i] in k && c[j] in k && k[c[i]] < k[c[j]];
      }
    }

    /** Nodes with equal keys are the same node. */
    lemma {:induction false} KeysDiffer(m: Node, n: Node)
      requires Valid() && m in nodes && n in nodes && m.key == n.key
      ensures m == n
    {
      Ordered();
      ghost var c := Contents();
      ghost var i :| 0 <= i < |c| && c[i] == m;
      ghost var j :| 0 <= j < |c| && c[j] == n;
    }

    /** `replacement` stands where `old_` stood below `p`. */
    twostate predicate Replaced(old_: Node, replacement: Node?, p: Node?)
      reads this, Some(p)
    {
      if p == null then root == replacement
      else
        && root == old(root)
        && p.left == (if old(p.left) == old_ then replacement else old(p.left))
        && p.right == (if old(p.left) == old_ then old(p.right) else replacement)
    }

    method UpdateParentPtr(old_: Node, replacement: Node?)
      modifies this`root, Some(old_.parent)`left, Some(old_.parent)`right
      ensures Replaced(old_, replacement, old(old_.parent))
    {
      if old_.parent != null {
        if old_.parent.left == old_ {
          old_.parent.left := replacement;
        } else {
          old_.parent.right := replacement;
        }
      } else {
        root := replacement;
      }
    }

    /** `node` goes down to the right of its left child, which takes its place. */
    method RotateRight(node: Node)
      requires node.left != null
      requires Apart(node, node.left, node.left.right, node.parent)
      modifies this`root, node`left, node`parent, node.left`right, node.left`parent
      modifies Some(node.left.right)`parent, Some(node.parent)`left, Some(node.parent)`right
      ensures node.left == old(node.left.right) && node.parent == old(node.left)
      ensures old(node.left).right == node && old(node.left).parent == old(node.parent)
      ensures old(node.left.right) != null ==> old(node.left.right).parent == node
      ensures Replaced(node, old(node.left), old(node.parent))
    {
      var left := node.left;
      node.left := left.right;
      if left.right != null {
        left.right.parent := node;
      }
      left.right := node;
      left.parent := node.parent;
      UpdateParentPtr(node, left);
      node.parent := left;
    }

    /** `node` goes down to the left of its right child, which takes its place. */
    method RotateLeft(node: Node)
      requires node.right != null
      requires Apart(node, node.right, node.right.left, node.parent)
      modifies this`root, node`right, node`parent, node.right`left, node.right`parent
      modifies Some(node.right.left)`parent, Some(node.parent)`left, Some(node.parent)`right
      ensures node.right == old(node.right.left) && node.parent == old(node.right)
      ensures old(node.right).left == node && old(node.right).parent == old(node.parent)
      ensures old(node.right.left) != null ==> old(node.right.left).parent == node
      ensures Replaced(node, old(node.right), old(node.parent))
    {
      var right := node.right;
      node.right := right.left;
      if right.left != null {
        right.left.parent := node;
      }
      right.left := node;
      right.parent := node.parent;
      UpdateParentPtr(node, right);
      node.parent := right;
    }

    method TurnRight(node: Node, ghost dom: set<Node>, ghost a: Node?, ghost cx: bool, ghost b: Node?, ghost y: Node, ghost cy: bool,
                     ghost c: Node?, ghost z: Path)
      requires Poised(Snap(dom), root, false, a, node, cx, b, y, cy, c, z)
      modifies this`root, dom`left, dom`right, dom`parent
      ensures Turned(old(Snap(dom)), Snap(dom), old(root), root, false, a, node, cx, b, y, cy, c, z)
    {
      RotateRight(node);
    }

    method TurnLeft(node: Node, ghost dom: set<Node>, ghost a: Node?, ghost cx: bool, ghost b: Node?, ghost y: Node, ghost cy: bool,
                    ghost c: Node?, ghost z: Path)
      requires Poised(Snap(dom), root, true, a, node, cx, b, y, cy, c, z)
      modifies this`root, dom`left, dom`right, dom`parent
      ensures Turned(old(Snap(dom)), Snap(dom), old(root), root, true, a, node, cx, b, y, cy, c, z)
    {
      RotateLeft(node);
    }

    method RotateRightAt(node: Node, ghost dom: set<Node>, ghost t: Tree, ghost z: Path)
      requires At(Snap(dom), root, t, z)
      requires t.Fork? && t.left.Fork? && node == t.node
      modifies this`root, dom`left, dom`right, dom`parent
      ensures At(Snap(dom), root, RotR(t), z) && Nodes(Plug(RotR(t), z)) == Nodes(Plug(t, z))
    {
      ghost var m, r, l := Snap(dom), root, t.left;
      RotateFacts(m, root, false, t.right, node, t.red, l.right, l.node, l.red, l.left, z);
      TurnRight(node, dom, Ref(t.right), t.red, Ref(l.right), l.node, l.red, Ref(l.left), z);
      RotateAt(m, Snap(dom), r, root, false, t.right, node, t.red, l.right, l.node, l.red, l.left, z);
      RotNodes(t, z);
    }

    method RotateLeftAt(node: Node, ghost dom: set<Node>, ghost t: Tree, ghost z: Path)
      requires At(Snap(dom), root, t, z)
      requires t.Fork? && t.right.Fork? && node == t.node
      modifies this`root, dom`left, dom`right, dom`parent
      ensures At(Snap(dom), root, RotL(t), z) && Nodes(Plug(RotL(t), z)) == Nodes(Plug(t, z))
    {
      ghost var m, r, l := Snap(dom), root, t.right;
      RotateFacts(m, root, true, t.left, node, t.red, l.left, l.node, l.red, l.right, z);
      TurnLeft(node, dom, Ref(t.left), t.red, Ref(l.left), l.node, l.red, Ref(l.right), z);
      RotateAt(m, Snap(dom), r, root, true, t.left, node, t.red, l.left, l.node, l.red, l.right, z);
      RotNodes(t, z);
    }

    method SetRed(node: Node, c: bool, ghost dom: set<Node>, ghost t: Tree, ghost z: Path)
      requires At(Snap(dom), root, t, z)
      requires t.Fork? && node == t.node
      modifies dom`red
      ensures At(Snap(dom), root, Paint(t, c), z) && Nodes(Plug(Paint(t, c), z)) == Nodes(Plug(t, z))
    {
      PlugSame(Paint(t, c), t, z);
      AtDom(dom, root, t, z);
      ghost var m := Snap(dom);
      node.red := c;
      PaintAt(m, Snap(dom), root, t, z, c);
    }

    /** The grandparent hands its blackness to its two red children. */
    method PushDown(uncle: Node, parent: Node, gramps: Node, ghost dom: set<Node>, ghost t: Tree, ghost z: Path)
      returns (ghost t': Tree)
      requires At(Snap(dom), root, t, z) && Inserting(t, z)
      requires RedUp(z) && z.up.Step? && IsRed(z.up.sib)
      requires z.node == parent && z.up.node == gramps && z.up.sib.node == uncle
      modifies dom`red
      ensures t'.Fork? && t'.node == gramps && Depth(z.up.up) < Depth(z)
      ensures At(Snap(dom), root, t', z.up.up) && Inserting(t', z.up.up) && Nodes(Plug(t', z.up.up)) == Nodes(Plug(t, z))
    {
      ghost var g, d, u := z.up, z.up.isLeft, z.up.sib;
      ghost var p := Mk(z.isLeft, t, parent, z.red, z.sib);
      MoveUp(Snap(dom), root, t, z);
      MoveUp(Snap(dom), root, p, g);
      MoveDown(Snap(dom), root, !d, u, gramps, g.red, p, g.up);
      SetRed(uncle, false, dom, u, Step(g.up, !d, gramps, g.red, p));
      MoveUp(Snap(dom), root, Paint(u, false), Step(g.up, !d, gramps, g.red, p));
      MoveDown(Snap(dom), root, d, p, gramps, g.red, Paint(u, false), g.up);
      SetRed(parent, false, dom, p, g.(sib := Paint(u, false)));
      MoveUp(Snap(dom), root, Paint(p, false), g.(sib := Paint(u, false)));
      t' := Mk(d, Paint(p, false), gramps, g.red, Paint(u, false));
      SetRed(gramps, true, dom, t', g.up);
      t' := Paint(t', true);
      RedUncle(t, z);
    }

    /** Parent and grandparent swap colours and the parent is rotated above the grandparent, to the right. */
    method LiftRight(parent: Node, gramps: Node, ghost dom: set<Node>, ghost t: Tree, ghost z: Path) returns (ghost z': Path)
      requires At(Snap(dom), root, t, z) && Inserting(t, z) && RedUp(z)
      requires z.Step? && z.up.Step? && !IsRed(z.up.sib) && z.isLeft && z.up.isLeft
      requires z.node == parent && z.up.node == gramps
      modifies this`root, dom`left, dom`right, dom`parent, dom`red
      ensures At(Snap(dom), root, t, z') && Inserting(t, z') && Nodes(Plug(t, z')) == Nodes(Plug(t, z))
      ensures !RedUp(z') && Depth(z') < Depth(z)
    {
      ghost var g := z.up;
      ghost var p := Mk(true, t, parent, z.red, z.sib);
      MoveUp(Snap(dom), root, t, z);
      SetRed(parent, false, dom, p, g);
      p := Paint(p, false);
      MoveUp(Snap(dom), root, p, g);
      ghost var w := Mk(true, p, gramps, g.red, g.sib);
      SetRed(gramps, true, dom, w, g.up);
      w := Paint(w, true);
      RotateRightAt(gramps, dom, w, g.up);
      MoveDown(Snap(dom), root, true, t, parent, false, Mk(true, z.sib, gramps, true, g.sib), g.up);
      z' := Step(g.up, true, parent, false, Mk(true, z.sib, gramps, true, g.sib));
      OuterChild(t, z);
    }

    method LiftLeft(parent: Node, gramps: Node, ghost dom: set<Node>, ghost t: Tree, ghost z: Path) returns (ghost z': Path)
      requires At(Snap(dom), root, t, z) && Inserting(t, z) && RedUp(z)
      requires z.Step? && z.up.Step? && !IsRed(z.up.sib) && !z.isLeft && !z.up.isLeft
      requires z.node == parent && z.up.node == gramps
      modifies this`root, dom`left, dom`right, dom`parent, dom`red
      ensures At(Snap(dom), root, t, z') && Inserting(t, z') && Nodes(Plug(t, z')) == Nodes(Plug(t, z))
      ensures !RedUp(z') && Depth(z') < Depth(z)
    {
      ghost var g := z.up;
      ghost var p := Mk(false, t, parent, z.red, z.sib);
      MoveUp(Snap(dom), root, t, z);
      SetRed(parent, false, dom, p, g);
      p := Paint(p, false);
      MoveUp(Snap(dom), root, p, g);
      ghost var w := Mk(false, p, gramps, g.red, g.sib);
      SetRed(gramps, true, dom, w, g.up);
      w := Paint(w, true);
      RotateLeftAt(gramps, dom, w, g.up);
      MoveDown(Snap(dom), root, false, t, parent, false, Mk(false, z.sib, gramps, true, g.sib), g.up);
      z' := Step(g.up, false, parent, false, Mk(false, z.sib, gramps, true, g.sib));
      OuterChild(t, z);
    }

    /** One turn of the insertion loop when the parent is the left child of the grandparent. */
    method InsertStepLeft(node: Node, parent: Node, gramps: Node, ghost dom: set<Node>, ghost t: Tree, ghost z: Path)
      returns (node': Node, ghost t': Tree, ghost z': Path)
      requires At(Snap(dom), root, t, z) && Inserting(t, z) && RedUp(z)
      requires z.up.Step? && z.up.isLeft
      requires t.node == node && z.node == parent && z.up.node == gramps
      modifies this`root, dom`left, dom`right, dom`parent, dom`red
      ensures t'.Fork? && t'.node == node' && Depth(z') < Depth(z)
      ensures At(Snap(dom), root, t', z') && Inserting(t', z') && Nodes(Plug(t', z')) == Nodes(Plug(t, z))
    {
      ghost var g, p := z.up, Mk(z.isLeft, t, parent, z.red, z.sib);
      Look(dom, root, t, z);
      MoveUp(Snap(dom), root, t, z);
      Look(dom, root, p, g);
      var uncle := gramps.right;
      if uncle != null && uncle.red {
        t' := PushDown(uncle, parent, gramps, dom, t, z);
        node', z' := gramps, g.up;
      } else if parent.right == node {
        RotateLeftAt(parent, dom, p, g);
        MoveDown(Snap(dom), root, true, Mk(true, z.sib, parent, true, t.left), node, true, t.right, g);
        InnerChild(t, z, t.left, t.right);
        t', z' := Mk(true, z.sib, parent, true, t.left), Step(g, true, node, true, t.right);
        z' := LiftRight(node, gramps, dom, t', z');
        node' := parent;
      } else {
        t', node' := t, node;
        z' := LiftRight(parent, gramps, dom, t, z);
      }
    }

    /** One turn of the insertion loop when the parent is the right child of the grandparent. */
    method InsertStepRight(node: Node, parent: Node, gramps: Node, ghost dom: set<Node>, ghost t: Tree, ghost z: Path)
      returns (node': Node, ghost t': Tree, ghost z': Path)
      requires At(Snap(dom), root, t, z) && Inserting(t, z) && RedUp(z)
      requires z.up.Step? && !z.up.isLeft
      requires t.node == node && z.node == parent && z.up.node == gramps
      modifies this`root, dom`left, dom`right, dom`parent, dom`red
      ensures t'.Fork? && t'.node == node' && Depth(z') < Depth(z)
      ensures At(Snap(dom), root, t', z') && Inserting(t', z') && Nodes(Plug(t', z')) == Nodes(Plug(t, z))
    {
      ghost var g, p := z.up, Mk(z.isLeft, t, parent, z.red, z.sib);
      Look(dom, root, t, z);
      MoveUp(Snap(dom), root, t, z);
      Look(dom, root, p, g);
      var uncle := gramps.left;
      if uncle != null && uncle.red {
        t' := PushDown(uncle, parent, gramps, dom, t, z);
        node', z' := gramps, g.up;
      } else if parent.left == node {
        RotateRightAt(parent, dom, p, g);
        MoveDown(Snap(dom), root, false, Mk(false, z.sib, parent, true, t.right), node, true, t.left, g);
        InnerChild(t, z, t.right, t.left);
        t', z' := Mk(false, z.sib, parent, true, t.right), Step(g, false, node, true, t.left);
        z' := LiftLeft(node, gramps, dom, t', z');
        node' := parent;
      } else {
        t', node' := t, node;
        z' := LiftLeft(parent, gramps, dom, t, z);
      }
    }

    method InsertRecolour(start: Node, ghost dom: set<Node>, ghost t0: Tree, ghost z0: Path) returns (ghost r: Tree)
      requires At(Snap(dom), root, t0, z0) && Inserting(t0, z0) && t0.node == start
      modifies this`root, dom`left, dom`right, dom`parent, dom`red
      ensures At(Snap(dom), root, r, Top) && RedBlack(r) && !IsRed(r) && Nodes(r) == Nodes(Plug(t0, z0))
    {
      var node := start;
      ghost var t, z := t0, z0;
      Look(dom, root, t, z);
      while node.parent != null && node.parent.red
        invariant t.Fork? && t.node == node && node.parent == Up(z) && (z.Step? ==> z.node.red == z.red)
        invariant At(Snap(dom), root, t, z)
        invariant Inserting(t, z)
        invariant Nodes(Plug(t, z)) == Nodes(Plug(t0, z0))
        decreases Depth(z)
      {
        GrandparentExists(t, z);
        var parent := node.parent;
        Look(dom, root, t, z);
        MoveUp(Snap(dom), root, t, z);
        Look(dom, root, Mk(z.isLeft, t, parent, z.red, z.sib), z.up);
        var gramps := parent.parent;
        if parent == gramps.left {
          node, t, z := InsertStepLeft(node, parent, gramps, dom, t, z);
        } else {
          node, t, z := InsertStepRight(node, parent, gramps, dom, t, z);
        }
        Look(dom, root, t, z);
      }

      r := Plug(t, z);
      ToRoot(Snap(dom), root, t, z);
      PlugBalance(t, z);
      assert r.Fork? by { PlugFork(t, z); }
      Look(dom, root, r, Top);
      SetRed(root, false, dom, r, Top);
      PaintBalance(r);
      r := Paint(r, false);
    }

    /** The generation for a newly linked node: never zero, whatever the 64-bit counter holds. */
    method NextGen() returns (g: nat)
      requires gen < GEN_MOD
      modifies this`gen
      ensures gen < GEN_MOD && 0 < g < NODE_GEN_MOD && g == gen % NODE_GEN_MOD
    {
      gen := (gen + 1) % GEN_MOD;
      g := gen % NODE_GEN_MOD;
      if g == 0 {
        gen := (gen + 1) % GEN_MOD;
        g := gen % NODE_GEN_MOD;
      }
    }

    method LinkLeaf(parent: Node?, isLeft: bool, node: Node)
      requires gen < GEN_MOD && parent != node
      modifies this`root, this`gen, Some(parent)`left, Some(parent)`right
      modifies node`left, node`right, node`parent, node`red, node`gen
      ensures node.left == null && node.right == null && node.parent == parent && node.red
      ensures gen < GEN_MOD && 0 < node.gen < NODE_GEN_MOD
      ensures if parent == null then root == node else
        root == old(root)
        && parent.left == (if isLeft then node else old(parent.left))
        && parent.right == (if isLeft then old(parent.right) else node)
    {
      node.parent := parent;
      node.left, node.right := null, null;
      node.red := true;
      node.gen := NextGen();
      if parent == null {
        root := node;
      } else if isLeft {
        parent.left := node;
      } else {
        parent.right := node;
      }
    }

    method LinkLeafAt(parent: Node?, isLeft: bool, node: Node, ghost dom: set<Node>, ghost z: Path)
      requires At(Snap(dom), root, Leaf, z) && node !in dom && PathEl(z) == dom
      requires parent == Up(z) && (z.Step? ==> isLeft == z.isLeft) && gen < GEN_MOD
      modifies this`root, this`gen, dom`left, dom`right
      modifies node`left, node`right, node`parent, node`red, node`gen
      ensures At(Snap(dom + {node}), root, Fork(Leaf, node, true, Leaf), z)
      ensures gen < GEN_MOD && 0 < node.gen < NODE_GEN_MOD
    {
      ghost var m, oldRoot := Snap(dom), root;
      Look(dom, root, Leaf, z);
      LinkLeaf(parent, isLeft, node);
      LinkAt(m, Snap(dom + {node}), oldRoot, root, node, z);
    }

    /** Links `node` as a red leaf below `parent`, on the side given, and repairs the tree. */
    method InsertAt(parent: Node?, isLeft: bool, node: Node, ghost dom: set<Node>, ghost z: Path) returns (ghost r: Tree)
      requires At(Snap(dom), root, Leaf, z) && node !in dom && PathEl(z) == dom
      requires parent == Up(z) && (z.Step? ==> isLeft == z.isLeft)
      requires Fits(z, 0) && BlackTop(z) && gen < GEN_MOD
      modifies this`root, this`gen, dom`left, dom`right, dom`parent, dom`red
      modifies node`left, node`right, node`parent, node`red, node`gen
      ensures At(Snap(dom + {node}), root, r, Top) && RedBlack(r) && !IsRed(r)
      ensures Nodes(r) == Before(z) + [node] + After(z)
      ensures gen < GEN_MOD && 0 < node.gen < NODE_GEN_MOD
    {
      LinkLeafAt(parent, isLeft, node, dom, z);
      r := InsertRecolour(node, dom + {node}, Fork(Leaf, node, true, Leaf), z);
      PlugLeaf(node, z);
    }

    /** The focus is where `key` belongs: smaller keys are before it and larger keys after it. */
    ghost predicate Searching(t: Tree, z: Path, key: int)
      reads this, nodes
    {
      var k := Keys(nodes);
      // one fact: the verifier does not split it
      (At(Links(), root, t, z) && Plug(t, z) == tree && Placed(t, z) && AllBelow(k, Before(z), key) && AllAbove(k, After(z), key)) == true
    }

    lemma {:induction false} SearchDown(t: Tree, z: Path, key: int)
      requires Valid() && Searching(t, z, key) && t.Fork?
      ensures t.node in nodes && t.node.left == Ref(t.left) && t.node.right == Ref(t.right)
      ensures key < t.node.key ==> Searching(t.left, Step(z, true, t.node, t.red, t.right), key)
      ensures t.node.key < key ==> Searching(t.right, Step(z, false, t.node, t.red, t.left), key)
    {
      Look(nodes, root, t, z);
      GoDown(Keys(nodes), t, z, key);
      MoveDown(Links(), root, true, t.left, t.node, t.red, t.right, z);
      Descend(true, t.left, t.node, t.red, t.right, z);
      MoveDown(Links(), root, false, t.right, t.node, t.red, t.left, z);
      Descend(false, t.right, t.node, t.red, t.left, z);
    }

    /** The descent that lookup and insert share: stops at an equal node, or at the empty place for `key`. */
    method Search(key: int) returns (found: Node?, parent: Node?, isLeft: bool, ghost z: Path, ghost cmps: nat)
      requires Valid()
      ensures Valid() && Links() == old(Links()) && Table() == old(Table()) && cmps <= Height(tree)
      ensures found != null ==> found in nodes && found.key == key
      ensures found == null ==> Searching(Leaf, z, key) && parent == Up(z) && (z.Step? ==> isLeft == z.isLeft)
    {
      ghost var t := tree;
      z, parent, isLeft, cmps := Top, null, true, 0;
      var iter := root;
      while iter != null
        invariant Valid() && Searching(t, z, key) && cmps + Height(t) <= Height(tree)
        invariant iter == Ref(t) && parent == Up(z) && (z.Step? ==> isLeft == z.isLeft)
        decreases t
      {
        SearchDown(t, z, key);
        parent := iter;
        cmps := cmps + 1;
        var c := Compare(key, parent.key);
        if c == -1 {
          iter, isLeft := parent.left, true;
          t, z := t.left, Step(z, true, t.node, t.red, t.right);
        } else if c == 1 {
          iter, isLeft := parent.right, false;
          t, z := t.right, Step(z, false, t.node, t.red, t.left);
        } else {
          found := parent;
          return;
        }
      }
      found := null;
    }

    /** What the end of a search tells. */
    lemma {:induction false} Searched(found: Node?, z: Path, key: int)
      requires Valid()
      requires if found != null then found in nodes && found.key == key else Searching(Leaf, z, key)
      ensures found == null <==> key !in Table().Values
      ensures found != null ==> found in Contents()
    {
      if found == null {
        SearchedContents(z, key);
      } else {
        NodesEl(tree);
        assert found in Table() && Table()[found] == key;
      }
    }

    method Lookup(key: int) returns (nv: Node?, ghost cmps: nat)
      requires Valid()
      ensures nv != null ==> nv in nodes && nv in Contents() && nv.key == key
      ensures nv == null <==> key !in Table().Values
      ensures Pow2(cmps) <= (|Contents()| + 1) * (|Contents()| + 1)
    {
      ghost var z;
      var parent, isLeft;
      nv, parent, isLeft, z, cmps := Search(key);
      Searched(nv, z, key);
      HeightBound(tree);
      Pow2Mono(cmps, Height(tree));
    }

    lemma {:induction false} SearchedContents(z: Path, key: int)
      requires nodes == El(tree) && Searching(Leaf, z, key)
      ensures Contents() == Before(z) + After(z) && PathEl(z) == nodes && key !in Table().Values
    {
      PlugNodes(Leaf, z);
      assert Before(z) + [] + After(z) == Before(z) + After(z);
      NodesEl(tree);
      PlugEl(Leaf, z);
    }

    /** Links `node` into an empty place where its key belongs. */
    method InsertSorted(parent: Node?, isLeft: bool, node: Node, ghost dom: set<Node>, ghost z: Path) returns (ghost r: Tree)
      requires At(Snap(dom), root, Leaf, z) && node !in dom && PathEl(z) == dom
      requires parent == Up(z) && (z.Step? ==> isLeft == z.isLeft)
      requires Fits(z, 0) && BlackTop(z) && gen < GEN_MOD
      requires Sorted(Keys(dom), Before(z) + After(z))
      requires AllBelow(Keys(dom), Before(z), node.key) && AllAbove(Keys(dom), After(z), node.key)
      modifies this`root, this`gen, dom`left, dom`right, dom`parent, dom`red
      modifies node`left, node`right, node`parent, node`red, node`gen
      ensures Sound(Snap(dom + {node}), Keys(dom + {node}), root, r)
      ensures Nodes(r) == Before(z) + [node] + After(z) && El(r) == dom + {node}
      ensures gen < GEN_MOD && 0 < node.gen < NODE_GEN_MOD
    {
      ghost var k := Keys(dom);
      r := InsertAt(parent, isLeft, node, dom, z);
      StaysSorted(k, Keys(dom + {node}), Before(z), node, After(z));
      LeafEl(r, node, z);
    }

    /** Records the size and generation of the tree that the links now hold. */
    method Commit(n: nat, g: nat, ghost r: Tree, ghost dom: set<Node>)
      requires Sound(Snap(dom), Keys(dom), root, r) && El(r) == dom
      requires n == |Nodes(r)| && g < GEN_MOD
      requires forall x :: x in dom ==> x.gen != 0
      modifies this`size, this`gen, this`tree, this`nodes
      ensures Valid() && tree == r && nodes == dom && gen == g
    {
      ghost var m, k := Snap(dom), Keys(dom);
      size, gen, tree, nodes := n, g, r, dom;
      assert Snap(dom) == m;
      assert Keys(dom) == k;
    }

    /** Links `node` at the empty place that was found for it. */
    method InsertVacant(parent: Node?, isLeft: bool, node: Node, ghost z: Path)
      requires Valid() && node !in nodes && Searching(Leaf, z, node.key)
      requires parent == Up(z) && (z.Step? ==> isLeft == z.isLeft)
      modifies this`root, this`size, this`gen, this`tree, this`nodes
      modifies nodes`left, nodes`right, nodes`parent, nodes`red
      modifies node`left, node`right, node`parent, node`red, node`gen
      ensures Valid() && node.gen != 0
      ensures nodes == old(nodes) + {node} && Gains(old(Contents()), Contents(), node)
    {
      SearchedContents(z, node.key);
      GainsMiddle(Before(z), node, After(z));
      ghost var dom := nodes;
      ghost var r := InsertSorted(parent, isLeft, node, dom, z);
      Commit(size + 1, gen, r, dom + {node});
    }

    method InsertNode(node: Node) returns (nv: Node?)
      requires Valid() && node !in nodes
      modifies this`root, this`size, this`gen, this`tree, this`nodes
      modifies nodes`left, nodes`right, nodes`parent, nodes`red
      modifies node`left, node`right, node`parent, node`red, node`gen
      ensures Valid() && (nv == null <==> node.key !in old(Table()).Values)
      ensures nv != null ==> nv in old(Contents()) && nv.key == node.key
      ensures nv != null ==> unchanged(this) && Links() == old(Links()) && Table() == old(Table()) && unchanged(node)
      ensures nv == null ==> node.gen != 0 && nodes == old(nodes) + {node} && Gains(old(Contents()), Contents(), node)
    {
      var parent, isLeft;
      ghost var z, cmps;
      nv, parent, isLeft, z, cmps := Search(node.key);
      Searched(nv, z, node.key);
      if nv == null {
        InsertVacant(parent, isLeft, node, z);
      }
    }

    /** Returns the node that compares equal to `node`, or links `node` at its place and returns null. */
    method Insert(node: Node) returns (nv: Node?)
      requires Valid() && node !in nodes
      modifies this`root, this`size, this`gen, this`tree, this`nodes
      modifies nodes`left, nodes`right, nodes`parent, nodes`red
      modifies node`left, node`right, node`parent, node`red, node`gen
      ensures Valid() && (nv == null <==> node.key !in old(Table()).Values)
      ensures nv != null ==> nv in old(Contents()) && nv.key == node.key
      ensures nv != null ==> unchanged(this) && Links() == old(Links()) && Table() == old(Table()) && unchanged(node)
      ensures nv == null ==> node.gen != 0 && nodes == old(nodes) + {node} && Gains(old(Contents()), Contents(), node)
      ensures nv == null ==> Table() == old(Table())[node := node.key]
    {
      ghost var k := Table();
      nv := InsertNode(node);
      if nv == null {
        KeysGrow(k, node);
      }
    }

    // ----- removal -----

    /** Painting the sibling of the focus. */
    method PaintSibling(other: Node, c: bool, ghost dom: set<Node>, ghost t: Tree, ghost z: Path)
      requires At(Snap(dom), root, t, z) && z.Step? && z.sib.Fork? && z.sib.node == other
      modifies dom`red
      ensures At(Snap(dom), root, t, z.(sib := Paint(z.sib, c)))
      ensures Nodes(Plug(t, z.(sib := Paint(z.sib, c)))) == Nodes(Plug(t, z))
    {
      ghost var Step(u, d, x, r, s) := z;
      MoveUp(Snap(dom), root, t, z);
      MoveDown(Snap(dom), root, !d, s, x, r, t, u);
      SetRed(other, c, dom, s, Step(u, !d, x, r, t));
      MoveUp(Snap(dom), root, Paint(s, c), Step(u, !d, x, r, t));
      MoveDown(Snap(dom), root, d, t, x, r, Paint(s, c), u);
    }

    /** Painting the node above the focus. */
    method PaintParent(parent: Node, c: bool, ghost dom: set<Node>, ghost t: Tree, ghost z: Path)
      requires At(Snap(dom), root, t, z) && z.Step? && z.node == parent
      modifies dom`red
      ensures At(Snap(dom), root, t, z.(red := c))
      ensures Nodes(Plug(t, z.(red := c))) == Nodes(Plug(t, z))
    {
      ghost var Step(u, d, x, r, s) := z;
      MoveUp(Snap(dom), root, t, z);
      SetRed(parent, c, dom, Mk(d, t, x, r, s), u);
      MoveDown(Snap(dom), root, d, t, x, c, s, u);
    }

    /** Painting a child of the focus. */
    method PaintChild(child: Node, d: bool, c: bool, ghost dom: set<Node>, ghost s: Tree, ghost z: Path)
      requires At(Snap(dom), root, s, z) && s.Fork? && Near(d, s).Fork? && Near(d, s).node == child
      modifies dom`red
      ensures var s' := Mk(d, Paint(Near(d, s), c), s.node, s.red, Far(d, s));
        At(Snap(dom), root, s', z) && Nodes(Plug(s', z)) == Nodes(Plug(s, z))
    {
      ghost var n, f := Near(d, s), Far(d, s);
      assert s == Mk(d, n, s.node, s.red, f);
      MoveDown(Snap(dom), root, d, n, s.node, s.red, f, z);
      SetRed(child, c, dom, n, Step(z, d, s.node, s.red, f));
      MoveUp(Snap(dom), root, Paint(n, c), Step(z, d, s.node, s.red, f));
    }

    /** A red sibling on the right is rotated above the parent, so that the new sibling is black. */
    method RotateSiblingLeft(parent: Node, other: Node, ghost dom: set<Node>, ghost t: Tree, ghost z: Path) returns (ghost z': Path)
      requires At(Snap(dom), root, t, z) && Short(t, z) && !IsRed(t)
      requires z.Step? && z.isLeft && IsRed(z.sib) && z.node == parent && z.sib.node == other
      modifies this`root, dom`left, dom`right, dom`parent, dom`red
      ensures z'.Step? && z'.isLeft && z'.node == parent && z'.red && z'.up.Step? && !IsRed(z'.sib) && Depth(z') == Depth(z) + 1
      ensures At(Snap(dom), root, t, z') && Short(t, z') && Nodes(Plug(t, z')) == Nodes(Plug(t, z))
    {
      ghost var s, u := z.sib, z.up;
      RedSibling(t, z);
      PaintSibling(other, false, dom, t, z);
      PaintParent(parent, true, dom, t, z.(sib := Paint(s, false)));
      MoveUp(Snap(dom), root, t, Step(u, true, parent, true, Paint(s, false)));
      RotateLeftAt(parent, dom, Mk(true, t, parent, true, Paint(s, false)), u);
      ghost var w := Mk(true, t, parent, true, s.left);
      MoveDown(Snap(dom), root, true, w, other, false, s.right, u);
      MoveDown(Snap(dom), root, true, t, parent, true, s.left, Step(u, true, other, false, s.right));
      z' := Step(Step(u, true, other, false, s.right), true, parent, true, s.left);
    }

    /** A red nephew on the left is rotated above the sibling, so that the nephew on the right is red. */
    method RotateNephewLeft(parent: Node, other: Node, ghost dom: set<Node>, ghost t: Tree, ghost z: Path) returns (ghost z': Path)
      requires At(Snap(dom), root, t, z) && Short(t, z) && !IsRed(t)
      requires z.Step? && z.isLeft && z.sib.Fork? && !z.sib.red && z.node == parent && z.sib.node == other
      requires IsRed(z.sib.left) && !IsRed(z.sib.right)
      modifies this`root, dom`left, dom`right, dom`parent, dom`red
      ensures z'.Step? && z'.isLeft && z'.node == parent && z'.up == z.up && z'.red == z.red
      ensures z'.sib.Fork? && !z'.sib.red && IsRed(z'.sib.right)
      ensures At(Snap(dom), root, t, z') && Short(t, z') && Nodes(Plug(t, z')) == Nodes(Plug(t, z))
    {
      ghost var Step(u, _, x, r, s) := z;
      ghost var n, up := s.left, Step(u, false, x, r, t);
      RedNearNephew(t, z, n);
      MoveUp(Snap(dom), root, t, z);
      MoveDown(Snap(dom), root, false, s, x, r, t, u);
      Look(dom, root, s, up);
      PaintChild(other.left, true, false, dom, s, up);
      ghost var s1 := Mk(true, Paint(n, false), other, false, s.right);
      SetRed(other, true, dom, s1, up);
      ghost var s2 := Paint(s1, true);
      RotateRightAt(other, dom, s2, up);
      ghost var s3 := Mk(true, n.left, n.node, false, Mk(true, n.right, other, true, s.right));
      MoveUp(Snap(dom), root, s3, up);
      MoveDown(Snap(dom), root, true, t, x, r, s3, u);
      z' := z.(sib := s3);
    }

    /** With a red nephew on the right, one rotation restores the missing black node. */
    method SettleLeft(parent: Node, other: Node, ghost dom: set<Node>, ghost t: Tree, ghost z: Path) returns (ghost t': Tree)
      requires At(Snap(dom), root, t, z) && Short(t, z) && !IsRed(t)
      requires z.Step? && z.isLeft && z.sib.Fork? && !z.sib.red && IsRed(z.sib.right) && z.node == parent && z.sib.node == other
      modifies this`root, dom`left, dom`right, dom`parent, dom`red
      ensures At(Snap(dom), root, t', z.up) && Placed(t', z.up) && t'.Fork? && Nodes(Plug(t', z.up)) == Nodes(Plug(t, z))
    {
      ghost var Step(u, _, x, r, s) := z;
      RedFarNephew(t, z);
      Look(dom, root, t, z);
      PaintSibling(other, parent.red, dom, t, z);
      ghost var s1 := Paint(s, r);
      PaintParent(parent, false, dom, t, z.(sib := s1));
      ghost var up := Step(u, false, x, false, t);
      MoveUp(Snap(dom), root, t, Step(u, true, x, false, s1));
      MoveDown(Snap(dom), root, false, s1, x, false, t, u);
      Look(dom, root, s1, up);
      PaintChild(other.right, false, false, dom, s1, up);
      ghost var s2 := Mk(true, s.left, other, r, Paint(s.right, false));
      MoveUp(Snap(dom), root, s2, up);
      t' := Mk(true, t, x, false, s2);
      RotateLeftAt(parent, dom, t', u);
      t' := Mk(true, Mk(true, t, x, false, s.left), other, r, Paint(s.right, false));
    }

    /** A red sibling on the left is rotated above the parent, so that the new sibling is black. */
    method RotateSiblingRight(parent: Node, other: Node, ghost dom: set<Node>, ghost t: Tree, ghost z: Path) returns (ghost z': Path)
      requires At(Snap(dom), root, t, z) && Short(t, z) && !IsRed(t)
      requires z.Step? && !z.isLeft && IsRed(z.sib) && z.node == parent && z.sib.node == other
      modifies this`root, dom`left, dom`right, dom`parent, dom`red
      ensures z'.Step? && !z'.isLeft && z'.node == parent && z'.red && z'.up.Step? && !IsRed(z'.sib) && Depth(z') == Depth(z) + 1
      ensures At(Snap(dom), root, t, z') && Short(t, z') && Nodes(Plug(t, z')) == Nodes(Plug(t, z))
    {
      ghost var s, u := z.sib, z.up;
      RedSibling(t, z);
      PaintSibling(other, false, dom, t, z);
      PaintParent(parent, true, dom, t, z.(sib := Paint(s, false)));
      MoveUp(Snap(dom), root, t, Step(u, false, parent, true, Paint(s, false)));
      RotateRightAt(parent, dom, Mk(false, t, parent, true, Paint(s, false)), u);
      ghost var w := Mk(false, t, parent, true, s.right);
      MoveDown(Snap(dom), root, false, w, other, false, s.left, u);
      MoveDown(Snap(dom), root, false, t, parent, true, s.right, Step(u, false, other, false, s.left));
      z' := Step(Step(u, false, other, false, s.left), false, parent, true, s.right);
    }

    /** A red nephew on the right is rotated above the sibling, so that the nephew on the left is red. */
    method RotateNephewRight(parent: Node, other: Node, ghost dom: set<Node>, ghost t: Tree, ghost z: Path) returns (ghost z': Path)
      requires At(Snap(dom), root, t, z) && Short(t, z) && !IsRed(t)
      requires z.Step? && !z.isLeft && z.sib.Fork? && !z.sib.red && z.node == parent && z.sib.node == other
      requires IsRed(z.sib.right) && !IsRed(z.sib.left)
      modifies this`root, dom`left, dom`right, dom`parent, dom`red
      ensures z'.Step? && !z'.isLeft && z'.node == parent && z'.up == z.up && z'.red == z.red
      ensures z'.sib.Fork? && !z'.sib.red && IsRed(z'.sib.left)
      ensures At(Snap(dom), root, t, z') && Short(t, z') && Nodes(Plug(t, z')) == Nodes(Plug(t, z))
    {
      ghost var Step(u, _, x, r, s) := z;
      ghost var n, up := s.right, Step(u, true, x, r, t);
      RedNearNephew(t, z, n);
      MoveUp(Snap(dom), root, t, z);
      MoveDown(Snap(dom), root, true, s, x, r, t, u);
      Look(dom, root, s, up);
      PaintChild(other.right, false, false, dom, s, up);
      ghost var s1 := Mk(false, Paint(n, false), other, false, s.left);
      SetRed(other, true, dom, s1, up);
      ghost var s2 := Paint(s1, true);
      RotateLeftAt(other, dom, s2, up);
      ghost var s3 := Mk(false, n.right, n.node, false, Mk(false, n.left, other, true, s.left));
      MoveUp(Snap(dom), root, s3, up);
      MoveDown(Snap(dom), root, false, t, x, r, s3, u);
      z' := z.(sib := s3);
    }

    /** With a red nephew on the left, one rotation restores the missing black node. */
    method SettleRight(parent: Node, other: Node, ghost dom: set<Node>, ghost t: Tree, ghost z: Path) returns (ghost t': Tree)
      requires At(Snap(dom), root, t, z) && Short(t, z) && !IsRed(t)
      requires z.Step? && !z.isLeft && z.sib.Fork? && !z.sib.red && IsRed(z.sib.left) && z.node == parent && z.sib.node == other
      modifies this`root, dom`left, dom`right, dom`parent, dom`red
      ensures At(Snap(dom), root, t', z.up) && Placed(t', z.up) && t'.Fork? && Nodes(Plug(t', z.up)) == Nodes(Plug(t, z))
    {
      ghost var Step(u, _, x, r, s) := z;
      RedFarNephew(t, z);
      Look(dom, root, t, z);
      PaintSibling(other, parent.red, dom, t, z);
      ghost var s1 := Paint(s, r);
      PaintParent(parent, false, dom, t, z.(sib := s1));
      ghost var up := Step(u, true, x, false, t);
      MoveUp(Snap(dom), root, t, Step(u, false, x, false, s1));
      MoveDown(Snap(dom), root, true, s1, x, false, t, u);
      Look(dom, root, s1, up);
      PaintChild(other.left, true, false, dom, s1, up);
      ghost var s2 := Mk(false, s.right, other, r, Paint(s.left, false));
      MoveUp(Snap(dom), root, s2, up);
      t' := Mk(false, t, x, false, s2);
      RotateRightAt(parent, dom, t', u);
      t' := Mk(false, Mk(false, t, x, false, s.right), other, r, Paint(s.left, false));
    }

    /** One turn of the removal loop when the short side is the left child of `parent`. */
    method RemoveStepLeft(parent: Node, ghost dom: set<Node>, ghost t: Tree, ghost z: Path)
      returns (settled: bool, node': Node, parent': Node?, ghost t': Tree, ghost z': Path)
      requires At(Snap(dom), root, t, z) && Short(t, z) && !IsRed(t)
      requires z.Step? && z.isLeft && z.node == parent
      modifies this`root, dom`left, dom`right, dom`parent, dom`red
      ensures At(Snap(dom), root, t', z') && t'.Fork? && Nodes(Plug(t', z')) == Nodes(Plug(t, z))
      ensures settled ==> Placed(t', z')
      ensures !settled ==> Short(t', z') && node' == t'.node && parent' == Up(z') && (IsRed(t') || Depth(z') < Depth(z))
    {
      settled, node', parent' := false, parent, null;
      z' := z;
      SiblingExists(t, z);
      Look(dom, root, t, z);
      var other := parent.right;
      if other.red {
        z' := RotateSiblingLeft(parent, other, dom, t, z);
        SiblingExists(t, z');
        Look(dom, root, t, z');
        other := parent.right;
      }
      LookSibling(dom, root, t, z');
      if (other.left == null || !other.left.red) && (other.right == null || !other.right.red) {
        BlackNephews(t, z');
        PaintSibling(other, true, dom, t, z');
        MoveUp(Snap(dom), root, t, z'.(sib := Paint(z'.sib, true)));
        t', z' := Mk(z'.isLeft, t, z'.node, z'.red, Paint(z'.sib, true)), z'.up;
        Look(dom, root, t', z');
        node', parent' := parent, parent.parent;
      } else {
        if other.right == null || !other.right.red {
          z' := RotateNephewLeft(parent, other, dom, t, z');
          Look(dom, root, t, z');
          other := parent.right;
        }
        t' := SettleLeft(parent, other, dom, t, z');
        z' := z'.up;
        settled := true;
      }
    }

    /** One turn of the removal loop when the short side is the right child of `parent`. */
    method RemoveStepRight(parent: Node, ghost dom: set<Node>, ghost t: Tree, ghost z: Path)
      returns (settled: bool, node': Node, parent': Node?, ghost t': Tree, ghost z': Path)
      requires At(Snap(dom), root, t, z) && Short(t, z) && !IsRed(t)
      requires z.Step? && !z.isLeft && z.node == parent
      modifies this`root, dom`left, dom`right, dom`parent, dom`red
      ensures At(Snap(dom), root, t', z') && t'.Fork? && Nodes(Plug(t', z')) == Nodes(Plug(t, z))
      ensures settled ==> Placed(t', z')
      ensures !settled ==> Short(t', z') && node' == t'.node && parent' == Up(z') && (IsRed(t') || Depth(z') < Depth(z))
    {
      settled, node', parent' := false, parent, null;
      z' := z;
      SiblingExists(t, z);
      Look(dom, root, t, z);
      var other := parent.left;
      if other.red {
        z' := RotateSiblingRight(parent, other, dom, t, z);
        SiblingExists(t, z');
        Look(dom, root, t, z');
        other := parent.left;
      }
      LookSibling(dom, root, t, z');
      if (other.left == null || !other.left.red) && (other.right == null || !other.right.red) {
        BlackNephews(t, z');
        PaintSibling(other, true, dom, t, z');
        MoveUp(Snap(dom), root, t, z'.(sib := Paint(z'.sib, true)));
        t', z' := Mk(z'.isLeft, t, z'.node, z'.red, Paint(z'.sib, true)), z'.up;
        Look(dom, root, t', z');
        node', parent' := parent, parent.parent;
      } else {
        if other.left == null || !other.left.red {
          z' := RotateNephewRight(parent, other, dom, t, z');
          Look(dom, root, t, z');
          other := parent.left;
        }
        t' := SettleRight(parent, other, dom, t, z');
        z' := z'.up;
        settled := true;
      }
    }

    lemma {:induction false} SettledTop(m: Store, root: Node?, t: Tree, z: Path)
      requires At(m, root, t, z) && Placed(t, z) && t.Fork?
      ensures At(m, root, Plug(t, z), Top) && Short(Plug(t, z), Top) && Plug(t, z).Fork?
    {
      PlugBalance(t, z);
      ToRoot(m, root, t, z);
      PlugFork(t, z);
      PaintBalance(Plug(t, z));
    }

    /** A short focus that is red, or is the whole tree, is made sound by painting it black. */
    method Blacken(node: Node?, ghost dom: set<Node>, ghost t: Tree, ghost z: Path) returns (ghost r: Tree)
      requires At(Snap(dom), root, t, z) && Short(t, z) && node == Ref(t) && (IsRed(t) || z.Top?)
      modifies dom`red
      ensures At(Snap(dom), root, r, Top) && RedBlack(r) && !IsRed(r) && Nodes(r) == Nodes(Plug(t, z))
    {
      if node != null {
        SetRed(node, false, dom, t, z);
      }
      r := Plug(Paint(t, false), z);
      ToRoot(Snap(dom), root, Paint(t, false), z);
      PlugBalance(Paint(t, false), z);
    }

    method RemoveRecolour(parent0: Node?, node0: Node?, ghost dom: set<Node>, ghost t0: Tree, ghost z0: Path) returns (ghost r: Tree)
      requires At(Snap(dom), root, t0, z0) && Short(t0, z0) && node0 == Ref(t0) && parent0 == Up(z0)
      modifies this`root, dom`left, dom`right, dom`parent, dom`red
      ensures At(Snap(dom), root, r, Top) && RedBlack(r) && !IsRed(r) && Nodes(r) == Nodes(Plug(t0, z0))
    {
      var parent, node := parent0, node0;
      ghost var t, z := t0, z0;
      Look(dom, root, t, z);
      while (node == null || !node.red) && node != root
        invariant At(Snap(dom), root, t, z) && Short(t, z) && node == Ref(t) && parent == Up(z)
        invariant (node != null ==> node.red == IsRed(t)) && (z.Top? <==> node == root)
        invariant Nodes(Plug(t, z)) == Nodes(Plug(t0, z0))
        decreases if IsRed(t) then 0 else Depth(z) + 1
      {
        SiblingExists(t, z);
        Look(dom, root, t, z);
        var settled;
        if parent.left == node {
          settled, node, parent, t, z := RemoveStepLeft(parent, dom, t, z);
        } else {
          settled, node, parent, t, z := RemoveStepRight(parent, dom, t, z);
        }
        if settled {
          SettledTop(Snap(dom), root, t, z);
          t, z := Plug(t, z), Top;
          Look(dom, root, t, z);
          node := root;
          break;
        }
        Look(dom, root, t, z);
      }
      r := Blacken(node, dom, t, z);
    }

    /** The fields of the sibling's children. */
    lemma {:induction false} LookSibling(dom: set<Node>, root: Node?, t: Tree, z: Path)
      requires At(Snap(dom), root, t, z) && z.Step? && z.sib.Fork?
      ensures z.sib.left.Fork? ==> z.sib.left.node in dom && z.sib.left.node.red == z.sib.left.red
      ensures z.sib.right.Fork? ==> z.sib.right.node in dom && z.sib.right.node.red == z.sib.right.red
    {
      var m, s := Snap(dom), z.sib;
      assert Rep(m, s, z.node);
      assert Rep(m, s.left, s.node) && Rep(m, s.right, s.node);
    }

    /** Unlinks a node with at most one child; the child takes its place. */
    method UnlinkNode(node: Node) returns (child: Node?)
      requires node.left == null || node.right == null
      requires node.left != node && node.right != node && node.parent != node
      requires node.parent != null ==> node.left != node.parent && node.right != node.parent
      modifies this`root, Some(node.left)`parent, Some(node.right)`parent, Some(node.parent)`left, Some(node.parent)`right
      ensures child == if node.left == null then node.right else node.left
      ensures child != null ==> child.parent == node.parent
      ensures Replaced(node, child, node.parent)
    {
      if node.left == null {
        child := node.right;
      } else {
        child := node.left;
      }
      if child != null {
        child.parent := node.parent;
      }
      UpdateParentPtr(node, child);
    }

    method UnlinkStore(node: Node, ghost dom: set<Node>, ghost d: bool, ghost c: Node?, ghost cx: bool, ghost z: Path)
      returns (child: Node?)
      requires Loose(Snap(dom), root, d, c, node, cx, z)
      modifies this`root, dom`left, dom`right, dom`parent
      ensures Unlinked(old(Snap(dom)), Snap(dom), old(root), root, c, node, z)
      ensures child == c && node.parent == Up(z)
    {
      ghost var m := Snap(dom);
      assert m[node] == Cell(node.left, node.right, node.parent, node.red);
      child := UnlinkNode(node);
      assert Same(m, Snap(dom), node, c, Up(z), null);
      assert c != null ==> Snap(dom)[c] == m[c].(parent := Up(z));
    }

    method UnlinkNodeAt(node: Node, ghost dom: set<Node>, ghost d: bool, ghost c: Tree, ghost cx: bool, ghost z: Path)
      returns (child: Node?)
      requires At(Snap(dom), root, Mk(d, c, node, cx, Leaf), z)
      modifies this`root, dom`left, dom`right, dom`parent
      ensures At(Snap(dom - {node}), root, c, z) && child == Ref(c) && node.parent == Up(z)
    {
      ghost var m, r := Snap(dom), root;
      UnlinkFacts(m, root, d, c, node, cx, z);
      child := UnlinkStore(node, dom, d, Ref(c), cx, z);
      UnlinkedRest(m, Snap(dom), Snap(dom - {node}), r, root, d, Ref(c), node, cx, z);
      UnlinkAt(m, Snap(dom - {node}), r, root, d, c, node, cx, z);
    }

    /** Removal of a node with at most one child. */
    method RemoveOuter(node: Node, ghost dom: set<Node>, ghost d: bool, ghost c: Tree, ghost z: Path)
      returns (ghost r: Tree, ghost a: seq<Node>, ghost b: seq<Node>)
      requires At(Snap(dom), root, Mk(d, c, node, node.red, Leaf), z) && Placed(Mk(d, c, node, node.red, Leaf), z)
      modifies this`root, dom`left, dom`right, dom`parent, dom`red
      ensures At(Snap(dom - {node}), root, r, Top) && RedBlack(r) && !IsRed(r) && Nodes(r) == a + b
      ensures old(Nodes(Plug(Mk(d, c, node, node.red, Leaf), z))) == a + [node] + b
    {
      ghost var cx := node.red;
      UnlinkBalance(d, c, node, cx, z);
      a, b := UnlinkNodes(d, c, node, cx, z);
      var child := UnlinkNodeAt(node, dom, d, c, cx, z);
      if !node.red {
        r := RemoveRecolour(node.parent, child, dom - {node}, c, z);
      } else {
        PlugBalance(c, z);
        ToRoot(Snap(dom - {node}), root, c, z);
        r := Plug(c, z);
      }
    }

    /** Puts the right child of `old_`, which has no left child, in the place of `old_`. */
    method SpliceChild(old_: Node, node: Node)
      requires old_.left != null && old_.right == node && node != old_ && old_.left != old_ && old_.left != node
      requires old_.parent != old_ && old_.parent != node && old_.parent != old_.left
      modifies this`root, node`left, node`parent, node`red, old_.left`parent
      modifies Some(old_.parent)`left, Some(old_.parent)`right
      ensures node.left == old(old_.left) && node.parent == old(old_.parent) && node.red == old_.red
      ensures old(old_.left).parent == node
      ensures Replaced(old_, node, old(old_.parent))
    {
      UpdateParentPtr(old_, node);
      node.red := old_.red;
      node.parent := old_.parent;
      node.left := old_.left;
      old_.left.parent := node;
    }

    /** Puts `node`, a left descendant of the right child of `old_` without left child, in the place of `old_`. */
    method SpliceDeep(old_: Node, node: Node, parent: Node)
      requires old_.left != null && old_.right != null && node.parent == parent
      requires node != old_ && parent != old_ && parent != node && old_.right != old_ && old_.right != node
      requires old_.left != old_ && old_.left != node && old_.left != parent && old_.left != old_.right
      requires node.right != null ==> node.right !in {node, parent, old_, old_.left, old_.right}
      requires old_.parent != null ==> old_.parent !in {node, parent, old_, old_.left, old_.right} && old_.parent != node.right
      modifies this`root, node`left, node`right, node`parent, node`red, old_.left`parent, old_.right`parent, parent`left
      modifies Some(node.right)`parent, Some(old_.parent)`left, Some(old_.parent)`right
      ensures node.left == old(old_.left) && node.right == old(old_.right) && node.parent == old(old_.parent) && node.red == old_.red
      ensures old(old_.left).parent == node && old(old_.right).parent == node && parent.left == old(node.right)
      ensures old(node.right) != null ==> old(node.right).parent == parent
      ensures Replaced(old_, node, old(old_.parent))
    {
      UpdateParentPtr(old_, node);
      node.red := old_.red;
      if node.right != null {
        node.right.parent := parent;
      }
      parent.left := node.right;
      node.right := old_.right;
      old_.right.parent := node;
      node.parent := old_.parent;
      node.left := old_.left;
      old_.left.parent := node;
    }

    method SpliceChildStore(old_: Node, node: Node, ghost dom: set<Node>, ghost l: Tree, ghost cx: bool, ghost cn: bool, ghost c: Tree,
                            ghost w: Path, ghost z: Path)
      requires w.Top? && Ready(dom, root, old_, node, l, cx, cn, c, w, z, node)
      modifies this`root, dom`left, dom`right, dom`parent, dom`red
      ensures Succeeded(old(Snap(dom)), Snap(dom - {old_}), old(root), root, l, old_, cx, node, node, c, w, z)
    {
      SpliceChild(old_, node);
    }

    method SpliceDeepStore(old_: Node, node: Node, parent: Node, ghost dom: set<Node>, ghost l: Tree, ghost cx: bool, ghost cn: bool,
                           ghost c: Tree, ghost w: Path, ghost z: Path, ghost top: Node)
      requires w.Step? && parent == w.node && Ready(dom, root, old_, node, l, cx, cn, c, w, z, top)
      modifies this`root, dom`left, dom`right, dom`parent, dom`red
      ensures Succeeded(old(Snap(dom)), Snap(dom - {old_}), old(root), root, l, old_, cx, top, node, c, w, z)
    {
      SpliceDeep(old_, node, parent);
    }

    /** Puts `node`, the successor of `old_`, in the place of `old_`; what stood in the place of `node` is `child`, below `parent`. */
    method SpliceAt(old_: Node, node: Node, ghost dom: set<Node>, ghost l: Tree, ghost cx: bool, ghost cn: bool, ghost c: Tree,
                    ghost w: Path, ghost z: Path)
      returns (child: Node?, parent: Node, red: bool)
      requires AllLeft(w) && l.Fork?
      requires At(Snap(dom), root, Fork(Leaf, node, cn, c), Cat(w, Step(z, false, old_, cx, l)))
      modifies this`root, dom`left, dom`right, dom`parent, dom`red
      ensures At(Snap(dom - {old_}), root, c, Cat(w, Step(z, false, node, cx, l)))
      ensures child == Ref(c) && parent == Up(Cat(w, Step(z, false, node, cx, l))) && red == cn
    {
      OuterIn(w, node);
      ghost var m, r, top := Snap(dom), root, Outer(w, node);
      SpliceReady(dom, root, old_, node, l, cx, cn, c, w, z, top);
      child := node.right;
      parent := node.parent;
      red := node.red;
      if parent == old_ {
        parent := node;
        SpliceChildStore(old_, node, dom, l, cx, cn, c, w, z);
      } else {
        SpliceDeepStore(old_, node, parent, dom, l, cx, cn, c, w, z, top);
      }
      SuccessorAt(m, Snap(dom - {old_}), r, root, l, old_, cx, top, node, cn, c, w, z);
    }

    /** Removal of a node with two children: `w` leads from its right child to its successor. */
    method RemoveInner(old_: Node, node: Node, ghost dom: set<Node>, ghost l: Tree, ghost cx: bool, ghost cn: bool, ghost c: Tree,
                       ghost w: Path, ghost z: Path)
      returns (ghost r: Tree, ghost a: seq<Node>, ghost b: seq<Node>)
      requires AllLeft(w) && l.Fork?
      requires At(Snap(dom), root, Fork(Leaf, node, cn, c), Cat(w, Step(z, false, old_, cx, l)))
      requires Placed(Fork(Leaf, node, cn, c), Cat(w, Step(z, false, old_, cx, l)))
      modifies this`root, dom`left, dom`right, dom`parent, dom`red
      ensures At(Snap(dom - {old_}), root, r, Top) && RedBlack(r) && !IsRed(r) && Nodes(r) == a + b
      ensures Nodes(Plug(Fork(Leaf, node, cn, c), Cat(w, Step(z, false, old_, cx, l)))) == a + [old_] + b
    {
      SuccessorBalance(l, old_, cx, node, cn, c, w, z);
      a, b := SuccessorNodes(l, old_, cx, node, cn, c, w, z);
      var child, parent, red := SpliceAt(old_, node, dom, l, cx, cn, c, w, z);
      ghost var z' := Cat(w, Step(z, false, node, cx, l));
      if !red {
        r := RemoveRecolour(parent, child, dom - {old_}, c, z');
      } else {
        PlugBalance(c, z');
        ToRoot(Snap(dom - {old_}), root, c, z');
        r := Plug(c, z');
        assert z'.Step?;
      }
    }

    /** The leftmost node below `start`. */
    method Leftmost(start: Node, ghost dom: set<Node>, ghost t: Tree, ghost base: Path)
      returns (node: Node, ghost cn: bool, ghost c: Tree, ghost w: Path)
      requires At(Snap(dom), root, t, base) && Placed(t, base) && t.Fork? && t.node == start
      ensures At(Snap(dom), root, Fork(Leaf, node, cn, c), Cat(w, base)) && Placed(Fork(Leaf, node, cn, c), Cat(w, base))
      ensures AllLeft(w) && Plug(Fork(Leaf, node, cn, c), Cat(w, base)) == Plug(t, base)
    {
      node, w := start, Top;
      ghost var f := t;
      Look(dom, root, f, base);
      while node.left != null
        invariant At(Snap(dom), root, f, Cat(w, base)) && Placed(f, Cat(w, base)) && f.Fork? && f.node == node
        invariant AllLeft(w) && Plug(f, Cat(w, base)) == Plug(t, base) && node.left == Ref(f.left)
        decreases f
      {
        MoveDown(Snap(dom), root, true, f.left, f.node, f.red, f.right, Cat(w, base));
        Descend(true, f.left, f.node, f.red, f.right, Cat(w, base));
        node := node.left;
        f, w := f.left, Step(w, true, f.node, f.red, f.right);
        Look(dom, root, f, Cat(w, base));
      }
      cn, c := f.red, f.right;
    }

    /** Unlinks a linked node; the cases are those of its children. */
    method RemoveLinked(node: Node, ghost dom: set<Node>, ghost s: Tree, ghost z: Path)
      returns (ghost r: Tree, ghost a: seq<Node>, ghost b: seq<Node>)
      requires At(Snap(dom), root, s, z) && Placed(s, z) && s.Fork? && s.node == node
      modifies this`root, dom`left, dom`right, dom`parent, dom`red
      ensures At(Snap(dom - {node}), root, r, Top) && RedBlack(r) && !IsRed(r) && Nodes(r) == a + b
      ensures Nodes(Plug(s, z)) == a + [node] + b
    {
      Look(dom, root, s, z);
      if node.left != null && node.right != null {
        MoveDown(Snap(dom), root, false, s.right, node, s.red, s.left, z);
        Descend(false, s.right, node, s.red, s.left, z);
        ghost var cn, c, w;
        var next;
        next, cn, c, w := Leftmost(node.right, dom, s.right, Step(z, false, node, s.red, s.left));
        r, a, b := RemoveInner(node, next, dom, s.left, s.red, cn, c, w, z);
      } else if node.left == null {
        assert s == Mk(false, s.right, node, node.red, Leaf);
        r, a, b := RemoveOuter(node, dom, false, s.right, z);
      } else {
        assert s == Mk(true, s.left, node, node.red, Leaf);
        r, a, b := RemoveOuter(node, dom, true, s.left, z);
      }
    }

    /** Unlinks a node of a sorted tree. */
    method RemoveSorted(node: Node, ghost dom: set<Node>, ghost t: Tree) returns (ghost r: Tree, ghost a: seq<Node>, ghost b: seq<Node>)
      requires Sound(Snap(dom), Keys(dom), root, t) && El(t) == dom && node in dom
      modifies this`root, dom`left, dom`right, dom`parent, dom`red
      ensures Sound(Snap(dom - {node}), Keys(dom - {node}), root, r) && El(r) == dom - {node}
      ensures Nodes(t) == a + [node] + b && Nodes(r) == a + b
    {
      ghost var k := Keys(dom);
      ghost var s, z := Locate(Snap(dom), root, t, Top, node);
      r, a, b := RemoveLinked(node, dom, s, z);
      DropSorted(k, Keys(dom - {node}), a, node, b);
      DropEl(a, node, b, t, r);
    }

    /** Marks a linked node as unlinked. */
    method Detach(node: Node)
      requires Valid() && node in nodes
      modifies node`gen
      ensures node.gen == 0 && Sound(Snap(nodes), Keys(nodes), root, tree)
      ensures forall x :: x in nodes - {node} ==> x.gen != 0
    {
      ghost var m, k := Snap(nodes), Keys(nodes);
      node.gen := 0;
      assert Snap(nodes) == m && Keys(nodes) == k;
    }

    /** Unlinks `node`; a node that is not linked is left alone. */
    method Remove(node: Node)
      requires Valid() && (node.gen != 0 ==> node in nodes)
      modifies this`root, this`size, this`gen, this`tree, this`nodes, node`gen
      modifies nodes`left, nodes`right, nodes`parent, nodes`red
      ensures Valid() && node.gen == 0 && nodes == old(nodes) - {node} && Table() == old(Table()) - {node}
      ensures old(node.gen) == 0 ==> unchanged(this) && Links() == old(Links()) && unchanged(node)
      ensures old(node.gen) != 0 ==> Loses(old(Contents()), Contents(), node)
    {
      if node.gen != 0 {
        RemoveNode(node);
      }
    }

    method RemoveNode(node: Node)
      requires Valid() && node in nodes
      modifies this`root, this`size, this`gen, this`tree, this`nodes, node`gen
      modifies nodes`left, nodes`right, nodes`parent, nodes`red
      ensures Valid() && node.gen == 0 && nodes == old(nodes) - {node}
      ensures Loses(old(Contents()), Contents(), node)
    {
      ghost var dom, t := nodes, tree;
      Detach(node);
      ghost var r, a, b := RemoveSorted(node, dom, t);
      assert forall x :: x in dom - {node} ==> x.gen != 0;
      Commit(size - 1, (gen + 1) % GEN_MOD, r, dom - {node});
      LosesMiddle(a, node, b);
    }

    /** The rightmost node below `start`. */
    method Rightmost(start: Node, ghost dom: set<Node>, ghost t: Tree, ghost base: Path)
      returns (node: Node, ghost cn: bool, ghost c: Tree, ghost w: Path)
      requires At(Snap(dom), root, t, base) && Placed(t, base) && t.Fork? && t.node == start
      ensures At(Snap(dom), root, Fork(c, node, cn, Leaf), Cat(w, base)) && Placed(Fork(c, node, cn, Leaf), Cat(w, base))
      ensures AllRight(w) && Plug(Fork(c, node, cn, Leaf), Cat(w, base)) == Plug(t, base)
    {
      node, w := start, Top;
      ghost var f := t;
      Look(dom, root, f, base);
      while node.right != null
        invariant At(Snap(dom), root, f, Cat(w, base)) && Placed(f, Cat(w, base)) && f.Fork? && f.node == node
        invariant AllRight(w) && Plug(f, Cat(w, base)) == Plug(t, base) && node.right == Ref(f.right)
        decreases f
      {
        MoveDown(Snap(dom), root, false, f.right, f.node, f.red, f.left, Cat(w, base));
        Descend(false, f.right, f.node, f.red, f.left, Cat(w, base));
        node := node.right;
        f, w := f.right, Step(w, false, f.node, f.red, f.left);
        Look(dom, root, f, Cat(w, base));
      }
      cn, c := f.red, f.left;
    }

    /** The first node in order. */
    method First() returns (node: Node?)
      requires Valid()
      ensures Valid() && node == if Contents() == [] then null else Contents()[0]
    {
      node := root;
      if node == null {
        return;
      }
      ghost var cn, c, w;
      node, cn, c, w := Leftmost(node, nodes, tree, Top);
      LeftmostOrder(node, cn, c, w, Top);
    }

    lemma {:induction false} ClimbRightStep(t: Tree, z: Path)
      requires Focus(t, z) && z.Step? && !z.isLeft
      ensures var t', z' := Mk(z.isLeft, t, z.node, z.red, z.sib), z.up;
        Focus(t', z') && Before(z') + Nodes(t') == Before(z) + Nodes(t)
    {
      MoveUp(Snap(nodes), root, t, z);
      Regroup(Before(z.up), Nodes(z.sib), [z.node], Nodes(t), []);
      assert Before(z.up) + (Nodes(z.sib) + [z.node] + Nodes(t)) == Before(z) + Nodes(t);
    }

    /** From a node without right child, the node after it is found by climbing while coming from the right. */
    method ClimbRight(start: Node, ghost t0: Tree, ghost z0: Path) returns (r: Node?)
      requires Valid() && Focus(t0, z0) && t0.node == start && t0.right.Leaf?
      ensures Valid() && IsNext(Contents(), start, r)
    {
      ghost var t, z := t0, z0;
      LookFocus(t, z);
      var node := start;
      r := node.parent;
      while r != null && node == r.right
        invariant Valid() && Focus(t, z) && t.node == node && r == Up(z)
        invariant z.Step? ==> (r.right == node <==> !z.isLeft)
        invariant Before(z) + Nodes(t) == Before(z0) + Nodes(t0)
        decreases z
      {
        ClimbRightStep(t, z);
        node := r;
        t, z := Mk(z.isLeft, t, z.node, z.red, z.sib), z.up;
        LookFocus(t, z);
        r := node.parent;
      }
      Distinct();
      RightEdge(t0, z0);
      NextAbove(Contents(), Before(z0) + Nodes(t0.left), start, t, z);
    }

    method BelowRight(start: Node, ghost t: Tree, ghost z: Path) returns (r: Node)
      requires Valid() && Focus(t, z) && Placed(t, z) && t.node == start && start.right != null
      ensures Valid() && IsNext(Contents(), start, r)
    {
      LookFocus(t, z);
      MoveDown(Snap(nodes), root, false, t.right, start, t.red, t.left, z);
      Descend(false, t.right, start, t.red, t.left, z);
      ghost var base := Step(z, false, start, t.red, t.left);
      ghost var cn, c, w;
      r, cn, c, w := Leftmost(start.right, nodes, t.right, base);
      Distinct();
      NextBelow(Contents(), r, cn, c, w, base);
    }

    /** The node after `start` in order, or null after the last. */
    method Next(start: Node) returns (r: Node?)
      requires Valid() && start in Contents()
      ensures Valid()
      ensures IsNext(Contents(), start, r)
    {
      NodesEl(tree);
      ghost var t, z := Locate(Snap(nodes), root, tree, Top, start);
      LookFocus(t, z);
      if start.right != null {
        r := BelowRight(start, t, z);
      } else {
        r := ClimbRight(start, t, z);
      }
    }

    /** The last node in order. */
    method Last() returns (node: Node?)
      requires Valid()
      ensures Valid() && node == if Contents() == [] then null else Contents()[|Contents()| - 1]
    {
      node := root;
      if node == null {
        return;
      }
      ghost var cn, c, w;
      node, cn, c, w := Rightmost(node, nodes, tree, Top);
      RightmostOrder(node, cn, c, w, Top);
    }

    lemma {:induction false} ClimbLeftStep(t: Tree, z: Path)
      requires Focus(t, z) && z.Step? && z.isLeft
      ensures var t', z' := Mk(z.isLeft, t, z.node, z.red, z.sib), z.up;
        Focus(t', z') && Nodes(t') + After(z') == Nodes(t) + After(z)
    {
      MoveUp(Snap(nodes), root, t, z);
      Regroup([], Nodes(t), [z.node], Nodes(z.sib), After(z.up));
      assert (Nodes(t) + [z.node] + Nodes(z.sib)) + After(z.up) == Nodes(t) + After(z);
    }

    /** From a node without left child, the node before it is found by climbing while coming from the left. */
    method ClimbLeft(start: Node, ghost t0: Tree, ghost z0: Path) returns (r: Node?)
      requires Valid() && Focus(t0, z0) && t0.node == start && t0.left.Leaf?
      ensures Valid() && IsPrev(Contents(), start, r)
    {
      ghost var t, z := t0, z0;
      LookFocus(t, z);
      var node := start;
      r := node.parent;
      while r != null && node == r.left
        invariant Valid() && Focus(t, z) && t.node == node && r == Up(z)
        invariant z.Step? ==> (r.left == node <==> z.isLeft)
        invariant Nodes(t) + After(z) == Nodes(t0) + After(z0)
        decreases z
      {
        ClimbLeftStep(t, z);
        node := r;
        t, z := Mk(z.isLeft, t, z.node, z.red, z.sib), z.up;
        LookFocus(t, z);
        r := node.parent;
      }
      Distinct();
      LeftEdge(t0, z0);
      PrevAbove(Contents(), start, Nodes(t0.right) + After(z0), t, z);
    }

    method BelowLeft(start: Node, ghost t: Tree, ghost z: Path) returns (r: Node)
      requires Valid() && Focus(t, z) && Placed(t, z) && t.node == start && start.left != null
      ensures Valid() && IsPrev(Contents(), start, r)
    {
      LookFocus(t, z);
      MoveDown(Snap(nodes), root, true, t.left, start, t.red, t.right, z);
      Descend(true, t.left, start, t.red, t.right, z);
      ghost var base := Step(z, true, start, t.red, t.right);
      ghost var cn, c, w;
      r, cn, c, w := Rightmost(start.left, nodes, t.left, base);
      Distinct();
      PrevBelow(Contents(), r, cn, c, w, base);
    }

    /** The node before `start` in order, or null before the first. */
    method Prev(start: Node) returns (r: Node?)
      requires Valid() && start in Contents()
      ensures Valid()
      ensures IsPrev(Contents(), start, r)
    {
      NodesEl(tree);
      ghost var t, z := Locate(Snap(nodes), root, tree, Top, start);
      LookFocus(t, z);
      if start.left != null {
        r := BelowLeft(start, t, z);
      } else {
        r := ClimbLeft(start, t, z);
      }
    }

    /** `t` is the subtree at the end of `z`. */
    ghost predicate Focus(t: Tree, z: Path)
      reads this, nodes
    {
      // one fact: the verifier does not split it
      (At(Snap(nodes), root, t, z) && Plug(t, z) == tree && t.Fork?) == true
    }

    lemma {:induction false} LookFocus(t: Tree, z: Path)
      requires Focus(t, z)
      ensures t.node in nodes && t.node.parent == Up(z) && t.node.left == Ref(t.left) && t.node.right == Ref(t.right)
      ensures z.Step? ==> z.node in nodes && (z.isLeft <==> z.node.left == t.node) && (!z.isLeft <==> z.node.right == t.node)
    {
      Look(nodes, root, t, z);
    }

    /** A linked node occurs once. */
    lemma {:induction false} Distinct()
      requires Valid()
      ensures Basics.NoDup(Contents())
    {
    }

    /** Following `Next` from `First` visits every linked node once, in order. */
    method Walk() returns (visited: seq<Node>)
      requires Valid()
      ensures Valid() && visited == Contents()
    {
      visited := [];
      ghost var c := Contents();
      var node := First();
      while node != null
        invariant Valid() && Contents() == c && visited <= c
        invariant node == Elem(c, |visited|)
        decreases |c| - |visited|
      {
        ghost var i, x := |visited|, node;
        visited := visited + [node];
        node := Next(node);
        assert c[i] == x && IsNext(c, x, node);
      }
    }

    /** `Prev` undoes `Next` at every node but the last. */
    method StepAndBack(node: Node) returns (there: Node?, back: Node?)
      requires Valid() && node in Contents()
      ensures Valid() && IsNext(Contents(), node, there)
      ensures there != null ==> back == node
    {
      ghost var c := Contents();
      ghost var i :| 0 <= i < |c| && c[i] == node;
      back := null;
      there := Next(node);
      if there != null {
        assert c[i + 1] == there;
        back := Prev(there);
      }
    }
  }
}
