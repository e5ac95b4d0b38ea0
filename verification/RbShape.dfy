/**
 Nodes with parent pointers, and the abstract trees they stand for.

 A `Store` is a snapshot of the link and colour fields of a set of nodes.  `Rep` and `RepPath`
 say that a store holds a tree, or a tree with a hole; every lemma here is about stores, so a
 pointer write is reasoned about as a map update.
 */
module RbShape {

  /** One `struct opr_rbtree_node`, with the key that the comparison function looks at. */
  class Node {
    var left: Node?
    var right: Node?
    var parent: Node?
    var red: bool
    var gen: nat
    var key: int

    constructor (k: int)
      ensures gen == 0 && key == k
    {
      left, right, parent, red, gen, key := null, null, null, false, 0, k;
    }
  }

  datatype Tree = Leaf | Fork(left: Tree, node: Node, red: bool, right: Tree)

  /** A tree with one subtree missing, described from the hole up to the root. */
  datatype Path = Top | Step(up: Path, isLeft: bool, node: Node, red: bool, sib: Tree)

  datatype Cell = Cell(left: Node?, right: Node?, parent: Node?, red: bool)

  type Store = map<Node, Cell>

  ghost function Snap(dom: set<Node>): Store
    reads dom
  {
    map n | n in dom :: Cell(n.left, n.right, n.parent, n.red)
  }

  // ----- trees -----

  function Ref(t: Tree): Node? {
    if t.Leaf? then null else t.node
  }

  /** The fork over `x` whose `isLeft` side is `a` and whose other side is `b`. */
  function Mk(isLeft: bool, a: Tree, x: Node, red: bool, b: Tree): Tree {
    if isLeft then Fork(a, x, red, b) else Fork(b, x, red, a)
  }

  function Paint(t: Tree, red: bool): Tree {
    if t.Leaf? then Leaf else t.(red := red)
  }

  ghost function El(t: Tree): set<Node> {
    match t
    case Leaf => {}
    case Fork(l, x, _, r) => El(l) + {x} + El(r)
  }

  /** The nodes in order. */
  ghost function Nodes(t: Tree): seq<Node> {
    match t
    case Leaf => []
    case Fork(l, x, _, r) => Nodes(l) + [x] + Nodes(r)
  }

  ghost predicate Uniq(t: Tree) {
    match t
    case Leaf => true
    case Fork(l, x, _, r) => x !in El(l) && x !in El(r) && El(l) !! El(r) && Uniq(l) && Uniq(r)
  }

  // ----- paths -----

  function Up(z: Path): Node? {
    if z.Top? then null else z.node
  }

  ghost function Plug(t: Tree, z: Path): Tree
    decreases z
  {
    match z
    case Top => t
    case Step(u, d, x, c, s) => Plug(Mk(d, t, x, c, s), u)
  }

  ghost function PathEl(z: Path): set<Node> {
    match z
    case Top => {}
    case Step(u, _, x, _, s) => PathEl(u) + {x} + El(s)
  }

  ghost predicate UniqPath(z: Path) {
    match z
    case Top => true
    case Step(u, _, x, _, s) => x !in El(s) && x !in PathEl(u) && El(s) !! PathEl(u) && Uniq(s) && UniqPath(u)
  }

  ghost function Before(z: Path): seq<Node> {
    match z
    case Top => []
    case Step(u, d, x, _, s) => if d then Before(u) else Before(u) + Nodes(s) + [x]
  }

  ghost function After(z: Path): seq<Node> {
    match z
    case Top => []
    case Step(u, d, x, _, s) => if d then [x] + Nodes(s) + After(u) else After(u)
  }

  ghost function Depth(z: Path): nat {
    if z.Top? then 0 else 1 + Depth(z.up)
  }

  // ----- representation -----

  ghost predicate Rep(m: Store, t: Tree, p: Node?) {
    match t
    case Leaf => true
    case Fork(l, x, c, r) => x in m && m[x] == Cell(Ref(l), Ref(r), p, c) && Rep(m, l, x) && Rep(m, r, x)
  }

  ghost function CellOf(d: bool, child: Node?, sib: Node?, p: Node?, c: bool): Cell {
    if d then Cell(child, sib, p, c) else Cell(sib, child, p, c)
  }

  /** `z` is held by `m`, with `child` in its hole; `top` is its topmost node and `p` the parent of that. */
  ghost predicate RepPath(m: Store, z: Path, child: Node?, top: Node?, p: Node?) {
    match z
    case Top => child == top
    case Step(u, d, x, c, s) =>
      && x in m
      && m[x] == CellOf(d, child, Ref(s), if u.Top? then p else u.node, c)
      && Rep(m, s, x)
      && RepPath(m, u, x, top, p)
  }

  /**
   The store holds `Plug(t, z)` below `root`, and the focus is on `t`.
   Written as an equality so that the verifier carries it as one fact.
   */
  ghost predicate At(m: Store, root: Node?, t: Tree, z: Path) {
    Holds(m, root, t, z) == true
  }

  ghost predicate Holds(m: Store, root: Node?, t: Tree, z: Path) {
    && Rep(m, t, Up(z))
    && RepPath(m, z, Ref(t), root, null)
    && Uniq(t) && UniqPath(z) && El(t) !! PathEl(z)
  }

  // ----- facts about trees and paths -----

  ghost function SetOf(s: seq<Node>): set<Node> {
    set x | x in s
  }

  lemma {:induction false} SetOfJoin(a: seq<Node>, b: seq<Node>, c: seq<Node>)
    ensures SetOf(a + b + c) == SetOf(a) + SetOf(b) + SetOf(c)
  {
  }

  lemma {:induction false} NodesEl(t: Tree)
    ensures El(t) == SetOf(Nodes(t))
  {
    if t.Fork? {
      NodesEl(t.left);
      NodesEl(t.right);
      SetOfJoin(Nodes(t.left), [t.node], Nodes(t.right));
      assert SetOf([t.node]) == {t.node};
    }
  }

  lemma {:induction false} Regroup(p: seq<Node>, a: seq<Node>, b: seq<Node>, c: seq<Node>, q: seq<Node>)
    ensures p + (a + b + c) + q == p + a + (b + c + q)
    ensures p + (a + b + c) + q == (p + a + b) + c + q
  {
  }

  lemma {:induction false} Assoc(a: seq<Node>, b: seq<Node>, c: seq<Node>, d: seq<Node>)
    ensures a + (b + c) + d == a + b + (c + d) == (a + b) + c + d
  {
  }

  lemma {:induction false} Shift(a: seq<Node>, x: seq<Node>, b: seq<Node>, y: seq<Node>, c: seq<Node>)
    ensures (a + x + b) + y + c == a + x + (b + y + c)
  {
  }

  lemma {:induction false} PlugNodes(t: Tree, z: Path)
    ensures Nodes(Plug(t, z)) == Before(z) + Nodes(t) + After(z)
    decreases z
  {
    if z.Step? {
      var Step(u, d, x, c, s) := z;
      PlugNodes(Mk(d, t, x, c, s), u);
      if d {
        Regroup(Before(u), Nodes(t), [x], Nodes(s), After(u));
      } else {
        Regroup(Before(u), Nodes(s), [x], Nodes(t), After(u));
      }
    }
  }

  lemma {:induction false} PlugFork(t: Tree, z: Path)
    requires t.Fork?
    ensures Plug(t, z).Fork?
    decreases z
  {
    if z.Step? { PlugFork(Mk(z.isLeft, t, z.node, z.red, z.sib), z.up); }
  }

  lemma {:induction false} PlugSame(a: Tree, b: Tree, z: Path)
    requires Nodes(a) == Nodes(b)
    ensures Nodes(Plug(a, z)) == Nodes(Plug(b, z))
  {
    PlugNodes(a, z);
    PlugNodes(b, z);
  }

  lemma {:induction false} PlugEl(t: Tree, z: Path)
    ensures El(Plug(t, z)) == El(t) + PathEl(z)
    decreases z
  {
    if z.Step? {
      PlugEl(Mk(z.isLeft, t, z.node, z.red, z.sib), z.up);
    }
  }

  // ----- frames -----

  lemma {:induction false} RepFrame(m: Store, m': Store, t: Tree, p: Node?)
    requires Rep(m, t, p)
    requires forall x :: x in El(t) && x in m ==> x in m' && m'[x] == m[x]
    ensures Rep(m', t, p)
  {
    if t.Fork? { RepFrame(m, m', t.left, t.node); RepFrame(m, m', t.right, t.node); }
  }

  lemma {:induction false} PathFrame(m: Store, m': Store, z: Path, child: Node?, top: Node?, p: Node?)
    requires RepPath(m, z, child, top, p)
    requires forall x :: x in PathEl(z) && x in m ==> x in m' && m'[x] == m[x]
    ensures RepPath(m', z, child, top, p)
  {
    if z.Step? {
      RepFrame(m, m', z.sib, z.node);
      PathFrame(m, m', z.up, z.node, top, p);
    }
  }

  /** The subtree hanging at `Ref(t)` gets a new parent. */
  lemma {:induction false} RepReparent(m: Store, m': Store, t: Tree, p: Node?, p': Node?)
    requires Rep(m, t, p) && Uniq(t)
    requires forall x :: x in El(t) && x in m && x != Ref(t) ==> x in m' && m'[x] == m[x]
    requires t.Fork? ==> t.node in m' && m'[t.node] == m[t.node].(parent := p')
    ensures Rep(m', t, p')
  {
    if t.Fork? { RepFrame(m, m', t.left, t.node); RepFrame(m, m', t.right, t.node); }
  }

  /** Only the child pointer of the innermost node of a path changes. */
  lemma {:induction false} PathRechild(m: Store, m': Store, z: Path, child: Node?, child': Node?, root: Node?, root': Node?)
    requires RepPath(m, z, child, root, null) && UniqPath(z)
    requires forall x :: x in PathEl(z) && x in m && x != Up(z) ==> x in m' && m'[x] == m[x]
    requires z.Step? ==> z.node in m' && m'[z.node] == (if z.isLeft then m[z.node].(left := child') else m[z.node].(right := child'))
    requires if z.Top? then root' == child' else root' == root
    ensures RepPath(m', z, child', root', null)
  {
    if z.Step? {
      RepFrame(m, m', z.sib, z.node);
      PathFrame(m, m', z.up, z.node, root, null);
    }
  }

  // ----- moving the focus -----

  lemma {:induction false} MoveUp(m: Store, root: Node?, t: Tree, z: Path)
    requires z.Step? && At(m, root, t, z)
    ensures At(m, root, Mk(z.isLeft, t, z.node, z.red, z.sib), z.up)
  {
  }

  lemma {:induction false} MoveDown(m: Store, root: Node?, d: bool, a: Tree, x: Node, c: bool, b: Tree, z: Path)
    requires At(m, root, Mk(d, a, x, c, b), z)
    ensures At(m, root, a, Step(z, d, x, c, b))
  {
  }

  lemma {:induction false} ToRoot(m: Store, root: Node?, t: Tree, z: Path)
    requires At(m, root, t, z)
    ensures At(m, root, Plug(t, z), Top)
    decreases z
  {
    if z.Step? {
      MoveUp(m, root, t, z);
      ToRoot(m, root, Mk(z.isLeft, t, z.node, z.red, z.sib), z.up);
    }
  }

  // ----- forks seen from either side -----

  lemma {:induction false} MkFacts(m: Store, d: bool, a: Tree, x: Node, c: bool, b: Tree, p: Node?)
    ensures Ref(Mk(d, a, x, c, b)) == x
    ensures El(Mk(d, a, x, c, b)) == El(a) + {x} + El(b)
    ensures Uniq(Mk(d, a, x, c, b)) <==> x !in El(a) && x !in El(b) && El(a) !! El(b) && Uniq(a) && Uniq(b)
    ensures Rep(m, Mk(d, a, x, c, b), p) <==>
            x in m && m[x] == CellOf(d, Ref(a), Ref(b), p, c) && Rep(m, a, x) && Rep(m, b, x)
  {
  }

  // ----- rotation -----

  /** `m'` keeps everything `m` says, except about the four nodes given. */
  ghost predicate Same(m: Store, m': Store, x1: Node?, x2: Node?, x3: Node?, x4: Node?) {
    forall n :: n in m && n != x1 && n != x2 && n != x3 && n != x4 ==> n in m' && m'[n] == m[n]
  }

  lemma {:induction false} SameFrame(m: Store, m': Store, t: Tree, p: Node?, x1: Node?, x2: Node?, x3: Node?, x4: Node?)
    requires Rep(m, t, p) && Same(m, m', x1, x2, x3, x4)
    requires x1 !in El(t) && x2 !in El(t) && x3 !in El(t) && x4 !in El(t)
    ensures Rep(m', t, p)
  {
    RepFrame(m, m', t, p);
  }

  lemma {:induction false} SameReparent(m: Store, m': Store, t: Tree, p: Node?, p': Node?, x1: Node?, x2: Node?, x3: Node?)
    requires Rep(m, t, p) && Uniq(t) && Same(m, m', x1, x2, Ref(t), x3)
    requires x1 !in El(t) && x2 !in El(t) && x3 !in El(t)
    requires t.Fork? && t.node in m ==> t.node in m' && m'[t.node] == m[t.node].(parent := p')
    ensures Rep(m', t, p')
  {
    RepReparent(m, m', t, p, p');
  }

  lemma {:induction false} RefIn(t: Tree)
    ensures t.Fork? ==> t.node in El(t)
    ensures Ref(t) == null || Ref(t) in El(t)
  {
  }

  lemma {:induction false} RotateUniq(d: bool, a: Tree, x: Node, cx: bool, b: Tree, y: Node, cy: bool, c: Tree)
    requires Uniq(Mk(d, a, x, cx, Mk(d, b, y, cy, c)))
    ensures Uniq(Mk(d, Mk(d, a, x, cx, b), y, cy, c))
    ensures El(Mk(d, Mk(d, a, x, cx, b), y, cy, c)) == El(Mk(d, a, x, cx, Mk(d, b, y, cy, c)))
  {
    MkFacts(map[], d, b, y, cy, c, null);
    MkFacts(map[], d, a, x, cx, Mk(d, b, y, cy, c), null);
    MkFacts(map[], d, a, x, cx, b, null);
    MkFacts(map[], d, Mk(d, a, x, cx, b), y, cy, c, null);
  }

  lemma {:induction false} RotateRep(m: Store, m': Store, d: bool, a: Tree, x: Node, cx: bool, b: Tree, y: Node,
                                     cy: bool, c: Tree, p: Node?)
    requires var t := Mk(d, a, x, cx, Mk(d, b, y, cy, c)); Rep(m, t, p) && Uniq(t) && p !in El(t)
    requires Same(m, m', x, y, Ref(b), p)
    requires x in m' && m'[x] == CellOf(d, Ref(a), Ref(b), y, cx)
    requires y in m' && m'[y] == CellOf(d, x, Ref(c), p, cy)
    requires b.Fork? && b.node in m ==> b.node in m' && m'[b.node] == m[b.node].(parent := x)
    ensures Rep(m', Mk(d, Mk(d, a, x, cx, b), y, cy, c), p)
  {
    MkFacts(m, d, b, y, cy, c, x);
    MkFacts(m, d, a, x, cx, Mk(d, b, y, cy, c), p);
    assert Rep(m', a, x) by { assert Ref(b) !in El(a) by { RefIn(b); } SameFrame(m, m', a, x, x, y, Ref(b), p); }
    assert Rep(m', c, y) by { assert Ref(b) !in El(c) by { RefIn(b); } SameFrame(m, m', c, y, x, y, Ref(b), p); }
    assert Rep(m', b, x) by { SameReparent(m, m', b, y, x, x, y, p); }
    MkFacts(m', d, a, x, cx, b, y);
    MkFacts(m', d, Mk(d, a, x, cx, b), y, cy, c, p);
  }

  /** The store after the pointer writes of a rotation of `x` towards side `d`; `a`, `b`, `c` are the subtrees' roots. */
  ghost predicate Turned(m: Store, m': Store, root: Node?, root': Node?, d: bool,
                         a: Node?, x: Node, cx: bool, b: Node?, y: Node, cy: bool, c: Node?, z: Path) {
    ( && Same(m, m', x, y, b, Up(z))
      && x in m' && m'[x] == CellOf(d, a, b, y, cx)
      && y in m' && m'[y] == CellOf(d, x, c, Up(z), cy)
      && (b != null && b in m ==> b in m' && m'[b] == m[b].(parent := x))
      && (z.Step? && z.node in m ==>
            z.node in m' && m'[z.node] == (if z.isLeft then m[z.node].(left := y) else m[z.node].(right := y)))
      && root' == (if z.Top? then y else root)) == true  // one fact: the verifier does not split it
  }

  /** Rotating at the focus turns `a x (b y c)` into `(a x b) y c`, or the mirror image, wherever it hangs. */
  lemma {:induction false} RotateAt(m: Store, m': Store, root: Node?, root': Node?, d: bool,
                                    a: Tree, x: Node, cx: bool, b: Tree, y: Node, cy: bool, c: Tree, z: Path)
    requires At(m, root, Mk(d, a, x, cx, Mk(d, b, y, cy, c)), z)
    requires Turned(m, m', root, root', d, Ref(a), x, cx, Ref(b), y, cy, Ref(c), z)
    ensures At(m', root', Mk(d, Mk(d, a, x, cx, b), y, cy, c), z)
  {
    MkFacts(m, d, b, y, cy, c, x);
    MkFacts(m, d, a, x, cx, Mk(d, b, y, cy, c), Up(z));
    RotateUniq(d, a, x, cx, b, y, cy, c);
    RotateRep(m, m', d, a, x, cx, b, y, cy, c, Up(z));
    assert RepPath(m', z, y, root', null) by {
      RefIn(b);
      PathRechild(m, m', z, x, y, root, root');
    }
    MkFacts(m', d, Mk(d, a, x, cx, b), y, cy, c, Up(z));
  }
}
