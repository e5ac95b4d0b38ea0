/**
 Taking a node out of the abstract tree: unlinking a node with at most one child, and putting the
 successor in the place of a node with two.
 */
module RbRemove {
  import opened RbShape
  import opened RbBalance

  // ----- a path inside a path -----

  ghost function Cat(w: Path, base: Path): Path {
    match w
    case Top => base
    case Step(u, d, x, c, s) => Step(Cat(u, base), d, x, c, s)
  }

  ghost predicate AllLeft(w: Path) {
    w.Top? || (w.isLeft && AllLeft(w.up))
  }

  ghost predicate AllRight(w: Path) {
    w.Top? || (!w.isLeft && AllRight(w.up))
  }

  /** The outermost node of a path, or `child` if there is none. */
  ghost function Outer(w: Path, child: Node?): Node? {
    match w
    case Top => child
    case Step(u, _, x, _, _) => Outer(u, x)
  }

  lemma {:induction false} OuterIn(w: Path, child: Node?)
    ensures w.Step? ==> Outer(w, child) in PathEl(w)
    ensures w.Step? || child != null ==> Outer(w, child) != null
  {
    if w.Step? && w.up.Step? { OuterIn(w.up, w.node); }
  }

  lemma {:induction false} CatEl(w: Path, base: Path)
    ensures PathEl(Cat(w, base)) == PathEl(w) + PathEl(base)
    ensures UniqPath(Cat(w, base)) <==> UniqPath(w) && UniqPath(base) && PathEl(w) !! PathEl(base)
  {
    if w.Step? { CatEl(w.up, base); }
  }

  lemma {:induction false} CatRep(m: Store, w: Path, base: Path, child: Node?, root: Node?)
    ensures RepPath(m, Cat(w, base), child, root, null) <==>
            RepPath(m, w, child, Outer(w, child), Up(base)) && RepPath(m, base, Outer(w, child), root, null)
  {
    if w.Step? { CatRep(m, w.up, base, w.node, root); }
  }

  lemma {:induction false} CatOrder(w: Path, base: Path)
    requires AllLeft(w)
    ensures Before(Cat(w, base)) == Before(base) && After(Cat(w, base)) == After(w) + After(base)
  {
    if w.Step? {
      CatOrder(w.up, base);
      assert [w.node] + Nodes(w.sib) + (After(w.up) + After(base)) == [w.node] + Nodes(w.sib) + After(w.up) + After(base);
    } else {
      assert After(w) + After(base) == After(base);
    }
  }

  lemma {:induction false} CatOrderRight(w: Path, base: Path)
    requires AllRight(w)
    ensures After(Cat(w, base)) == After(base) && Before(Cat(w, base)) == Before(base) + Before(w)
  {
    if w.Step? {
      CatOrderRight(w.up, base);
      assert Before(base) + Before(w.up) + Nodes(w.sib) + [w.node] == Before(base) + (Before(w.up) + Nodes(w.sib) + [w.node]);
    } else {
      assert Before(base) + Before(w) == Before(base);
    }
  }

  /** Colours and heights do not depend on which node stands at a place. */
  lemma {:induction false} CatFits(w: Path, base: Path, base': Path, h: nat)
    requires base.Step? && base'.Step? && base' == base.(node := base'.node)
    ensures Fits(Cat(w, base), h) <==> Fits(Cat(w, base'), h)
    ensures BlackTop(Cat(w, base)) <==> BlackTop(Cat(w, base'))
    ensures RedUp(Cat(w, base)) <==> RedUp(Cat(w, base'))
  {
    if w.Step? { CatFits(w.up, base, base', h + if w.red then 0 else 1); }
  }

  /** Only the outermost node of a path gets a new parent. */
  lemma {:induction false} OuterReparent(m: Store, m': Store, w: Path, child: Node?, top: Node?, p: Node?, p': Node?)
    requires RepPath(m, w, child, top, p) && UniqPath(w)
    requires forall x :: x in PathEl(w) && x in m && x != Outer(w, null) ==> x in m' && m'[x] == m[x]
    requires w.Step? && Outer(w, null) in m ==> Outer(w, null) in m' && m'[Outer(w, null)] == m[Outer(w, null)].(parent := p')
    ensures RepPath(m', w, child, top, p')
  {
    if w.Step? {
      OuterIn(w, null);
      if w.up.Step? { OuterIn(w.up, w.node); OuterSame(w.up, w.node, null); }
      RepFrame(m, m', w.sib, w.node);
      OuterReparent(m, m', w.up, w.node, top, p, p');
    }
  }

  lemma {:induction false} OuterSame(w: Path, a: Node?, b: Node?)
    ensures w.Step? ==> Outer(w, a) == Outer(w, b)
  {
  }

  // ----- unlinking a node with at most one child -----

  /** `x` has been taken out from above its only child `c`. */
  ghost predicate Unlinked(m: Store, m': Store, root: Node?, root': Node?, c: Node?, x: Node, z: Path) {
    ( && Same(m, m', x, c, Up(z), null)
      && (c != null && c in m ==> c in m' && m'[c] == m[c].(parent := Up(z)))
      && (z.Step? && z.node in m ==>
            z.node in m' && m'[z.node] == (if z.isLeft then m[z.node].(left := c) else m[z.node].(right := c)))
      && root' == (if z.Top? then c else root)) == true  // one fact: the verifier does not split it
  }

  lemma {:induction false} UnlinkAt(m: Store, m': Store, root: Node?, root': Node?, d: bool, c: Tree, x: Node, cx: bool, z: Path)
    requires At(m, root, Mk(d, c, x, cx, Leaf), z) && Unlinked(m, m', root, root', Ref(c), x, z)
    ensures At(m', root', c, z)
  {
    MkFacts(m, d, c, x, cx, Leaf, Up(z));
    assert Rep(m', c, Up(z)) by { SameReparent(m, m', c, x, Up(z), x, Up(z), null); }
    assert RepPath(m', z, Ref(c), root', null) by {
      RefIn(c);
      PathRechild(m, m', z, x, Ref(c), root, root');
    }
  }

  lemma {:induction false} UnlinkBalance(d: bool, c: Tree, x: Node, cx: bool, z: Path)
    requires Placed(Mk(d, c, x, cx, Leaf), z)
    ensures if cx then Placed(c, z) else Short(c, z)
  {
    PaintBalance(c);
  }

  lemma {:induction false} UnlinkNodes(d: bool, c: Tree, x: Node, cx: bool, z: Path) returns (a: seq<Node>, b: seq<Node>)
    ensures Nodes(Plug(Mk(d, c, x, cx, Leaf), z)) == a + [x] + b && Nodes(Plug(c, z)) == a + b
  {
    PlugNodes(Mk(d, c, x, cx, Leaf), z);
    PlugNodes(c, z);
    var p, q, n := Before(z), After(z), Nodes(c);
    a, b := if d then p + n else p, if d then q else n + q;
    if d {
      assert Nodes(Mk(d, c, x, cx, Leaf)) == n + [x];
      Assoc(p, n, [x], q);
    } else {
      assert Nodes(Mk(d, c, x, cx, Leaf)) == [x] + n;
      Assoc(p, [x], n, q);
      assert p + n + q == p + (n + q);
    }
  }

  // ----- the successor takes the place of a node with two children -----

  /**
   The pointer writes that put `n`, found at the end of the left spine `w` of the right subtree of `x`,
   in the place of `x`: `l` is the left subtree of `x`, `c` the right subtree of `n`, `top` the right child of `x`.
   */
  ghost predicate Succeeded(m: Store, m': Store, root: Node?, root': Node?, l: Tree, x: Node, cx: bool, top: Node,
                            n: Node, c: Tree, w: Path, z: Path) {
    ( && (forall y :: y in m && y != x && y != n && y != Ref(l) && y != top && y != Ref(c) && y != Up(w) && y != Up(z)
            ==> y in m' && m'[y] == m[y])
      && n in m' && m'[n] == Cell(Ref(l), if w.Top? then Ref(c) else top, Up(z), cx)
      && (l.Fork? && l.node in m ==> l.node in m' && m'[l.node] == m[l.node].(parent := n))
      && (c.Fork? && c.node in m ==> c.node in m' && m'[c.node] == m[c.node].(parent := if w.Top? then n else w.node))
      && (w.Step? && top in m && top != w.node ==> top in m' && m'[top] == m[top].(parent := n))
      && (w.Step? && w.node in m ==>
            w.node in m' &&
            m'[w.node] == if w.node == top then m[w.node].(left := Ref(c), parent := n) else m[w.node].(left := Ref(c)))
      && (z.Step? && z.node in m ==>
            z.node in m' && m'[z.node] == (if z.isLeft then m[z.node].(left := n) else m[z.node].(right := n)))
      && root' == (if z.Top? then n else root)) == true  // one fact: the verifier does not split it
  }

  /** The left spine gets a new end and a new parent. */
  lemma {:induction false} SpineMoved(m: Store, m': Store, w: Path, child: Node?, child': Node?, top: Node?, p: Node?, p': Node?)
    requires w.Step? && w.isLeft && RepPath(m, w, child, top, p) && UniqPath(w) && top == Outer(w, null)
    requires forall y :: y in PathEl(w) && y in m && y != w.node && y != top ==> y in m' && m'[y] == m[y]
    requires w.node in m && w.node in m' &&
      m'[w.node] == if w.node == top then m[w.node].(left := child', parent := p') else m[w.node].(left := child')
    requires top != null && top in m && top != w.node ==> top in m' && m'[top] == m[top].(parent := p')
    ensures RepPath(m', w, child', top, p')
  {
    OuterIn(w, null);
    if w.up.Step? {
      OuterIn(w.up, w.node);
      OuterSame(w.up, w.node, null);
      OuterReparent(m, m', w.up, w.node, top, p, p');
    }
    RepFrame(m, m', w.sib, w.node);
  }

  /** The parts of a tree around a node `x` with two children whose successor is `n`. */
  ghost predicate Scattered(l: Tree, x: Node, n: Node, c: Tree, w: Path, z: Path) {
    ( && Uniq(l) && Uniq(c) && UniqPath(w) && UniqPath(z) && x != n
      && x !in El(l) && x !in El(c) && x !in PathEl(w) && x !in PathEl(z)
      && n !in El(l) && n !in El(c) && n !in PathEl(w) && n !in PathEl(z)
      && El(l) !! El(c) && El(l) !! PathEl(w) && El(l) !! PathEl(z)
      && El(c) !! PathEl(w) && El(c) !! PathEl(z) && PathEl(w) !! PathEl(z)) == true  // one fact: the verifier does not split it
  }

  lemma {:induction false} SuccessorParts(m: Store, root: Node?, l: Tree, x: Node, cx: bool, n: Node, cn: bool, c: Tree, w: Path, z: Path)
    requires At(m, root, Fork(Leaf, n, cn, c), Cat(w, Step(z, false, x, cx, l)))
    ensures Scattered(l, x, n, c, w, z)
    ensures Rep(m, c, n) && Rep(m, l, x) && RepPath(m, w, n, Outer(w, n), x) && RepPath(m, z, x, root, null)
    ensures n in m && m[n] == Cell(null, Ref(c), if w.Top? then x else w.node, cn)
    ensures x in m && m[x] == Cell(Ref(l), Outer(w, n), Up(z), cx)
  {
    var f, base := Fork(Leaf, n, cn, c), Step(z, false, x, cx, l);
    CatEl(w, base);
    CatRep(m, w, base, n, root);
    assert El(f) == {n} + El(c);
  }

  lemma {:induction false} SuccessorAt(m: Store, m': Store, root: Node?, root': Node?, l: Tree, x: Node, cx: bool, top: Node,
                                       n: Node, cn: bool, c: Tree, w: Path, z: Path)
    requires AllLeft(w) && top == Outer(w, n)
    requires At(m, root, Fork(Leaf, n, cn, c), Cat(w, Step(z, false, x, cx, l)))
    requires Succeeded(m, m', root, root', l, x, cx, top, n, c, w, z)
    ensures At(m', root', c, Cat(w, Step(z, false, n, cx, l)))
  {
    SuccessorParts(m, root, l, x, cx, n, cn, c, w, z);
    SuccessorRep(m, m', root, root', l, x, cx, top, n, c, w, z);
    var base' := Step(z, false, n, cx, l);
    assert UniqPath(Cat(w, base')) && El(c) !! PathEl(Cat(w, base')) by { CatEl(w, base'); }
    assert RepPath(m', Cat(w, base'), Ref(c), root', null) by {
      CatRep(m', w, base', Ref(c), root');
      if w.Step? { OuterSame(w, n, Ref(c)); }
    }
  }

  lemma {:induction false} SuccessorRep(m: Store, m': Store, root: Node?, root': Node?, l: Tree, x: Node, cx: bool, top: Node,
                                        n: Node, c: Tree, w: Path, z: Path)
    requires AllLeft(w) && top == Outer(w, n) && Scattered(l, x, n, c, w, z)
    requires Rep(m, c, n) && Rep(m, l, x) && RepPath(m, w, n, top, x) && RepPath(m, z, x, root, null)
    requires Succeeded(m, m', root, root', l, x, cx, top, n, c, w, z)
    ensures Rep(m', c, if w.Top? then n else w.node) && Rep(m', l, n) && RepPath(m', z, n, root', null)
    ensures w.Step? ==> RepPath(m', w, Ref(c), top, n)
  {
    SuccessorChild(m, m', root, root', l, x, cx, top, n, c, w, z);
    SuccessorLeft(m, m', root, root', l, x, cx, top, n, c, w, z);
    SuccessorPath(m, m', root, root', l, x, cx, top, n, c, w, z);
    if w.Step? {
      SuccessorSpine(m, m', root, root', l, x, cx, top, n, c, w, z);
    }
  }

  lemma {:induction false} SuccessorChild(m: Store, m': Store, root: Node?, root': Node?, l: Tree, x: Node, cx: bool, top: Node,
                                        n: Node, c: Tree, w: Path, z: Path)
    requires AllLeft(w) && top == Outer(w, n) && Scattered(l, x, n, c, w, z)
    requires Rep(m, c, n) && Succeeded(m, m', root, root', l, x, cx, top, n, c, w, z)
    ensures Rep(m', c, if w.Top? then n else w.node)
  {
    Untouched(l, x, top, n, c, w, z);
    RepReparent(m, m', c, n, if w.Top? then n else w.node);
  }

  lemma {:induction false} SuccessorLeft(m: Store, m': Store, root: Node?, root': Node?, l: Tree, x: Node, cx: bool, top: Node,
                                        n: Node, c: Tree, w: Path, z: Path)
    requires AllLeft(w) && top == Outer(w, n) && Scattered(l, x, n, c, w, z)
    requires Rep(m, l, x) && Succeeded(m, m', root, root', l, x, cx, top, n, c, w, z)
    ensures Rep(m', l, n)
  {
    Untouched(l, x, top, n, c, w, z);
    RepReparent(m, m', l, x, n);
  }

  lemma {:induction false} SuccessorPath(m: Store, m': Store, root: Node?, root': Node?, l: Tree, x: Node, cx: bool, top: Node,
                                        n: Node, c: Tree, w: Path, z: Path)
    requires AllLeft(w) && top == Outer(w, n) && Scattered(l, x, n, c, w, z)
    requires RepPath(m, z, x, root, null) && Succeeded(m, m', root, root', l, x, cx, top, n, c, w, z)
    ensures RepPath(m', z, n, root', null)
  {
    Untouched(l, x, top, n, c, w, z);
    PathRechild(m, m', z, x, n, root, root');
  }

  lemma {:induction false} SuccessorSpine(m: Store, m': Store, root: Node?, root': Node?, l: Tree, x: Node, cx: bool, top: Node,
                                          n: Node, c: Tree, w: Path, z: Path)
    requires AllLeft(w) && w.Step? && top == Outer(w, n) && Scattered(l, x, n, c, w, z) && RepPath(m, w, n, top, x)
    requires Succeeded(m, m', root, root', l, x, cx, top, n, c, w, z)
    ensures RepPath(m', w, Ref(c), top, n)
  {
    Untouched(l, x, top, n, c, w, z);
    OuterSame(w, n, null);
    SpineMoved(m, m', w, n, Ref(c), top, x, n);
  }

  /** Which of the nodes that are written lie in which part. */
  lemma {:induction false} Untouched(l: Tree, x: Node, top: Node, n: Node, c: Tree, w: Path, z: Path)
    requires top == Outer(w, n) && Scattered(l, x, n, c, w, z)
    ensures top !in El(c) && Ref(l) !in El(c) && Up(w) !in El(c) && Up(z) !in El(c) && x !in El(c) && n !in El(c)
    ensures top !in El(l) && Ref(c) !in El(l) && Up(w) !in El(l) && Up(z) !in El(l) && x !in El(l) && n !in El(l)
    ensures top !in PathEl(z) && Ref(c) !in PathEl(z) && Ref(l) !in PathEl(z) && Up(w) !in PathEl(z) && x !in PathEl(z) && n !in PathEl(z)
    ensures Ref(c) !in PathEl(w) && Ref(l) !in PathEl(w) && Up(z) !in PathEl(w) && x !in PathEl(w) && n !in PathEl(w)
    ensures (Up(z) == null || Up(z) in PathEl(z)) && (Up(w) == null || Up(w) in PathEl(w))
    ensures (Ref(l) == null || Ref(l) in El(l)) && (Ref(c) == null || Ref(c) in El(c))
    ensures w.Step? ==> top in PathEl(w)
  {
    OuterIn(w, n);
    RefIn(l);
    RefIn(c);
  }

  lemma {:induction false} SuccessorBalance(l: Tree, x: Node, cx: bool, n: Node, cn: bool, c: Tree, w: Path, z: Path)
    requires Placed(Fork(Leaf, n, cn, c), Cat(w, Step(z, false, x, cx, l)))
    ensures var z' := Cat(w, Step(z, false, n, cx, l)); if cn then Placed(c, z') else Short(c, z')
  {
    PaintBalance(c);
    var base := Step(z, false, x, cx, l);
    CatFits(w, base, base.(node := n), BlackHeight(c));
    CatFits(w, base, base.(node := n), BlackHeight(c) + 1);
  }

  lemma {:induction false} SuccessorNodes(l: Tree, x: Node, cx: bool, n: Node, cn: bool, c: Tree, w: Path, z: Path)
    returns (a: seq<Node>, b: seq<Node>)
    requires AllLeft(w)
    ensures Nodes(Plug(Fork(Leaf, n, cn, c), Cat(w, Step(z, false, x, cx, l)))) == a + [x] + b
    ensures Nodes(Plug(c, Cat(w, Step(z, false, n, cx, l)))) == a + b
  {
    var base, base' := Step(z, false, x, cx, l), Step(z, false, n, cx, l);
    var f, q := Fork(Leaf, n, cn, c), After(w) + After(z);
    PlugNodes(f, Cat(w, base));
    PlugNodes(c, Cat(w, base'));
    CatOrder(w, base);
    CatOrder(w, base');
    a, b := Before(z) + Nodes(l), [n] + (Nodes(c) + q);
    assert Nodes(f) == [n] + Nodes(c);
    Assoc(a + [x], [n], Nodes(c), q);
    Joined(a, [x], [n], Nodes(c) + q);
    Joined(a, [n], Nodes(c), q);
  }

  lemma {:induction false} Joined(a: seq<Node>, x: seq<Node>, n: seq<Node>, q: seq<Node>)
    ensures a + x + n + q == a + x + (n + q) == a + (x + (n + q))
  {
  }
}
