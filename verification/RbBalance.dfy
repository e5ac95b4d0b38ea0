/**
 Colour and height: what makes a tree red-black, and why each case of the two repair loops keeps it.
 The lemmas are about abstract trees and paths only.
 */
module RbBalance {
  import opened RbShape

  predicate IsRed(t: Tree) {
    t.Fork? && t.red
  }

  /** Black nodes on the leftmost way down. */
  function BlackHeight(t: Tree): nat {
    match t
    case Leaf => 0
    case Fork(l, _, c, _) => BlackHeight(l) + (if c then 0 else 1)
  }

  /** Equal black heights everywhere, and no red node with a red child. */
  predicate RedBlack(t: Tree) {
    match t
    case Leaf => true
    case Fork(l, _, c, r) =>
      && RedBlack(l) && RedBlack(r)
      && BlackHeight(l) == BlackHeight(r)
      && (c ==> !IsRed(l) && !IsRed(r))
  }

  predicate RedUp(z: Path) {
    z.Step? && z.red
  }

  /** A red-black tree results from putting a black-rooted red-black tree of black height `h` into the hole. */
  predicate Fits(z: Path, h: nat) {
    match z
    case Top => true
    case Step(u, _, _, c, s) =>
      && RedBlack(s) && BlackHeight(s) == h
      && (c ==> !IsRed(s) && !RedUp(u))
      && Fits(u, h + if c then 0 else 1)
  }

  /** The root, when it is on the path, is black. */
  predicate BlackTop(z: Path) {
    match z
    case Top => true
    case Step(u, _, _, c, _) => (u.Top? ==> !c) && BlackTop(u)
  }

  lemma {:induction false} MkBalance(d: bool, a: Tree, x: Node, c: bool, b: Tree)
    requires BlackHeight(a) == BlackHeight(b)
    ensures BlackHeight(Mk(d, a, x, c, b)) == BlackHeight(a) + (if c then 0 else 1)
    ensures RedBlack(Mk(d, a, x, c, b)) <==> RedBlack(a) && RedBlack(b) && (c ==> !IsRed(a) && !IsRed(b))
  {
  }

  lemma {:induction false} PlugBalance(t: Tree, z: Path)
    requires RedBlack(t) && Fits(z, BlackHeight(t)) && !(IsRed(t) && RedUp(z)) && BlackTop(z)
    ensures RedBlack(Plug(t, z)) && (z.Step? ==> !IsRed(Plug(t, z)))
    decreases z
  {
    if z.Step? {
      MkBalance(z.isLeft, t, z.node, z.red, z.sib);
      PlugBalance(Mk(z.isLeft, t, z.node, z.red, z.sib), z.up);
    }
  }

  /** A subtree of a red-black tree with a black root, and its surroundings. */
  predicate Placed(t: Tree, z: Path) {
    RedBlack(t) && Fits(z, BlackHeight(t)) && !(IsRed(t) && RedUp(z)) && BlackTop(z) && (z.Top? ==> !IsRed(t))
  }

  lemma {:induction false} Descend(d: bool, a: Tree, x: Node, c: bool, b: Tree, z: Path)
    requires Placed(Mk(d, a, x, c, b), z)
    ensures Placed(a, Step(z, d, x, c, b))
  {
  }

  lemma {:induction false} PaintBalance(t: Tree)
    requires RedBlack(t)
    ensures RedBlack(Paint(t, false))
    ensures IsRed(t) ==> BlackHeight(Paint(t, false)) == BlackHeight(t) + 1
    ensures !IsRed(t) ==> Paint(t, false) == t
    ensures Nodes(Paint(t, false)) == Nodes(t)
  {
  }

  // ----- insertion -----

  /** State of the insertion loop: the only possible fault is a red parent above the red focus. */
  predicate Inserting(t: Tree, z: Path) {
    IsRed(t) && RedBlack(t) && Fits(z, BlackHeight(t)) && BlackTop(z)
  }

  /** Whenever the parent of the focus is red, there is a grandparent, and it is black. */
  lemma {:induction false} GrandparentExists(t: Tree, z: Path)
    requires Inserting(t, z) && RedUp(z)
    ensures z.up.Step? && !z.up.red
  {
  }

  lemma {:induction false} RedUncle(t: Tree, z: Path)
    requires Inserting(t, z) && RedUp(z) && z.up.Step? && IsRed(z.up.sib)
    ensures var g := z.up;
      Inserting(Mk(g.isLeft, Mk(z.isLeft, t, z.node, false, z.sib), g.node, true, Paint(g.sib, false)), g.up)
  {
    var g := z.up;
    assert Fits(g, BlackHeight(t)) && BlackTop(g);
    MkBalance(z.isLeft, t, z.node, false, z.sib);
    PaintBalance(g.sib);
    MkBalance(g.isLeft, Mk(z.isLeft, t, z.node, false, z.sib), g.node, true, Paint(g.sib, false));
  }

  /** The focus moves to the outside before the grandparent is rotated. */
  lemma {:induction false} InnerChild(t: Tree, z: Path, near: Tree, far: Tree)
    requires Inserting(t, z) && RedUp(z) && z.up.Step?
    requires t == Mk(!z.isLeft, near, t.node, true, far)
    ensures Inserting(Mk(!z.isLeft, z.sib, z.node, true, near), Step(z.up, !z.isLeft, t.node, true, far))
  {
    MkBalance(!z.isLeft, near, t.node, true, far);
    MkBalance(!z.isLeft, z.sib, z.node, true, near);
  }

  lemma {:induction false} OuterChild(t: Tree, z: Path)
    requires Inserting(t, z) && RedUp(z) && z.up.Step? && !IsRed(z.up.sib)
    ensures var g := z.up; Inserting(t, Step(g.up, z.isLeft, z.node, false, Mk(z.isLeft, z.sib, g.node, true, g.sib)))
  {
    assert Fits(z.up, BlackHeight(t)) && BlackTop(z.up);
    MkBalance(z.isLeft, z.sib, z.up.node, true, z.up.sib);
  }

  // ----- removal -----

  /** State of the removal loop: the focus is one black node short, and painting its root black makes it sound. */
  predicate Short(t: Tree, z: Path) {
    RedBlack(Paint(t, false)) && Fits(z, BlackHeight(t) + 1) && BlackTop(z)
  }

  /** Away from the root, the short side has a sibling. */
  lemma {:induction false} SiblingExists(t: Tree, z: Path)
    requires Short(t, z) && z.Step?
    ensures z.sib.Fork?
    ensures IsRed(z.sib) ==> z.sib.left.Fork? && z.sib.right.Fork? && !z.red
  {
  }

  /** Splitting the sibling into the half next to the focus and the half away from it. */
  ghost function Near(d: bool, s: Tree): Tree
    requires s.Fork?
  {
    if d then s.left else s.right
  }

  ghost function Far(d: bool, s: Tree): Tree
    requires s.Fork?
  {
    if d then s.right else s.left
  }

  lemma {:induction false} RedSibling(t: Tree, z: Path)
    requires Short(t, z) && !IsRed(t) && z.Step? && IsRed(z.sib)
    ensures var d := z.isLeft;
      Short(t, Step(Step(z.up, d, z.sib.node, false, Far(d, z.sib)), d, z.node, true, Near(d, z.sib)))
    ensures !IsRed(Near(z.isLeft, z.sib))
  {
  }

  lemma {:induction false} BlackNephews(t: Tree, z: Path)
    requires Short(t, z) && !IsRed(t) && z.Step? && z.sib.Fork? && !z.sib.red && !IsRed(z.sib.left) && !IsRed(z.sib.right)
    ensures Short(Mk(z.isLeft, t, z.node, z.red, Paint(z.sib, true)), z.up)
  {
    assert RedBlack(z.sib);
    MkBalance(z.isLeft, t, z.node, z.red, Paint(z.sib, true));
  }

  /** A red near nephew with a black far one is turned into the case of a red far nephew. */
  lemma {:induction false} RedNearNephew(t: Tree, z: Path, n: Tree)
    requires Short(t, z) && z.Step? && z.sib.Fork? && !z.sib.red
    requires n == Near(z.isLeft, z.sib) && IsRed(n) && !IsRed(Far(z.isLeft, z.sib))
    ensures var d := z.isLeft; var s := z.sib;
      Short(t, z.(sib := Mk(d, Near(d, n), n.node, false, Mk(d, Far(d, n), s.node, true, Far(d, s)))))
  {
    var d, s := z.isLeft, z.sib;
    assert RedBlack(s) && RedBlack(n);
    MkBalance(d, Far(d, n), s.node, true, Far(d, s));
    MkBalance(d, Near(d, n), n.node, false, Mk(d, Far(d, n), s.node, true, Far(d, s)));
  }

  lemma {:induction false} RedFarNephew(t: Tree, z: Path)
    requires Short(t, z) && z.Step? && z.sib.Fork? && !z.sib.red && IsRed(Far(z.isLeft, z.sib)) && !IsRed(t)
    ensures var d := z.isLeft; var s := z.sib;
      var t' := Mk(d, Mk(d, t, z.node, false, Near(d, s)), s.node, z.red, Paint(Far(d, s), false));
      Placed(t', z.up)
  {
    var d, s := z.isLeft, z.sib;
    MkBalance(d, t, z.node, false, Near(d, s));
    PaintBalance(Far(d, s));
    MkBalance(d, Mk(d, t, z.node, false, Near(d, s)), s.node, z.red, Paint(Far(d, s), false));
  }

  // ----- height -----

  function Height(t: Tree): nat {
    match t
    case Leaf => 0
    case Fork(l, _, _, r) => 1 + if Height(l) < Height(r) then Height(r) else Height(l)
  }

  function Pow2(n: nat): nat {
    if n == 0 then 1 else 2 * Pow2(n - 1)
  }

  lemma {:induction false} SizeBound(t: Tree)
    requires RedBlack(t)
    ensures Pow2(BlackHeight(t)) <= |Nodes(t)| + 1
    ensures Height(t) <= 2 * BlackHeight(t) + (if IsRed(t) then 1 else 0)
  {
    if t.Fork? {
      SizeBound(t.left);
      SizeBound(t.right);
    }
  }

  lemma {:induction false} Pow2Add(a: nat, b: nat)
    ensures Pow2(a + b) == Pow2(a) * Pow2(b)
  {
    if a > 0 { Pow2Add(a - 1, b); }
  }

  lemma {:induction false} Pow2Mono(a: nat, b: nat)
    requires a <= b
    ensures Pow2(a) <= Pow2(b)
  {
    if a < b { Pow2Mono(a, b - 1); }
  }

  lemma {:induction false} SquareMono(a: nat, b: nat)
    requires a <= b
    ensures a * a <= b * b
  {
    assert a * a <= a * b <= b * b;
  }

  /** A red-black tree with n nodes and a black root is at most 2 * log2(n + 1) high. */
  lemma {:induction false} HeightBound(t: Tree)
    requires RedBlack(t) && !IsRed(t)
    ensures Pow2(Height(t)) <= (|Nodes(t)| + 1) * (|Nodes(t)| + 1)
  {
    SizeBound(t);
    var h, n := BlackHeight(t), |Nodes(t)| + 1;
    Pow2Mono(Height(t), h + h);
    Pow2Add(h, h);
    SquareMono(Pow2(h), n);
  }
}
