/** Ghost shapes of the intrusive red-black tree of src/gf_rbtree.c.

    A Shape mirrors the nodes reachable from the root; a Ctx is the path from a
    position in the tree back to the root, with everything hanging off that path.
    Everything in this file is about values only; RbTree.dfy ties it to the heap. */
module RbShape {

  /** A tree node, embedded by the program in the record it orders. */
  class RbNode {
    var left: RbNode?
    var right: RbNode?
    var parent: RbNode?
    var key: int
    var data: object?
    var red: bool

    constructor ()
      ensures left == right == parent == null && data == null && key == 0
    {
      left, right, parent, key, data := null, null, null, 0, null;
    }
  }

  datatype Shape =
    | Leaf
    | Fork(left: Shape, node: RbNode, red: bool, right: Shape)

  /** InLeft: the hole is the left child of node; InRight: the right child. */
  datatype Ctx =
    | Top
    | InLeft(up: Ctx, node: RbNode, red: bool, other: Shape)
    | InRight(up: Ctx, other: Shape, node: RbNode, red: bool)

  ghost function Nodes(t: Shape): (s: set<RbNode>)
    ensures t.Fork? ==> t.node in s
  {
    match t
    case Leaf => {}
    case Fork(l, n, _, r) => Nodes(l) + {n} + Nodes(r)
  }

  ghost function CtxNodes(c: Ctx): set<RbNode> {
    if c.Top? then {} else CtxNodes(c.up) + {c.node} + Nodes(c.other)
  }

  ghost function Inorder(t: Shape): seq<RbNode> {
    match t
    case Leaf => []
    case Fork(l, n, _, r) => Inorder(l) + [n] + Inorder(r)
  }

  /** What comes before the hole in order ... */
  ghost function Pre(c: Ctx): seq<RbNode> {
    match c
    case Top => []
    case InLeft(up, _, _, _) => Pre(up)
    case InRight(up, l, n, _) => Pre(up) + Inorder(l) + [n]
  }

  /** ... and after it. */
  ghost function Post(c: Ctx): seq<RbNode> {
    match c
    case Top => []
    case InLeft(up, n, _, r) => [n] + Inorder(r) + Post(up)
    case InRight(up, _, _, _) => Post(up)
  }

  /** One level of filling the hole. */
  ghost function Fill(c: Ctx, t: Shape): Shape
    requires !c.Top?
  {
    if c.InLeft? then Fork(t, c.node, c.red, c.other) else Fork(c.other, c.node, c.red, t)
  }

  ghost function Plug(c: Ctx, t: Shape): Shape {
    if c.Top? then t else Plug(c.up, Fill(c, t))
  }

  /** The path p continued upwards by c. */
  ghost function Compose(p: Ctx, c: Ctx): Ctx {
    match p
    case Top => c
    case InLeft(up, n, red, r) => InLeft(Compose(up, c), n, red, r)
    case InRight(up, l, n, red) => InRight(Compose(up, c), l, n, red)
  }

  ghost function Depth(c: Ctx): nat {
    if c.Top? then 0 else 1 + Depth(c.up)
  }

  ghost predicate AllLeft(c: Ctx) {
    c.Top? || (c.InLeft? && AllLeft(c.up))
  }

  lemma {:induction false} PlugInorder(c: Ctx, t: Shape)
    ensures Inorder(Plug(c, t)) == Pre(c) + Inorder(t) + Post(c)
    decreases c
  {
    if !c.Top? {
      PlugInorder(c.up, Fill(c, t));
    }
  }

  lemma {:induction false} PlugNodes(c: Ctx, t: Shape)
    ensures Nodes(Plug(c, t)) == CtxNodes(c) + Nodes(t)
    decreases c
  {
    if !c.Top? {
      PlugNodes(c.up, Fill(c, t));
    }
  }

  lemma {:induction false} PlugCompose(p: Ctx, c: Ctx, t: Shape)
    ensures Plug(Compose(p, c), t) == Plug(c, Plug(p, t))
    decreases p
  {
    if !p.Top? {
      PlugCompose(p.up, c, Fill(p, t));
    }
  }

  lemma {:induction false} ComposeTop(c: Ctx)
    ensures Compose(c, Top) == c
  {
    if !c.Top? { ComposeTop(c.up); }
  }

  lemma {:induction false} InorderNodes(t: Shape, n: RbNode)
    ensures n in Nodes(t) <==> n in Inorder(t)
  {
    if t.Fork? {
      InorderNodes(t.left, n);
      InorderNodes(t.right, n);
    }
  }

  lemma {:induction false} AllLeftPre(c: Ctx)
    requires AllLeft(c)
    ensures Pre(c) == []
  {
    if !c.Top? { AllLeftPre(c.up); }
  }

  lemma FirstInOrder(p: Ctx, t: Shape)
    requires AllLeft(p) && t.Fork? && t.left.Leaf?
    ensures |Inorder(Plug(p, t))| > 0 && Inorder(Plug(p, t))[0] == t.node && t.node in Nodes(Plug(p, t))
  {
    AllLeftPre(p);
    PlugInorder(p, t);
    PlugNodes(p, t);
  }

  /** Every member has a path to it. */
  lemma {:induction false} Locate(t: Shape, n: RbNode) returns (p: Ctx, sub: Shape)
    requires n in Nodes(t)
    ensures Plug(p, sub) == t && sub.Fork? && sub.node == n
    decreases t
  {
    if t.node == n {
      p, sub := Top, t;
    } else if n in Nodes(t.left) {
      var q, s := Locate(t.left, n);
      p, sub := Compose(q, InLeft(Top, t.node, t.red, t.right)), s;
      PlugCompose(q, InLeft(Top, t.node, t.red, t.right), s);
      assert Plug(InLeft(Top, t.node, t.red, t.right), t.left) == Plug(Top, t);
    } else {
      var q, s := Locate(t.right, n);
      p, sub := Compose(q, InRight(Top, t.left, t.node, t.red)), s;
      PlugCompose(q, InRight(Top, t.left, t.node, t.red), s);
      assert Plug(InRight(Top, t.left, t.node, t.red), t.right) == Plug(Top, t);
    }
  }

  lemma PlugLeaf(c: Ctx, n: RbNode)
    ensures Inorder(Plug(c, Leaf)) == Pre(c) + Post(c) && Nodes(Plug(c, Leaf)) == CtxNodes(c)
    ensures Inorder(Plug(c, Fork(Leaf, n, true, Leaf))) == Pre(c) + [n] + Post(c)
    ensures Nodes(Plug(c, Fork(Leaf, n, true, Leaf))) == CtxNodes(c) + {n}
    ensures !c.Top? ==> c.node in CtxNodes(c)
  {
    PlugInorder(c, Leaf);
    PlugNodes(c, Leaf);
    PlugInorder(c, Fork(Leaf, n, true, Leaf));
    PlugNodes(c, Fork(Leaf, n, true, Leaf));
    assert Pre(c) + Inorder(Leaf) == Pre(c);
  }

  // ---------- distinctness ----------

  ghost predicate Sep(t: Shape) {
    t.Fork? ==>
      && Sep(t.left) && Sep(t.right)
      && t.node !in Nodes(t.left) && t.node !in Nodes(t.right)
      && Nodes(t.left) !! Nodes(t.right)
  }

  ghost predicate SepCtx(c: Ctx) {
    !c.Top? ==>
      && SepCtx(c.up) && Sep(c.other)
      && c.node !in CtxNodes(c.up) && c.node !in Nodes(c.other)
      && CtxNodes(c.up) !! Nodes(c.other)
  }

  ghost predicate NoDuplicates(s: seq<RbNode>) {
    forall i, j :: 0 <= i < j < |s| ==> s[i] != s[j]
  }

  lemma JoinNoDuplicates(a: seq<RbNode>, n: RbNode, b: seq<RbNode>)
    requires NoDuplicates(a) && NoDuplicates(b) && n !in a && n !in b
    requires forall x :: x in a ==> x !in b
    ensures NoDuplicates(a + [n] + b)
  {
    var s := a + [n] + b;
    forall i, j | 0 <= i < j < |s| ensures s[i] != s[j] {
      if j < |a| {
      } else if j == |a| {
        assert s[i] in a && s[j] == n;
      } else {
        assert s[j] == b[j - |a| - 1] && s[j] in b;
        if i < |a| { assert s[i] in a; }
      }
    }
  }

  lemma NodesFork(l: Shape, n: RbNode, red: bool, r: Shape)
    ensures Nodes(Fork(l, n, red, r)) == Nodes(l) + {n} + Nodes(r)
    ensures Inorder(Fork(l, n, red, r)) == Inorder(l) + [n] + Inorder(r)
    ensures Sep(Fork(l, n, red, r)) <==>
      Sep(l) && Sep(r) && n !in Nodes(l) && n !in Nodes(r) && Nodes(l) !! Nodes(r)
  {
  }

  /** A rotation keeps the order and the node set. The two trees share one order. */
  lemma RotationKeeps(a: Shape, x: RbNode, xRed: bool, b: Shape, y: RbNode, yRed: bool, d: Shape)
    ensures var before, after := Fork(a, x, xRed, Fork(b, y, yRed, d)), Fork(Fork(a, x, xRed, b), y, yRed, d);
      && (Sep(before) <==> Sep(after))
      && Nodes(before) == Nodes(after)
      && Inorder(before) == Inorder(after)
  {
    hide Nodes, Inorder, Sep;
    NodesFork(b, y, yRed, d);
    NodesFork(a, x, xRed, Fork(b, y, yRed, d));
    NodesFork(a, x, xRed, b);
    NodesFork(Fork(a, x, xRed, b), y, yRed, d);
    assert Inorder(a) + [x] + (Inorder(b) + [y] + Inorder(d)) == (Inorder(a) + [x] + Inorder(b)) + [y] + Inorder(d);
  }

  lemma {:induction false} SepNoDuplicates(t: Shape)
    requires Sep(t)
    ensures NoDuplicates(Inorder(t))
  {
    if t.Fork? {
      SepNoDuplicates(t.left);
      SepNoDuplicates(t.right);
      InorderNodes(t.left, t.node);
      InorderNodes(t.right, t.node);
      forall x | x in Inorder(t.left) ensures x !in Inorder(t.right) {
        InorderNodes(t.left, x);
        InorderNodes(t.right, x);
      }
      JoinNoDuplicates(Inorder(t.left), t.node, Inorder(t.right));
    }
  }

  // ---------- colours and black heights ----------

  ghost predicate IsRed(t: Shape) { t.Fork? && t.red }

  ghost function Paint(t: Shape, red: bool): Shape
    requires t.Fork?
  {
    Fork(t.left, t.node, red, t.right)
  }

  /** t has no red node with a red child, and h black nodes on every path down. */
  ghost predicate Balanced(t: Shape, h: int) {
    match t
    case Leaf => h == 0
    case Fork(l, _, red, r) =>
      if red then !IsRed(l) && !IsRed(r) && Balanced(l, h) && Balanced(r, h)
      else Balanced(l, h - 1) && Balanced(r, h - 1)
  }

  ghost function BlackHeight(t: Shape): int {
    if t.Leaf? then 0 else BlackHeight(t.left) + (if t.red then 0 else 1)
  }

  lemma {:induction false} BlackHeightUnique(t: Shape, h: int)
    requires Balanced(t, h)
    ensures h == BlackHeight(t)
  {
    if t.Fork? { BlackHeightUnique(t.left, if t.red then h else h - 1); }
  }

  /** As Balanced, but a red root may have red children. */
  ghost predicate Loose(t: Shape, h: int) {
    match t
    case Leaf => h == 0
    case Fork(l, _, red, r) =>
      if red then Balanced(l, h) && Balanced(r, h)
      else Balanced(l, h - 1) && Balanced(r, h - 1)
  }

  /** The context is balanced around a hole of black height h; its root is black. */
  ghost predicate CtxBalanced(c: Ctx, h: int) {
    !c.Top? ==>
      && Balanced(c.other, h)
      && (c.red ==> !IsRed(c.other) && !c.up.Top? && !c.up.red)
      && CtxBalanced(c.up, if c.red then h else h + 1)
  }

  ghost predicate Suits(c: Ctx, t: Shape) {
    IsRed(t) ==> !c.Top? && !c.red
  }

  lemma {:induction false} Close(c: Ctx, t: Shape, h: int) returns (total: int)
    requires CtxBalanced(c, h) && Balanced(t, h) && Suits(c, t)
    ensures Balanced(Plug(c, t), total) && !IsRed(Plug(c, t))
    decreases c
  {
    if c.Top? {
      total := h;
    } else {
      total := Close(c.up, Fill(c, t), if c.red then h else h + 1);
    }
  }

  lemma {:induction false} Open(c: Ctx, t: Shape, total: int) returns (h: int)
    requires Balanced(Plug(c, t), total) && !IsRed(Plug(c, t))
    ensures CtxBalanced(c, h) && Balanced(t, h) && Suits(c, t)
    decreases c
  {
    if c.Top? {
      h := total;
    } else {
      var k := Open(c.up, Fill(c, t), total);
      h := if c.red then k else k - 1;
    }
  }

  /** Balance does not depend on which node sits at a frame. */
  lemma {:induction false} CtxBalancedRename(p: Ctx, c: Ctx, l: Shape, n: RbNode, m: RbNode, red: bool, h: int)
    requires CtxBalanced(Compose(p, InRight(c, l, n, red)), h)
    ensures CtxBalanced(Compose(p, InRight(c, l, m, red)), h)
    ensures var a, b := Compose(p, InRight(c, l, n, red)), Compose(p, InRight(c, l, m, red));
      a.red == b.red
    decreases p
  {
    if !p.Top? {
      CtxBalancedRename(p.up, c, l, n, m, red, if p.red then h else h + 1);
    }
  }

  // ---------- height ----------

  ghost function Height(t: Shape): nat {
    match t
    case Leaf => 0
    case Fork(l, _, _, r) => 1 + (if Height(l) < Height(r) then Height(r) else Height(l))
  }

  ghost function Pow2(n: nat): nat {
    if n == 0 then 1 else 2 * Pow2(n - 1)
  }

  lemma {:induction false} Pow2Mono(a: nat, b: nat)
    requires a <= b
    ensures Pow2(a) <= Pow2(b)
    decreases b
  {
    if a < b { Pow2Mono(a, b - 1); }
  }

  lemma {:induction false} Pow2Double(a: nat)
    ensures Pow2(2 * a) == Pow2(a) * Pow2(a)
  {
    if a > 0 { Pow2Double(a - 1); }
  }

  lemma {:induction false} BalancedBounds(t: Shape, h: int)
    requires Balanced(t, h)
    ensures 0 <= h
    ensures Height(t) <= 2 * h + (if IsRed(t) then 1 else 0)
    ensures Pow2(h) <= |Inorder(t)| + 1
  {
    if t.Fork? {
      var k := if t.red then h else h - 1;
      BalancedBounds(t.left, k);
      BalancedBounds(t.right, k);
    }
  }

  lemma SquareMono(a: nat, b: nat)
    requires a <= b
    ensures a * a <= b * b
  {
    assert b * b == a * a + (b - a) * (a + b);
  }

  /** No path is longer than 2 * log2(n + 1). */
  lemma HeightBound(t: Shape, h: int)
    requires Balanced(t, h) && !IsRed(t)
    ensures Pow2(Height(t)) <= (|Inorder(t)| + 1) * (|Inorder(t)| + 1)
  {
    BalancedBounds(t, h);
    Pow2Mono(Height(t), 2 * h);
    Pow2Double(h);
    SquareMono(Pow2(h), |Inorder(t)| + 1);
  }

  lemma {:induction false} DepthHeight(c: Ctx, t: Shape)
    ensures Depth(c) + Height(t) <= Height(Plug(c, t))
    decreases c
  {
    if !c.Top? { DepthHeight(c.up, Fill(c, t)); }
  }

  // ---------- one round of the insertion fix-up, on shapes ----------

  /** The red uncle's round: parent and uncle turn black, grandparent red. */
  lemma RecoloredUp(c: Ctx, t: Shape, h: int)
    requires !c.Top? && c.red && CtxBalanced(c, h) && Balanced(t, h) && IsRed(t)
    requires IsRed(c.up.other)
    ensures var g := if c.up.InLeft? then Fork(Paint(Fill(c, t), false), c.up.node, true, Paint(c.up.other, false))
                     else Fork(Paint(c.up.other, false), c.up.node, true, Paint(Fill(c, t), false));
      && Balanced(g, h + 1) && CtxBalanced(c.up.up, h + 1)
      && Inorder(Plug(c.up.up, g)) == Inorder(Plug(c, t)) && Nodes(Plug(c.up.up, g)) == Nodes(Plug(c, t))
  {
    var before := Fill(c.up, Fill(c, t));
    assert Plug(c, t) == Plug(c.up.up, before);
    var g := if c.up.InLeft? then Fork(Paint(Fill(c, t), false), c.up.node, true, Paint(c.up.other, false))
             else Fork(Paint(c.up.other, false), c.up.node, true, Paint(Fill(c, t), false));
    PaintKeeps(Fill(c, t), false);
    PaintKeeps(c.up.other, false);
    PlugSame(c.up.up, before, g);
  }

  lemma PaintKeeps(t: Shape, red: bool)
    requires t.Fork?
    ensures Inorder(Paint(t, red)) == Inorder(t) && Nodes(Paint(t, red)) == Nodes(t)
  {
  }

  /** Two subtrees with one order and one node set can stand for each other. */
  lemma PlugSame(c: Ctx, t: Shape, u: Shape)
    requires Inorder(t) == Inorder(u) && Nodes(t) == Nodes(u)
    ensures Inorder(Plug(c, t)) == Inorder(Plug(c, u)) && Nodes(Plug(c, t)) == Nodes(Plug(c, u))
  {
    PlugInorder(c, t);
    PlugInorder(c, u);
    PlugNodes(c, t);
    PlugNodes(c, u);
  }

  /** The last round when the grandparent's left child is red: t below p below g. */
  lemma TurnedRight(c: Ctx, t: Shape, p: RbNode, x: Shape, g: RbNode, u: Shape, h: int)
    requires Balanced(t, h) && IsRed(t) && Balanced(x, h) && !IsRed(x) && Balanced(u, h) && !IsRed(u)
    requires CtxBalanced(c, h + 1)
    ensures CtxBalanced(InLeft(c, p, false, Fork(x, g, true, u)), h)
    ensures var a, b := Fork(Fork(t, p, true, x), g, false, u), Fork(t, p, false, Fork(x, g, true, u));
      Inorder(Plug(c, a)) == Inorder(Plug(c, b)) && Nodes(Plug(c, a)) == Nodes(Plug(c, b))
  {
    var a, b := Fork(Fork(t, p, true, x), g, false, u), Fork(t, p, false, Fork(x, g, true, u));
    RotationKeeps(t, p, false, x, g, true, u);
    PaintKeeps(Fork(t, p, true, x), false);
    assert Inorder(a) == Inorder(Fork(Fork(t, p, false, x), g, true, u));
    PlugSame(c, a, b);
  }

  lemma TurnedLeft(c: Ctx, t: Shape, p: RbNode, x: Shape, g: RbNode, u: Shape, h: int)
    requires Balanced(t, h) && IsRed(t) && Balanced(x, h) && !IsRed(x) && Balanced(u, h) && !IsRed(u)
    requires CtxBalanced(c, h + 1)
    ensures CtxBalanced(InRight(c, Fork(u, g, true, x), p, false), h)
    ensures var a, b := Fork(u, g, false, Fork(x, p, true, t)), Fork(Fork(u, g, true, x), p, false, t);
      Inorder(Plug(c, a)) == Inorder(Plug(c, b)) && Nodes(Plug(c, a)) == Nodes(Plug(c, b))
  {
    var a, b := Fork(u, g, false, Fork(x, p, true, t)), Fork(Fork(u, g, true, x), p, false, t);
    RotationKeeps(u, g, true, x, p, false, t);
    PaintKeeps(Fork(x, p, true, t), false);
    assert Inorder(a) == Inorder(Fork(u, g, true, Fork(x, p, false, t)));
    PlugSame(c, a, b);
  }

  lemma {:induction false} PlugFork(c: Ctx, t: Shape)
    requires t.Fork?
    ensures Plug(c, t).Fork?
    decreases c
  {
    if !c.Top? { PlugFork(c.up, Fill(c, t)); }
  }

  /** Blackening the root ends the fix-up. */
  lemma Blackened(c: Ctx, t: Shape, h: int) returns (total: int)
    requires Balanced(t, h) && IsRed(t) && CtxBalanced(c, h) && (!c.Top? ==> !c.red)
    ensures Plug(c, t).Fork? && Balanced(Paint(Plug(c, t), false), total)
  {
    if c.Top? {
      total := h + 1;
    } else {
      total := Close(c, t, h);
    }
    PlugFork(c, t);
  }

  // ---------- one round of the deletion fix-up, on shapes ----------

  /** t is one black node short for its place in c; a red root of t may still have
      red children. */
  ghost predicate Short(c: Ctx, t: Shape, h: int) {
    Loose(t, h) && CtxBalanced(c, h + 1)
  }

  ghost predicate SameOrder(t: Shape, u: Shape) {
    Inorder(t) == Inorder(u) && Nodes(t) == Nodes(u)
  }

  lemma ShortSibling(c: Ctx, t: Shape, h: int)
    requires !c.Top? && Short(c, t, h)
    ensures c.other.Fork?
    ensures IsRed(c.other) ==>
      !c.red && c.other.left.Fork? && c.other.right.Fork? && !IsRed(c.other.left) && !IsRed(c.other.right)
  {
    LooseBound(t, h);
    assert Balanced(c.other, h + 1);
    if IsRed(c.other) {
      assert Balanced(c.other.left, h + 1) && Balanced(c.other.right, h + 1);
    }
  }

  lemma LooseBound(t: Shape, h: int)
    requires Loose(t, h)
    ensures 0 <= h
  {
    if t.Fork? { BalancedBounds(t.left, if t.red then h else h - 1); }
  }

  /** A red sibling on the right is rotated away. */
  lemma RedSiblingRight(up: Ctx, t: Shape, p: RbNode, wl: Shape, w: RbNode, wr: Shape, h: int)
    requires Short(InLeft(up, p, false, Fork(wl, w, true, wr)), t, h)
    ensures Short(InLeft(InLeft(up, w, false, wr), p, true, wl), t, h) && wl.Fork? && !IsRed(wl)
    ensures SameOrder(Plug(InLeft(InLeft(up, w, false, wr), p, true, wl), t),
                      Plug(InLeft(up, p, false, Fork(wl, w, true, wr)), t))
  {
    LooseBound(t, h);
    var a, b := Fork(t, p, false, Fork(wl, w, true, wr)), Fork(Fork(t, p, true, wl), w, false, wr);
    RotationKeeps(t, p, true, wl, w, false, wr);
    PaintKeeps(Fork(wl, w, true, wr), false);
    assert Inorder(a) == Inorder(Fork(t, p, true, Fork(wl, w, false, wr)));
    PlugSame(up, a, b);
  }

  lemma RedSiblingLeft(up: Ctx, t: Shape, p: RbNode, wl: Shape, w: RbNode, wr: Shape, h: int)
    requires Short(InRight(up, Fork(wl, w, true, wr), p, false), t, h)
    ensures Short(InRight(InRight(up, wl, w, false), wr, p, true), t, h) && wr.Fork? && !IsRed(wr)
    ensures SameOrder(Plug(InRight(InRight(up, wl, w, false), wr, p, true), t),
                      Plug(InRight(up, Fork(wl, w, true, wr), p, false), t))
  {
    LooseBound(t, h);
    var a, b := Fork(Fork(wl, w, true, wr), p, false, t), Fork(wl, w, false, Fork(wr, p, true, t));
    RotationKeeps(wl, w, false, wr, p, true, t);
    PaintKeeps(Fork(wl, w, true, wr), false);
    assert Inorder(a) == Inorder(Fork(Fork(wl, w, false, wr), p, true, t));
    PlugSame(up, a, b);
  }

  /** Black nephews: the sibling turns red and the shortage moves up. */
  lemma ShortageUp(c: Ctx, t: Shape, h: int)
    requires !c.Top? && Short(c, t, h) && !IsRed(t)
    requires c.other.Fork? && !c.other.red && !IsRed(c.other.left) && !IsRed(c.other.right)
    ensures var u := if c.InLeft? then Fork(t, c.node, c.red, Paint(c.other, true))
                     else Fork(Paint(c.other, true), c.node, c.red, t);
      Short(c.up, u, if c.red then h else h + 1) && SameOrder(Plug(c.up, u), Plug(c, t))
  {
    var u := if c.InLeft? then Fork(t, c.node, c.red, Paint(c.other, true))
             else Fork(Paint(c.other, true), c.node, c.red, t);
    PaintKeeps(c.other, true);
    PlugSame(c.up, u, Fill(c, t));
  }

  /** Only the near nephew is red: a rotation of the sibling makes it the far one. */
  lemma NearNephewRight(up: Ctx, t: Shape, p: RbNode, pRed: bool, a: Shape, x: RbNode, b: Shape, w: RbNode, wr: Shape,
                        h: int)
    requires Short(InLeft(up, p, pRed, Fork(Fork(a, x, true, b), w, false, wr)), t, h) && !IsRed(wr)
    ensures Short(InLeft(up, p, pRed, Fork(a, x, false, Fork(b, w, true, wr))), t, h)
    ensures SameOrder(Plug(InLeft(up, p, pRed, Fork(a, x, false, Fork(b, w, true, wr))), t),
                      Plug(InLeft(up, p, pRed, Fork(Fork(a, x, true, b), w, false, wr)), t))
  {
    assert Balanced(Fork(Fork(a, x, true, b), w, false, wr), h + 1);
    assert Balanced(Fork(a, x, true, b), h) && Balanced(wr, h);
    assert Balanced(Fork(b, w, true, wr), h);
    RotationKeeps(a, x, false, b, w, true, wr);
    PaintKeeps(Fork(a, x, true, b), false);
    assert Inorder(Fork(Fork(a, x, true, b), w, false, wr)) == Inorder(Fork(Fork(a, x, false, b), w, true, wr));
    PlugSame(up, Fork(t, p, pRed, Fork(Fork(a, x, true, b), w, false, wr)),
             Fork(t, p, pRed, Fork(a, x, false, Fork(b, w, true, wr))));
  }

  lemma NearNephewLeft(up: Ctx, t: Shape, p: RbNode, pRed: bool, wl: Shape, w: RbNode, a: Shape, x: RbNode, b: Shape,
                       h: int)
    requires Short(InRight(up, Fork(wl, w, false, Fork(a, x, true, b)), p, pRed), t, h) && !IsRed(wl)
    ensures Short(InRight(up, Fork(Fork(wl, w, true, a), x, false, b), p, pRed), t, h)
    ensures SameOrder(Plug(InRight(up, Fork(Fork(wl, w, true, a), x, false, b), p, pRed), t),
                      Plug(InRight(up, Fork(wl, w, false, Fork(a, x, true, b)), p, pRed), t))
  {
    assert Balanced(Fork(wl, w, false, Fork(a, x, true, b)), h + 1);
    assert Balanced(Fork(a, x, true, b), h) && Balanced(wl, h);
    assert Balanced(Fork(wl, w, true, a), h);
    RotationKeeps(wl, w, true, a, x, false, b);
    PaintKeeps(Fork(a, x, true, b), false);
    assert Inorder(Fork(wl, w, false, Fork(a, x, true, b))) == Inorder(Fork(wl, w, true, Fork(a, x, false, b)));
    PlugSame(up, Fork(Fork(wl, w, false, Fork(a, x, true, b)), p, pRed, t),
             Fork(Fork(Fork(wl, w, true, a), x, false, b), p, pRed, t));
  }

  /** The far nephew is red: one rotation of the parent settles the shortage. */
  lemma FarNephewRight(up: Ctx, t: Shape, p: RbNode, pRed: bool, wl: Shape, w: RbNode, wr: Shape, h: int)
    returns (total: int)
    requires Short(InLeft(up, p, pRed, Fork(wl, w, false, wr)), t, h) && !IsRed(t) && IsRed(wr)
    ensures var u := Fork(Fork(t, p, false, wl), w, pRed, Paint(wr, false));
      && SameOrder(Plug(up, u), Plug(InLeft(up, p, pRed, Fork(wl, w, false, wr)), t))
      && Balanced(Plug(up, u), total) && !IsRed(Plug(up, u))
  {
    var u := Fork(Fork(t, p, false, wl), w, pRed, Paint(wr, false));
    RotationKeeps(t, p, false, wl, w, pRed, Paint(wr, false));
    PaintKeeps(wr, false);
    assert Inorder(Fork(t, p, pRed, Fork(wl, w, false, wr))) ==
      Inorder(Fork(t, p, false, Fork(wl, w, pRed, Paint(wr, false))));
    PlugSame(up, u, Fork(t, p, pRed, Fork(wl, w, false, wr)));
    var k := if pRed then h + 1 else h + 2;
    assert Balanced(Fork(wl, w, false, wr), h + 1);
    assert Balanced(wl, h) && Balanced(wr, h) && Balanced(t, h);
    assert Balanced(Fork(t, p, false, wl), h + 1) && Balanced(Paint(wr, false), h + 1);
    assert Balanced(u, k);
    total := Close(up, u, k);
  }

  lemma FarNephewLeft(up: Ctx, t: Shape, p: RbNode, pRed: bool, wl: Shape, w: RbNode, wr: Shape, h: int)
    returns (total: int)
    requires Short(InRight(up, Fork(wl, w, false, wr), p, pRed), t, h) && !IsRed(t) && IsRed(wl)
    ensures var u := Fork(Paint(wl, false), w, pRed, Fork(wr, p, false, t));
      && SameOrder(Plug(up, u), Plug(InRight(up, Fork(wl, w, false, wr), p, pRed), t))
      && Balanced(Plug(up, u), total) && !IsRed(Plug(up, u))
  {
    var u := Fork(Paint(wl, false), w, pRed, Fork(wr, p, false, t));
    RotationKeeps(Paint(wl, false), w, pRed, wr, p, false, t);
    PaintKeeps(wl, false);
    assert Inorder(Fork(Fork(wl, w, false, wr), p, pRed, t)) ==
      Inorder(Fork(Fork(Paint(wl, false), w, pRed, wr), p, false, t));
    PlugSame(up, u, Fork(Fork(wl, w, false, wr), p, pRed, t));
    var k := if pRed then h + 1 else h + 2;
    assert Balanced(Fork(wl, w, false, wr), h + 1);
    assert Balanced(wl, h) && Balanced(wr, h) && Balanced(t, h);
    assert Balanced(Fork(wr, p, false, t), h + 1) && Balanced(Paint(wl, false), h + 1);
    assert Balanced(u, k);
    total := Close(up, u, k);
  }

  // ---------- what a removal does to balance and order ----------

  /** Taking out the root of t, which has the one subtree x: nothing is short if that
      node was red. */
  ghost predicate RemovedFrom(c: Ctx, x: Shape, red: bool, h: int) {
    if red then CtxBalanced(c, h) && Balanced(x, h) && !IsRed(x) else Short(c, x, h)
  }

  ghost predicate OneSubtree(t: Shape, x: Shape) {
    t.Fork? && ((t.left.Leaf? && x == t.right) || (t.right.Leaf? && x == t.left))
  }

  lemma RemovalBalance(c: Ctx, t: Shape, x: Shape, total: int) returns (h: int)
    requires Balanced(Plug(c, t), total) && !IsRed(Plug(c, t)) && OneSubtree(t, x)
    ensures RemovedFrom(c, x, t.red, h)
  {
    var k := Open(c, t, total);
    h := if t.red then k else k - 1;
  }

  lemma RemovalRename(p: Ctx, c: Ctx, l: Shape, n: RbNode, m: RbNode, nRed: bool, x: Shape, red: bool, h: int)
    requires RemovedFrom(Compose(p, InRight(c, l, n, nRed)), x, red, h)
    ensures RemovedFrom(Compose(p, InRight(c, l, m, nRed)), x, red, h)
  {
    CtxBalancedRename(p, c, l, n, m, nRed, if red then h else h + 1);
  }

  lemma RemovalOrder(c: Ctx, t: Shape, x: Shape)
    requires OneSubtree(t, x)
    ensures var before, after := Pre(c) + Inorder(t.left), Inorder(t.right) + Post(c);
      Inorder(Plug(c, t)) == before + [t.node] + after && Inorder(Plug(c, x)) == before + after
    ensures Nodes(Plug(c, t)) == CtxNodes(c) + Nodes(x) + {t.node}
    ensures Nodes(Plug(c, x)) == CtxNodes(c) + Nodes(x)
  {
    RemovalNodes(c, t, x);
    assert t == Fork(t.left, t.node, t.red, t.right) && Inorder(Leaf) == [];
    hide Inorder, Nodes, CtxNodes, Plug, Pre, Post, Sep;
    PlugInorder(c, t);
    PlugInorder(c, x);
    NodesFork(t.left, t.node, t.red, t.right);
    RemovalSeq(Pre(c), Inorder(t.left), t.node, Inorder(t.right), Post(c));
  }

  lemma RemovalNodes(c: Ctx, t: Shape, x: Shape)
    requires OneSubtree(t, x)
    ensures Nodes(Plug(c, t)) == CtxNodes(c) + Nodes(x) + {t.node}
    ensures Nodes(Plug(c, x)) == CtxNodes(c) + Nodes(x)
  {
    assert t == Fork(t.left, t.node, t.red, t.right) && Nodes(Leaf) == {};
    hide Nodes, CtxNodes, Plug, Sep;
    NodesFork(t.left, t.node, t.red, t.right);
    PlugNodes(c, t);
    PlugNodes(c, x);
  }

  lemma RemovalSeq(a: seq<RbNode>, l: seq<RbNode>, n: RbNode, r: seq<RbNode>, b: seq<RbNode>)
    ensures a + (l + [n] + r) + b == (a + l) + [n] + (r + b)
    ensures l == [] ==> a + r + b == (a + l) + (r + b)
    ensures r == [] ==> a + l + b == (a + l) + (r + b)
  {
  }

  lemma SuccessorOrder(c: Ctx, l: Shape, n: RbNode, red: bool, p: Ctx, subst: RbNode, sred: bool, x: Shape)
    requires AllLeft(p)
    ensures var t, full := Fork(l, n, red, Plug(p, Fork(Leaf, subst, sred, x))), Compose(p, InRight(c, l, subst, red));
      && Inorder(Plug(c, t)) == (Pre(c) + Inorder(l)) + [n] + (Inorder(t.right) + Post(c))
      && Inorder(Plug(full, x)) == (Pre(c) + Inorder(l)) + (Inorder(t.right) + Post(c))
      && Nodes(Plug(c, t)) == Nodes(Plug(full, x)) + {n}
      && Plug(Compose(p, InRight(c, l, n, red)), Fork(Leaf, subst, sred, x)) == Plug(c, t)
  {
    hide Inorder, Nodes, CtxNodes, Plug, Compose, Pre, Post, Sep, AllLeft;
    var r, r' := Plug(p, Fork(Leaf, subst, sred, x)), Plug(p, x);
    SuccessorNodes(c, l, n, red, p, subst, sred, x);
    SuccessorHead(p, subst, sred, x);
    PathThrough(p, c, l, n, red, Fork(Leaf, subst, sred, x));
    PathThrough(p, c, l, subst, red, x);
    PlugInorder(c, Fork(l, n, red, r));
    PlugInorder(c, Fork(l, subst, red, r'));
    NodesFork(l, n, red, r);
    NodesFork(l, subst, red, r');
    SuccessorSeq(Pre(c), Inorder(l), n, subst, Inorder(r'), Post(c));
  }

  lemma SuccessorHead(p: Ctx, n: RbNode, red: bool, x: Shape)
    requires AllLeft(p)
    ensures Inorder(Plug(p, Fork(Leaf, n, red, x))) == [n] + Inorder(Plug(p, x))
  {
    PlugInorder(p, Fork(Leaf, n, red, x));
    PlugInorder(p, x);
    AllLeftPre(p);
  }

  lemma PathThrough(p: Ctx, c: Ctx, l: Shape, n: RbNode, red: bool, t: Shape)
    ensures Plug(Compose(p, InRight(c, l, n, red)), t) == Plug(c, Fork(l, n, red, Plug(p, t)))
  {
    PlugCompose(p, InRight(c, l, n, red), t);
  }

  lemma SuccessorSeq(a: seq<RbNode>, l: seq<RbNode>, n: RbNode, m: RbNode, r: seq<RbNode>, b: seq<RbNode>)
    ensures a + (l + [m] + r) + b == (a + l) + (([m] + r) + b)
    ensures a + (l + [n] + ([m] + r)) + b == (a + l) + [n] + (([m] + r) + b)
  {
  }

  lemma SuccessorNodes(c: Ctx, l: Shape, n: RbNode, red: bool, p: Ctx, subst: RbNode, sred: bool, x: Shape)
    ensures Nodes(Plug(c, Fork(l, n, red, Plug(p, Fork(Leaf, subst, sred, x)))))
         == Nodes(Plug(c, Fork(l, subst, red, Plug(p, x)))) + {n}
  {
    PlugNodes(p, Fork(Leaf, subst, sred, x));
    PlugNodes(p, x);
    PlugNodes(c, Fork(l, n, red, Plug(p, Fork(Leaf, subst, sred, x))));
    PlugNodes(c, Fork(l, subst, red, Plug(p, x)));
  }

  lemma RootRemoval(t: Shape, x: Shape, total: int)
    requires Balanced(t, total) && !IsRed(t) && OneSubtree(t, x)
    ensures x.Leaf? || (Balanced(Paint(x, false), BlackHeight(Paint(x, false))) && !IsRed(Paint(x, false)))
  {
    if x.Fork? {
      assert Balanced(x, total - 1) && total == 1;
      BlackHeightUnique(Paint(x, false), if x.red then 1 else 0);
    }
  }
}
