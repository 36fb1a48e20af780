/** The pointer updates of rbtree_delete in src/gf_rbtree.c on memories: taking the
    successor out of its place and letting it take over the deleted node's place. */
module RbRemoval {
  import opened RbShape
  import opened RbMemory

  /** subst, the leftmost node of a right subtree, gives way to its child temp. When
      subst hangs directly below node, temp's parent is already set to subst, which
      is about to take node's place. */
  ghost function Detached(m: Memory, node: RbNode, subst: RbNode, temp: RbNode): Memory
    requires subst in m && temp in m && m[subst].parent != null && m[subst].parent in m
  {
    var p := m[subst].parent;
    var m1 := if m[p].left == subst then m[p := m[p].(left := temp)] else m[p := m[p].(right := temp)];
    m1[temp := m1[temp].(parent := if p == node then subst else p)]
  }

  /** node's cell still shows the subtrees that subst will take over. */
  ghost predicate Ready(m: Memory, s: RbNode, root: RbNode, c: Ctx, l: Shape, node: RbNode, subst: RbNode, red: bool,
                        r: Shape) {
    && Vacant(m, s, root, c, l, node, subst, red, r)
    && node in m && m[node].left == RootOf(l, s) && m[node].right == RootOf(r, s) && m[node].red == red
    && (!c.Top? ==> m[node].parent == c.node)
    && subst in m && node != subst
    && (l.Fork? ==> l.node in m) && (r.Fork? ==> r.node in m)
    && (c.Top? <==> root == node) && (!c.Top? ==> c.node in m && (c.InLeft? <==> m[c.node].left == node))
    && node !in Nodes(l) && node !in Nodes(r) && node !in CtxNodes(c)
  }

  /** The successor is node's right child itself. */
  lemma DetachedDirect(m: Memory, s: RbNode, root: RbNode, c: Ctx, l: Shape, node: RbNode, red: bool, subst: RbNode,
                       sred: bool, x: Shape)
    requires Focus(m, s, root, c, Fork(l, node, red, Fork(Leaf, subst, sred, x))) && l.Fork?
    ensures subst in m && m[subst].parent == node && node in m && RootOf(x, s) in m
    ensures var m1 := Detached(m, node, subst, RootOf(x, s));
      && m1.Keys == m.Keys && Ready(m1, s, root, c, l, node, subst, red, x)
      && m1[RootOf(x, s)].parent == subst
  {
    var sub := Fork(Leaf, subst, sred, x);
    HoleSite(m, s, root, c, Fork(l, node, red, sub));
    ApartFork(s, c, l, node, red, sub);
    NodesFork(l, node, red, sub);
    NodesFork(Leaf, subst, sred, x);
    ApartFork(s, c, Leaf, subst, sred, x);
    ApartFork(s, c, l, subst, red, x);
    LinkFork(m, s, l, node, red, sub);
    LinkFork(m, s, Leaf, subst, sred, x);
    hide Focus, Apart, Linked, LinkedUp, Nodes, CtxNodes, Sep, SepCtx;
    var temp := RootOf(x, s);
    var m1 := Detached(m, node, subst, temp);
    var ns := {node, temp};
    assert Vacant(m1, s, root, c, l, node, subst, red, x) by {
      RootsInside(c, x);
      assert temp !in Nodes(l) && temp !in CtxNodes(c) && temp != node;
      assert Nodes(x) * ns <= RootSet(x);
      LinkedOutside(m, m1, s, l, ns);
      LinkedMoved(m, m1, s, x, ns);
      LinkedUpOutside(m, m1, s, root, c, node, ns);
    }
  }

  lemma {:induction false} PathNodeInside(p: Ctx, t: Shape)
    requires !p.Top?
    ensures p.node in Nodes(Plug(p, t))
  {
    PlugNodes(p, t);
    CtxParts(p);
  }

  /** The successor is further down: x takes its place at the hole of c. */
  lemma DetachedInner(m: Memory, s: RbNode, root: RbNode, c: Ctx, node: RbNode, subst: RbNode, sred: bool, x: Shape)
    requires !c.Top? && c.node != node && Focus(m, s, root, c, Fork(Leaf, subst, sred, x))
    ensures subst in m && m[subst].parent == c.node && c.node in m && RootOf(x, s) in m
    ensures var m1 := Detached(m, node, subst, RootOf(x, s));
      && m1.Keys == m.Keys && m1[RootOf(x, s)].parent == c.node
      && Focus(m1, s, root, c, x) && subst !in CtxNodes(c) && subst !in Nodes(x) && subst != s
  {
    var sub := Fork(Leaf, subst, sred, x);
    HoleSite(m, s, root, c, sub);
    LinkFork(m, s, Leaf, subst, sred, x);
    ApartFork(s, c, Leaf, subst, sred, x);
    RootsInside(c, x);
    hide Focus, Apart, Linked, LinkedUp, Nodes, CtxNodes, Sep, SepCtx;
    var temp := RootOf(x, s);
    var m1 := Detached(m, node, subst, temp);
    assert Outside(m, m1, RootSet(x) + HookSet(c) + {s}) by {
      forall n | n in m && n !in RootSet(x) + HookSet(c) + {s} ensures n in m1 && m1[n] == m[n] {
        assert n !in RootSet(x) && n !in HookSet(c) && n != s;
      }
    }
    Unlinked(m, m1, s, root, root, c, sub, x);
  }

  /** The cells subst and its new neighbours get when it takes node's place. */
  ghost function TakenOver(m: Memory, s: RbNode, root: RbNode, node: RbNode, subst: RbNode): (r: (Memory, RbNode))
    requires node in m && subst in m && node != subst
    requires node != root ==> m[node].parent != null && m[node].parent in m
    requires m[node].left != null && m[node].left in m && m[node].right != null && m[node].right in m
    ensures r.0.Keys == m.Keys
  {
    var n := m[node];
    var m1 := m[subst := Cell(n.left, n.right, n.parent, n.red)];
    var (m2, root') := Rehang(m1, root, node, subst);
    (Adopted(Adopted(m2, s, n.left, subst), s, n.right, subst), root')
  }

  /** The link to subst now leads to temp, and back. */
  ghost function Bypassed(m: Memory, subst: RbNode, temp: RbNode): (r: Memory)
    requires subst in m && temp in m && m[subst].parent != null && m[subst].parent in m
    ensures r.Keys == m.Keys
  {
    var p := m[subst].parent;
    var m1 := m[p := if m[p].left == subst then m[p].(left := temp) else m[p].(right := temp)];
    m1[temp := m1[temp].(parent := p)]
  }

  lemma TakenOverFocus(m: Memory, s: RbNode, root: RbNode, c: Ctx, l: Shape, node: RbNode, subst: RbNode, red: bool,
                       r: Shape)
    requires Ready(m, s, root, c, l, node, subst, red, r)
    ensures node != root ==> m[node].parent != null && m[node].parent in m
    ensures RootOf(l, s) in m && RootOf(r, s) in m
    ensures var (m', root') := TakenOver(m, s, root, node, subst);
      Focus(m', s, root', c, Fork(l, subst, red, r)) && m'[s] == m[s]
  {
    var (m', root') := TakenOver(m, s, root, node, subst);
    ReadyApart(m, s, root, c, l, node, subst, red, r);
    hide Vacant, Apart, Nodes, CtxNodes, Linked, LinkedUp, Focus, Sep, SepCtx;
    TakenOverOutside(m, s, root, c, l, node, subst, red, r);
    Replaced(m, m', s, root, root', c, l, node, subst, red, r);
  }

  lemma ReadyApart(m: Memory, s: RbNode, root: RbNode, c: Ctx, l: Shape, node: RbNode, subst: RbNode, red: bool,
                   r: Shape)
    requires Ready(m, s, root, c, l, node, subst, red, r)
    ensures s in m && subst != s
    ensures l.Fork? ==> l.node != subst && l.node != s && l.node != node && (!c.Top? ==> l.node != c.node)
    ensures r.Fork? ==> r.node != subst && r.node != s && r.node != node && (!c.Top? ==> r.node != c.node)
    ensures l.Fork? && r.Fork? ==> l.node != r.node
    ensures !c.Top? ==> c.node != subst && c.node != s && c.node != node
  {
    ApartFork(s, c, l, subst, red, r);
    if !c.Top? { CtxParts(c); }
  }

  lemma TakenOverOutside(m: Memory, s: RbNode, root: RbNode, c: Ctx, l: Shape, node: RbNode, subst: RbNode, red: bool,
                         r: Shape)
    requires Ready(m, s, root, c, l, node, subst, red, r)
    ensures RootOf(l, s) in m && RootOf(r, s) in m
    ensures node != root ==> m[node].parent != null && m[node].parent in m
    ensures var (m', root') := TakenOver(m, s, root, node, subst);
      Outside(m, m', ReplacedSet(subst, l, r, c))
  {
    var (m', root') := TakenOver(m, s, root, node, subst);
    ReadyApart(m, s, root, c, l, node, subst, red, r);
    hide Vacant, Apart, Nodes, CtxNodes, Linked, LinkedUp, Focus, Sep, SepCtx;
    forall n | n in m && n !in ReplacedSet(subst, l, r, c) ensures n in m' && m'[n] == m[n] {
      assert n != subst && n !in RootSet(l) && n !in RootSet(r) && n !in HookSet(c);
    }
  }

  lemma {:induction false} ComposeNode(p: Ctx, c: Ctx)
    requires !p.Top?
    ensures !Compose(p, c).Top? && Compose(p, c).node == p.node
  {
  }

  /** Both cases: with subst detached, node's cell still shows what subst takes over. */
  lemma DetachedReady(m: Memory, s: RbNode, root: RbNode, c: Ctx, l: Shape, node: RbNode, red: bool, p: Ctx,
                      subst: RbNode, sred: bool, x: Shape)
    requires Focus(m, s, root, c, Fork(l, node, red, Plug(p, Fork(Leaf, subst, sred, x)))) && l.Fork?
    ensures subst in m && m[subst].parent != null && m[subst].parent in m && RootOf(x, s) in m
    ensures var m1 := Detached(m, node, subst, RootOf(x, s));
      && m1.Keys == m.Keys && Ready(m1, s, root, c, l, node, subst, red, Plug(p, x))
      && m1[RootOf(x, s)].parent == (if p.Top? then subst else p.node)
  {
    if p.Top? {
      DetachedDirect(m, s, root, c, l, node, red, subst, sred, x);
    } else {
      var sub := Fork(Leaf, subst, sred, x);
      var base := InRight(c, l, node, red);
      var full := Compose(p, base);
      Downward(m, s, root, base, Plug(p, sub));
      Sink(m, s, root, p, base, sub);
      ComposeNode(p, base);
      PathNodeInside(p, sub);
      ApartFork(s, c, l, node, red, Plug(p, sub));
      assert p.node != node;
      DetachedInner(m, s, root, full, node, subst, sred, x);
      var m1 := Detached(m, node, subst, RootOf(x, s));
      Rise(m1, s, root, p, base, x);
      Upward(m1, s, root, base, Plug(p, x));
      SubstOutside(p, c, l, node, red, subst, sred, x);
      ReadyAgain(m1, s, root, c, l, node, red, subst, Plug(p, x));
    }
  }

  lemma SubstOutside(p: Ctx, c: Ctx, l: Shape, node: RbNode, red: bool, subst: RbNode, sred: bool, x: Shape)
    requires var full := Compose(p, InRight(c, l, node, red)); subst !in CtxNodes(full) && subst !in Nodes(x)
    ensures subst !in CtxNodes(c) && subst !in Nodes(l) && subst !in Nodes(Plug(p, x)) && subst != node
  {
    var base := InRight(c, l, node, red);
    PlugCompose(p, base, x);
    PlugNodes(Compose(p, base), x);
    PlugNodes(base, Plug(p, x));
    CtxParts(base);
  }

  lemma ReadyAgain(m: Memory, s: RbNode, root: RbNode, c: Ctx, l: Shape, node: RbNode, red: bool, subst: RbNode,
                   r: Shape)
    requires Focus(m, s, root, c, Fork(l, node, red, r)) && l.Fork? && subst in m && subst != s
    requires subst !in CtxNodes(c) && subst !in Nodes(l) && subst !in Nodes(r) && subst != node
    ensures Ready(m, s, root, c, l, node, subst, red, r)
  {
    HoleSite(m, s, root, c, Fork(l, node, red, r));
    ApartFork(s, c, l, node, red, r);
    ApartFork(s, c, l, subst, red, r);
    LinkFork(m, s, l, node, red, r);
    hide Nodes, CtxNodes, Sep, SepCtx, Linked, LinkedUp, Apart;
  }

  /** After the takeover: the position of x, and node out of the tree. */
  lemma Relocated(m: Memory, s: RbNode, root: RbNode, c: Ctx, l: Shape, node: RbNode, subst: RbNode, red: bool, p: Ctx,
                  x: Shape)
    requires Focus(m, s, root, c, Fork(l, subst, red, Plug(p, x)))
    requires node !in CtxNodes(c) && node !in Nodes(l) && node !in Nodes(Plug(p, x)) && node != subst
    ensures var full := Compose(p, InRight(c, l, subst, red));
      && Focus(m, s, root, full, x) && node !in CtxNodes(full) && node !in Nodes(x)
      && !full.Top? && full.node == (if p.Top? then subst else p.node)
  {
    var base := InRight(c, l, subst, red);
    Downward(m, s, root, base, Plug(p, x));
    Sink(m, s, root, p, base, x);
    PlugCompose(p, base, x);
    PlugNodes(Compose(p, base), x);
    PlugNodes(base, Plug(p, x));
    CtxParts(base);
  }
}
