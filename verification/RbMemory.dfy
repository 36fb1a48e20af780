/** The links of the tree's nodes as a value: which cell each node holds. The
    predicates say when a memory holds a given shape seen from a given position;
    the functions are the pointer updates of src/gf_rbtree.c. */
module RbMemory {
  import opened RbShape

  datatype Cell = Cell(left: RbNode?, right: RbNode?, parent: RbNode?, red: bool)
  type Memory = map<RbNode, Cell>

  ghost function RootOf(t: Shape, s: RbNode): RbNode {
    if t.Leaf? then s else t.node
  }

  /** m holds n as a node with these subtrees. */
  ghost predicate Holds(m: Memory, s: RbNode, l: Shape, n: RbNode, red: bool, r: Shape) {
    && n in m && m[n].left == RootOf(l, s) && m[n].right == RootOf(r, s) && m[n].red == red
    && (l.Fork? ==> l.node in m && m[l.node].parent == n)
    && (r.Fork? ==> r.node in m && m[r.node].parent == n)
  }

  ghost predicate Linked(m: Memory, s: RbNode, t: Shape) {
    t.Fork? ==> Holds(m, s, t.left, t.node, t.red, t.right) && Linked(m, s, t.left) && Linked(m, s, t.right)
  }

  /** The links and colours above the hole are as the context says. The parent of
      the root is never mentioned: after some deletions it is stale. */
  ghost predicate LinkedUp(m: Memory, s: RbNode, root: RbNode, c: Ctx, hole: RbNode) {
    if c.Top? then root == hole
    else
      && c.node in m && m[c.node].red == c.red
      && m[c.node].left == (if c.InLeft? then hole else RootOf(c.other, s))
      && m[c.node].right == (if c.InLeft? then RootOf(c.other, s) else hole)
      && (c.other.Fork? ==> c.other.node in m && m[c.other.node].parent == c.node)
      && Linked(m, s, c.other)
      && (!c.up.Top? ==> m[c.node].parent == c.up.node)
      && LinkedUp(m, s, root, c.up, c.node)
  }

  /** Distinct nodes everywhere, and the sentinel is not one of them. */
  ghost predicate Apart(s: RbNode, c: Ctx, t: Shape) {
    && Sep(t) && SepCtx(c) && CtxNodes(c) !! Nodes(t)
    && s !in CtxNodes(c) && s !in Nodes(t)
  }

  /** The whole tree seen from a position: t below it, c above it. */
  ghost predicate Focus(m: Memory, s: RbNode, root: RbNode, c: Ctx, t: Shape) {
    && Apart(s, c, t)
    && s in m && !m[s].red
    && Linked(m, s, t)
    && LinkedUp(m, s, root, c, RootOf(t, s))
    && (t.Fork? && !c.Top? ==> m[t.node].parent == c.node)
  }

  lemma {:induction false} RootAbove(m: Memory, s: RbNode, root: RbNode, c: Ctx, hole: RbNode)
    requires LinkedUp(m, s, root, c, hole) && !c.Top?
    ensures root in CtxNodes(c)
  {
    if !c.up.Top? { RootAbove(m, s, root, c.up, c.node); }
  }

  // ---------- moving the position ----------

  lemma ApartFill(s: RbNode, c: Ctx, t: Shape)
    requires !c.Top?
    ensures Apart(s, c, t) <==> Apart(s, c.up, Fill(c, t))
  {
  }

  lemma Upward(m: Memory, s: RbNode, root: RbNode, c: Ctx, t: Shape)
    requires !c.Top?
    requires Focus(m, s, root, c, t)
    ensures Focus(m, s, root, c.up, Fill(c, t))
  {
    ApartFill(s, c, t);
    hide Apart;
  }

  lemma Downward(m: Memory, s: RbNode, root: RbNode, c: Ctx, t: Shape)
    requires !c.Top?
    requires Focus(m, s, root, c.up, Fill(c, t))
    ensures Focus(m, s, root, c, t)
  {
    ApartFill(s, c, t);
    hide Apart;
  }

  lemma {:induction false} Rise(m: Memory, s: RbNode, root: RbNode, p: Ctx, c: Ctx, t: Shape)
    requires Focus(m, s, root, Compose(p, c), t)
    ensures Focus(m, s, root, c, Plug(p, t))
    decreases p
  {
    hide Focus;
    if !p.Top? {
      Upward(m, s, root, Compose(p, c), t);
      Rise(m, s, root, p.up, c, Fill(p, t));
    }
  }

  lemma {:induction false} Sink(m: Memory, s: RbNode, root: RbNode, p: Ctx, c: Ctx, t: Shape)
    requires Focus(m, s, root, c, Plug(p, t))
    ensures Focus(m, s, root, Compose(p, c), t)
    decreases p
  {
    hide Focus;
    if !p.Top? {
      Sink(m, s, root, p.up, c, Fill(p, t));
      Downward(m, s, root, Compose(p, c), t);
    }
  }

  // ---------- what a change leaves alone ----------

  /** Only the cells of ns may differ. */
  ghost predicate Outside(m: Memory, m': Memory, ns: set<RbNode>) {
    forall n :: n in m && n !in ns ==> n in m' && m'[n] == m[n]
  }

  lemma {:induction false} LinkedOutside(m: Memory, m': Memory, s: RbNode, t: Shape, ns: set<RbNode>)
    requires Linked(m, s, t) && Outside(m, m', ns) && Nodes(t) !! ns
    ensures Linked(m', s, t)
  {
    if t.Fork? {
      LinkedOutside(m, m', s, t.left, ns);
      LinkedOutside(m, m', s, t.right, ns);
    }
  }

  lemma {:induction false} LinkedUpOutside(m: Memory, m': Memory, s: RbNode, root: RbNode, c: Ctx, hole: RbNode,
                                           ns: set<RbNode>)
    requires LinkedUp(m, s, root, c, hole) && Outside(m, m', ns) && CtxNodes(c) !! ns
    ensures LinkedUp(m', s, root, c, hole)
  {
    if !c.Top? {
      LinkedOutside(m, m', s, c.other, ns);
      LinkedUpOutside(m, m', s, root, c.up, c.node, ns);
    }
  }

  // ---------- the pointer updates, one lemma each ----------

  ghost function RootSet(t: Shape): set<RbNode> {
    if t.Leaf? then {} else {t.node}
  }

  ghost function HookSet(c: Ctx): set<RbNode> {
    if c.Top? then {} else {c.node}
  }

  lemma RootsInside(c: Ctx, t: Shape)
    ensures HookSet(c) <= CtxNodes(c) && RootSet(t) <= Nodes(t)
  {
  }

  /** Of t, only the parent of its root changed. */
  lemma LinkedMoved(m: Memory, m': Memory, s: RbNode, t: Shape, ns: set<RbNode>)
    requires Linked(m, s, t) && Sep(t) && Outside(m, m', ns) && Nodes(t) * ns <= RootSet(t)
    requires t.Fork? ==> t.node in m' && m'[t.node] == m[t.node].(parent := m'[t.node].parent)
    ensures Linked(m', s, t)
  {
    if t.Fork? {
      LinkedOutside(m, m', s, t.left, ns);
      LinkedOutside(m, m', s, t.right, ns);
    }
  }

  /** Only the link into the hole changed: after now hangs where before did. */
  ghost predicate Rehung(m: Memory, m': Memory, root: RbNode, root': RbNode, c: Ctx, after: RbNode) {
    if c.Top? then root' == after
    else (root' == root && c.node in m && c.node in m' &&
          m'[c.node] == if c.InLeft? then m[c.node].(left := after) else m[c.node].(right := after))
  }

  lemma LinkedUpRehung(m: Memory, m': Memory, s: RbNode, root: RbNode, root': RbNode, c: Ctx, before: RbNode,
                       after: RbNode, ns: set<RbNode>)
    requires SepCtx(c) && LinkedUp(m, s, root, c, before)
    requires Rehung(m, m', root, root', c, after) && Outside(m, m', ns) && CtxNodes(c) * ns <= HookSet(c)
    ensures LinkedUp(m', s, root', c, after)
  {
    if !c.Top? {
      LinkedOutside(m, m', s, c.other, ns);
      LinkedUpOutside(m, m', s, root, c.up, c.node, ns);
    }
  }

  /** m' is m after a rotation around low, which ends up below high; moved is the
      inner subtree that changes sides. */
  ghost predicate Swung(m: Memory, m': Memory, root: RbNode, root': RbNode, c: Ctx, low: RbNode, high: RbNode,
                        moved: Shape) {
    && low in m && high in m && low in m' && high in m'
    && Rehung(m, m', root, root', c, high)
    && m'[high].parent == m[low].parent && m'[low].parent == high
    && m'[low].red == m[low].red && m'[high].red == m[high].red
    && (moved.Fork? ==> moved.node in m && moved.node in m' && m'[moved.node] == m[moved.node].(parent := low))
    && (forall n :: n in m && n != low && n != high && (moved.Fork? ==> n != moved.node) && (!c.Top? ==> n != c.node)
          ==> n in m' && m'[n] == m[n])
  }

  lemma SwungOutside(m: Memory, m': Memory, root: RbNode, root': RbNode, c: Ctx, low: RbNode, high: RbNode,
                     moved: Shape)
    requires Swung(m, m', root, root', c, low, high, moved)
    ensures Outside(m, m', SwungSet(low, high, moved, c))
  {
    forall n | n in m && n !in SwungSet(low, high, moved, c) ensures n in m' && m'[n] == m[n] {
      assert n != low && n != high && n !in RootSet(moved) && n !in HookSet(c);
    }
  }

  ghost function SwungSet(low: RbNode, high: RbNode, moved: Shape, c: Ctx): set<RbNode> {
    {low, high} + RootSet(moved) + HookSet(c)
  }

  /** The parts of a rotation and what it changes. */
  ghost predicate SwungParts(s: RbNode, c: Ctx, a: Shape, low: RbNode, b: Shape, high: RbNode, d: Shape) {
    && Sep(b) && SepCtx(c)
    && low !in Nodes(a) && low !in Nodes(b) && low !in Nodes(d) && low !in CtxNodes(c) && low != s
    && high !in Nodes(a) && high !in Nodes(b) && high !in Nodes(d) && high !in CtxNodes(c) && high != s
    && Nodes(a) !! Nodes(b) && Nodes(b) !! Nodes(d)
    && CtxNodes(c) !! Nodes(a) && CtxNodes(c) !! Nodes(b) && CtxNodes(c) !! Nodes(d)
    && s !in CtxNodes(c) && s !in Nodes(b)
  }

  lemma SwungApart(s: RbNode, c: Ctx, a: Shape, low: RbNode, b: Shape, high: RbNode, d: Shape)
    requires SwungParts(s, c, a, low, b, high, d)
    ensures var ns := SwungSet(low, high, b, c);
      && s !in ns && Nodes(a) !! ns && Nodes(d) !! ns
      && Nodes(b) * ns <= RootSet(b) && CtxNodes(c) * ns <= HookSet(c)
  {
    RootsInside(c, b);
    hide Nodes, CtxNodes, Sep, SepCtx, RootSet, HookSet;
  }

  /** The three subtrees and the context survive a rotation. */
  lemma SwungKeeps(m: Memory, m': Memory, s: RbNode, root: RbNode, root': RbNode, c: Ctx, a: Shape, b: Shape, d: Shape,
                   low: RbNode, high: RbNode)
    requires Linked(m, s, a) && Linked(m, s, b) && Linked(m, s, d) && LinkedUp(m, s, root, c, low)
    requires Swung(m, m', root, root', c, low, high, b)
    requires SwungParts(s, c, a, low, b, high, d)
    ensures Linked(m', s, a) && Linked(m', s, b) && Linked(m', s, d) && LinkedUp(m', s, root', c, high)
    ensures var ns := SwungSet(low, high, b, c); s !in ns && Nodes(a) !! ns && Nodes(d) !! ns
  {
    hide Nodes, CtxNodes, Sep, SepCtx, Linked, LinkedUp, HookSet, RootSet, SwungSet, Outside;
    var ns := SwungSet(low, high, b, c);
    SwungApart(s, c, a, low, b, high, d);
    SwungOutside(m, m', root, root', c, low, high, b);
    LinkedOutside(m, m', s, a, ns);
    LinkedMoved(m, m', s, b, ns);
    LinkedOutside(m, m', s, d, ns);
    LinkedUpRehung(m, m', s, root, root', c, low, high, ns);
  }

  lemma CtxParts(c: Ctx)
    requires !c.Top?
    ensures CtxNodes(c) == CtxNodes(c.up) + {c.node} + Nodes(c.other)
    ensures SepCtx(c) <==>
      (SepCtx(c.up) && Sep(c.other) && c.node !in CtxNodes(c.up) && c.node !in Nodes(c.other)
       && CtxNodes(c.up) !! Nodes(c.other))
  {
  }

  lemma ApartFork(s: RbNode, c: Ctx, l: Shape, n: RbNode, red: bool, r: Shape)
    ensures Apart(s, c, Fork(l, n, red, r)) ==> s !in Nodes(l) && s !in Nodes(r) && s !in CtxNodes(c)
    ensures Apart(s, c, Fork(l, n, red, r)) ==>
      Sep(l) && Sep(r) && SepCtx(c) && CtxNodes(c) !! Nodes(l) && CtxNodes(c) !! Nodes(r)
    ensures Apart(s, c, Fork(l, n, red, r)) <==>
      Apart(s, c, l) && Apart(s, c, r) && n !in CtxNodes(c) && n != s
      && n !in Nodes(l) && n !in Nodes(r) && Nodes(l) !! Nodes(r)
  {
    NodesFork(l, n, red, r);
    hide Nodes, CtxNodes, Sep, SepCtx;
  }

  lemma LinkFork(m: Memory, s: RbNode, l: Shape, n: RbNode, red: bool, r: Shape)
    ensures Linked(m, s, Fork(l, n, red, r)) <==> Holds(m, s, l, n, red, r) && Linked(m, s, l) && Linked(m, s, r)
  {
  }

  /** A rotation around low can follow the pointers it needs. */
  ghost predicate Rotatable(m: Memory, root: RbNode, low: RbNode, high: RbNode?, moved: RbNode?) {
    && low in m && high != null && high in m && moved != null && moved in m
    && (low != root ==> m[low].parent != null && m[low].parent in m)
  }

  /** The link that led to before now leads to after. */
  ghost function Rehang(m: Memory, root: RbNode, before: RbNode, after: RbNode): (r: (Memory, RbNode))
    requires before in m && (before != root ==> m[before].parent != null && m[before].parent in m)
    ensures r.0.Keys == m.Keys
  {
    if before == root then (m, after)
    else var p := m[before].parent;
      (if m[p].left == before then m[p := m[p].(left := after)] else m[p := m[p].(right := after)], root)
  }

  /** A child, if it is not the sentinel, gets a new parent. */
  ghost function Adopted(m: Memory, s: RbNode, child: RbNode, parent: RbNode): (r: Memory)
    requires child in m
    ensures r.Keys == m.Keys
  {
    if child != s then m[child := m[child].(parent := parent)] else m
  }

  /** The pointer updates of a rotation to the left around x. */
  ghost function LeftRotated(m: Memory, s: RbNode, root: RbNode, x: RbNode): (Memory, RbNode)
    requires x in m && m[x].right != null && m[x].right in m
    requires Rotatable(m, root, x, m[x].right, m[m[x].right].left) && x != m[x].right
    requires m[m[x].right].left != x
  {
    var y := m[x].right;
    var b := m[y].left;
    var m1 := m[x := m[x].(right := b)];
    var m2 := Adopted(m1, s, b, x);
    var m3 := m2[y := m2[y].(parent := m2[x].parent)];
    var (m4, root') := Rehang(m3, root, x, y);
    var m5 := m4[y := m4[y].(left := x)];
    (m5[x := m5[x].(parent := y)], root')
  }

  /** The cells after a rotation to the left, when the four nodes around are not the same. */
  lemma LeftCells(m: Memory, s: RbNode, root: RbNode, x: RbNode, y: RbNode, b: RbNode)
    requires x in m && m[x].right == y && y in m && m[y].left == b && b in m && x != y && Rotatable(m, root, x, y, b)
    requires b != x && b != y && x != s && y != s
    requires x != root ==> var p := m[x].parent; p != x && p != y && (b != s ==> p != b)
    ensures
      var (m', root') := LeftRotated(m, s, root, x);
      && m'.Keys == m.Keys && root' == (if x == root then y else root)
      && m'[x] == m[x].(right := b, parent := y) && m'[y] == m[y].(left := x, parent := m[x].parent)
      && (b != s ==> m'[b] == m[b].(parent := x))
      && (x != root ==>
            var p := m[x].parent;
            m'[p] == if m[p].left == x then m[p].(left := y) else m[p].(right := y))
      && forall n :: n in m && n != x && n != y && (b == s || n != b) && (x == root || n != m[x].parent) ==>
           m'[n] == m[n]
  {
  }

  lemma LeftRotatedSwung(m: Memory, s: RbNode, root: RbNode, c: Ctx, a: Shape, x: RbNode, xRed: bool, b: Shape,
                         y: RbNode, yRed: bool, d: Shape)
    requires Focus(m, s, root, c, Fork(a, x, xRed, Fork(b, y, yRed, d)))
    ensures x in m && m[x].right == y && y in m && x != y && Rotatable(m, root, x, y, m[y].left) && m[y].left != x
    ensures var (m', root') := LeftRotated(m, s, root, x);
      && Swung(m, m', root, root', c, x, y, b) && m'.Keys == m.Keys
      && m'[x].left == m[x].left && m'[x].right == m[y].left
      && m'[y].left == x && m'[y].right == m[y].right
  {
    RotationSite(m, s, root, c, a, x, xRed, b, y, yRed, d);
    hide Focus, LeftRotated;
    LeftCells(m, s, root, x, y, m[y].left);
  }

  /** The pointer updates of a rotation to the right around y. */
  ghost function RightRotated(m: Memory, s: RbNode, root: RbNode, y: RbNode): (Memory, RbNode)
    requires y in m && m[y].left != null && m[y].left in m
    requires Rotatable(m, root, y, m[y].left, m[m[y].left].right) && y != m[y].left
    requires m[m[y].left].right != y
  {
    var x := m[y].left;
    var b := m[x].right;
    var m1 := m[y := m[y].(left := b)];
    var m2 := Adopted(m1, s, b, y);
    var m3 := m2[x := m2[x].(parent := m2[y].parent)];
    var (m4, root') := RehangRight(m3, root, y, x);
    var m5 := m4[x := m4[x].(right := y)];
    (m5[y := m5[y].(parent := x)], root')
  }

  /** As Rehang, but looking at the right link first. */
  ghost function RehangRight(m: Memory, root: RbNode, before: RbNode, after: RbNode): (r: (Memory, RbNode))
    requires before in m && (before != root ==> m[before].parent != null && m[before].parent in m)
    ensures r.0.Keys == m.Keys
  {
    if before == root then (m, after)
    else var p := m[before].parent;
      (if m[p].right == before then m[p := m[p].(right := after)] else m[p := m[p].(left := after)], root)
  }

  /** The same for a rotation to the right. */
  lemma RightCells(m: Memory, s: RbNode, root: RbNode, y: RbNode, x: RbNode, b: RbNode)
    requires y in m && m[y].left == x && x in m && m[x].right == b && b in m && x != y && Rotatable(m, root, y, x, b)
    requires b != x && b != y && x != s && y != s
    requires y != root ==> var p := m[y].parent; p != x && p != y && (b != s ==> p != b)
    ensures
      var (m', root') := RightRotated(m, s, root, y);
      && m'.Keys == m.Keys && root' == (if y == root then x else root)
      && m'[y] == m[y].(left := b, parent := x) && m'[x] == m[x].(right := y, parent := m[y].parent)
      && (b != s ==> m'[b] == m[b].(parent := y))
      && (y != root ==>
            var p := m[y].parent;
            m'[p] == if m[p].right == y then m[p].(right := x) else m[p].(left := x))
      && forall n :: n in m && n != x && n != y && (b == s || n != b) && (y == root || n != m[y].parent) ==>
           m'[n] == m[n]
  {
  }

  lemma RightRotatedSwung(m: Memory, s: RbNode, root: RbNode, c: Ctx, a: Shape, x: RbNode, xRed: bool, b: Shape,
                          y: RbNode, yRed: bool, d: Shape)
    requires Focus(m, s, root, c, Fork(Fork(a, x, xRed, b), y, yRed, d))
    ensures y in m && m[y].left == x && x in m && x != y && Rotatable(m, root, y, x, m[x].right) && m[x].right != y
    ensures var (m', root') := RightRotated(m, s, root, y);
      && Swung(m, m', root, root', c, y, x, b) && m'.Keys == m.Keys
      && m'[y].right == m[y].right && m'[y].left == m[x].right
      && m'[x].right == y && m'[x].left == m[x].left
  {
    RightSite(m, s, root, c, a, x, xRed, b, y, yRed, d);
    hide Focus, RightRotated;
    RightCells(m, s, root, y, x, m[x].right);
  }

  /** Which link of the context leads to the hole. */
  lemma HoleSite(m: Memory, s: RbNode, root: RbNode, c: Ctx, t: Shape)
    requires Focus(m, s, root, c, t) && t.Fork?
    ensures s in m && t.node in m
    ensures c.Top? <==> root == t.node
    ensures !c.Top? ==> c.node in m && m[t.node].parent == c.node && c.node !in Nodes(t)
    ensures !c.Top? ==> (c.InLeft? <==> m[c.node].left == t.node) && (c.InRight? <==> m[c.node].right == t.node)
  {
    if !c.Top? {
      RootAbove(m, s, root, c, t.node);
      CtxParts(c);
    }
    hide Nodes, CtxNodes, Sep, SepCtx;
  }

  /** What a rotation to the left finds in memory. */
  lemma RotationSite(m: Memory, s: RbNode, root: RbNode, c: Ctx, a: Shape, x: RbNode, xRed: bool, b: Shape, y: RbNode,
                     yRed: bool, d: Shape)
    requires Focus(m, s, root, c, Fork(a, x, xRed, Fork(b, y, yRed, d)))
    ensures x in m && m[x].right == y && y in m && m[y].left == RootOf(b, s) && x != y && x != s
    ensures s in m && (b.Fork? ==> b.node in m && b.node != x && b.node != y && b.node != s)
    ensures c.Top? <==> root == x
    ensures !c.Top? ==>
      c.node in m && m[x].parent == c.node && c.node != x && c.node != y && (b.Fork? ==> c.node != b.node)
    ensures !c.Top? ==> (c.InLeft? <==> m[c.node].left == x)
  {
    HoleSite(m, s, root, c, Fork(a, x, xRed, Fork(b, y, yRed, d)));
    ApartFork(s, c, a, x, xRed, Fork(b, y, yRed, d));
    NodesFork(a, x, xRed, Fork(b, y, yRed, d));
    NodesFork(b, y, yRed, d);
    LinkFork(m, s, a, x, xRed, Fork(b, y, yRed, d));
    LinkFork(m, s, b, y, yRed, d);
    hide Nodes, CtxNodes, Sep, SepCtx, Linked, LinkedUp;
  }

  lemma RightSite(m: Memory, s: RbNode, root: RbNode, c: Ctx, a: Shape, x: RbNode, xRed: bool, b: Shape, y: RbNode,
                  yRed: bool, d: Shape)
    requires Focus(m, s, root, c, Fork(Fork(a, x, xRed, b), y, yRed, d))
    ensures y in m && m[y].left == x && x in m && m[x].right == RootOf(b, s) && x != y && y != s
    ensures s in m && (b.Fork? ==> b.node in m && b.node != x && b.node != y && b.node != s)
    ensures c.Top? <==> root == y
    ensures !c.Top? ==>
      c.node in m && m[y].parent == c.node && c.node != x && c.node != y && (b.Fork? ==> c.node != b.node)
    ensures !c.Top? ==> (c.InRight? <==> m[c.node].right == y)
  {
    HoleSite(m, s, root, c, Fork(Fork(a, x, xRed, b), y, yRed, d));
    ApartFork(s, c, Fork(a, x, xRed, b), y, yRed, d);
    NodesFork(Fork(a, x, xRed, b), y, yRed, d);
    NodesFork(a, x, xRed, b);
    LinkFork(m, s, Fork(a, x, xRed, b), y, yRed, d);
    LinkFork(m, s, a, x, xRed, b);
    hide Nodes, CtxNodes, Sep, SepCtx, Linked, LinkedUp;
  }

  lemma SwungLeft(m: Memory, m': Memory, s: RbNode, root: RbNode, root': RbNode,
                  c: Ctx, a: Shape, x: RbNode, xRed: bool, b: Shape, y: RbNode, yRed: bool, d: Shape)
    requires Focus(m, s, root, c, Fork(a, x, xRed, Fork(b, y, yRed, d)))
    requires Swung(m, m', root, root', c, x, y, b)
    requires m'[x].left == m[x].left && m'[x].right == m[y].left
    requires m'[y].left == x && m'[y].right == m[y].right
    ensures Focus(m', s, root', c, Fork(Fork(a, x, xRed, b), y, yRed, d))
    ensures s in m && s in m' && m'[s] == m[s]
  {
    hide Nodes, CtxNodes, Sep, SepCtx, Linked, LinkedUp, SwungSet, Apart;
    ApartFork(s, c, a, x, xRed, Fork(b, y, yRed, d));
    NodesFork(b, y, yRed, d);
    ApartFork(s, c, b, y, yRed, d);
    ApartFork(s, c, a, x, xRed, b);
    NodesFork(a, x, xRed, b);
    ApartFork(s, c, Fork(a, x, xRed, b), y, yRed, d);
    LinkFork(m, s, b, y, yRed, d);
    LinkFork(m, s, a, x, xRed, Fork(b, y, yRed, d));
    SwungOutside(m, m', root, root', c, x, y, b);
    SwungKeeps(m, m', s, root, root', c, a, b, d, x, y);
    LinkFork(m', s, a, x, xRed, b);
    LinkFork(m', s, Fork(a, x, xRed, b), y, yRed, d);
  }

  lemma SwungRight(m: Memory, m': Memory, s: RbNode, root: RbNode, root': RbNode,
                   c: Ctx, a: Shape, x: RbNode, xRed: bool, b: Shape, y: RbNode, yRed: bool, d: Shape)
    requires Focus(m, s, root, c, Fork(Fork(a, x, xRed, b), y, yRed, d))
    requires Swung(m, m', root, root', c, y, x, b)
    requires m'[y].right == m[y].right && m'[y].left == m[x].right
    requires m'[x].right == y && m'[x].left == m[x].left
    ensures Focus(m', s, root', c, Fork(a, x, xRed, Fork(b, y, yRed, d)))
    ensures s in m && s in m' && m'[s] == m[s]
  {
    hide Nodes, CtxNodes, Sep, SepCtx, Linked, LinkedUp, SwungSet, Apart;
    ApartFork(s, c, Fork(a, x, xRed, b), y, yRed, d);
    NodesFork(a, x, xRed, b);
    ApartFork(s, c, a, x, xRed, b);
    ApartFork(s, c, b, y, yRed, d);
    NodesFork(b, y, yRed, d);
    ApartFork(s, c, a, x, xRed, Fork(b, y, yRed, d));
    LinkFork(m, s, a, x, xRed, b);
    LinkFork(m, s, Fork(a, x, xRed, b), y, yRed, d);
    SwungOutside(m, m', root, root', c, y, x, b);
    SwungKeeps(m, m', s, root, root', c, a, b, d, y, x);
    LinkFork(m', s, b, y, yRed, d);
    LinkFork(m', s, a, x, xRed, Fork(b, y, yRed, d));
  }

  /** Cells outside the tree do not matter, nor does the sentinel's parent. */
  lemma FocusOutside(m: Memory, m': Memory, s: RbNode, root: RbNode, c: Ctx, t: Shape, ns: set<RbNode>)
    requires Focus(m, s, root, c, t) && Outside(m, m', ns)
    requires CtxNodes(c) !! ns && Nodes(t) !! ns
    requires s in m' && m'[s].red == m[s].red
    ensures Focus(m', s, root, c, t)
  {
    hide Nodes, CtxNodes, Sep, SepCtx, Linked, LinkedUp;
    LinkedOutside(m, m', s, t, ns);
    LinkedUpOutside(m, m', s, root, c, RootOf(t, s), ns);
    if t.Fork? && !c.Top? {
      LinkFork(m, s, t.left, t.node, t.red, t.right);
      assert t == Fork(t.left, t.node, t.red, t.right);
      assert t.node in m;
    }
  }

  lemma Painted(m: Memory, s: RbNode, root: RbNode, c: Ctx, t: Shape, red: bool)
    requires Focus(m, s, root, c, t) && t.Fork?
    ensures t.node in m && Focus(m[t.node := m[t.node].(red := red)], s, root, c, Paint(t, red))
  {
    var l, n, r := t.left, t.node, t.right;
    hide Nodes, CtxNodes, Sep, SepCtx, Linked, LinkedUp, Apart;
    assert t == Fork(l, n, t.red, r);
    ApartFork(s, c, l, n, t.red, r);
    ApartFork(s, c, l, n, red, r);
    LinkFork(m, s, l, n, t.red, r);
    var m' := m[n := m[n].(red := red)];
    LinkedOutside(m, m', s, l, {n});
    LinkedOutside(m, m', s, r, {n});
    LinkedUpOutside(m, m', s, root, c, n, {n});
    LinkFork(m', s, l, n, red, r);
  }

  /** A new red leaf in the hole; m' has its cell and the link to it. */
  lemma LeafHung(m: Memory, m': Memory, s: RbNode, root: RbNode, root': RbNode, c: Ctx, n: RbNode, red: bool)
    requires Focus(m, s, root, c, Leaf) && n != s && n !in CtxNodes(c)
    requires Rehung(m, m', root, root', c, n)
    requires forall o :: o in m && o != n && (!c.Top? ==> o != c.node) ==> o in m' && m'[o] == m[o]
    requires n in m' && m'[n].left == s && m'[n].right == s && m'[n].red == red
    requires !c.Top? ==> m'[n].parent == c.node
    ensures Focus(m', s, root', c, Fork(Leaf, n, red, Leaf))
  {
    assert Outside(m, m', {n} + HookSet(c));
    hide CtxNodes, Sep, SepCtx, LinkedUp;
    RootsInside(c, Leaf);
    ApartFork(s, c, Leaf, n, red, Leaf);
    LinkedUpRehung(m, m', s, root, root', c, s, n, {n} + HookSet(c));
    LinkFork(m', s, Leaf, n, red, Leaf);
  }

  /** n leaves the tree and its only subtree x takes its place. */
  lemma Unlinked(m: Memory, m': Memory, s: RbNode, root: RbNode, root': RbNode, c: Ctx, t: Shape, x: Shape)
    requires Focus(m, s, root, c, t) && t.Fork?
    requires (t.left.Leaf? && x == t.right) || (t.right.Leaf? && x == t.left)
    requires Rehung(m, m', root, root', c, RootOf(x, s)) && Outside(m, m', RootSet(x) + HookSet(c) + {s})
    requires s in m' && m'[s].red == m[s].red
    requires x.Fork? ==> x.node in m && x.node in m' && m'[x.node] == m[x.node].(parent := m'[x.node].parent)
    requires x.Fork? && !c.Top? ==> m'[x.node].parent == c.node
    ensures Focus(m', s, root', c, x) && t.node !in CtxNodes(c) && t.node !in Nodes(x)
  {
    hide Nodes, CtxNodes, Sep, SepCtx, Linked, LinkedUp, RootSet, HookSet, Apart;
    RootsInside(c, x);
    assert t == Fork(t.left, t.node, t.red, t.right);
    ApartFork(s, c, t.left, t.node, t.red, t.right);
    LinkFork(m, s, t.left, t.node, t.red, t.right);
    var ns := RootSet(x) + HookSet(c) + {s};
    LinkedMoved(m, m', s, x, ns);
    LinkedUpRehung(m, m', s, root, root', c, t.node, RootOf(x, s), ns);
  }

  ghost function ReplacedSet(n: RbNode, l: Shape, r: Shape, c: Ctx): set<RbNode> {
    {n} + RootSet(l) + RootSet(r) + HookSet(c)
  }

  lemma ReplacedApart(s: RbNode, n: RbNode, red: bool, l: Shape, r: Shape, c: Ctx)
    requires Apart(s, c, Fork(l, n, red, r))
    ensures var ns := ReplacedSet(n, l, r, c);
      s !in ns && Nodes(l) * ns <= RootSet(l) && Nodes(r) * ns <= RootSet(r) && CtxNodes(c) * ns <= HookSet(c)
  {
    RootsInside(c, l);
    RootsInside(c, r);
    ApartFork(s, c, l, n, red, r);
    hide Nodes, CtxNodes, Sep, SepCtx, RootSet, HookSet, Apart;
  }

  /** o is about to leave its position to n, which is out of the tree: c hangs
      together above o, l and r below it. */
  ghost predicate Vacant(m: Memory, s: RbNode, root: RbNode, c: Ctx, l: Shape, o: RbNode, n: RbNode, red: bool,
                         r: Shape) {
    && Apart(s, c, Fork(l, n, red, r)) && s in m && !m[s].red
    && Linked(m, s, l) && Linked(m, s, r) && LinkedUp(m, s, root, c, o)
  }

  lemma VacantKeeps(m: Memory, m': Memory, s: RbNode, root: RbNode, root': RbNode, c: Ctx, l: Shape, o: RbNode,
                    n: RbNode, red: bool, r: Shape)
    requires Vacant(m, s, root, c, l, o, n, red, r)
    requires Rehung(m, m', root, root', c, n)
    requires Outside(m, m', ReplacedSet(n, l, r, c))
    requires l.Fork? ==> l.node in m && l.node in m' && m'[l.node] == m[l.node].(parent := n)
    requires r.Fork? ==> r.node in m && r.node in m' && m'[r.node] == m[r.node].(parent := n)
    ensures Vacant(m', s, root', c, l, n, n, red, r)
  {
    hide Nodes, CtxNodes, Sep, SepCtx, Linked, LinkedUp, RootSet, HookSet, ReplacedSet, Apart;
    ApartFork(s, c, l, n, red, r);
    ReplacedApart(s, n, red, l, r, c);
    var ns := ReplacedSet(n, l, r, c);
    LinkedMoved(m, m', s, l, ns);
    LinkedMoved(m, m', s, r, ns);
    LinkedUpRehung(m, m', s, root, root', c, o, n, ns);
  }

  /** n takes over the position, links and colour of o, which leaves the tree. */
  lemma Replaced(m: Memory, m': Memory, s: RbNode, root: RbNode, root': RbNode, c: Ctx, l: Shape, o: RbNode, n: RbNode,
                 red: bool, r: Shape)
    requires Vacant(m, s, root, c, l, o, n, red, r)
    requires Rehung(m, m', root, root', c, n)
    requires Outside(m, m', ReplacedSet(n, l, r, c))
    requires n in m' && m'[n].left == RootOf(l, s) && m'[n].right == RootOf(r, s) && m'[n].red == red
    requires !c.Top? ==> m'[n].parent == c.node
    requires l.Fork? ==> l.node in m && l.node in m' && m'[l.node] == m[l.node].(parent := n)
    requires r.Fork? ==> r.node in m && r.node in m' && m'[r.node] == m[r.node].(parent := n)
    ensures Focus(m', s, root', c, Fork(l, n, red, r))
  {
    hide Vacant, Apart, Linked, LinkedUp;
    VacantKeeps(m, m', s, root, root', c, l, o, n, red, r);
    Filled(m', s, root', c, l, n, red, r);
  }

  lemma Filled(m: Memory, s: RbNode, root: RbNode, c: Ctx, l: Shape, n: RbNode, red: bool, r: Shape)
    requires Vacant(m, s, root, c, l, n, n, red, r) && Holds(m, s, l, n, red, r)
    requires !c.Top? ==> m[n].parent == c.node
    ensures Focus(m, s, root, c, Fork(l, n, red, r))
  {
    hide Apart, LinkedUp;
    LinkFork(m, s, l, n, red, r);
    hide Linked, Holds;
  }

  // ---------- what the fix-up loops see from a position ----------

  lemma Look(m: Memory, s: RbNode, root: RbNode, c: Ctx, t: Shape)
    requires Focus(m, s, root, c, t) && !c.Top?
    ensures c.node in m && m[c.node].red == c.red && c.node != s
    ensures m[c.node].left == (if c.InLeft? then RootOf(t, s) else RootOf(c.other, s))
    ensures m[c.node].right == (if c.InLeft? then RootOf(c.other, s) else RootOf(t, s))
    ensures RootOf(c.other, s) in m && m[RootOf(c.other, s)].red == IsRed(c.other)
    ensures RootOf(t, s) in m && m[RootOf(t, s)].red == IsRed(t)
    ensures t.Fork? ==> m[t.node].parent == c.node
    ensures c.other.Fork? ==> m[c.other.node].parent == c.node
    ensures root != RootOf(t, s)
    ensures t.Fork? || c.other.Fork? ==> RootOf(t, s) != RootOf(c.other, s)
  {
    RootAbove(m, s, root, c, RootOf(t, s));
    CtxParts(c);
    assert c.other.Fork? ==> c.other.node in Nodes(c.other);
    hide Nodes, CtxNodes, Sep, SepCtx;
  }

  lemma {:induction false} LinkedInside(m: Memory, s: RbNode, t: Shape)
    requires Linked(m, s, t)
    ensures Nodes(t) <= m.Keys
  {
    if t.Fork? {
      LinkedInside(m, s, t.left);
      LinkedInside(m, s, t.right);
    }
  }
}
