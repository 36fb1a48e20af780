/** The red-black tree of src/gf_rbtree.c on the heap: rotations, insertion and
    deletion with their fix-up loops, over nodes updated in place. */
module RbTree {
  import opened RbShape
  import opened RbMemory
  import opened RbRemoval

  ghost predicate Ascending(s: seq<RbNode>)
    reads s`key
  {
    forall i, j :: 0 <= i < j < |s| ==> s[i].key <= s[j].key
  }

  /** Everything before is at most key, everything after larger. */
  ghost predicate Bounds(before: seq<RbNode>, after: seq<RbNode>, key: int)
    reads before`key, after`key
  {
    (forall n :: n in before ==> n.key <= key) && (forall n :: n in after ==> key < n.key)
  }

  lemma LooseRoot(t: Shape, h: int)
    requires Balanced(t, h)
    ensures Short(Top, t, h)
  {
  }

  lemma AscendingAround(a: seq<RbNode>, l: seq<RbNode>, x: RbNode, r: seq<RbNode>, b: seq<RbNode>, s: seq<RbNode>)
    requires s == a + (l + [x] + r) + b && Ascending(s)
    ensures forall n :: n in l ==> n.key <= x.key
    ensures forall n :: n in r ==> x.key <= n.key
  {
    var k := |a| + |l|;
    assert s[k] == x;
    forall n | n in l ensures n.key <= x.key {
      var i :| 0 <= i < |l| && l[i] == n;
      assert s[|a| + i] == n;
    }
    forall n | n in r ensures x.key <= n.key {
      var i :| 0 <= i < |r| && r[i] == n;
      assert s[k + 1 + i] == n;
    }
  }

  lemma AscendingInsert(a: seq<RbNode>, x: RbNode, b: seq<RbNode>)
    requires Ascending(a + b)
    requires Bounds(a, b, x.key)
    ensures Ascending(a + [x] + b)
  {
    var s, w := a + b, a + [x] + b;
    forall i, j | 0 <= i < j < |w| ensures w[i].key <= w[j].key {
      if j < |a| {
        assert w[i] == s[i] && w[j] == s[j];
      } else if i < |a| {
        assert w[i] == s[i] && w[i] == a[i] && a[i] in a;
        if j > |a| { assert w[j] == s[j - 1]; }
      } else {
        assert w[j] == b[j - |a| - 1] && w[j] == s[j - 1] && b[j - |a| - 1] in b;
        if i > |a| { assert w[i] == s[i - 1]; }
      }
    }
  }

  class Tree {
    var root: RbNode
    const sentinel: RbNode
    ghost var mem: Memory     // the cells of the nodes in use
    ghost var shape: Shape    // the tree itself
    ghost var height: int     // its black height

    constructor (node: RbNode)
      modifies node
      ensures Valid() && sentinel == node && shape == Leaf
      ensures node.data == null && fresh({this})
    {
      root, sentinel := node, node;
      shape, height := Leaf, 0;
      new;
      node.left, node.right, node.parent, node.key, node.data := null, null, null, 0, null;
      node.red := false;
      mem := map[node := Cell(null, null, null, false)];
    }

    /** The nodes carry exactly the cells of mem. */
    ghost predicate Mirror()
      reads this, mem.Keys
    {
      forall n :: n in mem ==>
        n.left == mem[n].left && n.right == mem[n].right && n.parent == mem[n].parent && n.red == mem[n].red
    }

    lemma Cells(n: RbNode)
      requires Mirror() && n in mem
      ensures n.left == mem[n].left && n.right == mem[n].right && n.parent == mem[n].parent && n.red == mem[n].red
    {
    }

    ghost predicate At(c: Ctx, t: Shape)
      reads this, mem.Keys
    {
      Mirror() && Focus(mem, sentinel, root, c, t)
    }

    /** A linked red-black tree in key order. */
    ghost predicate Valid()
      reads this, mem.Keys, Inorder(shape)
    {
      && mem.Keys == Nodes(shape) + {sentinel}
      && At(Top, shape)
      && Balanced(shape, height) && !IsRed(shape)
      && Ascending(Inorder(shape))
    }

    /** The members in order. */
    ghost function Order(): seq<RbNode>
      reads this
    {
      Inorder(shape)
    }

    // ---------- assignments to one field, with the cell kept in step ----------

    method SetLeft(n: RbNode, v: RbNode?)
      requires Mirror() && n in mem
      modifies n`left, this`mem
      ensures Mirror() && mem.Keys == old(mem.Keys) && mem == old(mem)[n := old(mem)[n].(left := v)]
    {
      n.left := v;
      mem := mem[n := mem[n].(left := v)];
    }

    method SetRight(n: RbNode, v: RbNode?)
      requires Mirror() && n in mem
      modifies n`right, this`mem
      ensures Mirror() && mem.Keys == old(mem.Keys) && mem == old(mem)[n := old(mem)[n].(right := v)]
    {
      n.right := v;
      mem := mem[n := mem[n].(right := v)];
    }

    method SetParent(n: RbNode, v: RbNode?)
      requires Mirror() && n in mem
      modifies n`parent, this`mem
      ensures Mirror() && mem.Keys == old(mem.Keys) && mem == old(mem)[n := old(mem)[n].(parent := v)]
    {
      n.parent := v;
      mem := mem[n := mem[n].(parent := v)];
    }

    /** Sets the parent of a child that is not the sentinel. */
    method Adopt(child: RbNode, parent: RbNode)
      requires Mirror() && child in mem
      modifies child`parent, this`mem
      ensures Mirror() && mem.Keys == old(mem.Keys) && mem == Adopted(old(mem), sentinel, child, parent)
    {
      if child != sentinel {
        SetParent(child, parent);
      }
    }

    method SetRed(n: RbNode, v: bool)
      requires Mirror() && n in mem
      modifies n`red, this`mem
      ensures Mirror() && mem.Keys == old(mem.Keys) && mem == old(mem)[n := old(mem)[n].(red := v)]
    {
      n.red := v;
      mem := mem[n := mem[n].(red := v)];
    }

    /** Colours the node at the focus. */
    method Color(n: RbNode, red: bool, ghost c: Ctx, ghost t: Shape)
      requires At(c, t) && t.Fork? && t.node == n
      modifies n`red, this`mem
      ensures mem.Keys == old(mem.Keys) && Outside(old(mem), mem, {n}) && At(c, Paint(t, red))
      ensures sentinel in mem && mem[sentinel] == old(mem)[sentinel]
    {
      Painted(mem, sentinel, root, c, t, red);
      SetRed(n, red);
    }

    method LeftRotate(node: RbNode, ghost c: Ctx, ghost t: Shape)
      requires At(c, t) && t.Fork? && t.node == node && t.right.Fork?
      modifies this`root, this`mem, mem.Keys`left, mem.Keys`right, mem.Keys`parent
      ensures mem.Keys == old(mem.Keys) && sentinel in mem && mem[sentinel] == old(mem)[sentinel]
      ensures At(c, Fork(Fork(t.left, node, t.red, t.right.left), t.right.node, t.right.red, t.right.right))
    {
      ghost var m, top := mem, root;
      LeftRotatedSwung(m, sentinel, root, c, t.left, node, t.red, t.right.left, t.right.node, t.right.red,
        t.right.right);
      LeftRotateLinks(node);
      SwungOutside(m, mem, top, root, c, node, t.right.node, t.right.left);
      SwungLeft(m, mem, sentinel, top, root, c, t.left, node, t.red, t.right.left, t.right.node, t.right.red,
        t.right.right);
    }

    /** Makes the link that leads to before lead to after. */
    method Hang(before: RbNode, after: RbNode)
      requires Mirror() && before in mem && (before != root ==> before.parent != null && before.parent in mem)
      modifies this`root, this`mem, mem.Keys`left, mem.Keys`right
      ensures Mirror() && (mem, root) == Rehang(old(mem), old(root), before, after)
    {
      if before == root {
        root := after;
      } else if before == before.parent.left {
        SetLeft(before.parent, after);
      } else {
        SetRight(before.parent, after);
      }
    }

    method LeftRotateLinks(node: RbNode)
      requires Mirror() && node in mem && mem[node].right != null && mem[node].right in mem && node != mem[node].right
      requires Rotatable(mem, root, node, mem[node].right, mem[mem[node].right].left) &&
        mem[mem[node].right].left != node
      modifies this`root, this`mem, mem.Keys`left, mem.Keys`right, mem.Keys`parent
      ensures Mirror() && (mem, root) == LeftRotated(old(mem), sentinel, old(root), node)
    {
      hide Mirror;
      Cells(node);
      var temp := node.right;
      Cells(temp);
      SetRight(node, temp.left);
      Cells(temp);
      Adopt(temp.left, node);
      Cells(node);
      SetParent(temp, node.parent);
      Cells(node);
      Hang(node, temp);
      SetLeft(temp, node);
      SetParent(node, temp);
    }

    method RightRotate(node: RbNode, ghost c: Ctx, ghost t: Shape)
      requires At(c, t) && t.Fork? && t.node == node && t.left.Fork?
      modifies this`root, this`mem, mem.Keys`left, mem.Keys`right, mem.Keys`parent
      ensures mem.Keys == old(mem.Keys) && sentinel in mem && mem[sentinel] == old(mem)[sentinel]
      ensures At(c, Fork(t.left.left, t.left.node, t.left.red, Fork(t.left.right, node, t.red, t.right)))
    {
      ghost var m, top := mem, root;
      RightRotatedSwung(m, sentinel, root, c, t.left.left, t.left.node, t.left.red, t.left.right, node, t.red, t.right);
      RightRotateLinks(node);
      SwungOutside(m, mem, top, root, c, node, t.left.node, t.left.right);
      SwungRight(m, mem, sentinel, top, root, c, t.left.left, t.left.node, t.left.red, t.left.right, node, t.red,
        t.right);
    }

    method RightRotateLinks(node: RbNode)
      requires Mirror() && node in mem && mem[node].left != null && mem[node].left in mem && node != mem[node].left
      requires Rotatable(mem, root, node, mem[node].left, mem[mem[node].left].right) &&
        mem[mem[node].left].right != node
      modifies this`root, this`mem, mem.Keys`left, mem.Keys`right, mem.Keys`parent
      ensures Mirror() && (mem, root) == RightRotated(old(mem), sentinel, old(root), node)
    {
      hide Mirror;
      Cells(node);
      var temp := node.left;
      Cells(temp);
      SetLeft(node, temp.right);
      Cells(temp);
      Adopt(temp.right, node);
      Cells(node);
      SetParent(temp, node.parent);
      Cells(node);
      HangRight(node, temp);
      SetRight(temp, node);
      SetParent(node, temp);
    }

    method HangRight(before: RbNode, after: RbNode)
      requires Mirror() && before in mem && (before != root ==> before.parent != null && before.parent in mem)
      modifies this`root, this`mem, mem.Keys`left, mem.Keys`right
      ensures Mirror() && (mem, root) == RehangRight(old(mem), old(root), before, after)
    {
      if before == root {
        root := after;
      } else if before == before.parent.right {
        SetRight(before.parent, after);
      } else {
        SetLeft(before.parent, after);
      }
    }

    // ---------- moving the position, on the heap ----------

    /** What the code reads around a position. */
    lemma Sight(c: Ctx, t: Shape)
      requires At(c, t)
      ensures c.Top? <==> root == RootOf(t, sentinel)
      ensures RootOf(t, sentinel) in mem && RootOf(t, sentinel).red == IsRed(t)
      ensures sentinel in mem && (t.Fork? ==> t.node != sentinel) && (!c.Top? ==> c.node != sentinel)
      ensures !c.Top? ==>
        && c.node in mem && c.node.red == c.red
        && c.node.left == (if c.InLeft? then RootOf(t, sentinel) else RootOf(c.other, sentinel))
        && c.node.right == (if c.InLeft? then RootOf(c.other, sentinel) else RootOf(t, sentinel))
        && RootOf(c.other, sentinel) in mem && RootOf(c.other, sentinel).red == IsRed(c.other)
        && (t.Fork? ==> t.node.parent == c.node)
        && (t.Fork? || c.other.Fork? ==> RootOf(t, sentinel) != RootOf(c.other, sentinel))
    {
      if !c.Top? { Look(mem, sentinel, root, c, t); }
      hide Nodes, CtxNodes, Sep, SepCtx;
    }

    lemma Up(c: Ctx, t: Shape)
      requires At(c, t) && !c.Top?
      ensures At(c.up, Fill(c, t))
    {
      Upward(mem, sentinel, root, c, t);
    }

    lemma Down(c: Ctx, t: Shape)
      requires !c.Top? && At(c.up, Fill(c, t))
      ensures At(c, t)
    {
      Downward(mem, sentinel, root, c, t);
    }

    // ---------- insertion ----------

    /** Where the fix-up after an insertion stands: cur, red, at the root of t. */
    ghost predicate Rising(cur: RbNode, c: Ctx, t: Shape, h: int)
      reads this, mem.Keys
    {
      && At(c, t) && IsRed(t) && t.node == cur && Balanced(t, h) && CtxBalanced(c, h)
    }

    /** Colours a node and its sibling black. */
    method Darken(n: RbNode, sibling: RbNode, ghost c: Ctx, ghost t: Shape)
      requires At(c, t) && t.Fork? && t.node == n && !c.Top? && c.other.Fork? && c.other.node == sibling
      modifies this`mem, mem.Keys`red
      ensures mem.Keys == old(mem.Keys)
      ensures At(c.up, Fill(c.(other := Paint(c.other, false)), Paint(t, false)))
    {
      hide At;
      ghost var up, v := c.up, Paint(t, false);
      Sight(c, t);
      Color(n, false, c, t);
      Up(c, v);
      ghost var side := if c.InLeft? then InRight(up, v, c.node, c.red) else InLeft(up, c.node, c.red, v);
      Down(side, c.other);
      Color(sibling, false, side, c.other);
      Up(side, Paint(c.other, false));
    }

    /** The round for a red uncle, on either side. */
    method Recolor(cur: RbNode, uncle: RbNode, ghost c: Ctx, ghost t: Shape, ghost h: int)
      returns (next: RbNode, ghost c': Ctx, ghost t': Shape, ghost h': int)
      requires Rising(cur, c, t, h) && !c.Top? && c.red && IsRed(c.up.other) && uncle == c.up.other.node
      modifies this`mem, mem.Keys`red
      ensures mem.Keys == old(mem.Keys) && Rising(next, c', t', h') && Depth(c') < Depth(c)
      ensures Inorder(Plug(c', t')) == Inorder(Plug(c, t)) && Nodes(Plug(c', t')) == Nodes(Plug(c, t))
    {
      Sight(c, t);
      Up(c, t);
      Sight(c.up, Fill(c, t));
      RecoloredUp(c, t, h);
      hide At, Balanced, CtxBalanced, Inorder, Nodes, Plug;
      ghost var v, w, g, top := Paint(Fill(c, t), false), Paint(c.up.other, false), c.up.node, c.up.up;
      var parent := cur.parent;
      Darken(parent, uncle, c.up, Fill(c, t));
      next := parent.parent;
      ghost var whole := if c.up.InLeft? then Fork(v, g, false, w) else Fork(w, g, false, v);
      Color(next, true, top, whole);
      c', t', h' := top, Paint(whole, true), h + 1;
    }

    /** A red pair at the hole of c, the lower one at the root of low. */
    ghost predicate RedPair(next: RbNode, c: Ctx, low: Shape, p: RbNode, x: Shape, lowFirst: bool, h: int)
      reads this, mem.Keys
    {
      && At(c, if lowFirst then Fork(low, p, true, x) else Fork(x, p, true, low))
      && IsRed(low) && low.node == next && Balanced(low, h) && Balanced(x, h) && !IsRed(x)
    }

    /** First rotation: makes the lower red node an outer grandchild. */
    method StraightenLeft(cur: RbNode, ghost c: Ctx, ghost t: Shape, ghost h: int)
      returns (next: RbNode, ghost low: Shape, ghost p: RbNode, ghost x: Shape)
      requires Rising(cur, c, t, h) && !c.Top? && c.red
      modifies this`root, this`mem, mem.Keys`left, mem.Keys`right, mem.Keys`parent
      ensures mem.Keys == old(mem.Keys) && RedPair(next, c.up, low, p, x, true, h)
      ensures Inorder(Fork(low, p, true, x)) == Inorder(Fill(c, t)) && Nodes(Fork(low, p, true, x)) == Nodes(Fill(c, t))
    {
      Sight(c, t);
      Up(c, t);
      next := cur;
      if next == next.parent.right {
        RotationKeeps(c.other, c.node, true, t.left, t.node, true, t.right);
        hide At, Plug, Inorder, Nodes;
        next := next.parent;
        LeftRotate(next, c.up, Fill(c, t));
        low, p, x := Fork(c.other, c.node, true, t.left), t.node, t.right;
      } else {
        low, p, x := t, c.node, c.other;
      }
    }

    method StraightenRight(cur: RbNode, ghost c: Ctx, ghost t: Shape, ghost h: int)
      returns (next: RbNode, ghost low: Shape, ghost p: RbNode, ghost x: Shape)
      requires Rising(cur, c, t, h) && !c.Top? && c.red
      modifies this`root, this`mem, mem.Keys`left, mem.Keys`right, mem.Keys`parent
      ensures mem.Keys == old(mem.Keys) && RedPair(next, c.up, low, p, x, false, h)
      ensures Inorder(Fork(x, p, true, low)) == Inorder(Fill(c, t)) && Nodes(Fork(x, p, true, low)) == Nodes(Fill(c, t))
    {
      Sight(c, t);
      Up(c, t);
      next := cur;
      if next == next.parent.left {
        RotationKeeps(t.left, t.node, true, t.right, c.node, true, c.other);
        hide At, Plug, Inorder, Nodes;
        next := next.parent;
        RightRotate(next, c.up, Fill(c, t));
        low, p, x := Fork(t.right, c.node, true, c.other), t.node, t.left;
      } else {
        low, p, x := t, c.node, c.other;
      }
    }

    /** Second rotation, around the grandparent. */
    method SwingRight(next: RbNode, ghost c: Ctx, ghost low: Shape, ghost p: RbNode, ghost x: Shape, ghost h: int)
      requires RedPair(next, c, low, p, x, true, h) && c.InLeft? && !c.red && CtxBalanced(c, h) && !IsRed(c.other)
      modifies this`root, this`mem, mem.Keys`left, mem.Keys`right, mem.Keys`parent, mem.Keys`red
      ensures mem.Keys == old(mem.Keys)
      ensures var c' := InLeft(c.up, p, false, Fork(x, c.node, true, c.other));
        && Rising(next, c', low, h)
        && Inorder(Plug(c', low)) == Inorder(Plug(c, Fork(low, p, true, x)))
        && Nodes(Plug(c', low)) == Nodes(Plug(c, Fork(low, p, true, x)))
    {
      ghost var g, u, top := c.node, c.other, c.up;
      ghost var pair := Fork(low, p, true, x);
      TurnedRight(top, low, p, x, g, u, h);
      Sight(c, pair);
      Down(InLeft(c, p, true, x), low);
      Sight(InLeft(c, p, true, x), low);
      hide At, Balanced, CtxBalanced, Inorder, Nodes;
      Color(next.parent, false, c, pair);
      pair := Paint(pair, false);
      Up(c, pair);
      Sight(c, pair);
      Color(next.parent.parent, true, top, Fork(pair, g, false, u));
      RightRotate(next.parent.parent, top, Fork(pair, g, true, u));
      Down(InLeft(top, p, false, Fork(x, g, true, u)), low);
    }

    method SwingLeft(next: RbNode, ghost c: Ctx, ghost low: Shape, ghost p: RbNode, ghost x: Shape, ghost h: int)
      requires RedPair(next, c, low, p, x, false, h) && c.InRight? && !c.red && CtxBalanced(c, h) && !IsRed(c.other)
      modifies this`root, this`mem, mem.Keys`left, mem.Keys`right, mem.Keys`parent, mem.Keys`red
      ensures mem.Keys == old(mem.Keys)
      ensures var c' := InRight(c.up, Fork(c.other, c.node, true, x), p, false);
        && Rising(next, c', low, h)
        && Inorder(Plug(c', low)) == Inorder(Plug(c, Fork(x, p, true, low)))
        && Nodes(Plug(c', low)) == Nodes(Plug(c, Fork(x, p, true, low)))
    {
      ghost var g, u, top := c.node, c.other, c.up;
      ghost var pair := Fork(x, p, true, low);
      TurnedLeft(top, low, p, x, g, u, h);
      Sight(c, pair);
      Down(InRight(c, x, p, true), low);
      Sight(InRight(c, x, p, true), low);
      hide At, Balanced, CtxBalanced, Inorder, Nodes;
      Color(next.parent, false, c, pair);
      pair := Paint(pair, false);
      Up(c, pair);
      Sight(c, pair);
      Color(next.parent.parent, true, top, Fork(u, g, false, pair));
      LeftRotate(next.parent.parent, top, Fork(u, g, true, pair));
      Down(InRight(top, Fork(u, g, true, x), p, false), low);
    }

    lemma RisingSight(cur: RbNode, c: Ctx, t: Shape, h: int)
      requires Rising(cur, c, t, h)
      ensures c.Top? <==> cur == root
      ensures !c.Top? ==> cur.parent == c.node && c.node.red == c.red
      ensures !c.Top? && c.red ==>
        && !c.up.Top? && !c.up.red && c.node.parent == c.up.node && CtxBalanced(c.up, h)
        && c.up.node.left == (if c.up.InLeft? then c.node else RootOf(c.up.other, sentinel))
        && c.up.node.right == (if c.up.InLeft? then RootOf(c.up.other, sentinel) else c.node)
        && RootOf(c.up.other, sentinel).red == IsRed(c.up.other) && c.node != RootOf(c.up.other, sentinel)
        && (c.up.node.left == c.node <==> c.up.InLeft?)
        && Plug(c, t) == Plug(c.up, Fill(c, t)) && Depth(c) == 2 + Depth(c.up.up)
    {
      Sight(c, t);
      if !c.Top? {
        Up(c, t);
        Sight(c.up, Fill(c, t));
      }
    }

    /** One round of the fix-up when cur's parent is red. */
    method InsertRound(cur: RbNode, ghost c: Ctx, ghost t: Shape, ghost h: int)
      returns (next: RbNode, ghost c': Ctx, ghost t': Shape, ghost h': int)
      requires Rising(cur, c, t, h) && !c.Top? && c.red
      modifies this`root, this`mem, mem.Keys`left, mem.Keys`right, mem.Keys`parent, mem.Keys`red
      ensures mem.Keys == old(mem.Keys) && Rising(next, c', t', h') && Depth(c') < Depth(c)
      ensures Inorder(Plug(c', t')) == Inorder(Plug(c, t)) && Nodes(Plug(c', t')) == Nodes(Plug(c, t))
    {
      RisingSight(cur, c, t, h);
      ghost var up := c.up;
      hide At, Balanced, CtxBalanced, Plug, Inorder, Nodes, Rising, RedPair;
      ghost var low, p, x;
      if cur.parent == cur.parent.parent.left {
        var temp := cur.parent.parent.right;
        if temp.red {
          next, c', t', h' := Recolor(cur, temp, c, t, h);
        } else {
          next, low, p, x := StraightenLeft(cur, c, t, h);
          PlugSame(up, Fork(low, p, true, x), Fill(c, t));
          SwingRight(next, up, low, p, x, h);
          c', t', h' := InLeft(up.up, p, false, Fork(x, up.node, true, up.other)), low, h;
        }
      } else {
        var temp := cur.parent.parent.left;
        if temp.red {
          next, c', t', h' := Recolor(cur, temp, c, t, h);
        } else {
          next, low, p, x := StraightenRight(cur, c, t, h);
          PlugSame(up, Fork(x, p, true, low), Fill(c, t));
          SwingLeft(next, up, low, p, x, h);
          c', t', h' := InRight(up.up, Fork(up.other, up.node, true, x), p, false), low, h;
        }
      }
    }

    /** The fix-up loop after an insertion. */
    method InsertFixup(node: RbNode, ghost c0: Ctx, ghost t0: Shape)
      returns (ghost c: Ctx, ghost t: Shape, ghost h: int)
      requires At(c0, t0) && t0 == Fork(Leaf, node, true, Leaf) && CtxBalanced(c0, 0)
      modifies this`root, this`mem, mem.Keys`left, mem.Keys`right, mem.Keys`parent, mem.Keys`red
      ensures mem.Keys == old(mem.Keys) && At(c, t)
      ensures IsRed(t) && Balanced(t, h) && CtxBalanced(c, h) && (!c.Top? ==> !c.red)
      ensures Inorder(Plug(c, t)) == Inorder(Plug(c0, t0)) && Nodes(Plug(c, t)) == Nodes(Plug(c0, t0))
    {
      var cur := node;
      c, t, h := c0, t0, 0;
      RisingSight(cur, c, t, h);
      while cur != root && cur.parent.red
        invariant mem.Keys == old(mem.Keys) && Rising(cur, c, t, h)
        invariant c.Top? <==> cur == root
        invariant !c.Top? ==> cur.parent == c.node && c.node.red == c.red
        invariant Inorder(Plug(c, t)) == Inorder(Plug(c0, t0)) && Nodes(Plug(c, t)) == Nodes(Plug(c0, t0))
        decreases Depth(c)
      {
        cur, c, t, h := InsertRound(cur, c, t, h);
        RisingSight(cur, c, t, h);
      }
    }

    /** Where the search for key goes from the root of t. */
    ghost function Below(c: Ctx, t: Shape, goLeft: bool): (r: (Ctx, Shape))
      requires t.Fork?
      ensures !r.0.Top? && r.0.node == t.node && (r.0.InLeft? <==> goLeft) && Plug(r.0, r.1) == Plug(c, t)
    {
      if goLeft then (InLeft(c, t.node, t.red, t.right), t.left) else (InRight(c, t.left, t.node, t.red), t.right)
    }

    lemma StepDown(c: Ctx, t: Shape, key: int)
      requires Valid() && At(c, t) && Plug(c, t) == shape && t.Fork? && Bounds(Pre(c), Post(c), key)
      ensures var (c', t') := Below(c, t, key < t.node.key);
        && At(c', t') && Bounds(Pre(c'), Post(c'), key)
        && RootOf(t', sentinel) == (if key < t.node.key then t.node.left else t.node.right)
        && (t'.Fork? <==> RootOf(t', sentinel) != sentinel)
    {
      var (c', t') := Below(c, t, key < t.node.key);
      Split(c, t);
      Down(c', t');
      Sight(c', t');
    }

    /** The descent of an insertion: the hole where a node with this key belongs,
        after every member with a key that is not larger. */
    method Descend(key: int) returns (temp: RbNode, goLeft: bool, ghost c: Ctx)
      requires Valid() && shape.Fork?
      ensures Valid() && At(c, Leaf) && Plug(c, Leaf) == shape && !c.Top? && c.node == temp && (c.InLeft? <==> goLeft)
      ensures Bounds(Pre(c), Post(c), key)
    {
      ghost var t := shape;
      c := Top;
      Sight(c, t);
      temp := root;
      StepDown(c, t, key);
      hide Valid, At, Bounds, Plug;
      goLeft := key < temp.key;
      var p := if goLeft then temp.left else temp.right;
      while p != sentinel
        invariant Valid() && At(c, t) && Bounds(Pre(c), Post(c), key) && Plug(c, t) == shape && t.Fork? &&
          t.node == temp
        invariant goLeft == (key < temp.key) && p == if goLeft then temp.left else temp.right
        invariant var (c', t') := Below(c, t, goLeft);
          At(c', t') && Bounds(Pre(c'), Post(c'), key) && RootOf(t', sentinel) == p && (t'.Fork? <==> p != sentinel)
        decreases t
      {
        var (c', t') := Below(c, t, goLeft);
        c, t := c', t';
        temp := p;
        StepDown(c, t, key);
        goLeft := key < temp.key;
        p := if goLeft then temp.left else temp.right;
      }
      c := Below(c, t, goLeft).0;
    }

    /** The order around the root of a subtree. */
    lemma Split(c: Ctx, t: Shape)
      requires Ascending(Inorder(shape)) && Plug(c, t) == shape && t.Fork?
      ensures forall n :: n in Inorder(t.left) ==> n.key <= t.node.key
      ensures forall n :: n in Inorder(t.right) ==> t.node.key <= n.key
    {
      PlugInorder(c, t);
      AscendingAround(Pre(c), Inorder(t.left), t.node, Inorder(t.right), Post(c), Inorder(shape));
    }

    /** The fields of a new leaf. */
    method Enter(node: RbNode, parent: RbNode?, red: bool)
      requires Mirror() && node !in mem
      modifies this`mem, node`left, node`right, node`parent, node`red
      ensures Mirror() && mem == old(mem)[node := Cell(sentinel, sentinel, parent, red)]
    {
      node.parent := parent;
      node.left := sentinel;
      node.right := sentinel;
      node.red := red;
      mem := mem[node := Cell(sentinel, sentinel, parent, red)];
    }

    /** Links node, still outside the tree, as a leaf below temp. */
    method AttachLeaf(node: RbNode, temp: RbNode, goLeft: bool, ghost c: Ctx)
      requires At(c, Leaf) && node !in mem && node !in CtxNodes(c) && sentinel in mem
      requires !c.Top? && c.node == temp && temp in mem && (c.InLeft? <==> goLeft)
      modifies this`mem, temp`left, temp`right, node`left, node`right, node`parent, node`red
      ensures mem.Keys == old(mem.Keys) + {node} && At(c, Fork(Leaf, node, true, Leaf))
    {
      hide Focus, LinkedUp, Sep, SepCtx, CtxNodes, Nodes;
      if goLeft {
        SetLeft(temp, node);
      } else {
        SetRight(temp, node);
      }
      Enter(node, temp, true);
      LeafHung(old(mem), mem, sentinel, root, root, c, node, true);
    }

    lemma RiseAll(c: Ctx, t: Shape)
      requires At(c, t)
      ensures At(Top, Plug(c, t))
    {
      ComposeTop(c);
      Rise(mem, sentinel, root, c, Top, t);
    }

    /** Blackens the root, which completes an insertion. */
    method Settle(ghost c: Ctx, ghost t: Shape, ghost h: int)
      requires At(c, t) && IsRed(t) && Balanced(t, h) && CtxBalanced(c, h) && (!c.Top? ==> !c.red)
      modifies this`mem, this`shape, this`height, mem.Keys`red
      ensures mem.Keys == old(mem.Keys) && At(Top, shape) && Balanced(shape, height) && !IsRed(shape)
      ensures Inorder(shape) == Inorder(Plug(c, t)) && Nodes(shape) == Nodes(Plug(c, t))
    {
      ghost var whole := Plug(c, t);
      ghost var total := Blackened(c, t, h);
      RiseAll(c, t);
      Sight(Top, whole);
      PaintKeeps(whole, false);
      hide At, Balanced, Inorder, Nodes, Plug;
      Color(root, false, Top, whole);
      shape, height := Paint(whole, false), total;
    }

    /** What Insert knows once it has found the hole c. */
    lemma InsertOrder(node: RbNode, c: Ctx)
      requires Valid() && node !in mem && At(c, Leaf) && Plug(c, Leaf) == shape && !c.Top? &&
        Bounds(Pre(c), Post(c), node.key)
      ensures node !in CtxNodes(c) && c.node in mem && sentinel in mem && CtxBalanced(c, 0)
      ensures Order() == Pre(c) + Post(c)
      ensures Inorder(Plug(c, Fork(Leaf, node, true, Leaf))) == Pre(c) + [node] + Post(c)
      ensures Nodes(Plug(c, Fork(Leaf, node, true, Leaf))) == Nodes(shape) + {node}
      ensures Ascending(Pre(c) + [node] + Post(c))
    {
      var h := Open(c, Leaf, height);
      hide At, Balanced;
      PlugLeaf(c, node);
      AscendingInsert(Pre(c), node, Post(c));
    }

    /** The links and colours of an insertion. */
    method LinkIn(node: RbNode, temp: RbNode, goLeft: bool, ghost c: Ctx)
      requires At(c, Leaf) && node !in mem && node !in CtxNodes(c) && sentinel in mem && CtxBalanced(c, 0)
      requires !c.Top? && c.node == temp && temp in mem && (c.InLeft? <==> goLeft)
      modifies this`root, this`mem, this`shape, this`height
      modifies mem.Keys`left, mem.Keys`right, mem.Keys`parent, mem.Keys`red
      modifies node`left, node`right, node`parent, node`red
      ensures mem.Keys == old(mem.Keys) + {node} && At(Top, shape) && Balanced(shape, height) && !IsRed(shape)
      ensures Inorder(shape) == Inorder(Plug(c, Fork(Leaf, node, true, Leaf)))
      ensures Nodes(shape) == Nodes(Plug(c, Fork(Leaf, node, true, Leaf)))
    {
      hide At, Balanced, CtxBalanced, Inorder, Nodes, Plug;
      AttachLeaf(node, temp, goLeft, c);
      ghost var c', t', h := InsertFixup(node, c, Fork(Leaf, node, true, Leaf));
      Settle(c', t', h);
    }

    /** Insertion once the hole is known. */
    method InsertAt(node: RbNode, temp: RbNode, goLeft: bool, ghost c: Ctx)
      requires Valid() && node !in mem && At(c, Leaf) && Plug(c, Leaf) == shape && Bounds(Pre(c), Post(c), node.key)
      requires !c.Top? && c.node == temp && (c.InLeft? <==> goLeft)
      modifies this`root, this`mem, this`shape, this`height
      modifies mem.Keys`left, mem.Keys`right, mem.Keys`parent, mem.Keys`red
      modifies node`left, node`right, node`parent, node`red
      ensures Valid() && mem.Keys == old(mem.Keys) + {node}
      ensures old(Order()) == Pre(c) + Post(c) && Order() == Pre(c) + [node] + Post(c)
      ensures Bounds(Pre(c), Post(c), node.key)
    {
      InsertOrder(node, c);
      hide At, Balanced, CtxBalanced, Inorder, Nodes, Plug, Pre, Post, Ascending, Bounds;
      ghost var before, after, key := Pre(c), Post(c), node.key;
      ghost var order := before + [node] + after;
      assert Ascending(order) && Bounds(before, after, key);
      LinkIn(node, temp, goLeft, c);
      assert Ascending(order) && Bounds(before, after, key);
    }

    /** rbtree_insert: node goes after every member with a key that is not larger,
        and nothing else about the order changes. */
    method Insert(node: RbNode) returns (ghost before: seq<RbNode>, ghost after: seq<RbNode>)
      requires Valid() && node !in mem
      modifies this`root, this`mem, this`shape, this`height
      modifies mem.Keys`left, mem.Keys`right, mem.Keys`parent, mem.Keys`red
      modifies node`left, node`right, node`parent, node`red
      ensures Valid() && mem.Keys == old(mem.Keys) + {node}
      ensures old(Order()) == before + after && Order() == before + [node] + after
      ensures Bounds(before, after, node.key)
      ensures (forall n :: n in before ==> n.key <= node.key) && (forall n :: n in after ==> node.key < n.key)
    {
      Sight(Top, shape);
      if root == sentinel {
        InsertFirst(node);
        before, after := [], [];
      } else {
        var temp, goLeft, c := Descend(node.key);
        before, after := Pre(c), Post(c);
        hide Valid, Bounds;
        InsertAt(node, temp, goLeft, c);
      }
    }

    /** Insertion into an empty tree. */
    method InsertFirst(node: RbNode)
      requires Valid() && node !in mem && root == sentinel
      modifies this`root, this`mem, this`shape, this`height
      modifies node`left, node`right, node`parent, node`red
      ensures Valid() && mem.Keys == old(mem.Keys) + {node} && Order() == [node] && old(Order()) == []
    {
      Sight(Top, shape);
      Enter(node, null, false);
      root := node;
      LeafHung(old(mem), mem, sentinel, sentinel, node, Top, node, false);
      shape, height := Fork(Leaf, node, false, Leaf), 1;
    }

    // ---------- deletion: the fix-up ----------

    /** Where the fix-up after a deletion stands: temp, at the root of t, is one
        black node short. When temp is the sentinel its parent link is in use. */
    ghost predicate Sinking(temp: RbNode, c: Ctx, t: Shape, h: int)
      reads this, mem.Keys
    {
      && At(c, t) && temp == RootOf(t, sentinel) && temp in mem
      && (!c.Top? ==> mem[temp].parent == c.node)
      && Short(c, t, h)
    }

    lemma SinkingSight(temp: RbNode, c: Ctx, t: Shape, h: int)
      requires Sinking(temp, c, t, h)
      ensures c.Top? <==> temp == root
      ensures temp.red == IsRed(t) && sentinel in mem && !sentinel.red
      ensures !c.Top? ==>
        && temp.parent == c.node && c.other.Fork? && c.node in mem && c.node.red == c.red
        && c.node.left == (if c.InLeft? then temp else c.other.node)
        && c.node.right == (if c.InLeft? then c.other.node else temp)
        && c.other.node != temp && c.other.node in mem && c.other.node.red == c.other.red
        && c.other.node.left == RootOf(c.other.left, sentinel) && c.other.node.right == RootOf(c.other.right, sentinel)
        && RootOf(c.other.left, sentinel) in mem && RootOf(c.other.left, sentinel).red == IsRed(c.other.left)
        && RootOf(c.other.right, sentinel) in mem && RootOf(c.other.right, sentinel).red == IsRed(c.other.right)
    {
      Sight(c, t);
      if !c.Top? {
        ShortSibling(c, t, h);
        Up(c, t);
        var side := if c.InLeft? then InRight(c.up, t, c.node, c.red) else InLeft(c.up, c.node, c.red, t);
        Down(side, c.other);
        var (inner, a) := Below(side, c.other, true);
        Down(inner, a);
        Sight(inner, a);
      }
    }

    /** A red sibling on the right: recolour and rotate, so that the sibling is black. */
    method LowerLeft(temp: RbNode, w: RbNode, ghost c: Ctx, ghost t: Shape, ghost h: int)
      returns (w': RbNode, ghost c': Ctx)
      requires Sinking(temp, c, t, h) && c.InLeft? && IsRed(c.other) && w == c.other.node
      modifies this`root, this`mem, mem.Keys`left, mem.Keys`right, mem.Keys`parent, mem.Keys`red
      ensures mem.Keys == old(mem.Keys) && Sinking(temp, c', t, h) && c'.InLeft?
      ensures c'.other.Fork? && w' == c'.other.node && !IsRed(c'.other) && c'.red && Depth(c') == Depth(c) + 1
      ensures SameOrder(Plug(c', t), Plug(c, t))
    {
      ghost var up, p, wl, wr := c.up, c.node, c.other.left, c.other.right;
      SinkingSight(temp, c, t, h);
      ShortSibling(c, t, h);
      RedSiblingRight(up, t, p, wl, w, wr, h);
      assert c == InLeft(up, p, false, Fork(wl, w, true, wr));
      Up(c, t);
      Sight(c, t);
      ghost var side := InRight(up, t, p, false);
      Down(side, c.other);
      c' := InLeft(InLeft(up, w, false, wr), p, true, wl);
      hide At, Short, Plug, Inorder, Nodes;
      Color(w, false, side, c.other);
      Up(side, Fork(wl, w, false, wr));
      Color(temp.parent, true, up, Fork(t, p, false, Fork(wl, w, false, wr)));
      LeftRotate(temp.parent, up, Fork(t, p, true, Fork(wl, w, false, wr)));
      Down(InLeft(up, w, false, wr), Fork(t, p, true, wl));
      Down(c', t);
      Sight(c', t);
      w' := temp.parent.right;
    }

    /** A black far nephew on the right: rotate the sibling, so that it is red. */
    method OutwardLeft(temp: RbNode, w: RbNode, ghost c: Ctx, ghost t: Shape, ghost h: int)
      returns (w': RbNode, ghost c': Ctx)
      requires Sinking(temp, c, t, h) && c.InLeft? && c.other.Fork? && w == c.other.node && !c.other.red
      requires IsRed(c.other.left) && !IsRed(c.other.right)
      modifies this`root, this`mem, mem.Keys`left, mem.Keys`right, mem.Keys`parent, mem.Keys`red
      ensures mem.Keys == old(mem.Keys) && Sinking(temp, c', t, h) && c'.InLeft? && c'.up == c.up &&
        c'.node == c.node && c'.red == c.red
      ensures c'.other.Fork? && w' == c'.other.node && !c'.other.red && IsRed(c'.other.right)
      ensures SameOrder(Plug(c', t), Plug(c, t))
    {
      ghost var up, p, l, wr := c.up, c.node, c.other.left, c.other.right;
      SinkingSight(temp, c, t, h);
      NearNephewRight(up, t, p, c.red, l.left, l.node, l.right, w, wr, h);
      assert c == InLeft(up, p, c.red, Fork(Fork(l.left, l.node, true, l.right), w, false, wr));
      Up(c, t);
      ghost var side := InRight(up, t, p, c.red);
      Down(side, c.other);
      Down(InLeft(side, w, false, wr), l);
      c' := InLeft(up, p, c.red, Fork(l.left, l.node, false, Fork(l.right, w, true, wr)));
      hide At, Short, Plug, Inorder, Nodes;
      Color(w.left, false, InLeft(side, w, false, wr), l);
      Up(InLeft(side, w, false, wr), Paint(l, false));
      Color(w, true, side, Fork(Paint(l, false), w, false, wr));
      RightRotate(w, side, Fork(Paint(l, false), w, true, wr));
      Up(side, c'.other);
      Down(c', t);
      Sight(c', t);
      w' := temp.parent.right;
    }

    /** The sibling w takes the colour of the parent, which becomes black, as does the
        nephew on the far side. */
    method FarBlackLeft(temp: RbNode, w: RbNode, ghost up: Ctx, ghost t: Shape, ghost p: RbNode, ghost red: bool,
                        ghost wl: Shape, ghost wr: Shape)
      requires At(InRight(up, t, p, red), Fork(wl, w, false, wr)) && wr.Fork?
      requires temp.parent == p && p.red == red
      modifies this`mem, mem.Keys`red
      ensures mem.Keys == old(mem.Keys) && At(up, Fork(t, p, false, Fork(wl, w, red, Paint(wr, false))))
    {
      ghost var side, side' := InRight(up, t, p, red), InRight(up, t, p, false);
      Sight(side, Fork(wl, w, false, wr));
      hide At;
      Color(w, temp.parent.red, side, Fork(wl, w, false, wr));
      Up(side, Fork(wl, w, red, wr));
      Color(temp.parent, false, up, Fork(t, p, red, Fork(wl, w, red, wr)));
      Down(side', Fork(wl, w, red, wr));
      Down(InRight(side', wl, w, red), wr);
      Sight(InRight(side', wl, w, red), wr);
      Color(w.right, false, InRight(side', wl, w, red), wr);
      Up(InRight(side', wl, w, red), Paint(wr, false));
      Up(side', Fork(wl, w, red, Paint(wr, false)));
    }

    /** A red far nephew on the right: the last rotation, around the parent. */
    method SettleLeft(temp: RbNode, w: RbNode, ghost c: Ctx, ghost t: Shape, ghost h: int)
      returns (next: RbNode, ghost t': Shape, ghost h': int)
      requires Sinking(temp, c, t, h) && c.InLeft? && !IsRed(t)
      requires c.other.Fork? && w == c.other.node && !c.other.red && IsRed(c.other.right)
      modifies this`root, this`mem, mem.Keys`left, mem.Keys`right, mem.Keys`parent, mem.Keys`red
      ensures mem.Keys == old(mem.Keys) && Sinking(next, Top, t', h') && !IsRed(t')
      ensures SameOrder(t', Plug(c, t))
    {
      ghost var up, p, wl, wr := c.up, c.node, c.other.left, c.other.right;
      SinkingSight(temp, c, t, h);
      h' := FarNephewRight(up, t, p, c.red, wl, w, wr, h);
      assert c == InLeft(up, p, c.red, Fork(wl, w, false, wr));
      Up(c, t);
      ghost var side := InRight(up, t, p, c.red);
      Down(side, c.other);
      ghost var u := Fork(Fork(t, p, false, wl), w, c.red, Paint(wr, false));
      t' := Plug(up, u);
      LooseRoot(t', h');
      hide At, Short, Plug, Inorder, Nodes, Balanced;
      FarBlackLeft(temp, w, up, t, p, c.red, wl, wr);
      LeftRotate(temp.parent, up, Fork(t, p, false, Fork(wl, w, c.red, Paint(wr, false))));
      RiseAll(up, u);
      Sight(Top, t');
      next := root;
    }

    /** One round when temp is a left child. */
    method DeleteRoundLeft(temp: RbNode, ghost c: Ctx, ghost t: Shape, ghost h: int)
      returns (next: RbNode, ghost c': Ctx, ghost t': Shape, ghost h': int)
      requires Sinking(temp, c, t, h) && c.InLeft? && !IsRed(t)
      modifies this`root, this`mem, mem.Keys`left, mem.Keys`right, mem.Keys`parent, mem.Keys`red
      ensures mem.Keys == old(mem.Keys) && Sinking(next, c', t', h')
      ensures Depth(c') < Depth(c) || (Depth(c') == Depth(c) && IsRed(t'))
      ensures SameOrder(Plug(c', t'), Plug(c, t))
    {
      SinkingSight(temp, c, t, h);
      c', t', h' := c, t, h;
      var w := temp.parent.right;
      if w.red {
        w, c' := LowerLeft(temp, w, c, t, h);
      }
      SinkingSight(temp, c', t, h);
      if !w.left.red && !w.right.red {
        next, c', t', h' := PassUp(temp, w, c', t, h);
      } else {
        hide Sinking, Plug;
        if !w.right.red {
          w, c' := OutwardLeft(temp, w, c', t, h);
        }
        next, t', h' := SettleLeft(temp, w, c', t, h);
        c' := Top;
      }
    }

    /** Black nephews: the sibling turns red and the shortage moves to the parent. */
    method PassUp(temp: RbNode, w: RbNode, ghost c: Ctx, ghost t: Shape, ghost h: int)
      returns (next: RbNode, ghost c': Ctx, ghost t': Shape, ghost h': int)
      requires Sinking(temp, c, t, h) && !c.Top? && !IsRed(t)
      requires c.other.Fork? && w == c.other.node && !c.other.red && !IsRed(c.other.left) && !IsRed(c.other.right)
      modifies this`mem, mem.Keys`red
      ensures mem.Keys == old(mem.Keys) && Sinking(next, c', t', h') && c' == c.up && IsRed(t') == c.red
      ensures SameOrder(Plug(c', t'), Plug(c, t))
    {
      ghost var isLeft := c.InLeft?;
      SinkingSight(temp, c, t, h);
      ShortageUp(c, t, h);
      Up(c, t);
      ghost var side := if isLeft then InRight(c.up, t, c.node, c.red) else InLeft(c.up, c.node, c.red, t);
      Down(side, c.other);
      hide At, Short, Plug, Inorder, Nodes;
      Color(w, true, side, c.other);
      Up(side, Paint(c.other, true));
      c', t', h' := c.up, Fill(side, Paint(c.other, true)), if c.red then h else h + 1;
      Sight(c', t');
      next := temp.parent;
    }

    // The mirror images, for a temp that is a right child.

    method LowerRight(temp: RbNode, w: RbNode, ghost c: Ctx, ghost t: Shape, ghost h: int)
      returns (w': RbNode, ghost c': Ctx)
      requires Sinking(temp, c, t, h) && c.InRight? && IsRed(c.other) && w == c.other.node
      modifies this`root, this`mem, mem.Keys`left, mem.Keys`right, mem.Keys`parent, mem.Keys`red
      ensures mem.Keys == old(mem.Keys) && Sinking(temp, c', t, h) && c'.InRight?
      ensures c'.other.Fork? && w' == c'.other.node && !IsRed(c'.other) && c'.red && Depth(c') == Depth(c) + 1
      ensures SameOrder(Plug(c', t), Plug(c, t))
    {
      ghost var up, p, wl, wr := c.up, c.node, c.other.left, c.other.right;
      SinkingSight(temp, c, t, h);
      ShortSibling(c, t, h);
      RedSiblingLeft(up, t, p, wl, w, wr, h);
      assert c == InRight(up, Fork(wl, w, true, wr), p, false);
      Up(c, t);
      Sight(c, t);
      ghost var side := InLeft(up, p, false, t);
      Down(side, c.other);
      c' := InRight(InRight(up, wl, w, false), wr, p, true);
      hide At, Short, Plug, Inorder, Nodes;
      Color(w, false, side, c.other);
      Up(side, Fork(wl, w, false, wr));
      Color(temp.parent, true, up, Fork(Fork(wl, w, false, wr), p, false, t));
      RightRotate(temp.parent, up, Fork(Fork(wl, w, false, wr), p, true, t));
      Down(InRight(up, wl, w, false), Fork(wr, p, true, t));
      Down(c', t);
      Sight(c', t);
      w' := temp.parent.left;
    }

    method OutwardRight(temp: RbNode, w: RbNode, ghost c: Ctx, ghost t: Shape, ghost h: int)
      returns (w': RbNode, ghost c': Ctx)
      requires Sinking(temp, c, t, h) && c.InRight? && c.other.Fork? && w == c.other.node && !c.other.red
      requires IsRed(c.other.right) && !IsRed(c.other.left)
      modifies this`root, this`mem, mem.Keys`left, mem.Keys`right, mem.Keys`parent, mem.Keys`red
      ensures mem.Keys == old(mem.Keys) && Sinking(temp, c', t, h) && c'.InRight? && c'.up == c.up &&
        c'.node == c.node && c'.red == c.red
      ensures c'.other.Fork? && w' == c'.other.node && !c'.other.red && IsRed(c'.other.left)
      ensures SameOrder(Plug(c', t), Plug(c, t))
    {
      ghost var up, p, r, wl := c.up, c.node, c.other.right, c.other.left;
      SinkingSight(temp, c, t, h);
      NearNephewLeft(up, t, p, c.red, wl, w, r.left, r.node, r.right, h);
      assert c == InRight(up, Fork(wl, w, false, Fork(r.left, r.node, true, r.right)), p, c.red);
      Up(c, t);
      ghost var side := InLeft(up, p, c.red, t);
      Down(side, c.other);
      Down(InRight(side, wl, w, false), r);
      c' := InRight(up, Fork(Fork(wl, w, true, r.left), r.node, false, r.right), p, c.red);
      hide At, Short, Plug, Inorder, Nodes;
      Color(w.right, false, InRight(side, wl, w, false), r);
      Up(InRight(side, wl, w, false), Paint(r, false));
      Color(w, true, side, Fork(wl, w, false, Paint(r, false)));
      LeftRotate(w, side, Fork(wl, w, true, Paint(r, false)));
      Up(side, c'.other);
      Down(c', t);
      Sight(c', t);
      w' := temp.parent.left;
    }

    /** The mirror image of FarBlackLeft. */
    method FarBlackRight(temp: RbNode, w: RbNode, ghost up: Ctx, ghost t: Shape, ghost p: RbNode, ghost red: bool,
                         ghost wl: Shape, ghost wr: Shape)
      requires At(InLeft(up, p, red, t), Fork(wl, w, false, wr)) && wl.Fork?
      requires temp.parent == p && p.red == red
      modifies this`mem, mem.Keys`red
      ensures mem.Keys == old(mem.Keys) && At(up, Fork(Fork(Paint(wl, false), w, red, wr), p, false, t))
    {
      ghost var side, side' := InLeft(up, p, red, t), InLeft(up, p, false, t);
      Sight(side, Fork(wl, w, false, wr));
      hide At;
      Color(w, temp.parent.red, side, Fork(wl, w, false, wr));
      Up(side, Fork(wl, w, red, wr));
      Color(temp.parent, false, up, Fork(Fork(wl, w, red, wr), p, red, t));
      Down(side', Fork(wl, w, red, wr));
      Down(InLeft(side', w, red, wr), wl);
      Sight(InLeft(side', w, red, wr), wl);
      Color(w.left, false, InLeft(side', w, red, wr), wl);
      Up(InLeft(side', w, red, wr), Paint(wl, false));
      Up(side', Fork(Paint(wl, false), w, red, wr));
    }

    method SettleRight(temp: RbNode, w: RbNode, ghost c: Ctx, ghost t: Shape, ghost h: int)
      returns (next: RbNode, ghost t': Shape, ghost h': int)
      requires Sinking(temp, c, t, h) && c.InRight? && !IsRed(t)
      requires c.other.Fork? && w == c.other.node && !c.other.red && IsRed(c.other.left)
      modifies this`root, this`mem, mem.Keys`left, mem.Keys`right, mem.Keys`parent, mem.Keys`red
      ensures mem.Keys == old(mem.Keys) && Sinking(next, Top, t', h') && !IsRed(t')
      ensures SameOrder(t', Plug(c, t))
    {
      ghost var up, p, wl, wr := c.up, c.node, c.other.left, c.other.right;
      SinkingSight(temp, c, t, h);
      h' := FarNephewLeft(up, t, p, c.red, wl, w, wr, h);
      assert c == InRight(up, Fork(wl, w, false, wr), p, c.red);
      Up(c, t);
      ghost var side := InLeft(up, p, c.red, t);
      Down(side, c.other);
      ghost var u := Fork(Paint(wl, false), w, c.red, Fork(wr, p, false, t));
      t' := Plug(up, u);
      LooseRoot(t', h');
      hide At, Short, Plug, Inorder, Nodes, Balanced;
      FarBlackRight(temp, w, up, t, p, c.red, wl, wr);
      RightRotate(temp.parent, up, Fork(Fork(Paint(wl, false), w, c.red, wr), p, false, t));
      RiseAll(up, u);
      Sight(Top, t');
      next := root;
    }

    method DeleteRoundRight(temp: RbNode, ghost c: Ctx, ghost t: Shape, ghost h: int)
      returns (next: RbNode, ghost c': Ctx, ghost t': Shape, ghost h': int)
      requires Sinking(temp, c, t, h) && c.InRight? && !IsRed(t)
      modifies this`root, this`mem, mem.Keys`left, mem.Keys`right, mem.Keys`parent, mem.Keys`red
      ensures mem.Keys == old(mem.Keys) && Sinking(next, c', t', h')
      ensures Depth(c') < Depth(c) || (Depth(c') == Depth(c) && IsRed(t'))
      ensures SameOrder(Plug(c', t'), Plug(c, t))
    {
      SinkingSight(temp, c, t, h);
      c', t', h' := c, t, h;
      var w := temp.parent.left;
      if w.red {
        w, c' := LowerRight(temp, w, c, t, h);
      }
      SinkingSight(temp, c', t, h);
      if !w.left.red && !w.right.red {
        next, c', t', h' := PassUp(temp, w, c', t, h);
      } else {
        hide Sinking, Plug;
        if !w.left.red {
          w, c' := OutwardRight(temp, w, c', t, h);
        }
        next, t', h' := SettleRight(temp, w, c', t, h);
        c' := Top;
      }
    }

    /** The fix-up loop after a deletion, and the last recolouring. */
    method DeleteFixup(node: RbNode, ghost c0: Ctx, ghost t0: Shape, ghost h0: int)
      requires Sinking(node, c0, t0, h0)
      modifies this`root, this`mem, this`shape, this`height
      modifies mem.Keys`left, mem.Keys`right, mem.Keys`parent, mem.Keys`red
      ensures mem.Keys == old(mem.Keys) && At(Top, shape) && Balanced(shape, height) && !IsRed(shape)
      ensures SameOrder(shape, Plug(c0, t0))
    {
      var temp := node;
      ghost var c, t, h := c0, t0, h0;
      SinkingSight(temp, c, t, h);
      while temp != root && !temp.red
        invariant mem.Keys == old(mem.Keys) && Sinking(temp, c, t, h)
        invariant temp.red == IsRed(t) && (c.Top? <==> temp == root)
        invariant SameOrder(Plug(c, t), Plug(c0, t0))
        decreases Depth(c), !IsRed(t)
      {
        SinkingSight(temp, c, t, h);
        if temp == temp.parent.left {
          temp, c, t, h := DeleteRoundLeft(temp, c, t, h);
        } else {
          temp, c, t, h := DeleteRoundRight(temp, c, t, h);
        }
        SinkingSight(temp, c, t, h);
      }
      BlackenShort(temp, c, t, h);
    }

    /** Blackening temp makes up for the missing black node. */
    method BlackenShort(temp: RbNode, ghost c: Ctx, ghost t: Shape, ghost h: int)
      requires Sinking(temp, c, t, h) && (IsRed(t) || c.Top?)
      modifies this`mem, this`shape, this`height, mem.Keys`red
      ensures mem.Keys == old(mem.Keys) && At(Top, shape) && Balanced(shape, height) && !IsRed(shape)
      ensures SameOrder(shape, Plug(c, t))
    {
      BlackenShape(temp, c, t, h);
      ghost var u := if t.Leaf? then t else Paint(t, false);
      shape, height := Plug(c, u), BlackHeight(Plug(c, u));
      hide Balanced, Plug, Focus;
      SetRed(temp, false);
      RiseAll(c, u);
    }

    lemma BlackenShape(temp: RbNode, c: Ctx, t: Shape, h: int)
      requires Sinking(temp, c, t, h) && (IsRed(t) || c.Top?)
      ensures var u := if t.Leaf? then t else Paint(t, false);
        && Focus(mem[temp := mem[temp].(red := false)], sentinel, root, c, u)
        && Balanced(Plug(c, u), BlackHeight(Plug(c, u))) && !IsRed(Plug(c, u))
        && SameOrder(Plug(c, u), Plug(c, t))
    {
      Sight(c, t);
      if t.Leaf? {
        assert mem[temp := mem[temp].(red := false)] == mem;
      } else {
        var total := Close(c, Paint(t, false), if IsRed(t) then h + 1 else h);
        BlackHeightUnique(Plug(c, Paint(t, false)), total);
        PaintKeeps(t, false);
        PlugSame(c, Paint(t, false), t);
        Painted(mem, sentinel, root, c, t, false);
      }
    }

    // ---------- deletion ----------

    /** The leftmost node below node, and the path that leads to it. */
    method NodeMin(node: RbNode, ghost c: Ctx, ghost t: Shape)
      returns (first: RbNode, ghost p: Ctx, ghost low: Shape)
      requires At(c, t) && t.Fork? && t.node == node
      ensures AllLeft(p) && Plug(p, low) == t && low.Fork? && low.node == first && low.left.Leaf?
      ensures At(Compose(p, c), low)
    {
      first, p, low := node, Top, t;
      SightBelow(c, low);
      while first.left != sentinel
        invariant At(Compose(p, c), low) && AllLeft(p) && Plug(p, low) == t && low.Fork? && low.node == first
        invariant first.left == RootOf(low.left, sentinel) && (low.left.Fork? <==> first.left != sentinel)
        decreases low
      {
        Down(InLeft(Compose(p, c), first, low.red, low.right), low.left);
        p, low := InLeft(p, first, low.red, low.right), low.left;
        first := first.left;
        SightBelow(Compose(p, c), low);
      }
    }

    lemma SightBelow(c: Ctx, t: Shape)
      requires At(c, t) && t.Fork?
      ensures t.node.left == RootOf(t.left, sentinel) && (t.left.Fork? <==> t.node.left != sentinel)
      ensures t.node.right == RootOf(t.right, sentinel) && (t.right.Fork? <==> t.node.right != sentinel)
      ensures RootOf(t.left, sentinel) in mem && RootOf(t.right, sentinel) in mem && t.node in mem
    {
      Down(Below(c, t, true).0, t.left);
      Sight(Below(c, t, true).0, t.left);
    }

    /** rbtree_node_init: the node, out of the tree by now, forgets everything. */
    method NodeInit(node: RbNode, ghost c: Ctx, ghost t: Shape)
      requires At(c, t) && node in mem && node != sentinel && node !in CtxNodes(c) && node !in Nodes(t)
      modifies this`mem, node`left, node`right, node`parent, node`key, node`data
      ensures At(c, t) && mem == old(mem) - {node}
      ensures node.left == node.right == node.parent == null && node.key == 0 && node.data == null
    {
      SentinelIn(c, t);
      ghost var m := mem;
      node.left := null;
      node.right := null;
      node.parent := null;
      node.key := 0;
      node.data := null;
      mem := mem - {node};
      FocusOutside(m, mem, sentinel, root, c, t, {node});
    }

    lemma SentinelIn(c: Ctx, t: Shape)
      requires At(c, t)
      ensures sentinel in mem && !sentinel.red
    {
    }

    /** Takes subst, which has one subtree x, out of its place below c. */
    method RemoveOne(subst: RbNode, temp: RbNode, ghost c: Ctx, ghost t: Shape, ghost x: Shape)
      requires At(c, t) && t.Fork? && t.node == subst && !c.Top? && temp == RootOf(x, sentinel)
      requires (t.left.Leaf? && x == t.right) || (t.right.Leaf? && x == t.left)
      modifies this`mem, mem.Keys`left, mem.Keys`right, mem.Keys`parent
      ensures mem.Keys == old(mem.Keys) && At(c, x) && temp in mem && mem[temp].parent == c.node
      ensures subst !in CtxNodes(c) && subst !in Nodes(x)
    {
      RemoveOneSite(subst, temp, c, t, x);
      Skipped(subst, temp, c, t, x);
      hide Focus;
      Bypass(subst, temp);
    }

    /** The links around subst pass it by. */
    method Bypass(subst: RbNode, temp: RbNode)
      requires Mirror() && subst in mem && temp in mem && mem[subst].parent != null && mem[subst].parent in mem
      requires temp != subst
      modifies this`mem, mem.Keys`left, mem.Keys`right, mem.Keys`parent
      ensures Mirror() && mem.Keys == old(mem.Keys) && mem == Bypassed(old(mem), subst, temp)
    {
      hide Mirror;
      Cells(subst);
      Cells(subst.parent);
      if subst == subst.parent.left {
        SetLeft(subst.parent, temp);
      } else {
        SetRight(subst.parent, temp);
      }
      Cells(subst);
      SetParent(temp, subst.parent);
    }

    lemma Skipped(subst: RbNode, temp: RbNode, c: Ctx, t: Shape, x: Shape)
      requires At(c, t) && OneSubtree(t, x) && t.node == subst && !c.Top? && temp == RootOf(x, sentinel)
      requires subst in mem && temp in mem && c.node in mem && mem[subst].parent == c.node && temp != c.node
      requires (c.InLeft? <==> mem[c.node].left == subst) && subst != c.node
      ensures Focus(Bypassed(mem, subst, temp), sentinel, root, c, x) && subst !in CtxNodes(c) && subst !in Nodes(x)
    {
      var m := Bypassed(mem, subst, temp);
      RemovedOutside(mem, m, x, c);
      SentinelIn(c, t);
      hide Focus, Mirror;
      Unlinked(mem, m, sentinel, root, root, c, t, x);
    }

    lemma RemovedOutside(m: Memory, m': Memory, x: Shape, c: Ctx)
      requires forall n :: n in m && n != RootOf(x, sentinel) && (!c.Top? ==> n != c.node) ==> n in m' && m'[n] == m[n]
      ensures Outside(m, m', RootSet(x) + HookSet(c) + {sentinel})
    {
      forall n | n in m && n !in RootSet(x) + HookSet(c) + {sentinel} ensures n in m' && m'[n] == m[n] {
        assert n !in RootSet(x) && n !in HookSet(c) && n != sentinel;
      }
    }

    lemma RemoveOneSite(subst: RbNode, temp: RbNode, c: Ctx, t: Shape, x: Shape)
      requires At(c, t) && t.Fork? && t.node == subst && !c.Top? && temp == RootOf(x, sentinel)
      requires (t.left.Leaf? && x == t.right) || (t.right.Leaf? && x == t.left)
      ensures subst in mem && temp in mem && c.node in mem && sentinel in mem
      ensures mem[subst].parent == c.node && (c.InLeft? <==> mem[c.node].left == subst)
      ensures temp != subst && temp != c.node && subst != c.node
    {
      HoleSite(mem, sentinel, root, c, t);
      SightBelow(c, t);
      Sight(c, t);
      assert t == Fork(t.left, t.node, t.red, t.right);
      NodesFork(t.left, t.node, t.red, t.right);
      ApartFork(sentinel, c, t.left, t.node, t.red, t.right);
    }

    /** First half of replacing node by its successor: subst gives way to temp. */
    method Detach(subst: RbNode, node: RbNode, temp: RbNode)
      requires Mirror() && subst in mem && temp in mem && subst.parent != null && subst.parent in mem
      modifies this`mem, mem.Keys`left, mem.Keys`right, mem.Keys`parent
      ensures Mirror() && mem.Keys == old(mem.Keys)
      ensures mem == Detached(old(mem), node, subst, temp)
    {
      if subst == subst.parent.left {
        SetLeft(subst.parent, temp);
      } else {
        SetRight(subst.parent, temp);
      }
      if subst.parent == node {
        SetParent(temp, subst);
      } else {
        SetParent(temp, subst.parent);
      }
    }

    method CopyCell(subst: RbNode, node: RbNode)
      requires Mirror() && node in mem && subst in mem && node != subst
      modifies this`mem, subst`left, subst`right, subst`parent, subst`red
      ensures Mirror() && mem == old(mem)[subst := old(mem)[node]]
    {
      subst.left := node.left;
      subst.right := node.right;
      subst.parent := node.parent;
      subst.red := node.red;
      mem := mem[subst := mem[node]];
    }

    /** Second half: subst takes over node's links, colour and place. */
    method TakeOver(subst: RbNode, node: RbNode)
      requires Mirror() && node in mem && subst in mem && node != subst
      requires node != root ==>
        mem[node].parent != null && mem[node].parent in mem && mem[node].parent != subst && mem[node].parent != node
      requires mem[node].left != null && mem[node].left in mem && mem[node].right != null && mem[node].right in mem
      requires mem[node].left != subst && mem[node].right != subst
      modifies this`root, this`mem, mem.Keys`left, mem.Keys`right, mem.Keys`parent, mem.Keys`red
      ensures Mirror() && (mem, root) == TakenOver(old(mem), sentinel, old(root), node, subst)
    {
      hide Mirror;
      CopyCell(subst, node);
      Cells(node);
      Hang(node, subst);
      Cells(subst);
      Adopt(subst.left, subst);
      Cells(subst);
      Adopt(subst.right, subst);
    }

    /** Deletion of a node with two subtrees: its successor subst, whose right subtree
        is x, takes its place. */
    method RemoveTwo(node: RbNode, subst: RbNode, temp: RbNode,
                     ghost c: Ctx, ghost l: Shape, ghost red: bool, ghost p: Ctx, ghost sred: bool, ghost x: Shape)
      requires At(c, Fork(l, node, red, Plug(p, Fork(Leaf, subst, sred, x)))) && l.Fork? && temp == RootOf(x, sentinel)
      modifies this`root, this`mem, mem.Keys`left, mem.Keys`right, mem.Keys`parent, mem.Keys`red
      ensures mem.Keys == old(mem.Keys)
      ensures var c' := Compose(p, InRight(c, l, subst, red));
        && At(c', x) && !c'.Top? && temp in mem && mem[temp].parent == c'.node
        && node !in CtxNodes(c') && node !in Nodes(x)
    {
      DetachedReady(mem, sentinel, root, c, l, node, red, p, subst, sred, x);
      hide Focus, Vacant, Apart, Nodes, CtxNodes, Plug, Compose;
      Detach(subst, node, temp);
      ReadyApart(mem, sentinel, root, c, l, node, subst, red, Plug(p, x));
      TakenOverFocus(mem, sentinel, root, c, l, node, subst, red, Plug(p, x));
      label detached:
      TakeOver(subst, node);
      Relocated(mem, sentinel, root, c, l, node, subst, red, p, x);
      Sight(Compose(p, InRight(c, l, subst, red)), x);
    }

    /** After the unlinking: node forgets everything, then the colours are repaired. */
    method Finish(node: RbNode, temp: RbNode, red: bool, ghost c: Ctx, ghost x: Shape, ghost h: int)
      requires At(c, x) && temp == RootOf(x, sentinel) && temp in mem && !c.Top? && mem[temp].parent == c.node
      requires node in mem && node != sentinel && node !in CtxNodes(c) && node !in Nodes(x)
      requires RemovedFrom(c, x, red, h)
      modifies this`root, this`mem, this`shape, this`height
      modifies mem.Keys`left, mem.Keys`right, mem.Keys`parent, mem.Keys`red, node`key, node`data
      ensures mem.Keys == old(mem.Keys) - {node} && At(Top, shape) && Balanced(shape, height) && !IsRed(shape)
      ensures SameOrder(shape, Plug(c, x))
      ensures node.left == node.right == node.parent == null && node.key == 0 && node.data == null
    {
      assert temp != node by { Sight(c, x); }
      hide Focus, Mirror, Balanced, Inorder, Nodes, CtxNodes, Plug, RemovedFrom;
      NodeInit(node, c, x);
      Repaint(temp, red, c, x, h);
    }

    /** The colours are repaired if the node taken out was black. */
    method Repaint(temp: RbNode, red: bool, ghost c: Ctx, ghost x: Shape, ghost h: int)
      requires At(c, x) && temp == RootOf(x, sentinel) && temp in mem && !c.Top? && mem[temp].parent == c.node
      requires RemovedFrom(c, x, red, h)
      modifies this`root, this`mem, this`shape, this`height
      modifies mem.Keys`left, mem.Keys`right, mem.Keys`parent, mem.Keys`red
      ensures mem.Keys == old(mem.Keys) && At(Top, shape) && Balanced(shape, height) && !IsRed(shape)
      ensures SameOrder(shape, Plug(c, x))
    {
      if red {
        height := Close(c, x, h);
        RiseAll(c, x);
        shape := Plug(c, x);
      } else {
        DeleteFixup(temp, c, x, h);
      }
    }

    /** Deletion of a root that has at most one subtree. */
    method DeleteRoot(node: RbNode, temp: RbNode, ghost x: Shape)
      requires At(Top, shape) && Balanced(shape, height) && !IsRed(shape) && node in mem
      requires OneSubtree(shape, x) && shape.node == node && temp == RootOf(x, sentinel)
      modifies this`root, this`mem, this`shape, this`height
      modifies mem.Keys`left, mem.Keys`right, mem.Keys`parent, mem.Keys`red, node`key, node`data
      ensures mem.Keys == old(mem.Keys) - {node} && At(Top, shape) && Balanced(shape, height) && !IsRed(shape)
      ensures SameOrder(shape, x)
      ensures node.left == node.right == node.parent == null && node.key == 0 && node.data == null
    {
      ghost var y := RootGone(node, temp, x);
      hide At, Focus, Balanced, Inorder, Nodes, Mirror;
      NewRoot(temp, y);
      NodeInit(node, Top, y);
      shape, height := y, BlackHeight(y);
    }

    /** temp becomes the root, and black. */
    method NewRoot(temp: RbNode, ghost y: Shape)
      requires Mirror() && temp in mem && Focus(mem[temp := mem[temp].(red := false)], sentinel, temp, Top, y)
      modifies this`root, this`mem, temp`red
      ensures mem.Keys == old(mem.Keys) && At(Top, y)
    {
      hide Focus;
      root := temp;
      SetRed(temp, false);
    }

    /** The only subtree of the root is the tree, once its root is black. */
    lemma RootGone(node: RbNode, temp: RbNode, x: Shape) returns (y: Shape)
      requires At(Top, shape) && Balanced(shape, height) && !IsRed(shape)
      requires OneSubtree(shape, x) && shape.node == node && temp == RootOf(x, sentinel)
      ensures Mirror() && temp in mem && Focus(mem[temp := mem[temp].(red := false)], sentinel, temp, Top, y)
      ensures node != sentinel && node != temp && node !in Nodes(y)
      ensures Balanced(y, BlackHeight(y)) && !IsRed(y) && SameOrder(y, x)
    {
      RootRemoval(shape, x, height);
      SightBelow(Top, shape);
      Sight(Top, shape);
      Unlinked(mem, mem, sentinel, root, temp, Top, shape, x);
      y := if x.Leaf? then x else Paint(x, false);
      if x.Fork? {
        Painted(mem, sentinel, temp, Top, x, false);
        PaintKeeps(x, false);
      }
      assert x.Leaf? ==> mem[temp := mem[temp].(red := false)] == mem;
      hide Focus;
    }

    ghost predicate Cleared(node: RbNode)
      reads node
    {
      node.left == node.right == node.parent == null && node.key == 0 && node.data == null
    }

    /** Deletion of a node with at most one subtree. */
    method DeleteOne(node: RbNode, temp: RbNode, ghost c: Ctx, ghost t: Shape, ghost x: Shape)
      requires At(c, t) && Plug(c, t) == shape && Balanced(shape, height) && !IsRed(shape)
      requires OneSubtree(t, x) && t.node == node && temp == RootOf(x, sentinel)
      modifies this`root, this`mem, this`shape, this`height
      modifies mem.Keys`left, mem.Keys`right, mem.Keys`parent, mem.Keys`red, node`key, node`data
      ensures mem.Keys == old(mem.Keys) - {node} && At(Top, shape) && Balanced(shape, height) && !IsRed(shape)
      ensures SameOrder(shape, Plug(c, x)) && Cleared(node) && node !in mem
    {
      Sight(c, t);
      SightBelow(c, t);
      ghost var h := RemovalBalance(c, t, x, height);
      if node == root {
        hide At, Balanced, Inorder, Nodes;
        DeleteRoot(node, temp, x);
      } else {
        var red := node.red;
        hide At, Balanced, Inorder, Nodes, Plug, RemovedFrom;
        RemoveOne(node, temp, c, t, x);
        Finish(node, temp, red, c, x, h);
      }
    }

    /** Deletion of a node with two subtrees. */
    method DeleteTwo(node: RbNode, ghost c: Ctx, ghost t: Shape)
      returns (ghost c': Ctx, ghost x: Shape)
      requires At(c, t) && Plug(c, t) == shape && Balanced(shape, height) && !IsRed(shape)
      requires t.Fork? && t.node == node && t.left.Fork? && t.right.Fork?
      modifies this`root, this`mem, this`shape, this`height
      modifies mem.Keys`left, mem.Keys`right, mem.Keys`parent, mem.Keys`red, node`key, node`data
      ensures mem.Keys == old(mem.Keys) - {node} && At(Top, shape) && Balanced(shape, height) && !IsRed(shape)
      ensures SameOrder(shape, Plug(c', x)) && Cleared(node)
      ensures Inorder(Plug(c, t)) == (Pre(c) + Inorder(t.left)) + [node] + (Inorder(t.right) + Post(c))
      ensures Inorder(Plug(c', x)) == (Pre(c) + Inorder(t.left)) + (Inorder(t.right) + Post(c))
      ensures Nodes(Plug(c, t)) == Nodes(Plug(c', x)) + {node}
    {
      SightBelow(c, t);
      ghost var base := InRight(c, t.left, node, t.red);
      Down(base, t.right);
      var subst, p, low := NodeMin(node.right, base, t.right);
      SightBelow(Compose(p, base), low);
      var temp := subst.right;
      x := low.right;
      c' := Compose(p, InRight(c, t.left, subst, t.red));
      SuccessorOrder(c, t.left, node, t.red, p, subst, low.red, x);
      assert low == Fork(Leaf, subst, low.red, x) && t == Fork(t.left, node, t.red, Plug(p, low));
      ghost var h := RemovalBalance(Compose(p, base), low, x, height);
      RemovalRename(p, c, t.left, node, subst, t.red, x, low.red, h);
      Sight(Compose(p, base), low);
      var red := subst.red;
      hide At, Balanced, Inorder, Nodes, Plug, Compose, RemovedFrom;
      RemoveTwo(node, subst, temp, c, t.left, t.red, p, low.red, x);
      Finish(node, temp, red, c', x, h);
    }

    /** Deletion of any member: the links, the colours and the order. */
    method DeleteMember(node: RbNode) returns (ghost before: seq<RbNode>, ghost after: seq<RbNode>)
      requires At(Top, shape) && Balanced(shape, height) && !IsRed(shape) && node in Nodes(shape)
      modifies this`root, this`mem, this`shape, this`height
      modifies mem.Keys`left, mem.Keys`right, mem.Keys`parent, mem.Keys`red, node`key, node`data
      ensures mem.Keys == old(mem.Keys) - {node} && At(Top, shape) && Balanced(shape, height) && !IsRed(shape)
      ensures old(Order()) == before + [node] + after && Order() == before + after
      ensures old(Nodes(shape)) == Nodes(shape) + {node} && Cleared(node)
    {
      ghost var c, t := Locate(shape, node);
      ComposeTop(c);
      Sink(mem, sentinel, root, c, Top, t);
      SightBelow(c, t);
      before, after := Pre(c) + Inorder(t.left), Inorder(t.right) + Post(c);
      if node.left == sentinel || node.right == sentinel {
        var temp := if node.left == sentinel then node.right else node.left;
        ghost var x := if node.left == sentinel then t.right else t.left;
        RemovalOrder(c, t, x);
        hide At, Balanced, Inorder, Nodes, Plug, CtxNodes, Pre, Post;
        DeleteOne(node, temp, c, t, x);
      } else {
        hide At, Balanced, Inorder, Nodes, Plug, CtxNodes, Pre, Post;
        ghost var c', x := DeleteTwo(node, c, t);
      }
    }

    lemma AscendingRest(keys: map<RbNode, int>, before: seq<RbNode>, node: RbNode, after: seq<RbNode>)
      requires var order := before + [node] + after;
        && (forall n :: n in order ==> n in keys) && NoDuplicates(order)
        && forall i, j :: 0 <= i < j < |order| ==> keys[order[i]] <= keys[order[j]]
      requires forall n :: n in keys && n != node ==> n.key == keys[n]
      ensures Ascending(before + after)
    {
      var order, rest := before + [node] + after, before + after;
      forall i, j | 0 <= i < j < |rest| ensures rest[i].key <= rest[j].key {
        var i', j' := if i < |before| then i else i + 1, if j < |before| then j else j + 1;
        assert rest[i] == order[i'] && rest[j] == order[j'] && order[|before|] == node;
      }
    }

    lemma MembersInMem(t: Shape)
      requires At(Top, t)
      ensures Nodes(t) <= mem.Keys && sentinel in mem && sentinel !in Nodes(t)
    {
      LinkedInside(mem, sentinel, t);
    }

    /** rbtree_delete: removes node and nothing else; the order of the rest stays. */
    method Delete(node: RbNode) returns (ghost before: seq<RbNode>, ghost after: seq<RbNode>)
      requires Valid() && node in Nodes(shape)
      modifies this`root, this`mem, this`shape, this`height
      modifies mem.Keys`left, mem.Keys`right, mem.Keys`parent, mem.Keys`red, node`key, node`data
      ensures Valid() && mem.Keys == old(mem.Keys) - {node}
      ensures old(Order()) == before + [node] + after && Order() == before + after
      ensures Cleared(node)
    {
      MembersInMem(shape);
      SepNoDuplicates(shape);
      ghost var order := Order();
      assert Ascending(order) && NoDuplicates(order);
      ghost var keys := map n | n in order :: n.key;
      hide At, Balanced, Inorder, Nodes;
      before, after := DeleteMember(node);
      MembersInMem(shape);
      AscendingRest(keys, before, node, after);
    }

    /** No position is deeper than 2 * log2(n + 1). */
    lemma DescentBound(c: Ctx, t: Shape)
      requires Balanced(shape, height) && !IsRed(shape) && Plug(c, t) == shape
      ensures Pow2(Depth(c)) <= (|Order()| + 1) * (|Order()| + 1)
    {
      HeightBound(shape, height);
      DepthHeight(c, t);
      Pow2Mono(Depth(c), Height(shape));
    }

    /** rbtree_min: the first member, reached in at most 2 * log2(n + 1) steps. */
    method Min() returns (node: RbNode?, ghost steps: nat)
      requires Valid()
      ensures Valid() && node == if Order() == [] then null else Order()[0]
      ensures node != null ==> node in Nodes(shape)
      ensures Pow2(steps) <= (|Order()| + 1) * (|Order()| + 1)
    {
      Sight(Top, shape);
      if root == sentinel {
        steps := 0;
        node := null;
      } else {
        ghost var order := Order();
        assert Ascending(order);
        var first, p, low := NodeMin(root, Top, shape);
        assert Ascending(order);
        node, steps := first, Depth(p);
        FirstInOrder(p, low);
        DescentBound(p, low);
      }
    }

    /** What a user of the tree may rely on. */
    lemma OrderFacts()
      requires Valid()
      ensures NoDuplicates(Order()) && Ascending(Order())
      ensures forall n :: n in Order() <==> n in Nodes(shape)
      ensures forall n :: n in mem <==> n in Order() || n == sentinel
      ensures sentinel !in Order()
    {
      SepNoDuplicates(shape);
      forall n ensures n in Order() <==> n in Nodes(shape) { InorderNodes(shape, n); }
      MembersInMem(shape);
    }
  }
}
