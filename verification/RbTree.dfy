/** ngx_rbtree.c and ngx_rbtree.h: insertion, deletion and the minimum of a red-black tree. */
module RbTree {
  import opened RbShape
  import opened RbBalance
  import opened RbOrder

  class RbTree {
    var root: Node
    const sentinel: Node
    const order: Order

    // The tree's shape, its nodes and the sentinel, and the positions of the nodes.
    ghost var tree: Tree
    ghost var repr: set<Node>
    ghost var pos: Positions

    // The nodes' keys, and when each node was inserted.
    ghost var keys: Keys
    ghost var stamp: map<Node, nat>
    ghost var clock: nat

    ghost function Snap(): Heap
      reads this`root, this`repr, this`pos, repr
    {
      H(root, sentinel, map n | n in repr :: Cell(n.left, n.right, n.parent, n.color), pos)
    }

    // The nodes in order.
    ghost function Contents(): seq<Node>
      reads this
    {
      InOrder(tree)
    }

    // ks holds the keys of the nodes.
    ghost predicate KeysOk(ks: Keys)
      reads this`repr, repr`key
    {
      Differing(ks) == {}
    }

    ghost function Differing(ks: Keys): set<Node>
      reads this`repr, repr`key
    {
      set n | n in repr && !(n in ks && ks[n] == n.key)
    }

    // The memory is the red-black tree `tree`, ordered by key and then by time of insertion.
    ghost predicate Valid()
      reads this, repr
    {
      && At(Top, tree, Snap()) == root && RedBlack(tree)
      && repr == pos.Keys + {sentinel} && Elems(Contents()) == pos.Keys && Stamped(pos, stamp, clock)
      && KeysOk(keys) && InFifoOrder(order, keys, stamp, Contents())
    }

    constructor (s: Node, o: Order)
      modifies s`color
      ensures Valid() && Contents() == [] && sentinel == s && order == o && repr == {s}
    {
      root, sentinel, order := s, s, o;
      tree, repr, pos, stamp, clock := Leaf, {s}, map[], map[], 0;
      var ks: Keys := map[];
      keys := ks[s := s.key];
      new;
      s.color := Black;
    }

    // ---------- colour changes at the focus and below it ----------

    method Paint0(x: Node, c: Color, ghost ctx: Ctx, ghost t: Tree)
      requires t.T? && x == t.n && At(ctx, t, Snap()) == x
      modifies x`color
      ensures At(ctx, Paint(t, c), Snap()) == x
    {
      ghost var h := Snap();
      x.color := c;
      assert Snap().m == h.m[x := h.m[x].(color := c)];
      ZipPaint(ctx, t, c, h, Snap());
    }

    method PaintL(x: Node, c: Color, ghost ctx: Ctx, ghost t: Tree)
      requires t.T? && t.l.T? && x == t.l.n && At(ctx, t, Snap()) == t.n
      modifies x`color
      ensures At(ctx, t.(l := Paint(t.l, c)), Snap()) == t.n
    {
      ZipDown(ctx, t, Snap());
      Paint0(x, c, L(ctx, t.c, t.n, t.r), t.l);
      ZipUp(L(ctx, t.c, t.n, t.r), Paint(t.l, c), x, Snap());
    }

    method PaintR(x: Node, c: Color, ghost ctx: Ctx, ghost t: Tree)
      requires t.T? && t.r.T? && x == t.r.n && At(ctx, t, Snap()) == t.n
      modifies x`color
      ensures At(ctx, t.(r := Paint(t.r, c)), Snap()) == t.n
    {
      ZipDown(ctx, t, Snap());
      Paint0(x, c, R(ctx, t.c, t.l, t.n), t.r);
      ZipUp(R(ctx, t.c, t.l, t.n), Paint(t.r, c), x, Snap());
    }

    // ---------- rotations ----------

    method LeftRotate(node: Node)
      requires CanTurnLeft(node, Snap())
      modifies this`root, repr`left, repr`right, repr`parent
      ensures TurnedLeft(node, old(Snap()), Snap())
    {
      var temp := node.right;
      node.right := temp.left;
      if temp.left != sentinel {
        temp.left.parent := node;
      }
      temp.parent := node.parent;
      if node == root {
        root := temp;
      } else if node == node.parent.left {
        node.parent.left := temp;
      } else {
        node.parent.right := temp;
      }
      temp.left := node;
      node.parent := temp;
    }

    method RightRotate(node: Node)
      requires CanTurnRight(node, Snap())
      modifies this`root, repr`left, repr`right, repr`parent
      ensures TurnedRight(node, old(Snap()), Snap())
    {
      var temp := node.left;
      node.left := temp.right;
      if temp.right != sentinel {
        temp.right.parent := node;
      }
      temp.parent := node.parent;
      if node == root {
        root := temp;
      } else if node == node.parent.right {
        node.parent.right := temp;
      } else {
        node.parent.left := temp;
      }
      temp.right := node;
      node.parent := temp;
    }

    method RotL0(x: Node, ghost ctx: Ctx, ghost t: Tree)
      requires t.T? && t.r.T? && x == t.n && At(ctx, t, Snap()) == x
      modifies this`root, repr`left, repr`right, repr`parent
      ensures At(ctx, RotL(t), Snap()) == t.r.n
      ensures sentinel.parent == old(sentinel.parent)
    {
      ghost var h := Snap();
      TurnLeftReady(ctx, t, h);
      LeftRotate(x);
      TurnLeft(ctx, t, h, Snap());
      assert Snap().m[sentinel] == h.m[sentinel];
    }

    method RotR0(x: Node, ghost ctx: Ctx, ghost t: Tree)
      requires t.T? && t.l.T? && x == t.n && At(ctx, t, Snap()) == x
      modifies this`root, repr`left, repr`right, repr`parent
      ensures At(ctx, RotR(t), Snap()) == t.l.n
      ensures sentinel.parent == old(sentinel.parent)
    {
      ghost var h := Snap();
      TurnRightReady(ctx, t, h);
      RightRotate(x);
      TurnRight(ctx, t, h, Snap());
      assert Snap().m[sentinel] == h.m[sentinel];
    }

    method RotLOfLeft(x: Node, ghost ctx: Ctx, ghost t: Tree)
      requires t.T? && t.l.T? && t.l.r.T? && x == t.l.n && At(ctx, t, Snap()) == t.n
      modifies this`root, repr`left, repr`right, repr`parent
      ensures At(ctx, t.(l := RotL(t.l)), Snap()) == t.n
      ensures sentinel.parent == old(sentinel.parent)
    {
      ghost var inner := L(ctx, t.c, t.n, t.r);
      ZipDown(ctx, t, Snap());
      RotL0(x, inner, t.l);
      ZipUp(inner, RotL(t.l), t.l.r.n, Snap());
    }

    method RotROfRight(x: Node, ghost ctx: Ctx, ghost t: Tree)
      requires t.T? && t.r.T? && t.r.l.T? && x == t.r.n && At(ctx, t, Snap()) == t.n
      modifies this`root, repr`left, repr`right, repr`parent
      ensures At(ctx, t.(r := RotR(t.r)), Snap()) == t.n
      ensures sentinel.parent == old(sentinel.parent)
    {
      ghost var inner := R(ctx, t.c, t.l, t.n);
      ZipDown(ctx, t, Snap());
      RotR0(x, inner, t.r);
      ZipUp(inner, RotR(t.r), t.r.l.n, Snap());
    }
  
    // ---------- insertion ----------

    // A red uncle: the grandparent's colour moves down.  a is recoloured before b.
    method Recolor(g: Node, ghost up: Ctx, ghost G: Tree)
      requires G.T? && G.l.T? && G.r.T? && g == G.n && At(up, G, Snap()) == g
      modifies G.n`color, G.l.n`color, G.r.n`color
      ensures At(up, Recolored(G), Snap()) == g
    {
      ZipKids(up, G, Snap());
      PaintL(g.left, Black, up, G);
      ghost var G1 := G.(l := Paint(G.l, Black));
      ZipKids(up, G1, Snap());
      PaintR(g.right, Black, up, G1);
      Paint0(g, Red, up, G1.(r := Paint(G.r, Black)));
    }

    // The outer rotation of the insertion fixup: the left child of the grandparent is lifted.
    method LiftOuterLeft(node: Node, ghost up: Ctx, ghost G: Tree)
      requires G.T? && G.l.T? && G.l.l.T? && node == G.l.l.n && At(up, G, Snap()) == G.n
      modifies this`root, repr`left, repr`right, repr`parent, repr`color
      ensures At(up, LiftL(G), Snap()) == G.l.n
    {
      ZipKids(up, G, Snap());
      PaintL(node.parent, Black, up, G);
      ghost var G1 := G.(l := Paint(G.l, Black));
      ZipKids(up, G1, Snap());
      Paint0(node.parent.parent, Red, up, G1);
      ZipKids(up, Paint(G1, Red), Snap());
      RotR0(node.parent.parent, up, Paint(G1, Red));
    }

    method LiftOuterRight(node: Node, ghost up: Ctx, ghost G: Tree)
      requires G.T? && G.r.T? && G.r.r.T? && node == G.r.r.n && At(up, G, Snap()) == G.n
      modifies this`root, repr`left, repr`right, repr`parent, repr`color
      ensures At(up, LiftR(G), Snap()) == G.r.n
    {
      ZipKids(up, G, Snap());
      PaintR(node.parent, Black, up, G);
      ghost var G1 := G.(r := Paint(G.r, Black));
      ZipKids(up, G1, Snap());
      Paint0(node.parent.parent, Red, up, G1);
      ZipKids(up, Paint(G1, Red), Snap());
      RotL0(node.parent.parent, up, Paint(G1, Red));
    }

    // The grandparent's subtree during the insertion fixup.
    ghost function Grand(ctx: Ctx, t: Tree): Tree
      requires !ctx.Top? && !ctx.up.Top?
    {
      Above(ctx.up, Above(ctx, t))
    }

    lemma FocusGrand(ctx: Ctx, t: Tree, node: Node, h: int, s: Heap)
      requires t.T? && At(ctx, t, s) == node && RedBelowRed(ctx, t, h)
      ensures !ctx.up.Top? && var G := Grand(ctx, t);
        G.T? && At(ctx.up.up, G, s) == G.n && Kids(G, s) && Kids(G.l, s) && Kids(G.r, s)
    {
      Grandparent(ctx, t, h);
      ZipUp(ctx, t, node, s);
      ZipUp(ctx.up, Above(ctx, t), ctx.n, s);
      ZipKids(ctx.up.up, Grand(ctx, t), s);
    }

    // The insertion fixup with a black uncle on the right of the grandparent.
    method RotateInsertLeft(node: Node, ghost ctx: Ctx, ghost t: Tree, ghost h: int)
      returns (node': Node, ghost ctx': Ctx, ghost t': Tree)
      requires t.T? && At(ctx, t, Snap()) == node && RedBelowRed(ctx, t, h) && ctx.up.L? && !IsRed(ctx.up.r)
      modifies this`root, repr`left, repr`right, repr`parent, repr`color
      ensures At(ctx', t', Snap()) == node' && IsRed(t') && Bal(t', h) && CtxBal(ctx', h)
      ensures InOrder(Fill(ctx', t')) == InOrder(Fill(ctx, t)) && Depth(ctx') < Depth(ctx)
    {
      ghost var up, G, o := ctx.up.up, Grand(ctx, t), Outward(ctx, t);
      FocusGrand(ctx, t, node, h, Snap());
      node' := node;
      if node' == node'.parent.right {
        node' := node'.parent;
        RotLOfLeft(node', up, G);
      }
      LiftOuterLeft(node', up, o);
      LiftedLeft(ctx, t, h, LiftL(o));
      ZipDown(up, LiftL(o), Snap());
      ctx', t' := L(up, LiftL(o).c, LiftL(o).n, LiftL(o).r), LiftL(o).l;
    }

    method RotateInsertRight(node: Node, ghost ctx: Ctx, ghost t: Tree, ghost h: int)
      returns (node': Node, ghost ctx': Ctx, ghost t': Tree)
      requires t.T? && At(ctx, t, Snap()) == node && RedBelowRed(ctx, t, h) && ctx.up.R? && !IsRed(ctx.up.l)
      modifies this`root, repr`left, repr`right, repr`parent, repr`color
      ensures At(ctx', t', Snap()) == node' && IsRed(t') && Bal(t', h) && CtxBal(ctx', h)
      ensures InOrder(Fill(ctx', t')) == InOrder(Fill(ctx, t)) && Depth(ctx') < Depth(ctx)
    {
      ghost var up, G, o := ctx.up.up, Grand(ctx, t), Outward(ctx, t);
      FocusGrand(ctx, t, node, h, Snap());
      node' := node;
      if node' == node'.parent.left {
        node' := node'.parent;
        RotROfRight(node', up, G);
      }
      LiftOuterRight(node', up, o);
      LiftedRight(ctx, t, h, LiftR(o));
      ZipDown(up, LiftR(o), Snap());
      ctx', t' := R(up, LiftR(o).c, LiftR(o).l, LiftR(o).n), LiftR(o).r;
    }
  
    // Hangs node below temp, at the hole ctx.
    method Link(node: Node, temp: Node, left: bool, ghost ctx: Ctx)
      requires !ctx.Top? && ctx.L? == left && ctx.n == temp && At(ctx, Leaf, Snap()) == sentinel
      requires node in repr && node !in pos && node != sentinel && temp in repr
      modifies this`pos, temp`left, temp`right, node`left, node`right, node`parent, node`color
      ensures pos.Keys == old(pos.Keys) + {node}
      ensures At(ctx, T(Red, Leaf, node, Leaf), Snap()) == node
    {
      ghost var h := Snap();
      if left {
        temp.left := node;
      } else {
        temp.right := node;
      }
      node.parent := temp;
      node.left := sentinel;
      node.right := sentinel;
      node.color := Red;
      pos := pos[node := (Lo(ctx, pos) + Hi(ctx, pos)) / 2.0];
      ZipLink(ctx, node, h, Snap());
    }

    // The search loop of ngx_rbtree_insert_value and ngx_rbtree_insert_timer_value.
    method FindHole(k: Key, ghost tr: Tree, ghost ks: Keys, ghost st: Stamps, ghost base: Key)
      returns (temp: Node, left: bool, ghost ctx: Ctx)
      requires tr.T? && At(Top, tr, Snap()) == root && KeysOk(ks)
      requires Descending(order, ks, st, Top, tr, BlackHeight(tr), k, base)
      ensures !ctx.Top? && ctx.L? == left && ctx.n == temp && At(ctx, Leaf, Snap()) == sentinel
      ensures CtxBal(ctx, 0) && Fill(ctx, Leaf) == tr && Fence(order, ks, ctx, k)
    {
      temp := root;
      ghost var t, h := tr, BlackHeight(tr);
      ctx := Top;
      while true
        invariant t.T? && At(ctx, t, Snap()) == temp && Fill(ctx, t) == tr
        invariant Descending(order, ks, st, ctx, t, h, k, base)
        decreases t
      {
        ZipDown(ctx, t, Snap());
        assert temp !in Differing(ks);
        left := Less(order, k, temp.key);
        var p := if left then temp.left else temp.right;
        Descend(order, ks, st, ctx, t, h, k, base);
        ctx, t, h := DownCtx(ctx, t, left), DownTree(t, left), h - Rise(t.c);
        if p == sentinel {
          return;
        }
        temp := p;
      }
    }

    // The loop body of the insertion fixup.
    method FixInsertStep(node: Node, ghost ctx: Ctx, ghost t: Tree, ghost h: int)
      returns (node': Node, ghost ctx': Ctx, ghost t': Tree, ghost h': int)
      requires t.T? && At(ctx, t, Snap()) == node && RedBelowRed(ctx, t, h)
      modifies this`root, repr`left, repr`right, repr`parent, repr`color
      ensures At(ctx', t', Snap()) == node' && IsRed(t') && Bal(t', h') && CtxBal(ctx', h')
      ensures InOrder(Fill(ctx', t')) == InOrder(Fill(ctx, t)) && Depth(ctx') < Depth(ctx)
    {
      ghost var up, G := ctx.up.up, Grand(ctx, t);
      FocusGrand(ctx, t, node, h, Snap());
      var temp: Node;
      if node.parent == node.parent.parent.left {
        temp := node.parent.parent.right;
        if temp.color != Red {
          node', ctx', t' := RotateInsertLeft(node, ctx, t, h);
          h' := h;
          return;
        }
      } else {
        temp := node.parent.parent.left;
        if temp.color != Red {
          node', ctx', t' := RotateInsertRight(node, ctx, t, h);
          h' := h;
          return;
        }
      }
      node' := node.parent.parent;
      Recolor(node', up, G);
      RecoloredOk(ctx, t, h, G);
      ctx', t', h' := up, Recolored(G), h + 1;
    }

    // The insertion fixup from a new red leaf.
    method FixInsert(node: Node, ghost ctx: Ctx)
      requires At(ctx, T(Red, Leaf, node, Leaf), Snap()) == node && CtxBal(ctx, 0)
      modifies this`root, this`tree, repr`left, repr`right, repr`parent, repr`color
      ensures At(Top, tree, Snap()) == root && RedBlack(tree)
      ensures InOrder(tree) == InOrder(Fill(ctx, T(Red, Leaf, node, Leaf)))
    {
      var node' := node;
      ghost var c, t, h := ctx, T(Red, Leaf, node, Leaf), 0;
      ZipGuard(c, t, Snap());
      while node' != root && node'.parent.color == Red
        invariant At(c, t, Snap()) == node' && IsRed(t) && Bal(t, h) && CtxBal(c, h)
        invariant InOrder(Fill(c, t)) == InOrder(Fill(ctx, T(Red, Leaf, node, Leaf)))
        invariant Guard(c, t, Snap())
        decreases Depth(c)
      {
        node', c, t, h := FixInsertStep(node', c, t, h);
        ZipGuard(c, t, Snap());
      }
      InsertDone(c, t, h);
      ZipTop(c, t, node', Snap());
      Paint0(root, Black, Top, Fill(c, t));
      tree := Paint(Fill(c, t), Black);
    }
  
    // The first node of an empty tree.
    method InsertFirst(node: Node)
      requires node in repr && sentinel in repr && node != sentinel && sentinel.color == Black
      modifies this`root, this`tree, this`pos, node`left, node`right, node`parent, node`color
      ensures At(Top, tree, Snap()) == root && tree == T(Black, Leaf, node, Leaf) && pos.Keys == {node}
    {
      node.parent := null;
      node.left := sentinel;
      node.right := sentinel;
      node.color := Black;
      root := node;
      pos := map[node := 0.5];
      ZipSingle(Snap());
      tree := T(Black, Leaf, node, Leaf);
    }

    // The memory part of an insertion into a nonempty tree: the hole, the link and the fixup.
    method InsertBelow(node: Node, k: Key, ghost tr: Tree, ghost ks: Keys, ghost st: Stamps, ghost base: Key)
      returns (ghost ctx: Ctx)
      requires tr.T? && At(Top, tr, Snap()) == root && node in repr && node !in pos && node != sentinel && KeysOk(ks)
      requires pos.Keys <= repr && Descending(order, ks, st, Top, tr, BlackHeight(tr), k, base)
      modifies this`root, this`tree, this`pos, repr`left, repr`right, repr`parent, repr`color
      ensures At(Top, tree, Snap()) == root && RedBlack(tree) && pos.Keys == old(pos.Keys) + {node}
      ensures InOrder(tr) == Before(ctx) + After(ctx) && InOrder(tree) == Before(ctx) + [node] + After(ctx)
      ensures Fence(order, ks, ctx, k)
    {
      var temp, left;
      temp, left, ctx := FindHole(k, tr, ks, st, base);
      HoleOrder(ctx, node);
      Link(node, temp, left, ctx);
      FixInsert(node, ctx);
    }

    // The bookkeeping before and after an insertion.
    ghost method AddNode(node: Node)
      requires At(Top, tree, Snap()) == root && KeysOk(keys)
      modifies this`repr, this`keys, this`stamp, this`clock
      ensures repr == old(repr) + {node} && At(Top, tree, Snap()) == root && KeysOk(keys)
      ensures keys == old(keys)[node := node.key] && stamp == old(stamp)[node := old(clock)] && clock == old(clock) + 1
    {
      ghost var h := Snap();
      repr, keys, stamp, clock := repr + {node}, keys[node := node.key], stamp[node := clock], clock + 1;
      ZipExtend(Top, tree, root, h, Snap());
      assert Differing(keys) <= old(Differing(keys));
    }

    // All is ready for linking node, the latest node, into the tree.
    ghost predicate Pending(node: Node, base: Key)
      reads this, repr
    {
      && node !in pos && node != sentinel && repr == pos.Keys + {sentinel, node}
      && At(Top, tree, Snap()) == root && KeysOk(keys) && Elems(Contents()) == pos.Keys
      && Descending(order, keys, stamp, Top, tree, BlackHeight(tree), node.key, base)
      && node in stamp && stamp[node] + 1 == clock && Stamped(pos, stamp, stamp[node])
    }

    ghost method BeginInsert(node: Node, base: Key)
      requires Valid() && node !in repr
      requires AllFit(order, base, keys, Contents()) && Fits(order, base, node.key)
      modifies this`repr, this`keys, this`stamp, this`clock
      ensures repr == old(repr) + {node} && keys == old(keys)[node := node.key] && Pending(node, base)
    {
      StartInsert(order, keys, stamp, tree, node, node.key, clock, base);
      AddNode(node);
    }

    method InsertIntoEmpty(node: Node, ghost base: Key)
      requires Pending(node, base) && tree == Leaf
      modifies this`root, this`tree, this`pos, repr`left, repr`right, repr`parent, repr`color
      ensures Valid() && Contents() == [node]
    {
      InsertFirst(node);
      FifoInserted(order, keys, stamp, map[], pos, Top, node, stamp[node]);
    }

    method InsertIntoTree(node: Node, ghost base: Key) returns (ghost ctx: Ctx)
      requires Pending(node, base) && tree.T?
      modifies this`root, this`tree, this`pos, repr`left, repr`right, repr`parent, repr`color
      ensures Valid()
      ensures old(Contents()) == Before(ctx) + After(ctx) && Contents() == Before(ctx) + [node] + After(ctx)
      ensures Fence(order, keys, ctx, node.key)
    {
      ghost var q := pos;
      ctx := InsertBelow(node, node.key, tree, keys, stamp, base);
      FifoInserted(order, keys, stamp, q, pos, ctx, node, stamp[node]);
    }

    method InsertPending(node: Node, ghost base: Key) returns (ghost ctx: Ctx)
      requires Pending(node, base)
      modifies this`root, this`tree, this`pos, repr`left, repr`right, repr`parent, repr`color
      ensures Valid()
      ensures old(Contents()) == Before(ctx) + After(ctx) && Contents() == Before(ctx) + [node] + After(ctx)
      ensures Fence(order, keys, ctx, node.key)
    {
      if root == sentinel {
        InsertIntoEmpty(node, base);
        ctx := Top;
      } else {
        ctx := InsertIntoTree(node, base);
      }
    }

    // ngx_rbtree_insert: node goes after all nodes with a key that is not greater, and the tree
    // stays a red-black tree.
    method Insert(node: Node, ghost base: Key) returns (ghost ctx: Ctx)
      requires Valid() && node !in repr
      requires AllFit(order, base, keys, Contents()) && Fits(order, base, node.key)
      modifies this`root, this`tree, this`repr, this`pos, this`keys, this`stamp, this`clock
      modifies repr`left, repr`right, repr`parent, repr`color, node`left, node`right, node`parent, node`color
      ensures Valid() && repr == old(repr) + {node} && keys == old(keys)[node := node.key]
      ensures old(Contents()) == Before(ctx) + After(ctx) && Contents() == Before(ctx) + [node] + After(ctx)
      ensures Fence(order, keys, ctx, node.key)
    {
      BeginInsert(node, base);
      ctx := InsertPending(node, base);
    }
  
    // ---------- deletion ----------

    method PaintLL(x: Node, c: Color, ghost ctx: Ctx, ghost t: Tree)
      requires t.T? && t.l.T? && t.l.l.T? && x == t.l.l.n && At(ctx, t, Snap()) == t.n
      modifies x`color
      ensures At(ctx, t.(l := t.l.(l := Paint(t.l.l, c))), Snap()) == t.n
    {
      ZipDown(ctx, t, Snap());
      PaintL(x, c, L(ctx, t.c, t.n, t.r), t.l);
      ZipUp(L(ctx, t.c, t.n, t.r), t.l.(l := Paint(t.l.l, c)), t.l.n, Snap());
    }

    method PaintLR(x: Node, c: Color, ghost ctx: Ctx, ghost t: Tree)
      requires t.T? && t.l.T? && t.l.r.T? && x == t.l.r.n && At(ctx, t, Snap()) == t.n
      modifies x`color
      ensures At(ctx, t.(l := t.l.(r := Paint(t.l.r, c))), Snap()) == t.n
    {
      ZipDown(ctx, t, Snap());
      PaintR(x, c, L(ctx, t.c, t.n, t.r), t.l);
      ZipUp(L(ctx, t.c, t.n, t.r), t.l.(r := Paint(t.l.r, c)), t.l.n, Snap());
    }

    method PaintRL(x: Node, c: Color, ghost ctx: Ctx, ghost t: Tree)
      requires t.T? && t.r.T? && t.r.l.T? && x == t.r.l.n && At(ctx, t, Snap()) == t.n
      modifies x`color
      ensures At(ctx, t.(r := t.r.(l := Paint(t.r.l, c))), Snap()) == t.n
    {
      ZipDown(ctx, t, Snap());
      PaintL(x, c, R(ctx, t.c, t.l, t.n), t.r);
      ZipUp(R(ctx, t.c, t.l, t.n), t.r.(l := Paint(t.r.l, c)), t.r.n, Snap());
    }

    method PaintRR(x: Node, c: Color, ghost ctx: Ctx, ghost t: Tree)
      requires t.T? && t.r.T? && t.r.r.T? && x == t.r.r.n && At(ctx, t, Snap()) == t.n
      modifies x`color
      ensures At(ctx, t.(r := t.r.(r := Paint(t.r.r, c))), Snap()) == t.n
    {
      ZipDown(ctx, t, Snap());
      PaintR(x, c, R(ctx, t.c, t.l, t.n), t.r);
      ZipUp(R(ctx, t.c, t.l, t.n), t.r.(r := Paint(t.r.r, c)), t.r.n, Snap());
    }

    lemma FocusParent(ctx: Ctx, t: Tree, x: Node, h: int, s: Heap)
      requires At(ctx, t, s) == x && Lacking(ctx, t, h)
      ensures At(ctx.up, Above(ctx, t), s) == ctx.n
      ensures Kids(Above(ctx, t), s) && Kids(Above(ctx, t).l, s) && Kids(Above(ctx, t).r, s)
      ensures ctx.L? ==> ctx.r.T?
      ensures ctx.R? ==> ctx.l.T?
      ensures x in s.m && ctx.n in s.m && (x == s.m[ctx.n].left <==> ctx.L?)
    {
      HeightIs(t, h);
      ZipUp(ctx, t, x, s);
      ZipKids(ctx.up, Above(ctx, t), s);
    }

    // Case 1 of the deletion fixup: a red sibling on the right.
    method RaiseRight(temp: Node, ghost ctx: Ctx, ghost t: Tree, ghost h: int) returns (ghost ctx': Ctx)
      requires At(ctx, t, Snap()) == temp && Lacking(ctx, t, h) && ctx.L? && IsRed(ctx.r) && temp.parent == ctx.n
      modifies this`root, repr`left, repr`right, repr`parent, repr`color
      ensures At(ctx', t, Snap()) == temp && Lacking(ctx', t, h) && ctx'.L? && !IsRed(ctx'.r) && temp.parent == ctx'.n
      ensures InOrder(Fill(ctx', t)) == InOrder(Fill(ctx, t)) && Depth(ctx') == Depth(ctx) + 1 && ctx'.c.Red?
    {
      ghost var up, P := ctx.up, Above(ctx, t);
      FocusParent(ctx, t, temp, h, Snap());
      PaintR(temp.parent.right, Black, up, P);
      Paint0(temp.parent, Red, up, P.(r := Paint(P.r, Black)));
      RotL0(temp.parent, up, T(Red, P.l, P.n, Paint(P.r, Black)));
      ctx' := L(L(up, Black, ctx.r.n, ctx.r.r), Red, ctx.n, ctx.r.l);
      TurnedL(ctx, t, h, ctx');
      ZipDown(up, TurnL(P), Snap());
      ZipDown(ctx'.up, Above(ctx', t), Snap());
      FocusParent(ctx', t, temp, h, Snap());
    }
  
    // Case 1 with the sibling on the left.
    method RaiseLeft(temp: Node, ghost ctx: Ctx, ghost t: Tree, ghost h: int) returns (ghost ctx': Ctx)
      requires At(ctx, t, Snap()) == temp && Lacking(ctx, t, h) && ctx.R? && IsRed(ctx.l) && temp.parent == ctx.n
      modifies this`root, repr`left, repr`right, repr`parent, repr`color
      ensures At(ctx', t, Snap()) == temp && Lacking(ctx', t, h) && ctx'.R? && !IsRed(ctx'.l) && temp.parent == ctx'.n
      ensures InOrder(Fill(ctx', t)) == InOrder(Fill(ctx, t)) && Depth(ctx') == Depth(ctx) + 1 && ctx'.c.Red?
    {
      ghost var up, P := ctx.up, Above(ctx, t);
      FocusParent(ctx, t, temp, h, Snap());
      PaintL(temp.parent.left, Black, up, P);
      Paint0(temp.parent, Red, up, P.(l := Paint(P.l, Black)));
      RotR0(temp.parent, up, T(Red, Paint(P.l, Black), P.n, P.r));
      ctx' := R(R(up, Black, ctx.l.l, ctx.l.n), Red, ctx.l.r, ctx.n);
      TurnedR(ctx, t, h, ctx');
      ZipDown(up, TurnR(P), Snap());
      ZipDown(ctx'.up, Above(ctx', t), Snap());
      FocusParent(ctx', t, temp, h, Snap());
    }

    // Case 3: the near child of the right sibling is rotated outwards, if the far one is black.
    method FarChildRight(temp: Node, ghost ctx: Ctx, ghost t: Tree, ghost h: int)
      requires At(ctx, t, Snap()) == temp && Lacking(ctx, t, h) && ctx.L? && temp.parent == ctx.n
      requires ctx.r.T? && !IsRed(ctx.r) && (IsRed(ctx.r.l) || IsRed(ctx.r.r))
      modifies this`root, repr`left, repr`right, repr`parent, repr`color
      ensures At(ctx.up, T(ctx.c, t, ctx.n, FarL(ctx.r)), Snap()) == ctx.n && temp.parent == ctx.n
    {
      ghost var up, P := ctx.up, Above(ctx, t);
      FocusParent(ctx, t, temp, h, Snap());
      var w := temp.parent.right;
      if w.right.color == Black {
        PaintRL(w.left, Black, up, P);
        ghost var P1 := P.(r := P.r.(l := Paint(P.r.l, Black)));
        PaintR(w, Red, up, P1);
        RotROfRight(w, up, P1.(r := Paint(P1.r, Red)));
        ZipKids(up, P.(r := FarL(ctx.r)), Snap());
      }
    }

    method FarChildLeft(temp: Node, ghost ctx: Ctx, ghost t: Tree, ghost h: int)
      requires At(ctx, t, Snap()) == temp && Lacking(ctx, t, h) && ctx.R? && temp.parent == ctx.n
      requires ctx.l.T? && !IsRed(ctx.l) && (IsRed(ctx.l.l) || IsRed(ctx.l.r))
      modifies this`root, repr`left, repr`right, repr`parent, repr`color
      ensures At(ctx.up, T(ctx.c, FarR(ctx.l), ctx.n, t), Snap()) == ctx.n && temp.parent == ctx.n
    {
      ghost var up, P := ctx.up, Above(ctx, t);
      FocusParent(ctx, t, temp, h, Snap());
      var w := temp.parent.left;
      if w.left.color == Black {
        PaintLR(w.right, Black, up, P);
        ghost var P1 := P.(l := P.l.(r := Paint(P.l.r, Black)));
        PaintL(w, Red, up, P1);
        RotLOfLeft(w, up, P1.(l := Paint(P1.l, Red)));
        ZipKids(up, P.(l := FarR(ctx.l)), Snap());
      }
    }

    // Case 4: the right sibling takes the parent's place and colour.
    method PayRight(temp: Node, ghost up: Ctx, ghost P: Tree)
      requires P.T? && P.r.T? && P.r.r.T? && At(up, P, Snap()) == P.n && temp.parent == P.n
      modifies this`root, repr`left, repr`right, repr`parent, repr`color
      ensures At(up, PayL(P.c, P.l, P.n, P.r), Snap()) == P.r.n
    {
      ZipKids(up, P, Snap());
      var w := temp.parent.right;
      PaintR(w, temp.parent.color, up, P);
      ghost var P1 := P.(r := Paint(P.r, P.c));
      Paint0(temp.parent, Black, up, P1);
      ghost var P2 := Paint(P1, Black);
      ZipKids(up, P2, Snap());
      PaintRR(w.right, Black, up, P2);
      RotL0(temp.parent, up, P2.(r := P2.r.(r := Paint(P2.r.r, Black))));
    }

    method PayLeft(temp: Node, ghost up: Ctx, ghost P: Tree)
      requires P.T? && P.l.T? && P.l.l.T? && At(up, P, Snap()) == P.n && temp.parent == P.n
      modifies this`root, repr`left, repr`right, repr`parent, repr`color
      ensures At(up, PayR(P.c, P.r, P.n, P.l), Snap()) == P.l.n
    {
      ZipKids(up, P, Snap());
      var w := temp.parent.left;
      PaintL(w, temp.parent.color, up, P);
      ghost var P1 := P.(l := Paint(P.l, P.c));
      Paint0(temp.parent, Black, up, P1);
      ghost var P2 := Paint(P1, Black);
      ZipKids(up, P2, Snap());
      PaintLL(w.left, Black, up, P2);
      RotR0(temp.parent, up, P2.(l := P2.l.(l := Paint(P2.l.l, Black))));
    }
  
    // The state after one step of the deletion fixup that began at t below ctx.
    ghost predicate Mended(temp': Node, ctx': Ctx, t': Tree, h': int, ctx: Ctx, t: Tree)
      reads this`root, this`repr, this`pos, repr
    {
      && At(ctx', t', Snap()) == temp' && Short(t', h') && CtxBal(ctx', h' + 1)
      && InOrder(Fill(ctx', t')) == InOrder(Fill(ctx, t)) && !ctx.Top?
      && t'.T? && (ctx' == ctx.up || ctx'.Top?) && (CtxRed(ctx) ==> IsRed(t') || ctx'.Top?)
    }

    // Nothing is missing any more: the code moves to the root.
    method Finish(ghost up: Ctx, ghost p: Tree, ghost h: int)
      returns (ghost ctx': Ctx, ghost t': Tree, ghost h': int, temp': Node)
      requires p.T? && At(up, p, Snap()) == p.n && ZipBal(up, p, h)
      ensures ctx' == Top && t' == Fill(up, p) && t'.T? && At(Top, t', Snap()) == temp' && Short(t', h')
    {
      ZipTop(up, p, p.n, Snap());
      FillBal(up, p, h);
      FillSolid(up, p);
      temp' := root;
      ctx', t', h' := Top, Fill(up, p), BlackHeight(Fill(up, p));
    }

    // Cases 3 and 4 with the sibling on the right.
    method BorrowRight(temp: Node, ghost ctx: Ctx, ghost t: Tree, ghost h: int)
      returns (temp': Node, ghost ctx': Ctx, ghost t': Tree, ghost h': int)
      requires At(ctx, t, Snap()) == temp && Lacking(ctx, t, h) && ctx.L? && temp.parent == ctx.n
      requires ctx.r.T? && !IsRed(ctx.r) && (IsRed(ctx.r.l) || IsRed(ctx.r.r))
      modifies this`root, repr`left, repr`right, repr`parent, repr`color
      ensures Mended(temp', ctx', t', h', ctx, t)
    {
      ghost var w', n := FarL(ctx.r), h + 1 + Rise(ctx.c);
      ghost var p := PayL(ctx.c, t, ctx.n, w');
      FarChildRight(temp, ctx, t, h);
      PayRight(temp, ctx.up, T(ctx.c, t, ctx.n, w'));
      PaidL(ctx, t, h, p);
      ctx', t', h', temp' := Finish(ctx.up, p, n);
    }

    // Cases 2, 3 and 4 with a black sibling on the right.
    method SettleRight(temp: Node, ghost ctx: Ctx, ghost t: Tree, ghost h: int)
      returns (temp': Node, ghost ctx': Ctx, ghost t': Tree, ghost h': int)
      requires At(ctx, t, Snap()) == temp && Lacking(ctx, t, h) && ctx.L? && !IsRed(ctx.r) && temp.parent == ctx.n
      modifies this`root, repr`left, repr`right, repr`parent, repr`color
      ensures Mended(temp', ctx', t', h', ctx, t)
    {
      FocusParent(ctx, t, temp, h, Snap());
      ghost var up := ctx.up;
      var w := temp.parent.right;
      if w.left.color == Black && w.right.color == Black {
        PaintR(w, Red, up, Above(ctx, t));
        temp' := temp.parent;
        ctx', t', h' := up, T(ctx.c, t, ctx.n, Paint(ctx.r, Red)), h + Rise(ctx.c);
        Sunk(ctx, t, h, t');
      } else {
        temp', ctx', t', h' := BorrowRight(temp, ctx, t, h);
      }
    }

    // Cases 3 and 4 with the sibling on the left.
    method BorrowLeft(temp: Node, ghost ctx: Ctx, ghost t: Tree, ghost h: int)
      returns (temp': Node, ghost ctx': Ctx, ghost t': Tree, ghost h': int)
      requires At(ctx, t, Snap()) == temp && Lacking(ctx, t, h) && ctx.R? && temp.parent == ctx.n
      requires ctx.l.T? && !IsRed(ctx.l) && (IsRed(ctx.l.l) || IsRed(ctx.l.r))
      modifies this`root, repr`left, repr`right, repr`parent, repr`color
      ensures Mended(temp', ctx', t', h', ctx, t)
    {
      ghost var w', n := FarR(ctx.l), h + 1 + Rise(ctx.c);
      ghost var p := PayR(ctx.c, t, ctx.n, w');
      FarChildLeft(temp, ctx, t, h);
      PayLeft(temp, ctx.up, T(ctx.c, w', ctx.n, t));
      PaidR(ctx, t, h, p);
      ctx', t', h', temp' := Finish(ctx.up, p, n);
    }

    // Cases 2, 3 and 4 with a black sibling on the left.
    method SettleLeft(temp: Node, ghost ctx: Ctx, ghost t: Tree, ghost h: int)
      returns (temp': Node, ghost ctx': Ctx, ghost t': Tree, ghost h': int)
      requires At(ctx, t, Snap()) == temp && Lacking(ctx, t, h) && ctx.R? && !IsRed(ctx.l) && temp.parent == ctx.n
      modifies this`root, repr`right, repr`left, repr`parent, repr`color
      ensures Mended(temp', ctx', t', h', ctx, t)
    {
      FocusParent(ctx, t, temp, h, Snap());
      ghost var up := ctx.up;
      var w := temp.parent.left;
      if w.left.color == Black && w.right.color == Black {
        PaintL(w, Red, up, Above(ctx, t));
        temp' := temp.parent;
        ctx', t', h' := up, T(ctx.c, Paint(ctx.l, Red), ctx.n, t), h + Rise(ctx.c);
        Sunk(ctx, t, h, t');
      } else {
        temp', ctx', t', h' := BorrowLeft(temp, ctx, t, h);
      }
    }
  
    // The loop body of the deletion fixup when the focus is a left child, and when it is a right child.
    method FixDeleteLeft(temp: Node, ghost ctx: Ctx, ghost t: Tree, ghost h: int)
      returns (temp': Node, ghost ctx': Ctx, ghost t': Tree, ghost h': int)
      requires At(ctx, t, Snap()) == temp && Lacking(ctx, t, h) && temp.parent == ctx.n && ctx.L?
      modifies this`root, repr`left, repr`right, repr`parent, repr`color
      ensures At(ctx', t', Snap()) == temp' && t'.T? && Short(t', h') && CtxBal(ctx', h' + 1)
      ensures InOrder(Fill(ctx', t')) == InOrder(Fill(ctx, t))
      ensures Depth(ctx') < Depth(ctx) || (Depth(ctx') == Depth(ctx) && IsRed(t'))
    {
      FocusParent(ctx, t, temp, h, Snap());
      ghost var c := ctx;
      if temp.parent.right.color == Red {
        c := RaiseRight(temp, ctx, t, h);
      }
      temp', ctx', t', h' := SettleRight(temp, c, t, h);
    }

    method FixDeleteRight(temp: Node, ghost ctx: Ctx, ghost t: Tree, ghost h: int)
      returns (temp': Node, ghost ctx': Ctx, ghost t': Tree, ghost h': int)
      requires At(ctx, t, Snap()) == temp && Lacking(ctx, t, h) && temp.parent == ctx.n && ctx.R?
      modifies this`root, repr`left, repr`right, repr`parent, repr`color
      ensures At(ctx', t', Snap()) == temp' && t'.T? && Short(t', h') && CtxBal(ctx', h' + 1)
      ensures InOrder(Fill(ctx', t')) == InOrder(Fill(ctx, t))
      ensures Depth(ctx') < Depth(ctx) || (Depth(ctx') == Depth(ctx) && IsRed(t'))
    {
      FocusParent(ctx, t, temp, h, Snap());
      ghost var c := ctx;
      if temp.parent.left.color == Red {
        c := RaiseLeft(temp, ctx, t, h);
      }
      temp', ctx', t', h' := SettleLeft(temp, c, t, h);
    }

    method FixDeleteStep(temp: Node, ghost ctx: Ctx, ghost t: Tree, ghost h: int)
      returns (temp': Node, ghost ctx': Ctx, ghost t': Tree, ghost h': int)
      requires At(ctx, t, Snap()) == temp && Lacking(ctx, t, h) && temp.parent == ctx.n
      modifies this`root, repr`left, repr`right, repr`parent, repr`color
      ensures At(ctx', t', Snap()) == temp' && t'.T? && Short(t', h') && CtxBal(ctx', h' + 1)
      ensures InOrder(Fill(ctx', t')) == InOrder(Fill(ctx, t))
      ensures Depth(ctx') < Depth(ctx) || (Depth(ctx') == Depth(ctx) && IsRed(t'))
    {
      FocusParent(ctx, t, temp, h, Snap());
      if temp == temp.parent.left {
        temp', ctx', t', h' := FixDeleteLeft(temp, ctx, t, h);
      } else {
        temp', ctx', t', h' := FixDeleteRight(temp, ctx, t, h);
      }
    }

    // The end of the deletion fixup: the focus is painted black.
    method BlackenLast(temp: Node, ghost ctx: Ctx, ghost t: Tree, ghost h: int)
      requires At(ctx, t, Snap()) == temp && Short(t, h) && CtxBal(ctx, h + 1) && (ctx.Top? || IsRed(t))
      modifies this`tree, repr`color
      ensures At(Top, tree, Snap()) == root && RedBlack(tree) && InOrder(tree) == InOrder(Fill(ctx, t))
    {
      FixGuard(ctx, t, temp, Snap());
      ghost var s := Snap();
      temp.color := Black;
      assert Snap().m == s.m[temp := s.m[temp].(color := Black)];
      if t.Leaf? {
        assert Snap() == s;
        tree := Leaf;
      } else {
        ghost var t' := Paint(t, Black);
        ZipPaint(ctx, t, Black, s, Snap());
        Blackened(ctx, t, h);
        ZipTop(ctx, t', temp, Snap());
        tree := Fill(ctx, t');
      }
    }

    // The deletion fixup: below ctx a black level is missing at t.
    method FixDelete(temp: Node, ghost ctx: Ctx, ghost t: Tree, ghost h: int)
      requires At(ctx, t, Snap()) == temp && Short(t, h) && CtxBal(ctx, h + 1)
      requires !ctx.Top? ==> temp.parent == ctx.n
      modifies this`root, this`tree, repr`left, repr`right, repr`parent, repr`color
      ensures At(Top, tree, Snap()) == root && RedBlack(tree) && InOrder(tree) == InOrder(Fill(ctx, t))
    {
      var temp' := temp;
      ghost var c, t', h' := ctx, t, h;
      FixGuard(c, t', temp', Snap());
      while temp' != root && temp'.color == Black
        invariant At(c, t', Snap()) == temp' && Short(t', h') && CtxBal(c, h' + 1)
        invariant InOrder(Fill(c, t')) == InOrder(Fill(ctx, t))
        invariant !c.Top? ==> temp'.parent == c.n
        invariant temp' in repr && (temp' == root <==> c.Top?) && (temp'.color == Red <==> IsRed(t'))
        decreases Depth(c) + if IsRed(t') then 0 else 1
      {
        temp', c, t', h' := FixDeleteStep(temp', c, t', h');
        FixGuard(c, t', temp', Snap());
      }
      BlackenLast(temp', c, t', h');
    }
  
    // ngx_rbtree_min: the leftmost node of the subtree t.
    method Min(node: Node, ghost ctx: Ctx, ghost t: Tree, ghost h: int)
      returns (n: Node, ghost ctx': Ctx, ghost t': Tree, ghost h': int)
      requires t.T? && At(ctx, t, Snap()) == node && ZipBal(ctx, t, h)
      ensures t'.T? && t'.l.Leaf? && n == t'.n && At(ctx', t', Snap()) == n && ZipBal(ctx', t', h')
      ensures Fill(ctx', t') == Fill(ctx, t) && LeftPath(ctx', ctx) && Before(ctx') == Before(ctx)
    {
      n, ctx', t', h' := node, ctx, t, h;
      ZipKids(ctx', t', Snap());
      while n.left != sentinel
        invariant t'.T? && n == t'.n && At(ctx', t', Snap()) == n && ZipBal(ctx', t', h') && Kids(t', Snap())
        invariant Fill(ctx', t') == Fill(ctx, t) && LeftPath(ctx', ctx) && Before(ctx') == Before(ctx)
        decreases t'
      {
        ZipDown(ctx', t', Snap());
        n := n.left;
        ctx', t', h' := L(ctx', t'.c, t'.n, t'.r), t'.l, h' - Rise(t'.c);
        ZipKids(ctx', t', Snap());
      }
    }

    // The lines that clear a node which has left the tree.
    method Discard(node: Node)
      requires node in repr && node != sentinel
      modifies this`repr, this`pos, node`left, node`right, node`parent, node`key
      ensures repr == old(repr) - {node} && pos == old(pos) - {node} && Snap() == Without(node, old(Snap()))
    {
      ghost var h := Snap();
      node.left := null;
      node.right := null;
      node.parent := null;
      node.key := 0;
      repr, pos := repr - {node}, pos - {node};
      assert Snap().m == h.m - {node};
    }

    // Lines 185-209: node, with at most one child temp, is taken out of the tree.
    method Bypass(node: Node, temp: Node)
      requires CanBypass(node, temp, Snap())
      modifies this`root, this`repr, this`pos, repr`left, repr`right, repr`parent, node`key
      ensures Bypassed(node, temp, old(Snap()), Snap()) && repr == old(repr) - {node} && pos == old(pos) - {node}
      ensures NilOk(Snap())
    {
      if node == root {
        root := temp;
      } else {
        if node == node.parent.left {
          node.parent.left := temp;
        } else {
          node.parent.right := temp;
        }
        temp.parent := node.parent;
      }
      Discard(node);
    }

    // Lines 200-218: subst, the successor of node, is cut out.
    method CutSubst(node: Node, subst: Node, temp: Node)
      requires CanSplice(node, subst, temp, Snap())
      modifies repr`left, repr`right, repr`parent
      ensures CutOut(node, subst, temp, old(Snap()), Snap())
    {
      if subst == subst.parent.left {
        subst.parent.left := temp;
      } else {
        subst.parent.right := temp;
      }
      if subst.parent == node {
        temp.parent := subst;
      } else {
        temp.parent := subst.parent;
      }
    }

    // Lines 220-249: subst takes the place of node.
    method PlaceSubst(node: Node, subst: Node)
      requires CanTakePlace(node, subst, Snap())
      modifies this`root, repr`left, repr`right, repr`parent, repr`color
      ensures TookPlace(node, subst, old(Snap()), Snap())
    {
      subst.left := node.left;
      subst.right := node.right;
      subst.parent := node.parent;
      subst.color := node.color;
      if node == root {
        root := subst;
      } else if node == node.parent.left {
        node.parent.left := subst;
      } else {
        node.parent.right := subst;
      }
      if subst.left != sentinel {
        subst.left.parent := subst;
      }
      if subst.right != sentinel {
        subst.right.parent := subst;
      }
    }

    method Splice(node: Node, subst: Node, temp: Node)
      requires CanSplice(node, subst, temp, Snap())
      modifies this`root, this`repr, this`pos, repr`left, repr`right, repr`parent, repr`color, node`key
      ensures Spliced(node, subst, temp, old(Snap()), Snap()) && repr == old(repr) - {node} && pos == old(pos) - {node}
      ensures NilOk(Snap())
    {
      ghost var h := Snap();
      CutSubst(node, subst, temp);
      ghost var h1 := Snap();
      PlaceReady(node, subst, temp, h, h1);
      PlaceSubst(node, subst);
      ghost var h2 := Snap();
      Discard(node);
      TwoSteps(node, subst, temp, h, h1, h2);
    }
  
    // A red node has left the tree: nothing is to be repaired.
    ghost method Done(ctx: Ctx, t: Tree, x: Node, h: int)
      requires At(ctx, t, Snap()) == x && ZipBal(ctx, t, h)
      modifies this`tree
      ensures At(Top, tree, Snap()) == root && RedBlack(tree) && InOrder(tree) == InOrder(Fill(ctx, t))
    {
      ZipTop(ctx, t, x, Snap());
      FillBal(ctx, t, h);
      tree := Fill(ctx, t);
    }

    // A node of the given colour has left the place above t.
    method Repair(red: bool, temp: Node, ghost ctx: Ctx, ghost t: Tree, ghost h: int)
      requires At(ctx, t, Snap()) == temp && (!ctx.Top? ==> temp.parent == ctx.n)
      requires if red then ZipBal(ctx, t, h) else Short(t, h - 1) && CtxBal(ctx, h)
      modifies this`root, this`tree, repr`left, repr`right, repr`parent, repr`color
      ensures At(Top, tree, Snap()) == root && RedBlack(tree) && InOrder(tree) == InOrder(Fill(ctx, t))
    {
      if red {
        Done(ctx, t, temp, h);
      } else {
        FixDelete(temp, ctx, t, h - 1);
      }
    }

    // Deleting a node with at most one child.
    method UnlinkOne(node: Node, temp: Node, ghost ctx: Ctx, ghost t: Tree, ghost ch: Tree)
      requires t.T? && At(ctx, t, Snap()) == node
      requires (t.l.Leaf? && ch == t.r && temp == node.right) || (t.r.Leaf? && ch == t.l && temp == node.left)
      modifies this`root, this`repr, this`pos, repr`left, repr`right, repr`parent, node`key
      ensures At(ctx, ch, Snap()) == temp && (!ctx.Top? ==> temp.parent == ctx.n)
      ensures repr == old(repr) - {node} && pos == old(pos) - {node}
    {
      ghost var s := Snap();
      BypassReady(ctx, t, temp, s);
      Bypass(node, temp);
      ZipBypass(ctx, t, ch, temp, s, Snap());
    }

    method DeleteOne(node: Node, temp: Node, ghost ctx: Ctx, ghost t: Tree, ghost ch: Tree, ghost h: int)
      requires t.T? && At(ctx, t, Snap()) == node && ZipBal(ctx, t, h)
      requires (t.l.Leaf? && ch == t.r && temp == node.right) || (t.r.Leaf? && ch == t.l && temp == node.left)
      modifies this`root, this`tree, this`repr, this`pos, repr`left, repr`right, repr`parent, repr`color, node`key
      ensures At(Top, tree, Snap()) == root && RedBlack(tree)
      ensures InOrder(tree) == (Before(ctx) + InOrder(t.l)) + (InOrder(t.r) + After(ctx))
      ensures repr == old(repr) - {node} && pos == old(pos) - {node}
    {
      Dropped(ctx, t, ch, h);
      DropOrder(ctx, t, ch);
      FixGuard(ctx, t, node, Snap());
      var isRoot, red := node == root, node.color == Red;
      UnlinkOne(node, temp, ctx, t, ch);
      if isRoot {
        BlackenLast(temp, ctx, ch, h - 1);
      } else {
        Repair(red, temp, ctx, ch, h);
      }
    }

    // Deleting a node with two children: its successor takes its place.
    method UnlinkTwo(node: Node, subst: Node, temp: Node, ghost ci: Ctx, ghost ts: Tree)
      requires ts.T? && ts.l.Leaf? && ts.n == subst && At(ci, ts, Snap()) == subst && temp == subst.right
      requires Spine(ci, node) && Base(ci).R? && Base(ci).l.T?
      modifies this`root, this`repr, this`pos, repr`left, repr`right, repr`parent, repr`color, node`key
      ensures At(Rename(ci, subst), ts.r, Snap()) == temp && temp.parent == Rename(ci, subst).n
      ensures repr == old(repr) - {node} && pos == old(pos) - {node}
    {
      ghost var s := Snap();
      ZipKids(ci, ts, s);
      SpliceReady(ci, ts, node, temp, s);
      Splice(node, subst, temp);
      ZipSplice(ci, ts, node, temp, s, Snap());
    }

    // Lines 178-182.
    method OnlyChild(subst: Node) returns (temp: Node)
      requires subst.left != null && subst.right != null
      ensures temp == if subst.left != sentinel then subst.left else subst.right
    {
      if subst.left != sentinel {
        temp := subst.left;
      } else {
        temp := subst.right;
      }
    }

    method DeleteTwo(node: Node, ghost ctx: Ctx, ghost t: Tree, ghost h: int)
      requires t.T? && t.l.T? && t.r.T? && At(ctx, t, Snap()) == node && ZipBal(ctx, t, h)
      modifies this`root, this`tree, this`repr, this`pos, repr`left, repr`right, repr`parent, repr`color, node`key
      ensures At(Top, tree, Snap()) == root && RedBlack(tree)
      ensures InOrder(tree) == (Before(ctx) + InOrder(t.l)) + (InOrder(t.r) + After(ctx))
      ensures repr == old(repr) - {node} && pos == old(pos) - {node}
    {
      ghost var base := R(ctx, t.c, t.l, t.n);
      ZipDown(ctx, t, Snap());
      var subst;
      ghost var ci, ts, hs;
      subst, ci, ts, hs := Min(node.right, base, t.r, h - Rise(t.c));
      ZipKids(ci, ts, Snap());
      LeftPathSpine(ci, base);
      Moved(ci, ts, hs);
      SplitOrder(ctx, t, ci, ts);
      var temp := OnlyChild(subst);
      var red := subst.color == Red;
      UnlinkTwo(node, subst, temp, ci, ts);
      Repair(red, temp, Rename(ci, subst), ts.r, hs);
    }
  
    // The memory part of ngx_rbtree_delete.
    method DeleteNode(node: Node, ghost ctx: Ctx, ghost t: Tree, ghost h: int)
      requires t.T? && At(ctx, t, Snap()) == node && ZipBal(ctx, t, h)
      modifies this`root, this`tree, this`repr, this`pos, repr`left, repr`right, repr`parent, repr`color, node`key
      ensures At(Top, tree, Snap()) == root && RedBlack(tree)
      ensures InOrder(tree) == (Before(ctx) + InOrder(t.l)) + (InOrder(t.r) + After(ctx))
      ensures repr == old(repr) - {node} && pos == old(pos) - {node}
    {
      ZipKids(ctx, t, Snap());
      if node.left == sentinel {
        DeleteOne(node, node.right, ctx, t, t.r, h);
      } else if node.right == sentinel {
        DeleteOne(node, node.left, ctx, t, t.l, h);
      } else {
        DeleteTwo(node, ctx, t, h);
      }
    }

    method DeleteLocated(node: Node, ghost ctx: Ctx, ghost t: Tree, ghost h: int)
      requires t.T? && At(ctx, t, Snap()) == node && ZipBal(ctx, t, h)
      requires Removable(node, (Before(ctx) + InOrder(t.l)) + (InOrder(t.r) + After(ctx)))
      modifies this`root, this`tree, this`repr, this`pos, repr`left, repr`right, repr`parent, repr`color, node`key
      ensures Valid() && Contents() == (Before(ctx) + InOrder(t.l)) + (InOrder(t.r) + After(ctx))
      ensures repr == old(repr) - {node}
    {
      DeleteNode(node, ctx, t, h);
      assert Differing(keys) <= old(Differing(keys));
    }

    // The bookkeeping that remains right when node leaves the nodes s behind.
    ghost predicate Removable(node: Node, s: seq<Node>)
      reads this, repr
    {
      && node != sentinel && repr == pos.Keys + {sentinel} && Elems(s) == pos.Keys - {node}
      && Stamped(pos, stamp, clock) && KeysOk(keys) && InFifoOrder(order, keys, stamp, s)
    }

    // The place of node, and the nodes without it.
    lemma LocateNode(node: Node) returns (ctx: Ctx, t: Tree, h: int)
      requires Valid() && node in Contents()
      ensures t.T? && At(ctx, t, Snap()) == node && ZipBal(ctx, t, h)
      ensures var a, b := Before(ctx) + InOrder(t.l), InOrder(t.r) + After(ctx);
        Contents() == a + [node] + b && Removable(node, a + b)
    {
      ctx, t, h := Locate(Top, tree, root, BlackHeight(tree), node, Snap());
      FocusOrder(ctx, t);
      FifoRemove(order, keys, stamp, Before(ctx) + InOrder(t.l), node, InOrder(t.r) + After(ctx));
      ElemsIn(Contents(), node);
    }

    // ngx_rbtree_delete: the tree stays a red-black tree in order, without exactly that node.
    method Delete(node: Node) returns (ghost a: seq<Node>, ghost b: seq<Node>)
      requires Valid() && node in Contents()
      modifies this`root, this`tree, this`repr, this`pos, repr`left, repr`right, repr`parent, repr`color, node`key
      ensures Valid() && repr == old(repr) - {node}
      ensures old(Contents()) == a + [node] + b && Contents() == a + b
    {
      ghost var ctx, t, h := LocateNode(node);
      a, b := Before(ctx) + InOrder(t.l), InOrder(t.r) + After(ctx);
      DeleteLocated(node, ctx, t, h);
    }

    // ngx_rbtree_min on the root: the node with the least key, the earliest deadline for timers.
    method Earliest(ghost base: Key) returns (n: Node)
      requires Valid() && Contents() != [] && AllFit(order, base, keys, Contents())
      ensures n == Contents()[0] && n in keys
      ensures forall m :: m in Contents() ==> m in keys && Rank(order, base, keys[n]) <= Rank(order, base, keys[m])
    {
      ghost var ctx, t, h;
      n, ctx, t, h := Min(root, Top, tree, BlackHeight(tree));
      FillOrder(ctx, t);
      FirstIsLeast(order, keys, stamp, Contents(), base);
    }
  }
}
