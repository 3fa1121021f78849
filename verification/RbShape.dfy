/** The shape of a red-black tree of ngx_rbtree nodes, over snapshots of the node fields.

    A tree in memory is described by a tree value `Tree` and a path of frames `Ctx` from a
    focused subtree up to the root.  `Zip` says that the memory is exactly that tree.  Each
    node has a position, a real number that grows along the in-order walk, and every subtree
    owns an open interval of positions: nodes in disjoint intervals are different nodes. */
module RbShape {
  datatype Color = Red | Black

  const KEY_RANGE := 0x1_0000_0000_0000_0000

  // ngx_rbtree_key_t, a 64-bit unsigned integer
  type Key = k: int | 0 <= k < KEY_RANGE

  class Node {
    var key: Key
    var left: Node?
    var right: Node?
    var parent: Node?
    var color: Color

    constructor (k: Key)
      ensures key == k && color == Black
    {
      key, left, right, parent, color := k, null, null, null, Black;
    }
  }

  // The link fields and the colour of one node.
  datatype Cell = Cell(left: Node?, right: Node?, parent: Node?, color: Color)

  type Positions = map<Node, real>

  // A snapshot: the tree's root and sentinel, the node fields and the node positions.
  datatype Heap = H(root: Node, nil: Node, m: map<Node, Cell>, q: Positions)

  datatype Tree = Leaf | T(c: Color, l: Tree, n: Node, r: Tree)

  // The frames from a hole up to the root: the hole is the left or the right child of n.
  datatype Ctx =
    | Top
    | L(up: Ctx, c: Color, n: Node, r: Tree)
    | R(up: Ctx, c: Color, l: Tree, n: Node)

  function Fill(ctx: Ctx, t: Tree): Tree {
    match ctx
    case Top => t
    case L(up, c, n, r) => Fill(up, T(c, t, n, r))
    case R(up, c, l, n) => Fill(up, T(c, l, n, t))
  }

  function InOrder(t: Tree): seq<Node> {
    match t
    case Leaf => []
    case T(_, l, n, r) => InOrder(l) + [n] + InOrder(r)
  }

  // The nodes before and after the hole.
  function Before(ctx: Ctx): seq<Node> {
    match ctx
    case Top => []
    case L(up, _, _, _) => Before(up)
    case R(up, _, l, n) => Before(up) + InOrder(l) + [n]
  }

  function After(ctx: Ctx): seq<Node> {
    match ctx
    case Top => []
    case L(up, _, n, r) => [n] + InOrder(r) + After(up)
    case R(up, _, _, _) => After(up)
  }

  function Depth(ctx: Ctx): nat {
    if ctx.Top? then 0 else 1 + Depth(ctx.up)
  }

  lemma Regroup(a: seq<Node>, b: seq<Node>, c: seq<Node>, d: seq<Node>, e: seq<Node>)
    ensures a + (b + c + d) + e == a + b + (c + d + e)
    ensures a + (b + c + d) + e == (a + b + c) + d + e
  {}

  lemma {:induction false} FillOrder(ctx: Ctx, t: Tree)
    ensures InOrder(Fill(ctx, t)) == Before(ctx) + InOrder(t) + After(ctx)
  {
    match ctx
    case Top =>
    case L(up, c, n, r) =>
      FillOrder(up, T(c, t, n, r));
      Regroup(Before(up), InOrder(t), [n], InOrder(r), After(up));
    case R(up, c, l, n) =>
      FillOrder(up, T(c, l, n, t));
      Regroup(Before(up), InOrder(l), [n], InOrder(t), After(up));
  }

  // ---------- what a tree and a path say about memory ----------

  // The root of t, if t has one, has parent p.
  ghost predicate Under(t: Tree, p: Node, h: Heap) {
    t.T? ==> t.n in h.m && h.m[t.n].parent == p
  }

  // x points to a tree with shape t whose nodes have positions between lo and hi.
  ghost predicate Rep(t: Tree, x: Node?, lo: real, hi: real, h: Heap) {
    match t
    case Leaf => x == h.nil
    case T(c, l, n, r) =>
      && x == n && n in h.m && h.m[n].color == c
      && n in h.q && lo < h.q[n] < hi
      && Under(l, n, h) && Under(r, n, h)
      && Rep(l, h.m[n].left, lo, h.q[n], h)
      && Rep(r, h.m[n].right, h.q[n], hi, h)
  }

  // The parent link of a node below the frames ctx; the root's parent link is not looked at.
  ghost predicate Hangs(n: Node, ctx: Ctx, h: Heap) {
    n in h.m && (!ctx.Top? ==> h.m[n].parent == ctx.n)
  }

  // The interval of the hole.
  ghost function Lo(ctx: Ctx, q: Positions): real {
    match ctx
    case Top => 0.0
    case L(up, _, _, _) => Lo(up, q)
    case R(_, _, _, n) => if n in q then q[n] else 0.0
  }

  ghost function Hi(ctx: Ctx, q: Positions): real {
    match ctx
    case Top => 1.0
    case L(_, _, n, _) => if n in q then q[n] else 1.0
    case R(up, _, _, _) => Hi(up, q)
  }

  // Following the frames ctx from a hole occupied by x leads to the root.
  ghost predicate CtxRep(ctx: Ctx, x: Node, h: Heap) {
    match ctx
    case Top => h.root == x
    case L(up, c, n, r) =>
      && n in h.m && h.m[n].color == c && h.m[n].left == x && Hangs(n, up, h)
      && n in h.q && Lo(up, h.q) < h.q[n] < Hi(up, h.q)
      && Rep(r, h.m[n].right, h.q[n], Hi(up, h.q), h) && Under(r, n, h)
      && CtxRep(up, n, h)
    case R(up, c, l, n) =>
      && n in h.m && h.m[n].color == c && h.m[n].right == x && Hangs(n, up, h)
      && n in h.q && Lo(up, h.q) < h.q[n] < Hi(up, h.q)
      && Rep(l, h.m[n].left, Lo(up, h.q), h.q[n], h) && Under(l, n, h)
      && CtxRep(up, n, h)
  }

  // The sentinel is black and is not a tree node.
  ghost predicate NilOk(h: Heap) {
    h.nil in h.m && h.nil !in h.q && h.m[h.nil].color.Black?
  }

  // Memory is the tree Fill(ctx, t), with x pointing to its subtree t.
  ghost predicate Zip(ctx: Ctx, t: Tree, x: Node, h: Heap) {
    && NilOk(h)
    && CtxRep(ctx, x, h)
    && Rep(t, x, Lo(ctx, h.q), Hi(ctx, h.q), h)
    && (t.T? ==> Hangs(t.n, ctx, h))
  }

  // The node at which memory holds the subtree t of Fill(ctx, t), or null if memory is not that tree.
  ghost function At(ctx: Ctx, t: Tree, h: Heap): Node? {
    var x := if t.T? then t.n else h.nil;
    if Zip(ctx, t, x, h) then x else null
  }

  // ---------- moving the focus ----------

  lemma ZipUp(ctx: Ctx, t: Tree, x: Node, h: Heap)
    requires At(ctx, t, h) == x && !ctx.Top?
    requires t.T? ==> h.m[t.n].parent == ctx.n
    ensures ctx.L? ==> At(ctx.up, T(ctx.c, t, ctx.n, ctx.r), h) == ctx.n
    ensures ctx.R? ==> At(ctx.up, T(ctx.c, ctx.l, ctx.n, t), h) == ctx.n
  {}

  lemma ZipDown(ctx: Ctx, t: Tree, h: Heap)
    requires t.T? && At(ctx, t, h) == t.n
    ensures h.m[t.n].left != null && At(L(ctx, t.c, t.n, t.r), t.l, h) == h.m[t.n].left
    ensures h.m[t.n].right != null && At(R(ctx, t.c, t.l, t.n), t.r, h) == h.m[t.n].right
  {
    assert Rep(t.l, h.m[t.n].left, Lo(ctx, h.q), h.q[t.n], h);
    assert Rep(t.r, h.m[t.n].right, h.q[t.n], Hi(ctx, h.q), h);
  }

  // Which child of its parent the focused node is.
  lemma ZipSide(ctx: Ctx, t: Tree, h: Heap)
    requires t.T? && At(ctx, t, h) == t.n && !ctx.Top?
    ensures t.n == h.m[ctx.n].left <==> ctx.L?
    ensures t.n == h.m[ctx.n].right <==> ctx.R?
  {}

  // x points to the root of t, if there is one, whose parent is p.
  ghost predicate Points(t: Tree, x: Node?, p: Node, h: Heap) {
    x != null && x in h.m && if t.Leaf? then x == h.nil else
        x == t.n != h.nil && h.m[x].parent == p && h.m[x].color == t.c
  }

  // The links around the root of t.
  ghost predicate Kids(t: Tree, h: Heap) {
    t.T? ==>
      && t.n in h.m && (h.m[t.n].left != h.m[t.n].right || (t.l.Leaf? && t.r.Leaf?))
      && Points(t.l, h.m[t.n].left, t.n, h) && Points(t.r, h.m[t.n].right, t.n, h)
  }

  lemma RepKids(t: Tree, x: Node?, lo: real, hi: real, h: Heap)
    requires Rep(t, x, lo, hi, h) && NilOk(h)
    ensures Kids(t, h)
  {
    if t.T? {
      assert Rep(t.l, h.m[t.n].left, lo, h.q[t.n], h);
      assert Rep(t.r, h.m[t.n].right, h.q[t.n], hi, h);
    }
  }

  // The links around the focus and its children.
  lemma ZipKids(ctx: Ctx, t: Tree, h: Heap)
    requires t.T? && At(ctx, t, h) == t.n
    ensures Kids(t, h) && Kids(t.l, h) && Kids(t.r, h)
  {
    RepKids(t, t.n, Lo(ctx, h.q), Hi(ctx, h.q), h);
    RepKids(t.l, h.m[t.n].left, Lo(ctx, h.q), h.q[t.n], h);
    RepKids(t.r, h.m[t.n].right, h.q[t.n], Hi(ctx, h.q), h);
  }

  // Climbing all the way to the root.
  lemma {:induction false} ZipTop(ctx: Ctx, t: Tree, x: Node, h: Heap)
    requires At(ctx, t, h) == x
    ensures At(Top, Fill(ctx, t), h) == h.root
  {
    match ctx
    case Top =>
    case L(up, c, n, r) => ZipUp(ctx, t, x, h); ZipTop(up, T(c, t, n, r), n, h);
    case R(up, c, l, n) => ZipUp(ctx, t, x, h); ZipTop(up, T(c, l, n, t), n, h);
  }

  // The root is not below a proper path.
  lemma {:induction false} RootOutside(ctx: Ctx, x: Node, h: Heap)
    requires CtxRep(ctx, x, h) && !ctx.Top?
    ensures h.root in h.q && (h.q[h.root] <= Lo(ctx, h.q) || Hi(ctx, h.q) <= h.q[h.root])
  {
    if !ctx.up.Top? { RootOutside(ctx.up, ctx.n, h); }
  }

  // What the loop guards read: the focus is the root, and otherwise its parent's colour.
  ghost predicate Guard(ctx: Ctx, t: Tree, h: Heap) {
    && t.T? && t.n in h.m && (t.n == h.root <==> ctx.Top?)
    && (!ctx.Top? ==> h.m[t.n].parent == ctx.n && ctx.n in h.m && h.m[ctx.n].color == ctx.c)
  }

  lemma ZipGuard(ctx: Ctx, t: Tree, h: Heap)
    requires t.T? && At(ctx, t, h) == t.n
    ensures Guard(ctx, t, h)
  {
    if !ctx.Top? { RootOutside(ctx, t.n, h); }
  }

  // What the loop guard of the deletion fixup reads; the focus may be the sentinel.
  lemma FixGuard(ctx: Ctx, t: Tree, x: Node, h: Heap)
    requires At(ctx, t, h) == x
    ensures x in h.m && h.root in h.m && (x == h.root <==> ctx.Top?)
    ensures h.m[x].color == if t.T? then t.c else Black
    ensures t.T? && !ctx.Top? ==> h.m[x].parent == ctx.n
  {
    if !ctx.Top? {
      RootOutside(ctx, x, h);
      RootKnown(ctx, x, h);
    }
  }

  lemma {:induction false} RootKnown(ctx: Ctx, x: Node, h: Heap)
    requires CtxRep(ctx, x, h) && !ctx.Top?
    ensures h.root in h.m
  {
    if !ctx.up.Top? { RootKnown(ctx.up, ctx.n, h); }
  }

  // ---------- memory changes outside an interval ----------

  ghost predicate Same(n: Node, h: Heap, h': Heap) {
    n in h.m && n in h.q ==> n in h'.m && h'.m[n] == h.m[n] && n in h'.q && h'.q[n] == h.q[n]
  }

  lemma {:induction false} RepFrame(t: Tree, x: Node?, lo: real, hi: real, h: Heap, h': Heap)
    requires Rep(t, x, lo, hi, h) && h'.nil == h.nil
    requires forall n :: n in h.q && lo < h.q[n] < hi ==> Same(n, h, h')
    ensures Rep(t, x, lo, hi, h')
  {
    if t.T? {
      RepFrame(t.l, h.m[x].left, lo, h.q[x], h, h');
      RepFrame(t.r, h.m[x].right, h.q[x], hi, h, h');
    }
  }

  ghost predicate OutsideSame(ctx: Ctx, h: Heap, h': Heap) {
    && h'.nil == h.nil
    && forall n :: n in h.q && (h.q[n] <= Lo(ctx, h.q) || Hi(ctx, h.q) <= h.q[n]) ==> Same(n, h, h')
  }

  lemma {:induction false} CtxFrame(ctx: Ctx, x: Node, h: Heap, h': Heap)
    requires CtxRep(ctx, x, h) && h'.root == h.root && OutsideSame(ctx, h, h')
    ensures CtxRep(ctx, x, h') && Lo(ctx, h'.q) == Lo(ctx, h.q) && Hi(ctx, h'.q) == Hi(ctx, h.q)
  {
    if ctx.L? {
      RepFrame(ctx.r, h.m[ctx.n].right, h.q[ctx.n], Hi(ctx.up, h.q), h, h');
      CtxFrame(ctx.up, ctx.n, h, h');
    } else if ctx.R? {
      RepFrame(ctx.l, h.m[ctx.n].left, Lo(ctx.up, h.q), h.q[ctx.n], h, h');
      CtxFrame(ctx.up, ctx.n, h, h');
    }
  }

  // More nodes in memory do not change the tree.
  lemma ZipExtend(ctx: Ctx, t: Tree, x: Node, h: Heap, h': Heap)
    requires At(ctx, t, h) == x && h'.root == h.root && h'.nil == h.nil && h'.q == h.q
    requires forall n :: n in h.m ==> n in h'.m && h'.m[n] == h.m[n]
    ensures At(ctx, t, h') == x
  {
    CtxFrame(ctx, x, h, h');
    RepFrame(t, x, Lo(ctx, h.q), Hi(ctx, h.q), h, h');
  }

  // The occupant of the hole changes from x to y: the root, or one link of the lowest frame.
  ghost predicate Relinked(ctx: Ctx, y: Node, h: Heap, h': Heap) {
    && h'.nil == h.nil
    && (ctx.Top? ==> h'.root == y)
    && (!ctx.Top? ==>
        && h'.root == h.root && ctx.n in h.m && ctx.n in h'.m && ctx.n in h.q && ctx.n in h'.q
            && h'.q[ctx.n] == h.q[ctx.n]
        && h'.m[ctx.n] == (if ctx.L? then h.m[ctx.n].(left := y) else h.m[ctx.n].(right := y))
        && forall n :: n in h.q && n != ctx.n && (h.q[n] <= Lo(ctx, h.q) || Hi(ctx, h.q) <= h.q[n]) ==> Same(n, h, h'))
  }

  lemma CtxRelink(ctx: Ctx, x: Node, y: Node, h: Heap, h': Heap)
    requires CtxRep(ctx, x, h) && Relinked(ctx, y, h, h')
    ensures CtxRep(ctx, y, h') && Lo(ctx, h'.q) == Lo(ctx, h.q) && Hi(ctx, h'.q) == Hi(ctx, h.q)
  {
    if ctx.L? {
      RepFrame(ctx.r, h.m[ctx.n].right, h.q[ctx.n], Hi(ctx.up, h.q), h, h');
      CtxFrame(ctx.up, ctx.n, h, h');
    } else if ctx.R? {
      RepFrame(ctx.l, h.m[ctx.n].left, Lo(ctx.up, h.q), h.q[ctx.n], h, h');
      CtxFrame(ctx.up, ctx.n, h, h');
    }
  }

  // ---------- recolouring ----------

  function Paint(t: Tree, c: Color): Tree
    requires t.T?
  {
    t.(c := c)
  }

  lemma RepPaint(t: Tree, c: Color, lo: real, hi: real, h: Heap, h': Heap)
    requires t.T? && Rep(t, t.n, lo, hi, h)
    requires h' == h.(m := h.m[t.n := h.m[t.n].(color := c)])
    ensures Rep(Paint(t, c), t.n, lo, hi, h')
  {
    assert Rep(t.l, h.m[t.n].left, lo, h.q[t.n], h);
    assert Rep(t.r, h.m[t.n].right, h.q[t.n], hi, h);
    RepFrame(t.l, h.m[t.n].left, lo, h.q[t.n], h, h');
    RepFrame(t.r, h.m[t.n].right, h.q[t.n], hi, h, h');
  }

  lemma ZipPaint(ctx: Ctx, t: Tree, c: Color, h: Heap, h': Heap)
    requires t.T? && At(ctx, t, h) == t.n
    requires h' == h.(m := h.m[t.n := h.m[t.n].(color := c)])
    ensures At(ctx, Paint(t, c), h') == t.n
  {
    CtxFrame(ctx, t.n, h, h');
    RepPaint(t, c, Lo(ctx, h.q), Hi(ctx, h.q), h, h');
  }

  // ---------- rotations ----------

  function RotL(t: Tree): Tree
    requires t.T? && t.r.T?
  {
    T(t.r.c, T(t.c, t.l, t.n, t.r.l), t.r.n, t.r.r)
  }

  function RotR(t: Tree): Tree
    requires t.T? && t.l.T?
  {
    T(t.l.c, t.l.l, t.l.n, T(t.c, t.l.r, t.n, t.r))
  }

  // A tree does not look at the parent link of its own root.
  lemma RepReroot(t: Tree, x: Node?, lo: real, hi: real, h: Heap, h': Heap)
    requires Rep(t, x, lo, hi, h) && h'.nil == h.nil
    requires forall n :: n in h.q && lo < h.q[n] < hi && n != x ==> Same(n, h, h')
    requires t.T? ==> x in h'.m && h'.m[x] == h.m[x].(parent := h'.m[x].parent) && x in h'.q && h'.q[x] == h.q[x]
    ensures Rep(t, x, lo, hi, h')
  {
    if t.T? {
      assert Rep(t.l, h.m[x].left, lo, h.q[x], h);
      assert Rep(t.r, h.m[x].right, h.q[x], hi, h);
      RepFrame(t.l, h.m[x].left, lo, h.q[x], h, h');
      RepFrame(t.r, h.m[x].right, h.q[x], hi, h, h');
    }
  }

  // Replacing x by y as a child of x's parent, or as the root.
  ghost predicate Replaced(x: Node, y: Node, h: Heap, h': Heap)
    requires x in h.m
  {
    var p := h.m[x].parent;
    if x == h.root then h'.root == y
    else
      && h'.root == h.root && p != null && p in h.m && p in h'.m
      && h'.m[p] == if x == h.m[p].left then h.m[p].(left := y) else h.m[p].(right := y)
  }

  // A left rotation at x as the code does it: the right child y takes the place of x.
  ghost predicate TurnedLeft(x: Node, h: Heap, h': Heap)
    requires x in h.m
  {
    var y, p := h.m[x].right, h.m[x].parent;
    && y != null && y in h.m && h'.nil == h.nil && h'.q == h.q && h'.m.Keys == h.m.Keys
    && Replaced(x, y, h, h')
    && h'.m[x] == h.m[x].(right := h.m[y].left, parent := y)
    && h'.m[y] == h.m[y].(left := x, parent := p)
    && (var b := h.m[y].left; b != null && b in h.m && (b != h.nil ==> h'.m[b] == h.m[b].(parent := x)))
    && (forall n :: n in h.m && n != x && n != y && (n == h.nil || n != h.m[y].left) && (x == h.root || n != p) ==>
        h'.m[n] == h.m[n])
  }

  // What the rotation relies on: the nodes involved are different.
  ghost predicate CanTurnLeft(x: Node, h: Heap) {
    && x in h.m && h.m[x].right != null && h.m[x].right in h.m
    && var y, p := h.m[x].right, h.m[x].parent;
    var b := h.m[y].left;
    && x != y && x != h.nil && y != h.nil && b != null && b in h.m && b != x && b != y
    && (x != h.root ==>
        p != null && p in h.m && p != x && p != y && p != b && p != h.nil && (h.m[p].left == x) != (h.m[p].right == x))
  }

  lemma TurnLeftReady(ctx: Ctx, t: Tree, h: Heap)
    requires t.T? && t.r.T? && At(ctx, t, h) == t.n
    ensures CanTurnLeft(t.n, h)
    ensures t.n == h.root <==> ctx.Top?
  {
    assert Rep(t.r, h.m[t.n].right, h.q[t.n], Hi(ctx, h.q), h);
    assert Rep(t.r.l, h.m[t.r.n].left, h.q[t.n], h.q[t.r.n], h);
    if !ctx.Top? { RootOutside(ctx, t.n, h); }
  }

  lemma TurnLeftRep(t: Tree, lo: real, hi: real, h: Heap, h': Heap)
    requires t.T? && t.r.T? && NilOk(h) && Rep(t, t.n, lo, hi, h) && TurnedLeft(t.n, h, h')
    requires t.n != h.root ==> h.m[t.n].parent in h.q && !(lo < h.q[h.m[t.n].parent] < hi)
    ensures Rep(RotL(t), t.r.n, lo, hi, h')
  {
    var x, y, a, b, d := t.n, t.r.n, t.l, t.r.l, t.r.r;
    assert Rep(t.r, h.m[x].right, h.q[x], hi, h);
    assert Rep(b, h.m[y].left, h.q[x], h.q[y], h);
    forall n | n in h.q && lo < h.q[n] < hi && n != x && n != y && n != h.m[y].left
      ensures Same(n, h, h') {}
    RepFrame(a, h.m[x].left, lo, h.q[x], h, h');
    RepReroot(b, h.m[y].left, h.q[x], h.q[y], h, h');
    RepFrame(d, h.m[y].right, h.q[y], hi, h, h');
  }

  lemma TurnLeft(ctx: Ctx, t: Tree, h: Heap, h': Heap)
    requires t.T? && t.r.T? && At(ctx, t, h) == t.n && TurnedLeft(t.n, h, h')
    ensures At(ctx, RotL(t), h') == t.r.n
  {
    TurnLeftReady(ctx, t, h);
    assert Rep(t.r, h.m[t.n].right, h.q[t.n], Hi(ctx, h.q), h);
    TurnLeftRep(t, Lo(ctx, h.q), Hi(ctx, h.q), h, h');
    assert Rep(t.r.l, h.m[t.r.n].left, h.q[t.n], h.q[t.r.n], h);
    CtxRelink(ctx, t.n, t.r.n, h, h');
  }

  // A right rotation at x as the code does it: the left child y takes the place of x.
  ghost predicate TurnedRight(x: Node, h: Heap, h': Heap)
    requires x in h.m
  {
    var y, p := h.m[x].left, h.m[x].parent;
    && y != null && y in h.m && h'.nil == h.nil && h'.q == h.q && h'.m.Keys == h.m.Keys
    && Replaced(x, y, h, h')
    && h'.m[x] == h.m[x].(left := h.m[y].right, parent := y)
    && h'.m[y] == h.m[y].(right := x, parent := p)
    && (var b := h.m[y].right; b != null && b in h.m && (b != h.nil ==> h'.m[b] == h.m[b].(parent := x)))
    && (forall n :: n in h.m && n != x && n != y && (n == h.nil || n != h.m[y].right) && (x == h.root || n != p) ==>
        h'.m[n] == h.m[n])
  }

  // What the rotation relies on: the nodes involved are different.
  ghost predicate CanTurnRight(x: Node, h: Heap) {
    && x in h.m && h.m[x].left != null && h.m[x].left in h.m
    && var y, p := h.m[x].left, h.m[x].parent;
    var b := h.m[y].right;
    && x != y && x != h.nil && y != h.nil && b != null && b in h.m && b != x && b != y
    && (x != h.root ==>
        p != null && p in h.m && p != x && p != y && p != b && p != h.nil && (h.m[p].left == x) != (h.m[p].right == x))
  }

  lemma TurnRightReady(ctx: Ctx, t: Tree, h: Heap)
    requires t.T? && t.l.T? && At(ctx, t, h) == t.n
    ensures CanTurnRight(t.n, h)
    ensures t.n == h.root <==> ctx.Top?
  {
    assert Rep(t.l, h.m[t.n].left, Lo(ctx, h.q), h.q[t.n], h);
    assert Rep(t.l.r, h.m[t.l.n].right, h.q[t.l.n], h.q[t.n], h);
    if !ctx.Top? { RootOutside(ctx, t.n, h); }
  }

  lemma TurnRightRep(t: Tree, lo: real, hi: real, h: Heap, h': Heap)
    requires t.T? && t.l.T? && NilOk(h) && Rep(t, t.n, lo, hi, h) && TurnedRight(t.n, h, h')
    requires t.n != h.root ==> h.m[t.n].parent in h.q && !(lo < h.q[h.m[t.n].parent] < hi)
    ensures Rep(RotR(t), t.l.n, lo, hi, h')
  {
    var x, y, a, b, d := t.n, t.l.n, t.l.l, t.l.r, t.r;
    assert Rep(t.l, h.m[x].left, lo, h.q[x], h);
    assert Rep(b, h.m[y].right, h.q[y], h.q[x], h);
    forall n | n in h.q && lo < h.q[n] < hi && n != x && n != y && n != h.m[y].right
      ensures Same(n, h, h') {}
    RepFrame(a, h.m[y].left, lo, h.q[y], h, h');
    RepReroot(b, h.m[y].right, h.q[y], h.q[x], h, h');
    RepFrame(d, h.m[x].right, h.q[x], hi, h, h');
  }

  lemma TurnRight(ctx: Ctx, t: Tree, h: Heap, h': Heap)
    requires t.T? && t.l.T? && At(ctx, t, h) == t.n && TurnedRight(t.n, h, h')
    ensures At(ctx, RotR(t), h') == t.l.n
  {
    TurnRightReady(ctx, t, h);
    assert Rep(t.l, h.m[t.n].left, Lo(ctx, h.q), h.q[t.n], h);
    TurnRightRep(t, Lo(ctx, h.q), Hi(ctx, h.q), h, h');
    assert Rep(t.l.r, h.m[t.l.n].right, h.q[t.l.n], h.q[t.n], h);
    CtxRelink(ctx, t.n, t.l.n, h, h');
  }

  // ---------- linking a new leaf ----------

  lemma {:induction false} RepWiden(t: Tree, x: Node?, lo: real, hi: real, lo': real, hi': real, h: Heap)
    requires Rep(t, x, lo, hi, h) && lo' <= lo && hi <= hi'
    ensures Rep(t, x, lo', hi', h)
  {
    if t.T? {
      RepWiden(t.l, h.m[x].left, lo, h.q[x], lo', h.q[x], h);
      RepWiden(t.r, h.m[x].right, h.q[x], hi, h.q[x], hi', h);
    }
  }

  // There is room in every hole.
  lemma {:induction false} HoleOpen(ctx: Ctx, x: Node, h: Heap)
    requires CtxRep(ctx, x, h)
    ensures Lo(ctx, h.q) < Hi(ctx, h.q)
  {
    if !ctx.Top? { HoleOpen(ctx.up, ctx.n, h); }
  }

  lemma ZipLink(ctx: Ctx, z: Node, h: Heap, h': Heap)
    requires !ctx.Top? && At(ctx, Leaf, h) == h.nil && z !in h.q && z != h.nil
    requires h'.root == h.root && h'.nil == h.nil && h'.m.Keys == h.m.Keys + {z}
    requires h'.q == h.q[z := (Lo(ctx, h.q) + Hi(ctx, h.q)) / 2.0]
    requires h'.m[z] == Cell(h.nil, h.nil, ctx.n, Red)
    requires h'.m[ctx.n] == if ctx.L? then h.m[ctx.n].(left := z) else h.m[ctx.n].(right := z)
    requires forall n :: n in h.m && n != z && n != ctx.n ==> h'.m[n] == h.m[n]
    ensures At(ctx, T(Red, Leaf, z, Leaf), h') == z
  {
    HoleOpen(ctx, h.nil, h);
    CtxRelink(ctx, h.nil, z, h, h');
    assert Rep(Leaf, h.nil, Lo(ctx, h.q), h'.q[z], h') && Rep(Leaf, h.nil, h'.q[z], Hi(ctx, h.q), h');
  }

  // A tree with one node.
  lemma ZipSingle(h: Heap)
    requires NilOk(h) && h.root in h.m && h.root in h.q && 0.0 < h.q[h.root] < 1.0
    requires h.m[h.root].left == h.nil && h.m[h.root].right == h.nil && h.m[h.root].color.Black?
    ensures At(Top, T(Black, Leaf, h.root, Leaf), h) == h.root
  {
    assert Rep(Leaf, h.nil, 0.0, h.q[h.root], h) && Rep(Leaf, h.nil, h.q[h.root], 1.0, h);
  }

  // ---------- unlinking a node ----------

  // z has the one subtree t at temp, which takes its place.
  ghost predicate Bypassed(z: Node, temp: Node, h: Heap, h': Heap)
    requires z in h.m && temp in h.m && z != temp
  {
    && h'.nil == h.nil && (forall n :: n in h.q && n != z ==> n in h'.q && h'.q[n] == h.q[n])
    && Replaced(z, temp, h, h')
    && temp in h'.m && h'.m[temp] == (if z == h.root then h.m[temp] else h.m[temp].(parent := h.m[z].parent))
    && (forall n :: n in h.m && n != z && n != temp && (z == h.root || n != h.m[z].parent) ==>
        n in h'.m && h'.m[n] == h.m[n])
  }

  ghost predicate CanBypass(z: Node, temp: Node, h: Heap) {
    && NilOk(h) && z in h.m && temp in h.m && z != temp && z != h.nil
    && (z != h.root ==> var p := h.m[z].parent;
      && p != null && p in h.m && p != z && p != temp && p != h.nil && (h.m[p].left == z) != (h.m[p].right == z))
  }

  lemma BypassReady(ctx: Ctx, t: Tree, temp: Node?, h: Heap)
    requires t.T? && At(ctx, t, h) == t.n
    requires (t.l.Leaf? && temp == h.m[t.n].right) || (t.r.Leaf? && temp == h.m[t.n].left)
    ensures temp != null && CanBypass(t.n, temp, h) && (t.n == h.root <==> ctx.Top?)
  {
    assert Rep(t.l, h.m[t.n].left, Lo(ctx, h.q), h.q[t.n], h);
    assert Rep(t.r, h.m[t.n].right, h.q[t.n], Hi(ctx, h.q), h);
    if !ctx.Top? {
      RootOutside(ctx, t.n, h);
      ZipSide(ctx, t, h);
    }
  }

  lemma ZipBypass(ctx: Ctx, t: Tree, ch: Tree, temp: Node, h: Heap, h': Heap)
    requires t.T? && At(ctx, t, h) == t.n && NilOk(h') && temp in h.m && temp != t.n
    requires (t.l.Leaf? && ch == t.r && temp == h.m[t.n].right) || (t.r.Leaf? && ch == t.l && temp == h.m[t.n].left)
    requires Bypassed(t.n, temp, h, h')
    ensures At(ctx, ch, h') == temp
    ensures !ctx.Top? ==> temp in h'.m && h'.m[temp].parent == ctx.n
  {
    var z, lo, hi := t.n, Lo(ctx, h.q), Hi(ctx, h.q);
    var left := t.l.Leaf? && ch == t.r && temp == h.m[z].right;
    var lo', hi' := if left then h.q[z] else lo, if left then hi else h.q[z];
    assert Rep(ch, temp, lo', hi', h);
    if !ctx.Top? {
      RootOutside(ctx, z, h);
      forall n | n in h.q && n != ctx.n && (h.q[n] <= lo || hi <= h.q[n])
        ensures Same(n, h, h')
      {
        assert n != temp && n != z;
      }
    }
    CtxRelink(ctx, z, temp, h, h');
    RepReroot(ch, temp, lo', hi', h, h');
    RepWiden(ch, temp, lo', hi', lo, hi, h');
  }

  // ---------- unlinking a node with two children ----------

  // ctx is the leftmost path of the right subtree of z.
  ghost predicate Spine(ctx: Ctx, z: Node) {
    match ctx
    case Top => false
    case L(up, _, _, _) => Spine(up, z)
    case R(_, _, _, n) => n == z
  }

  // ctx leads down to the left from the hole of base.
  ghost predicate LeftPath(ctx: Ctx, base: Ctx) {
    ctx == base || (ctx.L? && LeftPath(ctx.up, base))
  }

  lemma {:induction false} LeftPathSpine(ctx: Ctx, base: Ctx)
    requires LeftPath(ctx, base) && base.R?
    ensures Spine(ctx, base.n) && Base(ctx) == base
  {
    if ctx != base { LeftPathSpine(ctx.up, base); }
  }

  // The node z at the end of the spine is replaced by s.
  function Rename(ctx: Ctx, s: Node): Ctx {
    match ctx
    case Top => Top
    case L(up, c, n, r) => L(Rename(up, s), c, n, r)
    case R(up, c, l, n) => R(up, c, l, s)
  }

  // The nodes that the splice writes to.
  ghost predicate Touched(n: Node, z: Node, s: Node, temp: Node, h: Heap)
    requires z in h.m && s in h.m
  {
    || n == z || n == s || n == temp || n == h.m[z].left || n == h.m[z].right || n == h.m[s].parent
    || (z != h.root && n == h.m[z].parent)
  }

  // s, the leftmost node right of z, is cut out of its place, which temp takes, and put in place of z.
  ghost predicate Spliced(z: Node, s: Node, temp: Node, h: Heap, h': Heap)
    requires z in h.m && s in h.m && temp in h.m
  {
    var zl, zr, sp := h.m[z].left, h.m[z].right, h.m[s].parent;
    && zl != null && zl in h.m && zr != null && zr in h.m && sp != null && sp in h.m
    && h'.nil == h.nil && (forall n :: n in h.q && n != z ==> n in h'.q && h'.q[n] == h.q[n])
    && Replaced(z, s, h, h')
    && s in h'.m && h'.m[s] == Cell(zl, if sp == z then temp else zr, h.m[z].parent, h.m[z].color)
    && zl in h'.m && h'.m[zl] == h.m[zl].(parent := s)
    && temp in h'.m && h'.m[temp] == h.m[temp].(parent := if sp == z then s else sp)
    && (sp != z ==> sp in h'.m && h'.m[sp] == h.m[sp].(left := temp, parent := if sp == zr then s else h.m[sp].parent))
    && (sp != z && sp != zr ==> zr in h'.m && h'.m[zr] == h.m[zr].(parent := s))
    && (forall n :: n in h.m && !Touched(n, z, s, temp, h) ==> n in h'.m && h'.m[n] == h.m[n])
  }

  // What the splice relies on: the nodes involved are different.
  ghost predicate CanSplice(z: Node, s: Node, temp: Node, h: Heap) {
    && NilOk(h) && z in h.m && s in h.m && temp in h.m && z != h.nil && s != h.nil && z != s && temp != z && temp != s
    && var zl, zr, zp, sp := h.m[z].left, h.m[z].right, h.m[z].parent, h.m[s].parent;
    && zl != null && zl in h.m && zr != null && zr in h.m && sp != null && sp in h.m
    && zl != h.nil && zl != z && zl != s && zl != temp && zl != zr && zl != sp && zr != h.nil && zr != z && zr != temp
    && (sp == z ==> zr == s) && (sp != z ==> sp != s && sp != temp && sp != h.nil && zr != s && h.m[sp].left == s)
    && (z != h.root ==>
      && zp != null && zp in h.m && zp != z && zp != s && zp != temp && zp != zl && zp != zr && zp != sp && zp != h.nil
      && (h.m[zp].left == z) != (h.m[zp].right == z))
  }

  // The splice in two steps: s is cut out, and then takes the place of z.
  ghost predicate CutOut(z: Node, s: Node, temp: Node, h: Heap, h': Heap)
    requires s in h.m && temp in h.m && h.m[s].parent in h.m
  {
    var sp := h.m[s].parent;
    && h'.nil == h.nil && h'.root == h.root && h'.q == h.q && h'.m.Keys == h.m.Keys
    && h'.m[sp] == (if s == h.m[sp].left then h.m[sp].(left := temp) else h.m[sp].(right := temp))
    && h'.m[temp] == h.m[temp].(parent := if sp == z then s else sp)
    && (forall n :: n in h.m && n != sp && n != temp ==> h'.m[n] == h.m[n])
  }

  ghost predicate TookPlace(z: Node, s: Node, h: Heap, h': Heap)
    requires z in h.m && s in h.m
  {
    var zl, zr := h.m[z].left, h.m[z].right;
    && zl != null && zl in h.m && zr != null && zr in h.m
    && h'.nil == h.nil && h'.m.Keys == h.m.Keys && h'.q == h.q
    && Replaced(z, s, h, h')
    && h'.m[s] == Cell(zl, zr, h.m[z].parent, h.m[z].color)
    && h'.m[zl] == h.m[zl].(parent := s)
    && h'.m[zr] == (if zr == h.nil then h.m[zr] else h.m[zr].(parent := s))
    && (forall n :: n in h.m && n != s && n != zl && n != zr && (z == h.root || n != h.m[z].parent) ==>
        h'.m[n] == h.m[n])
  }

  ghost predicate CanTakePlace(z: Node, s: Node, h: Heap) {
    && NilOk(h) && z in h.m && s in h.m && z != h.nil && s != h.nil && z != s
    && var zl, zr, zp := h.m[z].left, h.m[z].right, h.m[z].parent;
    && zl != null && zl in h.m && zr != null && zr in h.m
    && zl != h.nil && zl != z && zl != s && zl != zr && zr != z && zr != s
    && (z != h.root ==>
      && zp != null && zp in h.m && zp != z && zp != s && zp != zl && zp != zr && zp != h.nil
      && (h.m[zp].left == z) != (h.m[zp].right == z))
  }

  lemma PlaceReady(z: Node, s: Node, temp: Node, h: Heap, h1: Heap)
    requires CanSplice(z, s, temp, h) && CutOut(z, s, temp, h, h1)
    ensures CanTakePlace(z, s, h1)
  {}

  // The memory without z.
  function Without(z: Node, h: Heap): Heap {
    h.(m := h.m - {z}, q := h.q - {z})
  }

  lemma TwoSteps(z: Node, s: Node, temp: Node, h: Heap, h1: Heap, h2: Heap)
    requires CanSplice(z, s, temp, h) && CutOut(z, s, temp, h, h1) && TookPlace(z, s, h1, h2)
    ensures Spliced(z, s, temp, h, Without(z, h2)) && NilOk(Without(z, h2))
  {}

  // Where the nodes that the splice writes to lie; end is the end of z's interval.
  ghost predicate Layout(z: Node, s: Node, temp: Node, end: real, h: Heap) {
    && z in h.m && s in h.m && temp in h.m && z in h.q && s in h.q && h.q[z] < h.q[s] < end
    && (temp in h.q ==> h.q[s] < h.q[temp] < end)
    && var zl, zr, zp, sp := h.m[z].left, h.m[z].right, h.m[z].parent, h.m[s].parent;
    && zl in h.q && h.q[zl] < h.q[z]
    && zr in h.q && h.q[s] <= h.q[zr] < end
    && (z != h.root ==> zp in h.q && (h.q[zp] < h.q[z] || end <= h.q[zp]))
    && (sp != z ==> sp in h.q && h.q[s] < h.q[sp] <= h.q[zr])
    && (temp in h.q && sp != z ==> h.q[temp] < h.q[sp])
  }

  // The frames above z.
  lemma SpliceAbove(up: Ctx, z: Node, s: Node, temp: Node, h: Heap, h': Heap)
    requires NilOk(h) && z in h.q && Lo(up, h.q) < h.q[z] && Layout(z, s, temp, Hi(up, h.q), h)
        && Spliced(z, s, temp, h, h')
    requires CtxRep(up, z, h) && Hangs(z, up, h) && h.m[z].left in h.q && Lo(up, h.q) < h.q[h.m[z].left]
    ensures CtxRep(up, s, h')
    ensures Lo(up, h'.q) == Lo(up, h.q) && Hi(up, h'.q) == Hi(up, h.q)
  {
    if !up.Top? {
      RootOutside(up, z, h);
      forall n | n in h.q && n != up.n && (h.q[n] <= Lo(up, h.q) || Hi(up, h.q) <= h.q[n])
        ensures Same(n, h, h')
      {
        assert !Touched(n, z, s, temp, h);
      }
    }
    assert Relinked(up, s, h, h');
    CtxRelink(up, z, s, h, h');
  }

  // The frame of z, renamed to s.
  lemma SpliceBase(ctx: Ctx, z: Node, s: Node, temp: Node, h: Heap, h': Heap)
    requires NilOk(h) && ctx.R? && ctx.n == z && ctx.l.T? && Layout(z, s, temp, Hi(ctx, h.q), h)
        && Spliced(z, s, temp, h, h')
    requires CtxRep(ctx, h.m[z].right, h)
    ensures h'.m[s].right != null && CtxRep(Rename(ctx, s), h'.m[s].right, h')
    ensures Hi(Rename(ctx, s), h'.q) == Hi(ctx, h.q)
  {
    var lo := Lo(ctx.up, h.q);
    SpliceAbove(ctx.up, z, s, temp, h, h');
    forall n | n in h.q && lo < h.q[n] < h.q[z] && n != h.m[z].left
      ensures Same(n, h, h')
    {
      assert !Touched(n, z, s, temp, h);
    }
    RepReroot(ctx.l, h.m[z].left, lo, h.q[z], h, h');
    RepWiden(ctx.l, h.m[z].left, lo, h.q[z], lo, h.q[s], h');
  }

  // The right subtree of the node n of the spine.
  lemma SpliceSide(n: Node, r: Tree, hi: real, z: Node, s: Node, temp: Node, end: real, h: Heap, h': Heap)
    requires NilOk(h) && Layout(z, s, temp, end, h) && Spliced(z, s, temp, h, h') && h.m[s].parent != z
    requires n in h.m && n in h.q && h.q[h.m[s].parent] <= h.q[n] < hi <= end
    requires Rep(r, h.m[n].right, h.q[n], hi, h) && Under(r, n, h)
    requires n == h.m[z].right || hi <= h.q[h.m[z].right]
    ensures Rep(r, h.m[n].right, h.q[n], hi, h') && Under(r, n, h')
  {
    forall k | k in h.q && h.q[n] < h.q[k] < hi
      ensures Same(k, h, h')
    {
      assert !Touched(k, z, s, temp, h);
    }
    RepFrame(r, h.m[n].right, h.q[n], hi, h, h');
  }

  lemma PushL(up: Ctx, c: Color, n: Node, r: Tree, x: Node, h: Heap)
    requires n in h.m && h.m[n].color == c && h.m[n].left == x && Hangs(n, up, h)
    requires n in h.q && Lo(up, h.q) < h.q[n] < Hi(up, h.q)
    requires Rep(r, h.m[n].right, h.q[n], Hi(up, h.q), h) && Under(r, n, h) && CtxRep(up, n, h)
    ensures CtxRep(L(up, c, n, r), x, h)
  {}

  function Base(ctx: Ctx): Ctx {
    if ctx.L? then Base(ctx.up) else ctx
  }

  // The spine starts at the right child of z and its nodes lie between z and the end of z's interval.
  lemma {:induction false} SpineBounds(ctx: Ctx, x: Node, z: Node, h: Heap)
    requires CtxRep(ctx, x, h) && Spine(ctx, z)
    ensures Base(ctx).R? && Base(ctx).n == z && z in h.m && z in h.q && Lo(ctx, h.q) == h.q[z]
    ensures h.q[z] < Hi(ctx, h.q) <= Hi(Base(ctx), h.q)
    ensures ctx.R? ==> x == h.m[z].right
    ensures ctx.L? ==> h.m[z].right in h.q && Hi(ctx, h.q) <= h.q[h.m[z].right] < Hi(Base(ctx), h.q)
    ensures ctx.L? && ctx.up.L? ==> ctx.n != h.m[z].right
  {
    if ctx.L? { SpineBounds(ctx.up, ctx.n, z, h); } else { HoleOpen(ctx, x, h); }
  }

  // The cell of a node of the spine.
  lemma SpliceCell(n: Node, z: Node, s: Node, temp: Node, end: real, h: Heap, h': Heap)
    requires NilOk(h) && Layout(z, s, temp, end, h) && Spliced(z, s, temp, h, h') && h.m[s].parent != z
    requires n in h.m && n in h.q && h.q[h.m[s].parent] <= h.q[n] < end
    ensures n in h'.m && n in h'.q && h'.q[n] == h.q[n]
    ensures h'.m[n] == h.m[n].(left := if n == h.m[s].parent then temp else h.m[n].left,
                               parent := if n == h.m[z].right then s else h.m[n].parent)
  {
    assert n == h.m[s].parent || n == h.m[z].right || !Touched(n, z, s, temp, h);
  }

  lemma {:induction false} SpliceSpine(ctx: Ctx, x: Node, z: Node, s: Node, temp: Node, h: Heap, h': Heap)
    requires NilOk(h) && Spine(ctx, z) && CtxRep(ctx, x, h) && Base(ctx).R? && Base(ctx).l.T?
    requires Layout(z, s, temp, Hi(Base(ctx), h.q), h) && Spliced(z, s, temp, h, h') && h.m[s].parent != z
    requires ctx.L? ==> ctx.n in h.q && h.q[h.m[s].parent] <= h.q[ctx.n]
    ensures CtxRep(Rename(ctx, s), if ctx.L? && ctx.n == h.m[s].parent then temp else x, h')
    ensures Hi(Rename(ctx, s), h'.q) == Hi(ctx, h.q) && Lo(Rename(ctx, s), h'.q) == h.q[s]
  {
    SpineBounds(ctx, x, z, h);
    if ctx.R? {
      SpliceBase(ctx, z, s, temp, h, h');
    } else {
      SpineBounds(ctx.up, ctx.n, z, h);
      SpliceSpine(ctx.up, ctx.n, z, s, temp, h, h');
      SpliceSide(ctx.n, ctx.r, Hi(ctx.up, h.q), z, s, temp, Hi(Base(ctx), h.q), h, h');
      SpliceCell(ctx.n, z, s, temp, Hi(Base(ctx), h.q), h, h');
      PushL(Rename(ctx.up, s), ctx.c, ctx.n, ctx.r, if ctx.n == h.m[s].parent then temp else x, h');
    }
  }

  // The left child and the parent of z.
  lemma {:induction false} BaseBounds(ctx: Ctx, x: Node, z: Node, h: Heap)
    requires NilOk(h) && CtxRep(ctx, x, h) && Spine(ctx, z) && Base(ctx).R? && Base(ctx).l.T?
    ensures z in h.m && z in h.q && h.m[z].left in h.q && h.q[h.m[z].left] < h.q[z]
    ensures z != h.root ==> h.m[z].parent in h.q
    ensures z != h.root ==> h.q[h.m[z].parent] < h.q[z] || Hi(Base(ctx), h.q) <= h.q[h.m[z].parent]
  {
    if ctx.L? { BaseBounds(ctx.up, ctx.n, z, h); }
  }

  lemma SpliceLayout(ctx: Ctx, t: Tree, z: Node, temp: Node, h: Heap)
    requires t.T? && t.l.Leaf? && At(ctx, t, h) == t.n && Spine(ctx, z) && Base(ctx).R? && Base(ctx).l.T?
    requires temp == h.m[t.n].right && temp in h.m
    ensures Layout(z, t.n, temp, Hi(Base(ctx), h.q), h)
    ensures h.m[t.n].parent == ctx.n
  {
    assert Rep(t.r, h.m[t.n].right, h.q[t.n], Hi(ctx, h.q), h);
    SpineBounds(ctx, t.n, z, h);
    BaseBounds(ctx, t.n, z, h);
  }

  lemma SpliceReady(ctx: Ctx, t: Tree, z: Node, temp: Node, h: Heap)
    requires t.T? && t.l.Leaf? && At(ctx, t, h) == t.n && Spine(ctx, z) && Base(ctx).R? && Base(ctx).l.T?
    requires temp == h.m[t.n].right && temp in h.m
    ensures CanSplice(z, t.n, temp, h)
  {
    SpliceLayout(ctx, t, z, temp, h);
    SpineLinks(ctx, t.n, z, h);
  }

  // The links of z and the links to it.
  lemma {:induction false} SpineLinks(ctx: Ctx, x: Node, z: Node, h: Heap)
    requires NilOk(h) && CtxRep(ctx, x, h) && x in h.m && Spine(ctx, z) && Base(ctx).R? && Base(ctx).l.T?
    ensures z in h.m && h.m[z].left in h.m && h.m[z].right in h.m && (ctx.R? ==> h.m[z].right == x)
    ensures z != h.root ==> h.m[z].parent in h.m && h.m[z].parent != h.m[z].left
    ensures z != h.root ==> (h.m[h.m[z].parent].left == z) != (h.m[h.m[z].parent].right == z)
  {
    if ctx.L? { SpineLinks(ctx.up, ctx.n, z, h); }
  }

  lemma ZipSplice(ctx: Ctx, t: Tree, z: Node, temp: Node, h: Heap, h': Heap)
    requires t.T? && t.l.Leaf? && At(ctx, t, h) == t.n && Spine(ctx, z) && Base(ctx).R? && Base(ctx).l.T?
    requires z in h.m && temp in h.m && temp == h.m[t.n].right && Spliced(z, t.n, temp, h, h') && NilOk(h')
    ensures At(Rename(ctx, t.n), t.r, h') == temp
    ensures temp in h'.m && h'.m[temp].parent == Rename(ctx, t.n).n
  {
    var s, end := t.n, Hi(Base(ctx), h.q);
    SpliceLayout(ctx, t, z, temp, h);
    assert Rep(t.r, temp, h.q[s], Hi(ctx, h.q), h);
    SpineBounds(ctx, s, z, h);
    forall n | n in h.q && h.q[s] < h.q[n] < Hi(ctx, h.q) && n != temp
      ensures Same(n, h, h')
    {
      assert !Touched(n, z, s, temp, h);
    }
    RepReroot(t.r, temp, h.q[s], Hi(ctx, h.q), h, h');
    if ctx.R? {
      SpliceBase(ctx, z, s, temp, h, h');
    } else {
      SpliceSpine(ctx, s, z, s, temp, h, h');
    }
  }
}
