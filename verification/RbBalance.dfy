/** The colour and height rules of a red-black tree, for whole trees and for a tree with a hole. */
module RbBalance {
  import opened RbShape

  predicate IsRed(t: Tree) {
    t.T? && t.c.Red?
  }

  function Rise(c: Color): nat {
    if c.Black? then 1 else 0
  }

  // No red node has a red child, and every path to a leaf meets h black nodes.
  predicate Bal(t: Tree, h: int) {
    match t
    case Leaf => h == 0
    case T(c, l, _, r) =>
      && (c.Red? ==> !IsRed(l) && !IsRed(r))
      && Bal(l, h - Rise(c)) && Bal(r, h - Rise(c))
  }

  predicate CtxRed(ctx: Ctx) {
    !ctx.Top? && ctx.c.Red?
  }

  // The frames are balanced for a black tree of black height h in the hole.
  predicate CtxBal(ctx: Ctx, h: int) {
    match ctx
    case Top => true
    case L(up, c, _, r) =>
      Bal(r, h) && (c.Red? ==> !IsRed(r) && !up.Top? && !CtxRed(up)) && CtxBal(up, h + Rise(c))
    case R(up, c, l, _) =>
      Bal(l, h) && (c.Red? ==> !IsRed(l) && !up.Top? && !CtxRed(up)) && CtxBal(up, h + Rise(c))
  }

  // A red-black tree with a black root, focused on t.
  predicate ZipBal(ctx: Ctx, t: Tree, h: int) {
    CtxBal(ctx, h) && Bal(t, h) && (IsRed(t) ==> !ctx.Top? && !CtxRed(ctx))
  }

  predicate RedBlack(t: Tree) {
    !IsRed(t) && Bal(t, BlackHeight(t))
  }

  function BlackHeight(t: Tree): nat {
    if t.Leaf? then 0 else BlackHeight(t.l) + Rise(t.c)
  }

  lemma {:induction false} HeightIs(t: Tree, h: int)
    requires Bal(t, h)
    ensures h == BlackHeight(t)
  {
    if t.T? { HeightIs(t.l, h - Rise(t.c)); }
  }

  // Balance around a hole is balance of the whole tree.
  lemma {:induction false} FillBal(ctx: Ctx, t: Tree, h: int)
    requires ZipBal(ctx, t, h)
    ensures RedBlack(Fill(ctx, t))
  {
    match ctx
    case Top => HeightIs(t, h);
    case L(up, c, n, r) => FillBal(up, T(c, t, n, r), h + Rise(c));
    case R(up, c, l, n) => FillBal(up, T(c, l, n, t), h + Rise(c));
  }

  // A red-black tree is exponential in its black height.
  lemma {:induction false} HeightBound(t: Tree, h: int)
    requires Bal(t, h)
    ensures h >= 0 && |InOrder(t)| + 1 >= Pow2(h)
  {
    if t.T? {
      HeightBound(t.l, h - Rise(t.c));
      HeightBound(t.r, h - Rise(t.c));
    }
  }

  function Pow2(n: nat): nat {
    if n == 0 then 1 else 2 * Pow2(n - 1)
  }

  // The number of nodes on the longest path from the root
  function Height(t: Tree): nat {
    if t.Leaf? then 0 else 1 + if Height(t.l) > Height(t.r) then Height(t.l) else Height(t.r)
  }

  // Red nodes at most double the height.
  lemma {:induction false} HeightTwice(t: Tree, h: int)
    requires Bal(t, h)
    ensures Height(t) <= 2 * h + if IsRed(t) then 1 else 0
  {
    if t.T? {
      HeightTwice(t.l, h - Rise(t.c));
      HeightTwice(t.r, h - Rise(t.c));
    }
  }

  lemma {:induction false} Pow2Grows(a: nat, b: nat)
    requires a <= b
    ensures Pow2(a) <= Pow2(b)
    decreases b
  {
    if a < b { Pow2Grows(a, b - 1); }
  }

  // The height of a red-black tree is at most twice the logarithm of its size plus one.
  lemma Logarithmic(t: Tree)
    requires RedBlack(t)
    ensures Pow2((Height(t) + 1) / 2) <= |InOrder(t)| + 1
  {
    var h := BlackHeight(t);
    HeightBound(t, h);
    HeightTwice(t, h);
    Pow2Grows((Height(t) + 1) / 2, h);
  }

  lemma SameOrder(ctx: Ctx, t: Tree, t': Tree)
    requires InOrder(t) == InOrder(t')
    ensures InOrder(Fill(ctx, t)) == InOrder(Fill(ctx, t'))
  {
    FillOrder(ctx, t);
    FillOrder(ctx, t');
  }

  lemma HoleOrder(ctx: Ctx, node: Node)
    ensures InOrder(Fill(ctx, Leaf)) == Before(ctx) + After(ctx)
    ensures InOrder(Fill(ctx, T(Red, Leaf, node, Leaf))) == Before(ctx) + [node] + After(ctx)
  {
    FillOrder(ctx, Leaf);
    FillOrder(ctx, T(Red, Leaf, node, Leaf));
  }

  lemma Assoc(a: seq<Node>, b: seq<Node>, c: seq<Node>, d: seq<Node>)
    ensures (a + b) + c + d == a + (b + c + d)
  {}

  lemma RotLOrder(t: Tree)
    requires t.T? && t.r.T?
    ensures InOrder(RotL(t)) == InOrder(t)
  {
    Assoc(InOrder(t.l) + [t.n], InOrder(t.r.l), [t.r.n], InOrder(t.r.r));
  }

  lemma RotROrder(t: Tree)
    requires t.T? && t.l.T?
    ensures InOrder(RotR(t)) == InOrder(t)
  {
    Assoc(InOrder(t.l.l) + [t.l.n], InOrder(t.l.r), [t.n], InOrder(t.r));
  }

  // ---------- the steps of the insertion fixup, below the grandparent ----------

  // The tree one level above the focus.
  function Above(ctx: Ctx, t: Tree): Tree
    requires !ctx.Top?
  {
    match ctx
    case L(_, c, n, r) => T(c, t, n, r)
    case R(_, c, l, n) => T(c, l, n, t)
  }

  // A red node below a red parent, below a black grandparent.
  predicate RedBelowRed(ctx: Ctx, t: Tree, h: int) {
    IsRed(t) && Bal(t, h) && CtxBal(ctx, h) && CtxRed(ctx)
  }

  // The grandparent's subtree, and the frames above it.
  lemma Grandparent(ctx: Ctx, t: Tree, h: int)
    requires RedBelowRed(ctx, t, h)
    ensures !ctx.up.Top? && ctx.up.c.Black? && CtxBal(ctx.up.up, h + 1)
    ensures ctx.up.L? ==> Bal(ctx.up.r, h)
    ensures ctx.up.R? ==> Bal(ctx.up.l, h)
    ensures Fill(ctx, t) == Fill(ctx.up.up, Above(ctx.up, Above(ctx, t)))
  {
    assert CtxBal(ctx.up, h + Rise(ctx.c));
  }

  function Recolored(g: Tree): Tree
    requires g.T? && g.l.T? && g.r.T?
  {
    T(Red, Paint(g.l, Black), g.n, Paint(g.r, Black))
  }

  // A red uncle: the grandparent becomes the red node to look at.
  lemma RecoloredOk(ctx: Ctx, t: Tree, h: int, g: Tree)
    requires RedBelowRed(ctx, t, h) && !ctx.up.Top? && g == Above(ctx.up, Above(ctx, t))
    requires IsRed(g.l) && IsRed(g.r)
    ensures Bal(Recolored(g), h + 1) && CtxBal(ctx.up.up, h + 1)
    ensures InOrder(Fill(ctx.up.up, Recolored(g))) == InOrder(Fill(ctx, t))
  {
    Grandparent(ctx, t, h);
    SameOrder(ctx.up.up, g, Recolored(g));
  }

  // Otherwise an inner grandchild is rotated outwards, and then the outer child is lifted.
  function Outward(ctx: Ctx, t: Tree): Tree
    requires t.T? && !ctx.Top? && !ctx.up.Top?
  {
    var p := Above(ctx, t);
    Above(ctx.up, if ctx.up.L? && ctx.R? then RotL(p) else if ctx.up.R? && ctx.L? then RotR(p) else p)
  }

  function LiftL(g: Tree): Tree
    requires g.T? && g.l.T?
  {
    RotR(T(Red, Paint(g.l, Black), g.n, g.r))
  }

  function LiftR(g: Tree): Tree
    requires g.T? && g.r.T?
  {
    RotL(T(Red, g.l, g.n, Paint(g.r, Black)))
  }

  lemma OutwardOrder(ctx: Ctx, t: Tree)
    requires t.T? && !ctx.Top? && !ctx.up.Top?
    ensures InOrder(Outward(ctx, t)) == InOrder(Above(ctx.up, Above(ctx, t)))
  {
    var p := Above(ctx, t);
    if ctx.up.L? && ctx.R? { RotLOrder(p); } else if ctx.up.R? && ctx.L? { RotROrder(p); }
  }

  lemma LiftOrder(g: Tree)
    requires g.T?
    ensures g.l.T? ==> InOrder(LiftL(g)) == InOrder(g)
    ensures g.r.T? ==> InOrder(LiftR(g)) == InOrder(g)
  {
    if g.l.T? { RotROrder(T(Red, Paint(g.l, Black), g.n, g.r)); }
    if g.r.T? { RotLOrder(T(Red, g.l, g.n, Paint(g.r, Black))); }
  }

  lemma LiftedLeft(ctx: Ctx, t: Tree, h: int, g: Tree)
    requires RedBelowRed(ctx, t, h) && !ctx.up.Top? && ctx.up.L? && !IsRed(ctx.up.r)
    requires g == LiftL(Outward(ctx, t))
    ensures Bal(g.l, h) && IsRed(g.l) && CtxBal(L(ctx.up.up, g.c, g.n, g.r), h)
    ensures InOrder(Fill(L(ctx.up.up, g.c, g.n, g.r), g.l)) == InOrder(Fill(ctx, t))
  {
    Grandparent(ctx, t, h);
    OutwardOrder(ctx, t);
    LiftOrder(Outward(ctx, t));
    SameOrder(ctx.up.up, Above(ctx.up, Above(ctx, t)), g);
  }

  lemma LiftedRight(ctx: Ctx, t: Tree, h: int, g: Tree)
    requires RedBelowRed(ctx, t, h) && !ctx.up.Top? && ctx.up.R? && !IsRed(ctx.up.l)
    requires g == LiftR(Outward(ctx, t))
    ensures Bal(g.r, h) && IsRed(g.r) && CtxBal(R(ctx.up.up, g.c, g.l, g.n), h)
    ensures InOrder(Fill(R(ctx.up.up, g.c, g.l, g.n), g.r)) == InOrder(Fill(ctx, t))
  {
    Grandparent(ctx, t, h);
    OutwardOrder(ctx, t);
    LiftOrder(Outward(ctx, t));
    SameOrder(ctx.up.up, Above(ctx.up, Above(ctx, t)), g);
  }

  // At the end of the insertion fixup only the root can be wrong, and it is painted black.
  lemma InsertDone(ctx: Ctx, t: Tree, h: int)
    requires IsRed(t) && Bal(t, h) && CtxBal(ctx, h) && !CtxRed(ctx)
    ensures Fill(ctx, t).T? && RedBlack(Paint(Fill(ctx, t), Black))
    ensures InOrder(Paint(Fill(ctx, t), Black)) == InOrder(Fill(ctx, t))
  {
    FillSolid(ctx, t);
    if ctx.Top? {
      HeightIs(t.l, h);
      HeightIs(Paint(t, Black), h + 1);
    } else {
      FillBal(ctx, t, h);
    }
  }

  lemma {:induction false} FillSolid(ctx: Ctx, t: Tree)
    requires t.T? || !ctx.Top?
    ensures Fill(ctx, t).T?
  {
    if !ctx.Top? { FillSolid(ctx.up, Above(ctx, t)); }
  }

  // ---------- the steps of the deletion fixup ----------

  // t is one black level short of h + 1, which painting it black repairs if it is red.
  predicate Short(t: Tree, h: int) {
    if IsRed(t) then Bal(Paint(t, Black), h + 1) else Bal(t, h)
  }

  // The deletion fixup at t, below the parent's subtree p = Above(ctx, t).
  predicate Lacking(ctx: Ctx, t: Tree, h: int) {
    !ctx.Top? && !IsRed(t) && Bal(t, h) && CtxBal(ctx, h + 1)
  }

  // Case 1: a red sibling is rotated above the parent.
  function TurnL(p: Tree): Tree
    requires p.T? && p.r.T?
  {
    RotL(T(Red, p.l, p.n, Paint(p.r, Black)))
  }

  function TurnR(p: Tree): Tree
    requires p.T? && p.l.T?
  {
    RotR(T(Red, Paint(p.l, Black), p.n, p.r))
  }

  lemma TurnedL(ctx: Ctx, t: Tree, h: int, ctx': Ctx)
    requires Lacking(ctx, t, h) && ctx.L? && IsRed(ctx.r)
    requires ctx' == L(L(ctx.up, Black, ctx.r.n, ctx.r.r), Red, ctx.n, ctx.r.l)
    ensures Lacking(ctx', t, h) && ctx'.r.T? && !IsRed(ctx'.r)
    ensures Above(ctx'.up, Above(ctx', t)) == TurnL(Above(ctx, t))
    ensures InOrder(Fill(ctx', t)) == InOrder(Fill(ctx, t))
  {
    var p := Above(ctx, t);
    HeightIs(t, h);
    assert CtxBal(L(ctx.up, Black, ctx.r.n, ctx.r.r), h + 1);
    RotLOrder(T(Red, p.l, p.n, Paint(p.r, Black)));
    SameOrder(ctx.up, p, TurnL(p));
  }

  lemma TurnedR(ctx: Ctx, t: Tree, h: int, ctx': Ctx)
    requires Lacking(ctx, t, h) && ctx.R? && IsRed(ctx.l)
    requires ctx' == R(R(ctx.up, Black, ctx.l.l, ctx.l.n), Red, ctx.l.r, ctx.n)
    ensures Lacking(ctx', t, h) && ctx'.l.T? && !IsRed(ctx'.l)
    ensures Above(ctx'.up, Above(ctx', t)) == TurnR(Above(ctx, t))
    ensures InOrder(Fill(ctx', t)) == InOrder(Fill(ctx, t))
  {
    var p := Above(ctx, t);
    HeightIs(t, h);
    assert CtxBal(R(ctx.up, Black, ctx.l.l, ctx.l.n), h + 1);
    RotROrder(T(Red, Paint(p.l, Black), p.n, p.r));
    SameOrder(ctx.up, p, TurnR(p));
  }

  // Case 2: a black sibling with black children becomes red, and the parent is looked at next.
  lemma Sunk(ctx: Ctx, t: Tree, h: int, p: Tree)
    requires Lacking(ctx, t, h)
    requires ctx.L? ==>
        ctx.r.T? && !IsRed(ctx.r) && !IsRed(ctx.r.l) && !IsRed(ctx.r.r) && p == T(ctx.c, t, ctx.n, Paint(ctx.r, Red))
    requires ctx.R? ==>
        ctx.l.T? && !IsRed(ctx.l) && !IsRed(ctx.l.l) && !IsRed(ctx.l.r) && p == T(ctx.c, Paint(ctx.l, Red), ctx.n, t)
    ensures var h' := h + Rise(ctx.c); Short(p, h') && CtxBal(ctx.up, h' + 1)
    ensures InOrder(Fill(ctx.up, p)) == InOrder(Fill(ctx, t))
  {
    SameOrder(ctx.up, Above(ctx, t), p);
  }

  // Cases 3 and 4: a red child of the sibling pays for the missing black level.
  function FarL(w: Tree): Tree
    requires w.T? && (IsRed(w.r) || IsRed(w.l))
  {
    if IsRed(w.r) then w else RotR(T(Red, Paint(w.l, Black), w.n, w.r))
  }

  function FarR(w: Tree): Tree
    requires w.T? && (IsRed(w.l) || IsRed(w.r))
  {
    if IsRed(w.l) then w else RotL(T(Red, w.l, w.n, Paint(w.r, Black)))
  }

  // Case 4, with w the sibling's subtree, whose far child is to be painted black.
  function PayL(c: Color, t: Tree, n: Node, w: Tree): Tree
    requires w.T? && w.r.T?
  {
    RotL(T(Black, t, n, T(c, w.l, w.n, Paint(w.r, Black))))
  }

  function PayR(c: Color, t: Tree, n: Node, w: Tree): Tree
    requires w.T? && w.l.T?
  {
    RotR(T(Black, T(c, Paint(w.l, Black), w.n, w.r), n, t))
  }

  lemma FarLOrder(w: Tree)
    requires w.T? && (IsRed(w.r) || IsRed(w.l))
    ensures InOrder(FarL(w)) == InOrder(w)
  {
    if !IsRed(w.r) { RotROrder(T(Red, Paint(w.l, Black), w.n, w.r)); }
  }

  lemma PayLOrder(c: Color, t: Tree, n: Node, w: Tree)
    requires w.T? && w.r.T?
    ensures InOrder(PayL(c, t, n, w)) == InOrder(t) + [n] + InOrder(w)
  {
    RotLOrder(T(Black, t, n, T(c, w.l, w.n, Paint(w.r, Black))));
    assert InOrder(T(c, w.l, w.n, Paint(w.r, Black))) == InOrder(w);
  }

  lemma PaidL(ctx: Ctx, t: Tree, h: int, p: Tree)
    requires Lacking(ctx, t, h) && ctx.L? && ctx.r.T? && !IsRed(ctx.r) && (IsRed(ctx.r.l) || IsRed(ctx.r.r))
    requires FarL(ctx.r).r.T? && p == PayL(ctx.c, t, ctx.n, FarL(ctx.r))
    ensures ZipBal(ctx.up, p, h + 1 + Rise(ctx.c))
    ensures InOrder(Fill(ctx.up, p)) == InOrder(Fill(ctx, t))
  {
    var w := FarL(ctx.r);
    assert Bal(ctx.r.l, h) && Bal(ctx.r.r, h);
    assert !IsRed(w) && Bal(w.l, h) && Bal(Paint(w.r, Black), h + 1);
    FarLOrder(ctx.r);
    PayLOrder(ctx.c, t, ctx.n, w);
    SameOrder(ctx.up, Above(ctx, t), p);
  }

  lemma FarROrder(w: Tree)
    requires w.T? && (IsRed(w.r) || IsRed(w.l))
    ensures InOrder(FarR(w)) == InOrder(w)
  {
    if !IsRed(w.l) { RotLOrder(T(Red, w.l, w.n, Paint(w.r, Black))); }
  }

  lemma PayROrder(c: Color, t: Tree, n: Node, w: Tree)
    requires w.T? && w.l.T?
    ensures InOrder(PayR(c, t, n, w)) == InOrder(w) + [n] + InOrder(t)
  {
    RotROrder(T(Black, T(c, Paint(w.l, Black), w.n, w.r), n, t));
    assert InOrder(T(c, Paint(w.l, Black), w.n, w.r)) == InOrder(w);
  }

  lemma PaidR(ctx: Ctx, t: Tree, h: int, p: Tree)
    requires Lacking(ctx, t, h) && ctx.R? && ctx.l.T? && !IsRed(ctx.l) && (IsRed(ctx.l.l) || IsRed(ctx.l.r))
    requires FarR(ctx.l).l.T? && p == PayR(ctx.c, t, ctx.n, FarR(ctx.l))
    ensures ZipBal(ctx.up, p, h + 1 + Rise(ctx.c))
    ensures InOrder(Fill(ctx.up, p)) == InOrder(Fill(ctx, t))
  {
    var w := FarR(ctx.l);
    assert Bal(ctx.l.l, h) && Bal(ctx.l.r, h);
    assert !IsRed(w) && Bal(w.r, h) && Bal(Paint(w.l, Black), h + 1);
    FarROrder(ctx.l);
    PayROrder(ctx.c, t, ctx.n, w);
    SameOrder(ctx.up, Above(ctx, t), p);
  }

  // At the end of the deletion fixup the focus is painted black.
  lemma Blackened(ctx: Ctx, t: Tree, h: int)
    requires t.T? && Short(t, h) && CtxBal(ctx, h + 1) && (ctx.Top? || IsRed(t))
    ensures RedBlack(Fill(ctx, Paint(t, Black))) && InOrder(Fill(ctx, Paint(t, Black))) == InOrder(Fill(ctx, t))
  {
    var t' := Paint(t, Black);
    SameOrder(ctx, t, t');
    if IsRed(t) {
      FillBal(ctx, t', h + 1);
    } else {
      HeightIs(t, h);
    }
  }

  // ---------- taking a node out ----------

  // A child taking the place of a node with no other child: a black level is missing if the node was black.
  lemma Dropped(ctx: Ctx, t: Tree, ch: Tree, h: int)
    requires t.T? && ZipBal(ctx, t, h) && ((t.l.Leaf? && ch == t.r) || (t.r.Leaf? && ch == t.l))
    ensures t.c.Black? ==> Short(ch, h - 1) && CtxBal(ctx, h)
    ensures t.c.Red? ==> ZipBal(ctx, ch, h)
  {
    assert Bal(ch, h - Rise(t.c)) && CtxBal(ctx, h);
    if t.l.Leaf? && ch == t.r { HeightIs(t.l, h - Rise(t.c)); } else { HeightIs(t.r, h - Rise(t.c)); }
  }

  lemma DropOrder(ctx: Ctx, t: Tree, ch: Tree)
    requires t.T? && ((t.l.Leaf? && ch == t.r) || (t.r.Leaf? && ch == t.l))
    ensures InOrder(Fill(ctx, ch)) == (Before(ctx) + InOrder(t.l)) + (InOrder(t.r) + After(ctx))
  {
    FillOrder(ctx, ch);
    Regroup2(Before(ctx), InOrder(t.l), [t.n], InOrder(t.r), After(ctx));
  }

  lemma Regroup2(a: seq<Node>, b: seq<Node>, c: seq<Node>, d: seq<Node>, e: seq<Node>)
    ensures a + (b + c + d) + e == (a + b) + c + (d + e)
    ensures b == [] ==> a + d + e == (a + b) + (d + e)
    ensures d == [] ==> a + b + e == (a + b) + (d + e)
  {}

  lemma {:induction false} RenameFacts(ctx: Ctx, s: Node, h: int)
    requires Base(ctx).R?
    ensures CtxBal(Rename(ctx, s), h) <==> CtxBal(ctx, h)
    ensures CtxRed(Rename(ctx, s)) == CtxRed(ctx) && Rename(ctx, s).Top? == ctx.Top?
    ensures Before(ctx) == Before(Base(ctx).up) + InOrder(Base(ctx).l) + [Base(ctx).n]
    ensures Before(Rename(ctx, s)) == Before(Base(ctx).up) + InOrder(Base(ctx).l) + [s]
    ensures After(Rename(ctx, s)) == After(ctx)
  {
    if ctx.L? { RenameFacts(ctx.up, s, h + Rise(ctx.c)); }
  }

  // The successor s = t.n taking the place of the node z at the end of the spine ctx.
  lemma Moved(ctx: Ctx, t: Tree, h: int)
    requires t.T? && t.l.Leaf? && ZipBal(ctx, t, h) && Base(ctx).R?
    ensures t.c.Black? ==> Short(t.r, h - 1) && CtxBal(Rename(ctx, t.n), h)
    ensures t.c.Red? ==> ZipBal(Rename(ctx, t.n), t.r, h)
    ensures var a := Before(Base(ctx).up) + InOrder(Base(ctx).l); var b := [t.n] + InOrder(t.r) + After(ctx);
      InOrder(Fill(ctx, t)) == a + [Base(ctx).n] + b && InOrder(Fill(Rename(ctx, t.n), t.r)) == a + b
  {
    var a := Before(Base(ctx).up) + InOrder(Base(ctx).l);
    RenameFacts(ctx, t.n, h);
    FillOrder(ctx, t);
    FillOrder(Rename(ctx, t.n), t.r);
    HeightIs(t.l, h - Rise(t.c));
    assert Bal(t.r, h - Rise(t.c)) && CtxBal(ctx, h);
    Regroup3(a, [Base(ctx).n], [t.n], InOrder(t.r), After(ctx));
  }

  lemma Regroup3(a: seq<Node>, z: seq<Node>, s: seq<Node>, d: seq<Node>, e: seq<Node>)
    ensures (a + z) + ([] + s + d) + e == a + z + (s + d + e)
    ensures (a + s) + d + e == a + (s + d + e)
  {}

  // The path to a node of the tree.
  lemma {:induction false} Locate(ctx: Ctx, t: Tree, x: Node, h: int, node: Node, s: Heap)
      returns (ctx': Ctx, t': Tree, h': int)
    requires At(ctx, t, s) == x && ZipBal(ctx, t, h) && node in InOrder(t)
    ensures t'.T? && t'.n == node && At(ctx', t', s) == node && ZipBal(ctx', t', h') && Fill(ctx', t') == Fill(ctx, t)
    decreases t
  {
    if t.n == node {
      ctx', t', h' := ctx, t, h;
    } else {
      ZipDown(ctx, t, s);
      if node in InOrder(t.l) {
        ctx', t', h' := Locate(L(ctx, t.c, t.n, t.r), t.l, s.m[t.n].left, h - Rise(t.c), node, s);
      } else {
        ctx', t', h' := Locate(R(ctx, t.c, t.l, t.n), t.r, s.m[t.n].right, h - Rise(t.c), node, s);
      }
    }
  }

  // The nodes after z, seen from z and from the spine of its right subtree.
  lemma SplitOrder(ctx: Ctx, t: Tree, ci: Ctx, ts: Tree)
    requires t.T? && ts.T? && ts.l.Leaf? && Base(ci) == R(ctx, t.c, t.l, t.n)
    requires Fill(ci, ts) == Fill(ctx, t)
    requires InOrder(Fill(ci, ts)) == (Before(ctx) + InOrder(t.l)) + [t.n] + ([ts.n] + InOrder(ts.r) + After(ci))
    ensures InOrder(t.r) + After(ctx) == [ts.n] + InOrder(ts.r) + After(ci)
  {
    FillOrder(ctx, t);
    Regroup2(Before(ctx), InOrder(t.l), [t.n], InOrder(t.r), After(ctx));
    SameTail((Before(ctx) + InOrder(t.l)) + [t.n], InOrder(t.r) + After(ctx), [ts.n] + InOrder(ts.r) + After(ci));
  }

  lemma SameTail(a: seq<Node>, b: seq<Node>, c: seq<Node>)
    requires a + b == a + c
    ensures b == c
  {
    assert b == (a + b)[|a|..];
    assert c == (a + c)[|a|..];
  }

  // The nodes before and after the root of the focused subtree.
  lemma FocusOrder(ctx: Ctx, t: Tree)
    requires t.T?
    ensures InOrder(Fill(ctx, t)) == (Before(ctx) + InOrder(t.l)) + [t.n] + (InOrder(t.r) + After(ctx))
  {
    FillOrder(ctx, t);
    Regroup2(Before(ctx), InOrder(t.l), [t.n], InOrder(t.r), After(ctx));
  }
}
