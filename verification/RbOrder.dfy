/** The two key orders of ngx_rbtree.c: plain values, and timers that wrap around. */
module RbOrder {
  import opened RbShape
  import opened RbBalance

  datatype Order = ByValue | ByTimer

  const HALF_RANGE := 0x8000_0000_0000_0000

  // ngx_rbtree_insert_value compares the keys, ngx_rbtree_insert_timer_value the sign of their
  // difference as a 64-bit integer.
  predicate Less(o: Order, a: Key, b: Key) {
    match o
    case ByValue => a < b
    case ByTimer => (a - b) % KEY_RANGE >= HALF_RANGE
  }

  // Timer keys lie in the half of the key range that starts at base.
  predicate Fits(o: Order, base: Key, k: Key) {
    o.ByTimer? ==> (k - base) % KEY_RANGE < HALF_RANGE
  }

  function Rank(o: Order, base: Key, k: Key): int {
    match o
    case ByValue => k
    case ByTimer => (k - base) % KEY_RANGE
  }

  // Within half the key range the wrap-around comparison is a comparison of distances from base.
  lemma LessIsRank(o: Order, base: Key, a: Key, b: Key)
    requires Fits(o, base, a) && Fits(o, base, b)
    ensures Less(o, a, b) <==> Rank(o, base, a) < Rank(o, base, b)
  {
    if o.ByTimer? {
      var d := (a - base) % KEY_RANGE - (b - base) % KEY_RANGE;
      var i, j := (a - base) / KEY_RANGE, (b - base) / KEY_RANGE;
      assert a - b == (i - j) * KEY_RANGE + d;
      if d < 0 {
        assert a - b == (i - j - 1) * KEY_RANGE + (d + KEY_RANGE);
      }
    }
  }

  // Outside half the key range the wrap-around comparison is not an order.
  lemma TimerCycle()
    ensures exists a, b, c: Key :: Less(ByTimer, a, b) && Less(ByTimer, b, c) && Less(ByTimer, c, a)
  {
    var third := 0x6000_0000_0000_0000;
    var a: Key, b: Key, c: Key := 0, third, 2 * third;
    assert (a - b) % KEY_RANGE == KEY_RANGE - third;
    assert (b - c) % KEY_RANGE == KEY_RANGE - third;
    assert Less(ByTimer, a, b) && Less(ByTimer, b, c) && Less(ByTimer, c, a);
  }

  // ---------- nodes in order ----------

  type Keys = map<Node, Key>
  type Stamps = map<Node, nat>

  // a has a smaller key than b, or an equal one and was inserted before b.
  predicate Precedes(o: Order, ks: Keys, st: Stamps, a: Node, b: Node) {
    && a in ks && b in ks && a in st && b in st
    && (Less(o, ks[a], ks[b]) || (!Less(o, ks[b], ks[a]) && st[a] < st[b]))
  }

  // The places of s whose nodes are in the wrong order.
  ghost function OutOfOrder(o: Order, ks: Keys, st: Stamps, s: seq<Node>): set<(int, int)> {
    set i, j | 0 <= i < j < |s| && !Precedes(o, ks, st, s[i], s[j]) :: (i, j)
  }

  ghost predicate InFifoOrder(o: Order, ks: Keys, st: Stamps, s: seq<Node>) {
    OutOfOrder(o, ks, st, s) == {}
  }

  lemma FifoPairs(o: Order, ks: Keys, st: Stamps, s: seq<Node>)
    ensures InFifoOrder(o, ks, st, s) <==> forall i, j :: 0 <= i < j < |s| ==> Precedes(o, ks, st, s[i], s[j])
  {
    forall i, j | 0 <= i < j < |s| && InFifoOrder(o, ks, st, s)
      ensures Precedes(o, ks, st, s[i], s[j])
    {
      assert (i, j) !in OutOfOrder(o, ks, st, s);
    }
  }

  // The nodes of a sequence.
  ghost function Elems(s: seq<Node>): set<Node> {
    if s == [] then {} else {s[0]} + Elems(s[1..])
  }

  lemma {:induction false} ElemsIn(s: seq<Node>, n: Node)
    ensures n in Elems(s) <==> n in s
  {
    if s != [] { ElemsIn(s[1..], n); }
  }

  lemma {:induction false} ElemsConcat(a: seq<Node>, b: seq<Node>)
    ensures Elems(a + b) == Elems(a) + Elems(b)
  {
    if a == [] {
      assert a + b == b;
    } else {
      ElemsConcat(a[1..], b);
      assert (a + b)[1..] == a[1..] + b;
    }
  }

  lemma ElemsInsert(a: seq<Node>, node: Node, b: seq<Node>)
    ensures Elems(a + [node] + b) == Elems(a + b) + {node}
  {
    ElemsConcat(a + [node], b);
    ElemsConcat(a, [node]);
    ElemsConcat(a, b);
    assert Elems([node]) == {node};
  }

  // The nodes whose keys lie outside the half range of the key range that starts at base.
  ghost function Unfit(o: Order, base: Key, ks: Keys, s: seq<Node>): set<Node> {
    set n | n in s && !(n in ks && Fits(o, base, ks[n]))
  }

  ghost predicate AllFit(o: Order, base: Key, ks: Keys, s: seq<Node>) {
    Unfit(o, base, ks, s) == {}
  }

  lemma FitNodes(o: Order, base: Key, ks: Keys, s: seq<Node>)
    ensures AllFit(o, base, ks, s) <==> forall n :: n in s ==> n in ks && Fits(o, base, ks[n])
  {
    forall n | n in s && AllFit(o, base, ks, s)
      ensures n in ks && Fits(o, base, ks[n])
    {
      assert n !in Unfit(o, base, ks, s);
    }
  }

  // The nodes on the wrong side of a hole for the key k.
  ghost function Misplaced(o: Order, ks: Keys, ctx: Ctx, k: Key): set<Node> {
    (set n | n in Before(ctx) && !(n in ks && !Less(o, k, ks[n]))) +
    (set n | n in After(ctx) && !(n in ks && Less(o, k, ks[n])))
  }

  // The key k belongs in the hole: no node left of it has a greater key, all nodes right of it have.
  ghost predicate Fence(o: Order, ks: Keys, ctx: Ctx, k: Key) {
    Misplaced(o, ks, ctx, k) == {}
  }

  lemma FenceNodes(o: Order, ks: Keys, ctx: Ctx, k: Key)
    ensures Fence(o, ks, ctx, k) <==> (
      && (forall n :: n in Before(ctx) ==> n in ks && !Less(o, k, ks[n]))
      && (forall n :: n in After(ctx) ==> n in ks && Less(o, k, ks[n])))
  {
    var bad := Misplaced(o, ks, ctx, k);
    if bad == {} {
      forall n | n in Before(ctx)
        ensures n in ks && !Less(o, k, ks[n])
      {
        assert n !in bad;
      }
      forall n | n in After(ctx)
        ensures n in ks && Less(o, k, ks[n])
      {
        assert n !in bad;
      }
    } else {
      var n :| n in bad;
    }
  }

  // In a subtree whose nodes are in order, the children's subtrees are on either side of the root.
  lemma OrderedKids(o: Order, ks: Keys, st: Stamps, t: Tree, base: Key, k: Key)
    requires t.T? && InFifoOrder(o, ks, st, InOrder(t)) && AllFit(o, base, ks, InOrder(t)) && Fits(o, base, k)
    ensures InFifoOrder(o, ks, st, InOrder(t.l)) && InFifoOrder(o, ks, st, InOrder(t.r))
    ensures t.n in ks && AllFit(o, base, ks, InOrder(t.l)) && AllFit(o, base, ks, InOrder(t.r))
    ensures Less(o, k, ks[t.n]) ==> forall n :: n in InOrder(t.r) ==> n in ks && Less(o, k, ks[n])
    ensures !Less(o, k, ks[t.n]) ==> forall n :: n in InOrder(t.l) ==> n in ks && !Less(o, k, ks[n])
  {
    var s, i := InOrder(t), |InOrder(t.l)|;
    FifoPairs(o, ks, st, s);
    FifoPairs(o, ks, st, InOrder(t.l));
    FifoPairs(o, ks, st, InOrder(t.r));
    FitNodes(o, base, ks, s);
    FitNodes(o, base, ks, InOrder(t.l));
    FitNodes(o, base, ks, InOrder(t.r));
    assert s[i] == t.n && s[..i] == InOrder(t.l) && s[i + 1..] == InOrder(t.r);
    forall n | n in s
      ensures Less(o, ks[n], ks[t.n]) <==> Rank(o, base, ks[n]) < Rank(o, base, ks[t.n])
      ensures Less(o, ks[t.n], ks[n]) <==> Rank(o, base, ks[t.n]) < Rank(o, base, ks[n])
      ensures Less(o, k, ks[n]) <==> Rank(o, base, k) < Rank(o, base, ks[n])
    {
      LessIsRank(o, base, ks[n], ks[t.n]);
      LessIsRank(o, base, ks[t.n], ks[n]);
      LessIsRank(o, base, k, ks[n]);
    }
  }

  // The search for the hole for key k, at the subtree t of a red-black tree.
  ghost predicate Descending(o: Order, ks: Keys, st: Stamps, ctx: Ctx, t: Tree, h: int, k: Key, base: Key) {
    && ZipBal(ctx, t, h) && Fence(o, ks, ctx, k)
    && InFifoOrder(o, ks, st, InOrder(t)) && AllFit(o, base, ks, InOrder(t)) && Fits(o, base, k)
  }

  function DownCtx(ctx: Ctx, t: Tree, left: bool): Ctx
    requires t.T?
  {
    if left then L(ctx, t.c, t.n, t.r) else R(ctx, t.c, t.l, t.n)
  }

  function DownTree(t: Tree, left: bool): Tree
    requires t.T?
  {
    if left then t.l else t.r
  }

  lemma Descend(o: Order, ks: Keys, st: Stamps, ctx: Ctx, t: Tree, h: int, k: Key, base: Key)
    requires t.T? && Descending(o, ks, st, ctx, t, h, k, base) && t.n in ks
    ensures var left := Less(o, k, ks[t.n]);
      && Descending(o, ks, st, DownCtx(ctx, t, left), DownTree(t, left), h - Rise(t.c), k, base)
      && Fill(DownCtx(ctx, t, left), DownTree(t, left)) == Fill(ctx, t)
  {
    OrderedKids(o, ks, st, t, base, k);
    FenceNodes(o, ks, ctx, k);
    FenceNodes(o, ks, DownCtx(ctx, t, Less(o, k, ks[t.n])), k);
  }

  ghost predicate Stamped(q: Positions, st: Stamps, clock: nat) {
    forall n :: n in q ==> n in st && st[n] < clock
  }

  // A new node with the latest stamp, put where its key belongs, keeps the nodes in order.
  lemma FifoInsert(o: Order, ks: Keys, st: Stamps, ctx: Ctx, node: Node)
    requires InFifoOrder(o, ks, st, Before(ctx) + After(ctx)) && node in ks && node in st
    requires forall n :: n in Elems(Before(ctx) + After(ctx)) ==> n in st && st[n] < st[node]
    requires Fence(o, ks, ctx, ks[node])
    ensures InFifoOrder(o, ks, st, Before(ctx) + [node] + After(ctx))
  {
    var a, b := Before(ctx), After(ctx);
    var s := a + [node] + b;
    FifoPairs(o, ks, st, a + b);
    FenceNodes(o, ks, ctx, ks[node]);
    forall i, j | 0 <= i < j < |s|
      ensures Precedes(o, ks, st, s[i], s[j])
    {
      var i', j' := if i < |a| then i else i - 1, if j < |a| then j else j - 1;
      if i != |a| && j != |a| {
        assert s[i] == (a + b)[i'] && s[j] == (a + b)[j'];
      } else if i == |a| {
        assert s[j] == (a + b)[j'] && s[j] in b;
      } else {
        assert s[i] == (a + b)[i'] && s[i] in a;
        ElemsIn(a + b, s[i]);
      }
    }
    FifoPairs(o, ks, st, s);
  }

  // Giving a new node its key and its stamp.
  lemma StartInsert(o: Order, ks: Keys, st: Stamps, t: Tree, node: Node, k: Key, clock: nat, base: Key)
    requires RedBlack(t) && InFifoOrder(o, ks, st, InOrder(t)) && AllFit(o, base, ks, InOrder(t)) && Fits(o, base, k)
    requires node !in Elems(InOrder(t))
    ensures Descending(o, ks[node := k], st[node := clock], Top, t, BlackHeight(t), k, base)
  {
    var ks', st', s := ks[node := k], st[node := clock], InOrder(t);
    ElemsIn(s, node);
    FifoPairs(o, ks, st, s);
    FifoPairs(o, ks', st', s);
    FitNodes(o, base, ks, s);
    FitNodes(o, base, ks', s);
    forall i, j | 0 <= i < j < |s|
      ensures Precedes(o, ks', st', s[i], s[j])
    {
      assert s[i] in s && s[j] in s;
      assert Precedes(o, ks, st, s[i], s[j]);
    }
  }

  // The nodes are in order again once the new node is in its place.
  lemma FifoInserted(o: Order, ks: Keys, st: Stamps, q: Positions, q': Positions, ctx: Ctx, node: Node, clock: nat)
    requires InFifoOrder(o, ks, st, Before(ctx) + After(ctx)) && node in ks && node in st && st[node] == clock
    requires Elems(Before(ctx) + After(ctx)) == q.Keys && q'.Keys == q.Keys + {node} && node !in q
    requires Stamped(q, st, clock)
    requires Fence(o, ks, ctx, ks[node])
    ensures InFifoOrder(o, ks, st, Before(ctx) + [node] + After(ctx))
    ensures Elems(Before(ctx) + [node] + After(ctx)) == q'.Keys && Stamped(q', st, clock + 1)
  {
    FifoInsert(o, ks, st, ctx, node);
    ElemsInsert(Before(ctx), node, After(ctx));
  }

  // Taking a node out keeps the others in order; it occurs only once.
  lemma FifoRemove(o: Order, ks: Keys, st: Stamps, a: seq<Node>, node: Node, b: seq<Node>)
    requires InFifoOrder(o, ks, st, a + [node] + b)
    ensures InFifoOrder(o, ks, st, a + b) && Elems(a + b) == Elems(a + [node] + b) - {node}
  {
    var s := a + [node] + b;
    FifoPairs(o, ks, st, s);
    forall i, j | 0 <= i < j < |a + b|
      ensures Precedes(o, ks, st, (a + b)[i], (a + b)[j])
    {
      assert (a + b)[i] == s[if i < |a| then i else i + 1] && (a + b)[j] == s[if j < |a| then j else j + 1];
    }
    FifoPairs(o, ks, st, a + b);
    assert node !in a + b by {
      if i :| 0 <= i < |a + b| && (a + b)[i] == node {
        assert s[|a|] == node && s[if i < |a| then i else i + 1] == node;
        assert Precedes(o, ks, st, node, node);
      }
    }
    ElemsIn(a + b, node);
    ElemsInsert(a, node, b);
  }

  // The first node has the least key: for timers, the earliest deadline.
  lemma FirstIsLeast(o: Order, ks: Keys, st: Stamps, s: seq<Node>, base: Key)
    requires InFifoOrder(o, ks, st, s) && s != [] && AllFit(o, base, ks, s)
    ensures s[0] in ks && forall n :: n in s ==> n in ks && Rank(o, base, ks[s[0]]) <= Rank(o, base, ks[n])
  {
    FifoPairs(o, ks, st, s);
    FitNodes(o, base, ks, s);
    forall n | n in s
      ensures Rank(o, base, ks[s[0]]) <= Rank(o, base, ks[n])
    {
      LessIsRank(o, base, ks[s[0]], ks[n]);
      LessIsRank(o, base, ks[n], ks[s[0]]);
      var i :| 0 <= i < |s| && s[i] == n;
      assert i > 0 ==> Precedes(o, ks, st, s[0], s[i]);
    }
  }
}
