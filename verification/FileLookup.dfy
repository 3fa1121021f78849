/** The tree of ngx_open_file_cache.c: entries are ordered by the hash of their name, and then by the name itself. */
module FileLookup {
  import opened RbShape

  // ---------- names in order ----------

  // ngx_strcmp of a and b is negative.
  predicate Smaller(a: string, b: string) {
    b != "" && (a == "" || a[0] < b[0] || (a[0] == b[0] && Smaller(a[1..], b[1..])))
  }

  lemma {:induction false} SmallerTrans(a: string, b: string, c: string)
    requires Smaller(a, b) && Smaller(b, c)
    ensures Smaller(a, c)
  {
    if a != "" && a[0] == b[0] == c[0] { SmallerTrans(a[1..], b[1..], c[1..]); }
  }

  lemma {:induction false} SmallerTotal(a: string, b: string)
    ensures (Smaller(a, b) || Smaller(b, a) <==> a != b) && !(Smaller(a, b) && Smaller(b, a))
  {
    if a != "" && b != "" {
      SmallerTotal(a[1..], b[1..]);
      assert a == [a[0]] + a[1..] && b == [b[0]] + b[1..];
    }
  }

  // What an entry is found by
  datatype Id = Id(hash: nat, name: string)

  type Ids = map<Node, Id>

  predicate Precedes(a: Id, b: Id) {
    a.hash < b.hash || (a.hash == b.hash && Smaller(a.name, b.name))
  }

  lemma PrecedesTrans(a: Id, b: Id, c: Id)
    requires Precedes(a, b) && Precedes(b, c)
    ensures Precedes(a, c)
  {
    if a.hash == b.hash == c.hash { SmallerTrans(a.name, b.name, c.name); }
  }

  lemma PrecedesTotal(a: Id, b: Id)
    ensures (Precedes(a, b) || Precedes(b, a) <==> a != b) && !(Precedes(a, b) && Precedes(b, a))
  {
    SmallerTotal(a.name, b.name);
  }

  // ---------- search trees ----------

  // All of s come before b, or after a.
  ghost predicate AllBefore(ids: Ids, s: seq<Node>, b: Id) {
    forall i :: 0 <= i < |s| ==> s[i] in ids && Precedes(ids[s[i]], b)
  }

  ghost predicate AllAfter(ids: Ids, a: Id, s: seq<Node>) {
    forall i :: 0 <= i < |s| ==> s[i] in ids && Precedes(a, ids[s[i]])
  }

  ghost predicate Ordered(ids: Ids, s: seq<Node>) {
    && (forall i :: 0 <= i < |s| ==> s[i] in ids)
    && (forall i, j :: 0 <= i < j < |s| ==> Precedes(ids[s[i]], ids[s[j]]))
  }

  lemma OrderedParts(ids: Ids, a: seq<Node>, n: Node, b: seq<Node>)
    ensures Ordered(ids, a + [n] + b) ==>
      n in ids && Ordered(ids, a) && Ordered(ids, b) && AllBefore(ids, a, ids[n]) && AllAfter(ids, ids[n], b)
  {
    var s := a + [n] + b;
    if Ordered(ids, s) {
      assert s[|a|] == n;
      assert forall i :: 0 <= i < |a| ==> a[i] == s[i];
      assert forall i :: 0 <= i < |b| ==> b[i] == s[|a| + 1 + i];
    }
  }

  lemma OrderedInsert(ids: Ids, a: seq<Node>, n: Node, b: seq<Node>)
    requires n in ids && Ordered(ids, a + b) && AllBefore(ids, a, ids[n]) && AllAfter(ids, ids[n], b)
    ensures Ordered(ids, a + [n] + b)
  {
    var s, t := a + [n] + b, a + b;
    forall i, j | 0 <= i < j < |s| ensures s[i] in ids && s[j] in ids && Precedes(ids[s[i]], ids[s[j]]) {
      if i != |a| && j != |a| {
        var i', j' := if i < |a| then i else i - 1, if j < |a| then j else j - 1;
        assert s[i] == t[i'] && s[j] == t[j'];
      }
    }
  }

  // ---------- ngx_open_file_lookup ----------

  // The nodes with this id are in the subtree.
  ghost predicate Only(ids: Ids, s: seq<Node>, id: Id, r: seq<Node>) {
    forall m :: m in s && m in ids && ids[m] == id ==> m in r
  }

  lemma GoDown(ids: Ids, t: Tree, id: Id)
    requires t.T? && Ordered(ids, InOrder(t))
    ensures t.n in ids && Ordered(ids, InOrder(t.l)) && Ordered(ids, InOrder(t.r))
    ensures Precedes(id, ids[t.n]) ==> Only(ids, InOrder(t), id, InOrder(t.l))
    ensures Precedes(ids[t.n], id) ==> Only(ids, InOrder(t), id, InOrder(t.r))
  {
    OrderedParts(ids, InOrder(t.l), t.n, InOrder(t.r));
    PrecedesTotal(id, ids[t.n]);
    PrecedesTotal(ids[t.n], ids[t.n]);
  }

  // The entry with the name and its hash, or null when there is none
  method Lookup(t0: Tree, ids: Ids, hash: nat, name: string) returns (file: Node?)
    requires Ordered(ids, InOrder(t0))
    ensures file != null ==> file in InOrder(t0) && file in ids && ids[file] == Id(hash, name)
    ensures file == null ==> forall m :: m in InOrder(t0) ==> m in ids && ids[m] != Id(hash, name)
  {
    var t := t0;
    while t.T?
      invariant Ordered(ids, InOrder(t)) && (forall m :: m in InOrder(t) ==> m in InOrder(t0))
      invariant Only(ids, InOrder(t0), Id(hash, name), InOrder(t))
      decreases t
    {
      GoDown(ids, t, Id(hash, name));
      SmallerTotal(name, ids[t.n].name);
      if hash < ids[t.n].hash {
        t := t.l;
      } else if hash > ids[t.n].hash {
        t := t.r;
      } else if name == ids[t.n].name {
        return t.n;
      } else if Smaller(name, ids[t.n].name) {
        t := t.l;
      } else {
        t := t.r;
      }
    }
    return null;
  }

  // ---------- ngx_open_file_cache_rbtree_insert_value ----------

  // The hole for a new entry: all entries before it precede it, all after it follow.
  method FindHole(t0: Tree, ids: Ids, id: Id) returns (ctx: Ctx)
    requires t0.T? && Ordered(ids, InOrder(t0)) && forall m :: m in InOrder(t0) ==> m in ids && ids[m] != id
    ensures !ctx.Top? && Fill(ctx, Leaf) == t0 && AllBefore(ids, Before(ctx), id) && AllAfter(ids, id, After(ctx))
  {
    var t := t0;
    ctx := Top;
    while true
      invariant t.T? && Fill(ctx, t) == t0 && Ordered(ids, InOrder(t)) && forall m :: m in InOrder(t) ==>
          m in InOrder(t0)
      invariant AllBefore(ids, Before(ctx), id) && AllAfter(ids, id, After(ctx))
      decreases t
    {
      var left := Left(id, ids, t, ctx);
      if left { ctx, t := L(ctx, t.c, t.n, t.r), t.l; } else { ctx, t := R(ctx, t.c, t.l, t.n), t.r; }
      if t.Leaf? { return; }
    }
  }

  // The comparison in the loop
  method Left(id: Id, ids: Ids, t: Tree, ghost ctx: Ctx) returns (left: bool)
    requires t.T? && Ordered(ids, InOrder(t)) && (forall m :: m in InOrder(t) ==> m in ids && ids[m] != id)
    requires AllBefore(ids, Before(ctx), id) && AllAfter(ids, id, After(ctx))
    ensures Ordered(ids, InOrder(t.l)) && Ordered(ids, InOrder(t.r))
    ensures left ==> AllAfter(ids, id, After(L(ctx, t.c, t.n, t.r)))
    ensures !left ==> AllBefore(ids, Before(R(ctx, t.c, t.l, t.n)), id)
  {
    assert t.n in InOrder(t);
    OrderedParts(ids, InOrder(t.l), t.n, InOrder(t.r));
    PrecedesTotal(id, ids[t.n]);
    if id.hash < ids[t.n].hash {
      left := true;
    } else if id.hash > ids[t.n].hash {
      left := false;
    } else {
      left := Smaller(id.name, ids[t.n].name);
    }
    if left { Follow(ids, id, t.n, InOrder(t.r), After(ctx)); } else { Lead(ids, id, t.n, InOrder(t.l), Before(ctx)); }
  }

  lemma Follow(ids: Ids, id: Id, n: Node, b: seq<Node>, rest: seq<Node>)
    requires n in ids && Precedes(id, ids[n]) && AllAfter(ids, ids[n], b) && AllAfter(ids, id, rest)
    ensures AllAfter(ids, id, [n] + b + rest)
  {
    forall i | 0 <= i < |b| ensures Precedes(id, ids[b[i]]) { PrecedesTrans(id, ids[n], ids[b[i]]); }
  }

  lemma Lead(ids: Ids, id: Id, n: Node, a: seq<Node>, rest: seq<Node>)
    requires n in ids && Precedes(ids[n], id) && AllBefore(ids, a, ids[n]) && AllBefore(ids, rest, id)
    ensures AllBefore(ids, rest + a + [n], id)
  {
    forall i | 0 <= i < |a| ensures Precedes(ids[a[i]], id) { PrecedesTrans(ids[a[i]], ids[n], id); }
  }

  // ---------- the tree as a map ----------

  // With the new entry in the hole, and after any change that keeps the sequence of nodes, the tree is ordered.
  lemma InsertedOrdered(ids: Ids, ctx: Ctx, n: Node, t: Tree)
    requires n in ids && Ordered(ids, InOrder(Fill(ctx, Leaf))) && AllBefore(ids, Before(ctx), ids[n])
        && AllAfter(ids, ids[n], After(ctx))
    requires InOrder(t) == InOrder(Fill(ctx, T(Red, Leaf, n, Leaf)))
    ensures Ordered(ids, InOrder(t)) && InOrder(t) == Before(ctx) + [n] + After(ctx)
  {
    FillOrder(ctx, Leaf);
    FillOrder(ctx, T(Red, Leaf, n, Leaf));
    assert InOrder(Fill(ctx, Leaf)) == Before(ctx) + After(ctx);
    assert InOrder(t) == Before(ctx) + [n] + After(ctx);
    OrderedInsert(ids, Before(ctx), n, After(ctx));
  }

  // Without an entry it stays so.
  lemma RemovedOrdered(ids: Ids, a: seq<Node>, n: Node, b: seq<Node>)
    requires Ordered(ids, a + [n] + b)
    ensures n in ids && Ordered(ids, a + b) && AllBefore(ids, a, ids[n]) && AllAfter(ids, ids[n], b)
  {
    var s, t := a + [n] + b, a + b;
    OrderedParts(ids, a, n, b);
    forall i, j | 0 <= i < j < |t| ensures t[i] in ids && t[j] in ids && Precedes(ids[t[i]], ids[t[j]]) {
      var i', j' := if i < |a| then i else i + 1, if j < |a| then j else j + 1;
      assert s[i'] == t[i] && s[j'] == t[j];
    }
    forall i | 0 <= i < |t| ensures t[i] in ids {
      assert s[if i < |a| then i else i + 1] == t[i];
    }
  }

  // An ordered tree has one entry for a name at most: it is a map from names to entries.
  lemma IsMap(ids: Ids, s: seq<Node>, hash: string -> nat, i: nat, j: nat)
    requires Ordered(ids, s) && (forall k :: 0 <= k < |s| ==> ids[s[k]].hash == hash(ids[s[k]].name)) && i < |s|
        && j < |s|
    ensures ids[s[i]].name == ids[s[j]].name ==> i == j
  {
    PrecedesTotal(ids[s[i]], ids[s[j]]);
    if i < j { assert Precedes(ids[s[i]], ids[s[j]]); }
    if j < i { assert Precedes(ids[s[j]], ids[s[i]]); }
  }
}
