/** ngx_queue_t of ngx_queue.h and ngx_queue.c: circular lists that are threaded through their elements. */
module Queue {
  class Node {
    var prev: Node
    var next: Node

    // ngx_queue_init
    constructor ()
      ensures Ring([this])
    {
      prev, next := this, this;
      new;
      AllDistinct([this]);
      Open([this]);
    }
  }

  // ---------- rings ----------

  ghost function Nodes(c: seq<Node>): set<Node> {
    set x | x in c
  }

  ghost function Repeats(c: seq<Node>): set<(int, int)> {
    set i, j | 0 <= i < j < |c| && c[i] == c[j] :: (i, j)
  }

  ghost predicate Distinct(c: seq<Node>) {
    Repeats(c) == {}
  }

  lemma AllDistinct(c: seq<Node>)
    ensures Distinct(c) <==> forall i, j :: 0 <= i < j < |c| ==> c[i] != c[j]
  {
    forall i, j | 0 <= i < j < |c| ensures Distinct(c) ==> c[i] != c[j] { assert (i, j) !in Repeats(c)
        || c[i] == c[j]; }
  }

  // s holds the fields of the nodes of c
  ghost predicate Next(c: seq<Node>, s: seq<Node>)
    reads Nodes(c)`next
  {
    |s| == |c| && forall i :: 0 <= i < |c| ==> c[i].next == s[i]
  }

  ghost predicate Prev(c: seq<Node>, s: seq<Node>)
    reads Nodes(c)`prev
  {
    |s| == |c| && forall i :: 0 <= i < |c| ==> c[i].prev == s[i]
  }

  // What they are in a circle
  ghost function Ahead(c: seq<Node>): (s: seq<Node>)
    requires |c| > 0
    ensures |s| == |c|
  {
    c[1..] + [c[0]]
  }

  ghost function Behind(c: seq<Node>): (s: seq<Node>)
    requires |c| > 0
    ensures |s| == |c|
  {
    [c[|c| - 1]] + c[..|c| - 1]
  }

  // The nodes of c, in this order, are one circle: its first node is the sentinel of the queue, the others its
  // elements.
  ghost predicate Ring(c: seq<Node>)
    reads Nodes(c)
  {
    |c| > 0 && Distinct(c) && Gaps(c) == {}
  }

  // The places at which the nodes are not linked in this way
  ghost function Gaps(c: seq<Node>): set<int>
    requires |c| > 0
    reads Nodes(c)
  {
    set i | 0 <= i < |c| && !(c[i].next == Ahead(c)[i] && c[i].prev == Behind(c)[i])
  }

  lemma Open(c: seq<Node>)
    requires |c| > 0
    ensures Gaps(c) == {} <==> Next(c, Ahead(c)) && Prev(c, Behind(c))
  {
    if Gaps(c) == {} {
      forall i | 0 <= i < |c| ensures c[i].next == Ahead(c)[i] && c[i].prev == Behind(c)[i] { assert i !in Gaps(c); }
    }
  }

  // The k-th node is not at another place.
  lemma Once(c: seq<Node>, k: nat)
    requires Distinct(c) && k < |c|
    ensures forall i :: 0 <= i < |c| && i != k ==> c[i] != c[k]
  {
    forall i | 0 <= i < |c| && i != k ensures c[i] != c[k] {
      assert (i, k) !in Repeats(c) && (k, i) !in Repeats(c);
    }
  }

  // ---------- the macros ----------

  ghost function Inserted(c: seq<Node>, k: nat, x: Node): seq<Node>
    requires k < |c|
  {
    c[..k + 1] + [x] + c[k + 1..]
  }

  // The place after k
  ghost function Turn(c: seq<Node>, k: nat): (n: nat)
    requires k < |c|
    ensures n < |c|
  {
    if k + 1 == |c| then 0 else k + 1
  }

  lemma InsertedAhead(c: seq<Node>, k: nat, x: Node)
    requires k < |c|
    ensures Ahead(Inserted(c, k, x)) == Inserted(Ahead(c)[k := x], k, c[Turn(c, k)])
  {
    var p, q := Ahead(Inserted(c, k, x)), Inserted(Ahead(c)[k := x], k, c[Turn(c, k)]);
    assert |p| == |q|;
    forall i | 0 <= i < |p| ensures p[i] == q[i] {}
  }

  lemma InsertedBehind(c: seq<Node>, k: nat, x: Node)
    requires k < |c|
    ensures Behind(Inserted(c, k, x)) == Inserted(Behind(c)[Turn(c, k) := x], k, c[k])
  {
    var p, q := Behind(Inserted(c, k, x)), Inserted(Behind(c)[Turn(c, k) := x], k, c[k]);
    assert |p| == |q|;
    forall i | 0 <= i < |p| ensures p[i] == q[i] {}
  }

  lemma InsertedDistinct(c: seq<Node>, k: nat, x: Node)
    requires k < |c| && x !in c && Distinct(c)
    ensures Distinct(Inserted(c, k, x))
  {
    AllDistinct(c);
    AllDistinct(Inserted(c, k, x));
  }

  lemma InsertedNext(c: seq<Node>, s: seq<Node>, k: nat, x: Node, y: Node)
    requires k < |c| && Next(c, s) && x.next == y
    ensures Next(Inserted(c, k, x), Inserted(s, k, y))
  {
  }

  lemma InsertedPrev(c: seq<Node>, s: seq<Node>, k: nat, x: Node, y: Node)
    requires k < |c| && Prev(c, s) && x.prev == y
    ensures Prev(Inserted(c, k, x), Inserted(s, k, y))
  {
  }

  lemma InsertedRing(c: seq<Node>, k: nat, x: Node)
    requires k < |c| && x !in c && Distinct(c)
    requires Next(c, Ahead(c)[k := x]) && x.next == c[Turn(c, k)]
    requires Prev(c, Behind(c)[Turn(c, k) := x]) && x.prev == c[k]
    ensures Ring(Inserted(c, k, x))
  {
    InsertedDistinct(c, k, x);
    InsertedAhead(c, k, x);
    InsertedBehind(c, k, x);
    InsertedNext(c, Ahead(c)[k := x], k, x, c[Turn(c, k)]);
    InsertedPrev(c, Behind(c)[Turn(c, k) := x], k, x, c[k]);
    Open(Inserted(c, k, x));
  }

  lemma Neighbours(c: seq<Node>, k: nat)
    requires Ring(c) && k < |c|
    ensures c[k].next == c[Turn(c, k)] && c[Turn(c, k)].prev == c[k]
  {
    Open(c);
    assert c[k].next == Ahead(c)[k];
    assert c[Turn(c, k)].prev == Behind(c)[Turn(c, k)];
  }

  // ngx_queue_insert_head, which is ngx_queue_insert_after too: x is put behind the k-th node.
  method InsertAfter(ghost c: seq<Node>, ghost k: nat, h: Node, x: Node)
    requires Ring(c) && k < |c| && c[k] == h && x !in c
    modifies Nodes(c), x
    ensures Ring(Inserted(c, k, x))
  {
    Open(c);
    Neighbours(c, k);
    Once(c, k);
    Once(c, Turn(c, k));
    x.next := h.next;
    x.next.prev := x;
    x.prev := h;
    h.next := x;
    assert Next(c, Ahead(c)[k := x]);
    assert Prev(c, Behind(c)[Turn(c, k) := x]);
    InsertedRing(c, k, x);
  }

  // ngx_queue_insert_tail
  method InsertTail(ghost c: seq<Node>, h: Node, x: Node)
    requires Ring(c) && c[0] == h && x !in c
    modifies Nodes(c), x
    ensures Ring(c + [x])
  {
    ghost var k := |c| - 1;
    Open(c);
    Neighbours(c, k);
    Once(c, k);
    Once(c, 0);
    x.prev := h.prev;
    x.prev.next := x;
    x.next := h;
    h.prev := x;
    assert Next(c, Ahead(c)[k := x]);
    assert Prev(c, Behind(c)[0 := x]);
    InsertedRing(c, k, x);
    assert Inserted(c, k, x) == c + [x];
  }

  ghost function Removed(c: seq<Node>, k: nat): seq<Node>
    requires k < |c|
  {
    c[..k] + c[k + 1..]
  }

  lemma RemovedDistinct(c: seq<Node>, k: nat)
    requires k < |c| && Distinct(c)
    ensures Distinct(Removed(c, k))
  {
    AllDistinct(c);
    AllDistinct(Removed(c, k));
  }

  lemma RemovedNext(c: seq<Node>, s: seq<Node>, k: nat)
    requires k < |c| && Next(c, s)
    ensures Next(Removed(c, k), Removed(s, k))
  {
  }

  lemma RemovedPrev(c: seq<Node>, s: seq<Node>, k: nat)
    requires k < |c| && Prev(c, s)
    ensures Prev(Removed(c, k), Removed(s, k))
  {
  }

  lemma RemovedAhead(c: seq<Node>, k: nat)
    requires 0 < k < |c|
    ensures Ahead(Removed(c, k)) == Removed(Ahead(c)[k - 1 := c[Turn(c, k)]], k)
  {
    var p, q := Ahead(Removed(c, k)), Removed(Ahead(c)[k - 1 := c[Turn(c, k)]], k);
    assert |p| == |q|;
    forall i | 0 <= i < |p| ensures p[i] == q[i] {}
  }

  lemma RemovedBehind(c: seq<Node>, k: nat)
    requires 0 < k < |c|
    ensures Behind(Removed(c, k)) == Removed(Behind(c)[Turn(c, k) := c[k - 1]], k)
  {
    var p, q := Behind(Removed(c, k)), Removed(Behind(c)[Turn(c, k) := c[k - 1]], k);
    assert |p| == |q|;
    forall i | 0 <= i < |p| ensures p[i] == q[i] {}
  }

  lemma RemovedRing(c: seq<Node>, k: nat)
    requires 0 < k < |c| && Distinct(c)
    requires Next(c, Ahead(c)[k - 1 := c[Turn(c, k)]]) && Prev(c, Behind(c)[Turn(c, k) := c[k - 1]])
    ensures Ring(Removed(c, k))
  {
    RemovedDistinct(c, k);
    RemovedAhead(c, k);
    RemovedBehind(c, k);
    RemovedNext(c, Ahead(c)[k - 1 := c[Turn(c, k)]], k);
    RemovedPrev(c, Behind(c)[Turn(c, k) := c[k - 1]], k);
    Open(Removed(c, k));
  }

  // ngx_queue_remove
  method Remove(ghost c: seq<Node>, ghost k: nat, x: Node)
    requires Ring(c) && 0 < k < |c| && c[k] == x
    modifies Nodes(c)
    ensures Ring(Removed(c, k))
  {
    Open(c);
    Neighbours(c, k);
    Neighbours(c, k - 1);
    ghost var t := Turn(c, k);
    Once(c, k - 1);
    Once(c, t);
    x.next.prev := x.prev;
    x.prev.next := x.next;
    assert Next(c, Ahead(c)[k - 1 := c[t]]);
    assert Prev(c, Behind(c)[t := c[k - 1]]);
    RemovedRing(c, k);
  }

  // Each node is linked to the one that follows it.
  ghost predicate Inner(c: seq<Node>)
    reads Nodes(c)
  {
    |c| > 0 && forall i :: 0 <= i < |c| - 1 ==> c[i].next == c[i + 1] && c[i + 1].prev == c[i]
  }

  // Nodes on the way from x to y, which are not among them
  ghost predicate Path(x: Node, c: seq<Node>, y: Node)
    reads Nodes(c)
  {
    Inner(c) && c[0].prev == x && c[|c| - 1].next == y
  }

  lemma PathIs(x: Node, c: seq<Node>, y: Node)
    requires |c| > 0
    ensures Path(x, c, y) <==> Next(c, c[1..] + [y]) && Prev(c, [x] + c[..|c| - 1])
  {
    var s, t := c[1..] + [y], [x] + c[..|c| - 1];
    if Next(c, s) && Prev(c, t) {
      assert c[0].prev == t[0] && c[|c| - 1].next == s[|c| - 1];
      forall i | 0 <= i < |c| - 1 ensures c[i].next == c[i + 1] && c[i + 1].prev == c[i] {
        assert c[i].next == s[i] && c[i + 1].prev == t[i + 1];
      }
    }
    if Path(x, c, y) {
      forall i | 0 <= i < |c| ensures c[i].next == s[i] && c[i].prev == t[i] {
        assert i > 0 ==> c[i - 1 + 1].prev == c[i - 1];
      }
    }
  }

  lemma Cut(c: seq<Node>, s: seq<Node>, k: nat)
    requires k <= |c| == |s|
    ensures Next(c, s) <==> Next(c[..k], s[..k]) && Next(c[k..], s[k..])
    ensures Prev(c, s) <==> Prev(c[..k], s[..k]) && Prev(c[k..], s[k..])
  {
    assert c == c[..k] + c[k..] && s == s[..k] + s[k..];
  }

  // A ring is two paths, from the end of one to the start of the other.
  lemma Halves(a: seq<Node>, b: seq<Node>)
    requires |a| > 0 && |b| > 0
    ensures Ring(a + b) <==> Distinct(a + b) && Path(b[|b| - 1], a, b[0]) && Path(a[|a| - 1], b, a[0])
  {
    var c := a + b;
    assert c[..|a|] == a && c[|a|..] == b;
    Open(c);
    Cut(c, Ahead(c), |a|);
    Cut(c, Behind(c), |a|);
    PathIs(b[|b| - 1], a, b[0]);
    PathIs(a[|a| - 1], b, a[0]);
    assert Ahead(c)[..|a|] == a[1..] + [b[0]] && Ahead(c)[|a|..] == b[1..] + [a[0]];
    assert Behind(c)[..|a|] == [b[|b| - 1]] + a[..|a| - 1] && Behind(c)[|a|..] == [a[|a| - 1]] + b[..|b| - 1];
  }

  lemma Apart(a: seq<Node>, b: seq<Node>)
    ensures Distinct(a + b) <==> Distinct(a) && Distinct(b) && Nodes(a) !! Nodes(b)
  {
    var c := a + b;
    AllDistinct(c);
    AllDistinct(a);
    AllDistinct(b);
    if Distinct(c) {
      forall i, j | 0 <= i < |a| && 0 <= j < |b| ensures a[i] != b[j] { assert c[i] != c[|a| + j]; }
      forall i, j | 0 <= i < j < |a| ensures a[i] != a[j] { assert c[i] != c[j]; }
      forall i, j | 0 <= i < j < |b| ensures b[i] != b[j] { assert c[|a| + i] != c[|a| + j]; }
    } else if Nodes(a) !! Nodes(b) {
      forall i, j | 0 <= i < |a| && 0 <= j < |b| ensures a[i] != b[j] { assert a[i] in Nodes(a) && b[j] in Nodes(b); }
    }
  }

  lemma Whole(c: seq<Node>)
    requires |c| > 0 && Distinct(c)
    ensures Ring(c) <==> Path(c[|c| - 1], c, c[0])
  {
    Open(c);
    PathIs(c[|c| - 1], c, c[0]);
  }

  // ngx_queue_split
  method SplitLinks(ghost a: seq<Node>, ghost b: seq<Node>, ghost end: Node, ghost last: Node, h: Node, q: Node,
      n: Node)
    requires |a| > 0 && a[0] == h && a[|a| - 1] == end && |b| > 0 && b[0] == q && b[|b| - 1] == last
    requires Path(last, a, q) && Path(end, b, h) && Distinct(a) && Distinct(b)
    requires Nodes(a) !! Nodes(b) && n !in Nodes(a) && n !in Nodes(b)
    modifies h, q, n, end, last
    ensures Path(end, a, h) && Path(n, b, n) && Path(last, [n], q)
  {
    Once(a, 0);
    Once(a, |a| - 1);
    Once(b, 0);
    Once(b, |b| - 1);
    n.prev := h.prev;
    n.prev.next := n;
    n.next := q;
    h.prev := q.prev;
    h.prev.next := h;
    q.prev := n;
  }

  // q and what follows it become the queue n.
  method Split(ghost a: seq<Node>, ghost b: seq<Node>, h: Node, q: Node, n: Node)
    requires Ring(a + b) && |a| > 0 && a[0] == h && |b| > 0 && b[0] == q && n !in a + b
    modifies Nodes(a + b), n
    ensures Ring(a) && Ring([n] + b)
  {
    Halves(a, b);
    Apart(a, b);
    SplitLinks(a, b, a[|a| - 1], b[|b| - 1], h, q, n);
    Whole(a);
    AllDistinct([n]);
    Apart([n], b);
    Halves([n], b);
  }

  // ngx_queue_add
  method AddLinks(ghost a: seq<Node>, ghost b: seq<Node>, ghost end: Node, ghost first: Node, ghost last: Node,
      h: Node, n: Node)
    requires |a| > 0 && a[0] == h && a[|a| - 1] == end && Path(end, a, h) && Distinct(a) && n !in Nodes(a)
    requires n.next == first && n.prev == last
    requires |b| > 0 ==>
        b[0] == first && b[|b| - 1] == last && Path(n, b, n) && Distinct(b) && n !in Nodes(b) && Nodes(a) !! Nodes(b)
    requires |b| == 0 ==> first == n == last
    modifies h, n, end, first, last
    ensures |b| == 0 ==> Path(end, a, h)
    ensures |b| > 0 ==> Path(last, a, first) && Path(end, b, h)
  {
    Once(a, 0);
    Once(a, |a| - 1);
    if |b| > 0 {
      Once(b, 0);
      Once(b, |b| - 1);
    }
    h.prev.next := n.next;
    n.next.prev := h.prev;
    h.prev := n.prev;
    h.prev.next := h;
  }

  // The elements of n go to the end of h: what ngx_queue_split took apart is one again.
  method Add(ghost a: seq<Node>, ghost b: seq<Node>, h: Node, n: Node)
    requires Ring(a) && a[0] == h && Ring([n] + b) && Nodes(a) !! Nodes([n] + b)
    modifies Nodes(a), Nodes([n] + b)
    ensures Ring(a + b)
  {
    ghost var first, last := if b == [] then n else b[0], if b == [] then n else b[|b| - 1];
    Whole(a);
    Apart([n], b);
    Loop(n, b);
    assert n in Nodes([n] + b) && Nodes(b) <= Nodes([n] + b) && first in Nodes([n] + b) && last in Nodes([n] + b);
    AddLinks(a, b, a[|a| - 1], first, last, h, n);
    if b == [] {
      assert a + b == a;
      Whole(a);
    } else {
      Apart(a, b);
      Halves(a, b);
    }
  }

  // A queue is a way from its sentinel back to it.
  lemma Loop(n: Node, b: seq<Node>)
    requires Ring([n] + b)
    ensures b == [] ==> n.next == n == n.prev
    ensures b != [] ==> n.next == b[0] && n.prev == b[|b| - 1] && Path(n, b, n)
  {
    if b == [] {
      assert [n] + b == [n];
      Whole([n]);
    } else {
      Halves([n], b);
    }
  }

  // Split and then add: the queue is what it was, whatever n was before.
  method SplitAdd(ghost a: seq<Node>, ghost b: seq<Node>, h: Node, q: Node, n: Node)
    requires Ring(a + b) && |a| > 0 && a[0] == h && |b| > 0 && b[0] == q && n !in a + b
    modifies Nodes(a + b), n
    ensures Ring(a + b)
  {
    Apart(a, b);
    assert Nodes(a) <= Nodes(a + b) && Nodes([n] + b) == Nodes(b) + {n} && Nodes(b) <= Nodes(a + b);
    Split(a, b, h, q, n);
    Add(a, b, h, n);
  }

  // ---------- ngx_queue_middle ----------

  lemma Steps(h: Node, s: seq<Node>)
    requires Ring([h] + s) && s != []
    ensures h.next == s[0] && h.prev == s[|s| - 1] && s[|s| - 1].next == h
    ensures forall i :: 0 <= i < |s| - 1 ==> s[i].next == s[i + 1] && s[i] != s[|s| - 1]
  {
    Loop(h, s);
    Apart([h], s);
    Once(s, |s| - 1);
  }

  // One cursor is twice as fast as the other.
  method Middle(queue: Node, ghost s: seq<Node>) returns (middle: Node)
    requires Ring([queue] + s)
    ensures middle == if s == [] then queue else s[|s| / 2]
  {
    Loop(queue, s);
    if s != [] { Steps(queue, s); }
    middle := queue.next;
    if middle == queue.prev { return; }
    var next := queue.next;
    ghost var i := 0;
    while true
      invariant 0 <= 2 * i < |s| - 1 && middle == s[i] && next == s[2 * i]
      decreases |s| - i
    {
      assert s[i].next == s[i + 1] && s[2 * i].next == s[2 * i + 1]
          && (2 * i + 2 < |s| ==> s[2 * i + 1].next == s[2 * i + 2]);
      middle := middle.next;
      next := next.next;
      if next == queue.prev { return; }
      next := next.next;
      if next == queue.prev { return; }
      i := i + 1;
    }
  }

  // ---------- ngx_queue_sort ----------

  type Order = (Node, Node) -> int

  // The place of q: after the last element that is not greater
  ghost function Slot(cmp: Order, s: seq<Node>, q: Node): (k: nat)
    ensures k <= |s| && (k > 0 ==> cmp(s[k - 1], q) <= 0) && forall i :: k <= i < |s| ==> cmp(s[i], q) > 0
  {
    if s == [] then 0 else if cmp(s[|s| - 1], q) <= 0 then |s| else Slot(cmp, s[..|s| - 1], q)
  }

  ghost function Put(cmp: Order, s: seq<Node>, q: Node): seq<Node> {
    var k := Slot(cmp, s, q);
    s[..k] + [q] + s[k..]
  }

  ghost function Sorted(cmp: Order, s: seq<Node>): (r: seq<Node>)
    ensures |r| == |s|
  {
    if s == [] then [] else Put(cmp, Sorted(cmp, s[..|s| - 1]), s[|s| - 1])
  }

  ghost predicate Ordered(cmp: Order, s: seq<Node>) {
    forall i, j :: 0 <= i < j < |s| ==> cmp(s[i], s[j]) <= 0
  }

  // Where cmp fails to be a total preorder of the nodes in u; nodes may be equal in it
  ghost function Breaches(cmp: Order, u: set<Node>): set<(Node, Node, Node)> {
    set x, y, z | x in u && y in u && z in u &&
      ((cmp(x, y) > 0 && cmp(y, x) > 0) || (cmp(x, y) <= 0 && cmp(y, z) <= 0 && cmp(x, z) > 0)) :: (x, y, z)
  }

  ghost predicate Preorder(cmp: Order, u: set<Node>) {
    Breaches(cmp, u) == {}
  }

  lemma Laws(cmp: Order, u: set<Node>, x: Node, y: Node, z: Node)
    requires Preorder(cmp, u) && x in u && y in u && z in u
    ensures cmp(x, y) <= 0 || cmp(y, x) <= 0
    ensures cmp(x, y) <= 0 && cmp(y, z) <= 0 ==> cmp(x, z) <= 0
  {
    assert (x, y, z) !in Breaches(cmp, u);
  }

  // The elements that are equal to x, in their order
  ghost function Equals(cmp: Order, s: seq<Node>, x: Node): seq<Node> {
    if s == [] then [] else Equals(cmp, s[..|s| - 1], x) + IfEqual(cmp, s[|s| - 1], x)
  }

  ghost function IfEqual(cmp: Order, e: Node, x: Node): seq<Node> {
    if cmp(e, x) <= 0 && cmp(x, e) <= 0 then [e] else []
  }

  lemma {:induction false} SortedSame(cmp: Order, s: seq<Node>)
    ensures multiset(Sorted(cmp, s)) == multiset(s)
  {
    if s != [] {
      var q, r := s[|s| - 1], Sorted(cmp, s[..|s| - 1]);
      SortedSame(cmp, s[..|s| - 1]);
      assert s == s[..|s| - 1] + [q];
      assert r == r[..Slot(cmp, r, q)] + r[Slot(cmp, r, q)..];
    }
  }

  lemma SameNodes(a: seq<Node>, b: seq<Node>)
    requires multiset(a) == multiset(b)
    ensures Nodes(a) == Nodes(b)
  {
    assert forall x :: x in a <==> x in multiset(a);
    assert forall x :: x in b <==> x in multiset(b);
  }

  lemma SortedNodes(cmp: Order, s: seq<Node>)
    ensures Nodes(Sorted(cmp, s)) == Nodes(s)
  {
    SortedSame(cmp, s);
    SameNodes(Sorted(cmp, s), s);
  }

  lemma PutPair(cmp: Order, u: set<Node>, s: seq<Node>, q: Node, i: nat)
    requires Preorder(cmp, u) && Ordered(cmp, s) && Nodes(s) <= u && q in u && i < |s|
    ensures if i < Slot(cmp, s, q) then cmp(s[i], q) <= 0 else cmp(q, s[i]) <= 0
  {
    var k := Slot(cmp, s, q);
    assert s[i] in Nodes(s);
    if i < k {
      assert s[k - 1] in Nodes(s);
      if i < k - 1 { Laws(cmp, u, s[i], s[k - 1], q); }
    } else {
      Laws(cmp, u, s[i], q, q);
    }
  }

  lemma PutInOrder(cmp: Order, u: set<Node>, s: seq<Node>, q: Node, i: nat, j: nat)
    requires Preorder(cmp, u) && Ordered(cmp, s) && Nodes(s) <= u && q in u && i < j <= |s|
    ensures cmp(Put(cmp, s, q)[i], Put(cmp, s, q)[j]) <= 0
  {
    var k := Slot(cmp, s, q);
    PutAt(cmp, s, q, i);
    PutAt(cmp, s, q, j);
    if i == k {
      PutPair(cmp, u, s, q, j - 1);
    } else if j == k {
      PutPair(cmp, u, s, q, i);
    }
  }

  lemma PutAt(cmp: Order, s: seq<Node>, q: Node, i: nat)
    requires i <= |s|
    ensures var k := Slot(cmp, s, q); Put(cmp, s, q)[i] == if i < k then s[i] else if i == k then q else s[i - 1]
  {
  }

  lemma PutOrdered(cmp: Order, u: set<Node>, s: seq<Node>, q: Node)
    requires Preorder(cmp, u) && Ordered(cmp, s) && Nodes(s) <= u && q in u
    ensures Ordered(cmp, Put(cmp, s, q))
  {
    forall i, j | 0 <= i < j <= |s| ensures cmp(Put(cmp, s, q)[i], Put(cmp, s, q)[j]) <= 0 {
      PutInOrder(cmp, u, s, q, i, j);
    }
  }

  lemma {:induction false} SortedOrdered(cmp: Order, u: set<Node>, s: seq<Node>)
    requires Preorder(cmp, u) && Nodes(s) <= u
    ensures Ordered(cmp, Sorted(cmp, s))
  {
    if s != [] {
      var q, t := s[|s| - 1], s[..|s| - 1];
      assert q in Nodes(s) && Nodes(t) <= Nodes(s);
      SortedOrdered(cmp, u, t);
      SortedNodes(cmp, t);
      PutOrdered(cmp, u, Sorted(cmp, t), q);
    }
  }

  lemma {:induction false} EqualsJoin(cmp: Order, a: seq<Node>, b: seq<Node>, x: Node)
    ensures Equals(cmp, a + b, x) == Equals(cmp, a, x) + Equals(cmp, b, x)
    decreases |b|
  {
    if b == [] {
      assert a + b == a;
    } else {
      EqualsJoin(cmp, a, b[..|b| - 1], x);
      assert (a + b)[..|a + b| - 1] == a + b[..|b| - 1];
    }
  }

  lemma {:induction false} NoEquals(cmp: Order, s: seq<Node>, x: Node)
    requires forall i :: 0 <= i < |s| ==> cmp(s[i], x) > 0 || cmp(x, s[i]) > 0
    ensures Equals(cmp, s, x) == []
  {
    if s != [] { NoEquals(cmp, s[..|s| - 1], x); }
  }

  lemma PutNoEquals(cmp: Order, u: set<Node>, s: seq<Node>, q: Node, x: Node)
    requires Preorder(cmp, u) && Nodes(s) <= u && q in u && x in u && cmp(q, x) <= 0 && cmp(x, q) <= 0
    ensures Equals(cmp, s[Slot(cmp, s, q)..], x) == []
  {
    var k := Slot(cmp, s, q);
    var t := s[k..];
    forall i | 0 <= i < |t| ensures cmp(t[i], x) > 0 || cmp(x, t[i]) > 0 {
      assert t[i] == s[k + i] && s[k + i] in Nodes(s) && cmp(s[k + i], q) > 0;
      Laws(cmp, u, t[i], x, q);
    }
    NoEquals(cmp, t, x);
  }

  lemma Around(cmp: Order, a: seq<Node>, q: Node, b: seq<Node>, x: Node)
    ensures Equals(cmp, a + [q] + b, x) == Equals(cmp, a, x) + IfEqual(cmp, q, x) + Equals(cmp, b, x)
    ensures Equals(cmp, a + b, x) == Equals(cmp, a, x) + Equals(cmp, b, x)
  {
    EqualsJoin(cmp, a + [q], b, x);
    EqualsJoin(cmp, a, b, x);
    assert (a + [q])[..|a|] == a;
  }

  lemma Late(a: seq<Node>, e: seq<Node>, b: seq<Node>)
    ensures e == [] || b == [] ==> a + e + b == a + b + e
  {
  }

  lemma PutStable(cmp: Order, u: set<Node>, s: seq<Node>, q: Node, x: Node)
    requires Preorder(cmp, u) && Nodes(s) <= u && q in u && x in u
    ensures Equals(cmp, Put(cmp, s, q), x) == Equals(cmp, s, x) + IfEqual(cmp, q, x)
  {
    var k := Slot(cmp, s, q);
    var a, b := s[..k], s[k..];
    Around(cmp, a, q, b, x);
    assert a + b == s;
    Late(Equals(cmp, a, x), IfEqual(cmp, q, x), Equals(cmp, b, x));
    if IfEqual(cmp, q, x) != [] { PutNoEquals(cmp, u, s, q, x); }
  }

  // Elements that are equal keep their order.
  lemma {:induction false} SortedStable(cmp: Order, u: set<Node>, s: seq<Node>, x: Node)
    requires Preorder(cmp, u) && Nodes(s) <= u && x in u
    ensures Equals(cmp, Sorted(cmp, s), x) == Equals(cmp, s, x)
  {
    if s != [] {
      var q, t := s[|s| - 1], s[..|s| - 1];
      assert q in Nodes(s) && Nodes(t) <= Nodes(s);
      SortedStable(cmp, u, t, x);
      SortedNodes(cmp, t);
      PutStable(cmp, u, Sorted(cmp, t), q, x);
    }
  }

  // Going back from an element leads to the one before it, and from the first one to the sentinel.
  ghost predicate Backward(queue: Node, r: seq<Node>)
    reads Nodes(r)
  {
    forall i :: 0 <= i < |r| ==> r[i] != queue && r[i].prev == if i == 0 then queue else r[i - 1]
  }

  lemma GoBack(queue: Node, r: seq<Node>, rest: seq<Node>)
    requires Ring([queue] + (r + rest))
    ensures Backward(queue, r)
  {
    var c := [queue] + (r + rest);
    forall i | 0 <= i < |r| ensures r[i] != queue && r[i].prev == if i == 0 then queue else r[i - 1] {
      assert c[i + 1] == r[i] && (i > 0 ==> c[i] == r[i - 1]) && c[0] == queue;
      Neighbours(c, i);
      Once(c, 0);
    }
  }

  // The inner loop: back over the elements that are greater than q
  method Search(cmp: Order, queue: Node, ghost r: seq<Node>, last: Node, q: Node) returns (prev: Node, ghost k: nat)
    requires Backward(queue, r) && r != [] && last == r[|r| - 1]
    ensures k == Slot(cmp, r, q) && prev == if k == 0 then queue else r[k - 1]
  {
    prev, k := last, |r|;
    assert r[..k] == r;
    while cmp(prev, q) > 0
      invariant 0 < k <= |r| && prev == r[k - 1] && Slot(cmp, r[..k], q) == Slot(cmp, r, q)
      decreases k
    {
      assert r[..k][..k - 1] == r[..k - 1] && r[..k][k - 1] == prev;
      prev, k := prev.prev, k - 1;
      if prev == queue { return; }
    }
    assert r[..k][k - 1] == prev;
  }

  // What the queue is when the first n elements are sorted
  ghost function Partly(cmp: Order, h: Node, s: seq<Node>, n: nat): seq<Node>
    requires n <= |s|
  {
    [h] + (Sorted(cmp, s[..n]) + s[n..])
  }

  lemma PartlyNodes(cmp: Order, h: Node, s: seq<Node>, n: nat)
    requires n <= |s|
    ensures Nodes(Partly(cmp, h, s, n)) == Nodes([h] + s)
  {
    SortedNodes(cmp, s[..n]);
    assert s == s[..n] + s[n..];
    assert forall x :: x in s[..n] <==> x in Nodes(Sorted(cmp, s[..n]));
  }

  // One element out and in again
  lemma Moved(h: Node, r: seq<Node>, q: Node, rest: seq<Node>, k: nat)
    requires k <= |r|
    ensures Removed([h] + (r + ([q] + rest)), |r| + 1) == [h] + (r + rest)
    ensures Inserted([h] + (r + rest), k, q) == [h] + ((r[..k] + [q] + r[k..]) + rest)
  {
    var c, d := [h] + (r + ([q] + rest)), [h] + (r + rest);
    assert c[..|r| + 1] == [h] + r && c[|r| + 2..] == rest;
    assert d[..k + 1] == [h] + r[..k] && d[k + 1..] == r[k..] + rest;
  }

  lemma SortedNext(cmp: Order, s: seq<Node>, n: nat)
    requires n < |s|
    ensures Sorted(cmp, s[..n + 1]) == Put(cmp, Sorted(cmp, s[..n]), s[n])
  {
    assert s[..n + 1][..n] == s[..n];
  }

  lemma OneSorted(cmp: Order, h: Node, s: seq<Node>, n: nat)
    requires 0 < n < |s|
    ensures var c := Partly(cmp, h, s, n); var r := Sorted(cmp, s[..n]); var d := [h] + (r + s[n + 1..]);
      && |c| == |s| + 1 && Removed(c, n + 1) == d
      && Inserted(d, Slot(cmp, r, s[n]), s[n]) == Partly(cmp, h, s, n + 1)
  {
    var r, q := Sorted(cmp, s[..n]), s[n];
    SortedNext(cmp, s, n);
    assert s[n..] == [q] + s[n + 1..];
    Moved(h, r, q, s[n + 1..], Slot(cmp, r, q));
  }

  // Where the element is
  lemma PartlyAt(cmp: Order, h: Node, s: seq<Node>, n: nat)
    requires 0 < n < |s| && Ring(Partly(cmp, h, s, n))
    ensures s[n].prev == Sorted(cmp, s[..n])[n - 1] && s[n].next == if n + 1 < |s| then s[n + 1] else h
    ensures Partly(cmp, h, s, n)[n + 1] == s[n]
  {
    var c, r := Partly(cmp, h, s, n), Sorted(cmp, s[..n]);
    assert c[n] == r[n - 1] && c[n + 1] == s[n] && (n + 1 < |s| ==> c[n + 2] == s[n + 1]) && c[0] == h;
    Neighbours(c, n);
    Neighbours(c, n + 1);
  }

  lemma NotAnother(c: seq<Node>, k: nat)
    requires Distinct(c) && k < |c|
    ensures c[k] !in Removed(c, k)
  {
    Once(c, k);
  }

  // One turn of the outer loop: the first element that is not sorted yet is moved to its place.
  method SortOne(cmp: Order, queue: Node, ghost s: seq<Node>, ghost n: nat, q: Node) returns (next: Node)
    requires 0 < n < |s| && q == s[n] && Ring(Partly(cmp, queue, s, n))
    modifies Nodes([queue] + s)
    ensures Ring(Partly(cmp, queue, s, n + 1)) && next == if n + 1 < |s| then s[n + 1] else queue
  {
    ghost var c, r, k := Partly(cmp, queue, s, n), Sorted(cmp, s[..n]), 0;
    ghost var d := [queue] + (r + s[n + 1..]);
    OneSorted(cmp, queue, s, n);
    PartlyNodes(cmp, queue, s, n);
    PartlyAt(cmp, queue, s, n);
    NotAnother(c, n + 1);
    var prev := q.prev;
    next := q.next;
    Remove(c, n + 1, q);
    GoBack(queue, r, s[n + 1..]);
    prev, k := Search(cmp, queue, r, prev, q);
    assert Nodes(d) <= Nodes(c) && q in Nodes(c);
    InsertAfter(d, k, prev, q);
  }

  lemma SingleSorted(cmp: Order, x: Node)
    ensures Sorted(cmp, [x]) == [x]
  {
    assert [x][..0] == [];
  }

  lemma SortStart(cmp: Order, h: Node, s: seq<Node>)
    requires s != []
    ensures Partly(cmp, h, s, 1) == [h] + s
  {
    var x := s[0];
    assert s[..1] == [x];
    SingleSorted(cmp, x);
    assert s == [x] + s[1..];
  }

  lemma SortEnd(cmp: Order, h: Node, s: seq<Node>)
    ensures Partly(cmp, h, s, |s|) == [h] + Sorted(cmp, s)
  {
    assert s[..|s|] == s;
    var r := Sorted(cmp, s);
    assert r + s[|s|..] == r;
  }

  // The stable insertion sort
  method Sort(cmp: Order, queue: Node, ghost s: seq<Node>)
    requires Ring([queue] + s)
    modifies Nodes([queue] + s)
    ensures Ring([queue] + Sorted(cmp, s))
  {
    Loop(queue, s);
    if s != [] {
      Steps(queue, s);
      SortStart(cmp, queue, s);
      SortEnd(cmp, queue, s);
    }
    Apart([queue], s);
    assert forall i :: 0 <= i < |s| ==> s[i] in Nodes(s);
    assert queue in Nodes([queue]);
    var q := queue.next;
    if q == queue.prev { return; }
    q := q.next;
    ghost var n := 1;
    while q != queue
      invariant 0 < n <= |s| && Ring(Partly(cmp, queue, s, n)) && q == if n < |s| then s[n] else queue
      decreases |s| - n
    {
      q := SortOne(cmp, queue, s, n, q);
      n := n + 1;
    }
  }
}
