/** ngx_radix_tree.c for 32-bit keys: a binary trie over the leading bits of a key, with nodes that go
    through a free list. */
module Radix {
  const NO_VALUE: int := 0xFFFF_FFFF_FFFF_FFFF
  type Path = seq<bool>

  // A 32-bit word, by its bits from the highest one.  A bit of the program, 0x80000000 and its shifts, is
  // a position here; it has become zero at the position 32.
  type Word = w: seq<bool> | |w| == 32 witness seq(32, i => false)

  const ALL: Word := seq(32, i => true)

  predicate On(w: Word, bit: nat) {
    bit < 32 && w[bit]
  }

  // The bits of a key under the leading ones of a mask, from the given bit on
  function Bits(key: Word, mask: Word, bit: nat): Path
    decreases 32 - bit
  {
    if !On(mask, bit) then [] else [On(key, bit)] + Bits(key, mask, bit + 1)
  }

  lemma {:induction false} BitsWidth(key: Word, mask: Word, bit: nat)
    requires bit <= 32
    ensures |Bits(key, mask, bit)| <= 32 - bit && |Bits(key, ALL, bit)| == 32 - bit
    decreases 32 - bit
  {
    if bit < 32 { BitsWidth(key, mask, bit + 1); }
  }

  // The length of the prefix that a mask stands for: its leading bits are set, and the next one is not.
  function Ones(mask: Word, n: nat): (k: nat)
    requires n <= 32 && forall i :: 0 <= i < n ==> mask[i]
    ensures n <= k <= 32 && (forall i :: 0 <= i < k ==> mask[i]) && (k < 32 ==> !mask[k])
    decreases 32 - n
  {
    if n < 32 && mask[n] then Ones(mask, n + 1) else n
  }

  // The mask of a prefix of n bits
  predicate Leading(mask: Word, n: nat) {
    n <= 32 && forall i :: 0 <= i < 32 ==> (mask[i] <==> i < n)
  }

  // The prefix of a key under a mask
  function Prefix(key: Word, mask: Word): (p: Path)
    ensures forall n: nat :: Leading(mask, n) ==> p == key[..n]
  {
    assert forall n: nat :: Leading(mask, n) ==> Ones(mask, 0) == n by {
      forall n: nat | Leading(mask, n) ensures Ones(mask, 0) == n { LeadingOnes(mask, n); }
    }
    key[..Ones(mask, 0)]
  }

  lemma LeadingOnes(mask: Word, n: nat)
    requires Leading(mask, n)
    ensures Ones(mask, 0) == n
  {
    var k := Ones(mask, 0);
    assert n < 32 ==> !mask[n];
    assert k < 32 ==> !mask[k];
  }

  lemma {:induction false} BitsFrom(key: Word, mask: Word, bit: nat, n: nat)
    requires bit <= n <= 32 && (forall i :: bit <= i < n ==> mask[i]) && (n < 32 ==> !mask[n])
    ensures Bits(key, mask, bit) == key[bit..n]
    decreases n - bit
  {
    if bit < n {
      BitsFrom(key, mask, bit + 1, n);
      assert key[bit..n] == [key[bit]] + key[bit + 1..n];
    }
  }

  // The bits that the loops look at are those of the prefix, and in a lookup all of them.
  lemma BitsAre(key: Word, mask: Word)
    ensures Bits(key, mask, 0) == Prefix(key, mask) && Bits(key, ALL, 0) == key
  {
    BitsFrom(key, mask, 0, Ones(mask, 0));
    BitsFrom(key, ALL, 0, 32);
    assert key[0..32] == key;
  }

  // Two prefixes are the same if and only if they have the same length and the same leading bits.
  lemma SamePrefix(key: Word, mask: Word, key': Word, mask': Word)
    ensures (Prefix(key, mask) == Prefix(key', mask') <==>
             Ones(mask, 0) == Ones(mask', 0) && forall i :: 0 <= i < Ones(mask, 0) ==> key[i] == key'[i])
  {
    var p, p' := Prefix(key, mask), Prefix(key', mask');
    if p == p' {
      forall i | 0 <= i < Ones(mask, 0) ensures key[i] == key'[i] { assert p[i] == p'[i]; }
    }
  }

  // The value of the stored prefix that has the most leading bits in common with the key
  ghost predicate Found(m: map<Path, int>, key: Word, value: int) {
    if value == NO_VALUE then forall n :: 0 <= n <= 32 ==> key[..n] !in m
    else exists n :: 0 <= n <= 32 && key[..n] in m && m[key[..n]] == value && forall k :: n < k <= 32 ==> key[..k] !in m
  }

  lemma LongestFound(m: map<Path, int>, key: Word)
    requires forall q :: q in m ==> m[q] != NO_VALUE
    ensures Found(m, key, Longest(m, key))
  {
    LongestIs(m, key);
  }

  // The value of the longest prefix of a path
  ghost function Longest(m: map<Path, int>, p: Path): int {
    if p in m then m[p] else if p == [] then NO_VALUE else Longest(m, p[..|p| - 1])
  }

  // Which is what it says
  lemma {:induction false} LongestIs(m: map<Path, int>, p: Path)
    requires forall q :: q in m ==> m[q] != NO_VALUE
    ensures (Longest(m, p) == NO_VALUE <==> forall i :: 0 <= i <= |p| ==> p[..i] !in m)
    ensures (Longest(m, p) != NO_VALUE ==>
             exists i :: 0 <= i <= |p| && p[..i] in m && m[p[..i]] == Longest(m, p) && forall j :: i < j <= |p| ==>
                 p[..j] !in m)
  {
    assert p[..|p|] == p;
    if p !in m && p != [] {
      var r := p[..|p| - 1];
      assert forall i :: 0 <= i <= |r| ==> r[..i] == p[..i];
      LongestIs(m, r);
      if Longest(m, p) != NO_VALUE {
        var i :| 0 <= i <= |r| && r[..i] in m && m[r[..i]] == Longest(m, r) && forall j :: i < j <= |r| ==>
            r[..j] !in m;
        assert p[..i] in m && m[p[..i]] == Longest(m, p);
        forall j | i < j <= |p| ensures p[..j] !in m { assert j <= |r| ==> p[..j] == r[..j]; }
      }
    }
  }

  // Prefixes that are not stored do not matter.
  lemma {:induction false} LongestShort(m: map<Path, int>, p: Path, q: Path)
    requires p <= q && forall i :: |p| < i <= |q| ==> q[..i] !in m
    ensures Longest(m, q) == Longest(m, p)
  {
    if |q| > |p| {
      assert q == q[..|q|];
      var r := q[..|q| - 1];
      assert forall i :: 0 <= i <= |r| ==> r[..i] == q[..i];
      LongestShort(m, p, r);
    } else {
      assert q == p;
    }
  }

  // ---------- nodes ----------

  class Node {
    var right: Node?
    var left: Node?
    var parent: Node?
    var value: int
    constructor () {}
  }

  // The fields of a node, and the nodes by their paths
  datatype Cell = Cell(right: Node?, left: Node?, parent: Node?, value: int)
  type Places = map<Path, Node>
  type Cells = map<Path, Cell>

  ghost function Child(at: Places, p: Path): Node? {
    if p in at then at[p] else null
  }

  ghost function Above(at: Places, p: Path): Node? {
    if p == [] then null else Child(at, p[..|p| - 1])
  }

  ghost predicate Linked(at: Places, c: Cell, p: Path) {
    c.right == Child(at, p + [true]) && c.left == Child(at, p + [false]) && c.parent == Above(at, p)
  }

  // The nodes whose links are wrong
  ghost function Unlinked(at: Places, cells: Cells): set<Path> {
    set p | p in at && !(p in cells && Linked(at, cells[p], p))
  }

  ghost predicate Injective(at: Places) {
    forall p, q :: p in at && q in at && at[p] == at[q] ==> p == q
  }

  ghost predicate Closed(at: Places) {
    [] in at && forall p :: p in at ==> |p| <= 32 && (p != [] ==> p[..|p| - 1] in at)
  }

  ghost predicate Shape(at: Places, cells: Cells) {
    cells.Keys == at.Keys && Unlinked(at, cells) == {} && Injective(at) && Closed(at)
  }

  // The prefixes that are stored
  ghost function Stored(cells: Cells): map<Path, int> {
    map p | p in cells && cells[p].value != NO_VALUE :: cells[p].value
  }

  // Leaves without a value, other than the root
  ghost function Bare(cells: Cells): set<Path> {
    set p | p in cells && p != [] && cells[p].right == null && cells[p].left == null && cells[p].value == NO_VALUE
  }

  lemma {:induction false} ClosedAll(at: Places, p: Path, i: nat)
    requires Closed(at) && p in at && i <= |p|
    ensures p[..i] in at
    decreases |p|
  {
    if i == |p| {
      assert p[..i] == p;
    } else {
      ClosedAll(at, p[..|p| - 1], i);
      assert p[..|p| - 1][..i] == p[..i];
    }
  }

  // Nothing is stored below a place without a node.
  lemma LongestAt(at: Places, cells: Cells, p: Path, q: Path)
    requires Shape(at, cells) && p <= q && (|p| < |q| ==> q[..|p| + 1] !in at)
    ensures Longest(Stored(cells), q) == Longest(Stored(cells), p)
  {
    forall i | |p| < i <= |q|
      ensures q[..i] !in Stored(cells)
    {
      assert q[..i][..|p| + 1] == q[..|p| + 1];
      if q[..i] in at { ClosedAll(at, q[..i], |p| + 1); }
    }
    LongestShort(Stored(cells), p, q);
  }

  // ---------- one more node, one less ----------

  ghost function Turn(c: Cell, b: bool, n: Node?): Cell {
    if b then c.(right := n) else c.(left := n)
  }

  lemma Snoc(q: Path, x: bool, p: Path, b: bool)
    ensures q + [x] == p + [b] <==> q == p && x == b
    ensures (q + [x])[..|q|] == q
  {
    assert (q + [x])[..|q|] == q && (p + [b])[..|p|] == p;
    if q + [x] == p + [b] { assert (q + [x])[|q|] == (p + [b])[|p|]; }
  }

  lemma NoChildren(at: Places, r: Path)
    requires Closed(at) && r !in at
    ensures r + [true] !in at && r + [false] !in at
  {
    Snoc(r, true, r, true);
    Snoc(r, false, r, false);
  }

  // The cells and the places after a node has been added below p, and after it has been removed
  ghost function AddAt(at: Places, p: Path, b: bool, n: Node): Places {
    at[p + [b] := n]
  }

  ghost function AddCells(at: Places, cells: Cells, p: Path, b: bool, n: Node): Cells
    requires p in at && p in cells
  {
    cells[p := Turn(cells[p], b, n)][p + [b] := Cell(null, null, at[p], NO_VALUE)]
  }

  ghost function RemoveCells(cells: Cells, p: Path, b: bool): Cells
    requires p in cells
  {
    cells[p := Turn(cells[p], b, null)] - {p + [b]}
  }

  lemma LinkedAt(at: Places, cells: Cells, q: Path)
    requires Shape(at, cells) && q in at
    ensures q in cells && Linked(at, cells[q], q)
  {
    assert q !in Unlinked(at, cells);
  }

  lemma AddLinked(at: Places, cells: Cells, p: Path, b: bool, n: Node, q: Path)
    requires Shape(at, cells) && p in at && p + [b] !in at && q in AddAt(at, p, b, n)
    ensures q in AddCells(at, cells, p, b, n) && Linked(AddAt(at, p, b, n), AddCells(at, cells, p, b, n)[q], q)
  {
    var r := p + [b];
    Snoc(q, true, p, b);
    Snoc(q, false, p, b);
    Snoc(p, b, p, b);
    ChildMore(at, r, n, q + [true]);
    ChildMore(at, r, n, q + [false]);
    if q != [] { ChildMore(at, r, n, q[..|q| - 1]); }
    if q == r {
      NoChildren(at, r);
    } else {
      LinkedAt(at, cells, q);
    }
  }

  lemma ChildMore(at: Places, r: Path, n: Node, s: Path)
    ensures Child(at[r := n], s) == if s == r then n else Child(at, s)
  {}

  lemma AddShape(at: Places, cells: Cells, p: Path, b: bool, n: Node)
    requires Shape(at, cells) && p in at && p + [b] !in at && |p| < 32 && forall q :: q in at ==> at[q] != n
    ensures Shape(AddAt(at, p, b, n), AddCells(at, cells, p, b, n))
  {
    var at', cells' := AddAt(at, p, b, n), AddCells(at, cells, p, b, n);
    forall q | q in at' ensures q in cells' && Linked(at', cells'[q], q) { AddLinked(at, cells, p, b, n, q); }
    assert Unlinked(at', cells') == {};
    Snoc(p, b, p, b);
  }

  ghost predicate Leaf(at: Places, r: Path) {
    r in at && r + [true] !in at && r + [false] !in at
  }

  lemma NotBelow(at: Places, r: Path, q: Path)
    requires Leaf(at, r) && q in at && q != []
    ensures q[..|q| - 1] != r
  {
    var w := q[..|q| - 1];
    if q[|q| - 1] { assert q == w + [true]; } else { assert q == w + [false]; }
  }

  lemma ChildLess(at: Places, r: Path, s: Path)
    ensures Child(at - {r}, s) == if s == r then null else Child(at, s)
  {}

  lemma RemoveLinked(at: Places, cells: Cells, p: Path, b: bool, q: Path)
    requires Shape(at, cells) && p in at && Leaf(at, p + [b]) && q in at && q != p + [b]
    ensures q in RemoveCells(cells, p, b) && Linked(at - {p + [b]}, RemoveCells(cells, p, b)[q], q)
  {
    Snoc(q, true, p, b);
    Snoc(q, false, p, b);
    LinkedAt(at, cells, q);
    ChildLess(at, p + [b], q + [true]);
    ChildLess(at, p + [b], q + [false]);
    if q != [] {
      NotBelow(at, p + [b], q);
      ChildLess(at, p + [b], q[..|q| - 1]);
    }
  }

  lemma RemoveShape(at: Places, cells: Cells, p: Path, b: bool)
    requires Shape(at, cells) && p in at && Leaf(at, p + [b])
    ensures Shape(at - {p + [b]}, RemoveCells(cells, p, b))
  {
    var at', cells' := at - {p + [b]}, RemoveCells(cells, p, b);
    forall q | q in at' ensures q in cells' && Linked(at', cells'[q], q) { RemoveLinked(at, cells, p, b, q); }
    assert Unlinked(at', cells') == {};
    forall q | q in at' && q != [] ensures q[..|q| - 1] in at' { NotBelow(at, p + [b], q); }
  }

  // Empty when the nodes are linked as they should be
  ghost function Crooked(at: Places, cells: Cells): set<Cells> {
    set c | c in {cells} && !Shape(at, c)
  }

  lemma Straight(at: Places, cells: Cells)
    ensures Crooked(at, cells) == {} <==> Shape(at, cells)
  {
    assert cells in Crooked(at, cells) <==> !Shape(at, cells);
  }

  lemma AddStraight(at: Places, cells: Cells, p: Path, b: bool, n: Node)
    requires Crooked(at, cells) == {} && p in at && p + [b] !in at && |p| < 32 && n !in at.Values
    ensures p in cells && Crooked(AddAt(at, p, b, n), AddCells(at, cells, p, b, n)) == {}
    ensures forall q :: q in at && at[q] == at[p] ==> q == p
  {
    Straight(at, cells);
    AddShape(at, cells, p, b, n);
    Straight(AddAt(at, p, b, n), AddCells(at, cells, p, b, n));
  }

  ghost function Last(freed: seq<Node>): Node? {
    if freed == [] then null else freed[|freed| - 1]
  }

  lemma RemoveStraight(at: Places, cells: Cells, p: Path, b: bool)
    requires Crooked(at, cells) == {} && p in at && Leaf(at, p + [b])
    ensures p in cells && Crooked(at - {p + [b]}, RemoveCells(cells, p, b)) == {}
    ensures p + [b] in cells && cells[p + [b]].parent == at[p] && (cells[p].right == at[p + [b]] <==> b)
    ensures forall q :: q in at && (at[q] == at[p] || at[q] == at[p + [b]]) ==> q == p || q == p + [b]
    ensures at[p] != at[p + [b]] && p + [b] != [] && p + [b] != p
  {
    Straight(at, cells);
    RemoveShape(at, cells, p, b);
    Straight(at - {p + [b]}, RemoveCells(cells, p, b));
    LinkedAt(at, cells, p);
    LinkedAt(at, cells, p + [b]);
    Snoc(p, b, p, true);
    assert |p + [b]| != |p|;
  }

  lemma ValueStraight(at: Places, cells: Cells, p: Path, value: int)
    requires Crooked(at, cells) == {} && p in at
    ensures p in cells && Crooked(at, cells[p := cells[p].(value := value)]) == {}
    ensures forall q :: q in at && at[q] == at[p] ==> q == p
  {
    Straight(at, cells);
    var cells' := cells[p := cells[p].(value := value)];
    forall q | q in at ensures q in cells' && Linked(at, cells'[q], q) { LinkedAt(at, cells, q); }
    assert Unlinked(at, cells') == {};
    Straight(at, cells');
  }

  // The value found before the node at p is looked at
  ghost function Shorter(m: map<Path, int>, p: Path): int {
    if p == [] then NO_VALUE else Longest(m, p[..|p| - 1])
  }

  // One step down
  lemma FindStep(at: Places, cells: Cells, key: Word, p: Path, bit: nat, all: Path)
    requires Crooked(at, cells) == {} && p in at && |all| == 32 && all == p + Bits(key, ALL, bit)
    ensures (var b := On(key, bit);
             && p in cells && (if b then cells[p].right else cells[p].left) == Child(at, p + [b])
             && (p + [b] in at ==> all == p + [b] + Bits(key, ALL, bit + 1))
             && (p + [b] !in at ==> Longest(Stored(cells), all) == Longest(Stored(cells), p))
             && (if cells[p].value != NO_VALUE then cells[p].value else Shorter(Stored(cells), p))
                 == Longest(Stored(cells), p)
             && Shorter(Stored(cells), p + [b]) == Longest(Stored(cells), p))
  {
    var b := On(key, bit);
    Straight(at, cells);
    LinkedAt(at, cells, p);
    Snoc(p, b, p, b);
    BitsStep(key, ALL, p, bit, all);
    if p + [b] !in at { LongestAt(at, cells, p, all); }
  }

  lemma BitsStep(key: Word, mask: Word, p: Path, bit: nat, all: Path)
    requires all == p + Bits(key, mask, bit)
    ensures !On(mask, bit) ==> all == p
    ensures On(mask, bit) ==>
        (var q := p + [On(key, bit)]; all == q + Bits(key, mask, bit + 1) && |p| < |all| && all[..|p| + 1] == q)
  {}

  // ---------- what the steps keep ----------

  // One step down along a path
  lemma DownStep(at: Places, cells: Cells, key: Word, mask: Word, p: Path, bit: nat, path: Path)
    requires Crooked(at, cells) == {} && p in at && path == p + Bits(key, mask, bit) && On(mask, bit)
    ensures (var b := On(key, bit);
             && p in cells && (if b then cells[p].right else cells[p].left) == Child(at, p + [b])
             && path == p + [b] + Bits(key, mask, bit + 1) && |p| < |path|)
    ensures bit < 32
  {
    Straight(at, cells);
    LinkedAt(at, cells, p);
    BitsStep(key, mask, p, bit, path);
  }

  lemma NotStored(at: Places, cells: Cells, key: Word, mask: Word, p: Path, bit: nat)
    requires Crooked(at, cells) == {} && Bits(key, mask, 0) == p + Bits(key, mask, bit) && On(mask, bit)
        && p + [On(key, bit)] !in at
    ensures Bits(key, mask, 0) !in Stored(cells)
  {
    Straight(at, cells);
    var path := Bits(key, mask, 0);
    BitsStep(key, mask, p, bit, path);
    if path in at { ClosedAll(at, path, |p| + 1); }
  }

  lemma DownMissing(at: Places, cells: Cells, key: Word, mask: Word, p: Path, bit: nat, path: Path)
    requires Crooked(at, cells) == {} && path == p + Bits(key, mask, bit) && On(mask, bit)
    ensures p + [On(key, bit)] !in at ==> path !in at
  {
    Straight(at, cells);
    BitsStep(key, mask, p, bit, path);
    if path in at { ClosedAll(at, path, |p| + 1); }
  }

  // What the links of a node tell
  lemma UpFacts(at: Places, cells: Cells, p: Path)
    requires Crooked(at, cells) == {} && p in at
    ensures p in cells && (Leaf(at, p) <==> cells[p].right == null && cells[p].left == null)
        && (cells[p].parent == null <==> p == [])
  {
    Straight(at, cells);
    LinkedAt(at, cells, p);
  }

  lemma PruneStored(cells: Cells, q: Path, b: bool)
    requires q in cells && q + [b] in cells
    ensures Stored(RemoveCells(cells, q, b)) == Stored(cells) - {q + [b]}
  {
    assert |q| != |q + [b]|;
  }

  lemma PruneBare(cells: Cells, q: Path, b: bool)
    requires q in cells && q + [b] in cells && Bare(cells) <= {q + [b]}
    ensures Bare(RemoveCells(cells, q, b)) <= {q}
  {
    assert forall s :: s in Bare(RemoveCells(cells, q, b)) && s != q ==> s in Bare(cells);
  }

  lemma PruneFacts(at: Places, cells: Cells, q: Path, b: bool)
    requires Crooked(at, cells) == {} && Leaf(at, q + [b]) && Bare(cells) <= {q + [b]}
    ensures q in at && q in cells && q + [b] in cells && cells[q + [b]].parent == at[q] && q != q + [b]
    ensures Stored(RemoveCells(cells, q, b)) == Stored(cells) - {q + [b]} && Bare(RemoveCells(cells, q, b)) <= {q}
  {
    Straight(at, cells);
    Snoc(q, b, q, b);
    LinkedAt(at, cells, q + [b]);
    assert |q| != |q + [b]|;
    PruneStored(cells, q, b);
    PruneBare(cells, q, b);
  }

  lemma ClearKeeps(cells: Cells, p: Path)
    requires p in cells && Bare(cells) == {} && (cells[p].right != null || cells[p].left != null)
    ensures var cells' := cells[p := cells[p].(value := NO_VALUE)];
        Stored(cells') == Stored(cells) - {p} && Bare(cells') == {}
  {
    var cells' := cells[p := cells[p].(value := NO_VALUE)];
    assert p !in Bare(cells');
    assert Bare(cells') <= Bare(cells);
  }

  lemma AddStored(at: Places, cells: Cells, p: Path, b: bool, n: Node)
    requires p in at && p in cells && p + [b] !in cells
    ensures Stored(AddCells(at, cells, p, b, n)) == Stored(cells) && p + [b] !in Stored(cells)
  {
    assert |p| != |p + [b]|;
  }

  lemma AddBare(at: Places, cells: Cells, p: Path, b: bool, n: Node)
    requires p in at && p in cells && p + [b] !in cells && Bare(cells) <= {p}
    ensures Bare(AddCells(at, cells, p, b, n)) <= {p + [b]}
  {
    var r, cells' := p + [b], AddCells(at, cells, p, b, n);
    assert |p| != |r|;
    assert p !in Bare(cells');
    assert forall q :: q in Bare(cells') && q != r && q != p ==> q in Bare(cells);
  }

  lemma AddBelow(at: Places, p: Path, b: bool, n: Node, x: bool)
    requires Closed(at) && p + [b] !in at
    ensures p + [b] + [x] !in AddAt(at, p, b, n)
  {
    var r := p + [b];
    NoChildren(at, r);
    assert |r + [x]| != |r|;
    if x { assert r + [x] == r + [true]; } else { assert r + [x] == r + [false]; }
  }

  lemma AddKeeps(at: Places, cells: Cells, p: Path, b: bool, n: Node, x: bool)
    requires Crooked(at, cells) == {} && p in at && p in cells && p + [b] !in at && Bare(cells) <= {p}
    ensures Stored(AddCells(at, cells, p, b, n)) == Stored(cells) && Bare(AddCells(at, cells, p, b, n)) <= {p + [b]}
    ensures p + [b] !in Stored(cells) && p + [b] + [x] !in AddAt(at, p, b, n)
  {
    Straight(at, cells);
    AddStored(at, cells, p, b, n);
    AddBare(at, cells, p, b, n);
    AddBelow(at, p, b, n, x);
  }

  lemma ValueKeeps(cells: Cells, p: Path, value: int)
    requires p in cells && value != NO_VALUE && Bare(cells) <= {p}
    ensures var cells' := cells[p := cells[p].(value := value)];
        Stored(cells') == Stored(cells)[p := value] && Bare(cells') == {}
  {
    var cells' := cells[p := cells[p].(value := value)];
    assert p !in Bare(cells');
    assert Bare(cells') <= Bare(cells);
  }

  // The free list runs through the right links, from the last node that was freed to the first; its
  // nodes are not in the tree.
  ghost predicate FreeList(n: Node?, freed: seq<Node>, at: Places)
    reads set x | x in freed
  {
    && n == Last(freed)
    && (forall i :: 0 <= i < |freed| ==> freed[i] !in at.Values && freed[i].right == Last(freed[..i]))
    && (forall i, j :: 0 <= i < j < |freed| ==> freed[i] != freed[j])
  }

  // Empty when the free list is in order
  ghost function Stray(n: Node?, freed: seq<Node>, at: Places): set<Node?>
    reads set x | x in freed
  {
    set m | m in {n} && !FreeList(m, freed, at)
  }

  lemma NoStray(n: Node?, freed: seq<Node>, at: Places)
    ensures Stray(n, freed, at) == {} <==> FreeList(n, freed, at)
  {
    assert n in Stray(n, freed, at) <==> !FreeList(n, freed, at);
  }

  // Crash stands for following a null pointer.
  datatype Code = Ok | Busy | Error | Crash

  class RadixTree {
    var root: Node
    var free: Node?
    ghost var at: Places
    ghost var freed: seq<Node>

    ghost function Nodes(): set<Node>
      reads this`at, this`freed
    {
      at.Values + set x | x in freed
    }

    ghost function Cells(): Cells
      reads this`at, at.Values
    {
      map p | p in at :: Cell(at[p].right, at[p].left, at[p].parent, at[p].value)
    }

    // Linked as it should be; leaves may lack a value while an operation runs.
    ghost predicate Sound()
      reads this, Nodes()
    {
      && [] in at && at[[]] == root && Crooked(at, Cells()) == {}
      && Stray(free, freed, at) == {}
    }

    ghost predicate Valid()
      reads this, Nodes()
    {
      Sound() && Bare(Cells()) == {}
    }

    ghost function Contents(): map<Path, int>
      reads this`at, at.Values
    {
      Stored(Cells())
    }

    // ngx_radix_tree_create without preallocation
    constructor ()
      ensures Valid() && Contents() == map[] && fresh(Nodes())
    {
      root := new Node();
      free, freed := null, [];
      new;
      root.right, root.left, root.parent, root.value := null, null, null, NO_VALUE;
      at := map[[] := root];
      assert Unlinked(at, Cells()) == {};
      Straight(at, Cells());
      NoStray(free, freed, at);
    }

    // ngx_radix_alloc
    method Alloc() returns (n: Node)
      requires Sound()
      modifies this`free, this`freed
      ensures Stray(free, freed, at) == {}
      ensures n !in at.Values && n !in freed && (fresh(n) || n in old(freed)) && Nodes() <= old(Nodes())
    {
      NoStray(free, freed, at);
      if free != null {
        n := free;
        assert freed[|freed| - 1] == n && n.right == Last(freed[..|freed| - 1]);
        assert forall i :: 0 <= i < |freed| - 1 ==> freed[..|freed| - 1][..i] == freed[..i];
        free := free.right;
        freed := freed[..|freed| - 1];
      } else {
        n := new Node();
      }
      NoStray(free, freed, at);
    }

    method Link(ghost p: Path, node: Node, b: bool, next: Node)
      requires Crooked(at, Cells()) == {} && p in at && at[p] == node && p + [b] !in at && |p| < 32
      requires next !in at.Values && Cell(next.right, next.left, next.parent, next.value)
          == Cell(null, null, node, NO_VALUE)
      modifies this`at, node`right, node`left
      ensures Crooked(at, Cells()) == {} && at == old(at)[p + [b] := next]
      ensures Cells() == AddCells(old(at), old(Cells()), p, b, next)
    {
      ghost var cells := Cells();
      AddStraight(at, cells, p, b, next);
      if b { node.right := next; } else { node.left := next; }
      ghost var r := p + [b];
      at := at[r := next];
      forall q | q in at
        ensures Cells()[q] == AddCells(old(at), cells, p, b, next)[q]
      {
        if q != p && q != r { assert at[q] == old(at)[q] && at[q] != node && at[q] != next; }
      }
      assert Cells() == AddCells(old(at), cells, p, b, next);
    }

    method NewNode(parent: Node) returns (n: Node)
      requires Sound()
      modifies this`free, this`freed, set x | x in freed
      ensures Stray(free, freed, at) == {} && Cells() == old(Cells())
      ensures n !in at.Values && n !in freed && (fresh(n) || n in old(Nodes())) && Nodes() <= old(Nodes())
      ensures Cell(n.right, n.left, n.parent, n.value) == Cell(null, null, parent, NO_VALUE)
    {
      n := Alloc();
      Init(n, parent);
    }

    method Init(n: Node, parent: Node)
      modifies n
      ensures Cell(n.right, n.left, n.parent, n.value) == Cell(null, null, parent, NO_VALUE)
    {
      n.right, n.left, n.parent, n.value := null, null, parent, NO_VALUE;
    }

    // A node is added below another one.
    method AddChild(ghost p: Path, node: Node, b: bool) returns (next: Node)
      requires Sound() && p in at && at[p] == node && p + [b] !in at && |p| < 32
      modifies this`free, this`freed, this`at, Nodes()
      ensures Sound() && at == old(at)[p + [b] := next] && fresh(Nodes() - old(Nodes()))
      ensures Cells() == AddCells(old(at), old(Cells()), p, b, next)
    {
      next := NewNode(node);
      Link(p, node, b, next);
    }

    method Cut(ghost p: Path, ghost b: bool, node: Node)
      requires Crooked(at, Cells()) == {} && p in at && Leaf(at, p + [b]) && at[p + [b]] == node
      modifies this`at, at[p]
      ensures Crooked(at, Cells()) == {} && at == old(at) - {p + [b]} && node !in at.Values && node != old(at)[p]
          && p in at
      ensures Cells() == RemoveCells(old(Cells()), p, b)
    {
      ghost var cells, r := Cells(), p + [b];
      RemoveStraight(at, cells, p, b);
      if node.parent.right == node {
        node.parent.right := null;
      } else {
        node.parent.left := null;
      }
      at := at - {r};
      forall q | q in at
        ensures Cells()[q] == RemoveCells(cells, p, b)[q]
      {
        if q != p { assert at[q] != old(at)[p]; }
      }
      assert Cells() == RemoveCells(cells, p, b);
    }

    method Push(node: Node)
      requires FreeList(free, freed, at) && node !in at.Values && node !in freed
      modifies this`free, this`freed, node
      ensures Stray(free, freed, at) == {} && freed == old(freed) + [node] && Cells() == old(Cells())
    {
      node.right := free;
      free := node;
      ghost var before := freed;
      freed := freed + [node];
      assert forall i :: 0 <= i <= |before| ==> freed[..i] == before[..i];
      assert before[..|before|] == before;
      NoStray(free, freed, at);
    }

    // A leaf is cut off and goes to the free list.
    method CutLeaf(ghost p: Path, ghost b: bool, node: Node)
      requires Sound() && p in at && Leaf(at, p + [b]) && at[p + [b]] == node
      modifies this`free, this`freed, this`at, node, at[p]
      ensures Sound() && at == old(at) - {p + [b]} && freed == old(freed) + [node]
      ensures Cells() == RemoveCells(old(Cells()), p, b)
    {
      NoStray(free, freed, at);
      Cut(p, b, node);
      Push(node);
    }

    method SetValue(ghost p: Path, node: Node, value: int)
      requires Sound() && p in at && at[p] == node
      modifies node`value
      ensures Sound() && p in old(Cells()) && Cells() == old(Cells())[p := old(Cells())[p].(value := value)]
    {
      ghost var cells := Cells();
      ValueStraight(at, cells, p, value);
      node.value := value;
      forall q | q in at
        ensures Cells()[q] == cells[p := cells[p].(value := value)][q]
      {
        if q != p { assert at[q] != node; }
      }
      assert Cells() == cells[p := cells[p].(value := value)];
    }

    // ngx_radix32tree_find
    method Find(key: Word) returns (value: int)
      requires Valid()
      ensures Found(Contents(), key, value)
    {
      value := NO_VALUE;
      var node: Node? := root;
      var bit := 0;
      ghost var p: Path, all := [], Bits(key, ALL, 0);
      BitsWidth(key, ALL, 0);
      while node != null
        invariant node != null ==>
            p in at && at[p] == node && all == p + Bits(key, ALL, bit) && value == Shorter(Contents(), p)
        invariant node == null ==> value == Longest(Contents(), all)
        decreases if node == null then 0 else |all| - |p| + 1
      {
        FindStep(at, Cells(), key, p, bit, all);
        if node.value != NO_VALUE { value := node.value; }
        p := p + [On(key, bit)];
        if On(key, bit) { node := node.right; } else { node := node.left; }
        bit := bit + 1;
      }
      BitsAre(key, ALL);
      LongestFound(Contents(), key);
    }

    // The first loop of ngx_radix32tree_insert: down along the path as far as there are nodes
    method Descend(key: Word, mask: Word) returns (node: Node, bit: nat, found: bool, ghost p: Path)
      requires Valid()
      ensures p in at && at[p] == node && Bits(key, mask, 0) == p + Bits(key, mask, bit)
      ensures found ==> p == Bits(key, mask, 0)
      ensures !found ==> On(mask, bit) && p + [On(key, bit)] !in at
    {
      bit, node, p := 0, root, [];
      ghost var path := Bits(key, mask, 0);
      while On(mask, bit)
        invariant p in at && at[p] == node && path == p + Bits(key, mask, bit)
        decreases 32 - bit
      {
        DownStep(at, Cells(), key, mask, p, bit, path);
        var next := if On(key, bit) then node.right else node.left;
        if next == null { return node, bit, false, p; }
        p := p + [On(key, bit)];
        bit := bit + 1;
        node := next;
      }
      BitsStep(key, mask, p, bit, path);
      found := true;
    }

    method ExtendOne(key: Word, mask: Word, node: Node, bit: nat, ghost p: Path, ghost path: Path) returns (next: Node)
      requires Sound() && p in at && at[p] == node && path == p + Bits(key, mask, bit) && |path| <= 32
      requires On(mask, bit) && p + [On(key, bit)] !in at && Bare(Cells()) <= {p}
      modifies this`free, this`freed, this`at, Nodes()
      ensures Sound() && fresh(Nodes() - old(Nodes())) && Contents() == old(Contents())
      ensures (var q := p + [On(key, bit)];
               && q in at && at[q] == next && Bare(Cells()) <= {q} && q + [On(key, bit + 1)] !in at
               && path == q + Bits(key, mask, bit + 1))
    {
      ghost var at0, cells0 := at, Cells();
      DownStep(at, cells0, key, mask, p, bit, path);
      next := AddChild(p, node, On(key, bit));
      AddKeeps(at0, cells0, p, On(key, bit), next, On(key, bit + 1));
    }

    // Its second loop: nodes are added for the rest of the path.
    method Extend(key: Word, mask: Word, node0: Node, bit0: nat, ghost p0: Path) returns (node: Node)
      requires Valid() && p0 in at && at[p0] == node0 && Bits(key, mask, 0) == p0 + Bits(key, mask, bit0)
      requires On(mask, bit0) && p0 + [On(key, bit0)] !in at
      modifies this`free, this`freed, this`at, Nodes()
      ensures Sound() && fresh(Nodes() - old(Nodes()))
      ensures (var p := Bits(key, mask, 0); p in at && at[p] == node && Bare(Cells()) <= {p})
      ensures Contents() == old(Contents())
    {
      node := node0;
      var bit := bit0;
      ghost var p, path := p0, Bits(key, mask, 0);
      BitsWidth(key, mask, 0);
      while On(mask, bit)
        invariant bit <= 32 && Sound() && fresh(Nodes() - old(Nodes()))
        invariant p in at && at[p] == node && path == p + Bits(key, mask, bit) && p + [On(key, bit)] !in at
        invariant Contents() == old(Contents()) && Bare(Cells()) <= {p}
        decreases 32 - bit
      {
        node := ExtendOne(key, mask, node, bit, p, path);
        p := p + [On(key, bit)];
        bit := bit + 1;
      }
      BitsStep(key, mask, p, bit, path);
    }

    // ngx_radix32tree_insert
    method Insert(key: Word, mask: Word, value: int) returns (rc: Code)
      requires Valid() && value != NO_VALUE
      modifies this`free, this`freed, this`at, Nodes()
      ensures Valid() && fresh(Nodes() - old(Nodes()))
      ensures (var p := Prefix(key, mask);
               && rc == (if p in old(Contents()) then Busy else Ok)
               && Contents() == if rc == Busy then old(Contents()) else old(Contents())[p := value])
      ensures rc == Busy ==> at == old(at) && freed == old(freed) && Cells() == old(Cells())
    {
      BitsAre(key, mask);
      var node, bit, found;
      ghost var p;
      node, bit, found, p := Descend(key, mask);
      if found {
        if node.value != NO_VALUE { return Busy; }
      } else {
        NotStored(at, Cells(), key, mask, p, bit);
        node := Extend(key, mask, node, bit, p);
        p := Bits(key, mask, 0);
      }
      ghost var cells := Cells();
      ValueKeeps(cells, p, value);
      SetValue(p, node, value);
      return Ok;
    }

    // The first loop of ngx_radix32tree_delete
    method Locate(key: Word, mask: Word) returns (node: Node?)
      requires Valid()
      ensures node == Child(at, Bits(key, mask, 0))
    {
      node := root;
      var bit := 0;
      ghost var p, path: Path := [], Bits(key, mask, 0);
      while node != null && On(mask, bit)
        invariant bit <= 32
        invariant node != null ==> p in at && at[p] == node && path == p + Bits(key, mask, bit)
        invariant node == null ==> path !in at
        decreases 32 - bit
      {
        DownStep(at, Cells(), key, mask, p, bit, path);
        DownMissing(at, Cells(), key, mask, p, bit, path);
        if On(key, bit) { node := node.right; } else { node := node.left; }
        p := p + [On(key, bit)];
        bit := bit + 1;
      }
      if node != null { BitsStep(key, mask, p, bit, path); }
    }

    // One turn of the second loop: a leaf goes, and its parent may have become a leaf.
    method PruneOne(node: Node, ghost p: Path) returns (up: Node)
      requires Sound() && Leaf(at, p) && p != [] && at[p] == node && Bare(Cells()) <= {p}
      modifies this`free, this`freed, this`at, Nodes()
      ensures Sound() && Nodes() <= old(Nodes()) && Contents() == old(Contents()) - {p}
      ensures p[..|p| - 1] in at && at[p[..|p| - 1]] == up && Bare(Cells()) <= {p[..|p| - 1]}
    {
      ghost var q, b := p[..|p| - 1], p[|p| - 1];
      assert p == q + [b];
      ghost var cells := Cells();
      PruneFacts(at, cells, q, b);
      up := node.parent;
      CutLeaf(q, b, node);
    }

    // The second loop of ngx_radix32tree_delete
    method Prune(node0: Node, ghost p0: Path)
      requires Sound() && Leaf(at, p0) && p0 != [] && at[p0] == node0 && Bare(Cells()) <= {p0}
      modifies this`free, this`freed, this`at, Nodes()
      ensures Valid() && Nodes() <= old(Nodes()) && Contents() == old(Contents()) - {p0}
    {
      var node := node0;
      ghost var p := p0;
      ghost var rest := Contents() - {p0};
      while true
        invariant Sound() && Nodes() <= old(Nodes()) && Contents() - {p} == rest
        invariant Leaf(at, p) && p != [] && at[p] == node && Bare(Cells()) <= {p}
        decreases |p|
      {
        node := PruneOne(node, p);
        p := p[..|p| - 1];
        UpFacts(at, Cells(), p);
        if node.right != null || node.left != null { break; }
        if node.value != NO_VALUE { break; }
        if node.parent == null { break; }
      }
    }

    // ngx_radix32tree_delete.  It follows the parent link of the node, which is null, if and only if the empty prefix
    // is deleted from a root without children.
    method Delete(key: Word, mask: Word) returns (rc: Code)
      requires Valid()
      modifies this`free, this`freed, this`at, Nodes()
      ensures Valid() && Nodes() <= old(Nodes())
      ensures (var p := Prefix(key, mask);
               && (rc == Crash <==> p == [] && old(root.right == null && root.left == null))
               && (rc != Crash ==> rc == (if p in old(Contents()) then Ok else Error))
               && Contents() == if rc == Crash then old(Contents()) else old(Contents()) - {p})
    {
      BitsAre(key, mask);
      ghost var p := Bits(key, mask, 0);
      var node := Locate(key, mask);
      if node == null { return Error; }
      UpFacts(at, Cells(), p);
      if node.right != null || node.left != null {
        if node.value != NO_VALUE {
          ClearKeeps(Cells(), p);
          SetValue(p, node, NO_VALUE);
          return Ok;
        }
        return Error;
      }
      if node.parent == null { return Crash; }
      assert p !in Bare(Cells());
      Prune(node, p);
      return Ok;
    }
  }
}
