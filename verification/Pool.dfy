/** ngx_palloc.c and ngx_array.c: regions are cut from the blocks of a pool or allocated on their own, and
    an array grows at the end of a block or moves. */
module Pool {
  // sizeof(ngx_pool_data_t), sizeof(ngx_pool_t), sizeof(ngx_pool_large_t), NGX_ALIGNMENT
  const DATA := 32
  const HEADER := 80
  const NODE := 16
  const WORD := 8

  // size_t wraps around.
  const WRAP := 0x1_0000_0000_0000_0000

  // A block of memory with its header; the addresses from last to end are free.
  datatype Block = Block(base: nat, last: nat, end: nat, failed: nat)

  // A region that was cut from a block, and one that was allocated on its own (ngx_pool_large_t; lo is
  // zero in a list node whose memory has been freed)
  datatype Inner = Inner(lo: nat, hi: nat, block: nat)
  datatype Large = Large(lo: nat, hi: nat)

  // ngx_align_ptr to a word
  function Align(a: nat): (r: nat)
    ensures a <= r < a + WORD && r % WORD == 0
  {
    (a + 7) / 8 * 8
  }

  lemma Sixteen(a: nat)
    requires a % 16 == 0
    ensures a % WORD == 0
  {}

  lemma NoWrap(x: int)
    requires 0 <= x < WRAP
    ensures x % WRAP == x
  {}

  // The test for room relies on the end of a block being aligned: with an end at 113, a block that is full up
  // to there grants any size at 120.
  lemma MisalignedEnd()
    ensures Align(113) > 113 && (113 - Align(113)) % WRAP >= 4096
  {}

  // No address lies in both regions.
  predicate Apart(lo: nat, hi: nat, lo': nat, hi': nat) {
    hi <= lo' || hi' <= lo || lo >= hi || lo' >= hi'
  }

  ghost predicate BlockOk(b: Block, size: nat) {
    b.base > 0 && b.base % 16 == 0 && b.base + DATA <= b.last <= b.end == b.base + size < WRAP
  }

  lemma AlignedEnd(b: Block, size: nat)
    requires BlockOk(b, size) && size % 16 == 0
    ensures Align(b.last) <= b.end
  {
    AlignLe(b.last, b.end);
  }

  lemma AlignLe(a: nat, e: nat)
    requires a <= e && e % 8 == 0
    ensures Align(a) <= e
  {
    var q := e / 8;
    assert (a + 7) / 8 < q + 1;
  }

  ghost predicate BlocksOk(blocks: seq<Block>, size: nat) {
    && size % 16 == 0 && HEADER + 2 * NODE <= size < WRAP
    && (forall i :: 0 <= i < |blocks| ==> BlockOk(blocks[i], size))
    && (blocks != [] ==> blocks[0].base + HEADER <= blocks[0].last)
    && (forall i, j :: 0 <= i < j < |blocks| ==> Apart(blocks[i].base, blocks[i].end, blocks[j].base, blocks[j].end))
  }

  // The larges are apart from the blocks and from each other.
  ghost predicate LargesOk(blocks: seq<Block>, larges: seq<Large>) {
    && (forall k :: 0 <= k < |larges| ==> larges[k].lo <= larges[k].hi < WRAP)
    && (forall k, l :: 0 <= k < l < |larges| && larges[k].lo > 0 && larges[l].lo > 0 ==>
        Apart(larges[k].lo, larges[k].hi, larges[l].lo, larges[l].hi))
    && (forall i, k :: 0 <= i < |blocks| && 0 <= k < |larges| && larges[k].lo > 0 ==>
        Apart(blocks[i].base, blocks[i].end, larges[k].lo, larges[k].hi))
  }

  // The header of a block: the pool itself in the first one
  function Head(block: nat): nat {
    if block == 0 then HEADER else DATA
  }

  // A region lies in its block, behind the header and before the free part.
  ghost predicate Within(blocks: seq<Block>, r: Inner) {
    r.block < |blocks| && blocks[r.block].base + Head(r.block) <= r.lo <= r.hi <= blocks[r.block].last
  }

  ghost predicate InnerOk(blocks: seq<Block>, inner: seq<Inner>) {
    && (forall i :: 0 <= i < |inner| ==> Within(blocks, inner[i]))
    && (forall i, j :: 0 <= i < j < |inner| && inner[i].block == inner[j].block ==>
        Apart(inner[i].lo, inner[i].hi, inner[j].lo, inner[j].hi))
  }

  // Memory from the system is apart from all that the pool has.
  ghost predicate Unused(blocks: seq<Block>, larges: seq<Large>, lo: nat, hi: nat) {
    && lo > 0 && lo <= hi < WRAP
    && (forall i :: 0 <= i < |blocks| ==> Apart(blocks[i].base, blocks[i].end, lo, hi))
    && (forall k :: 0 <= k < |larges| && larges[k].lo > 0 ==> Apart(larges[k].lo, larges[k].hi, lo, hi))
  }

  // ---------- the regions that are in use ----------

  ghost predicate Live(inner: seq<Inner>, larges: seq<Large>, lo: nat, hi: nat) {
    || (exists i :: 0 <= i < |inner| && inner[i].lo == lo && inner[i].hi == hi)
    || (exists k :: 0 <= k < |larges| && larges[k].lo == lo > 0 && larges[k].hi == hi)
  }

  // Addresses stay below the end of the address space.
  lemma LiveBelow(blocks: seq<Block>, inner: seq<Inner>, larges: seq<Large>, size: nat, lo: nat, hi: nat)
    requires BlocksOk(blocks, size) && InnerOk(blocks, inner) && LargesOk(blocks, larges) && Live(inner, larges, lo, hi)
    ensures hi < WRAP
  {
    if i :| 0 <= i < |inner| && inner[i].lo == lo && inner[i].hi == hi {
      assert Within(blocks, inner[i]) && BlockOk(blocks[inner[i].block], size);
    }
  }

  lemma LivePositive(blocks: seq<Block>, inner: seq<Inner>, larges: seq<Large>, size: nat, lo: nat, hi: nat)
    requires BlocksOk(blocks, size) && InnerOk(blocks, inner) && Live(inner, larges, lo, hi)
    ensures lo > 0
  {
    if i :| 0 <= i < |inner| && inner[i].lo == lo && inner[i].hi == hi { assert Within(blocks, inner[i]); }
  }

  // Any two of them are apart.
  lemma InnerApart(blocks: seq<Block>, inner: seq<Inner>, size: nat, i: nat, j: nat)
    requires BlocksOk(blocks, size) && InnerOk(blocks, inner) && i < |inner| && j < |inner| && i != j
    ensures Apart(inner[i].lo, inner[i].hi, inner[j].lo, inner[j].hi)
  {
    var a, b := inner[i].block, inner[j].block;
    assert Within(blocks, inner[i]) && Within(blocks, inner[j]);
    assert a != b ==> Apart(blocks[a].base, blocks[a].end, blocks[b].base, blocks[b].end);
    assert BlockOk(blocks[a], size) && BlockOk(blocks[b], size);
  }

  lemma InnerLargeApart(blocks: seq<Block>, inner: seq<Inner>, larges: seq<Large>, size: nat, i: nat, k: nat)
    requires BlocksOk(blocks, size) && InnerOk(blocks, inner) && LargesOk(blocks, larges)
    requires i < |inner| && k < |larges| && larges[k].lo > 0
    ensures Apart(inner[i].lo, inner[i].hi, larges[k].lo, larges[k].hi)
  {
    assert Within(blocks, inner[i]);
    assert BlockOk(blocks[inner[i].block], size);
  }

  // ---------- steps ----------

  // A region is cut from the free part of a block.
  lemma Bump(blocks: seq<Block>, inner: seq<Inner>, larges: seq<Large>, size: nat, i: nat, lo: nat, hi: nat)
    requires BlocksOk(blocks, size) && InnerOk(blocks, inner) && LargesOk(blocks, larges)
    requires i < |blocks| && blocks[i].last <= lo <= hi <= blocks[i].end
    ensures var blocks' := blocks[i := blocks[i].(last := hi)];
            BlocksOk(blocks', size) && InnerOk(blocks', inner + [Inner(lo, hi, i)]) && LargesOk(blocks', larges)
  {
    var blocks', inner' := blocks[i := blocks[i].(last := hi)], inner + [Inner(lo, hi, i)];
    assert BlockOk(blocks[i], size);
    forall j | 0 <= j < |inner'|
      ensures Within(blocks', inner'[j])
      ensures j < |inner| && inner'[j].block == i ==> inner'[j].hi <= lo
    {
      if j < |inner| { assert Within(blocks, inner[j]); }
    }
  }

  // The last region of a block grows.
  lemma Grow(blocks: seq<Block>, inner: seq<Inner>, larges: seq<Large>, size: nat, j: nat, hi: nat)
    requires BlocksOk(blocks, size) && InnerOk(blocks, inner) && LargesOk(blocks, larges) && j < |inner|
    requires (var b := inner[j].block;
        b < |blocks| && inner[j].lo < inner[j].hi == blocks[b].last <= hi <= blocks[b].end)
    ensures (var b := inner[j].block;
             var blocks' := blocks[b := blocks[b].(last := hi)];
             BlocksOk(blocks', size) && InnerOk(blocks', inner[j := inner[j].(hi := hi)]) && LargesOk(blocks', larges))
  {
    var b := inner[j].block;
    var blocks', inner' := blocks[b := blocks[b].(last := hi)], inner[j := inner[j].(hi := hi)];
    assert BlockOk(blocks[b], size);
    forall i | 0 <= i < |inner'|
      ensures Within(blocks', inner'[i])
      ensures i != j && inner'[i].block == b ==> Apart(inner'[i].lo, inner'[i].hi, inner'[j].lo, inner'[j].hi)
    {
      assert Within(blocks, inner[i]);
      if i != j { InnerApart(blocks, inner, size, i, j); }
    }
  }

  // A block, or a region on its own, comes from the system.
  lemma MoreBlocks(blocks: seq<Block>, inner: seq<Inner>, larges: seq<Large>, size: nat, b: Block)
    requires BlocksOk(blocks, size) && InnerOk(blocks, inner) && LargesOk(blocks, larges)
    requires blocks != [] && BlockOk(b, size) && Unused(blocks, larges, b.base, b.end)
    ensures BlocksOk(blocks + [b], size) && InnerOk(blocks + [b], inner) && LargesOk(blocks + [b], larges)
  {
    forall i | 0 <= i < |inner| ensures Within(blocks + [b], inner[i]) { assert Within(blocks, inner[i]); }
  }

  // A new block comes with a region in it.
  lemma OneMore(blocks: seq<Block>, inner: seq<Inner>, larges: seq<Large>, size: nat, b: Block, m: nat)
    requires BlocksOk(blocks, size) && InnerOk(blocks, inner) && LargesOk(blocks, larges) && blocks != []
    requires BlockOk(b.(last := m), size) && m <= b.last <= b.end && Unused(blocks, larges, b.base, b.end)
    ensures BlocksOk(blocks + [b], size) && InnerOk(blocks + [b], inner + [Inner(m, b.last, |blocks|)])
        && LargesOk(blocks + [b], larges) && (blocks + [b])[..|blocks|] == blocks
  {
    MoreBlocks(blocks, inner, larges, size, b.(last := m));
    Bump(blocks + [b.(last := m)], inner, larges, size, |blocks|, m, b.last);
    assert (blocks + [b.(last := m)])[|blocks| := b] == blocks + [b];
  }

  lemma MoreLarges(blocks: seq<Block>, larges: seq<Large>, lo: nat, hi: nat, k: nat)
    requires LargesOk(blocks, larges) && Unused(blocks, larges, lo, hi) && k < |larges| && larges[k].lo == 0
    ensures LargesOk(blocks, larges[k := Large(lo, hi)])
  {}

  lemma NewLarge(blocks: seq<Block>, larges: seq<Large>, lo: nat, hi: nat)
    requires LargesOk(blocks, larges) && Unused(blocks, larges, lo, hi)
    ensures LargesOk(blocks, [Large(lo, hi)] + larges)
  {}

  lemma LessLarges(blocks: seq<Block>, larges: seq<Large>, k: nat)
    requires LargesOk(blocks, larges) && k < |larges|
    ensures LargesOk(blocks, larges[k := Large(0, 0)])
  {}

  // What an allocation promises: what was in use stays in use, and the new region is apart from it.
  ghost predicate Given(inner: seq<Inner>, larges: seq<Large>, inner': seq<Inner>, larges': seq<Large>, m: nat,
      n: nat) {
    && (m > 0 ==> Live(inner', larges', m, m + n))
    && (forall lo, hi :: Live(inner, larges, lo, hi) ==> Live(inner', larges', lo, hi) && (m > 0 ==>
        Apart(lo, hi, m, m + n)))
  }

  lemma GivenInner(blocks: seq<Block>, inner: seq<Inner>, larges: seq<Large>, size: nat, r: Inner)
    requires BlocksOk(blocks, size) && InnerOk(blocks, inner + [r]) && LargesOk(blocks, larges) && r.lo <= r.hi
    ensures Given(inner, larges, inner + [r], larges, r.lo, r.hi - r.lo)
  {
    var inner' := inner + [r];
    assert inner'[|inner|] == r;
    forall lo, hi | Live(inner, larges, lo, hi)
      ensures Live(inner', larges, lo, hi) && Apart(lo, hi, r.lo, r.hi)
    {
      if i :| 0 <= i < |inner| && inner[i].lo == lo && inner[i].hi == hi {
        assert inner'[i] == inner[i];
        InnerApart(blocks, inner', size, i, |inner|);
      } else {
        var k :| 0 <= k < |larges| && larges[k].lo == lo > 0 && larges[k].hi == hi;
        InnerLargeApart(blocks, inner', larges, size, |inner|, k);
      }
    }
  }

  lemma GivenSlot(blocks: seq<Block>, inner: seq<Inner>, larges: seq<Large>, size: nat, m: nat, n: nat, k: nat)
    requires BlocksOk(blocks, size) && InnerOk(blocks, inner) && Unused(blocks, larges, m, m + n) && k < |larges|
        && larges[k].lo == 0
    ensures Given(inner, larges, inner, larges[k := Large(m, m + n)], m, n)
  {
    var larges' := larges[k := Large(m, m + n)];
    assert larges'[k] == Large(m, m + n);
    forall lo, hi | Live(inner, larges, lo, hi)
      ensures Live(inner, larges', lo, hi) && Apart(lo, hi, m, m + n)
    {
      if i :| 0 <= i < |inner| && inner[i].lo == lo && inner[i].hi == hi {
        assert Within(blocks, inner[i]) && BlockOk(blocks[inner[i].block], size);
      } else {
        var l :| 0 <= l < |larges| && larges[l].lo == lo > 0 && larges[l].hi == hi;
        assert larges'[l] == larges[l];
      }
    }
  }

  lemma GivenNode(blocks: seq<Block>, inner: seq<Inner>, larges: seq<Large>, size: nat, inner': seq<Inner>, m: nat,
      n: nat)
    requires BlocksOk(blocks, size) && InnerOk(blocks, inner') && LargesOk(blocks, [Large(m, m + n)] + larges) && m > 0
    requires |inner'| == |inner| + 1 && inner'[..|inner|] == inner
    ensures Given(inner, larges, inner', [Large(m, m + n)] + larges, m, n)
  {
    var larges' := [Large(m, m + n)] + larges;
    assert larges'[0] == Large(m, m + n);
    forall lo, hi | Live(inner, larges, lo, hi)
      ensures Live(inner', larges', lo, hi) && Apart(lo, hi, m, m + n)
    {
      if i :| 0 <= i < |inner| && inner[i].lo == lo && inner[i].hi == hi {
        assert inner'[i] == inner[i];
        InnerLargeApart(blocks, inner', larges', size, i, 0);
      } else {
        var k :| 0 <= k < |larges| && larges[k].lo == lo > 0 && larges[k].hi == hi;
        assert larges'[k + 1] == larges[k];
      }
    }
  }

  // Only the counters of failures have changed.
  ghost predicate Counted(blocks: seq<Block>, blocks': seq<Block>) {
    |blocks'| == |blocks| && forall i :: 0 <= i < |blocks| ==> blocks'[i] == blocks[i].(failed := blocks'[i].failed)
  }

  lemma CountedOk(blocks: seq<Block>, blocks': seq<Block>, inner: seq<Inner>, larges: seq<Large>, size: nat)
    requires BlocksOk(blocks, size) && InnerOk(blocks, inner) && LargesOk(blocks, larges) && Counted(blocks, blocks')
    ensures BlocksOk(blocks', size) && InnerOk(blocks', inner) && LargesOk(blocks', larges)
  {
    forall i | 0 <= i < |blocks| ensures BlockOk(blocks'[i], size) { assert BlockOk(blocks[i], size); }
    forall i | 0 <= i < |inner| ensures Within(blocks', inner[i]) { assert Within(blocks, inner[i]); }
  }

  // Where a region of a block may start, and whether there is room for n bytes
  function Start(b: Block, aligned: bool): nat {
    if aligned then Align(b.last) else b.last
  }

  predicate Fits(b: Block, n: nat, aligned: bool) {
    Start(b, aligned) + n <= b.end
  }

  // All the blocks from the current one on but the last have been tried in vain once more, and the search is not going
  // to start with those that have been tried often.
  ghost predicate Tried(blocks: seq<Block>, current: nat, blocks': seq<Block>, current': nat) {
    && |blocks'| == |blocks| && current <= current' < |blocks|
    && (forall k :: 0 <= k < |blocks| ==>
        blocks'[k] == blocks[k].(failed := blocks[k].failed + if current <= k < |blocks| - 1 then 1 else 0))
    && (current' > current ==> blocks[current' - 1].failed > 4)
    && (forall k :: current' <= k < |blocks| - 1 ==> blocks[k].failed <= 4)
  }

  // What can be given stays so, unless it meets the new block.
  ghost predicate Clear(blocks: seq<Block>, blocks': seq<Block>, larges: seq<Large>, base: nat, size: nat) {
    forall lo, hi :: Unused(blocks, larges, lo, hi) && (base > 0 ==> Apart(lo, hi, base, base + size)) ==>
      Unused(blocks', larges, lo, hi)
  }

  // What the system gives when it is asked for a block, or for a region on its own: zero is NULL.
  datatype System = System(block: nat, own: nat)

  class Pool {
    var blocks: seq<Block>
    var current: nat            // the index of the block in pool->current
    const size: nat
    const max: nat
    var larges: seq<Large>
    ghost var inner: seq<Inner>

    ghost predicate Valid()
      reads this
    {
      && 0 <= current < |blocks| && NODE <= max <= size - HEADER
      && BlocksOk(blocks, size) && InnerOk(blocks, inner) && LargesOk(blocks, larges)
    }

    // ngx_create_pool
    constructor (base: nat, size: nat, pagesize: nat)
      requires base > 0 && base % 16 == 0 && size % 16 == 0 && HEADER + 2 * NODE <= size && base + size < WRAP
          && pagesize > NODE
      ensures Valid() && inner == [] && larges == [] && this.size == size && blocks[0].base == base
    {
      blocks := [Block(base, base + HEADER, base + size, 0)];
      current, this.size := 0, size;
      max := if size - HEADER < pagesize - 1 then size - HEADER else pagesize - 1;
      larges, inner := [], [];
    }

    // The test for room in a block
    method HasRoom(p: nat, n: nat, aligned: bool) returns (fits: bool, m: nat)
      requires Valid() && p < |blocks|
      ensures m == Start(blocks[p], aligned) && (fits <==> Fits(blocks[p], n, aligned))
    {
      var b := blocks[p];
      assert BlockOk(b, size);
      m := if aligned then Align(b.last) else b.last;
      AlignedEnd(b, size);
      NoWrap(b.end - m);
      fits := (b.end - m) % WRAP >= n;
    }

    method CutFrom(p: nat, m: nat, n: nat)
      requires Valid() && p < |blocks| && blocks[p].last <= m && m + n <= blocks[p].end
      modifies this`blocks, this`inner
      ensures Valid() && inner == old(inner) + [Inner(m, m + n, p)] && m > 0
      ensures blocks == old(blocks)[p := old(blocks)[p].(last := m + n)]
    {
      Bump(blocks, inner, larges, size, p, m, m + n);
      assert BlockOk(blocks[p], size);
      blocks := blocks[p := blocks[p].(last := m + n)];
      inner := inner + [Inner(m, m + n, p)];
    }

    // The blocks up to i from the current one on have no room.
    ghost predicate Full(n: nat, aligned: bool, i: nat)
      reads this
    {
      i <= |blocks| && forall k :: current <= k < i ==> !Fits(blocks[k], n, aligned)
    }

    // The loops of ngx_palloc (aligned) and ngx_pnalloc: the first block with room; zero is NULL.
    method Search(n: nat, aligned: bool) returns (m: nat, ghost i: nat)
      requires Valid()
      modifies this`blocks, this`inner
      ensures Valid() && current <= i <= |old(blocks)| && old(Full(n, aligned, i))
      ensures m == 0 ==> i == |blocks| && blocks == old(blocks) && inner == old(inner)
      ensures m > 0 ==>
          i < |old(blocks)| && Fits(old(blocks)[i], n, aligned) && m == Start(old(blocks)[i], aligned)
      ensures m > 0 ==> inner == old(inner) + [Inner(m, m + n, i)]
      ensures m > 0 ==> blocks == old(blocks)[i := old(blocks)[i].(last := m + n)] && (aligned ==> m % WORD == 0)
    {
      var p := current;
      while p < |blocks|
        invariant current <= p <= |blocks| && blocks == old(blocks) && inner == old(inner) && Full(n, aligned, p)
      {
        var fits;
        fits, m := HasRoom(p, n, aligned);
        if fits {
          CutFrom(p, m, n);
          return m, p;
        }
        p := p + 1;
      }
      return 0, p;
    }

    // ngx_palloc_block; base is what the system gives.
    method NewBlock(n: nat, base: nat) returns (m: nat)
      requires Valid() && n <= max && (base > 0 ==> base % 16 == 0 && Free(base, base + size))
      modifies this`blocks, this`inner, this`current
      ensures Valid() && (m > 0 <==> base > 0)
      ensures m == 0 ==> inner == old(inner) && blocks == old(blocks) && current == old(current)
      ensures m > 0 ==> m == Align(base + DATA) && inner == old(inner) + [Inner(m, m + n, |old(blocks)|)]
      ensures m > 0 ==> |blocks| == |old(blocks)| + 1 && blocks[|old(blocks)|] == Block(base, m + n, base + size, 0)
      ensures m > 0 ==> Tried(old(blocks), old(current), blocks[..|old(blocks)|], current)
      ensures Clear(old(blocks), blocks, larges, base, size)
    {
      if base == 0 { return 0; }
      m := Align(base + DATA);
      var b := Block(base, m + n, base + size, 0);
      CountFailures();
      OneMore(blocks, inner, larges, size, b, m);
      blocks := blocks + [b];
      inner := inner + [Inner(m, m + n, |old(blocks)|)];
    }

    // A block that has been tried in vain often enough is not tried any more.
    method CountFailures()
      requires Valid()
      modifies this`blocks, this`current
      ensures Valid() && Tried(old(blocks), old(current), blocks, current)
      ensures forall lo, hi :: Unused(old(blocks), larges, lo, hi) ==> Unused(blocks, larges, lo, hi)
    {
      var p := current;
      while p + 1 < |blocks|
        invariant p < |blocks| && old(current) <= current <= p && |blocks| == |old(blocks)|
        invariant forall k :: 0 <= k < |blocks| ==>
            blocks[k] == old(blocks)[k].(failed := old(blocks)[k].failed + if old(current) <= k < p then 1 else 0)
        invariant current > old(current) ==> old(blocks)[current - 1].failed > 4
        invariant forall k :: current <= k < p ==> old(blocks)[k].failed <= 4
      {
        if blocks[p].failed > 4 { current := p + 1; }
        blocks := blocks[p := blocks[p].(failed := blocks[p].failed + 1)];
        p := p + 1;
      }
      CountedOk(old(blocks), blocks, inner, larges, size);
    }

    // Whether the system can give this memory
    predicate Free(lo: nat, hi: nat)
      reads this
    {
      && lo > 0 && lo <= hi < WRAP
      && (forall i :: 0 <= i < |blocks| ==> Apart(blocks[i].base, blocks[i].end, lo, hi))
      && (forall k :: 0 <= k < |larges| && larges[k].lo > 0 ==> Apart(larges[k].lo, larges[k].hi, lo, hi))
    }

    // There is room, or the system has some.
    ghost predicate Room(n: nat, aligned: bool, base: nat)
      reads this
    {
      base > 0 || exists k :: current <= k < |blocks| && Fits(blocks[k], n, aligned)
    }

    // ngx_palloc and ngx_pnalloc for sizes up to pool->max
    method Small(n: nat, aligned: bool, base: nat) returns (m: nat, ghost i: nat)
      requires Valid() && n <= max && (base > 0 ==> base % 16 == 0 && Free(base, base + size))
      modifies this`blocks, this`inner, this`current
      ensures Valid() && (m > 0 <==> old(Room(n, aligned, base)))
      ensures m == 0 ==> inner == old(inner)
      ensures m > 0 ==> inner == old(inner) + [Inner(m, m + n, i)] && (aligned ==> m % WORD == 0)
      ensures Clear(old(blocks), blocks, larges, base, size)
    {
      m, i := Search(n, aligned);
      if m == 0 { m := NewBlock(n, base); }
    }

    // ngx_palloc_large: a list node whose memory has been freed is used again, if it is one of the first five.
    method Reuse(lo: nat, n: nat) returns (done: bool)
      requires Valid() && Unused(blocks, larges, lo, lo + n)
      modifies this`larges
      ensures Valid() && (done <==> old(Slot()))
      ensures if done then Given(inner, old(larges), inner, larges, lo, n) && Large(lo, lo + n) in larges
        else larges == old(larges)
    {
      var k := 0;
      while k < |larges| && k < 5
        invariant 0 <= k <= |larges| && larges == old(larges) && forall j :: 0 <= j < k ==> larges[j].lo != 0
      {
        if larges[k].lo == 0 {
          MoreLarges(blocks, larges, lo, lo + n, k);
          GivenSlot(blocks, inner, larges, size, lo, n, k);
          larges := larges[k := Large(lo, lo + n)];
          assert larges[k] == Large(lo, lo + n) && old(larges)[k].lo == 0;
          return true;
        }
        k := k + 1;
      }
      return false;
    }

    // Else there is a new list node.
    method AddLarge(lo: nat, n: nat, base: nat) returns (done: bool)
      requires Valid() && Unused(blocks, larges, lo, lo + n)
      requires base > 0 ==> base % 16 == 0 && Free(base, base + size) && Apart(lo, lo + n, base, base + size)
      modifies this`blocks, this`inner, this`current, this`larges
      ensures Valid() && (done <==> old(Room(NODE, true, base)))
      ensures if done then Given(old(inner), old(larges), inner, larges, lo, n) && Large(lo, lo + n) in larges
        else inner == old(inner) && larges == old(larges)
    {
      var node, i := Small(NODE, true, base);
      done := node > 0;
      if done {
        NewLarge(blocks, larges, lo, lo + n);
        GivenNode(blocks, inner[..|inner| - 1], larges, size, inner, lo, n);
        larges := [Large(lo, lo + n)] + larges;
      }
    }

    // One of the first five list nodes has no memory.
    ghost predicate Slot()
      reads this
    {
      exists k :: 0 <= k < |larges| && k < 5 && larges[k].lo == 0
    }

    // The region gets a list node.
    method Keep(lo: nat, n: nat, base: nat) returns (done: bool)
      requires Valid() && Unused(blocks, larges, lo, lo + n)
      requires base > 0 ==> base % 16 == 0 && Free(base, base + size) && Apart(lo, lo + n, base, base + size)
      modifies this`blocks, this`inner, this`current, this`larges
      ensures Valid() && (done <==> old(Slot() || Room(NODE, true, base)))
      ensures if done then Given(old(inner), old(larges), inner, larges, lo, n) && Large(lo, lo + n) in larges
        else inner == old(inner) && larges == old(larges)
    {
      done := Reuse(lo, n);
      if !done { done := AddLarge(lo, n, base); }
    }

    method OnItsOwn(n: nat, sys: System) returns (m: nat)
      requires Valid() && Grants(n, sys)
      modifies this`blocks, this`inner, this`current, this`larges
      ensures Valid() && Given(old(inner), old(larges), inner, larges, m, n) && m % WORD == 0
      ensures m > 0 <==> sys.own > 0 && old(Slot() || Room(NODE, true, sys.block))
      ensures m > 0 ==> Large(m, m + n) in larges
    {
      if sys.own == 0 { return 0; }
      Sixteen(sys.own);
      var done := Keep(sys.own, n, sys.block);
      return if done then sys.own else 0;
    }

    // What the system may give: memory that the pool does not have
    predicate Grants(n: nat, sys: System)
      reads this
    {
      && (sys.block > 0 ==> sys.block % 16 == 0 && Free(sys.block, sys.block + size))
      && (sys.own > 0 ==> sys.own % 16 == 0 && Free(sys.own, sys.own + n))
      && (sys.block > 0 && sys.own > 0 ==> Apart(sys.own, sys.own + n, sys.block, sys.block + size))
    }

    // An allocation of n bytes does not fail.
    ghost predicate Gets(n: nat, aligned: bool, sys: System)
      reads this
    {
      if n <= max then Room(n, aligned, sys.block) else sys.own > 0 && (Slot() || Room(NODE, true, sys.block))
    }

    // ngx_palloc (aligned) and ngx_pnalloc: they fail exactly when there is no room and the system has none.
    method Alloc(n: nat, aligned: bool, sys: System) returns (m: nat)
      requires Valid() && Grants(n, sys)
      modifies this`blocks, this`inner, this`current, this`larges
      ensures Valid() && Given(old(inner), old(larges), inner, larges, m, n)
      ensures (aligned ==> m % WORD == 0) && (m > 0 <==> old(Gets(n, aligned, sys)))
      ensures if n <= max then larges == old(larges) else m > 0 ==> Large(m, m + n) in larges
    {
      if n <= max {
        ghost var i;
        m, i := Small(n, aligned, sys.block);
        if m > 0 { GivenInner(blocks, old(inner), larges, size, Inner(m, m + n, i)); }
      } else {
        m := OnItsOwn(n, sys);
      }
    }

    // ngx_pfree
    method Pfree(p: nat) returns (ok: bool)
      requires Valid() && p > 0
      modifies this`larges
      ensures Valid() && ok == exists k :: 0 <= k < |old(larges)| && old(larges)[k].lo == p
      ensures !ok ==> larges == old(larges)
      ensures ok ==>
          exists k :: 0 <= k < |old(larges)| && old(larges)[k].lo == p && larges == old(larges)[k := Large(0, 0)]
    {
      var k := 0;
      while k < |larges|
        invariant 0 <= k <= |larges| && larges == old(larges)
        invariant forall j :: 0 <= j < k ==> larges[j].lo != p
      {
        if larges[k].lo == p {
          LessLarges(blocks, larges, k);
          larges := larges[k := Large(0, 0)];
          return true;
        }
        k := k + 1;
      }
      return false;
    }

    // ngx_reset_pool
    method Reset()
      requires Valid()
      modifies this`blocks, this`inner, this`current, this`larges
      ensures Valid() && inner == [] && larges == []
    {
      var i := 0;
      while i < |blocks|
        invariant 0 <= i <= |blocks| && |blocks| == |old(blocks)| && BlocksOk(blocks, size)
      {
        assert BlockOk(blocks[i], size);
        blocks := blocks[i := blocks[i].(last := blocks[i].base + HEADER, failed := 0)];
        assert BlockOk(blocks[i], size);
        i := i + 1;
      }
      larges, inner := [], [];
      current := 0;
    }
  }

  // ---------- arrays ----------

  // A region that ends where the free part of the first block starts has been cut from that block.
  lemma LastOfFirst(blocks: seq<Block>, inner: seq<Inner>, larges: seq<Large>, size: nat, lo: nat, hi: nat)
      returns (j: nat)
    requires BlocksOk(blocks, size) && InnerOk(blocks, inner) && LargesOk(blocks, larges) && blocks != []
    requires Live(inner, larges, lo, hi) && lo < hi == blocks[0].last
    ensures j < |inner| && inner[j] == Inner(lo, hi, 0)
  {
    assert BlockOk(blocks[0], size);
    assert forall k :: 0 <= k < |larges| && larges[k].lo > 0 ==>
        Apart(blocks[0].base, blocks[0].end, larges[k].lo, larges[k].hi);
    j :| 0 <= j < |inner| && inner[j].lo == lo && inner[j].hi == hi;
    var b := inner[j].block;
    assert Within(blocks, inner[j]) && BlockOk(blocks[b], size);
    assert b != 0 ==> Apart(blocks[0].base, blocks[0].end, blocks[b].base, blocks[b].end);
  }

  // What the growth of a region in place promises to the others
  ghost predicate Others(inner: seq<Inner>, larges: seq<Large>, inner': seq<Inner>, larges': seq<Large>, lo: nat,
      hi: nat, lo': nat, hi': nat) {
    && Live(inner', larges', lo', hi')
    && forall l, h :: Live(inner, larges, l, h) && !(l == lo && h == hi) ==>
        Live(inner', larges', l, h) && Apart(l, h, lo', hi')
  }

  lemma GrowOthers(blocks: seq<Block>, inner: seq<Inner>, larges: seq<Large>, size: nat, j: nat, hi: nat)
    requires BlocksOk(blocks, size) && LargesOk(blocks, larges) && j < |inner| && inner[j].lo < inner[j].hi <= hi
    requires InnerOk(blocks, inner[j := inner[j].(hi := hi)])
    ensures Others(inner, larges, inner[j := inner[j].(hi := hi)], larges, inner[j].lo, inner[j].hi, inner[j].lo, hi)
  {
    var inner' := inner[j := inner[j].(hi := hi)];
    assert inner'[j].lo == inner[j].lo && inner'[j].hi == hi;
    forall l, h | Live(inner, larges, l, h) && !(l == inner[j].lo && h == inner[j].hi)
      ensures Live(inner', larges, l, h) && Apart(l, h, inner[j].lo, hi)
    {
      if i :| 0 <= i < |inner| && inner[i].lo == l && inner[i].hi == h {
        assert i != j && inner'[i] == inner[i];
        InnerApart(blocks, inner', size, i, j);
      } else {
        var k :| 0 <= k < |larges| && larges[k].lo == l > 0 && larges[k].hi == h;
        InnerLargeApart(blocks, inner', larges, size, j, k);
      }
    }
  }

  // The bytes that have been written; the others are taken for zero.
  type Memory = map<nat, int>

  function Read(mem: Memory, a: nat): int {
    if a in mem then mem[a] else 0
  }

  // memcpy
  function Copied(mem: Memory, dst: nat, src: nat, n: nat): Memory {
    if n == 0 then mem else Copied(mem, dst, src, n - 1)[dst + (n - 1) := Read(mem, src + (n - 1))]
  }

  lemma {:induction false} CopiedAt(mem: Memory, dst: nat, src: nat, n: nat, a: nat)
    ensures Read(Copied(mem, dst, src, n), a) == Read(mem, if dst <= a < dst + n then src + (a - dst) else a)
  {
    if n > 0 { CopiedAt(mem, dst, src, n - 1, a); }
  }

  // The bytes of a region are the same as before.
  ghost predicate Same(mem: Memory, mem': Memory, lo: nat, hi: nat) {
    forall a: nat :: lo <= a < hi ==> Read(mem', a) == Read(mem, a)
  }

  // The regions in use, the memory, and the region of the array
  datatype Use = Use(inner: seq<Inner>, larges: seq<Large>, mem: Memory, lo: nat, hi: nat)

  function Byte(u: Use, i: nat): int {
    Read(u.mem, u.lo + i)
  }

  // The array keeps its first n bytes; the other regions stay in use, apart from it, with their bytes.
  ghost predicate Safe(u: Use, u': Use, n: nat) {
    && (forall i :: 0 <= i < n ==> Byte(u', i) == Byte(u, i))
    && (forall l, h :: Live(u.inner, u.larges, l, h) && !(l == u.lo && h == u.hi) ==>
          Live(u'.inner, u'.larges, l, h) && Apart(l, h, u'.lo, u'.hi) && Same(u.mem, u'.mem, l, h))
  }

  // Empty when nothing of this is hurt
  ghost function Harm(u: Use, u': Use, n: nat): set<Use> {
    set x | x in {u'} && !Safe(u, x, n)
  }

  lemma NoHarm(u: Use, u': Use, n: nat)
    ensures Harm(u, u', n) == {} <==> Safe(u, u', n)
  {
    assert u' in Harm(u, u', n) <==> !Safe(u, u', n);
  }

  lemma Keeping(u: Use, v: Use, n: nat, sized: bool)
    requires sized ==> Harm(u, v, n) == {}
    ensures sized ==> Safe(u, v, n)
  {
    NoHarm(u, v, n);
  }

  // Different regions in use are apart.
  lemma LiveApart(blocks: seq<Block>, inner: seq<Inner>, larges: seq<Large>, size: nat, l: nat, h: nat, lo: nat,
      hi: nat)
    requires BlocksOk(blocks, size) && InnerOk(blocks, inner) && LargesOk(blocks, larges)
    requires Live(inner, larges, l, h) && Live(inner, larges, lo, hi) && !(l == lo && h == hi)
    ensures Apart(l, h, lo, hi)
  {
    if i :| 0 <= i < |inner| && inner[i].lo == l && inner[i].hi == h {
      if j :| 0 <= j < |inner| && inner[j].lo == lo && inner[j].hi == hi {
        InnerApart(blocks, inner, size, i, j);
      } else {
        var k :| 0 <= k < |larges| && larges[k].lo == lo > 0 && larges[k].hi == hi;
        InnerLargeApart(blocks, inner, larges, size, i, k);
      }
    } else {
      var k :| 0 <= k < |larges| && larges[k].lo == l > 0 && larges[k].hi == h;
      if j :| 0 <= j < |inner| && inner[j].lo == lo && inner[j].hi == hi {
        InnerLargeApart(blocks, inner, larges, size, j, k);
      }
    }
  }

  lemma SafeSame(blocks: seq<Block>, u: Use, size: nat, n: nat)
    requires BlocksOk(blocks, size) && InnerOk(blocks, u.inner) && LargesOk(blocks, u.larges)
        && Live(u.inner, u.larges, u.lo, u.hi)
    ensures Harm(u, u, n) == {}
  {
    NoHarm(u, u, n);
    forall l, h | Live(u.inner, u.larges, l, h) && !(l == u.lo && h == u.hi)
      ensures Apart(l, h, u.lo, u.hi)
    {
      LiveApart(blocks, u.inner, u.larges, size, l, h, u.lo, u.hi);
    }
  }

  lemma SafeGrown(u: Use, inner': seq<Inner>, larges': seq<Large>, hi': nat, n: nat)
    requires Others(u.inner, u.larges, inner', larges', u.lo, u.hi, u.lo, hi')
    ensures Harm(u, Use(inner', larges', u.mem, u.lo, hi'), n) == {}
  {
    NoHarm(u, Use(inner', larges', u.mem, u.lo, hi'), n);
  }

  lemma SafeMoved(u: Use, inner': seq<Inner>, larges': seq<Large>, m: nat, total: nat, n: nat)
    requires Given(u.inner, u.larges, inner', larges', m, total) && m > 0 && n <= total
    ensures Harm(u, Use(inner', larges', Copied(u.mem, m, u.lo, n), m, m + total), n) == {}
  {
    var u' := Use(inner', larges', Copied(u.mem, m, u.lo, n), m, m + total);
    forall l: nat, h: nat | Live(u.inner, u.larges, l, h)
      ensures Live(inner', larges', l, h) && Apart(l, h, m, m + total) && Same(u.mem, u'.mem, l, h)
    {
      forall a: nat | l <= a < h ensures Read(u'.mem, a) == Read(u.mem, a) { CopiedAt(u.mem, m, u.lo, n, a); }
    }
    forall i: nat | i < n ensures Byte(u', i) == Byte(u, i) { CopiedAt(u.mem, m, u.lo, n, m + i); }
    NoHarm(u, u', n);
  }

  lemma SafeStay(u: Use, inner': seq<Inner>, larges': seq<Large>, total: nat, n: nat)
    requires Harm(u, u, n) == {} && Given(u.inner, u.larges, inner', larges', 0, total)
    ensures Harm(u, Use(inner', larges', u.mem, u.lo, u.hi), n) == {}
  {
    NoHarm(u, u, n);
    NoHarm(u, Use(inner', larges', u.mem, u.lo, u.hi), n);
  }

  class Array {
    const pool: Pool
    const size: nat
    var elts: nat
    var nelts: nat
    var nalloc: nat
    var mem: Memory

    ghost function End(): nat
      reads this
    {
      elts + Total(size, nalloc)
    }

    ghost function View(): Use
      reads this, pool
    {
      Use(pool.inner, pool.larges, mem, elts, End())
    }

    ghost predicate Valid()
      reads this, pool
    {
      pool.Valid() && size >= 1 && nalloc >= 1 && nelts <= nalloc && Live(pool.inner, pool.larges, elts, End())
    }

    // ngx_array_init, with the memory that it got for n elements
    constructor (pool: Pool, elts: nat, n: nat, size: nat, mem: Memory)
      requires pool.Valid() && size >= 1 && n >= 1 && Live(pool.inner, pool.larges, elts, elts + Total(size, n))
      ensures Valid() && nelts == 0 && nalloc == n
      ensures this.pool == pool && this.size == size && this.elts == elts && this.mem == mem
    {
      this.pool, this.size, this.elts, nelts, nalloc, this.mem := pool, size, elts, 0, n, mem;
    }

    // There is room for n more elements.
    ghost predicate Roomy(n: nat)
      reads this, pool
    {
      Good() && nelts + n <= nalloc
    }

    // The array ends where the free part of the first block starts, and the block seems to have room for n more: the
    // sizes and the addresses wrap around.
    predicate AtEnd(n: nat)
      reads this, pool
    {
      && |pool.blocks| > 0 && elts + Total(size, nalloc) == pool.blocks[0].last
      && (pool.blocks[0].last + Total(size, n) % WRAP) % WRAP <= pool.blocks[0].end
    }

    // The size that a new place has: twice what is needed most
    function Twice(n: nat): nat
      reads this
    {
      2 * if n >= nalloc then n else nalloc
    }

    // The bytes that are asked for then
    function Bytes(n: nat): nat
      reads this
    {
      Total(size, Twice(n) % WRAP) % WRAP
    }

    // There seem to be free elements, or free addresses behind the array, or the pool has a new place.
    ghost predicate Gains(n: nat, sys: System)
      reads this, pool
    {
      (nelts + n) % WRAP <= nalloc || AtEnd(n) || pool.Gets(Bytes(n), true, sys)
    }

    // What is computed does not wrap around.
    predicate Sized(n: nat)
      reads this, pool
    {
      && nelts + n < WRAP
      && (nelts + n > nalloc ==>
          if AtEnd(n) then pool.blocks[0].last + Total(size, n) < WRAP else Total(size, Twice(n)) < WRAP)
    }

    // An array that was to grow beyond the address space has no room.
    lemma TooFar(n: nat, before: nat)
      requires before < WRAP && n < WRAP && nalloc == (before + n) % WRAP
      requires elts + Total(size, before) + Total(size, n) >= WRAP
      ensures !Roomy(n)
    {
      Wraps(before + n);
      Times(size, before, n);
      GoodIs();
      if Roomy(n) { LiveBelow(pool.blocks, pool.inner, pool.larges, pool.size, elts, End()); }
    }

    // Nor has one whose new place was to have twice the room.
    lemma NoPlace(n: nat, before: nat, twice: nat)
      requires before < WRAP && n < WRAP && nelts <= before && twice == (2 * if n >= before then n else before)
      requires Total(size, twice) >= WRAP && nalloc == twice % WRAP && before < nelts + n
      ensures !Roomy(n)
    {
      Wraps(twice);
      GoodIs();
      if Roomy(n) { LiveBelow(pool.blocks, pool.inner, pool.larges, pool.size, elts, End()); }
    }

    lemma Below()
      requires Valid()
      ensures End() < WRAP && nalloc < WRAP && nelts < WRAP && pool.blocks[0].end < WRAP && elts > 0
    {
      LivePositive(pool.blocks, pool.inner, pool.larges, pool.size, elts, End());
      LiveBelow(pool.blocks, pool.inner, pool.larges, pool.size, elts, End());
      TotalGe(size, nalloc);
      assert BlockOk(pool.blocks[0], pool.size);
    }

    // The same as Valid, without its parts
    ghost predicate Good()
      reads this, pool
    {
      && Flaws(pool.blocks, pool.inner, pool.larges, pool.size, elts, End()) == {}
      && pool.current < |pool.blocks| && NODE <= pool.max <= pool.size - HEADER
      && size >= 1 && nalloc >= 1 && nelts <= nalloc
    }

    lemma GoodIs()
      ensures Good() <==> Valid()
    {
      NoFlaw(pool.blocks, pool.inner, pool.larges, pool.size, elts, End());
    }

    // The room for n more elements at the end of the first block of the pool
    method Extend(n: nat)
      requires Good() && AtEnd(n) && n < WRAP && nalloc < WRAP
      modifies this`nalloc, pool`blocks, pool`inner
      ensures nalloc == (old(nalloc) + n) % WRAP
      ensures old(End()) + Total(size, n) < WRAP ==> Good() && nalloc == old(nalloc) + n
      ensures old(End()) + Total(size, n) < WRAP ==> Harm(old(View()), View(), Total(size, nelts)) == {}
    {
      ghost var u, inner', psize := View(), pool.inner, pool.size;
      ghost var hi := u.hi + Total(size, n);
      Exact(u.hi, Total(size, n));
      Times(size, nalloc, n);
      var b, more := pool.blocks[0], (nalloc + n) % WRAP;
      var last := (b.last + Total(size, n) % WRAP) % WRAP;
      var blocks' := pool.blocks[0 := b.(last := last)];
      if hi < WRAP {
        Few(size, elts, nalloc, n);
        inner' := GrownRegion(u, pool.blocks, psize, hi, Total(size, nelts), blocks');
        assert elts + Total(size, more) == hi;
      }
      pool.blocks, nalloc := blocks', more;
      if hi < WRAP {
        pool.inner := inner';
        assert End() == hi;
        HarmSame(u, Use(inner', u.larges, u.mem, u.lo, hi), View(), Total(size, nelts));
      }
    }

    // The array is copied to its new place.
    method Settle(ghost u: Use, m: nat, n: nat, ghost twice: nat, room: nat)
      requires pool.Valid() && size >= 1 && 1 <= nalloc < WRAP && nelts <= nalloc < nelts + n && n < WRAP && m > 0
      requires u.mem == mem && u.lo == elts && twice == Twice(n) && room == twice % WRAP
      requires Refused(u.inner, u.larges, pool.inner, pool.larges, m, Total(size, room) % WRAP) == {}
      modifies this`elts, this`nalloc, this`mem
      ensures elts == m
      ensures (if Total(size, twice) < WRAP then Valid() && Harm(u, View(), Total(size, nelts)) == {}
          && nelts + n <= nalloc
               else !Roomy(n))
    {
      ghost var before := nalloc;
      Enough(nelts, before, n);
      var bytes := Total(size, nelts);
      mem := Copied(mem, m, elts, bytes);
      elts, nalloc := m, room;
      if Total(size, twice) < WRAP {
        TotalGe(size, twice);
        NoWrap(twice);
        NoWrap(Total(size, twice));
        Settled(u, pool.inner, pool.larges, m, size, nelts, nalloc);
        HarmSame(u, Use(pool.inner, pool.larges, Copied(u.mem, m, u.lo, bytes), m, m + Total(size, nalloc)), View(),
            bytes);
      } else {
        NoPlace(n, before, twice);
      }
    }

    // A place with twice the room
    method Move(n: nat, sys: System) returns (ok: bool)
      requires pool.Grants(Bytes(n), sys)
      requires Valid() && n < WRAP && nelts + n > nalloc && Harm(View(), View(), Total(size, nelts)) == {}
      modifies this`elts, this`nalloc, this`mem, pool
      ensures !ok ==> Valid() && elts == old(elts) && nalloc == old(nalloc) && mem == old(mem)
      ensures ok ==> elts > 0
      ensures ok <==> old(pool.Gets(Bytes(n), true, sys))
      ensures (if Total(size, old(Twice(n))) < WRAP then
                 Valid() && Harm(old(View()), View(), Total(size, nelts)) == {} && (ok ==> nelts + n <= nalloc)
               else ok ==> !Roomy(n))
    {
      ghost var u, twice := View(), Twice(n);
      Below();
      var room := Twice(n) % WRAP;
      var m := pool.Alloc(Total(size, room) % WRAP, true, sys);
      ok := m > 0;
      if ok {
        NotRefused(u.inner, u.larges, pool.inner, pool.larges, m, Total(size, room) % WRAP);
        Settle(u, m, n, twice, room);
      } else {
        SafeStay(u, pool.inner, pool.larges, Total(size, room) % WRAP, Total(size, nelts));
      }
    }

    // Room for n more elements: there is, if and only if nothing wraps around.
    method Room(n: nat, sys: System) returns (ok: bool)
      requires Valid() && n < WRAP && pool.Grants(Bytes(n), sys)
      modifies this`elts, this`nalloc, this`mem, pool
      ensures !ok ==> Valid() && elts == old(elts) && mem == old(mem) && nalloc == old(nalloc)
      ensures ok <==> old(Gains(n, sys))
      ensures ok ==> elts > 0 && (Roomy(n) <==> old(Sized(n)))
      ensures old(Sized(n)) ==> Valid() && Harm(old(View()), View(), Total(size, nelts)) == {}
    {
      SafeSame(pool.blocks, View(), pool.size, Total(size, nelts));
      Below();
      GoodIs();
      Wraps(nelts + n);
      if (nelts + n) % WRAP <= nalloc { return true; }
      if AtEnd(n) {
        ghost var before, hi := nalloc, End() + Total(size, n);
        Extend(n);
        if hi >= WRAP { TooFar(n, before); }
        GoodIs();
        return true;
      }
      ok := Move(n, sys);
      GoodIs();
    }

    // ngx_array_push_n; ngx_array_push is the same for one element.  The address of the new elements, or zero.  The
    // array is right afterwards, with n more elements, if and only if nothing wraps around.
    method PushN(n: nat, sys: System) returns (elt: nat)
      requires Valid() && n < WRAP && pool.Grants(Bytes(n), sys)
      modifies this, pool
      ensures elt > 0 <==> old(Gains(n, sys))
      ensures elt == 0 ==> Valid() && nelts == old(nelts) && elts == old(elts) && mem == old(mem)
      ensures elt > 0 ==> (Valid() && nelts == old(nelts) + n <==> old(Sized(n)))
      ensures elt > 0 && old(Sized(n)) ==> elt == elts + Total(size, old(nelts)) && elt + Total(size, n) <= End()
      ensures old(Sized(n)) ==> Safe(old(View()), View(), Total(size, old(nelts)))
    {
      ghost var u, sized, before := View(), Sized(n), Total(size, nelts);
      Below();
      Wraps(nelts + n);
      var ok := Room(n, sys);
      GoodIs();
      ghost var v := View();
      if ok {
        Placed(size, nelts, n, nalloc);
        elt := elts + Total(size, nelts);
        nelts := (nelts + n) % WRAP;
      } else {
        elt := 0;
      }
      GoodIs();
      assert View() == v;
      Keeping(u, v, before, sized);
    }
  }

  // The regions are as they should be, and one of them is the one from lo to hi.
  ghost predicate Placing(blocks: seq<Block>, inner: seq<Inner>, larges: seq<Large>, size: nat, lo: nat, hi: nat) {
    BlocksOk(blocks, size) && InnerOk(blocks, inner) && LargesOk(blocks, larges) && Live(inner, larges, lo, hi)
  }

  ghost function Flaws(blocks: seq<Block>, inner: seq<Inner>, larges: seq<Large>, size: nat, lo: nat,
      hi: nat): set<nat> {
    set x | x in {size} && !Placing(blocks, inner, larges, x, lo, hi)
  }

  lemma NoFlaw(blocks: seq<Block>, inner: seq<Inner>, larges: seq<Large>, size: nat, lo: nat, hi: nat)
    ensures Flaws(blocks, inner, larges, size, lo, hi) == {} <==> Placing(blocks, inner, larges, size, lo, hi)
  {
    assert size in Flaws(blocks, inner, larges, size, lo, hi) <==> !Placing(blocks, inner, larges, size, lo, hi);
  }

  // The region of the array grows up to hi.
  lemma GrownRegion(u: Use, blocks: seq<Block>, size: nat, hi: nat, n: nat, blocks': seq<Block>)
      returns (inner': seq<Inner>)
    requires Flaws(blocks, u.inner, u.larges, size, u.lo, u.hi) == {} && blocks != []
    requires u.lo < u.hi == blocks[0].last <= hi <= blocks[0].end && blocks' == blocks[0 := blocks[0].(last := hi)]
    ensures Flaws(blocks', inner', u.larges, size, u.lo, hi) == {}
        && Harm(u, Use(inner', u.larges, u.mem, u.lo, hi), n) == {}
  {
    NoFlaw(blocks, u.inner, u.larges, size, u.lo, u.hi);
    var j := LastOfFirst(blocks, u.inner, u.larges, size, u.lo, u.hi);
    inner' := u.inner[j := u.inner[j].(hi := hi)];
    Grow(blocks, u.inner, u.larges, size, j, hi);
    GrowOthers(blocks', u.inner, u.larges, size, j, hi);
    SafeGrown(u, inner', u.larges, hi, n);
    assert inner'[j].lo == u.lo && inner'[j].hi == hi;
    NoFlaw(blocks', inner', u.larges, size, u.lo, hi);
  }

  lemma Enough(nelts: nat, nalloc: nat, n: nat)
    requires nelts <= nalloc
    ensures nelts + n <= 2 * if n >= nalloc then n else nalloc
  {}

  lemma HarmSame(u: Use, v: Use, w: Use, n: nat)
    requires v == w && Harm(u, v, n) == {}
    ensures Harm(u, w, n) == {}
  {}

  // Empty when the allocation is what is promised
  ghost function Refused(inner: seq<Inner>, larges: seq<Large>, inner': seq<Inner>, larges': seq<Large>, m: nat,
      n: nat): set<nat> {
    set x | x in {m} && !Given(inner, larges, inner', larges', x, n)
  }

  lemma NotRefused(inner: seq<Inner>, larges: seq<Large>, inner': seq<Inner>, larges': seq<Large>, m: nat, n: nat)
    ensures Refused(inner, larges, inner', larges', m, n) == {} <==> Given(inner, larges, inner', larges', m, n)
  {
    assert m in Refused(inner, larges, inner', larges', m, n) <==> !Given(inner, larges, inner', larges', m, n);
  }

  // The array in its new place
  lemma Settled(u: Use, inner: seq<Inner>, larges: seq<Large>, m: nat, size: nat, nelts: nat, nalloc: nat)
    requires nelts <= nalloc && m > 0 && Refused(u.inner, u.larges, inner, larges, m, Total(size, nalloc)) == {}
    ensures Live(inner, larges, m, m + Total(size, nalloc))
    ensures Harm(u, Use(inner, larges, Copied(u.mem, m, u.lo, Total(size, nelts)), m, m + Total(size, nalloc)),
        Total(size, nelts)) == {}
  {
    NotRefused(u.inner, u.larges, inner, larges, m, Total(size, nalloc));
    Times(size, nelts, nalloc - nelts);
    SafeMoved(u, inner, larges, m, Total(size, nalloc), Total(size, nelts));
  }

  // The new elements are behind the old ones, and within the room.
  lemma Placed(size: nat, nelts: nat, n: nat, nalloc: nat)
    ensures nelts + n <= nalloc ==> Total(size, nelts) + Total(size, n) <= Total(size, nalloc)
  {
    if nelts + n <= nalloc {
      Times(size, nelts, n);
      Times(size, nelts + n, nalloc - (nelts + n));
    }
  }

  lemma Wraps(x: nat)
    requires x < 2 * WRAP
    ensures x % WRAP == if x < WRAP then x else x - WRAP
  {}

  lemma Exact(last: nat, bytes: nat)
    ensures last + bytes < WRAP ==> (last + bytes % WRAP) % WRAP == last + bytes
  {
    if last + bytes < WRAP {
      NoWrap(bytes);
      NoWrap(last + bytes);
    }
  }

  // Fewer bytes than addresses, fewer elements than that
  lemma Few(size: nat, elts: nat, before: nat, n: nat)
    requires size >= 1 && elts + Total(size, before) + Total(size, n) < WRAP
    ensures (before + n) % WRAP == before + n
  {
    Times(size, before, n);
    TotalGe(size, before + n);
    var x, t := before + n, Total(size, before + n);
    assert x <= t < WRAP;
    NoWrap(x);
  }

  lemma {:induction false} TotalIs(size: nat, n: nat)
    ensures Total(size, n) == n * size
  {
    if n > 0 { TotalIs(size, n - 1); }
  }

  // The condition matters: 2^63 elements of two bytes take no room in 64 bits.
  lemma WrappedProduct()
    ensures Total(2, 0x8000_0000_0000_0000) == WRAP && Total(2, 0x8000_0000_0000_0000) % WRAP == 0
  {
    TotalIs(2, 0x8000_0000_0000_0000);
  }

  lemma {:induction false} TotalGe(size: nat, n: nat)
    requires size >= 1
    ensures Total(size, n) >= n
  {
    if n > 0 { TotalGe(size, n - 1); }
  }

  // The size of n elements
  function Total(size: nat, n: nat): nat {
    if n == 0 then 0 else size + Total(size, n - 1)
  }

  lemma {:induction false} Times(s: nat, a: nat, b: nat)
    ensures Total(s, a + b) == Total(s, a) + Total(s, b)
    ensures s >= 1 && a >= 1 ==> Total(s, a) >= 1
  {
    if b > 0 { Times(s, a, b - 1); }
  }
}
