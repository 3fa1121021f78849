/** ngx_buf.h and ngx_buf.c: buffers over memory, a file or both, chains of buffers, and the two
    functions that account for what was sent. */
module Buf {
  newtype byte = i: int | 0 <= i < 0x100

  // ngx_buf_t.  readOnly stands for `memory` and `mmap`, control for `flush`, `sync` and `last_buf`,
  // ours for a tag that equals the one of the output chain context.  The block is start..end.
  datatype Buf = Buf(
    block: seq<byte>, pos: nat, last: nat, temporary: bool, readOnly: bool,
    inFile: bool, file: seq<byte>, filePos: nat, fileLast: nat,
    control: bool, lastInChain: bool, ours: bool)

  // Memory: the buffers by address.  A chain is the sequence of the buffers of its links.
  type Bufs = map<nat, Buf>
  type Chain = seq<nat>

  // ngx_buf_in_memory
  predicate InMemory(b: Buf) {
    b.temporary || b.readOnly
  }

  // ngx_buf_special
  predicate Special(b: Buf) {
    b.control && !InMemory(b) && !b.inFile
  }

  // ngx_buf_size
  function Size(b: Buf): int {
    if InMemory(b) then b.last - b.pos else b.fileLast - b.filePos
  }

  // A buffer that is in memory and in a file has the same bytes in both.
  predicate BufOk(b: Buf) {
    && b.pos <= b.last <= |b.block| && b.filePos <= b.fileLast <= |b.file|
    && (InMemory(b) && b.inFile ==> b.block[b.pos..b.last] == b.file[b.filePos..b.fileLast])
    && (!InMemory(b) && !b.inFile ==> b.filePos == b.fileLast)
  }

  // The bytes that are still to be sent
  function Content(b: Buf): (r: seq<byte>)
    requires BufOk(b)
    ensures |r| == Size(b)
  {
    if InMemory(b) then b.block[b.pos..b.last] else b.file[b.filePos..b.fileLast]
  }

  // What goes through a chain: bytes, and the marks of the buffers that have no bytes and stand for a
  // flush or for the end of the response
  datatype Item = Data(value: byte) | Mark

  function Datas(s: seq<byte>): (r: seq<Item>)
    ensures |r| == |s| && forall i :: 0 <= i < |s| ==> r[i] == Data(s[i])
  {
    seq(|s|, i requires 0 <= i < |s| => Data(s[i]))
  }

  // What a buffer has to say: a buffer without memory and without a file has nothing but its mark.
  function Items(b: Buf): seq<Item>
    requires BufOk(b)
  {
    if b.temporary || b.readOnly then Datas(b.block[b.pos..b.last])
    else if b.inFile || !b.control then Datas(b.file[b.filePos..b.fileLast])
    else [Mark]
  }

  lemma ItemsAre(b: Buf)
    requires BufOk(b)
    ensures Items(b) == if Special(b) then [Mark] else Datas(Content(b))
  {}

  // The bytes among the items
  ghost function Bytes(f: seq<Item>): seq<byte> {
    if f == [] then [] else (if f[0] == Mark then [] else [f[0].value]) + Bytes(f[1..])
  }

  lemma {:induction false} BytesConcat(f: seq<Item>, g: seq<Item>)
    ensures Bytes(f + g) == Bytes(f) + Bytes(g)
  {
    if f == [] {
      assert f + g == g;
    } else {
      assert (f + g)[1..] == f[1..] + g;
      BytesConcat(f[1..], g);
      RegroupBytes(if f[0] == Mark then [] else [f[0].value], Bytes(f[1..]), Bytes(g));
    }
  }

  lemma RegroupBytes(a: seq<byte>, b: seq<byte>, c: seq<byte>)
    ensures a + (b + c) == a + b + c
  {}

  lemma {:induction false} BytesDatas(s: seq<byte>)
    ensures Bytes(Datas(s)) == s
  {
    if s != [] {
      assert Datas(s)[1..] == Datas(s[1..]);
      BytesDatas(s[1..]);
    }
  }

  // What is left when n bytes have gone: the marks before and between them go as well, and so do those
  // that come next.
  ghost function Left(f: seq<Item>, n: nat): seq<Item> {
    if f == [] || (f[0] != Mark && n == 0) then f else Left(f[1..], if f[0] == Mark then n else n - 1)
  }

  // What goes
  ghost function Went(f: seq<Item>, n: nat): seq<Item> {
    if f == [] || (f[0] != Mark && n == 0) then [] else [f[0]] + Went(f[1..], if f[0] == Mark then n else n - 1)
  }

  // The two make up the whole, min(n, all) bytes go, and no mark is at the head of what is left.
  lemma {:induction false} LeftIs(f: seq<Item>, n: nat)
    ensures Went(f, n) + Left(f, n) == f && |Bytes(Went(f, n))| == Min(n, |Bytes(f)|)
    ensures Left(f, n) != [] ==> Left(f, n)[0] != Mark
  {
    if f != [] && (f[0] == Mark || n > 0) {
      var m := if f[0] == Mark then n else n - 1;
      LeftIs(f[1..], m);
      assert Went(f, n)[1..] == Went(f[1..], m) && f == [f[0]] + f[1..];
    }
  }

  lemma {:induction false} LeftDatas(s: seq<byte>, f: seq<Item>, n: nat)
    ensures Left(Datas(s) + f, n) == if n < |s| then Datas(s[n..]) + f else Left(f, n - |s|)
  {
    var all := Datas(s) + f;
    if s == [] {
      assert all == f;
    } else if n == 0 {
      assert s[0..] == s && all[0] == Data(s[0]);
    } else {
      assert all[0] == Data(s[0]) && all[1..] == Datas(s[1..]) + f;
      LeftDatas(s[1..], f, n - 1);
      if n < |s| { assert s[1..][n - 1..] == s[n..]; }
    }
  }

  lemma LeftMark(f: seq<Item>, n: nat)
    ensures Left([Mark] + f, n) == Left(f, n)
  {
    assert ([Mark] + f)[1..] == f;
  }

  // How one buffer may have changed
  predicate Moved(b: Buf, b': Buf) {
    && BufOk(b) && BufOk(b') && b'.pos >= b.pos && b'.filePos >= b.filePos
    && b' == b.(pos := b'.pos, filePos := b'.filePos)
  }

  // The positions move on by n.
  function Step(b: Buf, n: nat): Buf {
    b.(pos := if InMemory(b) then b.pos + n else b.pos, filePos := if b.inFile then b.filePos + n else b.filePos)
  }

  // n bytes of the buffer are sent.
  function Advance(b: Buf, n: nat): (r: Buf)
    requires BufOk(b) && n <= Size(b)
    ensures BufOk(r) && Content(r) == Content(b)[n..] && Moved(b, r)
  {
    var r := Step(b, n);
    assert b.inFile ==> b.file[r.filePos..r.fileLast] == b.file[b.filePos..b.fileLast][n..];
    assert InMemory(b) ==> b.block[r.pos..r.last] == b.block[b.pos..b.last][n..];
    r
  }

  // The whole buffer is sent.
  lemma Emptied(b: Buf, b': Buf)
    requires BufOk(b)
    requires b' == b.(pos := if InMemory(b) then b.last else b.pos, filePos := if b.inFile then b.fileLast
        else b.filePos)
    ensures b' == Advance(b, Size(b))
  {
    assert InMemory(b) && b.inFile ==> |b.block[b.pos..b.last]| == |b.file[b.filePos..b.fileLast]|;
  }

  // ---------- chains ----------

  ghost predicate Unique(c: Chain) {
    forall i, j :: 0 <= i < j < |c| ==> c[i] != c[j]
  }

  ghost predicate ChainOk(bufs: Bufs, c: Chain) {
    forall x :: x in c ==> x in bufs && BufOk(bufs[x])
  }

  // The bytes and marks of a chain
  ghost function Flow(bufs: Bufs, c: Chain): seq<Item>
    requires ChainOk(bufs, c)
  {
    if c == [] then [] else Items(bufs[c[0]]) + Flow(bufs, c[1..])
  }

  lemma Regroup(a: seq<Item>, b: seq<Item>, c: seq<Item>)
    ensures a + (b + c) == a + b + c
  {}

  function Min(a: int, b: int): int {
    if a <= b then a else b
  }

  lemma {:induction false} FlowConcat(bufs: Bufs, a: Chain, b: Chain)
    requires ChainOk(bufs, a) && ChainOk(bufs, b)
    ensures ChainOk(bufs, a + b) && Flow(bufs, a + b) == Flow(bufs, a) + Flow(bufs, b)
  {
    if a == [] {
      assert a + b == b;
    } else {
      assert (a + b)[1..] == a[1..] + b;
      FlowConcat(bufs, a[1..], b);
      Regroup(Items(bufs[a[0]]), Flow(bufs, a[1..]), Flow(bufs, b));
    }
  }

  // Only the contents count.
  lemma {:induction false} FlowSame(bufs: Bufs, bufs': Bufs, c: Chain)
    requires ChainOk(bufs, c) && ChainOk(bufs', c)
    requires forall x :: x in c ==> Items(bufs'[x]) == Items(bufs[x])
    ensures Flow(bufs', c) == Flow(bufs, c)
  {
    if c != [] {
      assert forall x :: x in c[1..] ==> x in c;
      FlowSame(bufs, bufs', c[1..]);
    }
  }

  // ---------- ngx_chain_update_sent ----------

  // The buffers and the chain after n bytes of the chain c are gone
  ghost function Sent(bufs: Bufs, c: Chain, n: nat): (Bufs, Chain)
    requires ChainOk(bufs, c)
    decreases |c|
  {
    if c == [] then (bufs, c)
    else
      var b := bufs[c[0]];
      if Special(b) then Sent(bufs, c[1..], n)
      else if n == 0 then (bufs, c)
      else if n >= Size(b) then Sent(bufs[c[0] := Advance(b, Size(b))], c[1..], n - Size(b))
      else (bufs[c[0] := Advance(b, n)], c)
  }

  ghost predicate Advanced(bufs: Bufs, bufs': Bufs, c: Chain) {
    && bufs'.Keys == bufs.Keys
    && (forall x :: x in bufs && x !in c ==> bufs'[x] == bufs[x])
    && (forall x :: x in c ==> x in bufs && Moved(bufs[x], bufs'[x]))
  }

  lemma AdvancedStep(bufs: Bufs, c: Chain, b: Buf, bufs': Bufs)
    requires ChainOk(bufs, c) && c != [] && Unique(c) && Moved(bufs[c[0]], b)
    requires Advanced(bufs[c[0] := b], bufs', c[1..])
    ensures Advanced(bufs, bufs', c) && bufs'[c[0]] == b
  {
    assert c == [c[0]] + c[1..];
    assert c[0] !in c[1..];
  }

  lemma AdvancedNot(bufs: Bufs, c: Chain)
    requires ChainOk(bufs, c)
    ensures Advanced(bufs, bufs, c)
  {}

  lemma {:induction false} SentAdvanced(bufs: Bufs, c: Chain, n: nat)
    requires ChainOk(bufs, c) && Unique(c)
    ensures Advanced(bufs, Sent(bufs, c, n).0, c)
    decreases |c|
  {
    AdvancedNot(bufs, c);
    if c != [] {
      var b := bufs[c[0]];
      if Special(b) {
        SentAdvanced(bufs, c[1..], n);
        assert bufs == bufs[c[0] := b];
        AdvancedStep(bufs, c, b, Sent(bufs, c[1..], n).0);
      } else if n > 0 && n >= Size(b) {
        AdvancedWhole(bufs, c, n);
      } else if n > 0 {
        AdvancedNot(bufs[c[0] := Advance(b, n)], c[1..]);
        AdvancedStep(bufs, c, Advance(b, n), bufs[c[0] := Advance(b, n)]);
      }
    }
  }

  lemma {:induction false} AdvancedWhole(bufs: Bufs, c: Chain, n: nat)
    requires ChainOk(bufs, c) && Unique(c) && c != [] && !Special(bufs[c[0]]) && n > 0 && n >= Size(bufs[c[0]])
    ensures Advanced(bufs, Sent(bufs, c, n).0, c)
    decreases |c|, 0
  {
    var b := bufs[c[0]];
    var b' := Advance(b, Size(b));
    var bufs1 := bufs[c[0] := b'];
    assert c[0] !in c[1..];
    SentAdvanced(bufs1, c[1..], n - Size(b));
    AdvancedStep(bufs, c, b', Sent(bufs1, c[1..], n - Size(b)).0);
  }

  // What is left is a tail of the chain, and the buffers before it are empty.
  ghost predicate Split(bufs: Bufs, bufs': Bufs, c: Chain, rest: Chain) {
    && |rest| <= |c| && rest == c[|c| - |rest|..]
    && (forall x :: x in c[..|c| - |rest|] ==> x in bufs' && Size(bufs'[x]) == 0)
    && (forall x :: x in rest ==> x in bufs && x in bufs' && (Size(bufs'[x]) == 0 ==> Size(bufs[x]) == 0))
  }

  lemma SplitStep(bufs: Bufs, c: Chain, b: Buf, bufs': Bufs, rest: Chain)
    requires ChainOk(bufs, c) && c != [] && Unique(c) && Size(b) == 0
    requires Split(bufs[c[0] := b], bufs', c[1..], rest) && c[0] in bufs' && bufs'[c[0]] == b
    ensures Split(bufs, bufs', c, rest)
  {
    assert c[..|c| - |rest|] == [c[0]] + c[1..][..|c| - 1 - |rest|];
    assert c[0] !in c[1..];
    assert forall x :: x in rest ==> x in c[1..];
  }

  lemma {:induction false} SentSplit(bufs: Bufs, c: Chain, n: nat)
    requires ChainOk(bufs, c) && Unique(c)
    ensures Split(bufs, Sent(bufs, c, n).0, c, Sent(bufs, c, n).1)
    decreases |c|
  {
    if c != [] {
      var b := bufs[c[0]];
      if Special(b) {
        assert bufs == bufs[c[0] := b];
        SplitGone(bufs, c, b, n);
      } else if n > 0 && n >= Size(b) {
        SplitGone(bufs, c, Advance(b, Size(b)), n - Size(b));
      }
    }
  }

  lemma {:induction false} SplitGone(bufs: Bufs, c: Chain, b: Buf, n: nat)
    requires ChainOk(bufs, c) && Unique(c) && c != [] && Moved(bufs[c[0]], b) && Size(b) == 0
    ensures var r := Sent(bufs[c[0] := b], c[1..], n); Split(bufs, r.0, c, r.1)
    decreases |c|, 0
  {
    var bufs1 := bufs[c[0] := b];
    assert c[0] !in c[1..];
    SentSplit(bufs1, c[1..], n);
    SentAdvanced(bufs1, c[1..], n);
    SplitStep(bufs, c, b, Sent(bufs1, c[1..], n).0, Sent(bufs1, c[1..], n).1);
  }

  // Exactly the first n bytes of the chain go, and the marks among them.
  lemma {:induction false} SentFlow(bufs: Bufs, c: Chain, n: nat)
    requires ChainOk(bufs, c) && Unique(c) && forall x :: x in c ==> Special(bufs[x]) || Size(bufs[x]) > 0
    ensures ChainOk(Sent(bufs, c, n).0, Sent(bufs, c, n).1)
    ensures Flow(Sent(bufs, c, n).0, Sent(bufs, c, n).1) == Left(Flow(bufs, c), n)
    decreases |c|
  {
    if c != [] {
      var b := bufs[c[0]];
      assert c[0] !in c[1..] && c[0] in c && forall x :: x in c[1..] ==> x in c;
      ItemsAre(b);
      if Special(b) {
        LeftMark(Flow(bufs, c[1..]), n);
        SentFlow(bufs, c[1..], n);
      } else if n >= Size(b) {
        SentWhole(bufs, c, n);
        SentFlow(bufs[c[0] := Advance(b, Size(b))], c[1..], n - Size(b));
      } else {
        SentPart(bufs, c, n);
      }
    }
  }

  lemma SentWhole(bufs: Bufs, c: Chain, n: nat)
    requires ChainOk(bufs, c) && c != [] && c[0] !in c[1..] && !Special(bufs[c[0]]) && n >= Size(bufs[c[0]])
    ensures var bufs1 := bufs[c[0] := Advance(bufs[c[0]], Size(bufs[c[0]]))];
            ChainOk(bufs1, c[1..]) && Left(Flow(bufs, c), n) == Left(Flow(bufs1, c[1..]), n - Size(bufs[c[0]]))
  {
    var b := bufs[c[0]];
    ItemsAre(b);
    FlowSame(bufs, bufs[c[0] := Advance(b, Size(b))], c[1..]);
    LeftDatas(Content(b), Flow(bufs, c[1..]), n);
  }

  lemma SentPart(bufs: Bufs, c: Chain, n: nat)
    requires ChainOk(bufs, c) && c != [] && c[0] !in c[1..] && !Special(bufs[c[0]]) && n < Size(bufs[c[0]])
    ensures var bufs1 := bufs[c[0] := Advance(bufs[c[0]], n)];
            ChainOk(bufs1, c) && Flow(bufs1, c) == Left(Flow(bufs, c), n)
    ensures n == 0 ==> Left(Flow(bufs, c), n) == Flow(bufs, c)
  {
    var b := bufs[c[0]];
    ItemsAre(b);
    ItemsAre(Advance(b, n));
    FlowSame(bufs, bufs[c[0] := Advance(b, n)], c[1..]);
    LeftDatas(Content(b), Flow(bufs, c[1..]), n);
    assert Content(b)[0..] == Content(b);
  }

  // ngx_chain_update_sent
  method UpdateSent(bufs0: Bufs, c: Chain, sent0: nat) returns (bufs: Bufs, rest: Chain)
    requires ChainOk(bufs0, c)
    ensures (bufs, rest) == Sent(bufs0, c, sent0)
  {
    bufs := bufs0;
    rest := c;
    var sent: nat := sent0;
    while rest != []
      invariant ChainOk(bufs, rest)
      invariant Sent(bufs, rest, sent) == Sent(bufs0, c, sent0)
    {
      var b := bufs[rest[0]];
      if Special(b) {
        rest := rest[1..];
        continue;
      }
      if sent == 0 { break; }
      var size := Size(b);
      if sent >= size {
        sent := sent - size;
        ghost var b0 := b;
        if InMemory(b) { b := b.(pos := b.last); }
        if b.inFile { b := b.(filePos := b.fileLast); }
        Emptied(b0, b);
        bufs := bufs[rest[0] := b];
        rest := rest[1..];
        continue;
      }
      ghost var b0 := b;
      if InMemory(b) { b := b.(pos := b.pos + sent); }
      if b.inFile { b := b.(filePos := b.filePos + sent); }
      assert b == Advance(b0, sent);
      bufs := bufs[rest[0] := b];
      break;
    }
  }

  // ---------- ngx_chain_update_chains ----------

  function Reset(b: Buf): Buf {
    b.(pos := 0, last := 0)
  }

  // Empty buffers leave the head of the busy chain; those of our own go to the free chain.
  ghost function Recycled(bufs: Bufs, free: Chain, busy: Chain): (Bufs, Chain, Chain)
    requires ChainOk(bufs, busy)
    decreases |busy|
  {
    if busy == [] || Size(bufs[busy[0]]) != 0 then (bufs, free, busy)
    else if !bufs[busy[0]].ours then Recycled(bufs, free, busy[1..])
    else Recycled(bufs[busy[0] := Reset(bufs[busy[0]])], [busy[0]] + free, busy[1..])
  }

  lemma ResetOk(b: Buf)
    requires BufOk(b) && Size(b) == 0
    ensures BufOk(Reset(b)) && Items(Reset(b)) == Items(b)
  {
    ItemsAre(b);
    ItemsAre(Reset(b));
    assert InMemory(b) && b.inFile ==> |b.block[b.pos..b.last]| == |b.file[b.filePos..b.fileLast]|;
  }

  method UpdateChains(bufs0: Bufs, free0: Chain, busy0: Chain, out: Chain)
      returns (bufs: Bufs, free: Chain, busy: Chain)
    requires ChainOk(bufs0, busy0 + out)
    ensures (bufs, free, busy) == Recycled(bufs0, free0, busy0 + out)
  {
    bufs, free := bufs0, free0;
    busy := if busy0 == [] then out else busy0 + out;
    assert busy == busy0 + out;
    while busy != []
      invariant ChainOk(bufs, busy)
      invariant Recycled(bufs, free, busy) == Recycled(bufs0, free0, busy0 + out)
      decreases |busy|
    {
      var x := busy[0];
      var b := bufs[x];
      if Size(b) != 0 { break; }
      if !b.ours {
        busy := busy[1..];
        continue;
      }
      ResetOk(b);
      bufs := bufs[x := b.(pos := 0, last := 0)];
      busy := busy[1..];
      free := [x] + free;
    }
  }
}
