/** ngx_output_chain.c over ngx_chain_writer: buffers are passed on as they are or copied through a
    bounded number of temporary buffers, and none of their bytes is lost, repeated or reordered. */
module OutputChain {
  import opened Buf
  import opened ChainState

  datatype Code = Ok | Again | Failed

  // The part of ngx_output_chain_as_is that changes the buffer: without sendfile, a buffer that is in
  // memory is not in a file any more.
  function Tagged(b: Buf, sendfile: bool): Buf {
    if !Special(b) && !sendfile && InMemory(b) then b.(inFile := false) else b
  }

  // memcpy into the buffer
  function Poured(dst: Buf, data: seq<byte>): Buf
    requires dst.pos + |data| <= |dst.block|
  {
    dst.(block := dst.block[..dst.pos] + data + dst.block[dst.pos + |data|..], last := dst.last + |data|)
  }

  // The flags and the place in the file that dst gets with n bytes of src
  function Labelled(d: Buf, src: Buf, n: nat, sendfile: bool): Buf {
    var d1 := if src.inFile && sendfile
              then d.(inFile := true, file := src.file, filePos := src.filePos, fileLast := src.filePos + n)
              else d.(inFile := false);
    if n == Size(src) then d1.(control := src.control, lastInChain := src.lastInChain) else d1
  }

  // The head of the buffer src, n bytes of it, in dst
  function Filled(dst: Buf, src: Buf, n: nat, sendfile: bool): Buf
    requires BufOk(src) && n <= Size(src) && dst.pos + n <= |dst.block|
  {
    Labelled(Poured(dst, Content(src)[..n]), src, n, sendfile)
  }

  lemma PouredBytes(dst: Buf, data: seq<byte>)
    requires Blank(dst) && |data| <= |dst.block|
    ensures (var d := Poured(dst, data);
             && |d.block| == |dst.block| && d.pos == 0 && d.last == |data| && d.block[0..|data|] == data && d.ours
                 && d.temporary)
  {}

  lemma LabelledOk(d: Buf, src: Buf, n: nat, sendfile: bool)
    requires BufOk(src) && n <= Size(src) && d.temporary && d.pos == 0 && d.last == n <= |d.block|
        && d.block[0..n] == Content(src)[..n]
    requires d.filePos <= d.fileLast <= |d.file|
    ensures BufOk(Labelled(d, src, n, sendfile))
  {
    if src.inFile && sendfile { Head(src.file, src.filePos, src.fileLast, n); }
  }

  lemma FilledOk(dst: Buf, src: Buf, n: nat, sendfile: bool)
    requires BufOk(src) && 0 < n <= Size(src) && Blank(dst) && n <= |dst.block| && BufOk(dst)
    ensures BufOk(Filled(dst, src, n, sendfile)) && Live(Filled(dst, src, n, sendfile))
  {
    PouredBytes(dst, Content(src)[..n]);
    LabelledOk(Poured(dst, Content(src)[..n]), src, n, sendfile);
  }

  lemma FilledContent(dst: Buf, src: Buf, n: nat, sendfile: bool)
    requires BufOk(src) && 0 < n <= Size(src) && Blank(dst) && n <= |dst.block| && BufOk(Filled(dst, src, n, sendfile))
    ensures Items(src) == Items(Filled(dst, src, n, sendfile)) + Items(Advance(src, n))
    ensures Size(Advance(src, n)) == 0 ==> Items(Advance(src, n)) == []
  {
    var d := Filled(dst, src, n, sendfile);
    FilledBytes(dst, src, n, sendfile);
    BytesOnly(src);
    BytesOnly(d);
    BytesOnly(Advance(src, n));
    DatasSplit(Content(src), n);
  }

  lemma FilledBytes(dst: Buf, src: Buf, n: nat, sendfile: bool)
    requires BufOk(src) && 0 < n <= Size(src) && Blank(dst) && n <= |dst.block| && BufOk(Filled(dst, src, n, sendfile))
    ensures InMemory(Filled(dst, src, n, sendfile)) && Content(Filled(dst, src, n, sendfile)) == Content(src)[..n]
  {
    PouredBytes(dst, Content(src)[..n]);
  }

  // With the last byte of src its flags go to the copy.  A copy of less keeps the flags that dst has,
  // and those are left over from its last use when dst comes from the free chain.
  lemma FilledFlags(dst: Buf, src: Buf, n: nat, sendfile: bool)
    requires BufOk(src) && 0 < n <= Size(src) && Blank(dst) && n <= |dst.block|
    ensures var d := Filled(dst, src, n, sendfile);
            && (d.inFile <==> src.inFile && sendfile)
            && (d.inFile ==> d.file == src.file && d.filePos == src.filePos && d.fileLast == src.filePos + n)
            && d.control == (if Size(Advance(src, n)) == 0 then src else dst).control
            && d.lastInChain == (if Size(Advance(src, n)) == 0 then src else dst).lastInChain
            && d.ours && d.temporary && d.readOnly == dst.readOnly
  {
    PouredBytes(dst, Content(src)[..n]);
    assert |Content(Advance(src, n))| == Size(src) - n;
  }

  lemma BytesOnly(b: Buf)
    requires BufOk(b) && (InMemory(b) || b.inFile)
    ensures Items(b) == Datas(Content(b))
  {}

  lemma DatasSplit(s: seq<byte>, n: nat)
    requires n <= |s|
    ensures Datas(s) == Datas(s[..n]) + Datas(s[n..])
  {}

  // ngx_output_chain_copy_buf, from memory or from a file that can be read
  method CopyBytes(src: Buf, dst0: Buf, n: nat) returns (dst: Buf)
    requires BufOk(src) && n <= Size(src) && dst0.pos + n <= |dst0.block| && (InMemory(src) || src.inFile)
    ensures dst == Poured(dst0, Content(src)[..n])
  {
    var data;
    if InMemory(src) {
      data := src.block[src.pos..src.pos + n];
      Head(src.block, src.pos, src.last, n);
    } else {
      data := src.file[src.filePos..src.filePos + n];
      Head(src.file, src.filePos, src.fileLast, n);
    }
    dst := dst0.(block := dst0.block[..dst0.pos] + data + dst0.block[dst0.pos + n..]);
    dst := dst.(last := dst.last + n);
  }

  method CopyFlags(src: Buf, dst0: Buf, n: nat, sendfile: bool) returns (dst: Buf)
    ensures dst == Labelled(dst0, src, n, sendfile)
  {
    if src.inFile && sendfile {
      dst := dst0.(inFile := true, file := src.file, filePos := src.filePos, fileLast := src.filePos + n);
    } else {
      dst := dst0.(inFile := false);
    }
    if n == Size(src) { dst := dst.(control := src.control, lastInChain := src.lastInChain); }
  }

  method MoveOn(src0: Buf, n: nat) returns (src: Buf)
    ensures src == Step(src0, n)
  {
    src := src0;
    if InMemory(src) { src := src.(pos := src.pos + n); }
    if src.inFile { src := src.(filePos := src.filePos + n); }
  }

  lemma Head(s: seq<byte>, lo: nat, hi: nat, n: nat)
    requires lo <= hi <= |s| && n <= hi - lo
    ensures s[lo..lo + n] == s[lo..hi][..n]
  {}

  lemma TaggedOk(b: Buf, sendfile: bool)
    requires BufOk(b)
    ensures (var b' := Tagged(b, sendfile);
             && BufOk(b') && b' == b.(inFile := b'.inFile) && (b'.inFile ==> b.inFile)
             && (!sendfile && InMemory(b) ==> !b'.inFile) && (sendfile || !InMemory(b) ==> b' == b)
             && Items(b') == Items(b) && b'.ours == b.ours && Special(b') == Special(b)
                 && Size(b') == Size(b))
  {}

  // What ngx_chain_writer appends: it leaves out empty buffers that are not special.
  ghost function Useful(bufs: Bufs, c: Chain): Chain
    requires forall x :: x in c ==> x in bufs
  {
    if c == [] then [] else Kept(bufs, c[0]) + Useful(bufs, c[1..])
  }

  ghost function Kept(bufs: Bufs, x: nat): Chain
    requires x in bufs
  {
    if Size(bufs[x]) == 0 && !Special(bufs[x]) then [] else [x]
  }

  lemma {:induction false} AllUseful(bufs: Bufs, c: Chain)
    requires forall x :: x in c ==> x in bufs && Live(bufs[x])
    ensures Useful(bufs, c) == c
  {
    if c != [] {
      assert forall x :: x in c[1..] ==> x in c;
      AllUseful(bufs, c[1..]);
    }
  }

  lemma {:induction false} UsefulPush(bufs: Bufs, c: Chain, x: nat)
    requires (forall y :: y in c ==> y in bufs) && x in bufs
    ensures Useful(bufs, c + [x]) == Useful(bufs, c) + Kept(bufs, x)
  {
    if c == [] {
      assert [] + [x] == [x];
      assert Useful(bufs, [x]) == Kept(bufs, x) + Useful(bufs, [x][1..]);
    } else {
      assert (c + [x])[1..] == c[1..] + [x];
      UsefulPush(bufs, c[1..], x);
      RegroupChain(Kept(bufs, c[0]), Useful(bufs, c[1..]), Kept(bufs, x));
    }
  }

  lemma RegroupChain(a: Chain, b: Chain, c: Chain)
    ensures a + (b + c) == (a + b) + c
  {}

  lemma HoldFacts(c: Ctx)
    requires Faults(c) == {}
    ensures |c.hold| <= 1 && c.count <= c.num
    ensures c.hold != [] ==>
        c.hold[0] in c.bufs && BufOk(c.bufs[c.hold[0]]) && Blank(c.bufs[c.hold[0]]) && c.hold[0] !in c.input
  {
    NoFault(c);
    if c.hold != [] { HoldElsewhere(c); }
  }

  lemma HeadFacts(c: Ctx)
    requires Faults(c) == {}
    ensures ChainOk(c.bufs, c.input) && (c.input != [] ==>
        c.input[0] in c.bufs && BufOk(c.bufs[c.input[0]]) && !c.bufs[c.input[0]].ours)
  {
    NoFault(c);
  }

  lemma CopyFacts(c: Ctx)
    requires Faults(c) == {} && |c.hold| == 1 && c.input != []
    ensures c.hold[0] in c.bufs && BufOk(c.bufs[c.hold[0]]) && Blank(c.bufs[c.hold[0]]) && c.input[0] != c.hold[0]
  {
    HoldFacts(c);
  }

  // How much there is to do
  ghost function Load(c: Ctx): nat {
    if ChainOk(c.bufs, c.input) then Work(c.bufs, c.input) else 0
  }

  // The bytes that the filter has been given and that it has not sent
  ghost function Due(bufs: Bufs, c: Chain): seq<Item> {
    if ChainOk(bufs, c) then Flow(bufs, c) else []
  }

  lemma NothingDue(bufs: Bufs)
    ensures Bytes(Due(bufs, [])) == []
  {}

  ghost function Debt(c: Ctx): seq<Item> {
    Due(c.bufs, c.pending)
  }

  lemma CopyLighter(c: Ctx, src: Buf, dst: Buf)
    requires Faults(c) == {} && CopyOk(c, src, dst)
    ensures Load(Copied(c, src, dst)) < Load(c) && Debt(Copied(c, src, dst)) == Debt(c)
  {
    NoFault(c);
    Elsewhere(c);
    HoldElsewhere(c);
    var c' := Copied(c, src, dst);
    CopiedInput(c, src, dst);
    FlowSet2(c.bufs, c.input[0], src, c.hold[0], dst, c.pending);
    WorkSame(c.bufs, c'.bufs, c.input[1..]);
  }

  // The buffer that is held joins the output, and an empty head leaves the input.
  ghost function Joined(c: Ctx, bufs: Bufs): Ctx
    requires c.input != [] && c.hold != [] && c.input[0] in bufs
  {
    Ctx(bufs, if Size(bufs[c.input[0]]) == 0 then c.input[1..] else c.input, c.out + [c.hold[0]], c.free, [], c.busy,
        c.pending, c.count, c.num, c.sent, c.submitted)
  }

  lemma CopyRight(c: Ctx, sendfile: bool, bufs: Bufs)
    requires Faults(c) == {} && c.input != [] && |c.hold| == 1 && c.input[0] in c.bufs && c.hold[0] in c.bufs
    requires BufOk(c.bufs[c.input[0]]) && Size(c.bufs[c.input[0]]) > 0 && Blank(c.bufs[c.hold[0]])
    requires (var src, dst := c.bufs[c.input[0]], c.bufs[c.hold[0]];
              var n: nat := Min(Size(src), |dst.block|);
              bufs == c.bufs[c.input[0] := Advance(src, n)][c.hold[0] := Filled(dst, src, n, sendfile)])
    ensures c.input[0] in bufs && Faults(Joined(c, bufs)) == {} && Load(Joined(c, bufs)) < Load(c)
    ensures Debt(Joined(c, bufs)) == Debt(c)
  {
    var src, dst := c.bufs[c.input[0]], c.bufs[c.hold[0]];
    var n: nat := Min(Size(src), |dst.block|);
    HeadFacts(c);
    HoldFacts(c);
    CopyFits(c, src, dst, n, sendfile);
    CopyJoins(c, Advance(src, n), Filled(dst, src, n, sendfile));
  }

  lemma CopyFits(c: Ctx, src: Buf, dst: Buf, n: nat, sendfile: bool)
    requires c.input != [] && |c.hold| == 1 && c.input[0] in c.bufs && c.bufs[c.input[0]] == src && !src.ours
    requires BufOk(src) && BufOk(dst) && Blank(dst) && Size(src) > 0 && n == Min(Size(src), |dst.block|)
    ensures CopyOk(c, Advance(src, n), Filled(dst, src, n, sendfile))
  {
    FilledOk(dst, src, n, sendfile);
    FilledContent(dst, src, n, sendfile);
    assert |Content(Advance(src, n))| < |Content(src)|;
  }

  lemma CopyJoins(c: Ctx, src: Buf, dst: Buf)
    requires Faults(c) == {} && CopyOk(c, src, dst) && c.input[0] != c.hold[0]
    ensures var c' := Joined(c, c.bufs[c.input[0] := src][c.hold[0] := dst]);
        Faults(c') == {} && Load(c') < Load(c) && Debt(c') == Debt(c)
  {
    Copy(c, src, dst);
    CopyLighter(c, src, dst);
    assert Joined(c, c.bufs[c.input[0] := src][c.hold[0] := dst]) == Copied(c, src, dst);
  }

  lemma PassLighter(c: Ctx, b: Buf)
    requires Faults(c) == {} && c.input != [] && BufOk(b)
    ensures Load(Passed(c, b)) < Load(c) && Load(c.(input := c.input[1..])) < Load(c)
    ensures Debt(Passed(c, b)) == Debt(c) == Debt(c.(input := c.input[1..]))
  {
    NoFault(c);
    Elsewhere(c);
    FlowSet(c.bufs, c.input[0], b, c.pending);
    WorkSame(c.bufs, c.bufs[c.input[0] := b], c.input[1..]);
  }

  lemma MakeLoad(c: Ctx, y: nat, b: Buf)
    requires Faults(c) == {} && y !in c.bufs
    ensures Load(Made(c, y, b)) == Load(c) && Debt(Made(c, y, b)) == Debt(c)
  {
    NoFault(c);
    FlowSet(c.bufs, y, b, c.pending);
    WorkSame(c.bufs, c.bufs[y := b], c.input);
  }

  lemma RetagLoad(c: Ctx, b: Buf)
    requires Faults(c) == {} && c.input != [] && c.input[0] in c.bufs && BufOk(b) && Size(b) == Size(c.bufs[c.input[0]])
    ensures Load(c.(bufs := c.bufs[c.input[0] := b])) == Load(c)
    ensures Debt(c.(bufs := c.bufs[c.input[0] := b])) == Debt(c)
  {
    NoFault(c);
    Elsewhere(c);
    FlowSet(c.bufs, c.input[0], b, c.pending);
    WorkSame(c.bufs, c.bufs[c.input[0] := b], c.input);
  }

  lemma BytesCount(b: Buf)
    requires BufOk(b)
    ensures |Bytes(Items(b))| == Size(b)
  {
    ItemsAre(b);
    BytesDatas(Content(b));
    assert [Mark][1..] == [];
  }

  lemma TotalPush(bufs: Bufs, c: Chain, x: nat)
    requires ChainOk(bufs, c) && x in bufs && BufOk(bufs[x])
    ensures ChainOk(bufs, c + [x]) && |Bytes(Flow(bufs, c + [x]))| == |Bytes(Flow(bufs, c))| + Size(bufs[x])
  {
    FlowPush(bufs, c, x);
    BytesConcat(Flow(bufs, c), Items(bufs[x]));
    BytesCount(bufs[x]);
  }

  // What the filter does with its chain: nothing for k < 0, or it sends k bytes.
  ghost function Sending(c: Ctx, k: int): (Bufs, Chain)
    requires ChainOk(c.bufs, c.pending + c.out)
  {
    if k >= 0 then Sent(c.bufs, c.pending + c.out, k) else (c.bufs, c.pending + c.out)
  }

  ghost function Gone(c: Ctx, k: int): seq<Item>
    requires ChainOk(c.bufs, c.pending + c.out)
  {
    if k >= 0 then Went(Flow(c.bufs, c.pending + c.out), k) else []
  }

  lemma LineFacts(c: Ctx)
    requires Faults(c) == {}
    ensures ChainOk(c.bufs, c.pending + c.out)
  {
    NoFault(c);
  }

  // What a caller may submit
  ghost predicate Fit(c: Ctx, chain: Chain) {
    && ChainOk(c.bufs, chain) && (forall x :: x in chain ==> !c.bufs[x].ours)
    && Single(Everything(c) + multiset(chain))
  }

  // The filter has had its turn.
  ghost function Quiet(c: Ctx, k: int): Ctx
    requires ChainOk(c.bufs, c.pending + c.out)
  {
    c.(bufs := Sending(c, k).0, pending := Sending(c, k).1, out := [], sent := c.sent + Gone(c, k))
  }

  lemma SendingWrote(c: Ctx, k: int) returns (n: nat)
    requires Faults(c) == {}
    ensures ChainOk(c.bufs, c.pending + c.out)
    ensures Wrote(c, Sending(c, k).0, Sending(c, k).1, n)
    ensures Gone(c, k) == Flow(c.bufs, c.pending + c.out)[..n]
  {
    LineFacts(c);
    n := 0;
    if k >= 0 {
      WroteSome(c, k);
      n := |Gone(c, k)|;
    } else {
      WroteNothing(c);
    }
  }

  lemma FlushQuiet(c: Ctx, k: int)
    requires Faults(c) == {} && c.busy == [] && forall x :: x in c.out ==> x in c.bufs && !c.bufs[x].ours
    ensures ChainOk(c.bufs, c.pending + c.out) && Faults(Quiet(c, k)) == {}
  {
    LineFacts(c);
    var c1 := c.(pending := c.pending + c.out, out := []);
    HandOut(c);
    assert c1.pending + c1.out == c.pending + c.out;
    var n := SendingWrote(c1, k);
    Flush(c1, Sending(c1, k).0, Sending(c1, k).1, n);
    assert Quiet(c, k) == Flushed(c1, Sending(c1, k).0, Sending(c1, k).1, n);
  }

  // The state in which the filter is called on the short path
  ghost function Ready(c: Ctx, chain: Chain): Ctx
    requires ChainOk(c.bufs, chain)
  {
    c.(out := Useful(c.bufs, chain), submitted := c.submitted + Flow(c.bufs, chain))
  }

  lemma ReadyOne(c: Ctx, x: nat)
    requires Faults(c) == {} && c.input == [] && c.out == [] && Fit(c, [x])
    ensures Faults(Ready(c, [x])) == {}
  {
    Submit(c, [x]);
    var s := Submitted(c, [x]);
    assert s.input == [x] && s.input[1..] == [] && [x][1..] == [];
    assert Useful(c.bufs, [x]) == Kept(c.bufs, x) + Useful(c.bufs, [x][1..]);
    if Size(c.bufs[x]) == 0 && !Special(c.bufs[x]) {
      Skip(s);
      assert Ready(c, [x]) == s.(input := s.input[1..]);
    } else {
      Pass(s, s.bufs[x]);
      assert s.bufs == s.bufs[x := s.bufs[x]];
      assert Ready(c, [x]) == Passed(s, s.bufs[x]);
    }
  }

  lemma ShortReady(c: Ctx, chain: Chain)
    requires Faults(c) == {} && c.input == [] && c.out == [] && |chain| <= 1 && Fit(c, chain)
    ensures Faults(Ready(c, chain)) == {} && forall x :: x in Useful(c.bufs, chain) ==> x in c.bufs && !c.bufs[x].ours
  {
    if chain == [] {
      assert Ready(c, chain) == c;
    } else {
      assert chain == [chain[0]];
      ReadyOne(c, chain[0]);
      assert Useful(c.bufs, chain) == Kept(c.bufs, chain[0]) + Useful(c.bufs, chain[1..]);
      assert Useful(c.bufs, chain[1..]) == [];
    }
  }

  lemma LiveOut(c: Ctx)
    requires Faults(c) == {}
    ensures (forall x :: x in c.out ==> x in c.bufs) && Useful(c.bufs, c.out) == c.out
  {
    NoFault(c);
    AllUseful(c.bufs, c.out);
  }

  lemma FlushLoad(c: Ctx, b1: Bufs, rest: Chain, n: nat)
    requires Faults(c) == {} && Wrote(c, b1, rest, n) && ChainOk(b1, c.busy + c.out)
    ensures Load(Flushed(c, b1, rest, n)) == Load(c)
  {
    NoFault(c);
    var c' := Flushed(c, b1, rest, n);
    var k := FlushLine(c, b1, rest, n);
    SettledOthers(c, b1, rest, k, c'.bufs, c'.busy);
    forall x | x in c.input ensures x in c'.bufs && c'.bufs[x] == c.bufs[x] { assert x in c.input + c.free + c.hold; }
    WorkSame(c.bufs, c'.bufs, c.input);
  }

  lemma FlushDebt(c: Ctx, b1: Bufs, rest: Chain, n: nat)
    requires Faults(c) == {} && Wrote(c, b1, rest, n) && ChainOk(b1, c.busy + c.out)
    ensures ChainOk(b1, rest) && Debt(Flushed(c, b1, rest, n)) == Flow(b1, rest)
  {
    NoFault(c);
    var c' := Flushed(c, b1, rest, n);
    var k := FlushLine(c, b1, rest, n);
    SettledRest(c, b1, rest, k, c'.bufs, c'.busy);
    FlowSame(b1, c'.bufs, rest);
  }

  // The filter has had its turn, and the buffers that it has sent are back.
  ghost function Taken(c: Ctx, k: int): Ctx
    requires ChainOk(c.bufs, c.pending + c.out) && ChainOk(Quiet(c, k).bufs, c.busy + c.out)
  {
    var q := Quiet(c, k);
    var r := Recycled(q.bufs, q.free, q.busy + c.out);
    q.(bufs := r.0, free := r.1, busy := r.2)
  }

  lemma FlushTaken(c: Ctx, k: int)
    requires Faults(c) == {}
    ensures ChainOk(c.bufs, c.pending + c.out) && ChainOk(Quiet(c, k).bufs, c.busy + c.out)
    ensures Faults(Taken(c, k)) == {} && Load(Taken(c, k)) == Load(c)
    ensures Due(Taken(c, k).bufs, Taken(c, k).pending) == Due(Quiet(c, k).bufs, Quiet(c, k).pending)
  {
    LineFacts(c);
    var bufs, pending := Sending(c, k).0, Sending(c, k).1;
    var n := SendingWrote(c, k);
    Flush(c, bufs, pending, n);
    FlushLoad(c, bufs, pending, n);
    FlushDebt(c, bufs, pending, n);
    assert Taken(c, k) == Flushed(c, bufs, pending, n);
  }

  // When no byte is pending and nothing is left of the input, all bytes have been sent.
  lemma AllSent(c: Ctx)
    requires Faults(c) == {} && c.out == [] && c.input == [] && Bytes(Due(c.bufs, c.pending)) == []
    ensures Bytes(c.sent) == Bytes(c.submitted)
  {
    Conservation(c);
    assert c.submitted == c.sent + Flow(c.bufs, c.pending);
    BytesConcat(c.sent, Flow(c.bufs, c.pending));
  }

  // The flags of a buffer that is about to be submitted may change.
  lemma TagNew(c: Ctx, chain: Chain, b: Buf)
    requires Faults(c) == {} && Fit(c, chain) && |chain| == 1
    requires BufOk(b) && Items(b) == Items(c.bufs[chain[0]]) && !b.ours
    ensures var c' := c.(bufs := c.bufs[chain[0] := b]);
        Faults(c') == {} && Fit(c', chain) && Flow(c'.bufs, chain) == Flow(c.bufs, chain)
  {
    NoFault(c);
    var x := chain[0];
    assert chain == [x];
    var c' := c.(bufs := c.bufs[x := b]);
    assert multiset(chain)[x] == 1;
    assert (Everything(c) + multiset(chain))[x] == 1;
    assert x !in Everything(c);
    FlowOne(c.bufs, x);
    FlowOne(c'.bufs, x);
    TagElsewhere(c, x, b);
    NoFault(c');
  }

  lemma TagElsewhere(c: Ctx, x: nat, b: Buf)
    requires Inv(c) && x !in Everything(c)
    ensures Inv(c.(bufs := c.bufs[x := b]))
  {
    TagFlow(c, x, b);
    TagRoles(c, x, b);
  }

  lemma TagFlow(c: Ctx, x: nat, b: Buf)
    requires FlowOk(c) && x !in Everything(c)
    ensures FlowOk(c.(bufs := c.bufs[x := b]))
  {
    assert x !in c.pending && x !in c.out && x !in c.input && x !in c.free && x !in c.hold;
    FlowSet(c.bufs, x, b, c.pending);
    FlowSet(c.bufs, x, b, c.out);
    FlowSet(c.bufs, x, b, c.input);
    FlowSet(c.bufs, x, b, c.free);
    FlowSet(c.bufs, x, b, c.hold);
  }

  lemma TagRoles(c: Ctx, x: nat, b: Buf)
    requires RolesOk(c) && BusyOk(c) && CountOk(c) && x !in Everything(c)
    ensures var c' := c.(bufs := c.bufs[x := b]); RolesOk(c') && BusyOk(c') && CountOk(c')
  {
    assert x !in c.pending && x !in c.out && x !in c.input && x !in c.free && x !in c.hold;
    OursSame(c.bufs, c.bufs[x := b], c.busy);
    OursSame(c.bufs, c.bufs[x := b], c.out);
  }

  // A new buffer: empty, over n bytes of memory of its own
  ghost predicate New(b: Buf, n: int) {
    |b.block| == n && b.pos == b.last == 0 && InMemory(b) && b.temporary && !b.readOnly && !b.inFile
    && b.filePos == b.fileLast == |b.file| && !b.control && !b.lastInChain && b.ours
  }

  class OutputChain {
    var bufs: Bufs
    var input: Chain
    var free: Chain
    var hold: Chain        // ctx->buf, at most one
    var busy: Chain
    var count: nat         // ctx->allocated
    const num: nat
    const size: nat
    const sendfile: bool
    const needInMemory: bool
    const needInTemp: bool
    var pending: Chain     // the chain in the context of ngx_chain_writer
    var buffered: bool     // whether the connection keeps something back
    ghost var sent: seq<Item>
    ghost var submitted: seq<Item>

    ghost function View(out: Chain): Ctx
      reads this
    {
      Ctx(bufs, input, out, free, hold, busy, pending, count, num, sent, submitted)
    }

    ghost predicate Valid()
      reads this
    {
      Faults(View([])) == {}
    }

    constructor (bufs: Bufs, num: nat, size: nat, sendfile: bool, needInMemory: bool, needInTemp: bool)
      ensures Valid() && this.bufs == bufs && input == [] && pending == [] && sent == [] && submitted == []
      ensures this.num == num && this.size == size
    {
      this.bufs, this.num, this.size := bufs, num, size;
      this.sendfile, this.needInMemory, this.needInTemp := sendfile, needInMemory, needInTemp;
      input, free, hold, busy, pending, count := [], [], [], [], [], 0;
      sent, submitted, buffered := [], [], false;
      new;
      NoFault(View([]));
    }

    // ngx_output_chain_as_is
    method AsIs(x: nat) returns (yes: bool)
      requires x in bufs
      modifies this`bufs
      ensures bufs == old(bufs)[x := Tagged(old(bufs)[x], sendfile)]
      ensures (var b := old(bufs)[x];
               yes <==> Special(b) || ((InMemory(b) || (sendfile && !needInMemory)) && !(needInTemp && b.readOnly)))
    {
      var b := bufs[x];
      if Special(b) { return true; }
      if !sendfile {
        if !InMemory(b) { return false; }
        bufs := bufs[x := b.(inFile := false)];
      }
      if needInMemory && !InMemory(b) { return false; }
      if needInTemp && b.readOnly { return false; }
      return true;
    }

    // ngx_output_chain_get_buf
    method GetBuf(ghost out: Chain) returns (rc: Code)
      requires Faults(View(out)) == {} && input != [] && input[0] in bufs && Size(bufs[input[0]]) > 0 && hold == []
          && count < num && size > 0
      modifies this`bufs, this`hold, this`count
      ensures rc == Ok || rc == Failed
      ensures rc == Ok ==> |hold| == 1 && hold[0] in bufs && hold[0] !in old(bufs)
      ensures rc == Ok ==> View(out) == Made(old(View(out)), hold[0], bufs[hold[0]])
      ensures (var n := Size(old(bufs)[input[0]]);
               var exact := old(bufs)[input[0]].lastInChain && (n < size || (num == 1 && n < size + size / 4));
               rc == Ok ==> New(bufs[hold[0]], if exact then n else size))
    {
      var b := bufs[input[0]];
      var bsize := Size(b);
      var room := size;
      if b.lastInChain {
        if bsize < size {
          room := bsize;
        } else if num == 1 && bsize < size + size / 4 {
          room := bsize;
        }
      }
      var y: nat := *;
      if y in bufs { return Failed; }
      var block: seq<byte> := *;
      if |block| != room { return Failed; }
      bufs := bufs[y := Buf(block, 0, 0, true, false, false, [], 0, 0, false, false, true)];
      hold := [y];
      count := count + 1;
      return Ok;
    }

    // ngx_output_chain_copy_buf
    method CopyBuf() returns (rc: Code)
      requires input != [] && |hold| == 1 && input[0] in bufs && hold[0] in bufs && input[0] != hold[0]
      requires BufOk(bufs[input[0]]) && Size(bufs[input[0]]) > 0 && BufOk(bufs[hold[0]]) && Blank(bufs[hold[0]])
      modifies this`bufs
      ensures rc == Ok || rc == Failed
      ensures (var src, dst := old(bufs[input[0]]), old(bufs[hold[0]]);
               var n: nat := Min(Size(src), |dst.block|);
               rc == Ok ==> bufs == old(bufs)[input[0] := Advance(src, n)][hold[0] := Filled(dst, src, n, sendfile)])
    {
      var src, dst := bufs[input[0]], bufs[hold[0]];
      var n: nat := Min(Size(src), |dst.block| - dst.pos);
      if !InMemory(src) {
        var read: bool := *;
        if !read { return Failed; }
      }
      dst := CopyBytes(src, dst, n);
      dst := CopyFlags(src, dst, n, sendfile);
      src := MoveOn(src, n);
      bufs := bufs[input[0] := src][hold[0] := dst];
      return Ok;
    }

    // A buffer to copy into: Again when there is none for now
    method Acquire(out: Chain) returns (rc: Code)
      requires Faults(View(out)) == {} && input != [] && input[0] in bufs && BufOk(bufs[input[0]])
          && Size(bufs[input[0]]) > 0 && size > 0
      modifies this`bufs, this`hold, this`count, this`free
      ensures rc != Failed ==> Faults(View(out)) == {} && input[0] in bufs && bufs[input[0]] == old(bufs)[input[0]]
      ensures rc == Ok ==> |hold| == 1 && Load(View(out)) == old(Load(View(out)))
      ensures rc == Ok ==> Due(bufs, pending) == old(Due(bufs, pending))
      ensures rc == Again ==> hold == [] && free == [] && (out != [] || count == num) && bufs == old(bufs)
    {
      HoldFacts(View(out));
      if hold == [] {
        if free != [] {
          ghost var c := View(out);
          hold := [free[0]];
          free := free[1..];
          TakeFree(c);
        } else if out != [] || count == num {
          return Again;
        } else {
          ghost var c := View(out);
          rc := GetBuf(out);
          if rc == Ok {
            Make(c, hold[0], bufs[hold[0]]);
            MakeLoad(c, hold[0], bufs[hold[0]]);
          }
          return;
        }
      }
      return Ok;
    }

    // Bytes are copied, and the buffer joins the output.
    method CopyOne(out0: Chain) returns (rc: Code, out: Chain)
      requires Faults(View(out0)) == {} && input != [] && |hold| == 1
      requires input[0] in bufs && BufOk(bufs[input[0]]) && Size(bufs[input[0]]) > 0
      modifies this`bufs, this`hold, this`input
      ensures rc == Ok || rc == Failed
      ensures rc == Ok ==> Faults(View(out)) == {} && out != [] && Load(View(out)) < old(Load(View(out0)))
      ensures rc == Ok ==> Due(bufs, pending) == old(Due(bufs, pending))
    {
      ghost var c := View(out0);
      CopyFacts(c);
      rc := CopyBuf();
      out := out0;
      if rc == Failed { return; }
      CopyRight(c, sendfile, bufs);
      input := if Size(bufs[input[0]]) == 0 then input[1..] else input;
      out := out + [hold[0]];
      hold := [];
      assert View(out) == Joined(c, bufs);
    }

    // The part of the loop over ctx->in that copies
    method CopyNext(out0: Chain) returns (rc: Code, out: Chain)
      requires Faults(View(out0)) == {} && input != [] && size > 0
      requires input[0] in bufs && BufOk(bufs[input[0]]) && Size(bufs[input[0]]) > 0
      modifies this`bufs, this`hold, this`count, this`free, this`input
      ensures rc != Failed ==> Faults(View(out)) == {} && Due(bufs, pending) == old(Due(bufs, pending))
      ensures rc == Ok ==> Load(View(out)) < old(Load(View(out0))) && out != []
      ensures rc == Again ==> out == out0 && Load(View(out)) == old(Load(View(out0)))
      ensures rc == Again ==> hold == [] && free == [] && (out != [] || count == num)
    {
      out := out0;
      rc := Acquire(out);
      if rc == Ok { rc, out := CopyOne(out); }
    }

    // One turn of the loop over ctx->in: Again when it has to stop
    method Turn(out0: Chain) returns (rc: Code, out: Chain)
      requires Faults(View(out0)) == {} && input != [] && size > 0
      modifies this`bufs, this`hold, this`count, this`free, this`input
      ensures rc != Failed ==> Faults(View(out)) == {} && Due(bufs, pending) == old(Due(bufs, pending))
      ensures rc == Ok ==> Load(View(out)) < old(Load(View(out0))) && (out0 != [] ==> out != [])
      ensures rc == Again ==> out == out0 && Load(View(out)) == old(Load(View(out0)))
      ensures rc == Again ==> hold == [] && free == [] && (out != [] || count == num)
    {
      ghost var c := View(out0);
      HeadFacts(c);
      out := out0;
      var x := input[0];
      if Size(bufs[x]) == 0 && !Special(bufs[x]) {
        input := input[1..];
        Skip(c);
        PassLighter(c, bufs[x]);
        return Ok, out;
      }
      TaggedOk(bufs[x], sendfile);
      var asIs := AsIs(x);
      if asIs {
        input := input[1..];
        out := out + [x];
        Pass(c, bufs[x]);
        PassLighter(c, bufs[x]);
        return Ok, out;
      }
      Retag(c, bufs[x]);
      RetagLoad(c, bufs[x]);
      rc, out := CopyNext(out);
    }

    // The loop over ctx->in
    method Fill() returns (rc: Code, out: Chain)
      requires Valid() && size > 0
      modifies this`bufs, this`hold, this`count, this`free, this`input
      ensures rc == Ok || rc == Failed
      ensures rc == Ok ==> Faults(View(out)) == {} && Load(View(out)) <= old(Load(View([])))
      ensures rc == Ok ==> Due(bufs, pending) == old(Due(bufs, pending))
      ensures rc == Ok && out != [] ==> Load(View(out)) < old(Load(View([])))
      ensures rc == Ok && input != [] ==> hold == [] && free == [] && (out != [] || count == num)
    {
      out := [];
      while input != []
        invariant Faults(View(out)) == {} && Load(View(out)) <= old(Load(View([])))
        invariant Due(bufs, pending) == old(Due(bufs, pending))
        invariant out != [] ==> Load(View(out)) < old(Load(View([])))
        decreases Load(View(out))
      {
        rc, out := Turn(out);
        if rc == Failed { return; }
        if rc == Again { break; }
      }
      rc := Ok;
    }

    // The first loop of ngx_chain_writer
    method Append(chain: Chain)
      requires forall x :: x in chain ==> x in bufs
      modifies this`pending
      ensures pending == old(pending) + Useful(bufs, chain)
    {
      var i := 0;
      while i < |chain|
        invariant 0 <= i <= |chain|
        invariant pending == old(pending) + Useful(bufs, chain[..i])
      {
        var b := bufs[chain[i]];
        UsefulPush(bufs, chain[..i], chain[i]);
        assert chain[..i + 1] == chain[..i] + [chain[i]];
        if !(Size(b) == 0 && !Special(b)) { pending := pending + [chain[i]]; }
        i := i + 1;
      }
      assert chain[..|chain|] == chain;
    }

    // Its second loop
    method Total() returns (total: int)
      requires ChainOk(bufs, pending)
      ensures total == |Bytes(Due(bufs, pending))|
    {
      total := 0;
      var i := 0;
      while i < |pending|
        invariant 0 <= i <= |pending|
        invariant total == |Bytes(Flow(bufs, pending[..i]))|
      {
        assert pending[..i + 1] == pending[..i] + [pending[i]];
        TotalPush(bufs, pending[..i], pending[i]);
        total := total + Size(bufs[pending[i]]);
        i := i + 1;
      }
      assert pending[..|pending|] == pending;
    }

    // The call of the connection.  How much it sends, and whether it still buffers something then, is up
    // to it.
    method Transmit() returns (rc: Code, ghost n: nat)
      requires ChainOk(bufs, pending)
      modifies this`bufs, this`pending, this`sent, this`buffered
      ensures rc != Failed ==> (bufs, pending) == Sent(old(bufs), old(pending), n)
      ensures rc != Failed ==> sent == old(sent) + Went(Flow(old(bufs), old(pending)), n)
      ensures rc == Ok ==> pending == [] && !buffered
      ensures rc == Again ==> pending != [] || buffered
    {
      var failed: bool := *;
      if failed { return Failed, 0; }
      var taken: nat :| true;
      sent := sent + Went(Flow(bufs, pending), taken);
      bufs, pending := UpdateSent(bufs, pending, taken);
      buffered := *;
      return if pending == [] && !buffered then Ok else Again, taken;
    }

    // ngx_chain_writer; k tells how much the connection has taken, and it is negative when it was not asked.
    method Write(chain: Chain) returns (rc: Code, ghost k: int)
      requires (forall x :: x in chain ==> x in bufs) && Faults(View(Useful(bufs, chain))) == {}
      requires ChainOk(bufs, pending + Useful(bufs, chain))
      modifies this`bufs, this`pending, this`sent, this`buffered
      ensures (var c := old(View(Useful(bufs, chain)));
               && (rc != Failed ==> View([]) == Quiet(c, k))
               && (k < 0 <==> !old(buffered) && Bytes(Due(c.bufs, c.pending + c.out)) == []))
      ensures rc == Ok ==> !buffered && Bytes(Due(bufs, pending)) == [] && (k >= 0 ==> pending == [])
      ensures rc == Again ==> pending != [] || buffered
    {
      ghost var c := View(Useful(bufs, chain));
      Append(chain);
      assert pending == c.pending + c.out && bufs == c.bufs;
      var total := Total();
      if total == 0 && !buffered { return Ok, -1; }
      rc, k := Transmit();
      NothingDue(bufs);
    }

    // The short path of ngx_output_chain: nothing is waiting, and a single buffer can go as it is.
    method Short(chain: Chain) returns (rc: Code)
      requires Valid() && busy == [] && input == [] && |chain| <= 1 && Fit(View([]), chain)
      modifies this`bufs, this`pending, this`sent, this`submitted, this`buffered
      ensures rc != Failed ==> Valid() && submitted == old(submitted) + Flow(old(bufs), chain)
      ensures rc == Ok ==> !buffered && Bytes(Due(bufs, pending)) == []
      ensures rc == Again ==> pending != [] || buffered
    {
      ghost var c := View([]);
      submitted := submitted + Flow(bufs, chain);
      ShortReady(c, chain);
      ghost var c1 := View(Useful(bufs, chain));
      LineFacts(c1);
      ghost var k;
      rc, k := Write(chain);
      if rc != Failed {
        FlushQuiet(c1, k);
        assert View([]) == Quiet(c1, k);
      }
    }

    // The filter takes the output chain, and the buffers that it has sent come back.
    method FlushOut(out: Chain) returns (rc: Code)
      requires Faults(View(out)) == {}
      modifies this`bufs, this`pending, this`sent, this`free, this`busy, this`buffered
      ensures rc != Failed ==> Valid() && Load(View([])) == old(Load(View(out)))
      ensures rc == Ok ==> !buffered && Bytes(Due(bufs, pending)) == []
      ensures rc == Again ==> pending != [] || buffered
    {
      ghost var c := View(out);
      LiveOut(c);
      LineFacts(c);
      ghost var k;
      rc, k := Write(out);
      if rc == Failed { return; }
      FlushTaken(c, k);
      bufs, free, busy := UpdateChains(bufs, free, busy, out);
      assert View([]) == Taken(c, k);
    }

    // The main loop of ngx_output_chain
    method Pump() returns (rc: Code)
      requires Valid() && size > 0
      modifies this`bufs, this`hold, this`count, this`free, this`input, this`pending, this`sent, this`busy,
          this`buffered
      ensures rc != Failed ==> Valid()
      ensures rc != Failed && input != [] ==> rc == Again && hold == [] && free == [] && count == num
      ensures rc == Ok ==> !buffered && Bytes(Due(bufs, pending)) == []
      ensures rc == Again ==> input != [] || pending != [] || buffered
    {
      var last, first := Ok, true;
      while true
        invariant Valid()
        invariant !first && last == Ok ==> !buffered && Bytes(Due(bufs, pending)) == []
        invariant !first && last == Again ==> pending != [] || buffered
        invariant !first ==> last != Failed
        decreases Load(View([])), first
      {
        ghost var load := Load(View([]));
        var filled, out := Fill();
        if filled == Failed { return Failed; }
        if out == [] && !first { return if input != [] then Again else last; }
        last := FlushOut(out);
        first := false;
        if last == Failed { return Failed; }
      }
    }

    // ngx_output_chain_add_copy
    method Queue(chain: Chain)
      requires Valid() && Fit(View([]), chain)
      modifies this`input, this`submitted
      ensures Valid() && submitted == old(submitted) + Flow(bufs, chain) && input == old(input) + chain
    {
      Submit(View([]), chain);
      submitted := submitted + Flow(bufs, chain);
      input := input + chain;
    }

    // ngx_output_chain
    method Send(chain: Chain) returns (rc: Code)
      requires Valid() && size > 0 && Fit(View([]), chain)
      modifies this`bufs, this`hold, this`count, this`free, this`input, this`pending, this`sent, this`busy,
          this`submitted, this`buffered
      ensures rc != Failed ==> Valid() && submitted == old(submitted) + Flow(old(bufs), chain)
      ensures (rc != Failed ==>
               && ChainOk(bufs, pending) && ChainOk(bufs, input)
               && sent + Flow(bufs, pending) + Flow(bufs, input) == submitted)
      ensures rc != Failed && input != [] ==> rc == Again && hold == [] && free == [] && count == num
      ensures rc == Ok ==> input == [] && !buffered && Bytes(sent) == Bytes(submitted)
      ensures rc == Again ==> input != [] || pending != [] || buffered
    {
      var asIs := input == [] && busy == [] && |chain| <= 1;
      if asIs && |chain| == 1 {
        TaggedOk(bufs[chain[0]], sendfile);
        TagNew(View([]), chain, Tagged(bufs[chain[0]], sendfile));
        asIs := AsIs(chain[0]);
      }
      if asIs {
        rc := Short(chain);
      } else {
        Queue(chain);
        rc := Pump();
      }
      if rc != Failed { Conservation(View([])); }
      if rc == Ok { AllSent(View([])); }
    }
  }
}
