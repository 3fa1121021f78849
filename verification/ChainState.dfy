/** The state of an output chain context together with the filter below it, and what every step of
    ngx_output_chain keeps. */
module ChainState {
  import opened Buf

  // input, free, busy and hold are ctx->in, ctx->free, ctx->busy and ctx->buf; out is the chain that is
  // being put together; pending is what the filter has been given and not yet sent.  sent and
  // submitted are the bytes that have left and that have come.
  datatype Ctx = Ctx(
    bufs: Bufs, input: Chain, out: Chain, free: Chain, hold: Chain, busy: Chain, pending: Chain,
    count: nat, num: nat, sent: seq<Item>, submitted: seq<Item>)

  // No buffer is in two places.
  ghost predicate Single(m: multiset<nat>) {
    forall x :: x in m ==> m[x] == 1
  }

  lemma SingleUnique(c: Chain)
    requires Single(multiset(c))
    ensures Unique(c)
  {
    forall i, j | 0 <= i < j < |c|
      ensures c[i] != c[j]
    {
      assert c == c[..j] + c[j..];
      assert multiset(c) == multiset(c[..j]) + multiset(c[j..]);
      assert c[..j][i] == c[i] && c[j..][0] == c[j];
      assert multiset(c[..j])[c[i]] >= 1 && multiset(c[j..])[c[j]] >= 1;
      assert multiset(c)[c[i]] == 1;
    }
  }

  ghost function Everything(c: Ctx): multiset<nat> {
    multiset(c.pending) + multiset(c.out) + multiset(c.input) + multiset(c.free) + multiset(c.hold)
  }

  ghost predicate ChainsOk(c: Ctx) {
    ChainOk(c.bufs, c.pending) && ChainOk(c.bufs, c.out) && ChainOk(c.bufs, c.input) && ChainOk(c.bufs, c.free)
        && ChainOk(c.bufs, c.hold)
  }

  // A buffer of our own: temporary memory with room for something
  predicate TempOk(b: Buf) {
    b.ours ==> b.temporary && |b.block| > 0
  }

  // A buffer that is on its way: there is something to send in it.
  predicate Live(b: Buf) {
    TempOk(b) && (Special(b) || Size(b) > 0)
  }

  // A buffer of our own that may be written
  predicate Blank(b: Buf) {
    b.ours && TempOk(b) && b.pos == 0 && b.last == 0
  }

  ghost predicate RolesOk(c: Ctx) {
    && (forall x :: x in c.pending ==> x in c.bufs && Live(c.bufs[x]))
    && (forall x :: x in c.out ==> x in c.bufs && Live(c.bufs[x]))
    && (forall x :: x in c.input ==> x in c.bufs && !c.bufs[x].ours)
    && (forall x :: x in c.free ==> x in c.bufs && Blank(c.bufs[x]))
    && (forall x :: x in c.hold ==> x in c.bufs && Blank(c.bufs[x]))
  }

  // The busy chain is the end of what is pending; our own buffers are all in it.
  ghost predicate BusyOk(c: Ctx) {
    Behind(c.bufs, c.pending, c.busy)
  }

  ghost predicate Behind(bufs: Bufs, pending: Chain, busy: Chain) {
    && |busy| <= |pending| && busy == pending[|pending| - |busy|..]
    && (forall x :: x in pending[..|pending| - |busy|] ==> x in bufs && !bufs[x].ours)
  }

  // The number of buffers of our own in a chain
  ghost function Ours(bufs: Bufs, c: Chain): nat
    requires forall x :: x in c ==> x in bufs
  {
    if c == [] then 0 else (if bufs[c[0]].ours then 1 else 0) + Ours(bufs, c[1..])
  }

  // None of our own buffers gets lost.
  ghost predicate CountOk(c: Ctx) {
    && (forall x :: x in c.busy ==> x in c.bufs) && (forall x :: x in c.out ==> x in c.bufs)
    && |c.hold| <= 1
    && c.count == |c.free| + |c.hold| + Ours(c.bufs, c.busy) + Ours(c.bufs, c.out)
    && c.count <= c.num
  }

  // The bytes and marks that have been sent, that are pending and that are still to come are, in this order, what was
  // submitted.
  ghost predicate FlowOk(c: Ctx) {
    ChainsOk(c) && c.submitted == c.sent + Flow(c.bufs, c.pending) + Flow(c.bufs, c.out) + Flow(c.bufs, c.input)
  }

  ghost predicate Inv(c: Ctx) {
    Single(Everything(c)) && ChainsOk(c) && RolesOk(c) && BusyOk(c) && CountOk(c) && FlowOk(c)
  }

  ghost function Faults(c: Ctx): set<Ctx> {
    set x | x in {c} && !Inv(x)
  }

  lemma NoFault(c: Ctx)
    ensures Faults(c) == {} <==> Inv(c)
  {
    assert c in Faults(c) <==> !Inv(c);
  }

  // ---------- counting ----------

  lemma {:induction false} OursConcat(bufs: Bufs, a: Chain, b: Chain)
    requires (forall x :: x in a ==> x in bufs) && (forall x :: x in b ==> x in bufs)
    ensures (forall x :: x in a + b ==> x in bufs) && Ours(bufs, a + b) == Ours(bufs, a) + Ours(bufs, b)
  {
    if a == [] {
      assert a + b == b;
    } else {
      assert (a + b)[1..] == a[1..] + b;
      OursConcat(bufs, a[1..], b);
    }
  }

  lemma {:induction false} OursSame(bufs: Bufs, bufs': Bufs, c: Chain)
    requires forall x :: x in c ==> x in bufs && x in bufs' && bufs'[x].ours == bufs[x].ours
    ensures Ours(bufs', c) == Ours(bufs, c)
  {
    if c != [] {
      assert forall x :: x in c[1..] ==> x in c;
      OursSame(bufs, bufs', c[1..]);
    }
  }

  lemma {:induction false} OursNone(bufs: Bufs, c: Chain)
    requires forall x :: x in c ==> x in bufs && !bufs[x].ours
    ensures Ours(bufs, c) == 0
  {
    if c != [] {
      assert forall x :: x in c[1..] ==> x in c;
      OursNone(bufs, c[1..]);
    }
  }

  // ---------- the head of the input ----------

  lemma Elsewhere(c: Ctx)
    requires Single(Everything(c)) && c.input != []
    ensures var x := c.input[0]; x !in c.pending && x !in c.out && x !in c.free && x !in c.hold && x !in c.input[1..]
  {
    var x := c.input[0];
    assert c.input == [x] + c.input[1..];
    assert multiset(c.input) == multiset{x} + multiset(c.input[1..]);
    assert Everything(c)[x] == 1;
  }

  // A buffer that is not in a chain does not matter to it.
  lemma FlowSet(bufs: Bufs, x: nat, b: Buf, c: Chain)
    requires ChainOk(bufs, c) && x !in c
    ensures ChainOk(bufs[x := b], c) && Flow(bufs[x := b], c) == Flow(bufs, c)
  {
    FlowSame(bufs, bufs[x := b], c);
  }

  lemma FlowOne(bufs: Bufs, x: nat)
    requires x in bufs && BufOk(bufs[x])
    ensures ChainOk(bufs, [x]) && Flow(bufs, [x]) == Items(bufs[x])
  {
    assert Flow(bufs, [x][1..]) == [];
  }

  lemma FlowPush(bufs: Bufs, c: Chain, x: nat)
    requires ChainOk(bufs, c) && x in bufs && BufOk(bufs[x])
    ensures ChainOk(bufs, c + [x]) && Flow(bufs, c + [x]) == Flow(bufs, c) + Items(bufs[x])
  {
    FlowOne(bufs, x);
    FlowConcat(bufs, c, [x]);
  }

  lemma OursPush(bufs: Bufs, c: Chain, x: nat)
    requires (forall y :: y in c ==> y in bufs) && x in bufs
    ensures (forall y :: y in c + [x] ==> y in bufs) && Ours(bufs, c + [x]) == Ours(bufs, c) + if bufs[x].ours then 1
        else 0
  {
    assert Ours(bufs, [x]) == (if bufs[x].ours then 1 else 0) + Ours(bufs, [x][1..]);
    OursConcat(bufs, c, [x]);
  }

  // The head goes to the output as it is; its flags may change, its bytes do not.
  ghost function Passed(c: Ctx, b: Buf): Ctx
    requires c.input != []
  {
    c.(bufs := c.bufs[c.input[0] := b], input := c.input[1..], out := c.out + [c.input[0]])
  }

  lemma PassedIds(c: Ctx, b: Buf)
    requires Single(Everything(c)) && c.input != []
    ensures Single(Everything(Passed(c, b)))
  {
    var x := c.input[0];
    assert c.input == [x] + c.input[1..];
    assert multiset(c.input) == multiset{x} + multiset(c.input[1..]);
    assert multiset(c.out + [x]) == multiset(c.out) + multiset{x};
    assert Everything(Passed(c, b)) == Everything(c);
  }

  lemma PassedFlow(c: Ctx, b: Buf)
    requires Single(Everything(c)) && FlowOk(c) && c.input != [] && BufOk(b)
        && Items(b) == Items(c.bufs[c.input[0]])
    ensures FlowOk(Passed(c, b))
  {
    Elsewhere(c);
    var x, bufs := c.input[0], c.bufs[c.input[0] := b];
    FlowSet(c.bufs, x, b, c.pending);
    FlowSet(c.bufs, x, b, c.out);
    FlowSet(c.bufs, x, b, c.input[1..]);
    FlowSet(c.bufs, x, b, c.free);
    FlowSet(c.bufs, x, b, c.hold);
    FlowPush(bufs, c.out, x);
    Regroup(c.sent + Flow(c.bufs, c.pending) + Flow(c.bufs, c.out), Items(b), Flow(c.bufs, c.input[1..]));
    Regroup(c.sent + Flow(c.bufs, c.pending), Flow(c.bufs, c.out), Items(b));
  }

  lemma PassedCount(c: Ctx, b: Buf)
    requires Single(Everything(c)) && CountOk(c) && BusyOk(c) && RolesOk(c) && c.input != [] && !b.ours
    ensures CountOk(Passed(c, b))
  {
    Elsewhere(c);
    var x, bufs := c.input[0], c.bufs[c.input[0] := b];
    OursSame(c.bufs, bufs, c.busy);
    OursSame(c.bufs, bufs, c.out);
    OursPush(bufs, c.out, x);
  }

  lemma PassedRoles(c: Ctx, b: Buf)
    requires Single(Everything(c)) && BusyOk(c) && RolesOk(c) && c.input != [] && !b.ours && Live(b)
    ensures RolesOk(Passed(c, b)) && BusyOk(Passed(c, b))
  {
    Elsewhere(c);
  }

  lemma Pass(c: Ctx, b: Buf)
    requires Faults(c) == {} && c.input != [] && c.input[0] in c.bufs && BufOk(c.bufs[c.input[0]])
    requires BufOk(b) && Items(b) == Items(c.bufs[c.input[0]]) && !b.ours && Live(b)
    ensures Faults(Passed(c, b)) == {}
  {
    NoFault(c);
    PassedIds(c, b);
    PassedFlow(c, b);
    PassedCount(c, b);
    PassedRoles(c, b);
    NoFault(Passed(c, b));
  }

  // An empty buffer at the head is dropped.
  lemma LessSingle(m: multiset<nat>, n: multiset<nat>)
    requires Single(m) && n <= m
    ensures Single(n)
  {}

  lemma SkipIds(c: Ctx)
    requires Single(Everything(c)) && c.input != []
    ensures Single(Everything(c.(input := c.input[1..])))
  {
    assert c.input == [c.input[0]] + c.input[1..];
    assert multiset(c.input) == multiset{c.input[0]} + multiset(c.input[1..]);
    LessSingle(Everything(c), Everything(c.(input := c.input[1..])));
  }

  lemma SkipFlow(c: Ctx)
    requires FlowOk(c) && c.input != [] && Items(c.bufs[c.input[0]]) == []
    ensures FlowOk(c.(input := c.input[1..]))
  {
    assert Flow(c.bufs, c.input) == Flow(c.bufs, c.input[1..]);
  }

  lemma Skip(c: Ctx)
    requires Faults(c) == {} && c.input != [] && c.input[0] in c.bufs && BufOk(c.bufs[c.input[0]])
        && Items(c.bufs[c.input[0]]) == []
    ensures Faults(c.(input := c.input[1..])) == {}
  {
    NoFault(c);
    SkipIds(c);
    SkipFlow(c);
    NoFault(c.(input := c.input[1..]));
  }

  // ---------- buffers to copy into ----------

  // A free buffer is taken.
  ghost function TookFree(c: Ctx): Ctx
    requires c.free != []
  {
    c.(hold := [c.free[0]], free := c.free[1..])
  }

  lemma TakeFree(c: Ctx)
    requires Faults(c) == {} && c.free != [] && c.hold == []
    ensures Faults(TookFree(c)) == {}
  {
    NoFault(c);
    TookFreeIds(c);
    TookFreeRoles(c);
    TookFreeFlow(c);
    NoFault(TookFree(c));
  }

  lemma TookFreeRoles(c: Ctx)
    requires RolesOk(c) && BusyOk(c) && CountOk(c) && c.free != [] && c.hold == []
    ensures RolesOk(TookFree(c)) && BusyOk(TookFree(c)) && CountOk(TookFree(c))
  {
    assert c.free[0] in c.free && forall x :: x in c.free[1..] ==> x in c.free;
  }

  lemma TookFreeFlow(c: Ctx)
    requires FlowOk(c) && c.free != [] && c.hold == []
    ensures FlowOk(TookFree(c))
  {
    assert c.free[0] in c.free && forall x :: x in c.free[1..] ==> x in c.free;
  }

  lemma TookFreeIds(c: Ctx)
    requires c.free != [] && c.hold == []
    ensures Everything(TookFree(c)) == Everything(c)
  {
    assert c.free == [c.free[0]] + c.free[1..];
    assert multiset(c.free) == multiset{c.free[0]} + multiset(c.free[1..]);
  }

  // A new buffer is made.
  ghost function Made(c: Ctx, y: nat, b: Buf): Ctx {
    c.(bufs := c.bufs[y := b], hold := [y], count := c.count + 1)
  }

  lemma MadeIds(c: Ctx, y: nat, b: Buf)
    requires Single(Everything(c)) && ChainsOk(c) && y !in c.bufs && c.hold == []
    ensures Single(Everything(Made(c, y, b)))
    ensures y !in c.pending && y !in c.out && y !in c.input && y !in c.free
  {
    assert Everything(Made(c, y, b)) == Everything(c) + multiset{y};
    assert y !in Everything(c);
  }

  lemma MadeFlow(c: Ctx, y: nat, b: Buf)
    requires FlowOk(c) && y !in c.bufs && c.hold == [] && BufOk(b)
    ensures FlowOk(Made(c, y, b))
  {
    FlowSet(c.bufs, y, b, c.pending);
    FlowSet(c.bufs, y, b, c.out);
    FlowSet(c.bufs, y, b, c.input);
    FlowSet(c.bufs, y, b, c.free);
  }

  lemma MadeCount(c: Ctx, y: nat, b: Buf)
    requires CountOk(c) && y !in c.bufs && c.hold == [] && c.count < c.num
    ensures CountOk(Made(c, y, b))
  {
    OursSame(c.bufs, c.bufs[y := b], c.busy);
    OursSame(c.bufs, c.bufs[y := b], c.out);
  }

  lemma MadeRoles(c: Ctx, y: nat, b: Buf)
    requires BusyOk(c) && RolesOk(c) && y !in c.bufs && c.hold == [] && Blank(b)
    ensures RolesOk(Made(c, y, b)) && BusyOk(Made(c, y, b))
  {}

  lemma Make(c: Ctx, y: nat, b: Buf)
    requires Faults(c) == {} && y !in c.bufs && c.hold == [] && c.count < c.num && BufOk(b) && Blank(b)
    ensures Faults(Made(c, y, b)) == {}
  {
    NoFault(c);
    MadeIds(c, y, b);
    MadeFlow(c, y, b);
    MadeCount(c, y, b);
    MadeRoles(c, y, b);
    NoFault(Made(c, y, b));
  }

  // ---------- copying ----------

  // Bytes go from the head of the input to the buffer that is held, and this one to the output.
  ghost function Copied(c: Ctx, src: Buf, dst: Buf): Ctx
    requires c.input != [] && c.hold != []
  {
    c.(bufs := c.bufs[c.input[0] := src][c.hold[0] := dst], hold := [], out := c.out + [c.hold[0]],
       input := if Size(src) == 0 then c.input[1..] else c.input)
  }

  ghost predicate CopyOk(c: Ctx, src: Buf, dst: Buf) {
    && c.input != [] && |c.hold| == 1 && c.input[0] in c.bufs && BufOk(c.bufs[c.input[0]])
    && BufOk(src) && BufOk(dst) && !src.ours && dst.ours && Live(dst)
    && Items(c.bufs[c.input[0]]) == Items(dst) + Items(src)
    && (Size(src) == 0 ==> Items(src) == []) && Size(src) < Size(c.bufs[c.input[0]])
  }

  lemma HoldElsewhere(c: Ctx)
    requires Single(Everything(c)) && c.hold != []
    ensures var y := c.hold[0]; y !in c.pending && y !in c.out && y !in c.free && y !in c.input
  {
    var y := c.hold[0];
    assert Everything(c)[y] == 1;
  }

  lemma CopiedIds(c: Ctx, src: Buf, dst: Buf)
    requires Single(Everything(c)) && c.input != [] && |c.hold| == 1
    ensures Single(Everything(Copied(c, src, dst)))
  {
    assert c.hold == [c.hold[0]];
    assert multiset(c.out + c.hold) == multiset(c.out) + multiset(c.hold);
    var c1 := c.(hold := [], out := c.out + c.hold);
    assert Everything(c1) == Everything(c);
    SkipIds(c1);
  }

  lemma CopiedFlow(c: Ctx, src: Buf, dst: Buf)
    requires Single(Everything(c)) && FlowOk(c) && CopyOk(c, src, dst)
    ensures FlowOk(Copied(c, src, dst))
  {
    var x, y := c.input[0], c.hold[0];
    Elsewhere(c);
    HoldElsewhere(c);
    var bufs1 := c.bufs[x := src];
    var bufs2 := bufs1[y := dst];
    FlowSet2(c.bufs, x, src, y, dst, c.pending);
    FlowSet2(c.bufs, x, src, y, dst, c.out);
    FlowSet2(c.bufs, x, src, y, dst, c.free);
    FlowSet2(c.bufs, x, src, y, dst, c.input[1..]);
    FlowPush(bufs2, c.out, y);
    CopiedInput(c, src, dst);
    var a, o, d, s, t := c.sent + Flow(c.bufs, c.pending), Flow(c.bufs, c.out), Items(dst), Items(src),
        Flow(c.bufs, c.input[1..]);
    Regroup4(a, o, d, s, t);
  }

  lemma Regroup4(a: seq<Item>, o: seq<Item>, d: seq<Item>, s: seq<Item>, t: seq<Item>)
    ensures a + o + ((d + s) + t) == a + (o + d) + (s + t)
  {}

  lemma FlowSet2(bufs: Bufs, x: nat, b: Buf, y: nat, d: Buf, c: Chain)
    requires ChainOk(bufs, c) && x !in c && y !in c
    ensures ChainOk(bufs[x := b][y := d], c) && Flow(bufs[x := b][y := d], c) == Flow(bufs, c)
  {
    FlowSet(bufs, x, b, c);
    FlowSet(bufs[x := b], y, d, c);
  }

  lemma CopiedInput(c: Ctx, src: Buf, dst: Buf)
    requires Single(Everything(c)) && ChainsOk(c) && CopyOk(c, src, dst)
    ensures var c' := Copied(c, src, dst);
        ChainOk(c'.bufs, c'.input) && Flow(c'.bufs, c'.input) == Items(src) + Flow(c.bufs, c.input[1..])
  {
    Elsewhere(c);
    HoldElsewhere(c);
    FlowSet2(c.bufs, c.input[0], src, c.hold[0], dst, c.input[1..]);
  }

  lemma CopiedCount(c: Ctx, src: Buf, dst: Buf)
    requires Single(Everything(c)) && CountOk(c) && BusyOk(c) && RolesOk(c) && CopyOk(c, src, dst)
    ensures CountOk(Copied(c, src, dst))
  {
    Elsewhere(c);
    HoldElsewhere(c);
    var bufs := Copied(c, src, dst).bufs;
    OursSame(c.bufs, bufs, c.busy);
    OursSame(c.bufs, bufs, c.out);
    OursPush(bufs, c.out, c.hold[0]);
  }

  lemma CopiedRoles(c: Ctx, src: Buf, dst: Buf)
    requires Single(Everything(c)) && BusyOk(c) && RolesOk(c) && CopyOk(c, src, dst)
    ensures RolesOk(Copied(c, src, dst)) && BusyOk(Copied(c, src, dst))
  {
    Elsewhere(c);
    HoldElsewhere(c);
  }

  lemma Copy(c: Ctx, src: Buf, dst: Buf)
    requires Faults(c) == {} && CopyOk(c, src, dst)
    ensures Faults(Copied(c, src, dst)) == {}
  {
    NoFault(c);
    CopiedIds(c, src, dst);
    CopiedFlow(c, src, dst);
    CopiedCount(c, src, dst);
    CopiedRoles(c, src, dst);
    NoFault(Copied(c, src, dst));
  }

  // ---------- submitting ----------

  ghost function Submitted(c: Ctx, chain: Chain): Ctx
    requires ChainOk(c.bufs, chain)
  {
    c.(input := c.input + chain, submitted := c.submitted + Flow(c.bufs, chain))
  }

  lemma Submit(c: Ctx, chain: Chain)
    requires Faults(c) == {} && ChainOk(c.bufs, chain) && (forall x :: x in chain ==> !c.bufs[x].ours)
    requires Single(Everything(c) + multiset(chain))
    ensures Faults(Submitted(c, chain)) == {}
  {
    NoFault(c);
    assert Everything(Submitted(c, chain)) == Everything(c) + multiset(chain);
    SubmitFlow(c, chain);
    SubmitRoles(c, chain);
    NoFault(Submitted(c, chain));
  }

  lemma SubmitFlow(c: Ctx, chain: Chain)
    requires FlowOk(c) && ChainOk(c.bufs, chain)
    ensures FlowOk(Submitted(c, chain))
  {
    FlowConcat(c.bufs, c.input, chain);
    Regroup(c.sent + Flow(c.bufs, c.pending) + Flow(c.bufs, c.out), Flow(c.bufs, c.input), Flow(c.bufs, chain));
  }

  lemma SubmitRoles(c: Ctx, chain: Chain)
    requires RolesOk(c) && BusyOk(c) && CountOk(c) && ChainOk(c.bufs, chain) && forall x :: x in chain ==>
        !c.bufs[x].ours
    ensures var c' := Submitted(c, chain); RolesOk(c') && BusyOk(c') && CountOk(c')
  {}

  // ---------- sending ----------

  // What recycling does with the line of buffers that were handed out: k of them leave its head, they
  // are empty, and the next one is not.
  ghost predicate Strip(b: Bufs, line: Chain, k: nat, b': Bufs, busy': Chain) {
    && k <= |line| && busy' == line[k..] && b'.Keys == b.Keys
    && (forall x :: x in line[..k] ==> x in b && Size(b[x]) == 0)
    && (busy' != [] ==> busy'[0] in b && Size(b[busy'[0]]) != 0)
    && (forall x :: x in b ==> b'[x] == if x in line[..k] && b[x].ours then Reset(b[x]) else b[x])
  }

  // Those of our own go to the free chain.
  ghost predicate Gain(b: Bufs, free: Chain, gone: Chain, free': Chain) {
    && (forall x :: x in gone ==> x in b)
    && |free'| == |free| + Ours(b, gone)
    && (forall x :: multiset(free')[x] == multiset(free)[x] + if x in b && b[x].ours then multiset(gone)[x] else 0)
  }

  lemma StripStep(b: Bufs, line: Chain, k: nat, b': Bufs, busy': Chain)
    requires line != [] && Unique(line) && line[0] in b && Size(b[line[0]]) == 0
    requires Strip(if b[line[0]].ours then b[line[0] := Reset(b[line[0]])] else b, line[1..], k, b', busy')
    ensures Strip(b, line, k + 1, b', busy')
  {
    var x := line[0];
    assert line[..k + 1] == [x] + line[1..][..k];
    assert x !in line[1..][..k];
  }

  lemma GainStep(b: Bufs, free: Chain, x: nat, gone: Chain, free': Chain)
    requires x in b && x !in gone && b[x].ours && Gain(b[x := Reset(b[x])], [x] + free, gone, free')
    ensures Gain(b, free, [x] + gone, free')
  {
    OursSame(b[x := Reset(b[x])], b, gone);
    assert ([x] + gone)[1..] == gone;
    assert multiset([x] + gone) == multiset{x} + multiset(gone);
    assert multiset([x] + free) == multiset{x} + multiset(free);
  }

  lemma GainNot(b: Bufs, free: Chain, x: nat, gone: Chain, free': Chain)
    requires x in b && !b[x].ours && Gain(b, free, gone, free')
    ensures Gain(b, free, [x] + gone, free')
  {
    assert ([x] + gone)[1..] == gone;
    assert multiset([x] + gone) == multiset{x} + multiset(gone);
  }

  // The number of empty buffers at the head of the line
  ghost function Empties(b: Bufs, line: Chain): (k: nat)
    requires ChainOk(b, line)
    ensures k <= |line|
  {
    if line == [] || Size(b[line[0]]) != 0 then 0 else 1 + Empties(b, line[1..])
  }

  lemma {:induction false} EmptiesSame(b: Bufs, b': Bufs, line: Chain)
    requires ChainOk(b, line) && ChainOk(b', line) && forall x :: x in line ==> Size(b'[x]) == Size(b[x])
    ensures Empties(b', line) == Empties(b, line)
  {
    if line != [] {
      assert forall x :: x in line[1..] ==> x in line;
      EmptiesSame(b, b', line[1..]);
    }
  }

  lemma {:induction false} RecycledStrips(b: Bufs, free: Chain, line: Chain)
    requires ChainOk(b, line) && Unique(line)
    ensures Strip(b, line, Empties(b, line), Recycled(b, free, line).0, Recycled(b, free, line).2)
    decreases |line|
  {
    if line != [] && Size(b[line[0]]) == 0 {
      var x := line[0];
      assert x !in line[1..];
      if b[x].ours {
        var b1 := b[x := Reset(b[x])];
        EmptiesSame(b, b1, line[1..]);
        RecycledStrips(b1, [x] + free, line[1..]);
      } else {
        RecycledStrips(b, free, line[1..]);
      }
      StripStep(b, line, Empties(b, line[1..]), Recycled(b, free, line).0, Recycled(b, free, line).2);
    }
  }

  lemma {:induction false} RecycledGains(b: Bufs, free: Chain, line: Chain)
    requires ChainOk(b, line) && Unique(line)
    ensures Gain(b, free, line[..Empties(b, line)], Recycled(b, free, line).1)
    decreases |line|
  {
    if line != [] && Size(b[line[0]]) == 0 {
      var x, gone := line[0], line[1..][..Empties(b, line[1..])];
      assert x !in line[1..];
      if b[x].ours {
        var b1 := b[x := Reset(b[x])];
        EmptiesSame(b, b1, line[1..]);
        RecycledGains(b1, [x] + free, line[1..]);
        GainStep(b, free, x, gone, Recycled(b, free, line).1);
      } else {
        RecycledGains(b, free, line[1..]);
        GainNot(b, free, x, gone, Recycled(b, free, line).1);
      }
      assert line[..Empties(b, line)] == [x] + gone;
    }
  }

  // The filter has taken the output chain and sent n bytes.
  ghost predicate Wrote(c: Ctx, b1: Bufs, rest: Chain, n: nat) {
    var line := c.pending + c.out;
    && Shifted(c, b1, rest) && ChainOk(c.bufs, line) && ChainOk(b1, rest)
    && n <= |Flow(c.bufs, line)| && Flow(b1, rest) == Flow(c.bufs, line)[n..]
  }

  ghost predicate Shifted(c: Ctx, b1: Bufs, rest: Chain) {
    Advanced(c.bufs, b1, c.pending + c.out) && Split(c.bufs, b1, c.pending + c.out, rest)
  }

  lemma WroteLine(c: Ctx, b1: Bufs, rest: Chain)
    requires Single(Everything(c)) && ChainsOk(c) && RolesOk(c) && Shifted(c, b1, rest)
    ensures forall x :: x in c.pending + c.out ==> x in b1 && BufOk(b1[x]) && TempOk(b1[x])
    ensures forall x :: x in rest ==> x in b1 && Live(b1[x])
    ensures forall x :: x in c.input + c.free + c.hold ==> x in b1 && x in c.bufs && b1[x] == c.bufs[x]
    ensures forall x :: x in c.bufs ==> x in b1 && b1[x].ours == c.bufs[x].ours
  {
    var line := c.pending + c.out;
    forall x | x in line ensures x in b1 && BufOk(b1[x]) && TempOk(b1[x]) {
      assert Live(c.bufs[x]) && Moved(c.bufs[x], b1[x]);
    }
    forall x | x in rest ensures x in b1 && Live(b1[x]) {
      assert x in line;
      assert Live(c.bufs[x]) && Moved(c.bufs[x], b1[x]);
    }
    forall x | x in c.input + c.free + c.hold ensures x in b1 && x in c.bufs && b1[x] == c.bufs[x] {
      NotInLine(c, x);
    }
  }

  lemma NotInLine(c: Ctx, x: nat)
    requires Single(Everything(c)) && x in c.input + c.free + c.hold
    ensures x !in c.pending + c.out
  {
    assert Everything(c)[x] == 1;
  }

  lemma UniqueLine(c: Ctx)
    requires Single(Everything(c)) && BusyOk(c)
    ensures Unique(c.pending + c.out) && Unique(c.busy + c.out)
    ensures c.busy + c.out == (c.pending + c.out)[|c.pending| - |c.busy|..]
  {
    assert multiset(c.pending + c.out) <= Everything(c);
    LessSingle(Everything(c), multiset(c.pending + c.out));
    SingleUnique(c.pending + c.out);
    var all, e := c.pending + c.out, |c.pending| - |c.busy|;
    assert c.busy + c.out == all[e..];
    forall i, j | 0 <= i < j < |all[e..]| ensures all[e..][i] != all[e..][j] {
      assert all[e..][i] == all[e + i] && all[e..][j] == all[e + j];
    }
  }

  // The line of buffers that were handed out, behind those that have nothing to do with us
  ghost predicate Apart(b1: Bufs, all: Chain, e: int, rest: Chain) {
    && 0 <= e <= |all| && |rest| <= |all| && rest == all[|all| - |rest|..] && Unique(all)
    && (forall x :: x in all ==> x in b1 && BufOk(b1[x]))
    && (forall x :: x in all[..e] ==> !b1[x].ours)
    && (forall x :: x in all[..|all| - |rest|] ==> Size(b1[x]) == 0)
    && (forall x :: x in rest ==> Live(b1[x]))
  }

  // What is left of the line is the end of what is pending, and the rest of it is not ours.
  lemma BusyEnds(b1: Bufs, all: Chain, e: int, rest: Chain, k: nat)
    requires Apart(b1, all, e, rest) && e + k <= |all|
    requires forall x :: x in all[e..][..k] ==> Size(b1[x]) == 0
    requires e + k < |all| ==> Size(b1[all[e + k]]) != 0
    ensures |all| - e - k <= |rest| && all[e..][k..] == rest[|rest| - (|all| - e - k)..]
    ensures forall x :: x in rest[..|rest| - (|all| - e - k)] ==> !b1[x].ours
  {
    var d := |all| - |rest|;
    forall i | 0 <= i < d ensures Size(b1[all[i]]) == 0 { assert all[..d][i] == all[i]; }
    var p := rest[..|rest| - (|all| - e - k)];
    forall i | 0 <= i < |p| ensures !b1[p[i]].ours {
      assert p[i] == all[d + i] && p[i] in rest;
      if d + i < e {
        assert all[..e][d + i] == p[i];
      } else {
        assert all[e..][..k][d + i - e] == p[i];
      }
    }
  }

  lemma WroteApart(c: Ctx, b1: Bufs, rest: Chain)
    requires Single(Everything(c)) && ChainsOk(c) && RolesOk(c) && BusyOk(c) && Shifted(c, b1, rest)
    ensures Apart(b1, c.pending + c.out, |c.pending| - |c.busy|, rest)
  {
    WroteLine(c, b1, rest);
    UniqueLine(c);
    var all, e := c.pending + c.out, |c.pending| - |c.busy|;
    assert all[..e] == c.pending[..e];
  }

  // ---------- what recycling keeps ----------

  lemma SettledBusy(b1: Bufs, all: Chain, e: int, rest: Chain, k: nat, b2: Bufs, busy2: Chain)
    requires Apart(b1, all, e, rest) && Strip(b1, all[e..], k, b2, busy2)
    ensures Behind(b2, rest, busy2)
  {
    BusyEnds(b1, all, e, rest, k);
    var p := rest[..|rest| - |busy2|];
    forall x | x in p ensures x in b2 && !b2[x].ours {
      assert x in rest;
      assert x in b1 && !b1[x].ours;
    }
  }

  lemma LineCount(b: Bufs, b1: Bufs, busy: Chain, out: Chain, k: nat)
    requires (forall x :: x in busy + out ==> x in b && x in b1 && b1[x].ours == b[x].ours) && k <= |busy + out|
    ensures Ours(b, busy) + Ours(b, out) == Ours(b1, (busy + out)[..k]) + Ours(b1, (busy + out)[k..])
  {
    var line := busy + out;
    OursConcat(b, busy, out);
    OursSame(b, b1, line);
    assert line == line[..k] + line[k..];
    OursConcat(b1, line[..k], line[k..]);
  }

  lemma SettledCount(c: Ctx, b1: Bufs, k: nat, c': Ctx)
    requires CountOk(c) && (forall x :: x in c.bufs ==> x in b1 && b1[x].ours == c.bufs[x].ours)
    requires Strip(b1, c.busy + c.out, k, c'.bufs, c'.busy) && Gain(b1, c.free, (c.busy + c.out)[..k], c'.free)
    requires c'.out == [] && c'.hold == c.hold && c'.count == c.count && c'.num == c.num
    ensures CountOk(c')
  {
    LineCount(c.bufs, b1, c.busy, c.out, k);
    OursSame(b1, c'.bufs, c'.busy);
  }

  // A buffer of our own that goes to the free chain is not pending any more.
  lemma NotPending(b1: Bufs, all: Chain, e: int, rest: Chain, k: nat, x: nat)
    requires Apart(b1, all, e, rest) && k <= |all| - e && (forall y :: y in all[e..][..k] ==> Size(b1[y]) == 0)
    ensures multiset(rest)[x] + (if x in b1 && b1[x].ours then multiset(all[e..][..k])[x] else 0) <= multiset(all)[x]
  {
    var gone := all[e..][..k];
    TwoCuts(all, |all| - |rest|, e, k);
    if x in gone && b1[x].ours {
      assert x in all[e..];
      GoneNotPending(b1, rest, x);
    }
  }

  lemma GoneNotPending(b1: Bufs, rest: Chain, x: nat)
    requires (forall y :: y in rest ==> y in b1 && Live(b1[y])) && x in b1 && b1[x].ours && Size(b1[x]) == 0
    ensures x !in rest
  {}

  lemma TwoCuts(all: Chain, d: int, e: int, k: nat)
    requires 0 <= d <= |all| && 0 <= e <= |all| - k
    ensures multiset(all[d..]) <= multiset(all) && multiset(all[e..][..k]) <= multiset(all)
  {
    assert all == all[..d] + all[d..];
    assert all == all[..e] + (all[e..][..k] + all[e..][k..]);
  }

  lemma SettledIds(c: Ctx, b1: Bufs, rest: Chain, k: nat, c': Ctx)
    requires Single(Everything(c)) && k <= |c.busy + c.out| && |c.busy| <= |c.pending|
    requires c.busy + c.out == (c.pending + c.out)[|c.pending| - |c.busy|..]
    requires Apart(b1, c.pending + c.out, |c.pending| - |c.busy|, rest)
        && Gain(b1, c.free, (c.busy + c.out)[..k], c'.free)
    requires forall y :: y in (c.busy + c.out)[..k] ==> Size(b1[y]) == 0
    requires c'.pending == rest && c'.out == [] && c'.input == c.input && c'.hold == c.hold
    ensures Single(Everything(c'))
  {
    forall x | x in Everything(c')
      ensures Everything(c')[x] == 1
    {
      SettledOnce(c, b1, rest, k, c', x);
      assert Everything(c')[x] <= Everything(c)[x];
    }
  }

  lemma SettledOnce(c: Ctx, b1: Bufs, rest: Chain, k: nat, c': Ctx, x: nat)
    requires k <= |c.busy + c.out| && |c.busy| <= |c.pending|
    requires c.busy + c.out == (c.pending + c.out)[|c.pending| - |c.busy|..]
    requires Apart(b1, c.pending + c.out, |c.pending| - |c.busy|, rest)
        && Gain(b1, c.free, (c.busy + c.out)[..k], c'.free)
    requires forall y :: y in (c.busy + c.out)[..k] ==> Size(b1[y]) == 0
    requires c'.pending == rest && c'.out == [] && c'.input == c.input && c'.hold == c.hold
    ensures Everything(c')[x] <= Everything(c)[x]
  {
    var all: Chain := c.pending + c.out;
    var gone: Chain := (c.busy + c.out)[..k];
    assert multiset(all) == multiset(c.pending) + multiset(c.out);
    NotPending(b1, all, |c.pending| - |c.busy|, rest, k, x);
    NoMore(c, c', x, if x in b1 && b1[x].ours then multiset(gone)[x] else 0);
  }

  // A buffer is in no more places than before: n of the pending ones have become free.
  lemma NoMore(c: Ctx, c': Ctx, x: nat, n: nat)
    requires multiset(c'.pending)[x] + n <= multiset(c.pending)[x] + multiset(c.out)[x]
    requires multiset(c'.free)[x] == multiset(c.free)[x] + n
    requires c'.out == [] && c'.input == c.input && c'.hold == c.hold
    ensures Everything(c')[x] <= Everything(c)[x]
  {
    Times(c, x);
    Times(c', x);
  }

  lemma Times(c: Ctx, x: nat)
    ensures Everything(c)[x] == multiset(c.pending)[x] + multiset(c.out)[x] + multiset(c.input)[x]
        + multiset(c.free)[x] + multiset(c.hold)[x]
  {}

  lemma SettledFlow(c: Ctx, b1: Bufs, rest: Chain, n: nat, b2: Bufs)
    requires FlowOk(c) && Wrote(c, b1, rest, n) && ChainOk(b2, c.input) && ChainOk(b2, rest)
    requires forall x :: x in c.input ==> b2[x] == c.bufs[x]
    requires forall x :: x in rest ==> Items(b2[x]) == Items(b1[x])
    ensures c.submitted == c.sent + Flow(c.bufs, c.pending + c.out)[..n] + Flow(b2, rest) + Flow(b2, [])
        + Flow(b2, c.input)
  {
    FlowConcat(c.bufs, c.pending, c.out);
    FlowSame(c.bufs, b2, c.input);
    FlowSame(b1, b2, rest);
    CutFlow(c.sent, Flow(c.bufs, c.pending), Flow(c.bufs, c.out), n, Flow(c.bufs, c.input));
  }

  lemma CutFlow(s: seq<Item>, p: seq<Item>, o: seq<Item>, n: nat, t: seq<Item>)
    requires n <= |p + o|
    ensures s + p + o + t == s + (p + o)[..n] + (p + o)[n..] + [] + t
  {
    assert p + o == (p + o)[..n] + (p + o)[n..];
    Regroup(s, p, o);
    Regroup(s, (p + o)[..n], (p + o)[n..]);
  }

  // A buffer after recycling
  lemma Reused(b1: Bufs, line: Chain, k: nat, b2: Bufs, busy2: Chain, x: nat)
    requires Strip(b1, line, k, b2, busy2) && x in b1 && BufOk(b1[x]) && TempOk(b1[x])
    ensures x in b2 && BufOk(b2[x]) && Items(b2[x]) == Items(b1[x])
    ensures x in line[..k] && b1[x].ours ==> Blank(b2[x])
    ensures x !in line[..k] || !b1[x].ours ==> b2[x] == b1[x]
  {
    if x in line[..k] && b1[x].ours { ResetOk(b1[x]); }
  }

  lemma SettledRest(c: Ctx, b1: Bufs, rest: Chain, k: nat, b2: Bufs, busy2: Chain)
    requires Single(Everything(c)) && ChainsOk(c) && RolesOk(c) && Shifted(c, b1, rest)
        && Strip(b1, c.busy + c.out, k, b2, busy2)
    ensures forall x :: x in rest ==>
        x in b2 && BufOk(b2[x]) && Live(b2[x]) && x in b1 && BufOk(b1[x]) && Items(b2[x]) == Items(b1[x])
  {
    WroteLine(c, b1, rest);
    forall x | x in rest
      ensures x in b2 && BufOk(b2[x]) && Live(b2[x]) && x in b1 && BufOk(b1[x]) && Items(b2[x]) == Items(b1[x])
    {
      assert x in c.pending + c.out;
      Reused(b1, c.busy + c.out, k, b2, busy2, x);
    }
  }

  lemma SettledOthers(c: Ctx, b1: Bufs, rest: Chain, k: nat, b2: Bufs, busy2: Chain)
    requires Single(Everything(c)) && ChainsOk(c) && RolesOk(c) && BusyOk(c) && Shifted(c, b1, rest)
        && Strip(b1, c.busy + c.out, k, b2, busy2)
    ensures forall x :: x in c.input + c.free + c.hold ==> x in c.bufs && x in b2 && b2[x] == c.bufs[x]
  {
    WroteLine(c, b1, rest);
    forall x | x in c.input + c.free + c.hold ensures x in c.bufs && x in b2 && b2[x] == c.bufs[x] {
      NotInLine(c, x);
      assert x !in c.busy + c.out;
    }
  }

  lemma SettledFree(c: Ctx, b1: Bufs, rest: Chain, k: nat, b2: Bufs, free2: Chain, busy2: Chain)
    requires Single(Everything(c)) && ChainsOk(c) && RolesOk(c) && BusyOk(c) && Shifted(c, b1, rest)
    requires Strip(b1, c.busy + c.out, k, b2, busy2) && Gain(b1, c.free, (c.busy + c.out)[..k], free2)
    ensures forall x :: x in free2 ==> x in b2 && BufOk(b2[x]) && Blank(b2[x])
  {
    WroteLine(c, b1, rest);
    SettledOthers(c, b1, rest, k, b2, busy2);
    forall x | x in free2 ensures x in b2 && BufOk(b2[x]) && Blank(b2[x]) {
      assert multiset(free2)[x] > 0;
      if x in c.free {
        assert x in c.input + c.free + c.hold;
      } else {
        assert x in (c.busy + c.out)[..k];
        assert x in c.pending + c.out;
        Reused(b1, c.busy + c.out, k, b2, busy2, x);
      }
    }
  }

  // ---------- the filter and the recycling together ----------

  ghost function Flushed(c: Ctx, b1: Bufs, rest: Chain, n: nat): Ctx
    requires Wrote(c, b1, rest, n) && ChainOk(b1, c.busy + c.out)
  {
    var r := Recycled(b1, c.free, c.busy + c.out);
    c.(bufs := r.0, free := r.1, busy := r.2, out := [], pending := rest,
        sent := c.sent + Flow(c.bufs, c.pending + c.out)[..n])
  }

  lemma FlushRoles(c: Ctx, b1: Bufs, rest: Chain, k: nat, c': Ctx)
    requires Single(Everything(c)) && ChainsOk(c) && RolesOk(c) && BusyOk(c) && Shifted(c, b1, rest)
    requires Strip(b1, c.busy + c.out, k, c'.bufs, c'.busy) && Gain(b1, c.free, (c.busy + c.out)[..k], c'.free)
    requires c'.pending == rest && c'.out == [] && c'.input == c.input && c'.hold == c.hold
    ensures RolesOk(c') && ChainsOk(c')
  {
    SettledRest(c, b1, rest, k, c'.bufs, c'.busy);
    SettledOthers(c, b1, rest, k, c'.bufs, c'.busy);
    SettledFree(c, b1, rest, k, c'.bufs, c'.free, c'.busy);
    RolesAgain(c, c');
  }

  lemma RolesAgain(c: Ctx, c': Ctx)
    requires ChainsOk(c) && RolesOk(c) && c'.out == [] && c'.input == c.input && c'.hold == c.hold
    requires forall x :: x in c.input + c.free + c.hold ==> x in c.bufs && x in c'.bufs && c'.bufs[x] == c.bufs[x]
    requires forall x :: x in c'.free ==> x in c'.bufs && BufOk(c'.bufs[x]) && Blank(c'.bufs[x])
    requires forall x :: x in c'.pending ==> x in c'.bufs && BufOk(c'.bufs[x]) && Live(c'.bufs[x])
    ensures RolesOk(c') && ChainsOk(c')
  {
    forall x | x in c.input ensures x in c'.bufs && c'.bufs[x] == c.bufs[x] { assert x in c.input + c.free + c.hold; }
    forall x | x in c.hold ensures x in c'.bufs && c'.bufs[x] == c.bufs[x] { assert x in c.input + c.free + c.hold; }
  }

  lemma FlushFlow(c: Ctx, b1: Bufs, rest: Chain, n: nat, k: nat, c': Ctx)
    requires Single(Everything(c)) && RolesOk(c) && BusyOk(c) && FlowOk(c) && Wrote(c, b1, rest, n) && ChainsOk(c')
    requires Strip(b1, c.busy + c.out, k, c'.bufs, c'.busy)
    requires c'.pending == rest && c'.out == [] && c'.input == c.input && c'.submitted == c.submitted
    requires c'.sent == c.sent + Flow(c.bufs, c.pending + c.out)[..n]
    ensures FlowOk(c')
  {
    SettledRest(c, b1, rest, k, c'.bufs, c'.busy);
    SettledOthers(c, b1, rest, k, c'.bufs, c'.busy);
    forall x | x in c.input ensures c'.bufs[x] == c.bufs[x] { assert x in c.input + c.free + c.hold; }
    SettledFlow(c, b1, rest, n, c'.bufs);
  }

  lemma FlushLine(c: Ctx, b1: Bufs, rest: Chain, n: nat) returns (k: nat)
    requires Single(Everything(c)) && ChainsOk(c) && RolesOk(c) && BusyOk(c) && Wrote(c, b1, rest, n)
    ensures ChainOk(b1, c.busy + c.out)
    ensures var c' := Flushed(c, b1, rest, n);
            Strip(b1, c.busy + c.out, k, c'.bufs, c'.busy) && Gain(b1, c.free, (c.busy + c.out)[..k], c'.free)
  {
    WroteLine(c, b1, rest);
    UniqueLine(c);
    var line := c.busy + c.out;
    assert forall x :: x in line ==> x in c.pending + c.out;
    k := Empties(b1, line);
    RecycledStrips(b1, c.free, line);
    RecycledGains(b1, c.free, line);
  }

  lemma FlushIds(c: Ctx, b1: Bufs, rest: Chain, k: nat, c': Ctx)
    requires Single(Everything(c)) && ChainsOk(c) && RolesOk(c) && BusyOk(c) && CountOk(c) && Shifted(c, b1, rest)
    requires Strip(b1, c.busy + c.out, k, c'.bufs, c'.busy) && Gain(b1, c.free, (c.busy + c.out)[..k], c'.free)
    requires c' == c.(bufs := c'.bufs, free := c'.free, busy := c'.busy, out := [], pending := rest, sent := c'.sent)
    ensures Single(Everything(c')) && BusyOk(c') && CountOk(c')
  {
    WroteLine(c, b1, rest);
    WroteApart(c, b1, rest);
    UniqueLine(c);
    SettledIds(c, b1, rest, k, c');
    SettledBusy(b1, c.pending + c.out, |c.pending| - |c.busy|, rest, k, c'.bufs, c'.busy);
    SettledCount(c, b1, k, c');
  }

  lemma Flush(c: Ctx, b1: Bufs, rest: Chain, n: nat)
    requires Faults(c) == {} && Wrote(c, b1, rest, n)
    ensures ChainOk(b1, c.busy + c.out) && Faults(Flushed(c, b1, rest, n)) == {}
  {
    NoFault(c);
    var k := FlushLine(c, b1, rest, n);
    var c' := Flushed(c, b1, rest, n);
    FlushIds(c, b1, rest, k, c');
    FlushRoles(c, b1, rest, k, c');
    FlushFlow(c, b1, rest, n, k, c');
    NoFault(c');
  }

  // ---------- the short path and the writer ----------

  // Flags of the head of the input change, its bytes do not.
  lemma Retag(c: Ctx, b: Buf)
    requires Faults(c) == {} && c.input != [] && c.input[0] in c.bufs && BufOk(c.bufs[c.input[0]])
    requires BufOk(b) && Items(b) == Items(c.bufs[c.input[0]]) && !b.ours
    ensures Faults(c.(bufs := c.bufs[c.input[0] := b])) == {}
  {
    NoFault(c);
    RetagFlow(c, b);
    RetagRoles(c, b);
    NoFault(c.(bufs := c.bufs[c.input[0] := b]));
  }

  lemma RetagRoles(c: Ctx, b: Buf)
    requires Single(Everything(c)) && RolesOk(c) && BusyOk(c) && CountOk(c) && c.input != [] && !b.ours
    ensures var c' := c.(bufs := c.bufs[c.input[0] := b]); RolesOk(c') && BusyOk(c') && CountOk(c')
  {
    Elsewhere(c);
    OursSame(c.bufs, c.bufs[c.input[0] := b], c.busy);
    OursSame(c.bufs, c.bufs[c.input[0] := b], c.out);
  }

  lemma RetagFlow(c: Ctx, b: Buf)
    requires Single(Everything(c)) && FlowOk(c) && c.input != [] && BufOk(b)
        && Items(b) == Items(c.bufs[c.input[0]])
    ensures FlowOk(c.(bufs := c.bufs[c.input[0] := b]))
  {
    Elsewhere(c);
    var x := c.input[0];
    FlowSet(c.bufs, x, b, c.pending);
    FlowSet(c.bufs, x, b, c.out);
    FlowSet(c.bufs, x, b, c.input[1..]);
    FlowSet(c.bufs, x, b, c.free);
    FlowSet(c.bufs, x, b, c.hold);
  }

  // Buffers of others that are handed out while nothing is busy need not be remembered.
  lemma HandOut(c: Ctx)
    requires Faults(c) == {} && c.busy == [] && forall x :: x in c.out ==> x in c.bufs && !c.bufs[x].ours
    ensures Faults(c.(pending := c.pending + c.out, out := [])) == {}
  {
    NoFault(c);
    var c' := c.(pending := c.pending + c.out, out := []);
    assert Everything(c') == Everything(c);
    HandOutFlow(c);
    OursNone(c.bufs, c.out);
    HandOutRoles(c);
    NoFault(c');
  }

  lemma HandOutFlow(c: Ctx)
    requires FlowOk(c)
    ensures FlowOk(c.(pending := c.pending + c.out, out := []))
  {
    FlowConcat(c.bufs, c.pending, c.out);
    Regroup(c.sent, Flow(c.bufs, c.pending), Flow(c.bufs, c.out));
  }

  lemma HandOutRoles(c: Ctx)
    requires RolesOk(c) && BusyOk(c) && c.busy == [] && forall x :: x in c.out ==> x in c.bufs && !c.bufs[x].ours
    ensures var c' := c.(pending := c.pending + c.out, out := []); RolesOk(c') && BusyOk(c')
  {
    assert c.pending[..|c.pending|] == c.pending;
    assert (c.pending + c.out)[..|c.pending + c.out|] == c.pending + c.out;
  }

  // Sending nothing
  lemma WroteNothing(c: Ctx)
    requires Faults(c) == {}
    ensures Wrote(c, c.bufs, c.pending + c.out, 0)
  {
    NoFault(c);
    AdvancedNot(c.bufs, c.pending + c.out);
  }

  // Sending n bytes
  lemma WroteSome(c: Ctx, n: nat)
    requires Faults(c) == {} && ChainOk(c.bufs, c.pending + c.out)
    ensures var went := Went(Flow(c.bufs, c.pending + c.out), n);
        && Wrote(c, Sent(c.bufs, c.pending + c.out, n).0, Sent(c.bufs, c.pending + c.out, n).1, |went|)
        && went == Flow(c.bufs, c.pending + c.out)[..|went|]
  {
    NoFault(c);
    UniqueLine(c);
    SentAdvanced(c.bufs, c.pending + c.out, n);
    SentSplit(c.bufs, c.pending + c.out, n);
    LiveLine(c);
    SentFlow(c.bufs, c.pending + c.out, n);
    LeftIs(Flow(c.bufs, c.pending + c.out), n);
  }

  lemma LiveLine(c: Ctx)
    requires RolesOk(c)
    ensures forall x :: x in c.pending + c.out ==> x in c.bufs && (Special(c.bufs[x]) || Size(c.bufs[x]) > 0)
  {}

  // ---------- work that is left ----------

  ghost function Work(bufs: Bufs, c: Chain): nat
    requires ChainOk(bufs, c)
  {
    if c == [] then 0 else 1 + Size(bufs[c[0]]) + Work(bufs, c[1..])
  }

  lemma {:induction false} WorkSame(bufs: Bufs, bufs': Bufs, c: Chain)
    requires ChainOk(bufs, c) && ChainOk(bufs', c) && forall x :: x in c ==> Size(bufs'[x]) == Size(bufs[x])
    ensures Work(bufs', c) == Work(bufs, c)
  {
    if c != [] {
      assert forall x :: x in c[1..] ==> x in c;
      WorkSame(bufs, bufs', c[1..]);
    }
  }

  // ---------- what the invariant says ----------

  lemma Conservation(c: Ctx)
    requires Faults(c) == {} && c.out == []
    ensures ChainOk(c.bufs, c.pending) && ChainOk(c.bufs, c.input)
    ensures c.submitted == c.sent + Flow(c.bufs, c.pending) + Flow(c.bufs, c.input)
  {
    NoFault(c);
  }

  // Our own buffers are free, held or pending, and never more than bufs.num.
  lemma BoundedBuffers(c: Ctx)
    requires Faults(c) == {} && c.out == []
    ensures (forall x :: x in c.busy ==> x in c.bufs) && c.count == |c.free| + |c.hold| + Ours(c.bufs, c.busy) <= c.num
  {
    NoFault(c);
  }
}
