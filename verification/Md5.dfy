/** ngx_md5.c: a message that comes in pieces is taken in blocks of 64 bytes, and padded at the end. */
module Md5 {
  import opened Md5Rounds

  // The transformation of a block: Block in what follows, but the lemmas hold for any
  type Transform = (Words, Bytes) -> Words

  // uint64_t wraps around.
  const WRAP := 0x1_0000_0000_0000_0000

  // ---------- blocks ----------

  // A whole number of blocks
  predicate Whole(m: Bytes) {
    |m| % 64 == 0
  }

  ghost function Fold(f: Transform, s: Words, m: Bytes): Words
    requires Whole(m)
    decreases |m|
  {
    if m == [] then s else Fold(f, f(s, m[..64]), m[64..])
  }

  lemma {:induction false} FoldConcat(f: Transform, s: Words, a: Bytes, b: Bytes)
    requires Whole(a) && Whole(b)
    ensures Whole(a + b) && Fold(f, s, a + b) == Fold(f, Fold(f, s, a), b)
    decreases |a|
  {
    if a == [] {
      assert a + b == b;
    } else {
      assert (a + b)[..64] == a[..64] && (a + b)[64..] == a[64..] + b;
      FoldConcat(f, f(s, a[..64]), a[64..], b);
    }
  }

  // ---------- padding ----------

  // Sections 3.1 and 3.2 of RFC 1321: a one bit, zeros up to 56 bytes modulo 64, and the length in bits in eight
  // bytes, the low ones first and the high ones dropped
  function Zeros(n: nat): Bytes {
    seq(n, i => 0)
  }

  function Little(n: nat, k: nat): (r: Bytes)
    ensures |r| == k
  {
    if k == 0 then [] else [(n % 0x100) as bv8] + Little(n / 0x100, k - 1)
  }

  function Gap(n: nat): nat {
    if n % 64 < 56 then 55 - n % 64 else 119 - n % 64
  }

  function Pad(m: Bytes, zeros: nat, length: Bytes): Bytes {
    m + [0x80] + Zeros(zeros) + length
  }

  function Padded(m: Bytes): Bytes {
    Pad(m, Gap(|m|), Little(8 * |m|, 8))
  }

  lemma PaddedWhole(m: Bytes)
    ensures Whole(Padded(m)) && (|m| + 1 + Gap(|m|)) % 64 == 56
  {
    GapFills(|m|);
    assert |Padded(m)| == |m| + 1 + Gap(|m|) + 8;
  }

  lemma GapFills(n: nat)
    ensures (n + 1 + Gap(n)) % 64 == 56 && (n + 1 + Gap(n) + 8) % 64 == 0
  {
    var q, r := n / 64, n % 64;
    assert n == 64 * q + r;
  }

  // Only the low bytes of a number count.
  ghost function Power(k: nat): nat {
    if k == 0 then 1 else 0x100 * Power(k - 1)
  }

  lemma {:induction false} LittleLow(n: nat, q: nat, k: nat)
    ensures Little(n + q * Power(k), k) == Little(n, k)
  {
    if k > 0 {
      var m := q * Power(k - 1);
      assert q * Power(k) == 0x100 * m;
      assert (n + 0x100 * m) % 0x100 == n % 0x100 && (n + 0x100 * m) / 0x100 == n / 0x100 + m;
      LittleLow(n / 0x100, q, k - 1);
    }
  }

  lemma LittleWraps(n: nat)
    ensures Little(n % WRAP, 8) == Little(n, 8)
  {
    assert Power(2) == 0x1_0000 && Power(4) == 0x1_0000_0000;
    assert Power(6) == 0x1_0000_0000_0000 && Power(8) == WRAP;
    var q := n / WRAP;
    assert n == n % WRAP + q * WRAP;
    LittleLow(n % WRAP, q, 8);
  }

  // ---------- a message in pieces ----------

  // The state after the whole blocks of the message, and the bytes behind them
  ghost predicate Held(f: Transform, init: Words, state: Words, tail: Bytes, msg: Bytes) {
    |tail| < 64 && |tail| <= |msg| && Whole(msg[..|msg| - |tail|]) && msg[|msg| - |tail|..] == tail
    && state == Fold(f, init, msg[..|msg| - |tail|])
  }

  // Empty when that is so
  ghost function Off(f: Transform, init: Words, state: Words, tail: Bytes, msg: Bytes): set<Bytes> {
    set t | t in {tail} && !Held(f, init, state, t, msg)
  }

  lemma NotOff(f: Transform, init: Words, state: Words, tail: Bytes, msg: Bytes)
    ensures Off(f, init, state, tail, msg) == {} <==> Held(f, init, state, tail, msg)
  {
    assert tail in Off(f, init, state, tail, msg) <==> !Held(f, init, state, tail, msg);
  }

  lemma Start(f: Transform, init: Words)
    ensures Off(f, init, init, [], []) == {}
  {
    NotOff(f, init, init, [], []);
  }

  // Bytes that do not fill a block
  lemma Keep(f: Transform, init: Words, state: Words, tail: Bytes, msg: Bytes, d: Bytes)
    requires Off(f, init, state, tail, msg) == {} && |tail| + |d| < 64
    ensures Off(f, init, state, tail + d, msg + d) == {}
  {
    NotOff(f, init, state, tail, msg);
    var k := |msg| - |tail|;
    assert (msg + d)[..k] == msg[..k] && (msg + d)[k..] == msg[k..] + d;
    NotOff(f, init, state, tail + d, msg + d);
  }

  // Bytes that fill it
  lemma Fill(f: Transform, init: Words, state: Words, tail: Bytes, msg: Bytes, d: Bytes)
    requires Off(f, init, state, tail, msg) == {} && |tail| + |d| == 64
    ensures Off(f, init, f(state, tail + d), [], msg + d) == {}
  {
    NotOff(f, init, state, tail, msg);
    var k := |msg| - |tail|;
    var block := tail + d;
    assert msg + d == msg[..k] + block;
    FoldOne(f, state, block);
    FoldConcat(f, init, msg[..k], block);
    assert (msg + d)[..|msg + d|] == msg + d;
    NotOff(f, init, f(state, block), [], msg + d);
  }

  lemma FoldOne(f: Transform, s: Words, block: Bytes)
    requires |block| == 64
    ensures Fold(f, s, block) == f(s, block)
  {
    assert block[..64] == block && block[64..] == [];
  }

  // Whole blocks
  lemma Blocks(f: Transform, init: Words, state: Words, msg: Bytes, d: Bytes)
    requires Off(f, init, state, [], msg) == {} && Whole(d)
    ensures Off(f, init, Fold(f, state, d), [], msg + d) == {}
  {
    NotOff(f, init, state, [], msg);
    assert msg[..|msg|] == msg && (msg + d)[..|msg + d|] == msg + d;
    FoldConcat(f, init, msg, d);
    NotOff(f, init, Fold(f, state, d), [], msg + d);
  }

  // The number of bytes behind the blocks, as it is found from the counter
  lemma UsedIs(f: Transform, init: Words, state: Words, tail: Bytes, msg: Bytes)
    requires Off(f, init, state, tail, msg) == {}
    ensures |msg| % WRAP % 64 == |tail| && |msg| % 64 == |tail|
  {
    NotOff(f, init, state, tail, msg);
    ModMod(|msg|);
    var k := |msg| - |tail|;
    assert k == 64 * (k / 64);
  }

  lemma ModMod(n: nat)
    ensures n % WRAP % 64 == n % 64
  {
    var q := n / WRAP;
    assert n == q * WRAP + n % WRAP;
    assert q * WRAP == 64 * (q * 0x400_0000_0000_0000);
    ModAdd(q * 0x400_0000_0000_0000, n % WRAP);
  }

  lemma ModAdd(m: nat, r: nat)
    ensures (64 * m + r) % 64 == r % 64
  {}

  lemma AddWraps(n: nat, k: nat)
    ensures (n % WRAP + k) % WRAP == (n + k) % WRAP
  {
    var q := n / WRAP;
    assert n == q * WRAP + n % WRAP;
  }

  lemma BitsWrap(n: nat)
    ensures n % WRAP * 8 % WRAP == 8 * n % WRAP
  {
    var q := n / WRAP;
    assert n == q * WRAP + n % WRAP;
    assert 8 * n == (8 * q) * WRAP + n % WRAP * 8;
    WrapAdd(8 * q, n % WRAP * 8);
  }

  // The bytes of the length in bits, as they are found from the counter
  lemma LengthIs(n: nat)
    ensures Little(n % WRAP * 8 % WRAP, 8) == Little(8 * n, 8)
  {
    BitsWrap(n);
    LittleWraps(8 * n);
  }

  lemma WrapAdd(m: nat, r: nat)
    ensures (m * WRAP + r) % WRAP == r % WRAP
  {}

  // The two ways to pad: the length fits behind the bytes of the last block, or it needs one more.
  lemma PadNear(msg: Bytes, free: nat)
    requires |msg| % 64 + 1 <= 56 && free == 64 - (|msg| % 64 + 1)
    ensures msg + [0x80] + (Zeros(free - 8) + Little(8 * |msg|, 8)) == Padded(msg)
  {
    assert Gap(|msg|) == free - 8;
    NearIs(msg, free - 8, Little(8 * |msg|, 8));
  }

  lemma NearIs(msg: Bytes, zeros: nat, l: Bytes)
    ensures msg + [0x80] + (Zeros(zeros) + l) == Pad(msg, zeros, l)
  {
    Three(msg + [0x80], Zeros(zeros), l);
  }

  lemma FarIs(msg: Bytes, a: nat, b: nat, l: Bytes)
    ensures msg + ([0x80] + Zeros(a)) + (Zeros(b) + l) == Pad(msg, a + b, l)
  {
    MoreZeros(a, b);
    Five(msg, [0x80], Zeros(a), Zeros(b), l);
  }

  lemma PadFar(msg: Bytes, rest: nat)
    requires |msg| % 64 + 1 > 56 && rest == 64 - (|msg| % 64 + 1)
    ensures msg + ([0x80] + Zeros(rest)) + (Zeros(56) + Little(8 * |msg|, 8)) == Padded(msg)
  {
    assert Gap(|msg|) == rest + 56;
    FarIs(msg, rest, 56, Little(8 * |msg|, 8));
  }

  lemma MoreZeros(a: nat, b: nat)
    ensures Zeros(a) + Zeros(b) == Zeros(a + b)
  {}

  lemma Three(a: Bytes, b: Bytes, c: Bytes)
    ensures a + (b + c) == a + b + c
  {}

  lemma Five(m: Bytes, o: Bytes, z: Bytes, z': Bytes, l: Bytes)
    ensures (m + (o + z)) + (z' + l) == m + o + (z + z') + l
  {}

  lemma Ended(f: Transform, init: Words, state: Words, m: Bytes)
    requires Off(f, init, state, [], m) == {}
    ensures Whole(m) && state == Fold(f, init, m)
  {
    NotOff(f, init, state, [], m);
    assert m[..|m|] == m;
  }

  // Where f is not the transformation of a block
  ghost function Odd(f: Transform): iset<(Words, Bytes)> {
    iset p: (Words, Bytes) | f(p.0, p.1) != Block(p.0, p.1)
  }

  method OneBlock(ghost f: Transform, s: Words, m: Bytes) returns (q: Words)
    requires Odd(f) == iset{} && |m| == 64
    ensures q == f(s, m)
  {
    assert (s, m) !in Odd(f);
    q := Compress(s, m);
  }

  // ngx_md5_body
  method Body(ghost f: Transform, state0: Words, data: Bytes) returns (state: Words)
    requires Odd(f) == iset{} && Whole(data)
    ensures state == Fold(f, state0, data)
  {
    state := state0;
    var rest := data;
    while rest != []
      invariant Whole(rest) && Fold(f, state, rest) == Fold(f, state0, data)
      decreases |rest|
    {
      state := OneBlock(f, state, rest[..64]);
      rest := rest[64..];
    }
  }

  // Section 3.3 of RFC 1321
  function Initial(): Words {
    Words(0x67452301, 0xefcdab89, 0x98badcfe, 0x10325476)
  }

  // The message digest
  ghost function Digested(m: Bytes): Bytes {
    PaddedWhole(m);
    Digest(Fold(Block, Initial(), Padded(m)))
  }

  class Md5 {
    var state: Words
    var bytes: nat
    const buffer: array<byte>
    ghost var msg: Bytes

    ghost predicate Valid()
      reads this, buffer
    {
      && buffer.Length == 64 && bytes == |msg| % WRAP
      && Off(Block, Initial(), state, buffer[..bytes % 64], msg) == {}
    }

    // ngx_md5_init
    constructor ()
      ensures Valid() && msg == [] && fresh(buffer)
    {
      state, bytes, msg := Words(0x67452301, 0xefcdab89, 0x98badcfe, 0x10325476), 0, [];
      buffer := new byte[64](i => 0);
      new;
      Start(Block, Initial());
      assert buffer[..0] == [];
    }

    // memcpy(&ctx->buffer[at], data, size)
    method Put(at: nat, data: Bytes)
      requires at + |data| <= buffer.Length
      modifies buffer
      ensures buffer[..at + |data|] == old(buffer[..at]) + data
    {
      ghost var front := buffer[..at];
      forall i | at <= i < at + |data| { buffer[i] := data[i - at]; }
      forall i | 0 <= i < at + |data| ensures buffer[i] == (front + data)[i] {}
    }

    // ngx_md5_update
    method Update(piece: Bytes)
      requires Valid()
      modifies this, buffer
      ensures Valid() && msg == old(msg) + piece
    {
      var data := piece;
      var used := bytes % 64;
      ghost var tail, all := buffer[..used], msg;
      UsedIs(Block, Initial(), state, tail, msg);
      AddWraps(|msg|, |piece|);
      bytes := (bytes + |piece|) % WRAP;
      msg := msg + piece;
      if used > 0 {
        var room := 64 - used;
        if |data| < room {
          Put(used, data);
          Keep(Block, Initial(), state, tail, all, data);
          UsedIs(Block, Initial(), state, tail + data, msg);
          return;
        }
        Put(used, data[..room]);
        state := Compress(state, buffer[..64]);
        Fill(Block, Initial(), old(state), tail, all, data[..room]);
        all := all + data[..room];
        data := data[room..];
      }
      assert all + data == msg;
      Finish(data, all);
    }

    // The second half of ngx_md5_update: nothing is held back.
    method Finish(data0: Bytes, ghost all: Bytes)
      requires buffer.Length == 64 && Off(Block, Initial(), state, [], all) == {} && msg == all + data0
          && bytes == |msg| % WRAP
      modifies this`state, buffer
      ensures Valid()
    {
      var data := data0;
      ghost var before := all;
      if |data| >= 64 {
        var n := |data| - |data| % 64;
        ghost var old' := state;
        assert Odd(Block) == iset{};
        state := Body(Block, state, data[..n]);
        Blocks(Block, Initial(), old', all, data[..n]);
        before := all + data[..n];
        data := data[n..];
      }
      assert before + data == msg;
      Put(0, data);
      Keep(Block, Initial(), state, [], before, data);
      assert [] + data == data;
      UsedIs(Block, Initial(), state, data, msg);
    }

    // Zeros and the length behind the bytes that are there
    method PutEnd(used: nat, length: Bytes)
      requires buffer.Length == 64 && used <= 56 && |length| == 8
      modifies buffer
      ensures buffer[..64] == old(buffer[..used]) + (Zeros(56 - used) + length)
    {
      Put(used, Zeros(56 - used));
      Put(56, length);
      Three(old(buffer[..used]), Zeros(56 - used), length);
    }

    // The last block of ngx_md5_final
    method LastBlock(used: nat, ghost all: Bytes)
      requires buffer.Length == 64 && used <= 56 && Off(Block, Initial(), state, buffer[..used], all) == {}
          && bytes == |msg| % WRAP
      modifies this`state, this`bytes, buffer
      ensures Off(Block, Initial(), state, [], all + (Zeros(56 - used) + Little(8 * |msg|, 8))) == {}
    {
      LengthIs(|msg|);
      bytes := bytes * 8 % WRAP;
      var length := Little(bytes, 8);
      Fill(Block, Initial(), state, buffer[..used], all, Zeros(56 - used) + length);
      PutEnd(used, length);
      state := Compress(state, buffer[..64]);
    }

    // ngx_md5_final
    method Final() returns (result: Bytes)
      requires Valid()
      modifies this`state, this`bytes, buffer
      ensures result == Digested(msg)
    {
      FinalBlocks();
      result := Digest(state);
    }

    // The padding and the last blocks
    method FinalBlocks()
      requires Valid()
      modifies this`state, this`bytes, buffer
      ensures Whole(Padded(msg)) && state == Fold(Block, Initial(), Padded(msg))
    {
      PaddedWhole(msg);
      var used := bytes % 64;
      ghost var tail := buffer[..used];
      UsedIs(Block, Initial(), state, tail, msg);
      Put(used, [0x80]);
      used := used + 1;
      var free := 64 - used;
      if free < 8 {
        Put(used, Zeros(free));
        ghost var d := [0x80] + Zeros(free);
        assert buffer[..64] == tail + d;
        Fill(Block, Initial(), state, tail, msg, d);
        state := Compress(state, buffer[..64]);
        assert buffer[..0] == [];
        PadFar(msg, free);
        LastBlock(0, msg + d);
      } else {
        Keep(Block, Initial(), state, tail, msg, [0x80]);
        PadNear(msg, free);
        LastBlock(used, msg + [0x80]);
      }
      Ended(Block, Initial(), state, Padded(msg));
    }
  }
}
