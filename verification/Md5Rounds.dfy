/** ngx_md5_body of ngx_md5.c: the 64 steps for a block, written out one by one, against the four rounds of section 3.4
    of RFC 1321. */
module Md5Rounds {
  type byte = bv8
  type Bytes = seq<byte>
  type Word = bv32
  type Shift = s: nat | s <= 32
  type Index = k: nat | k < 16

  datatype Words = Words(a: Word, b: Word, c: Word, d: Word)

  // ---------- section 3.4 of RFC 1321 ----------

  function F(x: Word, y: Word, z: Word): Word { (x & y) | (!x & z) }
  function G(x: Word, y: Word, z: Word): Word { (x & z) | (y & !z) }
  function H(x: Word, y: Word, z: Word): Word { x ^ y ^ z }
  function I(x: Word, y: Word, z: Word): Word { y ^ (x | !z) }

  // Which of them is used in a round
  function Mix(round: int, x: Word, y: Word, z: Word): Word {
    if round == 0 then F(x, y, z) else if round == 1 then G(x, y, z) else if round == 2 then H(x, y, z) else I(x, y, z)
  }

  // Which word of the block goes into step i
  function Pick(i: nat): Index {
    if i < 16 then i else if i < 32 then (5 * i + 1) % 16 else if i < 48 then (3 * i + 5) % 16 else 7 * i % 16
  }

  // How far step i rotates
  function Turn(i: nat): Shift {
    var k := i % 4;
    if i < 16 then (if k == 0 then 7 else if k == 1 then 12 else if k == 2 then 17 else 22)
    else if i < 32 then (if k == 0 then 5 else if k == 1 then 9 else if k == 2 then 14 else 20)
    else if i < 48 then (if k == 0 then 4 else if k == 1 then 11 else if k == 2 then 16 else 23)
    else (if k == 0 then 6 else if k == 1 then 10 else if k == 2 then 15 else 21)
  }

  // The integer part of 4294967296 times the absolute value of the sine of i + 1
  function Sine(i: nat): Word {
    if i < 16 then Sine1(i) else if i < 32 then Sine2(i) else if i < 48 then Sine3(i) else Sine4(i)
  }

  function Sine1(i: nat): Word {
    match i
    case 0 => 0xd76aa478
    case 1 => 0xe8c7b756
    case 2 => 0x242070db
    case 3 => 0xc1bdceee
    case 4 => 0xf57c0faf
    case 5 => 0x4787c62a
    case 6 => 0xa8304613
    case 7 => 0xfd469501
    case 8 => 0x698098d8
    case 9 => 0x8b44f7af
    case 10 => 0xffff5bb1
    case 11 => 0x895cd7be
    case 12 => 0x6b901122
    case 13 => 0xfd987193
    case 14 => 0xa679438e
    case _ => 0x49b40821
  }

  function Sine2(i: nat): Word {
    match i
    case 16 => 0xf61e2562
    case 17 => 0xc040b340
    case 18 => 0x265e5a51
    case 19 => 0xe9b6c7aa
    case 20 => 0xd62f105d
    case 21 => 0x02441453
    case 22 => 0xd8a1e681
    case 23 => 0xe7d3fbc8
    case 24 => 0x21e1cde6
    case 25 => 0xc33707d6
    case 26 => 0xf4d50d87
    case 27 => 0x455a14ed
    case 28 => 0xa9e3e905
    case 29 => 0xfcefa3f8
    case 30 => 0x676f02d9
    case _ => 0x8d2a4c8a
  }

  function Sine3(i: nat): Word {
    match i
    case 32 => 0xfffa3942
    case 33 => 0x8771f681
    case 34 => 0x6d9d6122
    case 35 => 0xfde5380c
    case 36 => 0xa4beea44
    case 37 => 0x4bdecfa9
    case 38 => 0xf6bb4b60
    case 39 => 0xbebfbc70
    case 40 => 0x289b7ec6
    case 41 => 0xeaa127fa
    case 42 => 0xd4ef3085
    case 43 => 0x04881d05
    case 44 => 0xd9d4d039
    case 45 => 0xe6db99e5
    case 46 => 0x1fa27cf8
    case _ => 0xc4ac5665
  }

  function Sine4(i: nat): Word {
    match i
    case 48 => 0xf4292244
    case 49 => 0x432aff97
    case 50 => 0xab9423a7
    case 51 => 0xfc93a039
    case 52 => 0x655b59c3
    case 53 => 0x8f0ccc92
    case 54 => 0xffeff47d
    case 55 => 0x85845dd1
    case 56 => 0x6fa87e4f
    case 57 => 0xfe2ce6e0
    case 58 => 0xa3014314
    case 59 => 0x4e0811a1
    case 60 => 0xf7537e82
    case 61 => 0xbd3af235
    case 62 => 0x2ad7d2bb
    case _ => 0xeb86d391
  }

  function Rotate(x: Word, s: Shift): Word {
    (x << s) | (x >> (32 - s))
  }

  // a = b + ((a + F(b,c,d) + X[k] + T[i]) <<< s)
  function Operation(round: int, a: Word, b: Word, c: Word, d: Word, x: Word, t: Word, s: Shift): Word {
    Blend(Mix(round, b, c, d), a, b, x, t, s)
  }

  function Blend(m: Word, a: Word, b: Word, x: Word, t: Word, s: Shift): Word {
    b + Rotate(a + m + x + t, s)
  }

  // A line of the table of operations: the round, the word of the block, the constant and the rotation
  datatype Entry = Entry(round: int, pick: Index, sine: Word, turn: Shift)

  function Row(i: nat): Entry {
    Entry(i / 16, Pick(i), Sine(i), Turn(i))
  }

  type Step = (int, Word, Word, Word, Word, Word, Word, Shift) -> Word
  type Table = nat -> Entry

  // One operation; the words change their roles from step to step.
  function Next(st: Step, e: Entry, x: seq<Word>, p: Words): Words
    requires |x| == 16
  {
    Words(p.d, st(e.round, p.a, p.b, p.c, p.d, x[e.pick], e.sine, e.turn), p.b, p.c)
  }

  // The first n operations
  function Steps(st: Step, tab: Table, s: Words, x: seq<Word>, n: nat): Words
    requires |x| == 16
  {
    if n == 0 then s else Next(st, tab(n - 1), x, Steps(st, tab, s, x, n - 1))
  }

  function Plus(s: Words, t: Words): Words {
    Words(s.a + t.a, s.b + t.b, s.c + t.c, s.d + t.d)
  }

  // ---------- words and bytes, the low-order byte first ----------

  function ToWord(m: Bytes): Word
    requires |m| == 4
  {
    (m[0] as Word) | ((m[1] as Word) << 8) | ((m[2] as Word) << 16) | ((m[3] as Word) << 24)
  }

  function ToBytes(w: Word): (m: Bytes)
    ensures |m| == 4
  {
    [(w & 0xff) as byte, ((w >> 8) & 0xff) as byte, ((w >> 16) & 0xff) as byte, ((w >> 24) & 0xff) as byte]
  }

  lemma WordBytes(w: Word)
    ensures ToWord(ToBytes(w)) == w
  {}

  function ToWords(m: Bytes): (x: seq<Word>)
    requires |m| == 64
    ensures |x| == 16
  {
    seq(16, i requires 0 <= i < 16 => ToWord(m[4 * i..4 * i + 4]))
  }

  // The transformation of a block
  function Block(s: Words, m: Bytes): Words {
    if |m| == 64 then Plus(s, Steps(Operation, Row, s, ToWords(m), 64)) else s
  }

  // Section 3.5: the words of the result, one after the other
  function Digest(s: Words): (m: Bytes)
    ensures |m| == 16
  {
    ToBytes(s.a) + ToBytes(s.b) + ToBytes(s.c) + ToBytes(s.d)
  }

  // ---------- the macros ----------

  function MixF(x: Word, y: Word, z: Word): Word { z ^ (x & (y ^ z)) }
  function MixG(x: Word, y: Word, z: Word): Word { y ^ (z & (x ^ y)) }

  function CodeMix(round: int, x: Word, y: Word, z: Word): Word {
    if round == 0 then MixF(x, y, z) else if round == 1 then MixG(x, y, z) else if round == 2 then H(x, y, z)
        else I(x, y, z)
  }

  // STEP
  function CodeStep(round: int, a: Word, b: Word, c: Word, d: Word, x: Word, t: Word, s: Shift): Word {
    CodeBlend(CodeMix(round, b, c, d), a, b, x, t, s)
  }

  function CodeBlend(m: Word, a: Word, b: Word, x: Word, t: Word, s: Shift): Word {
    Rotate(a + (m + x + t), s) + b
  }

  // The forms without a complement
  lemma LikeF(x: Word, y: Word, z: Word)
    ensures z ^ (x & (y ^ z)) == (x & y) | (!x & z)
  {}

  lemma LikeG(x: Word, y: Word, z: Word)
    ensures y ^ (z & (x ^ y)) == (x & z) | (y & !z)
  {}

  lemma MixFIs(x: Word, y: Word, z: Word)
    ensures MixF(x, y, z) == F(x, y, z)
  {
    LikeF(x, y, z);
  }

  lemma MixGIs(x: Word, y: Word, z: Word)
    ensures MixG(x, y, z) == G(x, y, z)
  {
    LikeG(x, y, z);
  }

  lemma MixIs(round: int, x: Word, y: Word, z: Word)
    ensures CodeMix(round, x, y, z) == Mix(round, x, y, z)
  {
    if round == 0 { MixFIs(x, y, z); }
    if round == 1 { MixGIs(x, y, z); }
  }

  lemma Sum(a: Word, m: Word, x: Word, t: Word)
    ensures a + (m + x + t) == a + m + x + t
  {}

  lemma BlendIs(m: Word, a: Word, b: Word, x: Word, t: Word, s: Shift)
    ensures CodeBlend(m, a, b, x, t, s) == Blend(m, a, b, x, t, s)
  {
    Sum(a, m, x, t);
  }

  lemma CodeStepIs(round: int, a: Word, b: Word, c: Word, d: Word, x: Word, t: Word, s: Shift)
    ensures CodeStep(round, a, b, c, d, x, t, s) == Operation(round, a, b, c, d, x, t, s)
  {
    MixIs(round, b, c, d);
    BlendIs(Mix(round, b, c, d), a, b, x, t, s);
  }

  // The arguments at which two forms of a step differ
  datatype Args = Args(round: int, a: Word, b: Word, c: Word, d: Word, x: Word, t: Word, s: Shift)

  ghost function Differ(f: Step, g: Step): iset<Args> {
    iset e: Args | f(e.round, e.a, e.b, e.c, e.d, e.x, e.t, e.s) != g(e.round, e.a, e.b, e.c, e.d, e.x, e.t, e.s)
  }

  lemma CodeIsRight()
    ensures Differ(CodeStep, Operation) == iset{}
  {
    forall e: Args ensures e !in Differ(CodeStep, Operation) { CodeStepIs(e.round, e.a, e.b, e.c, e.d, e.x, e.t, e.s); }
  }

  // Forms that do not differ make the same words.
  lemma {:induction false} StepsAre(f: Step, g: Step, tab: Table, s: Words, x: seq<Word>, n: nat)
    requires |x| == 16 && Differ(f, g) == iset{}
    ensures Steps(f, tab, s, x, n) == Steps(g, tab, s, x, n)
  {
    if n > 0 {
      StepsAre(f, g, tab, s, x, n - 1);
      var p, e := Steps(f, tab, s, x, n - 1), tab(n - 1);
      assert Args(e.round, p.a, p.b, p.c, p.d, x[e.pick], e.sine, e.turn) !in Differ(f, g);
    }
  }

  // ---------- the steps, written out ----------

  // Four steps in a row: after them the words have their old roles again.
  method FourSteps(st: Step, ghost tab: Table, p: Words, ghost s: Words, x: seq<Word>, ghost n: nat, e0: Entry,
      e1: Entry, e2: Entry, e3: Entry)
    returns (q: Words)
    requires |x| == 16 && p == Steps(st, tab, s, x, n)
    requires e0 == tab(n) && e1 == tab(n + 1) && e2 == tab(n + 2) && e3 == tab(n + 3)
    ensures q == Steps(st, tab, s, x, n + 4)
  {
    var a, b, c, d := p.a, p.b, p.c, p.d;
    a := st(e0.round, a, b, c, d, x[e0.pick], e0.sine, e0.turn);
    assert Words(d, a, b, c) == Steps(st, tab, s, x, n + 1);
    d := st(e1.round, d, a, b, c, x[e1.pick], e1.sine, e1.turn);
    assert Words(c, d, a, b) == Steps(st, tab, s, x, n + 2);
    c := st(e2.round, c, d, a, b, x[e2.pick], e2.sine, e2.turn);
    assert Words(b, c, d, a) == Steps(st, tab, s, x, n + 3);
    b := st(e3.round, b, c, d, a, x[e3.pick], e3.sine, e3.turn);
    q := Words(a, b, c, d);
  }

  method Steps0(st: Step, p: Words, ghost s: Words, x: seq<Word>) returns (q: Words)
    requires |x| == 16 && p == Steps(st, Row, s, x, 0)
    ensures q == Steps(st, Row, s, x, 4)
  {
    q := FourSteps(st, Row, p, s, x, 0,
      Entry(0, 0, 0xd76aa478, 7), Entry(0, 1, 0xe8c7b756, 12),
      Entry(0, 2, 0x242070db, 17), Entry(0, 3, 0xc1bdceee, 22));
  }

  method Steps4(st: Step, p: Words, ghost s: Words, x: seq<Word>) returns (q: Words)
    requires |x| == 16 && p == Steps(st, Row, s, x, 4)
    ensures q == Steps(st, Row, s, x, 8)
  {
    q := FourSteps(st, Row, p, s, x, 4,
      Entry(0, 4, 0xf57c0faf, 7), Entry(0, 5, 0x4787c62a, 12),
      Entry(0, 6, 0xa8304613, 17), Entry(0, 7, 0xfd469501, 22));
  }

  method Steps8(st: Step, p: Words, ghost s: Words, x: seq<Word>) returns (q: Words)
    requires |x| == 16 && p == Steps(st, Row, s, x, 8)
    ensures q == Steps(st, Row, s, x, 12)
  {
    q := FourSteps(st, Row, p, s, x, 8,
      Entry(0, 8, 0x698098d8, 7), Entry(0, 9, 0x8b44f7af, 12),
      Entry(0, 10, 0xffff5bb1, 17), Entry(0, 11, 0x895cd7be, 22));
  }

  method Steps12(st: Step, p: Words, ghost s: Words, x: seq<Word>) returns (q: Words)
    requires |x| == 16 && p == Steps(st, Row, s, x, 12)
    ensures q == Steps(st, Row, s, x, 16)
  {
    q := FourSteps(st, Row, p, s, x, 12,
      Entry(0, 12, 0x6b901122, 7), Entry(0, 13, 0xfd987193, 12),
      Entry(0, 14, 0xa679438e, 17), Entry(0, 15, 0x49b40821, 22));
  }

  method Steps16(st: Step, p: Words, ghost s: Words, x: seq<Word>) returns (q: Words)
    requires |x| == 16 && p == Steps(st, Row, s, x, 16)
    ensures q == Steps(st, Row, s, x, 20)
  {
    q := FourSteps(st, Row, p, s, x, 16,
      Entry(1, 1, 0xf61e2562, 5), Entry(1, 6, 0xc040b340, 9),
      Entry(1, 11, 0x265e5a51, 14), Entry(1, 0, 0xe9b6c7aa, 20));
  }

  method Steps20(st: Step, p: Words, ghost s: Words, x: seq<Word>) returns (q: Words)
    requires |x| == 16 && p == Steps(st, Row, s, x, 20)
    ensures q == Steps(st, Row, s, x, 24)
  {
    q := FourSteps(st, Row, p, s, x, 20,
      Entry(1, 5, 0xd62f105d, 5), Entry(1, 10, 0x02441453, 9),
      Entry(1, 15, 0xd8a1e681, 14), Entry(1, 4, 0xe7d3fbc8, 20));
  }

  method Steps24(st: Step, p: Words, ghost s: Words, x: seq<Word>) returns (q: Words)
    requires |x| == 16 && p == Steps(st, Row, s, x, 24)
    ensures q == Steps(st, Row, s, x, 28)
  {
    q := FourSteps(st, Row, p, s, x, 24,
      Entry(1, 9, 0x21e1cde6, 5), Entry(1, 14, 0xc33707d6, 9),
      Entry(1, 3, 0xf4d50d87, 14), Entry(1, 8, 0x455a14ed, 20));
  }

  method Steps28(st: Step, p: Words, ghost s: Words, x: seq<Word>) returns (q: Words)
    requires |x| == 16 && p == Steps(st, Row, s, x, 28)
    ensures q == Steps(st, Row, s, x, 32)
  {
    q := FourSteps(st, Row, p, s, x, 28,
      Entry(1, 13, 0xa9e3e905, 5), Entry(1, 2, 0xfcefa3f8, 9),
      Entry(1, 7, 0x676f02d9, 14), Entry(1, 12, 0x8d2a4c8a, 20));
  }

  method Steps32(st: Step, p: Words, ghost s: Words, x: seq<Word>) returns (q: Words)
    requires |x| == 16 && p == Steps(st, Row, s, x, 32)
    ensures q == Steps(st, Row, s, x, 36)
  {
    q := FourSteps(st, Row, p, s, x, 32,
      Entry(2, 5, 0xfffa3942, 4), Entry(2, 8, 0x8771f681, 11),
      Entry(2, 11, 0x6d9d6122, 16), Entry(2, 14, 0xfde5380c, 23));
  }

  method Steps36(st: Step, p: Words, ghost s: Words, x: seq<Word>) returns (q: Words)
    requires |x| == 16 && p == Steps(st, Row, s, x, 36)
    ensures q == Steps(st, Row, s, x, 40)
  {
    q := FourSteps(st, Row, p, s, x, 36,
      Entry(2, 1, 0xa4beea44, 4), Entry(2, 4, 0x4bdecfa9, 11),
      Entry(2, 7, 0xf6bb4b60, 16), Entry(2, 10, 0xbebfbc70, 23));
  }

  method Steps40(st: Step, p: Words, ghost s: Words, x: seq<Word>) returns (q: Words)
    requires |x| == 16 && p == Steps(st, Row, s, x, 40)
    ensures q == Steps(st, Row, s, x, 44)
  {
    q := FourSteps(st, Row, p, s, x, 40,
      Entry(2, 13, 0x289b7ec6, 4), Entry(2, 0, 0xeaa127fa, 11),
      Entry(2, 3, 0xd4ef3085, 16), Entry(2, 6, 0x04881d05, 23));
  }

  method Steps44(st: Step, p: Words, ghost s: Words, x: seq<Word>) returns (q: Words)
    requires |x| == 16 && p == Steps(st, Row, s, x, 44)
    ensures q == Steps(st, Row, s, x, 48)
  {
    q := FourSteps(st, Row, p, s, x, 44,
      Entry(2, 9, 0xd9d4d039, 4), Entry(2, 12, 0xe6db99e5, 11),
      Entry(2, 15, 0x1fa27cf8, 16), Entry(2, 2, 0xc4ac5665, 23));
  }

  method Steps48(st: Step, p: Words, ghost s: Words, x: seq<Word>) returns (q: Words)
    requires |x| == 16 && p == Steps(st, Row, s, x, 48)
    ensures q == Steps(st, Row, s, x, 52)
  {
    q := FourSteps(st, Row, p, s, x, 48,
      Entry(3, 0, 0xf4292244, 6), Entry(3, 7, 0x432aff97, 10),
      Entry(3, 14, 0xab9423a7, 15), Entry(3, 5, 0xfc93a039, 21));
  }

  method Steps52(st: Step, p: Words, ghost s: Words, x: seq<Word>) returns (q: Words)
    requires |x| == 16 && p == Steps(st, Row, s, x, 52)
    ensures q == Steps(st, Row, s, x, 56)
  {
    q := FourSteps(st, Row, p, s, x, 52,
      Entry(3, 12, 0x655b59c3, 6), Entry(3, 3, 0x8f0ccc92, 10),
      Entry(3, 10, 0xffeff47d, 15), Entry(3, 1, 0x85845dd1, 21));
  }

  method Steps56(st: Step, p: Words, ghost s: Words, x: seq<Word>) returns (q: Words)
    requires |x| == 16 && p == Steps(st, Row, s, x, 56)
    ensures q == Steps(st, Row, s, x, 60)
  {
    q := FourSteps(st, Row, p, s, x, 56,
      Entry(3, 8, 0x6fa87e4f, 6), Entry(3, 15, 0xfe2ce6e0, 10),
      Entry(3, 6, 0xa3014314, 15), Entry(3, 13, 0x4e0811a1, 21));
  }

  method Steps60(st: Step, p: Words, ghost s: Words, x: seq<Word>) returns (q: Words)
    requires |x| == 16 && p == Steps(st, Row, s, x, 60)
    ensures q == Steps(st, Row, s, x, 64)
  {
    q := FourSteps(st, Row, p, s, x, 60,
      Entry(3, 4, 0xf7537e82, 6), Entry(3, 11, 0xbd3af235, 10),
      Entry(3, 2, 0x2ad7d2bb, 15), Entry(3, 9, 0xeb86d391, 21));
  }

  method Round1(st: Step, p: Words, ghost s: Words, x: seq<Word>) returns (q: Words)
    requires |x| == 16 && p == Steps(st, Row, s, x, 0)
    ensures q == Steps(st, Row, s, x, 16)
  {
    q := Steps0(st, p, s, x);
    q := Steps4(st, q, s, x);
    q := Steps8(st, q, s, x);
    q := Steps12(st, q, s, x);
  }

  method Round2(st: Step, p: Words, ghost s: Words, x: seq<Word>) returns (q: Words)
    requires |x| == 16 && p == Steps(st, Row, s, x, 16)
    ensures q == Steps(st, Row, s, x, 32)
  {
    q := Steps16(st, p, s, x);
    q := Steps20(st, q, s, x);
    q := Steps24(st, q, s, x);
    q := Steps28(st, q, s, x);
  }

  method Round3(st: Step, p: Words, ghost s: Words, x: seq<Word>) returns (q: Words)
    requires |x| == 16 && p == Steps(st, Row, s, x, 32)
    ensures q == Steps(st, Row, s, x, 48)
  {
    q := Steps32(st, p, s, x);
    q := Steps36(st, q, s, x);
    q := Steps40(st, q, s, x);
    q := Steps44(st, q, s, x);
  }

  method Round4(st: Step, p: Words, ghost s: Words, x: seq<Word>) returns (q: Words)
    requires |x| == 16 && p == Steps(st, Row, s, x, 48)
    ensures q == Steps(st, Row, s, x, 64)
  {
    q := Steps48(st, p, s, x);
    q := Steps52(st, q, s, x);
    q := Steps56(st, q, s, x);
    q := Steps60(st, q, s, x);
  }

  // One block, as ngx_md5_body does it
  method Compress(s: Words, m: Bytes) returns (q: Words)
    requires |m| == 64
    ensures q == Block(s, m)
  {
    var x := ToWords(m);
    q := Unrolled(CodeStep, s, x);
    CodeIsRight();
    StepsAre(CodeStep, Operation, Row, s, x, 64);
    q := Plus(s, q);
  }

  method Unrolled(st: Step, s: Words, x: seq<Word>) returns (q: Words)
    requires |x| == 16
    ensures q == Steps(st, Row, s, x, 64)
  {
    q := Round1(st, s, s, x);
    q := Round2(st, q, s, x);
    q := Round3(st, q, s, x);
    q := Round4(st, q, s, x);
  }
}
