/** ngx_crc32.h and ngx_crc32.c: two table-driven forms of the CRC-32 of section 3.4 of RFC 2083, one by half bytes and
    one by bytes, and the form for a message in pieces. */
module Crc32 {
  type Word = bv32

  // ---------- the definition, bit by bit ----------

  function Bit(c: Word): Word {
    if c & 1 == 1 then 0xedb88320 ^ (c >> 1) else c >> 1
  }

  function Four(c: Word): Word {
    Bit(Bit(Bit(Bit(c))))
  }

  // Parts of a register
  function Xor(a: Word, b: Word): Word { a ^ b }
  function Low4(c: Word): Word { c & 0xf }
  function Low8(c: Word): Word { c & 0xff }
  function High4(c: Word): Word { c >> 4 }
  function High8(c: Word): Word { c >> 8 }
  function Wide(b: bv8): Word { b as Word }

  // The register over a message, by a step n of four bits: a byte is added to the low end, and eight bits are taken.
  ghost function Over(n: Word -> Word, c: Word, s: seq<bv8>): Word
    decreases |s|
  {
    if s == [] then c else Over(n, n(n(Xor(c, Wide(s[0])))), s[1..])
  }

  // The checksum: the register starts with ones and is inverted at the end.
  ghost function Crc(s: seq<bv8>): Word {
    Over(Four, 0xffffffff, s) ^ 0xffffffff
  }

  // ---------- the tables ----------

  // ngx_crc32_table16
  function Table16(i: Word): Word {
    if i == 0 then 0x00000000 else if i == 1 then 0x1db71064 else if i == 2 then 0x3b6e20c8 else
    if i == 3 then 0x26d930ac else if i == 4 then 0x76dc4190 else if i == 5 then 0x6b6b51f4 else
    if i == 6 then 0x4db26158 else if i == 7 then 0x5005713c else if i == 8 then 0xedb88320 else
    if i == 9 then 0xf00f9344 else if i == 10 then 0xd6d6a3e8 else if i == 11 then 0xcb61b38c else
    if i == 12 then 0x9b64c2b0 else if i == 13 then 0x86d3d2d4 else if i == 14 then 0xa00ae278 else
    0xbdbdf21c
  }

  // ngx_crc32_table256, by rows of sixteen
  function Row0(i: Word): Word {
    if i == 0 then 0x00000000 else if i == 1 then 0x77073096 else if i == 2 then 0xee0e612c else
    if i == 3 then 0x990951ba else if i == 4 then 0x076dc419 else if i == 5 then 0x706af48f else
    if i == 6 then 0xe963a535 else if i == 7 then 0x9e6495a3 else if i == 8 then 0x0edb8832 else
    if i == 9 then 0x79dcb8a4 else if i == 10 then 0xe0d5e91e else if i == 11 then 0x97d2d988 else
    if i == 12 then 0x09b64c2b else if i == 13 then 0x7eb17cbd else if i == 14 then 0xe7b82d07 else
    0x90bf1d91
  }

  function Row1(i: Word): Word {
    if i == 0 then 0x1db71064 else if i == 1 then 0x6ab020f2 else if i == 2 then 0xf3b97148 else
    if i == 3 then 0x84be41de else if i == 4 then 0x1adad47d else if i == 5 then 0x6ddde4eb else
    if i == 6 then 0xf4d4b551 else if i == 7 then 0x83d385c7 else if i == 8 then 0x136c9856 else
    if i == 9 then 0x646ba8c0 else if i == 10 then 0xfd62f97a else if i == 11 then 0x8a65c9ec else
    if i == 12 then 0x14015c4f else if i == 13 then 0x63066cd9 else if i == 14 then 0xfa0f3d63 else
    0x8d080df5
  }

  function Row2(i: Word): Word {
    if i == 0 then 0x3b6e20c8 else if i == 1 then 0x4c69105e else if i == 2 then 0xd56041e4 else
    if i == 3 then 0xa2677172 else if i == 4 then 0x3c03e4d1 else if i == 5 then 0x4b04d447 else
    if i == 6 then 0xd20d85fd else if i == 7 then 0xa50ab56b else if i == 8 then 0x35b5a8fa else
    if i == 9 then 0x42b2986c else if i == 10 then 0xdbbbc9d6 else if i == 11 then 0xacbcf940 else
    if i == 12 then 0x32d86ce3 else if i == 13 then 0x45df5c75 else if i == 14 then 0xdcd60dcf else
    0xabd13d59
  }

  function Row3(i: Word): Word {
    if i == 0 then 0x26d930ac else if i == 1 then 0x51de003a else if i == 2 then 0xc8d75180 else
    if i == 3 then 0xbfd06116 else if i == 4 then 0x21b4f4b5 else if i == 5 then 0x56b3c423 else
    if i == 6 then 0xcfba9599 else if i == 7 then 0xb8bda50f else if i == 8 then 0x2802b89e else
    if i == 9 then 0x5f058808 else if i == 10 then 0xc60cd9b2 else if i == 11 then 0xb10be924 else
    if i == 12 then 0x2f6f7c87 else if i == 13 then 0x58684c11 else if i == 14 then 0xc1611dab else
    0xb6662d3d
  }

  function Row4(i: Word): Word {
    if i == 0 then 0x76dc4190 else if i == 1 then 0x01db7106 else if i == 2 then 0x98d220bc else
    if i == 3 then 0xefd5102a else if i == 4 then 0x71b18589 else if i == 5 then 0x06b6b51f else
    if i == 6 then 0x9fbfe4a5 else if i == 7 then 0xe8b8d433 else if i == 8 then 0x7807c9a2 else
    if i == 9 then 0x0f00f934 else if i == 10 then 0x9609a88e else if i == 11 then 0xe10e9818 else
    if i == 12 then 0x7f6a0dbb else if i == 13 then 0x086d3d2d else if i == 14 then 0x91646c97 else
    0xe6635c01
  }

  function Row5(i: Word): Word {
    if i == 0 then 0x6b6b51f4 else if i == 1 then 0x1c6c6162 else if i == 2 then 0x856530d8 else
    if i == 3 then 0xf262004e else if i == 4 then 0x6c0695ed else if i == 5 then 0x1b01a57b else
    if i == 6 then 0x8208f4c1 else if i == 7 then 0xf50fc457 else if i == 8 then 0x65b0d9c6 else
    if i == 9 then 0x12b7e950 else if i == 10 then 0x8bbeb8ea else if i == 11 then 0xfcb9887c else
    if i == 12 then 0x62dd1ddf else if i == 13 then 0x15da2d49 else if i == 14 then 0x8cd37cf3 else
    0xfbd44c65
  }

  function Row6(i: Word): Word {
    if i == 0 then 0x4db26158 else if i == 1 then 0x3ab551ce else if i == 2 then 0xa3bc0074 else
    if i == 3 then 0xd4bb30e2 else if i == 4 then 0x4adfa541 else if i == 5 then 0x3dd895d7 else
    if i == 6 then 0xa4d1c46d else if i == 7 then 0xd3d6f4fb else if i == 8 then 0x4369e96a else
    if i == 9 then 0x346ed9fc else if i == 10 then 0xad678846 else if i == 11 then 0xda60b8d0 else
    if i == 12 then 0x44042d73 else if i == 13 then 0x33031de5 else if i == 14 then 0xaa0a4c5f else
    0xdd0d7cc9
  }

  function Row7(i: Word): Word {
    if i == 0 then 0x5005713c else if i == 1 then 0x270241aa else if i == 2 then 0xbe0b1010 else
    if i == 3 then 0xc90c2086 else if i == 4 then 0x5768b525 else if i == 5 then 0x206f85b3 else
    if i == 6 then 0xb966d409 else if i == 7 then 0xce61e49f else if i == 8 then 0x5edef90e else
    if i == 9 then 0x29d9c998 else if i == 10 then 0xb0d09822 else if i == 11 then 0xc7d7a8b4 else
    if i == 12 then 0x59b33d17 else if i == 13 then 0x2eb40d81 else if i == 14 then 0xb7bd5c3b else
    0xc0ba6cad
  }

  function Row8(i: Word): Word {
    if i == 0 then 0xedb88320 else if i == 1 then 0x9abfb3b6 else if i == 2 then 0x03b6e20c else
    if i == 3 then 0x74b1d29a else if i == 4 then 0xead54739 else if i == 5 then 0x9dd277af else
    if i == 6 then 0x04db2615 else if i == 7 then 0x73dc1683 else if i == 8 then 0xe3630b12 else
    if i == 9 then 0x94643b84 else if i == 10 then 0x0d6d6a3e else if i == 11 then 0x7a6a5aa8 else
    if i == 12 then 0xe40ecf0b else if i == 13 then 0x9309ff9d else if i == 14 then 0x0a00ae27 else
    0x7d079eb1
  }

  function Row9(i: Word): Word {
    if i == 0 then 0xf00f9344 else if i == 1 then 0x8708a3d2 else if i == 2 then 0x1e01f268 else
    if i == 3 then 0x6906c2fe else if i == 4 then 0xf762575d else if i == 5 then 0x806567cb else
    if i == 6 then 0x196c3671 else if i == 7 then 0x6e6b06e7 else if i == 8 then 0xfed41b76 else
    if i == 9 then 0x89d32be0 else if i == 10 then 0x10da7a5a else if i == 11 then 0x67dd4acc else
    if i == 12 then 0xf9b9df6f else if i == 13 then 0x8ebeeff9 else if i == 14 then 0x17b7be43 else
    0x60b08ed5
  }

  function Row10(i: Word): Word {
    if i == 0 then 0xd6d6a3e8 else if i == 1 then 0xa1d1937e else if i == 2 then 0x38d8c2c4 else
    if i == 3 then 0x4fdff252 else if i == 4 then 0xd1bb67f1 else if i == 5 then 0xa6bc5767 else
    if i == 6 then 0x3fb506dd else if i == 7 then 0x48b2364b else if i == 8 then 0xd80d2bda else
    if i == 9 then 0xaf0a1b4c else if i == 10 then 0x36034af6 else if i == 11 then 0x41047a60 else
    if i == 12 then 0xdf60efc3 else if i == 13 then 0xa867df55 else if i == 14 then 0x316e8eef else
    0x4669be79
  }

  function Row11(i: Word): Word {
    if i == 0 then 0xcb61b38c else if i == 1 then 0xbc66831a else if i == 2 then 0x256fd2a0 else
    if i == 3 then 0x5268e236 else if i == 4 then 0xcc0c7795 else if i == 5 then 0xbb0b4703 else
    if i == 6 then 0x220216b9 else if i == 7 then 0x5505262f else if i == 8 then 0xc5ba3bbe else
    if i == 9 then 0xb2bd0b28 else if i == 10 then 0x2bb45a92 else if i == 11 then 0x5cb36a04 else
    if i == 12 then 0xc2d7ffa7 else if i == 13 then 0xb5d0cf31 else if i == 14 then 0x2cd99e8b else
    0x5bdeae1d
  }

  function Row12(i: Word): Word {
    if i == 0 then 0x9b64c2b0 else if i == 1 then 0xec63f226 else if i == 2 then 0x756aa39c else
    if i == 3 then 0x026d930a else if i == 4 then 0x9c0906a9 else if i == 5 then 0xeb0e363f else
    if i == 6 then 0x72076785 else if i == 7 then 0x05005713 else if i == 8 then 0x95bf4a82 else
    if i == 9 then 0xe2b87a14 else if i == 10 then 0x7bb12bae else if i == 11 then 0x0cb61b38 else
    if i == 12 then 0x92d28e9b else if i == 13 then 0xe5d5be0d else if i == 14 then 0x7cdcefb7 else
    0x0bdbdf21
  }

  function Row13(i: Word): Word {
    if i == 0 then 0x86d3d2d4 else if i == 1 then 0xf1d4e242 else if i == 2 then 0x68ddb3f8 else
    if i == 3 then 0x1fda836e else if i == 4 then 0x81be16cd else if i == 5 then 0xf6b9265b else
    if i == 6 then 0x6fb077e1 else if i == 7 then 0x18b74777 else if i == 8 then 0x88085ae6 else
    if i == 9 then 0xff0f6a70 else if i == 10 then 0x66063bca else if i == 11 then 0x11010b5c else
    if i == 12 then 0x8f659eff else if i == 13 then 0xf862ae69 else if i == 14 then 0x616bffd3 else
    0x166ccf45
  }

  function Row14(i: Word): Word {
    if i == 0 then 0xa00ae278 else if i == 1 then 0xd70dd2ee else if i == 2 then 0x4e048354 else
    if i == 3 then 0x3903b3c2 else if i == 4 then 0xa7672661 else if i == 5 then 0xd06016f7 else
    if i == 6 then 0x4969474d else if i == 7 then 0x3e6e77db else if i == 8 then 0xaed16a4a else
    if i == 9 then 0xd9d65adc else if i == 10 then 0x40df0b66 else if i == 11 then 0x37d83bf0 else
    if i == 12 then 0xa9bcae53 else if i == 13 then 0xdebb9ec5 else if i == 14 then 0x47b2cf7f else
    0x30b5ffe9
  }

  function Row15(i: Word): Word {
    if i == 0 then 0xbdbdf21c else if i == 1 then 0xcabac28a else if i == 2 then 0x53b39330 else
    if i == 3 then 0x24b4a3a6 else if i == 4 then 0xbad03605 else if i == 5 then 0xcdd70693 else
    if i == 6 then 0x54de5729 else if i == 7 then 0x23d967bf else if i == 8 then 0xb3667a2e else
    if i == 9 then 0xc4614ab8 else if i == 10 then 0x5d681b02 else if i == 11 then 0x2a6f2b94 else
    if i == 12 then 0xb40bbe37 else if i == 13 then 0xc30c8ea1 else if i == 14 then 0x5a05df1b else
    0x2d02ef8d
  }

  function Row(r: Word, i: Word): Word {
    if r == 0 then Row0(i) else
    if r == 1 then Row1(i) else
    if r == 2 then Row2(i) else
    if r == 3 then Row3(i) else
    if r == 4 then Row4(i) else
    if r == 5 then Row5(i) else
    if r == 6 then Row6(i) else
    if r == 7 then Row7(i) else
    if r == 8 then Row8(i) else
    if r == 9 then Row9(i) else
    if r == 10 then Row10(i) else
    if r == 11 then Row11(i) else
    if r == 12 then Row12(i) else
    if r == 13 then Row13(i) else
    if r == 14 then Row14(i) else
    Row15(i)
  }

  function Table256(i: Word): Word {
    Row(i >> 4, i & 0xf)
  }

  // ---------- the tables are right ----------

  lemma Row0Is(i: Word)
    requires i < 16
    ensures Row0(i) == Four(Four(0x0 ^ i))
  {}

  lemma Row1Is(i: Word)
    requires i < 16
    ensures Row1(i) == Four(Four(0x10 ^ i))
  {}

  lemma Row2Is(i: Word)
    requires i < 16
    ensures Row2(i) == Four(Four(0x20 ^ i))
  {}

  lemma Row3Is(i: Word)
    requires i < 16
    ensures Row3(i) == Four(Four(0x30 ^ i))
  {}

  lemma Row4Is(i: Word)
    requires i < 16
    ensures Row4(i) == Four(Four(0x40 ^ i))
  {}

  lemma Row5Is(i: Word)
    requires i < 16
    ensures Row5(i) == Four(Four(0x50 ^ i))
  {}

  lemma Row6Is(i: Word)
    requires i < 16
    ensures Row6(i) == Four(Four(0x60 ^ i))
  {}

  lemma Row7Is(i: Word)
    requires i < 16
    ensures Row7(i) == Four(Four(0x70 ^ i))
  {}

  lemma Row8Is(i: Word)
    requires i < 16
    ensures Row8(i) == Four(Four(0x80 ^ i))
  {}

  lemma Row9Is(i: Word)
    requires i < 16
    ensures Row9(i) == Four(Four(0x90 ^ i))
  {}

  lemma Row10Is(i: Word)
    requires i < 16
    ensures Row10(i) == Four(Four(0xa0 ^ i))
  {}

  lemma Row11Is(i: Word)
    requires i < 16
    ensures Row11(i) == Four(Four(0xb0 ^ i))
  {}

  lemma Row12Is(i: Word)
    requires i < 16
    ensures Row12(i) == Four(Four(0xc0 ^ i))
  {}

  lemma Row13Is(i: Word)
    requires i < 16
    ensures Row13(i) == Four(Four(0xd0 ^ i))
  {}

  lemma Row14Is(i: Word)
    requires i < 16
    ensures Row14(i) == Four(Four(0xe0 ^ i))
  {}

  lemma Row15Is(i: Word)
    requires i < 16
    ensures Row15(i) == Four(Four(0xf0 ^ i))
  {}

  lemma RowIs(r: Word, i: Word)
    requires r < 16 && i < 16
    ensures Row(r, i) == Four(Four((r << 4) ^ i))
  {
    if r == 0 { Row0Is(i); }
    if r == 1 { Row1Is(i); }
    if r == 2 { Row2Is(i); }
    if r == 3 { Row3Is(i); }
    if r == 4 { Row4Is(i); }
    if r == 5 { Row5Is(i); }
    if r == 6 { Row6Is(i); }
    if r == 7 { Row7Is(i); }
    if r == 8 { Row8Is(i); }
    if r == 9 { Row9Is(i); }
    if r == 10 { Row10Is(i); }
    if r == 11 { Row11Is(i); }
    if r == 12 { Row12Is(i); }
    if r == 13 { Row13Is(i); }
    if r == 14 { Row14Is(i); }
    if r == 15 { Row15Is(i); }
  }

  lemma Four16(i: Word)
    requires i < 16
    ensures Table16(i) == Four(i)
  {}

  // The register moves, and the bits that fall out are looked up.
  lemma Four4(c: Word)
    ensures Four(c) == Xor(Four(Low4(c)), High4(c))
  {}

  lemma LowBits(x: Word)
    ensures Low4(Low8(x)) == Low4(x) && Low4(x) < 16 && Low8(x) < 256
  {}

  lemma Xor3(k: Word, a: Word, b: Word)
    ensures Xor(k, Xor(a, b)) == Xor(Xor(k, a), b)
  {}

  lemma Glue(x: Word, m: Word, y: Word, z: Word)
    requires y == Xor(m, High4(x)) && z == Xor(m, High4(Low8(x)))
    ensures Low4(y) == Low4(z) && High4(y) == Xor(High4(z), High8(x))
  {}

  // ---------- half bytes without their definition ----------

  // Where a function is not the step of four bits
  ghost function Wrong(n: Word -> Word): iset<Word> {
    iset c | n(c) != Four(c)
  }

  lemma Split4(n: Word -> Word, c: Word)
    requires Wrong(n) == iset{}
    ensures n(c) == Xor(n(Low4(c)), High4(c))
  {
    assert c !in Wrong(n) && Low4(c) !in Wrong(n);
    Four4(c);
  }

  lemma Look16(n: Word -> Word, i: Word)
    requires Wrong(n) == iset{} && i < 16
    ensures Table16(i) == n(i)
  {
    assert i !in Wrong(n);
    Four16(i);
  }

  lemma Look256(n: Word -> Word, i: Word)
    requires Wrong(n) == iset{} && i < 256
    ensures Table256(i) == n(n(i))
  {
    assert i !in Wrong(n) && Four(i) !in Wrong(n);
    var r, j := i >> 4, i & 0xf;
    assert r < 16 && j < 16 && (r << 4) ^ j == i;
    RowIs(r, j);
  }

  lemma HalfWay(n: Word -> Word, x: Word)
    requires Wrong(n) == iset{}
    ensures Low4(n(x)) == Low4(n(Low8(x))) && High4(n(x)) == Xor(High4(n(Low8(x))), High8(x))
  {
    Split4(n, x);
    Split4(n, Low8(x));
    LowBits(x);
    Glue(x, n(Low4(x)), n(x), n(Low8(x)));
  }

  lemma Split8At(n: Word -> Word, y: Word, z: Word, h: Word)
    requires Wrong(n) == iset{} && Low4(y) == Low4(z) && High4(y) == Xor(High4(z), h)
    ensures n(y) == Xor(n(z), h)
  {
    Split4(n, y);
    Split4(n, z);
    Xor3(n(Low4(z)), High4(z), h);
  }

  lemma Split8(n: Word -> Word, x: Word)
    requires Wrong(n) == iset{}
    ensures n(n(x)) == Xor(n(n(Low8(x))), High8(x))
  {
    HalfWay(n, x);
    Split8At(n, n(x), n(Low8(x)), High8(x));
  }

  // ---------- one byte ----------

  function ShortStep(c: Word, b: bv8): Word {
    var c1 := Xor(Table16(Low4(Xor(c, Low4(Wide(b))))), High4(c));
    Xor(Table16(Low4(Xor(c1, High4(Wide(b))))), High4(c1))
  }

  function LongStep(c: Word, b: bv8): Word {
    Xor(Table256(Low8(Xor(c, Wide(b)))), High8(c))
  }

  lemma LongStepAt(n: Word -> Word, x: Word)
    requires Wrong(n) == iset{}
    ensures Xor(Table256(Low8(x)), High8(x)) == n(n(x))
  {
    LowBits(x);
    Split8(n, x);
    Look256(n, Low8(x));
  }

  lemma ShortStepAt(n: Word -> Word, x: Word)
    requires Wrong(n) == iset{}
    ensures Xor(Table16(Low4(x)), High4(x)) == n(x)
  {
    LowBits(x);
    Split4(n, x);
    Look16(n, Low4(x));
  }

  // The byte is in the low bits only.
  lemma ByteHigh8(c: Word, b: bv8)
    ensures High8(Xor(c, Wide(b))) == High8(c)
  {}

  lemma ByteHigh4(c: Word, b: bv8)
    ensures High4(Xor(c, Wide(b))) == Xor(High4(c), High4(Wide(b)))
  {}

  lemma ByteLow4(c: Word, b: bv8)
    ensures Low4(Xor(c, Low4(Wide(b)))) == Low4(Xor(c, Wide(b)))
  {}

  lemma ByteUpper(c: Word, b: bv8)
    ensures High4(Xor(c, High4(Wide(b)))) == High4(c)
  {}

  lemma LongStepIs(n: Word -> Word, c: Word, b: bv8)
    requires Wrong(n) == iset{}
    ensures LongStep(c, b) == n(n(Xor(c, Wide(b))))
  {
    ByteHigh8(c, b);
    LongStepAt(n, Xor(c, Wide(b)));
  }

  lemma ShortStepIs(n: Word -> Word, c: Word, b: bv8)
    requires Wrong(n) == iset{}
    ensures ShortStep(c, b) == n(n(Xor(c, Wide(b))))
  {
    var m := Table16(Low4(Xor(c, Wide(b))));
    var c1 := Xor(m, High4(c));
    ByteHigh4(c, b);
    ByteLow4(c, b);
    Xor3(m, High4(c), High4(Wide(b)));
    ShortStepAt(n, Xor(c, Wide(b)));
    ByteUpper(c1, b);
    ShortStepAt(n, Xor(c1, High4(Wide(b))));
  }

  // ---------- messages ----------

  lemma FourIsRight()
    ensures Wrong(Four) == iset{}
  {
    assert forall c :: c !in Wrong(Four);
  }

  // The loops of ngx_crc32_update and of ngx_crc32_short
  method LongLoop(crc: Word, p: seq<bv8>, ghost n: Word -> Word) returns (c: Word)
    requires Wrong(n) == iset{}
    ensures c == Over(n, crc, p)
  {
    c := crc;
    var i := 0;
    assert p[0..] == p;
    while i < |p|
      invariant 0 <= i <= |p| && Over(n, c, p[i..]) == Over(n, crc, p)
    {
      LongStepIs(n, c, p[i]);
      assert p[i..][1..] == p[i + 1..];
      c := LongStep(c, p[i]);
      i := i + 1;
    }
  }

  method ShortLoop(crc: Word, p: seq<bv8>, ghost n: Word -> Word) returns (c: Word)
    requires Wrong(n) == iset{}
    ensures c == Over(n, crc, p)
  {
    c := crc;
    var i := 0;
    assert p[0..] == p;
    while i < |p|
      invariant 0 <= i <= |p| && Over(n, c, p[i..]) == Over(n, crc, p)
    {
      ShortStepIs(n, c, p[i]);
      assert p[i..][1..] == p[i + 1..];
      c := ShortStep(c, p[i]);
      i := i + 1;
    }
  }

  // ngx_crc32_update
  method Update(crc: Word, p: seq<bv8>) returns (c: Word)
    ensures c == Over(Four, crc, p)
  {
    FourIsRight();
    c := LongLoop(crc, p, Four);
  }

  // ngx_crc32_long
  method Long(p: seq<bv8>) returns (c: Word)
    ensures c == Crc(p)
  {
    FourIsRight();
    c := LongLoop(0xffffffff, p, Four);
    c := c ^ 0xffffffff;
  }

  // ngx_crc32_short
  method Short(p: seq<bv8>) returns (c: Word)
    ensures c == Crc(p)
  {
    FourIsRight();
    c := ShortLoop(0xffffffff, p, Four);
    c := c ^ 0xffffffff;
  }

  // Consecutive pieces give what the whole message gives.
  lemma {:induction false} OverConcat(n: Word -> Word, c: Word, a: seq<bv8>, b: seq<bv8>)
    ensures Over(n, c, a + b) == Over(n, Over(n, c, a), b)
    decreases |a|
  {
    if a == [] {
      assert a + b == b;
    } else {
      assert (a + b)[1..] == a[1..] + b;
      OverConcat(n, n(n(Xor(c, Wide(a[0])))), a[1..], b);
    }
  }

  // ---------- a value ----------

  // The register after one byte more, for any step of four bits
  lemma Byte(n: Word -> Word, c: Word, b: bv8, s: seq<bv8>, d: Word)
    requires n(n(Xor(c, Wide(b)))) == d
    ensures Over(n, c, [b] + s) == Over(n, d, s)
  {
    assert ([b] + s)[1..] == s;
  }

  lemma Digits(n: Word -> Word)
    requires n(n(Xor(0xffffffff, Wide(0x31)))) == 0x7c231048
    requires n(n(Xor(0x7c231048, Wide(0x32)))) == 0xb0acbb32
    requires n(n(Xor(0xb0acbb32, Wide(0x33)))) == 0x77b79c2d
    requires n(n(Xor(0x77b79c2d, Wide(0x34)))) == 0x641c1f5c
    requires n(n(Xor(0x641c1f5c, Wide(0x35)))) == 0x340ac5e3
    requires n(n(Xor(0x340ac5e3, Wide(0x36)))) == 0xf68d2c9e
    requires n(n(Xor(0xf68d2c9e, Wide(0x37)))) == 0xaffc9660
    requires n(n(Xor(0xaffc9660, Wide(0x38)))) == 0x651f2550
    requires n(n(Xor(0x651f2550, Wide(0x39)))) == 0x340bc6d9
    ensures Over(n, 0xffffffff, [0x31, 0x32, 0x33, 0x34, 0x35, 0x36, 0x37, 0x38, 0x39]) == 0x340bc6d9
  {
    var s: seq<bv8> := [];
    Byte(n, 0x651f2550, 0x39, s, 0x340bc6d9);
    s := [0x39] + s;
    Byte(n, 0xaffc9660, 0x38, s, 0x651f2550);
    s := [0x38] + s;
    Byte(n, 0xf68d2c9e, 0x37, s, 0xaffc9660);
    s := [0x37] + s;
    Byte(n, 0x340ac5e3, 0x36, s, 0xf68d2c9e);
    s := [0x36] + s;
    Byte(n, 0x641c1f5c, 0x35, s, 0x340ac5e3);
    s := [0x35] + s;
    Byte(n, 0x77b79c2d, 0x34, s, 0x641c1f5c);
    s := [0x34] + s;
    Byte(n, 0xb0acbb32, 0x33, s, 0x77b79c2d);
    s := [0x33] + s;
    Byte(n, 0x7c231048, 0x32, s, 0xb0acbb32);
    s := [0x32] + s;
    Byte(n, 0xffffffff, 0x31, s, 0x7c231048);
    s := [0x31] + s;
    assert s == [0x31, 0x32, 0x33, 0x34, 0x35, 0x36, 0x37, 0x38, 0x39];
  }

  lemma Registers()
    ensures Four(Four(Xor(0xffffffff, Wide(0x31)))) == 0x7c231048
    ensures Four(Four(Xor(0x7c231048, Wide(0x32)))) == 0xb0acbb32
    ensures Four(Four(Xor(0xb0acbb32, Wide(0x33)))) == 0x77b79c2d
    ensures Four(Four(Xor(0x77b79c2d, Wide(0x34)))) == 0x641c1f5c
    ensures Four(Four(Xor(0x641c1f5c, Wide(0x35)))) == 0x340ac5e3
    ensures Four(Four(Xor(0x340ac5e3, Wide(0x36)))) == 0xf68d2c9e
    ensures Four(Four(Xor(0xf68d2c9e, Wide(0x37)))) == 0xaffc9660
    ensures Four(Four(Xor(0xaffc9660, Wide(0x38)))) == 0x651f2550
    ensures Four(Four(Xor(0x651f2550, Wide(0x39)))) == 0x340bc6d9
  {}

  // The checksum of the digits from 1 to 9 is the check value of this CRC, which leaves no choice for the polynomial,
  // the order of the bits, and the register at the start and at the end.
  lemma Check()
    ensures Crc([0x31, 0x32, 0x33, 0x34, 0x35, 0x36, 0x37, 0x38, 0x39]) == 0xcbf43926
  {
    Registers();
    Digits(Four);
  }
}
