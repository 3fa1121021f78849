/** The static hash of ngx_hash.c: ngx_hash_init packs the elements of each bucket into bytes one after the
    other, and ngx_hash_find walks over them. */
module PackedHash {
  // ngx_hash_key_t: the name in lower case, its hash, and a value that is not NULL
  datatype Name = Name(key: string, hash: nat, value: nat)

  // A byte of the table: the i-th of a pointer, the i-th of a length, or a character
  datatype Byte = Pointer(value: nat, i: int) | Length(len: nat, i: int) | Letter(c: char) | Unset

  type Bytes = seq<Byte>

  // ngx_cacheline_size, and the range of u_short
  const LINE := 64
  const SHORT := 0x10000

  function PointerBytes(v: nat): Bytes {
    seq(8, i => Pointer(v, i))
  }

  function LengthBytes(n: nat): Bytes {
    seq(2, i => Length(n, i))
  }

  function Letters(s: string): Bytes {
    seq(|s|, i requires 0 <= i < |s| => Letter(s[i]))
  }

  function Align8(a: nat): (r: nat)
    ensures a <= r
  {
    (a + 7) / 8 * 8
  }

  function AlignLine(a: nat): (r: nat)
    ensures a <= r
  {
    (a + 63) / 64 * 64
  }

  // NGX_HASH_ELT_SIZE
  function EltSize(n: Name): (r: nat)
    ensures r >= 10 + |n.key|
  {
    8 + Align8(|n.key| + 2)
  }

  // The step in ngx_hash_find: behind the name, aligned to a pointer
  lemma Stride(a: nat, n: Name)
    requires a % 8 == 0
    ensures Align8(a + 10 + |n.key|) == a + EltSize(n)
  {
    var q := a / 8;
    assert a == 8 * q;
    assert (8 * q + (|n.key| + 10 + 7)) / 8 == q + (|n.key| + 17) / 8;
  }

  // ---------- bytes ----------

  function Write(mem: Bytes, a: nat, x: Bytes): (r: Bytes)
    requires a + |x| <= |mem|
    ensures |r| == |mem|
  {
    mem[..a] + x + mem[a + |x|..]
  }

  lemma WriteHere(mem: Bytes, a: nat, x: Bytes)
    requires a + |x| <= |mem|
    ensures Write(mem, a, x)[a..a + |x|] == x
  {}

  lemma WriteElsewhere(mem: Bytes, a: nat, x: Bytes, lo: nat, hi: nat)
    requires a + |x| <= |mem| && lo <= hi <= |mem| && (hi <= a || a + |x| <= lo)
    ensures Write(mem, a, x)[lo..hi] == mem[lo..hi]
  {}

  // An element at the address a
  ghost predicate At(mem: Bytes, a: nat, n: Name) {
    && a + EltSize(n) <= |mem|
    && mem[a..a + 8] == PointerBytes(n.value)
    && mem[a + 8..a + 10] == LengthBytes(|n.key|)
    && mem[a + 10..a + 10 + |n.key|] == Letters(n.key)
  }

  // The end of a bucket
  ghost predicate EndAt(mem: Bytes, a: nat) {
    a + 8 <= |mem| && mem[a..a + 8] == PointerBytes(0)
  }

  // The bytes from lo to hi are the same.
  ghost predicate Same(mem: Bytes, mem': Bytes, lo: nat, hi: nat) {
    |mem'| == |mem| && lo <= hi <= |mem| && mem'[lo..hi] == mem[lo..hi]
  }

  lemma SamePart(mem: Bytes, mem': Bytes, lo: nat, hi: nat, l: nat, h: nat)
    requires Same(mem, mem', lo, hi) && lo <= l <= h <= hi
    ensures mem'[l..h] == mem[l..h]
  {
    forall k | l <= k < h ensures mem'[k] == mem[k] {
      assert mem'[k] == mem'[lo..hi][k - lo] && mem[k] == mem[lo..hi][k - lo];
    }
  }

  lemma AtSame(mem: Bytes, mem': Bytes, lo: nat, hi: nat, a: nat, n: Name)
    requires At(mem, a, n) && Same(mem, mem', lo, hi) && lo <= a && a + EltSize(n) <= hi
    ensures At(mem', a, n)
  {
    SamePart(mem, mem', lo, hi, a, a + 8);
    SamePart(mem, mem', lo, hi, a + 8, a + 10);
    SamePart(mem, mem', lo, hi, a + 10, a + 10 + |n.key|);
  }

  // Writing an element
  function WriteElt(mem: Bytes, a: nat, n: Name): (r: Bytes)
    requires a + EltSize(n) <= |mem|
    ensures |r| == |mem|
  {
    Write(Write(Write(mem, a, PointerBytes(n.value)), a + 8, LengthBytes(|n.key|)), a + 10, Letters(n.key))
  }

  lemma WriteEltAt(mem: Bytes, a: nat, n: Name)
    requires a + EltSize(n) <= |mem|
    ensures At(WriteElt(mem, a, n), a, n)
  {
    var p, l, t := PointerBytes(n.value), LengthBytes(|n.key|), Letters(n.key);
    var m1 := Write(mem, a, p);
    var m2 := Write(m1, a + 8, l);
    WriteHere(mem, a, p);
    WriteHere(m1, a + 8, l);
    WriteHere(m2, a + 10, t);
    WriteElsewhere(m1, a + 8, l, a, a + 8);
    WriteElsewhere(m2, a + 10, t, a, a + 8);
    WriteElsewhere(m2, a + 10, t, a + 8, a + 10);
  }

  lemma WriteEltSame(mem: Bytes, a: nat, n: Name, lo: nat, hi: nat)
    requires a + EltSize(n) <= |mem| && lo <= hi <= |mem| && (hi <= a || a + EltSize(n) <= lo)
    ensures Same(mem, WriteElt(mem, a, n), lo, hi)
  {
    var p, l, t := PointerBytes(n.value), LengthBytes(|n.key|), Letters(n.key);
    var m1 := Write(mem, a, p);
    var m2 := Write(m1, a + 8, l);
    WriteElsewhere(mem, a, p, lo, hi);
    WriteElsewhere(m1, a + 8, l, lo, hi);
    WriteElsewhere(m2, a + 10, t, lo, hi);
  }

  // ---------- buckets ----------

  // The bucket of a hash
  function Slot(hash: nat, size: nat): (r: nat)
    requires size > 0
    ensures r < size
  {
    hash % size
  }

  // The names of a bucket, in order
  function Bucket(names: seq<Name>, size: nat, i: nat): seq<Name>
    requires size > 0
  {
    if names == [] then []
    else
      var n := names[|names| - 1];
      Bucket(names[..|names| - 1], size, i) + if Slot(n.hash, size) == i then [n] else []
  }

  function Size(list: seq<Name>): nat {
    if list == [] then 0 else Size(list[..|list| - 1]) + EltSize(list[|list| - 1])
  }

  ghost predicate Written(mem: Bytes, a: nat, list: seq<Name>) {
    list == [] || (Written(mem, a, list[..|list| - 1]) && At(mem, a + Size(list[..|list| - 1]), list[|list| - 1]))
  }

  lemma {:induction false} WrittenAt(mem: Bytes, a: nat, list: seq<Name>, j: nat)
    requires Written(mem, a, list) && j < |list|
    ensures At(mem, a + Size(list[..j]), list[j])
  {
    if j < |list| - 1 {
      WrittenAt(mem, a, list[..|list| - 1], j);
      assert list[..|list| - 1][..j] == list[..j];
    }
  }

  lemma {:induction false} WrittenSame(mem: Bytes, mem': Bytes, a: nat, list: seq<Name>)
    requires Written(mem, a, list) && a + Size(list) <= |mem| && Same(mem, mem', a, a + Size(list))
    ensures Written(mem', a, list)
  {
    if list != [] {
      var front, n := list[..|list| - 1], list[|list| - 1];
      SamePart(mem, mem', a, a + Size(list), a, a + Size(front));
      WrittenSame(mem, mem', a, front);
      AtSame(mem, mem', a, a + Size(list), a + Size(front), n);
    }
  }

  lemma {:induction false} SizeAligned(list: seq<Name>)
    ensures Size(list) % 8 == 0
  {
    if list != [] { SizeAligned(list[..|list| - 1]); }
  }

  lemma SizePush(list: seq<Name>, n: Name)
    ensures Size(list + [n]) == Size(list) + EltSize(n)
  {
    assert (list + [n])[..|list|] == list;
  }

  lemma WrittenPush(mem: Bytes, a: nat, list: seq<Name>, n: Name)
    requires Written(mem, a, list) && At(mem, a + Size(list), n)
    ensures Written(mem, a, list + [n])
  {
    assert (list + [n])[..|list|] == list;
  }

  // ---------- ngx_hash_find ----------

  // The value of a name in a list; zero is NULL.
  function Lookup(list: seq<Name>, name: string): nat {
    if list == [] then 0 else if list[0].key == name then list[0].value else Lookup(list[1..], name)
  }

  lemma {:induction false} LookupFrom(list: seq<Name>, name: string, j: nat)
    requires j <= |list| && forall k :: 0 <= k < j ==> list[k].key != name
    ensures Lookup(list, name) == Lookup(list[j..], name)
  {
    if j > 0 {
      LookupFrom(list[1..], name, j - 1);
      assert list[1..][j - 1..] == list[j..];
    } else {
      assert list[0..] == list;
    }
  }

  // The bytes of an element, one by one
  lemma AtBytes(mem: Bytes, a: nat, n: Name)
    requires At(mem, a, n)
    ensures mem[a] == Pointer(n.value, 0) && mem[a + 8] == Length(|n.key|, 0)
    ensures forall i :: 0 <= i < |n.key| ==> mem[a + 10 + i] == Letter(n.key[i])
  {
    assert mem[a..a + 8][0] == mem[a] && mem[a + 8..a + 10][0] == mem[a + 8];
    forall i | 0 <= i < |n.key| ensures mem[a + 10 + i] == Letter(n.key[i]) {
      assert mem[a + 10..a + 10 + |n.key|][i] == mem[a + 10 + i];
    }
  }

  // The comparison in the loop below
  method SameName(mem: Bytes, a: nat, ghost n: Name, name: string) returns (same: bool)
    requires At(mem, a, n)
    ensures same <==> n.key == name
  {
    AtBytes(mem, a, n);
    if |name| != mem[a + 8].len { return false; }
    var i := 0;
    while i < |name|
      invariant 0 <= i <= |name| == |n.key| && name[..i] == n.key[..i]
    {
      if Letter(name[i]) != mem[a + 10 + i] { return false; }
      assert name[..i + 1] == name[..i] + [name[i]] && n.key[..i + 1] == n.key[..i] + [n.key[i]];
      i := i + 1;
    }
    assert name[..i] == name && n.key[..i] == n.key;
    return true;
  }

  // A bucket in memory
  ghost predicate BucketAt(mem: Bytes, a: nat, list: seq<Name>) {
    a % 8 == 0 && Written(mem, a, list) && EndAt(mem, a + Size(list)) && forall j :: 0 <= j < |list| ==>
        list[j].value != 0
  }

  // Empty when the bucket is there
  ghost function Damage(mem: Bytes, a: nat, list: seq<Name>): set<nat> {
    set x | x in {a} && !BucketAt(mem, x, list)
  }

  lemma NoDamage(mem: Bytes, a: nat, list: seq<Name>)
    ensures Damage(mem, a, list) == {} <==> BucketAt(mem, a, list)
  {
    assert a in Damage(mem, a, list) <==> !BucketAt(mem, a, list);
  }

  // The address of the j-th element, or of the end of the bucket
  ghost function Place(base: nat, list: seq<Name>, j: nat): nat
    requires j <= |list|
  {
    base + Size(list[..j])
  }

  lemma Step(mem: Bytes, base: nat, list: seq<Name>, j: nat)
    requires Damage(mem, base, list) == {} && j < |list|
    ensures At(mem, Place(base, list, j), list[j]) && Align8(Place(base, list, j) + 10 + |list[j].key|)
        == Place(base, list, j + 1)
  {
    NoDamage(mem, base, list);
    WrittenAt(mem, base, list, j);
    StepOver(base, list, j);
  }

  lemma StepOver(base: nat, list: seq<Name>, j: nat)
    requires j < |list| && base % 8 == 0
    ensures Align8(Place(base, list, j) + 10 + |list[j].key|) == Place(base, list, j + 1)
  {
    var a := Size(list[..j]);
    SizeAligned(list[..j]);
    assert (base + a) % 8 == 0;
    Stride(base + a, list[j]);
    NextSize(list, j);
  }

  lemma EltAt(mem: Bytes, base: nat, list: seq<Name>, j: nat)
    requires Damage(mem, base, list) == {} && j <= |list|
    ensures (var a := Place(base, list, j); a < |mem| && mem[a] == Pointer(if j < |list| then list[j].value else 0, 0))
    ensures j < |list| ==> list[j].value != 0
  {
    NoDamage(mem, base, list);
    var a := Place(base, list, j);
    if j < |list| {
      WrittenAt(mem, base, list, j);
      AtBytes(mem, a, list[j]);
    } else {
      assert list[..j] == list;
      assert mem[a..a + 8][0] == mem[a];
    }
  }

  method FindInBucket(mem: Bytes, base: nat, ghost list: seq<Name>, name: string) returns (value: nat)
    requires Damage(mem, base, list) == {}
    ensures value == Lookup(list, name)
  {
    var elt := base;
    ghost var j := 0;
    EltAt(mem, base, list, 0);
    while mem[elt].value != 0
      invariant 0 <= j <= |list| && elt == Place(base, list, j) && elt < |mem|
      invariant mem[elt] == Pointer(if j < |list| then list[j].value else 0, 0)
      invariant forall k :: 0 <= k < j ==> list[k].key != name
      decreases |list| - j
    {
      Step(mem, base, list, j);
      AtBytes(mem, elt, list[j]);
      var same := SameName(mem, elt, list[j], name);
      if same {
        LookupFrom(list, name, j);
        return mem[elt].value;
      }
      elt := Align8(elt + 10 + mem[elt + 8].len);
      j := j + 1;
      EltAt(mem, base, list, j);
    }
    EltAt(mem, base, list, j);
    LookupFrom(list, name, j);
    return 0;
  }

  lemma NextSize(list: seq<Name>, j: nat)
    requires j < |list|
    ensures Size(list[..j + 1]) == Size(list[..j]) + EltSize(list[j])
  {
    assert list[..j + 1][..j] == list[..j];
  }

  // ---------- ngx_hash_init ----------

  lemma BucketNext(names: seq<Name>, size: nat, n: nat, i: nat)
    requires size > 0 && n < |names|
    ensures Bucket(names[..n + 1], size, i) == Bucket(names[..n], size, i) + if Slot(names[n].hash, size) == i
        then [names[n]] else []
  {
    assert names[..n + 1][..n] == names[..n];
  }

  lemma SizeNext(names: seq<Name>, size: nat, n: nat, i: nat)
    requires size > 0 && n < |names|
    ensures (Size(Bucket(names[..n + 1], size, i)) ==
             Size(Bucket(names[..n], size, i)) + if Slot(names[n].hash, size) == i then EltSize(names[n]) else 0)
  {
    BucketNext(names, size, n, i);
    var b := Bucket(names[..n], size, i);
    if Slot(names[n].hash, size) == i { SizePush(b, names[n]); } else { assert b + [] == b; }
  }

  lemma {:induction false} BucketMono(names: seq<Name>, size: nat, n: nat, i: nat)
    requires size > 0 && n <= |names|
    ensures Size(Bucket(names[..n], size, i)) <= Size(Bucket(names, size, i))
    decreases |names| - n
  {
    if n < |names| {
      SizeNext(names, size, n, i);
      BucketMono(names, size, n + 1, i);
    } else {
      assert names[..n] == names;
    }
  }

  // The bytes of a bucket
  function Need(names: seq<Name>, size: nat, i: nat): nat
    requires size > 0
  {
    8 + Size(Bucket(names, size, i))
  }

  // The sizes of the buckets fit into u_short.
  predicate Fits(names: seq<Name>, size: nat) {
    size > 0 && forall i :: 0 <= i < size ==> AlignLine(Need(names, size, i)) < SHORT
  }

  // The room for a bucket of the given size
  function Room(t: nat): nat {
    if t == 8 then 0 else AlignLine(t) % SHORT
  }

  lemma WrapSum(x: nat, e: nat)
    ensures (x % SHORT + e) % SHORT == (x + e) % SHORT
  {}

  // The sizes of the buckets, as far as 16 bits hold them
  method Measure(names: seq<Name>, size: nat) returns (test: seq<nat>)
    requires size > 0
    ensures |test| == size && forall i :: 0 <= i < size ==> test[i] == Need(names, size, i) % SHORT
  {
    test := seq(size, i => 8);
    var n := 0;
    while n < |names|
      invariant 0 <= n <= |names| && |test| == size
      invariant forall i :: 0 <= i < size ==> test[i] == Need(names[..n], size, i) % SHORT
    {
      var key := Slot(names[n].hash, size);
      var more := names[..n + 1];
      forall i | 0 <= i < size
        ensures Need(more, size, i) == Need(names[..n], size, i) + if key == i then EltSize(names[n]) else 0
      {
        SizeNext(names, size, n, i);
      }
      WrapSum(Need(names[..n], size, key), EltSize(names[n]));
      test := test[key := (test[key] + EltSize(names[n])) % SHORT];
      n := n + 1;
    }
    assert names[..|names|] == names;
  }

  // The room that a bucket gets is enough for it if and only if it is below 64 KB, up to a cache line.
  lemma RoomIs(names: seq<Name>, size: nat, i: nat)
    requires size > 0 && Bucket(names, size, i) != []
    ensures Room(Need(names, size, i) % SHORT) >= Need(names, size, i) <==> AlignLine(Need(names, size, i)) < SHORT
  {
    RoomOf(Size(Bucket(names, size, i)));
    NoNames(Bucket(names, size, i));
  }

  lemma RoomOf(x: nat)
    requires x > 0
    ensures Room((8 + x) % SHORT) >= 8 + x <==> AlignLine(8 + x) < SHORT
  {
    var need := 8 + x;
    if AlignLine(need) < SHORT {
      NoWrap(need);
      NoWrap(AlignLine(need));
    } else if need < SHORT {
      NoWrap(need);
      assert AlignLine(need) == SHORT;
    } else {
      assert Room(need % SHORT) < SHORT;
    }
  }

  lemma {:induction false} ShortNames(list: seq<Name>)
    requires forall j :: 0 <= j < |list| ==> |list[j].key| <= 6
    ensures Size(list) == 16 * |list|
  {
    if list != [] { ShortNames(list[..|list| - 1]); }
  }

  lemma {:induction false} OneBucket(names: seq<Name>, size: nat)
    requires size > 0 && forall n :: 0 <= n < |names| ==> Slot(names[n].hash, size) == 0
    ensures Bucket(names, size, 0) == names
  {
    if names != [] {
      OneBucket(names[..|names| - 1], size);
      assert names == names[..|names| - 1] + [names[|names| - 1]];
    }
  }

  // The condition matters: 4096 short names in one bucket need 64 KB and a pointer, and get no room at all.
  lemma FullBucket(names: seq<Name>, size: nat)
    requires size > 0 && |names| == 4096
    requires forall n :: 0 <= n < |names| ==> |names[n].key| <= 6 && Slot(names[n].hash, size) == 0
    ensures Need(names, size, 0) == SHORT + 8 && Room(Need(names, size, 0) % SHORT) == 0
  {
    OneBucket(names, size);
    ShortNames(names);
  }

  // Where the buckets start: one after the other, those without names without room
  ghost predicate Laid(names: seq<Name>, size: nat, base: seq<nat>, total: nat) {
    && size > 0 && |base| <= size
    && (forall i :: 0 <= i < |base| ==> base[i] % 8 == 0 && Before(names, size, base[i], i, total))
    && (forall i, j :: 0 <= i < j < |base| ==> Before(names, size, base[i], i, base[j]))
  }

  // A bucket at b ends before e.
  ghost predicate Before(names: seq<Name>, size: nat, b: nat, i: nat, e: nat)
    requires size > 0
  {
    b <= e && (Bucket(names, size, i) != [] ==> b + Need(names, size, i) <= e)
  }

  lemma Eight(x: nat)
    ensures 8 * x % 8 == 0
  {}

  lemma LineAligned(a: nat, b: nat)
    requires a % 8 == 0
    ensures (a + AlignLine(b)) % 8 == 0
  {
    var q, p := (b + 63) / 64, a / 8;
    assert a == 8 * p && AlignLine(b) == 64 * q;
    assert a + AlignLine(b) == 8 * (p + 8 * q);
    Eight(p + 8 * q);
  }

  lemma NoWrap(x: nat)
    requires x < SHORT
    ensures x % SHORT == x
  {}

  // One more bucket
  lemma LaidMore(names: seq<Name>, size: nat, base: seq<nat>, total: nat, total': nat)
    requires Laid(names, size, base, total) && |base| < size && total % 8 == 0 && total <= total'
    requires Bucket(names, size, |base|) != [] ==> total + Need(names, size, |base|) <= total'
    ensures Laid(names, size, base + [total], total')
  {
    var base' := base + [total];
    forall i | 0 <= i < |base'| ensures base'[i] % 8 == 0 && Before(names, size, base'[i], i, total') {
      if i < |base| { assert base'[i] == base[i] && Before(names, size, base[i], i, total); }
    }
    forall i, j | 0 <= i < j < |base'| ensures Before(names, size, base'[i], i, base'[j]) {
      assert base'[i] == base[i] && Before(names, size, base[i], i, total);
      if j < |base| { assert Before(names, size, base[i], i, base[j]); }
    }
  }

  lemma LayStep(names: seq<Name>, size: nat, base: seq<nat>, total: nat)
    requires Laid(names, size, base, total) && |base| < size && Fits(names, size) && total % 8 == 0
    ensures var room := Room(Need(names, size, |base|));
        Laid(names, size, base + [total], total + room) && (total + room) % 8 == 0
  {
    var need := Need(names, size, |base|);
    NoNames(Bucket(names, size, |base|));
    if need != 8 {
      NoWrap(AlignLine(need));
      LineAligned(total, need);
    }
    LaidMore(names, size, base, total, total + Room(need));
  }

  method Lay(ghost names: seq<Name>, size: nat, test: seq<nat>) returns (base: seq<nat>, total: nat)
    requires size > 0 && Fits(names, size) && |test| == size && forall i :: 0 <= i < size ==>
        test[i] == Need(names, size, i)
    ensures |base| == size && Laid(names, size, base, total)
  {
    base, total := [], 0;
    var i := 0;
    while i < size
      invariant 0 <= i <= size && |base| == i && total % 8 == 0 && Laid(names, size, base, total)
    {
      LayStep(names, size, base, total);
      base := base + [total];
      total := total + Room(test[i]);
      i := i + 1;
    }
  }

  lemma NoNames(list: seq<Name>)
    ensures Size(list) == 0 <==> list == []
  {}

  // Where the next element of a bucket goes, and that there is room for it
  lemma FillPlace(names: seq<Name>, size: nat, base: seq<nat>, total: nat, n: nat)
    requires Laid(names, size, base, total) && |base| == size && n < |names|
    ensures (var key := Slot(names[n].hash, size);
             && Bucket(names, size, key) != []
             && Size(Bucket(names[..n], size, key)) + EltSize(names[n]) <= Size(Bucket(names, size, key))
             && base[key] + Size(Bucket(names[..n], size, key)) + EltSize(names[n]) <= total)
  {
    var key := Slot(names[n].hash, size);
    SizeNext(names, size, n, key);
    BucketMono(names, size, n + 1, key);
    NoNames(Bucket(names, size, key));
    assert Before(names, size, base[key], key, total);
  }

  // Two buckets do not overlap.
  lemma Disjoint(names: seq<Name>, size: nat, base: seq<nat>, total: nat, i: nat, j: nat)
    requires Laid(names, size, base, total) && i < |base| && j < |base| && i != j && Bucket(names, size, i) != []
        && Bucket(names, size, j) != []
    ensures base[i] + Need(names, size, i) <= base[j] || base[j] + Need(names, size, j) <= base[i]
  {
    if i < j { assert Before(names, size, base[i], i, base[j]); }
        else { assert Before(names, size, base[j], j, base[i]); }
  }

  lemma {:induction false} SubBucket(names: seq<Name>, size: nat, n: nat, i: nat)
    requires size > 0 && n <= |names| && Bucket(names[..n], size, i) != []
    ensures Bucket(names, size, i) != []
  {
    NoNames(Bucket(names[..n], size, i));
    NoNames(Bucket(names, size, i));
    BucketMono(names, size, n, i);
  }

  // An element has been put at the address a, and nothing else has changed.
  ghost predicate Put(mem: Bytes, a: nat, n: Name, mem': Bytes) {
    a + EltSize(n) <= |mem| && At(mem', a, n) && Same(mem, mem', 0, a) && Same(mem, mem', a + EltSize(n), |mem|)
  }

  lemma WriteEltPut(mem: Bytes, a: nat, n: Name)
    requires a + EltSize(n) <= |mem|
    ensures Put(mem, a, n, WriteElt(mem, a, n))
  {
    WriteEltAt(mem, a, n);
    WriteEltSame(mem, a, n, 0, a);
    WriteEltSame(mem, a, n, a + EltSize(n), |mem|);
  }

  // Behind the elements of a bucket, and elsewhere
  lemma PutOwn(mem: Bytes, b: nat, list: seq<Name>, n: Name, mem': Bytes)
    requires Written(mem, b, list) && Put(mem, b + Size(list), n, mem')
    ensures Written(mem', b, list + [n])
  {
    SamePart(mem, mem', 0, b + Size(list), b, b + Size(list));
    WrittenSame(mem, mem', b, list);
    WrittenPush(mem', b, list, n);
  }

  lemma WrittenWithin(mem: Bytes, mem': Bytes, b: nat, list: seq<Name>, lo: nat, hi: nat)
    requires Written(mem, b, list) && Same(mem, mem', lo, hi) && lo <= b && b + Size(list) <= hi
    ensures Written(mem', b, list)
  {
    SamePart(mem, mem', lo, hi, b, b + Size(list));
    WrittenSame(mem, mem', b, list);
  }

  // The address for the element n
  function Spot(names: seq<Name>, size: nat, base: seq<nat>, n: nat): nat
    requires size > 0 && |base| == size && n < |names|
  {
    var key := Slot(names[n].hash, size);
    base[key] + Size(Bucket(names[..n], size, key))
  }

  // Another bucket is out of the way.
  lemma Clear(names: seq<Name>, size: nat, base: seq<nat>, total: nat, n: nat, i: nat)
    requires Laid(names, size, base, total) && |base| == size && n < |names| && i < size
        && i != Slot(names[n].hash, size)
    requires Bucket(names[..n], size, i) != []
    ensures (var a, e := Spot(names, size, base, n), base[i] + Size(Bucket(names[..n], size, i));
             e <= total && (e <= a || a + EltSize(names[n]) <= base[i]))
  {
    FillPlace(names, size, base, total, n);
    SubBucket(names, size, n, i);
    BucketMono(names, size, n, i);
    Disjoint(names, size, base, total, i, Slot(names[n].hash, size));
  }

  // The buckets that are not as they should be after n elements
  ghost function Unwritten(mem: Bytes, names: seq<Name>, size: nat, base: seq<nat>, n: nat): set<nat>
    requires size > 0 && |base| == size && n <= |names|
  {
    set i: nat | i < size && !Written(mem, base[i], Bucket(names[..n], size, i))
  }

  lemma FillStep(mem: Bytes, names: seq<Name>, size: nat, base: seq<nat>, total: nat, n: nat, i: nat, mem': Bytes)
    requires Laid(names, size, base, total) && |base| == size && n < |names| && |mem| == total && i < size
    requires Written(mem, base[i], Bucket(names[..n], size, i)) && Put(mem, Spot(names, size, base, n), names[n], mem')
    ensures Written(mem', base[i], Bucket(names[..n + 1], size, i))
  {
    var list := Bucket(names[..n], size, i);
    BucketNext(names, size, n, i);
    if i == Slot(names[n].hash, size) {
      PutOwn(mem, base[i], list, names[n], mem');
    } else {
      assert list + [] == list;
      if list != [] {
        Clear(names, size, base, total, n, i);
        var a := Spot(names, size, base, n);
        if base[i] + Size(list) <= a {
          WrittenWithin(mem, mem', base[i], list, 0, a);
        } else {
          WrittenWithin(mem, mem', base[i], list, a + EltSize(names[n]), total);
        }
      }
    }
  }

  lemma FillAll(mem: Bytes, names: seq<Name>, size: nat, base: seq<nat>, total: nat, n: nat, mem': Bytes)
    requires Laid(names, size, base, total) && |base| == size && n < |names| && |mem| == total
        && Unwritten(mem, names, size, base, n) == {}
    requires Put(mem, Spot(names, size, base, n), names[n], mem')
    ensures Unwritten(mem', names, size, base, n + 1) == {}
  {
    forall i: nat | i < size ensures Written(mem', base[i], Bucket(names[..n + 1], size, i)) {
      assert i !in Unwritten(mem, names, size, base, n);
      FillStep(mem, names, size, base, total, n, i, mem');
    }
  }

  method PutElt(mem: Bytes, a: nat, n: Name) returns (mem': Bytes)
    requires a + EltSize(n) <= |mem|
    ensures |mem'| == |mem| && Put(mem, a, n, mem')
  {
    mem' := Write(mem, a, PointerBytes(n.value));
    mem' := Write(mem', a + 8, LengthBytes(|n.key|));
    mem' := Write(mem', a + 10, Letters(n.key));
    WriteEltPut(mem, a, n);
  }

  function Sizes(names: seq<Name>, size: nat): (r: seq<nat>)
    requires size > 0
    ensures |r| == size
  {
    seq(size, i requires 0 <= i < size => Size(Bucket(names, size, i)))
  }

  lemma SizesNext(names: seq<Name>, size: nat, n: nat)
    requires size > 0 && n < |names|
    ensures (var key, old' := Slot(names[n].hash, size), Sizes(names[..n], size);
             Sizes(names[..n + 1], size) == old'[key := old'[key] + EltSize(names[n])])
  {
    var key, old' := Slot(names[n].hash, size), Sizes(names[..n], size);
    var new' := old'[key := old'[key] + EltSize(names[n])];
    forall i | 0 <= i < size ensures Sizes(names[..n + 1], size)[i] == new'[i] { SizeNext(names, size, n, i); }
  }

  method FillOne(mem: Bytes, names: seq<Name>, size: nat, ghost base: seq<nat>, ghost total: nat, n: nat, a: nat)
      returns (mem': Bytes)
    requires Laid(names, size, base, total) && |base| == size && n < |names| && |mem| == total
        && Unwritten(mem, names, size, base, n) == {}
    requires a == Spot(names, size, base, n)
    ensures |mem'| == total && Unwritten(mem', names, size, base, n + 1) == {}
  {
    FillPlace(names, size, base, total, n);
    mem' := PutElt(mem, a, names[n]);
    FillAll(mem, names, size, base, total, n, mem');
  }

  // The elements are written into the buckets of their hashes.
  method Fill(names: seq<Name>, size: nat, base: seq<nat>, total: nat) returns (mem: Bytes, test: seq<nat>)
    requires Laid(names, size, base, total) && |base| == size
    ensures |mem| == total && Unwritten(mem, names, size, base, |names|) == {} && test == Sizes(names, size)
  {
    mem := seq(total, i => Unset);
    test := seq(size, i => 0);
    assert test == Sizes(names[..0], size);
    var n := 0;
    while n < |names|
      invariant 0 <= n <= |names| && |mem| == total && Unwritten(mem, names, size, base, n) == {}
      invariant test == Sizes(names[..n], size)
    {
      var key := Slot(names[n].hash, size);
      SizesNext(names, size, n);
      mem := FillOne(mem, names, size, base, total, n, base[key] + test[key]);
      test := test[key := test[key] + EltSize(names[n])];
      n := n + 1;
    }
    assert names[..|names|] == names;
  }

  // ---------- the ends of the buckets ----------

  // A bucket is written, and complete if it is one of the first k.
  ghost predicate Finished(mem: Bytes, b: nat, list: seq<Name>, ended: bool) {
    Written(mem, b, list) && (ended && list != [] ==> EndAt(mem, b + Size(list)))
  }

  ghost function Unfinished(mem: Bytes, names: seq<Name>, size: nat, base: seq<nat>, k: nat): set<nat>
    requires size > 0 && |base| == size
  {
    set i: nat | i < size && !Finished(mem, base[i], Bucket(names, size, i), i < k)
  }

  // A NULL pointer has been put at the address a.
  ghost predicate Ended(mem: Bytes, a: nat, mem': Bytes) {
    a + 8 <= |mem| && EndAt(mem', a) && Same(mem, mem', 0, a) && Same(mem, mem', a + 8, |mem|)
  }

  method PutEnd(mem: Bytes, a: nat) returns (mem': Bytes)
    requires a + 8 <= |mem|
    ensures Ended(mem, a, mem')
  {
    mem' := Write(mem, a, PointerBytes(0));
    WriteHere(mem, a, PointerBytes(0));
    WriteElsewhere(mem, a, PointerBytes(0), 0, a);
    WriteElsewhere(mem, a, PointerBytes(0), a + 8, |mem|);
  }

  // A bucket that ends at this address, or is out of the way
  lemma EndApart(mem: Bytes, mem': Bytes, b: nat, list: seq<Name>, e: nat, a: nat)
    requires Written(mem, b, list) && Ended(mem, a, mem') && e == b + Size(list)
        && (e + 8 <= a || (a + 8 <= b && e <= |mem|) || e == a)
    ensures Written(mem', b, list) && (e == a ==> EndAt(mem', e)) && (e + 8 <= a && EndAt(mem, e) ==> EndAt(mem', e))
  {
    if e <= a {
      WrittenWithin(mem, mem', b, list, 0, a);
      if e + 8 <= a { SamePart(mem, mem', 0, a, e, e + 8); }
    } else {
      WrittenWithin(mem, mem', b, list, a + 8, |mem|);
    }
  }

  lemma EndStep(mem: Bytes, names: seq<Name>, size: nat, base: seq<nat>, total: nat, k: nat, i: nat, mem': Bytes)
    requires Laid(names, size, base, total) && |base| == size && |mem| == total && k < size && i < size
    requires Bucket(names, size, k) != [] && Bucket(names, size, i) != []
        && Ended(mem, base[k] + Size(Bucket(names, size, k)), mem')
    requires Written(mem, base[i], Bucket(names, size, i)) && (i < k
        ==> EndAt(mem, base[i] + Size(Bucket(names, size, i))))
    ensures Written(mem', base[i], Bucket(names, size, i)) && (i <= k
        ==> EndAt(mem', base[i] + Size(Bucket(names, size, i))))
  {
    var a, list := base[k] + Size(Bucket(names, size, k)), Bucket(names, size, i);
    var e := base[i] + Size(list);
    assert Before(names, size, base[i], i, total);
    if i < k {
      assert Before(names, size, base[i], i, base[k]);
    } else if k < i {
      assert Before(names, size, base[k], k, base[i]);
    }
    EndApart(mem, mem', base[i], list, e, a);
  }

  lemma EndOne(mem: Bytes, names: seq<Name>, size: nat, base: seq<nat>, total: nat, k: nat, i: nat, mem': Bytes)
    requires Laid(names, size, base, total) && |base| == size && |mem| == total && k < size && i < size
    requires Finished(mem, base[i], Bucket(names, size, i), i < k)
    requires if Bucket(names, size, k) != [] then Ended(mem, base[k] + Size(Bucket(names, size, k)), mem')
        else mem' == mem
    ensures Finished(mem', base[i], Bucket(names, size, i), i < k + 1)
  {
    if Bucket(names, size, k) != [] && Bucket(names, size, i) != []
        { EndStep(mem, names, size, base, total, k, i, mem'); }
  }

  lemma EndAll(mem: Bytes, names: seq<Name>, size: nat, base: seq<nat>, total: nat, k: nat, mem': Bytes)
    requires Laid(names, size, base, total) && |base| == size && |mem| == total && k < size
        && Unfinished(mem, names, size, base, k) == {}
    requires if Bucket(names, size, k) != [] then Ended(mem, base[k] + Size(Bucket(names, size, k)), mem')
        else mem' == mem
    ensures Unfinished(mem', names, size, base, k + 1) == {}
  {
    forall i: nat | i < size ensures Finished(mem', base[i], Bucket(names, size, i), i < k + 1) {
      assert i !in Unfinished(mem, names, size, base, k);
      EndOne(mem, names, size, base, total, k, i, mem');
    }
  }

  method Finish(names: seq<Name>, size: nat, base: seq<nat>, total: nat, mem0: Bytes, test: seq<nat>)
      returns (mem: Bytes)
    requires Laid(names, size, base, total) && |base| == size && |mem0| == total
    requires Unfinished(mem0, names, size, base, 0) == {} && test == Sizes(names, size)
    ensures Unfinished(mem, names, size, base, size) == {}
  {
    mem := mem0;
    var k := 0;
    while k < size
      invariant 0 <= k <= size && |mem| == total && Unfinished(mem, names, size, base, k) == {}
    {
      NoNames(Bucket(names, size, k));
      assert Before(names, size, base[k], k, total);
      var mem' := mem;
      if test[k] != 0 { mem' := PutEnd(mem, base[k] + test[k]); }
      EndAll(mem, names, size, base, total, k, mem');
      mem := mem';
      k := k + 1;
    }
  }

  // ---------- the table ----------

  // ngx_hash_t: the buckets are addresses of the first elements; the empty ones are NULL.
  datatype Table = Table(size: nat, used: seq<bool>, base: seq<nat>, mem: Bytes)

  ghost predicate TableOk(t: Table, names: seq<Name>) {
    && t.size > 0 && |t.used| == t.size && |t.base| == t.size
    && (forall i :: 0 <= i < t.size ==> (t.used[i] <==> Bucket(names, t.size, i) != []))
    && (forall i :: 0 <= i < t.size && t.used[i] ==> Damage(t.mem, t.base[i], Bucket(names, t.size, i)) == {})
  }

  // ngx_hash_find
  method Find(t: Table, ghost names: seq<Name>, hash: nat, name: string) returns (value: nat)
    requires TableOk(t, names)
    ensures value == Lookup(Bucket(names, t.size, Slot(hash, t.size)), name)
  {
    var i := Slot(hash, t.size);
    if !t.used[i] { return 0; }
    value := FindInBucket(t.mem, t.base[i], Bucket(names, t.size, i), name);
  }

  // ngx_hash_init once the number of buckets is chosen
  method Build(names: seq<Name>, size: nat) returns (t: Table)
    requires Fits(names, size) && forall n :: 0 <= n < |names| ==> names[n].value != 0
    ensures t.size == size && TableOk(t, names)
  {
    var test := Measure(names, size);
    FitsExact(names, size);
    var base, total := Lay(names, size, test);
    var mem;
    mem, test := Fill(names, size, base, total);
    Begin(mem, names, size, base);
    mem := Finish(names, size, base, total, mem, test);
    t := Table(size, seq(size, i requires 0 <= i < size => test[i] != 0), base, mem);
    Complete(t, names, total);
  }

  lemma FitsExact(names: seq<Name>, size: nat)
    requires Fits(names, size)
    ensures forall i :: 0 <= i < size ==> Need(names, size, i) % SHORT == Need(names, size, i)
  {
    forall i | 0 <= i < size ensures Need(names, size, i) % SHORT == Need(names, size, i) {
      assert AlignLine(Need(names, size, i)) < SHORT;
      NoWrap(Need(names, size, i));
    }
  }

  lemma Begin(mem: Bytes, names: seq<Name>, size: nat, base: seq<nat>)
    requires size > 0 && |base| == size && Unwritten(mem, names, size, base, |names|) == {}
    ensures Unfinished(mem, names, size, base, 0) == {}
  {
    assert names[..|names|] == names;
    forall i: nat | i < size ensures Written(mem, base[i], Bucket(names, size, i)) {
      assert i !in Unwritten(mem, names, size, base, |names|);
    }
  }

  lemma CompleteOne(mem: Bytes, names: seq<Name>, size: nat, b: nat, i: nat)
    requires size > 0 && b % 8 == 0 && Finished(mem, b, Bucket(names, size, i), true) && Bucket(names, size, i) != []
    requires forall n :: 0 <= n < |names| ==> names[n].value != 0
    ensures Damage(mem, b, Bucket(names, size, i)) == {}
  {
    BucketValues(names, size, i);
    NoDamage(mem, b, Bucket(names, size, i));
  }

  lemma Complete(t: Table, names: seq<Name>, total: nat)
    requires t.size > 0 && |t.base| == t.size && |t.used| == t.size && Laid(names, t.size, t.base, total)
    requires Unfinished(t.mem, names, t.size, t.base, t.size) == {} && forall n :: 0 <= n < |names| ==>
        names[n].value != 0
    requires forall i :: 0 <= i < t.size ==> t.used[i] == (Size(Bucket(names, t.size, i)) != 0)
    ensures TableOk(t, names)
  {
    forall i: nat | i < t.size
      ensures t.used[i] <==> Bucket(names, t.size, i) != []
      ensures t.used[i] ==> Damage(t.mem, t.base[i], Bucket(names, t.size, i)) == {}
    {
      NoNames(Bucket(names, t.size, i));
      assert i !in Unfinished(t.mem, names, t.size, t.base, t.size);
      if t.used[i] { CompleteOne(t.mem, names, t.size, t.base[i], i); }
    }
  }

  lemma {:induction false} BucketValues(names: seq<Name>, size: nat, i: nat)
    requires size > 0 && forall n :: 0 <= n < |names| ==> names[n].value != 0
    ensures forall j :: 0 <= j < |Bucket(names, size, i)| ==> Bucket(names, size, i)[j].value != 0
  {
    if names != [] { BucketValues(names[..|names| - 1], size, i); }
  }

  // ---------- the number of buckets ----------

  // All buckets fit into the room.
  ghost predicate Suitable(names: seq<Name>, size: nat, room: nat) {
    size > 0 && forall i :: 0 <= i < size ==> Size(Bucket(names, size, i)) <= room
  }

  // The sums of sizes do not wrap around before they are compared with the room.
  ghost predicate NoOverflow(names: seq<Name>, room: nat) {
    room < SHORT && forall n :: 0 <= n < |names| ==> room + EltSize(names[n]) < SHORT
  }

  lemma SuitsStep(names: seq<Name>, size: nat, n: nat, key: nat, e: nat)
    requires size > 0 && n < |names| && key == Slot(names[n].hash, size) && e == EltSize(names[n])
    ensures Size(Bucket(names[..n], size, key)) + e == Size(Bucket(names[..n + 1], size, key)) <= Size(Bucket(names,
        size, key))
  {
    SizeNext(names, size, n, key);
    BucketMono(names, size, n + 1, key);
  }

  lemma SizesAt(names: seq<Name>, size: nat, n: nat, i: nat)
    requires i < size && n <= |names|
    ensures Sizes(names[..n], size)[i] == Size(Bucket(names[..n], size, i))
  {}

  // One element more: false when its bucket does not fit
  method AddSize(test: seq<nat>, key: nat, e: nat, room: nat) returns (ok: bool, test': seq<nat>)
    requires key < |test|
    ensures test' == test[key := (test[key] + e) % SHORT] && (ok <==> test'[key] <= room % SHORT)
  {
    test' := test[key := (test[key] + e) % SHORT];
    ok := test'[key] <= room % SHORT;
  }

  // The buckets that do not fit, with the first n names
  ghost function Over(names: seq<Name>, size: nat, n: nat, room: nat): set<nat>
    requires size > 0 && n <= |names|
  {
    set i: nat | i < size && Size(Bucket(names[..n], size, i)) > room
  }

  lemma OverStep(names: seq<Name>, size: nat, n: nat, room: nat, key: nat)
    requires size > 0 && n < |names| && Over(names, size, n, room) == {} && key == Slot(names[n].hash, size)
    ensures Size(Bucket(names[..n + 1], size, key)) <= room ==> Over(names, size, n + 1, room) == {}
  {
    var more := names[..n + 1];
    forall i: nat | i < size && i != key ensures Size(Bucket(more, size, i)) <= room {
      assert i !in Over(names, size, n, room);
      SizeNext(names, size, n, i);
    }
  }

  lemma OverIs(names: seq<Name>, size: nat, room: nat)
    requires size > 0
    ensures Over(names, size, 0, room) == {}
    ensures Over(names, size, |names|, room) == {} ==> Suitable(names, size, room)
  {
    assert names[..0] == [] && names[..|names|] == names;
    if Over(names, size, |names|, room) == {} {
      forall i: nat | i < size ensures Size(Bucket(names, size, i)) <= room
          { assert i !in Over(names, size, |names|, room); }
    }
  }

  // One element more: the size of its bucket, and whether it fits, as far as the sums are exact
  method CountOne(names: seq<Name>, size: nat, n: nat, test: seq<nat>, room: nat, ghost exact: bool)
      returns (ok: bool, test': seq<nat>)
    requires size > 0 && n < |names| && |test| == size
    requires exact ==>
        test == Sizes(names[..n], size) && Over(names, size, n, room) == {} && room + EltSize(names[n]) < SHORT
    ensures |test'| == size && (exact ==> test' == Sizes(names[..n + 1], size))
    ensures exact ==> if ok then Over(names, size, n + 1, room) == {} else !Suitable(names, size, room)
  {
    var key, e := Slot(names[n].hash, size), EltSize(names[n]);
    ok, test' := AddSize(test, key, e, room);
    if exact {
      assert key !in Over(names, size, n, room);
      SizesAt(names, size, n, key);
      NoWrap(test[key] + e);
      NoWrap(room);
      SizesNext(names, size, n);
      SuitsStep(names, size, n, key, e);
      OverStep(names, size, n, room, key);
    }
  }

  // Whether all buckets fit; the test stops at the first that does not.
  method Suits(names: seq<Name>, size: nat, room: nat) returns (yes: bool)
    requires size > 0
    ensures NoOverflow(names, room) ==> (yes <==> Suitable(names, size, room))
  {
    var test := seq(size, i => 0);
    assert names[..0] == [];
    assert test == Sizes(names[..0], size);
    OverIs(names, size, room);
    ghost var exact := NoOverflow(names, room);
    var n, ok := 0, true;
    while n < |names|
      invariant 0 <= n <= |names| && |test| == size
      invariant exact ==> test == Sizes(names[..n], size) && Over(names, size, n, room) == {}
    {
      ok, test := CountOne(names, size, n, test, room, exact);
      if !ok { return false; }
      n := n + 1;
    }
    return true;
  }

  // The first number of buckets to try
  function First(nelts: nat, maxSize: nat, room: nat): (start: nat)
    requires room >= 16
    ensures start >= 1
  {
    if maxSize > 10000 && nelts > 0 && maxSize / nelts < 100 then maxSize - 1000
    else if nelts / (room / 16) == 0 then 1 else nelts / (room / 16)
  }

  // The names in the first m buckets
  ghost function Held(names: seq<Name>, size: nat, m: nat): nat
    requires size > 0
  {
    if m == 0 then 0 else Held(names, size, m - 1) + |Bucket(names, size, m - 1)|
  }

  lemma {:induction false} HeldNext(names: seq<Name>, size: nat, m: nat)
    requires size > 0 && names != []
    ensures var front, last := names[..|names| - 1], names[|names| - 1];
        Held(names, size, m) == Held(front, size, m) + if Slot(last.hash, size) < m then 1 else 0
  {
    if m > 0 { HeldNext(names, size, m - 1); }
  }

  lemma {:induction false} HeldAll(names: seq<Name>, size: nat, m: nat)
    requires size > 0 && m <= size
    ensures m == size ==> Held(names, size, m) == |names|
    ensures names == [] ==> Held(names, size, m) == 0
    decreases |names|, m
  {
    if names != [] {
      HeldNext(names, size, size);
      HeldAll(names[..|names| - 1], size, size);
    } else if m > 0 {
      HeldAll(names, size, m - 1);
    }
  }

  lemma {:induction false} HeldLess(names: seq<Name>, size: nat, m: nat, each: nat)
    requires size > 0 && forall i :: 0 <= i < m ==> |Bucket(names, size, i)| <= each
    ensures Held(names, size, m) <= each * m
  {
    if m > 0 { HeldLess(names, size, m - 1, each); }
  }

  // An element has at least two pointers.
  lemma {:induction false} Many(list: seq<Name>)
    ensures Size(list) >= 16 * |list|
  {
    if list != [] {
      Many(list[..|list| - 1]);
      assert EltSize(list[|list| - 1]) % 8 == 0;
    }
  }

  // The numbers of buckets that are not tried do not suit: some bucket would have too many names.
  lemma NoneBefore(names: seq<Name>, maxSize: nat, room: nat, size: nat)
    requires room >= 16 && 1 <= size < First(|names|, maxSize, room)
    requires maxSize <= 10000 || maxSize >= 100 * |names|
    ensures !Suitable(names, size, room)
  {
    if Suitable(names, size, room) {
      var each := room / 16;
      forall i | 0 <= i < size ensures |Bucket(names, size, i)| <= each {
        Many(Bucket(names, size, i));
        assert Size(Bucket(names, size, i)) <= room;
      }
      HeldLess(names, size, size, each);
      HeldAll(names, size, size);
      Quotient(|names|, each, size);
      if maxSize >= 100 * |names| && |names| > 0 { Hundred(maxSize, |names|); }
    }
  }

  lemma Quotient(n: nat, each: nat, size: nat)
    requires each > 0 && n <= each * size
    ensures n / each <= size
  {}

  lemma Hundred(maxSize: nat, n: nat)
    requires maxSize >= 100 * n && n > 0
    ensures maxSize / n >= 100
  {}

  method Start(nelts: nat, maxSize: nat, room: nat) returns (start: nat)
    requires room >= 16
    ensures start == First(nelts, maxSize, room)
  {
    var each := room / 16;
    start := nelts / each;
    if start == 0 { start := 1; }
    if maxSize > 10000 && nelts > 0 && maxSize / nelts < 100 { start := maxSize - 1000; }
  }

  // The number of buckets: the least one that is tried and that suits, and the largest one if there is none
  ghost predicate Chosen(names: seq<Name>, maxSize: nat, room: nat, size: nat)
    requires room >= 16
  {
    var start := First(|names|, maxSize, room);
    || (start <= size <= maxSize && Suitable(names, size, room) && forall k :: start <= k < size ==>
        !Suitable(names, k, room))
    || (size == maxSize && forall k :: start <= k <= maxSize ==> !Suitable(names, k, room))
  }

  // Some number of buckets suits.
  ghost predicate Optimal(names: seq<Name>, maxSize: nat, room: nat)
    requires room >= 16
  {
    exists k :: First(|names|, maxSize, room) <= k <= maxSize && Suitable(names, k, room)
  }

  lemma SuitableFits(names: seq<Name>, size: nat, bucketSize: nat)
    requires bucketSize >= 8 && Suitable(names, size, bucketSize - 8) && AlignLine(bucketSize) < SHORT
    ensures Fits(names, size) && forall i :: 0 <= i < size ==> Need(names, size, i) <= bucketSize
  {
    forall i | 0 <= i < size ensures AlignLine(Need(names, size, i)) < SHORT && Need(names, size, i) <= bucketSize {
      assert Size(Bucket(names, size, i)) <= bucketSize - 8;
    }
  }

  // The loop over the numbers of buckets
  method Choose(names: seq<Name>, maxSize: nat, room: nat) returns (size: nat)
    requires maxSize > 0 && room >= 16
    ensures 1 <= size <= maxSize && (NoOverflow(names, room) ==> Chosen(names, maxSize, room, size))
  {
    size := Start(|names|, maxSize, room);
    ghost var start, exact := size, NoOverflow(names, room);
    while size <= maxSize
      invariant start <= size && (exact ==> forall k :: start <= k < size ==> !Suitable(names, k, room))
    {
      var suits := Suits(names, size, room);
      if suits { return; }
      size := size + 1;
    }
    return maxSize;
  }

  // The names fit into a bucket each.
  ghost predicate EachFits(names: seq<Name>, bucketSize: nat) {
    forall n :: 0 <= n < |names| ==> EltSize(names[n]) + 8 <= bucketSize
  }

  // What u_short has to hold: bucket_size and an element more, and, when no number of buckets suits, the buckets
  ghost predicate WithinShort(names: seq<Name>, maxSize: nat, bucketSize: nat)
    requires bucketSize >= 24
  {
    && AlignLine(bucketSize) < SHORT && NoOverflow(names, bucketSize - 8)
    && (!Optimal(names, maxSize, bucketSize - 8) ==> Fits(names, maxSize))
  }

  // Overrun stands for elements that are written behind the room of their bucket.
  datatype Outcome = Failed | Built | Overrun

  // ngx_hash_init.  It fails if and only if some name does not fit into a bucket, and runs over if and only if a
  // bucket, with the number of buckets that is chosen, needs 64 KB or more.  What u_short has to hold is enough to
  // exclude that; then every bucket is within bucket_size whenever that is possible with a number of buckets that is
  // tried.
  method Init(names: seq<Name>, maxSize: nat, bucketSize: nat) returns (r: Outcome, t: Table)
    requires maxSize > 0 && bucketSize >= 24 && forall n :: 0 <= n < |names| ==> names[n].value != 0
    ensures r == Failed <==> !EachFits(names, bucketSize)
    ensures r == Built ==> TableOk(t, names)
    ensures r != Failed ==> 1 <= t.size <= maxSize && (r == Built <==> Fits(names, t.size))
    ensures r != Failed && WithinShort(names, maxSize, bucketSize) ==>
        r == Built && Chosen(names, maxSize, bucketSize - 8, t.size)
    ensures (r != Failed && WithinShort(names, maxSize, bucketSize) && Optimal(names, maxSize, bucketSize - 8) ==>
             forall i :: 0 <= i < t.size ==> Need(names, t.size, i) <= bucketSize)
  {
    t := Table(1, [false], [0], []);
    var n := 0;
    while n < |names|
      invariant 0 <= n <= |names| && forall j :: 0 <= j < n ==> EltSize(names[j]) + 8 <= bucketSize
    {
      if bucketSize < EltSize(names[n]) + 8 { return Failed, t; }
      n := n + 1;
    }
    var room := bucketSize - 8;
    var size := Choose(names, maxSize, room);
    if WithinShort(names, maxSize, bucketSize) && Suitable(names, size, room) { SuitableFits(names, size, bucketSize); }
    if !Fits(names, size) { return Overrun, Table(size, [], [], []); }
    t := Build(names, size);
    return Built, t;
  }

  // ---------- the theorem ----------

  lemma {:induction false} LookupIn(list: seq<Name>, n: Name)
    requires n in list && forall i, j :: 0 <= i < j < |list| ==> list[i].key != list[j].key
    ensures Lookup(list, n.key) == n.value
  {
    if list[0] != n {
      assert n in list[1..];
      var j :| 0 <= j < |list[1..]| && list[1..][j] == n;
      assert list[0].key != list[j + 1].key;
      LookupIn(list[1..], n);
    }
  }

  lemma {:induction false} LookupOut(list: seq<Name>, name: string)
    requires forall i :: 0 <= i < |list| ==> list[i].key != name
    ensures Lookup(list, name) == 0
  {
    if list != [] { LookupOut(list[1..], name); }
  }

  lemma {:induction false} BucketOf(names: seq<Name>, size: nat, i: nat, n: Name)
    requires size > 0
    ensures n in Bucket(names, size, i) <==> n in names && Slot(n.hash, size) == i
  {
    if names != [] {
      var front, last := names[..|names| - 1], names[|names| - 1];
      BucketOf(front, size, i, n);
      assert names == front + [last];
    }
  }

  lemma {:induction false} BucketDistinct(names: seq<Name>, size: nat, i: nat)
    requires size > 0 && forall a, b :: 0 <= a < b < |names| ==> names[a].key != names[b].key
    ensures forall a, b :: 0 <= a < b < |Bucket(names, size, i)| ==>
        Bucket(names, size, i)[a].key != Bucket(names, size, i)[b].key
  {
    if names != [] {
      var front, last := names[..|names| - 1], names[|names| - 1];
      BucketDistinct(front, size, i);
      forall a | 0 <= a < |Bucket(front, size, i)| ensures Bucket(front, size, i)[a].key != last.key {
        BucketOf(front, size, i, Bucket(front, size, i)[a]);
      }
    }
  }

  // Each name has its value, and other names have none.  The hash is a function of the name.
  lemma HashIsMap(names: seq<Name>, size: nat, hash: string -> nat, name: string)
    requires size > 0 && (forall a, b :: 0 <= a < b < |names| ==> names[a].key != names[b].key)
    requires forall n :: 0 <= n < |names| ==> names[n].hash == hash(names[n].key)
    ensures (var v := Lookup(Bucket(names, size, Slot(hash(name), size)), name);
             && (forall n :: 0 <= n < |names| && names[n].key == name ==> v == names[n].value)
             && ((forall n :: 0 <= n < |names| ==> names[n].key != name) ==> v == 0))
  {
    var i := Slot(hash(name), size);
    var list := Bucket(names, size, i);
    BucketDistinct(names, size, i);
    forall n | 0 <= n < |names| && names[n].key == name ensures Lookup(list, name) == names[n].value {
      BucketOf(names, size, i, names[n]);
      LookupIn(list, names[n]);
    }
    if forall n :: 0 <= n < |names| ==> names[n].key != name {
      forall j | 0 <= j < |list| ensures list[j].key != name { BucketOf(names, size, i, list[j]); }
      LookupOut(list, name);
    }
  }
}
