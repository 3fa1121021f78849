/** The wildcard tries of ngx_hash.c: ngx_hash_wildcard_init builds one from a sorted list of names, and
    ngx_hash_find_wc_head and ngx_hash_find_wc_tail look a host name up in it. */
module Wildcard {
  datatype Option<T> = None | Some(value: T)

  // ngx_hash_key_t: "com.example." stands for *.example.com, "com.example" for .example.com in a head
  // trie; "www.example" stands for www.example.* in a tail trie.
  datatype Name = Name(key: string, value: nat)

  // ngx_hash_wildcard_t.  The two low bits of a pointer tell data from a further trie, and whether the
  // name itself is left out.
  datatype Node = Node(entries: seq<Entry>, value: Option<nat>)
  datatype Entry = Entry(name: string, slot: Slot)
  datatype Slot = Data(value: nat, only: bool) | Sub(node: Node, only: bool)

  // ---------- names and labels ----------

  // The length of the first label
  function Dot(k: string): (n: nat)
    ensures n <= |k| && '.' !in k[..n] && (n < |k| ==> k[n] == '.')
  {
    if k == "" || k[0] == '.' then 0
    else
      assert k[..1 + Dot(k[1..])] == [k[0]] + k[1..][..Dot(k[1..])];
      1 + Dot(k[1..])
  }

  function Label(k: string): string {
    k[..Dot(k)]
  }

  function Tail(k: string): string
    requires Dot(k) < |k|
  {
    k[Dot(k) + 1..]
  }

  // The labels of a key; a dot at the end is not followed by another label
  function Labels(k: string): (r: seq<string>)
    ensures r != []
    decreases |k|
  {
    if Dot(k) == |k| then [k] else if Tail(k) == "" then [Label(k)] else [Label(k)] + Labels(Tail(k))
  }

  // The name itself is left out.
  predicate Only(k: string) {
    k != "" && k[|k| - 1] == '.'
  }

  // A head key takes the names below its own and, without the dot at the end, its own; rl are the
  // labels of the host name from the last one to the first.
  predicate HeadMatch(k: string, rl: seq<string>) {
    Labels(k) <= rl && (Only(k) ==> |Labels(k)| < |rl|)
  }

  // A tail key takes the names that go on after its labels.
  predicate TailMatch(k: string, nl: seq<string>) {
    Labels(k) <= nl && |Labels(k)| < |nl|
  }

  // ---------- the order of the names ----------

  // ngx_dns_strcmp: the dot is the lowest character.
  function Rank(c: char): int {
    if c == '.' then 0 else c as int + 1
  }

  predicate Less(a: string, b: string) {
    b != "" && (a == "" || Rank(a[0]) < Rank(b[0]) || (a[0] == b[0] && Less(a[1..], b[1..])))
  }

  // Names come in order, and ngx_hash_add_key refuses "example.com" both as *.example.com and as
  // .example.com.
  ghost predicate Good(names: seq<Name>) {
    && (forall i, j :: 0 <= i < j < |names| ==> Less(names[i].key, names[j].key))
    && (forall i, j :: 0 <= i < |names| && 0 <= j < |names| ==> names[j].key != names[i].key + ".")
  }

  lemma {:induction false} LessTrans(a: string, b: string, c: string)
    requires Less(a, b) && Less(b, c)
    ensures Less(a, c)
  {
    if a != "" && a[0] == b[0] && b[0] == c[0] && Less(a[1..], b[1..])
        && Less(b[1..], c[1..]) { LessTrans(a[1..], b[1..], c[1..]); }
  }

  lemma {:induction false} LessStrict(a: string)
    ensures !Less(a, a)
  {
    if a != "" { LessStrict(a[1..]); }
  }

  // Names with the same first label are next to each other.
  lemma {:induction false} Between(a: string, b: string, c: string)
    requires Less(a, b) && Less(b, c) && Label(a) == Label(c)
    ensures Label(b) == Label(a)
  {
    if a != "" && a[0] != '.' {
      assert Label(a) == [a[0]] + Label(a[1..]);
      assert c != "" && c[0] != '.' && Label(c) == [c[0]] + Label(c[1..]);
      assert Label(a)[0] == a[0] && Label(c)[0] == c[0];
      assert Label(a[1..]) == Label(a)[1..] && Label(c[1..]) == Label(c)[1..];
      assert a[0] == b[0] == c[0];
      assert Less(a[1..], b[1..]) && Less(b[1..], c[1..]);
      Between(a[1..], b[1..], c[1..]);
      assert Label(b) == [b[0]] + Label(b[1..]);
    } else {
      assert Label(a) == "";
      assert c == "" || c[0] == '.';
    }
  }

  // Among them, the bare label comes first.
  lemma {:induction false} BareFirst(a: string, b: string)
    requires Less(a, b) && Label(a) == Label(b)
    ensures Dot(b) < |b|
  {
    if a != "" && a[0] != '.' {
      assert Label(a) == [a[0]] + Label(a[1..]);
      assert b != "" && b[0] != '.' && Label(b) == [b[0]] + Label(b[1..]);
      assert Label(a)[0] == a[0] && Label(b)[0] == b[0];
      assert Label(a[1..]) == Label(a)[1..] && Label(b[1..]) == Label(b)[1..];
      LessStrictOn(a, b);
      BareFirst(a[1..], b[1..]);
    } else {
      assert Label(a) == "";
    }
  }

  lemma LessStrictOn(a: string, b: string)
    requires Less(a, b) && a != "" && b != "" && a[0] == b[0]
    ensures Less(a[1..], b[1..])
  {}

  lemma {:induction false} LessTail(p: string, a: string, b: string)
    ensures Less(p + a, p + b) <==> Less(a, b)
  {
    if p == "" {
      assert p + a == a && p + b == b;
    } else {
      assert (p + a)[1..] == p[1..] + a && (p + b)[1..] == p[1..] + b;
      LessTail(p[1..], a, b);
    }
  }

  // ---------- building ----------

  // The length of the first label of a name with the dot after it, if there is one
  function Head(k: string): nat {
    if Dot(k) < |k| then Dot(k) + 1 else Dot(k)
  }

  // A later name belongs to the group of the first one: ngx_strncmp over the label and its dot, and a
  // dot must follow if the first name is a bare label.
  predicate Joins(first: string, k: string) {
    && Head(first) <= |k| && k[..Head(first)] == first[..Head(first)]
    && (Dot(first) == |first| && |k| > Head(first) ==> k[Head(first)] == '.')
  }

  function Span(first: string, names: seq<Name>): (n: nat)
    ensures n <= |names| && (forall i :: 0 <= i < n ==> Joins(first, names[i].key))
        && (n < |names| ==> !Joins(first, names[n].key))
  {
    if names == [] || !Joins(first, names[0].key) then 0 else 1 + Span(first, names[1..])
  }

  ghost function Weight(names: seq<Name>): nat {
    if names == [] then 0 else |names[0].key| + Weight(names[1..])
  }

  // The names of a group that go on after the first label, without it
  predicate Groups(group: seq<Name>) {
    && group != []
    && forall i :: 1 <= i < |group| ==> Dot(group[0].key) + 1 <= |group[i].key| && Joins(group[0].key, group[i].key)
  }

  // Whether the first name of the group is left behind, because it ends with the first label
  function Behind(group: seq<Name>): (o: nat)
    requires group != []
    ensures o <= 1
  {
    if |group[0].key| == Head(group[0].key) then 1 else 0
  }

  function Next(group: seq<Name>): seq<Name>
    requires Groups(group)
  {
    var d, o := Dot(group[0].key) + 1, Behind(group);
    seq(|group| - o, i requires 0 <= i < |group| - o => Name(group[i + o].key[d..], group[i + o].value))
  }

  lemma {:induction false} Shorter(a: seq<Name>, b: seq<Name>)
    requires |a| == |b| && forall i :: 0 <= i < |a| ==> |a[i].key| < |b[i].key|
    ensures Weight(a) + |a| <= Weight(b)
  {
    if a != [] { Shorter(a[1..], b[1..]); }
  }

  lemma {:induction false} WeightConcat(a: seq<Name>, b: seq<Name>)
    ensures Weight(a + b) == Weight(a) + Weight(b)
  {
    if a == [] {
      assert a + b == b;
    } else {
      assert (a + b)[1..] == a[1..] + b;
      WeightConcat(a[1..], b);
    }
  }

  lemma NextWeight(group: seq<Name>)
    requires Groups(group) && Next(group) != []
    ensures Weight(Next(group)) < Weight(group)
  {
    var o := Behind(group);
    Shorter(Next(group), group[o..]);
  }

  // The members of a group have the first label in common.
  lemma JoinsDot(first: string, k: string)
    requires Less(first, k) && Joins(first, k)
    ensures Dot(first) < |k| && Dot(k) == Dot(first) && Label(k) == Label(first)
  {
    var d := Dot(first);
    LessStrict(first);
    assert k[..d] == first[..d] by { assert first[..Head(first)][..d] == first[..d]
        && k[..Head(first)][..d] == k[..d]; }
    if d < |first| {
      assert k[..d + 1][d] == first[..d + 1][d];
    } else {
      assert |k| == d ==> k == first;
    }
    DotIs(k, d);
  }

  lemma LabelJoins(first: string, k: string)
    requires Less(first, k) && Label(k) == Label(first)
    ensures Joins(first, k)
  {
    BareFirst(first, k);
    var d := Dot(first);
    assert |Label(k)| == Dot(k) && |Label(first)| == d;
    assert k[..d + 1] == k[..d] + [k[d]];
    assert d < |first| ==> first[..d + 1] == first[..d] + [first[d]];
  }

  lemma JoinsLabel(first: string, k: string)
    requires Less(first, k)
    ensures Joins(first, k) <==> Label(k) == Label(first)
    ensures Joins(first, k) ==> Dot(first) < |k| && Dot(k) == Dot(first) && k[..Dot(first) + 1] == Label(first) + "."
  {
    if Joins(first, k) {
      JoinsDot(first, k);
      assert k[..Dot(k) + 1] == k[..Dot(k)] + [k[Dot(k)]];
    } else if Label(k) == Label(first) {
      LabelJoins(first, k);
    }
  }

  lemma {:induction false} DotIs(k: string, d: nat)
    requires d < |k| && '.' !in k[..d] && k[d] == '.'
    ensures Dot(k) == d
  {
    if d > 0 {
      assert k[0] in k[..d];
      assert k[1..][..d - 1] == k[..d][1..];
      DotIs(k[1..], d - 1);
    }
  }

  // The first group of the names
  function First(names: seq<Name>): (g: nat)
    requires names != []
    ensures 1 <= g <= |names|
  {
    1 + Span(names[0].key, names[1..])
  }

  lemma FirstGroups(names: seq<Name>)
    requires Good(names) && names != []
    ensures Groups(names[..First(names)])
    ensures forall i :: 0 <= i < |names| ==> (Label(names[i].key) == Label(names[0].key) <==> i < First(names))
  {
    var k, g := names[0].key, First(names);
    forall i | 1 <= i < |names|
      ensures i < g ==> Dot(k) + 1 <= |names[i].key| && Joins(k, names[i].key)
      ensures Label(names[i].key) == Label(k) <==> i < g
    {
      JoinsLabel(k, names[i].key);
      if i < g {
        assert names[1..][i - 1] == names[i];
      } else {
        assert names[1..][g - 1] == names[g];
        JoinsLabel(k, names[g].key);
        if g < i && Label(names[i].key) == Label(k) { Between(k, names[g].key, names[i].key); }
      }
    }
  }

  lemma Rejoin(first: string, m: string)
    requires (m == first && Dot(m) < |m|) || (Less(first, m) && Joins(first, m))
    ensures Dot(first) < |m| && m == Label(first) + "." + m[Dot(first) + 1..]
  {
    if m != first { JoinsDot(first, m); }
    AtDot(m);
  }

  lemma AtDot(m: string)
    requires Dot(m) < |m|
    ensures m == Label(m) + "." + m[Dot(m) + 1..]
  {
    CutAt(m, Dot(m));
  }

  lemma CutAt(m: string, d: nat)
    requires d < |m| && m[d] == '.'
    ensures m == m[..d] + "." + m[d + 1..]
  {}

  // Where the names of a group go on
  predicate Continues(group: seq<Name>, next: seq<Name>, o: nat) {
    && o <= 1 && |next| == |group| - o && group != [] && (o == 1 <==> |group[0].key| == Head(group[0].key))
    && forall i :: 0 <= i < |next| ==>
        group[i + o].key == Label(group[0].key) + "." + next[i].key && next[i].value == group[i + o].value
  }

  lemma NextIs(group: seq<Name>)
    requires Groups(group) && Good(group)
    ensures Continues(group, Next(group), Behind(group))
  {
    var o := Behind(group);
    forall i | 0 <= i < |Next(group)|
      ensures group[i + o].key == Label(group[0].key) + "." + Next(group)[i].key
          && Next(group)[i].value == group[i + o].value
    {
      NextOne(group, i);
    }
  }

  lemma NextOne(group: seq<Name>, i: nat)
    requires Groups(group) && Good(group) && i < |Next(group)|
    ensures (var n := group[i + Behind(group)];
             n.key == Label(group[0].key) + "." + Next(group)[i].key && Next(group)[i].value == n.value)
  {
    var n := group[i + Behind(group)];
    Rejoin(group[0].key, n.key);
    assert Next(group)[i] == Name(n.key[Dot(group[0].key) + 1..], n.value);
  }

  lemma NextGood(group: seq<Name>, next: seq<Name>, o: nat)
    requires Good(group) && Continues(group, next, o)
    ensures Good(next) && forall i :: 0 <= i < |next| ==> next[i].key != ""
  {
    var p := Label(group[0].key) + ".";
    forall i, j | 0 <= i < j < |next|
      ensures Less(next[i].key, next[j].key)
    {
      assert Less(group[i + o].key, group[j + o].key);
      LessTail(p, next[i].key, next[j].key);
    }
    forall i, j | 0 <= i < |next| && 0 <= j < |next|
      ensures next[j].key != next[i].key + "."
    {
      assert group[j + o].key != group[i + o].key + ".";
      assert p + (next[i].key + ".") == (p + next[i].key) + ".";
    }
    forall i | 0 <= i < |next|
      ensures next[i].key != ""
    {
      NextNonempty(group, next, o, i);
    }
  }

  // "label." is not behind "label", and if it is the first of its group, it stays behind.
  lemma NextNonempty(group: seq<Name>, next: seq<Name>, o: nat, i: nat)
    requires Good(group) && Continues(group, next, o) && i < |next|
    ensures next[i].key != ""
  {
    var k, key := group[0].key, group[i + o].key;
    var l := Label(k);
    assert next[i].key == "" ==> key == l + ".";
    if Dot(k) < |k| {
      assert k == l + "." + Tail(k);
      LessTail(l + ".", Tail(k), "");
      assert l + "." + "" == l + ".";
      assert i + o > 0 ==> Less(k, key);
    } else {
      assert k == l;
      assert key != k + ".";
    }
  }

  lemma GoodSub(names: seq<Name>, lo: nat, hi: nat)
    requires Good(names) && lo <= hi <= |names|
    ensures Good(names[lo..hi])
  {
    var s := names[lo..hi];
    assert forall i :: 0 <= i < |s| ==> s[i] == names[lo + i];
  }

  lemma WeightSub(names: seq<Name>, g: nat)
    requires g <= |names|
    ensures Weight(names) == Weight(names[..g]) + Weight(names[g..])
  {
    assert names == names[..g] + names[g..];
    WeightConcat(names[..g], names[g..]);
  }

  lemma BuildOk(names: seq<Name>)
    requires Good(names) && names != []
    ensures var g := First(names);
            && Good(names[..g]) && Good(names[g..]) && Groups(names[..g]) && Good(Next(names[..g]))
            && Weight(names[g..]) <= Weight(names) && Weight(names[..g]) <= Weight(names)
                && (Next(names[..g]) != [] ==> Weight(Next(names[..g])) < Weight(names))
  {
    var g := First(names);
    FirstGroups(names);
    GoodSub(names, 0, g);
    assert names[0..g] == names[..g];
    GoodSub(names, g, |names|);
    assert names[g..|names|] == names[g..];
    NextIs(names[..g]);
    NextGood(names[..g], Next(names[..g]), Behind(names[..g]));
    WeightSub(names, g);
    if Next(names[..g]) != [] { NextWeight(names[..g]); }
  }

  // The value of the name that ends with the first label of its group
  function Exact(group: seq<Name>): Option<nat>
    requires group != []
  {
    if |group[0].key| == Head(group[0].key) then Some(group[0].value) else None
  }

  // ngx_hash_wildcard_init: the entry for a group, and the entries for all of them
  ghost function FirstSlot(group: seq<Name>): Slot
    requires Groups(group) && Good(Next(group))
    decreases Weight(group), |group|, 0
  {
    var dot := Dot(group[0].key) < |group[0].key|;
    if Next(group) == [] then Data(group[0].value, dot)
    else NextWeight(group); Sub(Node(Build(Next(group)), Exact(group)), dot)
  }

  ghost function Build(names: seq<Name>): seq<Entry>
    requires Good(names)
    decreases Weight(names), |names|, 1
  {
    if names == [] then []
    else
      BuildOk(names);
      var g := First(names);
      [Entry(Label(names[0].key), FirstSlot(names[..g]))] + Build(names[g..])
  }

  // ---------- looking up ----------

  // ngx_hash_find in the hash of a node
  function Find(entries: seq<Entry>, name: string): (r: Option<Slot>)
    ensures r.Some? ==> exists i :: 0 <= i < |entries| && entries[i].name == name && r.value == entries[i].slot
  {
    if entries == [] then None
    else if entries[0].name == name then Some(entries[0].slot)
    else
      var r := Find(entries[1..], name);
      assert r.Some? ==> forall i :: 0 <= i < |entries[1..]| ==> entries[1..][i] == entries[i + 1];
      r
  }

  function Or<T>(a: Option<T>, b: Option<T>): Option<T> {
    if a.Some? then a else b
  }

  // ngx_hash_find_wc_head on the labels of the name, from the last one to the first
  function HeadFind(node: Node, rl: seq<string>): Option<nat>
    requires rl != []
    decreases |rl|, 1
  {
    match Find(node.entries, rl[0])
    case None => node.value
    case Some(slot) => HeadSlot(slot, rl)
  }

  function HeadSlot(slot: Slot, rl: seq<string>): Option<nat>
    requires rl != []
    decreases |rl|, 0
  {
    match slot
    case Data(v, only) => if only && |rl| == 1 then None else Some(v)
    case Sub(child, only) =>
      if |rl| == 1 then (if only then None else child.value)
      else Or(HeadFind(child, rl[1..]), child.value)
  }

  // ngx_hash_find_wc_tail on the labels of the name
  function TailFind(node: Node, nl: seq<string>): Option<nat>
    requires nl != []
    decreases |nl|, 1
  {
    if |nl| == 1 then None
    else
      match Find(node.entries, nl[0])
      case None => node.value
      case Some(slot) => TailSlot(slot, nl)
  }

  function TailSlot(slot: Slot, nl: seq<string>): Option<nat>
    requires |nl| > 1
    decreases |nl|, 0
  {
    match slot
    case Data(v, only) => Some(v)
    case Sub(child, only) => Or(TailFind(child, nl[1..]), child.value)
  }

  // ---------- the longest match ----------

  predicate Match(head: bool, k: string, l: seq<string>) {
    if head then HeadMatch(k, l) else TailMatch(k, l)
  }

  datatype Hit = Hit(depth: nat, value: nat)

  function HitOf(head: bool, n: Name, l: seq<string>): Option<Hit> {
    if Match(head, n.key, l) then Some(Hit(|Labels(n.key)|, n.value)) else None
  }

  function Better(a: Option<Hit>, b: Option<Hit>): Option<Hit> {
    if b.None? || (a.Some? && a.value.depth >= b.value.depth) then a else b
  }

  // The matching name with the most labels
  function Best(head: bool, names: seq<Name>, l: seq<string>): Option<Hit> {
    if names == [] then None else Better(HitOf(head, names[0], l), Best(head, names[1..], l))
  }

  // Which is what it says
  lemma {:induction false} BestIsLongest(head: bool, names: seq<Name>, l: seq<string>)
    ensures (var b := Best(head, names, l);
             && (b.None? <==> forall i :: 0 <= i < |names| ==> !Match(head, names[i].key, l))
             && (b.Some? ==>
                 && (exists i :: 0 <= i < |names| && Match(head, names[i].key, l)
                                 && b.value == Hit(|Labels(names[i].key)|, names[i].value))
                 && (forall i :: 0 <= i < |names| && Match(head, names[i].key, l) ==>
                     |Labels(names[i].key)| <= b.value.depth)))
  {
    if names != [] {
      BestIsLongest(head, names[1..], l);
      assert forall i :: 0 <= i < |names[1..]| ==> names[1..][i] == names[i + 1];
      assert names == [names[0]] + names[1..];
      var b := Best(head, names, l);
      if b.Some? && b != HitOf(head, names[0], l) {
        var i :| 0 <= i < |names[1..]| && Match(head, names[1..][i].key, l)
            && b.value == Hit(|Labels(names[1..][i].key)|, names[1..][i].value);
        assert names[i + 1] == names[1..][i];
      }
    }
  }

  lemma {:induction false} BestConcat(head: bool, a: seq<Name>, b: seq<Name>, l: seq<string>)
    ensures Best(head, a + b, l) == Better(Best(head, a, l), Best(head, b, l))
  {
    if a == [] {
      assert a + b == b;
    } else {
      assert (a + b)[1..] == a[1..] + b;
      BestConcat(head, a[1..], b, l);
    }
  }

  lemma BestSplit(head: bool, names: seq<Name>, g: nat, l: seq<string>)
    requires g <= |names|
    ensures Best(head, names, l) == Better(Best(head, names[..g], l), Best(head, names[g..], l))
  {
    assert names == names[..g] + names[g..];
    BestConcat(head, names[..g], names[g..], l);
  }

  lemma {:induction false} BestNone(head: bool, names: seq<Name>, l: seq<string>)
    requires forall i :: 0 <= i < |names| ==> !Match(head, names[i].key, l)
    ensures Best(head, names, l) == None
  {
    if names != [] { BestNone(head, names[1..], l); }
  }

  function Deeper(h: Option<Hit>): Option<Hit> {
    if h.Some? then Some(Hit(h.value.depth + 1, h.value.value)) else None
  }

  // A key with a further label
  lemma LabelsOf(l: string, t: string)
    requires '.' !in l && t != ""
    ensures Labels(l + "." + t) == [l] + Labels(t) && (Only(l + "." + t) <==> Only(t))
  {
    var k := l + "." + t;
    assert k[..|l|] == l && k[|l|] == '.';
    DotIs(k, |l|);
    assert Tail(k) == t;
  }

  lemma MatchDeeper(head: bool, l: string, n: Name, n': Name, rest: seq<string>)
    requires '.' !in l && n.key != "" && n' == Name(l + "." + n.key, n.value)
    ensures rest != [] ==> HitOf(head, n', [l] + rest) == Deeper(HitOf(head, n, rest))
    ensures rest == [] ==> HitOf(head, n', [l] + rest) == None
  {
    LabelsOf(l, n.key);
    var a := Labels(n.key);
    assert Labels(n'.key) == [l] + a && (Only(n'.key) <==> Only(n.key));
    PrefixDeeper(l, a, rest);
    assert Match(head, n'.key, [l] + rest) <==> rest != [] && Match(head, n.key, rest);
  }

  lemma PrefixDeeper(l: string, a: seq<string>, rest: seq<string>)
    ensures [l] + a <= [l] + rest <==> a <= rest
  {
    var b := [l] + rest;
    if [l] + a <= b {
      assert b[..|a| + 1] == [l] + a;
      assert b[..|a| + 1][1..] == rest[..|a|];
      assert ([l] + a)[1..] == a;
    }
  }

  lemma {:induction false} BestDeeper(head: bool, l: string, names: seq<Name>, names': seq<Name>, rest: seq<string>)
    requires '.' !in l && |names| == |names'|
    requires forall i :: 0 <= i < |names| ==>
        names[i].key != "" && names'[i] == Name(l + "." + names[i].key, names[i].value)
    ensures rest != [] ==> Best(head, names', [l] + rest) == Deeper(Best(head, names, rest))
    ensures rest == [] ==> Best(head, names', [l] + rest) == None
  {
    if names != [] {
      MatchDeeper(head, l, names[0], names'[0], rest);
      BestDeeper(head, l, names[1..], names'[1..], rest);
    }
  }

  // ---------- the theorem ----------

  // The hit for a name that ends with the first label
  function ExactHit(head: bool, group: seq<Name>, more: bool): Option<Hit>
    requires group != []
  {
    var k := group[0].key;
    if |k| == Head(k) && (more || (head && Dot(k) == |k|)) then Some(Hit(1, group[0].value)) else None
  }

  lemma ExactIs(head: bool, group: seq<Name>, l: seq<string>)
    requires group != [] && l != [] && l[0] == Label(group[0].key) && |group[0].key| == Head(group[0].key)
    requires !head ==> !Only(group[0].key)
    ensures HitOf(head, group[0], l) == ExactHit(head, group, |l| > 1)
  {
    var k := group[0].key;
    if Dot(k) == |k| {
      assert Label(k) == k;
    } else {
      assert Tail(k) == "";
    }
    assert Labels(k) == [Label(k)];
    assert Only(k) <==> Dot(k) < |k|;
  }

  lemma GroupBest(head: bool, group: seq<Name>, l: seq<string>)
    requires Groups(group) && Good(group) && l != [] && l[0] == Label(group[0].key)
    requires !head ==> forall i :: 0 <= i < |group| ==> !Only(group[i].key)
    ensures (var deep := if |l| == 1 then None else Deeper(Best(head, Next(group), l[1..]));
             Best(head, group, l) == Better(ExactHit(head, group, |l| > 1), deep))
  {
    NextIs(group);
    GroupBestOf(head, group, Next(group), Behind(group), l);
  }

  lemma GroupBestOf(head: bool, group: seq<Name>, next: seq<Name>, o: nat, l: seq<string>)
    requires Good(group) && Continues(group, next, o) && l != [] && l[0] == Label(group[0].key)
    requires !head ==> forall i :: 0 <= i < |group| ==> !Only(group[i].key)
    ensures (var deep := if |l| == 1 then None else Deeper(Best(head, next, l[1..]));
             Best(head, group, l) == Better(ExactHit(head, group, |l| > 1), deep))
  {
    NextGood(group, next, o);
    assert l == [l[0]] + l[1..];
    forall i | 0 <= i < |next|
      ensures next[i].key != "" && group[o..][i] == Name(l[0] + "." + next[i].key, next[i].value)
    {
      assert group[o..][i] == group[i + o];
    }
    BestDeeper(head, l[0], next, group[o..], l[1..]);
    if o == 1 {
      ExactIs(head, group, l);
    } else {
      assert group[o..] == group;
    }
  }

  lemma FirstLabel(k: string)
    ensures Labels(k)[0] == Label(k)
  {
    assert Dot(k) == |k| ==> Label(k) == k;
  }

  // Names with another first label do not match.
  lemma OthersNone(head: bool, names: seq<Name>, l: seq<string>)
    requires l != [] && forall i :: 0 <= i < |names| ==> Label(names[i].key) != l[0]
    ensures Best(head, names, l) == None
  {
    forall i | 0 <= i < |names|
      ensures !Match(head, names[i].key, l)
    {
      var k := names[i].key;
      FirstLabel(k);
    }
    BestNone(head, names, l);
  }

  function Lookup(head: bool, node: Node, l: seq<string>): Option<nat>
    requires l != []
  {
    Or(if head then HeadFind(node, l) else TailFind(node, l), node.value)
  }

  function ValueOf(h: Option<Hit>): Option<nat> {
    if h.Some? then Some(h.value.value) else None
  }

  lemma LookupFirst(head: bool, e: Entry, entries: seq<Entry>, value: Option<nat>, l: seq<string>)
    requires l != []
    ensures l[0] != e.name ==> Lookup(head, Node([e] + entries, value), l) == Lookup(head, Node(entries, value), l)
    ensures (l[0] == e.name ==>
             Lookup(head, Node([e] + entries, value), l) == Or(if head then HeadSlot(e.slot, l)
                 else if |l| == 1 then None else TailSlot(e.slot, l), value))
  {
    assert ([e] + entries)[1..] == entries;
  }

  // The trie gives the value of the longest match, and that of the node itself if there is none.
  lemma {:induction false} LookupIsBest(head: bool, names: seq<Name>, value: Option<nat>, l: seq<string>)
    requires Good(names) && l != [] && (!head ==> forall i :: 0 <= i < |names| ==> !Only(names[i].key))
    ensures Lookup(head, Node(Build(names), value), l) == Or(ValueOf(Best(head, names, l)), value)
    decreases Weight(names), |names|
  {
    if names != [] {
      BuildOk(names);
      var g := First(names);
      GroupOrOthers(head, names, l);
      LookupFirst(head, Entry(Label(names[0].key), FirstSlot(names[..g])), Build(names[g..]), value, l);
      if l[0] != Label(names[0].key) {
        LookupIsBest(head, names[g..], value, l);
      } else {
        var group := names[..g];
        if |l| > 1 && Next(group) != [] {
          NextIs(group);
          NextOnly(head, group, Next(group), Behind(group));
          LookupIsBest(head, Next(group), Exact(group), l[1..]);
        }
        SlotIsBest(head, group, l);
      }
    }
  }

  // Only the names with the right first label count.
  lemma GroupOrOthers(head: bool, names: seq<Name>, l: seq<string>)
    requires Good(names) && names != [] && l != []
    ensures var g := First(names); Best(head, names, l) == Best(head, if l[0] == Label(names[0].key) then names[..g]
        else names[g..], l)
  {
    var g := First(names);
    FirstGroups(names);
    BestSplit(head, names, g, l);
    OthersNone(head, if l[0] == Label(names[0].key) then names[g..] else names[..g], l);
  }

  // The step through the first label
  lemma SlotIsBest(head: bool, group: seq<Name>, l: seq<string>)
    requires Groups(group) && Good(group) && Good(Next(group)) && l != [] && l[0] == Label(group[0].key)
    requires !head ==> forall i :: 0 <= i < |group| ==> !Only(group[i].key)
    requires (|l| > 1 && Next(group) != [] ==>
              Lookup(head, Node(Build(Next(group)), Exact(group)), l[1..])
                  == Or(ValueOf(Best(head, Next(group), l[1..])), Exact(group)))
    ensures (if head then HeadSlot(FirstSlot(group), l) else if |l| == 1 then None else TailSlot(FirstSlot(group), l))
        == ValueOf(Best(head, group, l))
  {
    GroupBest(head, group, l);
    if |l| > 1 && Next(group) != [] { BestDepth(head, Next(group), l[1..]); }
  }

  lemma {:induction false} BestDepth(head: bool, names: seq<Name>, l: seq<string>)
    ensures Best(head, names, l).Some? ==> Best(head, names, l).value.depth >= 1
  {
    if names != [] { BestDepth(head, names[1..], l); }
  }

  lemma NextOnly(head: bool, group: seq<Name>, next: seq<Name>, o: nat)
    requires Good(group) && Continues(group, next, o) && (!head ==> forall i :: 0 <= i < |group| ==>
        !Only(group[i].key))
    ensures !head ==> forall i :: 0 <= i < |next| ==> !Only(next[i].key)
  {
    NextGood(group, next, o);
    forall i | 0 <= i < |next|
      ensures !head ==> !Only(next[i].key)
    {
      LabelsOf(Label(group[0].key), next[i].key);
    }
  }

  // ---------- host names ----------

  // The labels of a host name
  function Split(name: string): (r: seq<string>)
    ensures r != []
    decreases |name|
  {
    if Dot(name) == |name| then [name] else [Label(name)] + Split(Tail(name))
  }

  function Reverse(s: seq<string>): (r: seq<string>)
    ensures |r| == |s|
  {
    if s == [] then [] else Reverse(s[1..]) + [s[0]]
  }

  // Where the last label of a host name starts
  function LastLabel(name: string): (n: nat)
    ensures n <= |name| && '.' !in name[n..] && (n > 0 ==> name[n - 1] == '.')
  {
    if name == "" || name[|name| - 1] == '.' then |name|
    else
      var n := LastLabel(name[..|name| - 1]);
      assert name[n..] == name[..|name| - 1][n..] + [name[|name| - 1]];
      n
  }

  lemma {:induction false} LastLabelIs(name: string, n: nat)
    requires n <= |name| && '.' !in name[n..] && (n > 0 ==> name[n - 1] == '.')
    ensures LastLabel(name) == n
  {
    var m := LastLabel(name);
    assert forall j :: m <= j < |name| ==> name[j] == name[m..][j - m];
    assert forall j :: n <= j < |name| ==> name[j] == name[n..][j - n];
  }

  // The labels from the last one to the first
  function Backward(name: string): (r: seq<string>)
    ensures r != []
    decreases |name|
  {
    var n := LastLabel(name);
    [name[n..]] + if n == 0 then [] else Backward(name[..n - 1])
  }

  lemma {:induction false} SplitLast(a: string, b: string)
    requires '.' !in b
    ensures Split(a + "." + b) == Split(a) + [b]
    decreases |a|
  {
    var s := a + "." + b;
    var d := Dot(a);
    assert s[..d] == a[..d];
    assert d < |a| ==> s[d] == a[d];
    DotIs(s, d);
    assert Dot(b) == |b|;
    if d == |a| {
      assert Tail(s) == b;
      assert Label(s) == a;
    } else {
      assert Tail(s) == Tail(a) + "." + b;
      SplitLast(Tail(a), b);
    }
  }

  lemma {:induction false} ReversePush(s: seq<string>, x: string)
    ensures Reverse(s + [x]) == [x] + Reverse(s)
  {
    if s != [] {
      assert (s + [x])[1..] == s[1..] + [x];
      ReversePush(s[1..], x);
    }
  }

  lemma {:induction false} BackwardIs(name: string)
    ensures Backward(name) == Reverse(Split(name))
    decreases |name|
  {
    var n := LastLabel(name);
    if n == 0 {
      assert name[0..] == name;
      assert Dot(name) == |name|;
      assert Split(name)[1..] == [];
    } else {
      assert name == name[..n - 1] + "." + name[n..];
      BackwardIs(name[..n - 1]);
      SplitLast(name[..n - 1], name[n..]);
      ReversePush(Split(name[..n - 1]), name[n..]);
    }
  }

  // ---------- the functions of ngx_hash.c ----------

  method ScanBack(name: string) returns (n: nat)
    ensures n == LastLabel(name)
  {
    n := |name|;
    while n > 0
      invariant n <= |name| && '.' !in name[n..]
    {
      if name[n - 1] == '.' { break; }
      n := n - 1;
    }
    LastLabelIs(name, n);
  }

  // ngx_hash_find_wc_head
  method FindHead(node: Node, name: string) returns (value: Option<nat>)
    ensures value == HeadFind(node, Backward(name))
    decreases |name|
  {
    var n := ScanBack(name);
    ghost var rl := Backward(name);
    assert rl[0] == name[n..] && (n == 0 <==> |rl| == 1) && (n > 0 ==> rl[1..] == Backward(name[..n - 1]));
    var slot := Find(node.entries, name[n..]);
    match slot {
      case None => return node.value;
      case Some(Data(v, only)) => return if only && n == 0 then None else Some(v);
      case Some(Sub(child, only)) =>
        if n == 0 { return if only then None else child.value; }
        value := FindHead(child, name[..n - 1]);
        if value.None? { value := child.value; }
    }
  }

  // ngx_hash_find_wc_tail
  method FindTail(node: Node, name: string) returns (value: Option<nat>)
    ensures value == TailFind(node, Split(name))
    decreases |name|
  {
    var i := 0;
    while i < |name|
      invariant 0 <= i <= |name| && '.' !in name[..i]
    {
      if name[i] == '.' { break; }
      i := i + 1;
    }
    if i == |name| {
      assert name[..i] == name;
      return None;
    }
    DotIs(name, i);
    var slot := Find(node.entries, name[..i]);
    match slot {
      case None => return node.value;
      case Some(Data(v, only)) => return Some(v);
      case Some(Sub(child, only)) =>
        value := FindTail(child, name[i + 1..]);
        if value.None? { value := child.value; }
    }
  }

  // The first `g` names, as far as they have been collected
  ghost predicate Collected(names: seq<Name>, g: nat, next: seq<Name>) {
    && 1 <= g <= |names| && |next| == g - Behind(names)
    && forall j :: 0 <= j < |next| ==> CutsTo(names[j + Behind(names)], Dot(names[0].key) + 1, next[j])
  }

  predicate CutsTo(n: Name, d: nat, r: Name) {
    d <= |n.key| && r == Name(n.key[d..], n.value)
  }

  lemma CollectedAll(names: seq<Name>, next: seq<Name>)
    requires names != [] && Groups(names[..First(names)]) && Collected(names, First(names), next)
    ensures next == Next(names[..First(names)])
  {
    assert Behind(names) == Behind(names[..First(names)]);
  }

  lemma CollectedMore(names: seq<Name>, g: nat, next: seq<Name>)
    requires Collected(names, g, next) && g < |names| && Dot(names[0].key) < |names[g].key|
    ensures Collected(names, g + 1, next + [Name(names[g].key[Dot(names[0].key) + 1..], names[g].value)])
  {
    var o, d, r := Behind(names), Dot(names[0].key) + 1, Name(names[g].key[Dot(names[0].key) + 1..], names[g].value);
    forall j | 0 <= j < |next| + 1
      ensures CutsTo(names[j + o], d, (next + [r])[j])
    {
      if j == |next| { assert j + o == g; }
    }
  }

  lemma CollectedOne(names: seq<Name>)
    requires names != []
    ensures (var n := names[0];
             && (|n.key| == Head(n.key) ==> Collected(names, 1, []))
             && (|n.key| != Head(n.key) ==> Collected(names, 1, [Name(n.key[Head(n.key)..], n.value)])))
  {}

  // ngx_hash_wildcard_init, the inner loop: it collects the names of a group after their first label.
  method Collect(names: seq<Name>) returns (i: nat, next: seq<Name>)
    requires names != [] && Good(names)
    ensures i == First(names) && Groups(names[..i]) && next == Next(names[..i])
  {
    FirstGroups(names);
    var first := names[0].key;
    var d := Dot(first);
    var len := if d < |first| then d + 1 else d;
    next := [];
    if |first| != len { next := [Name(first[len..], names[0].value)]; }
    CollectedOne(names);
    i := 1;
    while i < |names|
      invariant i <= First(names) && Collected(names, i, next)
    {
      assert names[1..][i - 1] == names[i];
      var k := names[i].key;
      if !Joins(first, k) { break; }
      JoinsLabel(first, k);
      CollectedMore(names, i, next);
      next := next + [Name(k[d + 1..], names[i].value)];
      i := i + 1;
    }
    CollectedAll(names, next);
  }

  lemma BuildStep(entries: seq<Entry>, names: seq<Name>, all: seq<Entry>, w: nat)
    requires names != [] && Good(names) && Weight(names) <= w && entries + Build(names) == all
    ensures (var g := First(names);
             && Groups(names[..g]) && Good(Next(names[..g])) && Good(names[g..]) && Weight(names[g..]) <= w
             && entries + [Entry(Label(names[0].key), FirstSlot(names[..g]))] + Build(names[g..]) == all)
  {
    BuildOk(names);
    var g := First(names);
    assert Build(names) == [Entry(Label(names[0].key), FirstSlot(names[..g]))] + Build(names[g..]);
  }

  // ngx_hash_wildcard_init: one turn of the outer loop, and the loop
  method OneGroup(names: seq<Name>) returns (g: nat, slot: Slot)
    requires names != [] && Good(names)
    ensures g == First(names) && Groups(names[..g]) && Good(Next(names[..g])) && slot == FirstSlot(names[..g])
    decreases Weight(names), 0
  {
    BuildOk(names);
    var next;
    g, next := Collect(names);
    var k, v := names[0].key, names[0].value;
    var dot := Dot(k) < |k|;
    slot := Data(v, dot);
    if next != [] {
      var sub := WildcardInit(next);
      slot := Sub(Node(sub, if |k| == Head(k) then Some(v) else None), dot);
    }
  }

  method WildcardInit(names: seq<Name>) returns (entries: seq<Entry>)
    requires Good(names)
    ensures entries == Build(names)
    decreases Weight(names), 1
  {
    entries := [];
    var rest := names;
    ghost var all, w := Build(names), Weight(names);
    while rest != []
      invariant Good(rest) && Weight(rest) <= w
      invariant entries + Build(rest) == all
      decreases |rest|
    {
      BuildStep(entries, rest, all, w);
      var g, slot := OneGroup(rest);
      entries := entries + [Entry(Label(rest[0].key), slot)];
      rest := rest[g..];
    }
  }

  // ---------- what is promised ----------

  // The value that is found belongs to the matching name with the most labels.
  ghost predicate Longest(head: bool, names: seq<Name>, l: seq<string>, r: Option<nat>) {
    && (r.None? <==> forall i :: 0 <= i < |names| ==> !Match(head, names[i].key, l))
    && (r.Some? ==> exists i ::
        0 <= i < |names| && Match(head, names[i].key, l) && r.value == names[i].value && Deepest(head, names, l, i))
  }

  ghost predicate Deepest(head: bool, names: seq<Name>, l: seq<string>, i: int)
    requires 0 <= i < |names|
  {
    forall j :: 0 <= j < |names| && Match(head, names[j].key, l) ==> |Labels(names[j].key)| <= |Labels(names[i].key)|
  }

  lemma BestLongest(head: bool, names: seq<Name>, l: seq<string>)
    ensures Longest(head, names, l, ValueOf(Best(head, names, l)))
  {
    BestIsLongest(head, names, l);
  }

  lemma HeadLongest(names: seq<Name>, name: string)
    requires Good(names)
    ensures Longest(true, names, Reverse(Split(name)), HeadFind(Node(Build(names), None), Backward(name)))
  {
    BackwardIs(name);
    LookupIsBest(true, names, None, Backward(name));
    BestLongest(true, names, Backward(name));
  }

  lemma TailLongest(names: seq<Name>, name: string)
    requires Good(names) && forall i :: 0 <= i < |names| ==> !Only(names[i].key)
    ensures Longest(false, names, Split(name), TailFind(Node(Build(names), None), Split(name)))
  {
    LookupIsBest(false, names, None, Split(name));
    BestLongest(false, names, Split(name));
  }

  // ---------- wildcards as they are written ----------

  // "*.host" takes the names below the host, ".host" the host as well.
  predicate Under(name: string, host: string) {
    |name| > |host| && name[|name| - |host| - 1..] == "." + host
  }

  predicate Covers(host: string, only: bool, name: string) {
    Under(name, host) || (!only && name == host)
  }

  function Join(ls: seq<string>): string
    requires ls != []
  {
    if |ls| == 1 then ls[0] else ls[0] + "." + Join(ls[1..])
  }

  // The key for "*.host" (only) or ".host"
  function HeadKey(host: string, only: bool): string {
    Join(Backward(host)) + if only then "." else ""
  }

  lemma {:induction false} BackwardDots(name: string)
    ensures forall i :: 0 <= i < |Backward(name)| ==> '.' !in Backward(name)[i]
    ensures name != "" && name[0] != '.' ==> Backward(name)[|Backward(name)| - 1] != ""
    decreases |name|
  {
    var n := LastLabel(name);
    if n > 0 { BackwardDots(name[..n - 1]); }
  }

  // The labels of a key that was put together from labels
  lemma {:induction false} LabelsJoin(ls: seq<string>, dot: string)
    requires ls != [] && (forall i :: 0 <= i < |ls| ==> '.' !in ls[i]) && ls[|ls| - 1] != ""
    requires dot == "" || dot == "."
    ensures Labels(Join(ls) + dot) == ls && (Only(Join(ls) + dot) <==> dot == ".")
  {
    var k := Join(ls) + dot;
    if |ls| == 1 {
      assert k == ls[0] + dot;
      if dot == "" {
        assert k == ls[0];
        NoDot(k);
        assert k[|k| - 1] in k;
      } else {
        assert k[..|ls[0]|] == ls[0];
        DotIs(k, |ls[0]|);
        assert Tail(k) == "";
      }
      assert ls == [ls[0]];
    } else {
      LabelsJoin(ls[1..], dot);
      var t := Join(ls[1..]) + dot;
      assert k == ls[0] + "." + t;
      JoinNonempty(ls[1..]);
      LabelsOf(ls[0], t);
      assert ls == [ls[0]] + ls[1..];
    }
  }

  lemma {:induction false} JoinNonempty(ls: seq<string>)
    requires ls != [] && ls[|ls| - 1] != ""
    ensures Join(ls) != ""
  {}

  lemma {:induction false} NoDot(k: string)
    requires '.' !in k
    ensures Dot(k) == |k|
  {}

  // A name is its last label, or there is something before it.
  lemma Parts(name: string) returns (more: bool, init: string, last: string)
    ensures '.' !in last
    ensures more ==> name == init + "." + last && |init| < |name| && Backward(name) == [last] + Backward(init)
    ensures !more ==> name == last && Backward(name) == [last]
  {
    var n := LastLabel(name);
    more, init, last := n > 0, "", name[n..];
    if more {
      init := name[..n - 1];
      CutAt(name, n - 1);
    } else {
      assert name[0..] == name;
    }
  }

  lemma Regroup(a: string, b: string, c: string)
    ensures a + "." + (b + "." + c) == (a + "." + b) + "." + c
  {}

  lemma RegroupLabels(a: seq<string>, b: seq<string>, c: seq<string>)
    ensures a + (b + c) == (a + b) + c
  {}

  // What comes before the last label, when there is something
  lemma PartsOf(p: string, b: string)
    requires '.' !in b
    ensures Backward(p + "." + b) == [b] + Backward(p)
  {
    var s := p + "." + b;
    assert s[|p| + 1..] == b && s[|p|] == '.';
    LastLabelIs(s, |p| + 1);
    assert s[..|p|] == p;
  }

  // Being below a host, in terms of labels
  lemma {:induction false} UnderPrefix(p: string, host: string)
    ensures Backward(p + "." + host) == Backward(host) + Backward(p)
    decreases |host|
  {
    var more, init, last := Parts(host);
    if more {
      Regroup(p, init, last);
      PartsOf(p + "." + init, last);
      UnderPrefix(p, init);
      RegroupLabels([last], Backward(init), Backward(p));
    } else {
      PartsOf(p, host);
    }
  }

  lemma PrefixStep(host: seq<string>, name: seq<string>, h: string, hs: seq<string>, n: string, ns: seq<string>)
    requires host <= name && |host| < |name| && host == [h] + hs && name == [n] + ns
    ensures h == n && hs <= ns && |hs| < |ns|
  {
    assert host[0] == name[0];
    PrefixDeeper(h, hs, ns);
  }

  lemma {:induction false} PrefixUnder(name: string, host: string) returns (p: string)
    requires Backward(host) <= Backward(name) && |Backward(host)| < |Backward(name)|
    ensures name == p + "." + host
    decreases |host|
  {
    var hmore, hinit, hlast := Parts(host);
    var more, init, last := Parts(name);
    PrefixStep(Backward(host), Backward(name), hlast, if hmore then Backward(hinit) else [], last,
        if more then Backward(init) else []);
    if hmore {
      p := PrefixUnder(init, hinit);
      Regroup(p, hinit, hlast);
    } else {
      p := init;
    }
  }

  lemma UnderSplit(name: string, host: string) returns (p: string)
    requires Under(name, host)
    ensures name == p + "." + host
  {
    p := name[..|name| - |host| - 1];
    assert name == p + name[|p|..];
  }

  lemma UnderJoin(p: string, host: string)
    ensures Under(p + "." + host, host)
  {}

  lemma UnderIs(name: string, host: string)
    ensures Under(name, host) <==> Backward(host) <= Backward(name) && |Backward(host)| < |Backward(name)|
  {
    if Under(name, host) {
      var p := UnderSplit(name, host);
      UnderPrefix(p, host);
    } else if Backward(host) <= Backward(name) && |Backward(host)| < |Backward(name)| {
      var p := PrefixUnder(name, host);
      UnderJoin(p, host);
    }
  }

  // A key takes the names that its wildcard stands for.
  lemma HeadKeyCovers(host: string, only: bool, name: string)
    requires host != "" && host[0] != '.'
    ensures HeadMatch(HeadKey(host, only), Backward(name)) <==> Covers(host, only, name)
  {
    BackwardDots(host);
    LabelsJoin(Backward(host), if only then "." else "");
    UnderIs(name, host);
    if name != host && Backward(host) <= Backward(name) && |Backward(host)| == |Backward(name)| {
      BackwardOne(name, host);
    }
  }

  lemma {:induction false} BackwardOne(a: string, b: string)
    requires Backward(a) == Backward(b)
    ensures a == b
    decreases |a|
  {
    var amore, ainit, alast := Parts(a);
    var bmore, binit, blast := Parts(b);
    assert Backward(a)[0] == alast && Backward(b)[0] == blast;
    if amore && bmore {
      assert Backward(a)[1..] == Backward(ainit) && Backward(b)[1..] == Backward(binit);
      BackwardOne(ainit, binit);
    }
  }

  lemma JoinPush(ls: seq<string>, l: string)
    requires ls != []
    ensures Join([l] + ls) == l + "." + Join(ls)
  {
    assert ([l] + ls)[1..] == ls;
  }

  // What is still to be converted: the text from the second character up to e
  ghost function Remaining(text: string, e: nat): string
    requires 1 <= e <= |text|
  {
    Join(Backward(text[1..e]))
  }

  // One turn of the loop below: the label that ends at e starts after the dot at i.
  lemma ConvertStep(text: string, i: nat, e: nat)
    requires 1 <= i < e <= |text| && text[i] == '.' && '.' !in text[i + 1..e]
    ensures Remaining(text, e) == text[i + 1..e] + "." + Remaining(text, i)
  {
    var rest := text[1..e];
    assert rest[i - 1] == '.' && rest[..i - 1] == text[1..i] && rest[i..] == text[i + 1..e];
    CutAt(rest, i - 1);
    PartsOf(text[1..i], text[i + 1..e]);
    JoinPush(Backward(text[1..i]), text[i + 1..e]);
  }

  // Empty when p is the conversion of all but the text up to e
  ghost function Wrong(text: string, e: nat, p: string): set<nat> {
    set x | x in {e} && !(1 <= x <= |text| && p + Remaining(text, x) == Remaining(text, |text|))
  }

  lemma ConvertStart(text: string)
    requires text != ""
    ensures Wrong(text, |text|, "") == {}
  {}

  lemma ConvertTurn(text: string, i: nat, e: nat, p: string)
    requires 1 <= i < e <= |text| && text[i] == '.' && '.' !in text[i + 1..e] && Wrong(text, e, p) == {}
    ensures Wrong(text, i, p + text[i + 1..e] + ".") == {}
  {
    assert e !in Wrong(text, e, p);
    ConvertStep(text, i, e);
    var l, r := text[i + 1..e], Remaining(text, i);
    assert p + (l + "." + r) == p + l + "." + r;
  }

  lemma ConvertEnd(text: string, e: nat, p: string)
    requires 1 <= e <= |text| && '.' !in text[1..e] && Wrong(text, e, p) == {}
    ensures p + text[1..e] == Remaining(text, |text|)
  {
    assert e !in Wrong(text, e, p);
    BackwardPlain(text[1..e]);
  }

  lemma BackwardPlain(l: string)
    requires '.' !in l
    ensures Backward(l) == [l]
  {
    LastLabelIs(l, 0);
    assert l[0..] == l;
  }

  lemma NoDotMore(text: string, i: nat, e: nat)
    requires i < e <= |text| && text[i] != '.' && '.' !in text[i + 1..e]
    ensures '.' !in text[i..e]
  {
    assert text[i..e] == [text[i]] + text[i + 1..e];
  }

  // ngx_hash_add_key: "*.example.com" becomes "com.example." and ".example.com" becomes "com.example".
  method ConvertHead(text: string) returns (p: string)
    requires text != ""
    ensures p == Remaining(text, |text|)
  {
    p := "";
    var i, len := |text| - 1, 0;
    ConvertStart(text);
    while i > 0
      invariant 0 <= i < |text| && 0 <= len < |text| - i && '.' !in text[i + 1..i + 1 + len]
      invariant Wrong(text, i + 1 + len, p) == {}
    {
      ghost var e := i + 1 + len;
      if text[i] == '.' {
        ConvertTurn(text, i, e, p);
        p := p + text[i + 1..i + 1 + len] + ".";
        len := 0;
      } else {
        NoDotMore(text, i, e);
        len := len + 1;
      }
      i := i - 1;
    }
    ConvertEnd(text, 1 + len, p);
    if len > 0 { p := p + text[1..1 + len]; }
  }

  lemma {:induction false} JoinEnd(ls: seq<string>)
    requires ls != []
    ensures Join(ls + [""]) == Join(ls) + "."
  {
    if |ls| == 1 {
      assert (ls + [""])[1..] == [""];
    } else {
      assert (ls + [""])[1..] == ls[1..] + [""];
      JoinEnd(ls[1..]);
    }
  }

  // Which are the keys for these wildcards
  lemma ConvertedIs(host: string)
    ensures Remaining("*." + host, |host| + 2) == HeadKey(host, true)
    ensures Remaining("." + host, |host| + 1) == HeadKey(host, false)
  {
    assert ("*." + host)[1..|host| + 2] == "" + "." + host;
    UnderPrefix("", host);
    BackwardPlain("");
    JoinEnd(Backward(host));
    assert ("." + host)[1..|host| + 1] == host;
  }

  // A wildcard, as it is written, with its value
  datatype Wild = Wild(host: string, only: bool, value: nat)

  // The names are the keys of the wildcards.
  ghost predicate KeysOf(wilds: seq<Wild>, names: seq<Name>) {
    && |names| == |wilds|
    && forall i :: 0 <= i < |wilds| ==>
      wilds[i].host != "" && wilds[i].host[0] != '.'
      && names[i] == Name(HeadKey(wilds[i].host, wilds[i].only), wilds[i].value)
  }

  // The trie answers with the longest wildcard that covers the host name, if there is one.
  lemma WildcardLookup(wilds: seq<Wild>, names: seq<Name>, name: string)
    requires KeysOf(wilds, names) && Good(names)
    ensures (var r := HeadFind(Node(Build(names), None), Backward(name));
             && (r.None? <==> forall i :: 0 <= i < |wilds| ==> !Covers(wilds[i].host, wilds[i].only, name))
             && (r.Some? ==> exists i :: 0 <= i < |wilds| && LongestCover(wilds, name, i) && r.value == wilds[i].value))
  {
    BackwardIs(name);
    HeadLongest(names, name);
    forall i | 0 <= i < |wilds|
      ensures Match(true, names[i].key, Backward(name)) <==> Covers(wilds[i].host, wilds[i].only, name)
    {
      HeadKeyCovers(wilds[i].host, wilds[i].only, name);
    }
    var r := HeadFind(Node(Build(names), None), Backward(name));
    if r.Some? {
      var i :| 0 <= i < |names| && Match(true, names[i].key, Backward(name)) && r.value == names[i].value
          && Deepest(true, names, Backward(name), i);
      forall j | 0 <= j < |wilds| && Covers(wilds[j].host, wilds[j].only, name)
        ensures |wilds[j].host| <= |wilds[i].host|
      {
        LongerHost(wilds[i], wilds[j], name);
      }
      assert LongestCover(wilds, name, i);
    }
  }

  ghost predicate LongestCover(wilds: seq<Wild>, name: string, i: int)
    requires 0 <= i < |wilds|
  {
    && Covers(wilds[i].host, wilds[i].only, name)
    && forall j :: 0 <= j < |wilds| && Covers(wilds[j].host, wilds[j].only, name) ==> |wilds[j].host| <= |wilds[i].host|
  }

  // Of two hosts above a name, the one with more labels is longer.
  lemma LongerHost(a: Wild, b: Wild, name: string)
    requires a.host != "" && a.host[0] != '.' && b.host != "" && b.host[0] != '.'
    requires Covers(a.host, a.only, name) && Covers(b.host, b.only, name)
    requires |Labels(HeadKey(b.host, b.only))| <= |Labels(HeadKey(a.host, a.only))|
    ensures |b.host| <= |a.host|
  {
    BackwardDots(a.host);
    BackwardDots(b.host);
    LabelsJoin(Backward(a.host), if a.only then "." else "");
    LabelsJoin(Backward(b.host), if b.only then "." else "");
    UnderIs(name, a.host);
    UnderIs(name, b.host);
    UnderIs(b.host, a.host);
    UnderIs(a.host, b.host);
    var x, y, z := Backward(a.host), Backward(b.host), Backward(name);
    assert x <= z && y <= z;
    assert y <= x;
    if |x| == |y| { BackwardOne(a.host, b.host); }
  }
}
