/** The hash inside a node of the wildcard trie: the labels of the entries are distinct,
    so that looking a label up in the
    packed table of the node finds what looking it up in the list of entries finds. */
module WildcardHash {
  import opened Wildcard
  import Packed = PackedHash

  // The entries are named by first labels.
  lemma {:induction false} BuildLabels(names: seq<Name>, i: nat) returns (j: nat)
    requires Good(names) && i < |Build(names)|
    ensures j < |names| && Label(names[j].key) == Build(names)[i].name
    decreases |names|
  {
    if i == 0 {
      FirstName(names);
      j := 0;
    } else {
      BuildRest(names, i);
      j := BuildLabels(names[First(names)..], i - 1);
      j := First(names) + j;
    }
  }

  lemma BuildRest(names: seq<Name>, k: nat)
    requires Good(names) && 0 < k < |Build(names)|
    ensures First(names) < |names| && Good(names[First(names)..]) && k <= |Build(names[First(names)..])|
    ensures Build(names)[k] == Build(names[First(names)..])[k - 1]
  {
    BuildOk(names);
  }

  // The first one is not named like another one.
  lemma FirstDistinct(names: seq<Name>, k: nat)
    requires Good(names) && 0 < k < |Build(names)|
    ensures Build(names)[0].name != Build(names)[k].name
  {
    BuildRest(names, k);
    var g := First(names);
    var rest := names[g..];
    var j := BuildLabels(rest, k - 1);
    OtherLabel(names, g + j);
    assert names[g + j] == rest[j];
    FirstName(names);
  }

  lemma FirstName(names: seq<Name>)
    requires Good(names) && names != []
    ensures Build(names) != [] && Build(names)[0].name == Label(names[0].key)
  {
    BuildOk(names);
  }

  lemma OtherLabel(names: seq<Name>, j: nat)
    requires Good(names) && names != [] && First(names) <= j < |names|
    ensures Label(names[j].key) != Label(names[0].key)
  {
    FirstGroups(names);
  }

  // No two entries of a node have the same name.
  lemma {:induction false} BuildDistinct(names: seq<Name>, i: nat, k: nat)
    requires Good(names) && i < k < |Build(names)|
    ensures Build(names)[i].name != Build(names)[k].name
    decreases |names|
  {
    if i == 0 {
      FirstDistinct(names, k);
    } else {
      BuildRest(names, i);
      BuildRest(names, k);
      BuildDistinct(names[First(names)..], i - 1, k - 1);
    }
  }

  // What ngx_hash_init is given for the node: the value of an entry is its place, counted from one.
  ghost function Packable(entries: seq<Entry>, hash: string -> nat): seq<Packed.Name> {
    seq(|entries|, i requires 0 <= i < |entries| => Packed.Name(entries[i].name, hash(entries[i].name), i + 1))
  }

  lemma {:induction false} FindAt(entries: seq<Entry>, i: nat)
    requires i < |entries| && forall j :: 0 <= j < i ==> entries[j].name != entries[i].name
    ensures Find(entries, entries[i].name) == Some(entries[i].slot)
  {
    if i > 0 {
      assert entries[0].name != entries[i].name;
      assert entries[1..][i - 1] == entries[i];
      FindAt(entries[1..], i - 1);
    }
  }

  lemma {:induction false} FindNone(entries: seq<Entry>, name: string)
    requires forall j :: 0 <= j < |entries| ==> entries[j].name != name
    ensures Find(entries, name) == None
  {
    if entries != [] { FindNone(entries[1..], name); }
  }

  lemma EntriesFind(entries: seq<Entry>, size: nat, hash: string -> nat, l: string)
    requires size > 0 && forall a, b :: 0 <= a < b < |entries| ==> entries[a].name != entries[b].name
    ensures (var v := Packed.Lookup(Packed.Bucket(Packable(entries, hash), size, Packed.Slot(hash(l), size)), l);
             if v == 0 then Find(entries, l) == None else
                 v <= |entries| && Find(entries, l) == Some(entries[v - 1].slot))
  {
    var packed := Packable(entries, hash);
    Packed.HashIsMap(packed, size, hash, l);
    if i :| 0 <= i < |entries| && entries[i].name == l {
      assert packed[i].key == l && packed[i].value == i + 1;
      FindAt(entries, i);
    } else {
      forall j | 0 <= j < |packed| ensures packed[j].key != l { assert packed[j].key == entries[j].name; }
      FindNone(entries, l);
    }
  }

  // Looking up in the table of a node, with any number of buckets
  lemma NodeFind(names: seq<Name>, size: nat, hash: string -> nat, l: string)
    requires Good(names) && size > 0
    ensures (var entries := Build(names);
             var v := Packed.Lookup(Packed.Bucket(Packable(entries, hash), size, Packed.Slot(hash(l), size)), l);
             if v == 0 then Find(entries, l) == None else
                 v <= |entries| && Find(entries, l) == Some(entries[v - 1].slot))
  {
    var entries := Build(names);
    forall a, b | 0 <= a < b < |entries| ensures entries[a].name != entries[b].name { BuildDistinct(names, a, b); }
    EntriesFind(entries, size, hash, l);
  }
}
