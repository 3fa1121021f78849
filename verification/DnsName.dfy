/** The question names of ngx_resolver.c: ngx_resolver_create_name_query writes a host name as labels with
    their lengths, and ngx_resolver_copy reads such a name back. */
module DnsName {
  import opened Wildcard

  // A length, or the end, as a byte
  function Count(n: nat): char
    requires n <= 255
  {
    n as char
  }

  predicate LabelsOk(ls: seq<string>, max: nat) {
    forall i :: 0 <= i < |ls| ==> '.' !in ls[i] && 1 <= |ls[i]| <= max
  }

  // Each label is preceded by its length; a zero follows the last one.
  ghost function Wire(ls: seq<string>): string
    requires LabelsOk(ls, 255)
  {
    if ls == [] then [Count(0)] else [Count(|ls[0]|)] + ls[0] + Wire(ls[1..])
  }

  // The text of labels behind another one
  function Behind(ls: seq<string>): string {
    if ls == [] then "" else "." + Join(ls)
  }

  lemma JoinBehind(l: string, ls: seq<string>)
    ensures Join([l] + ls) == l + Behind(ls)
  {
    assert ([l] + ls)[1..] == ls;
    if ls != [] { assert l + "." + Join(ls) == l + Behind(ls); }
  }

  // ---------- the labels of a name ----------

  lemma SplitOne(l: string)
    requires '.' !in l
    ensures Split(l) == [l]
  {
    NoDot(l);
  }

  lemma SplitFirst(l: string, t: string)
    requires '.' !in l
    ensures Split(l + "." + t) == [l] + Split(t)
  {
    var k := l + "." + t;
    assert k[..|l|] == l && k[|l|] == '.';
    DotIs(k, |l|);
    assert Tail(k) == t;
  }

  lemma {:induction false} SplitJoin(ls: seq<string>)
    requires ls != [] && forall i :: 0 <= i < |ls| ==> '.' !in ls[i]
    ensures Split(Join(ls)) == ls
  {
    if |ls| == 1 {
      SplitOne(ls[0]);
      assert ls == [ls[0]];
    } else {
      SplitFirst(ls[0], Join(ls[1..]));
      SplitJoin(ls[1..]);
      assert ls == [ls[0]] + ls[1..];
    }
  }

  lemma {:induction false} JoinSplit(name: string)
    ensures Join(Split(name)) == name && forall i :: 0 <= i < |Split(name)| ==> '.' !in Split(name)[i]
    decreases |name|
  {
    if Dot(name) < |name| {
      JoinSplit(Tail(name));
      AtDot(name);
      JoinPush(Split(Tail(name)), Label(name));
    } else {
      assert name[..|name|] == name;
    }
  }

  // Labels in front do not touch those behind them.
  lemma {:induction false} SplitConcat(a: string, b: string)
    ensures Split(a + "." + b) == Split(a) + Split(b)
    decreases |a|
  {
    if Dot(a) < |a| {
      AtDot(a);
      Regroup(Label(a), Tail(a), b);
      SplitFirst(Label(a), Tail(a) + "." + b);
      SplitConcat(Tail(a), b);
      RegroupLabels([Label(a)], Split(Tail(a)), Split(b));
    } else {
      assert a[..|a|] == a;
      SplitFirst(a, b);
    }
  }

  // The labels of a name that are empty or too long to be written
  ghost function Unfit(name: string): set<nat> {
    set i: nat | i < |Split(name)| && !(1 <= |Split(name)[i]| <= 255)
  }

  lemma FitIs(name: string)
    ensures Unfit(name) == {} <==> LabelsOk(Split(name), 255)
  {
    JoinSplit(name);
    if Unfit(name) == {} {
      forall i: nat | i < |Split(name)| ensures 1 <= |Split(name)[i]| <= 255 { assert i !in Unfit(name); }
    }
  }

  // ---------- the encoder ----------

  // The characters from s to e have been written, and all that follows them: the labels `done`.
  ghost predicate Sofar(name: string, s: nat, e: nat, done: seq<string>, out: string) {
    && s <= e <= |name| && '.' !in name[s..e] && LabelsOk(done, 255) && name[e..] == Behind(done)
    && out == name[s..e] + Wire(done)
  }

  // Empty when that is so
  ghost function Amiss(name: string, s: nat, e: nat, done: seq<string>, out: string): set<string> {
    set x | x in {out} && !Sofar(name, s, e, done, x)
  }

  lemma NotAmiss(name: string, s: nat, e: nat, done: seq<string>, out: string)
    ensures Amiss(name, s, e, done, out) == {} <==> Sofar(name, s, e, done, out)
  {
    assert out in Amiss(name, s, e, done, out) <==> !Sofar(name, s, e, done, out);
  }

  lemma FirstStep(name: string)
    ensures Amiss(name, |name|, |name|, [], [Count(0)]) == {}
  {
    assert name[|name|..|name|] == "" && name[|name|..] == "";
    NotAmiss(name, |name|, |name|, [], [Count(0)]);
  }

  lemma LetterStep(name: string, s: nat, e: nat, done: seq<string>, out: string)
    requires Amiss(name, s + 1, e, done, out) == {} && s < |name| && name[s] != '.'
    ensures Amiss(name, s, e, done, [name[s]] + out) == {}
  {
    NotAmiss(name, s + 1, e, done, out);
    assert name[s..e] == [name[s]] + name[s + 1..e];
    NotAmiss(name, s, e, done, [name[s]] + out);
  }

  // A label is complete.
  lemma LabelStep(name: string, s: nat, e: nat, done: seq<string>, out: string)
    requires Sofar(name, s, e, done, out) && 1 <= e - s <= 255
    ensures LabelsOk([name[s..e]] + done, 255) && [Count(e - s)] + out == Wire([name[s..e]] + done)
    ensures name[s..] == Join([name[s..e]] + done)
  {
    var l := name[s..e];
    assert ([l] + done)[1..] == done;
    assert [Count(e - s)] + (l + Wire(done)) == [Count(|l|)] + l + Wire(done);
    assert name[s..] == l + name[e..];
    JoinBehind(l, done);
  }

  lemma DotFront(name: string, s: nat)
    requires s < |name| && name[s] == '.'
    ensures name[s..] == "." + name[s + 1..] && name[s..s] == ""
  {}

  lemma DotStep(name: string, s: nat, len: nat, done: seq<string>, out: string)
    requires Amiss(name, s + 1, s + 1 + len, done, out) == {} && s < |name| && name[s] == '.' && 1 <= len <= 255
    ensures s + 1 + len <= |name| && Amiss(name, s, s, [name[s + 1..s + 1 + len]] + done, [Count(len)] + out) == {}
  {
    var e := s + 1 + len;
    NotAmiss(name, s + 1, e, done, out);
    LabelStep(name, s + 1, e, done, out);
    DotFront(name, s);
    NotAmiss(name, s, s, [name[s + 1..e]] + done, [Count(len)] + out);
  }

  lemma LastStep(name: string, e: nat, done: seq<string>, out: string)
    requires Amiss(name, 0, e, done, out) == {} && 1 <= e <= 255
    ensures Unfit(name) == {} && LabelsOk(Split(name), 255) && [Count(e)] + out == Wire(Split(name))
  {
    FitIs(name);
    NotAmiss(name, 0, e, done, out);
    LabelStep(name, 0, e, done, out);
    assert name[0..] == name;
    SplitJoin([name[0..e]] + done);
  }

  lemma SplitBehind(name: string, s: nat)
    requires 0 < s <= |name| && name[s - 1] == '.'
    ensures Split(name) == Split(name[..s - 1]) + Split(name[s..])
  {
    CutAt(name, s - 1);
    SplitConcat(name[..s - 1], name[s..]);
  }

  // A label with a bad length
  lemma SplitAt(name: string, s: nat, l: string, done: seq<string>)
    requires s <= |name| && (s > 0 ==> name[s - 1] == '.') && name[s..] == l + Behind(done)
    requires '.' !in l && forall i :: 0 <= i < |done| ==> '.' !in done[i]
    ensures exists k: nat :: k < |Split(name)| && Split(name)[k] == l
  {
    JoinBehind(l, done);
    SplitJoin([l] + done);
    if s > 0 {
      SplitBehind(name, s);
      assert Split(name)[|Split(name[..s - 1])|] == l;
    } else {
      assert name[0..] == name;
      assert Split(name)[0] == l;
    }
  }

  lemma BadStep(name: string, s: nat, e: nat, done: seq<string>, out: string)
    requires Amiss(name, s, e, done, out) == {} && s <= |name| && (s > 0 ==> name[s - 1] == '.') && !(1 <= e - s <= 255)
    ensures Unfit(name) != {}
  {
    NotAmiss(name, s, e, done, out);
    var l := name[s..e];
    assert name[s..] == l + name[e..];
    SplitAt(name, s, l, done);
    var k: nat :| k < |Split(name)| && Split(name)[k] == l;
    assert k in Unfit(name);
  }

  // One turn of the loop below, at the character s
  method Turn(name: string, s: nat, len0: nat, out0: string, ghost done0: seq<string>)
    returns (ok: bool, len: nat, out: string, ghost done: seq<string>)
    requires s < |name| && Amiss(name, s + 1, s + 1 + len0, done0, out0) == {}
    ensures ok ==> Amiss(name, s, s + len, done, out) == {}
    ensures !ok ==> Unfit(name) != {}
  {
    if name[s] != '.' {
      LetterStep(name, s, s + 1 + len0, done0, out0);
      return true, len0 + 1, [name[s]] + out0, done0;
    }
    if len0 == 0 || len0 > 255 {
      BadStep(name, s + 1, s + 1 + len0, done0, out0);
      return false, len0, out0, done0;
    }
    DotStep(name, s, len0, done0, out0);
    return true, 0, [Count(len0)] + out0, [name[s + 1..s + 1 + len0]] + done0;
  }

  // The loop of ngx_resolver_create_name_query, from the end of the name; false is NGX_DECLINED.
  method Spell(name: string) returns (ok: bool, out: string, len: nat, ghost done: seq<string>)
    ensures ok ==> Amiss(name, 0, len, done, out) == {}
    ensures !ok ==> Unfit(name) != {}
  {
    ok, out, len, done := true, [Count(0)], 0, [];
    FirstStep(name);
    var s := |name| - 1;
    while s >= 0
      invariant -1 <= s < |name| && ok && Amiss(name, s + 1, s + 1 + len, done, out) == {}
    {
      ok, len, out, done := Turn(name, s, len, out, done);
      if !ok { return; }
      s := s - 1;
    }
  }

  // ngx_resolver_create_name_query
  method Encode(name: string) returns (ok: bool, out: string)
    ensures ok <==> Unfit(name) == {}
    ensures ok ==> LabelsOk(Split(name), 255) && out == Wire(Split(name))
  {
    var len;
    ghost var done;
    ok, out, len, done := Spell(name);
    if !ok { return; }
    if len == 0 || len > 255 {
      BadStep(name, 0, len, done, out);
      return false, out;
    }
    LastStep(name, len, done, out);
    return true, [Count(len)] + out;
  }

  // ---------- the decoder ----------

  function ToLower(c: char): char {
    if 'A' <= c <= 'Z' then (c as int + 32) as char else c
  }

  // ngx_strlow
  function Lower(s: string): (r: string)
    ensures |r| == |s|
  {
    if s == "" then "" else [ToLower(s[0])] + Lower(s[1..])
  }

  // Capital letters become small ones, and nothing else changes.
  lemma {:induction false} LowerAt(s: string, i: nat)
    requires i < |s|
    ensures if 'A' <= s[i] <= 'Z' then Lower(s)[i] as int - 'a' as int == s[i] as int - 'A' as int
      else Lower(s)[i] == s[i]
  {
    if i > 0 { LowerAt(s[1..], i - 1); }
  }

  lemma {:induction false} LowerConcat(a: string, b: string)
    ensures Lower(a + b) == Lower(a) + Lower(b)
  {
    if a == "" {
      assert a + b == b;
    } else {
      assert (a + b)[1..] == a[1..] + b;
      LowerConcat(a[1..], b);
    }
  }

  // What the bytes at p say, with at most `left` length bytes: labels up to a zero, or a compression pointer
  // in place of a length, or nothing that makes sense
  datatype Parsed = Labels(labels: seq<string>) | Pointer | Invalid

  function More(l: string, p: Parsed): Parsed {
    if p.Labels? then Labels([l] + p.labels) else p
  }

  function Parse(buf: string, p: nat, left: nat): Parsed
    requires p < |buf|
    decreases left
  {
    if left == 0 then Invalid
    else
      var n := buf[p] as int;
      if n == 0 then Labels([])
      else if n >= 64 then Pointer
      else if p + 1 + n >= |buf| then Invalid
      else More(buf[p + 1..p + 1 + n], Parse(buf, p + 1 + n, left - 1))
  }

  // The length of a name, minus one for no labels at all
  ghost function NameSize(ls: seq<string>): int {
    if ls == [] then -1 else NameSize(ls[..|ls| - 1]) + 1 + |ls[|ls| - 1]|
  }

  // Which is the length of what is written
  lemma {:induction false} NameSizeIs(ls: seq<string>)
    ensures NameSize(ls) == |Behind(ls)| - 1
  {
    if ls != [] {
      var front, last := ls[..|ls| - 1], ls[|ls| - 1];
      NameSizeIs(front);
      assert ls == front + [last];
      BehindMore(front, last);
    }
  }

  datatype Copied = Read(name: string) | NoName | Compressed | Error

  // The first loop of ngx_resolver_copy: it checks the bytes and counts the length of the name.
  method Measure(buf: string, src: nat) returns (kind: Copied, len: int)
    requires src < |buf|
    ensures (match Parse(buf, src, 128)
             case Labels(ls) => kind == NoName && len == NameSize(ls)
             case Pointer => kind == Compressed
             case Invalid => kind == Error)
  {
    var p, i := src, 0;
    len := -1;
    ghost var before: seq<string>, whole := [], Parse(buf, src, 128);
    OntoNone(whole);
    while i < 128
      invariant 0 <= i <= 128 && 0 <= p < |buf| && len == NameSize(before)
      invariant whole == Onto(before, Parse(buf, p, 128 - i))
    {
      MeasureStep(buf, p, 128 - i, before);
      var n := buf[p] as int;
      if n == 0 { return NoName, len; }
      if n >= 64 { return Compressed, len; }
      if p + 1 + n >= |buf| { return Error, len; }
      before := before + [buf[p + 1..p + 1 + n]];
      len := len + 1 + n;
      p := p + 1 + n;
      i := i + 1;
    }
    return Error, len;
  }

  lemma OntoNone(p: Parsed)
    ensures Onto([], p) == p
  {
    if p.Labels? { assert [] + p.labels == p.labels; }
  }

  lemma MeasureStep(buf: string, p: nat, left: nat, before: seq<string>)
    requires p < |buf| && left > 0
    ensures (var n, r := buf[p] as int, Onto(before, Parse(buf, p, left));
             if n == 0 then r == Labels(before)
             else if n >= 64 then r == Pointer
             else if p + 1 + n >= |buf| then r == Invalid
             else
               var l := buf[p + 1..p + 1 + n];
               r == Onto(before + [l], Parse(buf, p + 1 + n, left - 1))
                   && NameSize(before + [l]) == NameSize(before) + 1 + n)
  {
    var n := buf[p] as int;
    if n == 0 {
      assert before + [] == before;
    } else if n < 64 && p + 1 + n < |buf| {
      OntoMore(before, buf[p + 1..p + 1 + n], Parse(buf, p + 1 + n, left - 1));
      SizeMore(before, buf[p + 1..p + 1 + n]);
    }
  }

  // Labels in front of what has been parsed
  ghost function Onto(before: seq<string>, p: Parsed): Parsed {
    if p.Labels? then Labels(before + p.labels) else p
  }

  lemma OntoMore(before: seq<string>, l: string, p: Parsed)
    ensures Onto(before, More(l, p)) == Onto(before + [l], p)
  {
    if p.Labels? { RegroupLabels(before, [l], p.labels); }
  }

  lemma SizeMore(ls: seq<string>, l: string)
    ensures NameSize(ls + [l]) == NameSize(ls) + 1 + |l|
  {
    assert (ls + [l])[..|ls|] == ls;
  }

  lemma {:induction false} BehindMore(ls: seq<string>, l: string)
    ensures |Behind(ls + [l])| == |Behind(ls)| + 1 + |l|
  {
    if ls == [] {
      assert ls + [l] == [l];
    } else {
      assert (ls + [l])[1..] == ls[1..] + [l];
      BehindMore(ls[1..], l);
      JoinSize(ls);
      JoinSize(ls + [l]);
    }
  }

  lemma JoinSize(ls: seq<string>)
    requires ls != []
    ensures |Join(ls)| == |ls[0]| + |Behind(ls[1..])|
  {}

  // The first of the labels that have been parsed
  lemma ParseFirst(buf: string, p: nat, left: nat, ls: seq<string>)
    requires p < |buf| && Parse(buf, p, left) == Labels(ls)
    ensures left > 0 && (buf[p] as int == 0 <==> ls == [])
    ensures (ls != [] ==>
             var n := buf[p] as int;
             && n < 64 && p + 1 + n < |buf| && buf[p + 1..p + 1 + n] == ls[0]
                 && Parse(buf, p + 1 + n, left - 1) == Labels(ls[1..]))
  {
    if ls != [] { assert ([ls[0]] + ls[1..])[1..] == ls[1..]; }
  }

  lemma LowerJoin(l: string, ls: seq<string>)
    ensures ls != [] ==> Lower(Join([l] + ls)) == Lower(l) + "." + Lower(Join(ls))
    ensures Lower(Join([l])) == Lower(l)
  {
    if ls != [] {
      JoinPush(ls, l);
      LowerConcat(l + ".", Join(ls));
      LowerConcat(l, ".");
      assert Lower(".") == ".";
    }
  }

  lemma CopyStep(name: string, rest: seq<string>, all: string)
    requires rest != [] && name + Lower(Join(rest)) == all
    ensures |rest| == 1 ==> name + Lower(rest[0]) == all
    ensures |rest| > 1 ==> name + Lower(rest[0]) + "." + Lower(Join(rest[1..])) == all
  {
    if |rest| > 1 {
      assert rest == [rest[0]] + rest[1..];
      LowerJoin(rest[0], rest[1..]);
      Append(name, Lower(rest[0]), Lower(Join(rest[1..])));
    }
  }

  lemma Append(a: string, b: string, c: string)
    ensures a + (b + "." + c) == a + b + "." + c
  {}

  // The second loop of ngx_resolver_copy
  method CopyLabels(buf: string, src: nat, ghost left0: nat, ghost ls: seq<string>) returns (name: string)
    requires src < |buf| && Parse(buf, src, left0) == Labels(ls) && ls != []
    ensures name == Lower(Join(ls))
  {
    name := "";
    var p := src;
    ghost var left, rest, all := left0, ls, Lower(Join(ls));
    ParseFirst(buf, p, left, rest);
    var n := buf[p] as int;
    while true
      invariant 0 <= p < |buf| && rest != [] && Parse(buf, p, left) == Labels(rest) && n == buf[p] as int
      invariant name + Lower(Join(rest)) == all
      decreases |rest|
    {
      ParseFirst(buf, p, left, rest);
      ghost var more := rest[1..];
      CopyStep(name, rest, all);
      name := name + Lower(buf[p + 1..p + 1 + n]);
      p := p + 1 + n;
      left := left - 1;
      ParseFirst(buf, p, left, more);
      n := buf[p] as int;
      if n == 0 { return; }
      name := name + ".";
      rest := more;
    }
  }

  // What is made of that
  function Decoded(p: Parsed): Copied {
    match p
    case Labels(ls) => if ls == [] then NoName else Read(Lower(Join(ls)))
    case Pointer => Compressed
    case Invalid => Error
  }

  // ngx_resolver_copy
  method Copy(buf: string, src: nat) returns (r: Copied)
    requires src < |buf|
    ensures r == Decoded(Parse(buf, src, 128))
  {
    var len;
    r, len := Measure(buf, src);
    if r != NoName { return; }
    ghost var ls := Parse(buf, src, 128).labels;
    NameSizeIs(ls);
    if len == -1 { return; }
    var name := CopyLabels(buf, src, 128, ls);
    return Read(name);
  }

  // ---------- the round trip ----------

  // At p, the bytes of the labels, and something behind them
  ghost predicate WireAt(buf: string, p: nat, ls: seq<string>)
    requires LabelsOk(ls, 255)
  {
    p + |Wire(ls)| <= |buf| && buf[p..p + |Wire(ls)|] == Wire(ls)
  }

  lemma WireParts(buf: string, p: nat, ls: seq<string>)
    requires LabelsOk(ls, 255) && WireAt(buf, p, ls)
    ensures p < |buf| && (ls == [] ==> buf[p] as int == 0)
    ensures (ls != [] ==>
             var n := |ls[0]|;
             && buf[p] as int == n && p + 1 + n < |buf| && buf[p + 1..p + 1 + n] == ls[0]
             && LabelsOk(ls[1..], 255) && WireAt(buf, p + 1 + n, ls[1..]))
  {
    var w := Wire(ls);
    assert buf[p] == buf[p..p + |w|][0];
    if ls != [] {
      var n, t := |ls[0]|, Wire(ls[1..]);
      assert w == [Count(n)] + ls[0] + t;
      assert |t| > 0;
      SubSlice(buf, p, w, 1, 1 + n);
      SubSlice(buf, p, w, 1 + n, |w|);
      assert w[1..1 + n] == ls[0] && w[1 + n..|w|] == t;
    }
  }

  lemma SubSlice(buf: string, p: nat, w: string, lo: nat, hi: nat)
    requires p + |w| <= |buf| && buf[p..p + |w|] == w && lo <= hi <= |w|
    ensures buf[p + lo..p + hi] == w[lo..hi]
  {
    forall i | lo <= i < hi ensures buf[p + i] == w[i] { assert buf[p..p + |w|][i] == buf[p + i]; }
    forall i | 0 <= i < hi - lo ensures buf[p + lo..p + hi][i]
        == w[lo..hi][i] { assert buf[p + lo..p + hi][i] == buf[p + (lo + i)]; }
  }

  // The labels come back exactly when none of them looks like a pointer and there are not too many, and else there are
  // no labels at all.
  lemma {:induction false} ParseWire(buf: string, p: nat, ls: seq<string>, left: nat)
    requires LabelsOk(ls, 255) && WireAt(buf, p, ls)
    ensures p < |buf| && (Parse(buf, p, left) == Labels(ls) <==> LabelsOk(ls, 63) && |ls| < left)
    ensures Parse(buf, p, left).Labels? <==> LabelsOk(ls, 63) && |ls| < left
    decreases |ls|
  {
    WireParts(buf, p, ls);
    if left > 0 && ls != [] && |ls[0]| < 64 {
      ParseWire(buf, p + 1 + |ls[0]|, ls[1..], left - 1);
      ShortLabels(ls);
      MoreIs(ls, Parse(buf, p + 1 + |ls[0]|, left - 1));
      assert Parse(buf, p, left) == More(ls[0], Parse(buf, p + 1 + |ls[0]|, left - 1));
    }
  }

  lemma MoreIs(ls: seq<string>, r: Parsed)
    requires ls != []
    ensures More(ls[0], r) == Labels(ls) <==> r == Labels(ls[1..])
  {
    assert ls == [ls[0]] + ls[1..];
    if r.Labels? { assert ([ls[0]] + r.labels)[1..] == r.labels; }
  }

  lemma ShortLabels(ls: seq<string>)
    requires ls != [] && LabelsOk(ls, 255)
    ensures LabelsOk(ls, 63) <==> |ls[0]| <= 63 && LabelsOk(ls[1..], 63)
  {
    assert forall i :: 1 <= i < |ls| ==> ls[i] == ls[1..][i - 1];
  }

  // What the decoder makes of an encoded name, whatever follows it: the name in lower case if and only if its labels
  // have at most 63 octets and there are at most 127 of them; else no name, but an error or what is taken for a
  // pointer.
  lemma RoundTrip(name: string, behind: string)
    requires Unfit(name) == {}
    ensures LabelsOk(Split(name), 255)
    ensures (var buf := Wire(Split(name)) + behind;
             |buf| > 0 &&
             var r := Decoded(Parse(buf, 0, 128));
             if LabelsOk(Split(name), 63) && |Split(name)| <= 127 then r == Read(Lower(name)) else
                 r == Compressed || r == Error)
  {
    FitIs(name);
    JoinSplit(name);
    var w := Wire(Split(name));
    assert (w + behind)[0..|w|] == w;
    ParseWire(w + behind, 0, Split(name), 128);
  }

  // The two operations one after the other: r is what comes back, or an error if the name is refused.
  method ThereAndBack(name: string, behind: string) returns (r: Copied)
    ensures r == Read(Lower(name)) <==> LabelsOk(Split(name), 63) && |Split(name)| <= 127
    ensures r != Read(Lower(name)) ==> r == Error || r == Compressed
  {
    var ok, wire := Encode(name);
    FitIs(name);
    if !ok { return Error; }
    RoundTrip(name, behind);
    r := Copy(wire + behind, 0);
  }

  // The condition matters: a label of 64 letters is written, and read as a compression pointer.
  lemma LongLabel()
    ensures (var name := seq(64, i => 'a');
             && Unfit(name) == {} && LabelsOk(Split(name), 255)
             && |Wire(Split(name))| > 0 && Decoded(Parse(Wire(Split(name)), 0, 128)) == Compressed)
  {
    var name := seq(64, i => 'a');
    SplitOne(name);
    FitIs(name);
    assert Wire([name])[0] == Count(64);
  }
}
