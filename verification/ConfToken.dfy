/** ngx_conf_read_token of ngx_conf_file.c: the words of a directive are read through a window of 4096 bytes
    over the file. */
module ConfToken {
  const BUFFER := 4096

  // ---------- escapes ----------

  // A backslash before one of these characters is an escape.
  predicate Escaped(c: char) {
    c == '"' || c == '\'' || c == '\\' || c == 't' || c == 'r' || c == 'n'
  }

  function Plain(c: char): char {
    if c == 't' then '\t' else if c == 'r' then '\r' else if c == 'n' then '\n' else c
  }

  // How much of a text is copied as the next character, and the character
  function Unit(s: string): (n: nat)
    requires s != ""
    ensures 1 <= n <= |s|
  {
    if s[0] == '\\' && |s| > 1 && Escaped(s[1]) then 2 else 1
  }

  function Next(s: string): char
    requires s != ""
  {
    if Unit(s) == 2 then Plain(s[1]) else s[0]
  }

  // What the copying loop makes of the text of a word
  function Decode(s: string): string {
    if s == "" then "" else [Next(s)] + Decode(s[Unit(s)..])
  }

  // The text ends after a backslash that takes the next character with it.
  function Hanging(s: string): bool {
    s != "" && !Hanging(s[..|s| - 1]) && s[|s| - 1] == '\\'
  }

  // Read from the front: a backslash and the character behind it are one unit.
  lemma {:induction false} HangingFront(s: string)
    ensures s != "" && s[0] != '\\' ==> Hanging(s) == Hanging(s[1..])
    ensures |s| >= 2 && s[0] == '\\' ==> Hanging(s) == Hanging(s[2..])
    ensures |s| == 1 ==> Hanging(s) == (s[0] == '\\')
  {
    if |s| >= 2 {
      var f := s[..|s| - 1];
      HangingFront(f);
      assert f[1..] == s[1..][..|s| - 2];
      if |s| >= 3 { assert f[2..] == s[2..][..|s| - 3]; }
    }
  }

  lemma HangingUnit(s: string)
    requires s != "" && !Hanging(s)
    ensures !Hanging(s[Unit(s)..]) && (s[0] == '\\' ==> |s| > 1)
  {
    HangingFront(s);
    if s[0] == '\\' && Unit(s) == 1 {
      HangingFront(s[1..]);
      assert s[1..][1..] == s[2..];
    }
  }

  // The copying loop as far as src: what it has made, and what it will make
  ghost predicate Copying(s: string, src: nat, word: string) {
    src <= |s| && !Hanging(s[src..]) && word + Decode(s[src..]) == Decode(s)
  }

  lemma CopyStep(s: string, src: nat, word: string)
    requires Copying(s, src, word) && src < |s|
    ensures (var n := Unit(s[src..]); src + n <= |s| && Copying(s, src + n, word + [Next(s[src..])]))
    ensures s[src] == '\\' ==> src + 1 < |s|
  {
    var rest := s[src..];
    HangingUnit(rest);
    assert rest[Unit(rest)..] == s[src + Unit(rest)..];
    assert word + ([Next(rest)] + Decode(rest[Unit(rest)..])) == word + [Next(rest)] + Decode(rest[Unit(rest)..]);
  }

  // The copying loop; it never runs past the end of the word.
  method DecodeWord(s: string) returns (word: string)
    requires !Hanging(s)
    ensures word == Decode(s)
  {
    word := "";
    var src := 0;
    assert s[0..] == s;
    while src < |s|
      invariant 0 <= src && Copying(s, src, word)
    {
      CopyStep(s, src, word);
      if s[src] == '\\' {
        var c := s[src + 1];
        if c == '"' || c == '\'' || c == '\\' {
          src := src + 1;
        } else if c == 't' || c == 'r' || c == 'n' {
          word := word + [if c == 't' then '\t' else if c == 'r' then '\r' else '\n'];
          src := src + 2;
          continue;
        }
      }
      word := word + [s[src]];
      src := src + 1;
    }
  }

  // ---------- the tokenizer over the whole text ----------

  // The flags of ngx_conf_read_token
  datatype Flags = Flags(
    needSpace: bool, lastSpace: bool, comment: bool, variable: bool, quoted: bool, single: bool, double: bool)

  // The state at the top of the loop; pos and start are positions in the text.
  datatype Scan = Scan(pos: nat, start: nat, args: seq<string>, flags: Flags)

  datatype Code = Ok | BlockStart | BlockDone | FileDone | Unexpected | UnexpectedEnd | TooLong
  datatype Result = Result(code: Code, args: seq<string>, pos: nat)

  // What becomes of a character
  datatype Turn = Go(next: Scan) | Stop(code: Code, args: seq<string>)

  predicate Space(c: char) {
    c == ' ' || c == '\t' || c == '\r' || c == '\n'
  }

  // A character at the start of a word
  function Begin(s: Scan, ch: char): Turn {
    var f := s.flags;
    var s' := s.(pos := s.pos + 1);
    if Space(ch) then Go(s')
    else if ch == ';' || ch == '{' then
      Stop(if s.args == [] then Unexpected else if ch == '{' then BlockStart else Ok, s.args)
    else if ch == '}' then Stop(if s.args != [] then Unexpected else BlockDone, s.args)
    else if ch == '#' then Go(s'.(start := s.pos, flags := f.(comment := true)))
    else if ch == '\\' then Go(s'.(start := s.pos, flags := f.(quoted := true, lastSpace := false)))
    else if ch == '"' then Go(s'.(start := s.pos + 1, flags := f.(double := true, lastSpace := false)))
    else if ch == '\'' then Go(s'.(start := s.pos + 1, flags := f.(single := true, lastSpace := false)))
    else Go(s'.(start := s.pos, flags := f.(lastSpace := false)))
  }

  // A character within a word; raw is the text of the word before it.
  function Within(s: Scan, ch: char, raw: string): Turn {
    var f := s.flags;
    var s' := s.(pos := s.pos + 1);
    if ch == '{' && f.variable then Go(s')
    else if ch == '\\' then Go(s'.(flags := f.(variable := false, quoted := true)))
    else if ch == '$' then Go(s'.(flags := f.(variable := true)))
    else if f.double then
      if ch == '"' then
        Go(s'.(args := s.args + [Decode(raw)], flags := f.(variable := false, double := false, needSpace := true)))
      else Go(s'.(flags := f.(variable := false)))
    else if f.single then
      if ch == '\'' then
        Go(s'.(args := s.args + [Decode(raw)], flags := f.(variable := false, single := false, needSpace := true)))
      else Go(s'.(flags := f.(variable := false)))
    else if ch == ';' then Stop(Ok, s.args + [Decode(raw)])
    else if ch == '{' then Stop(BlockStart, s.args + [Decode(raw)])
    else if Space(ch) then Go(s'.(args := s.args + [Decode(raw)], flags := f.(variable := false, lastSpace := true)))
    else Go(s'.(flags := f.(variable := false)))
  }

  // One turn of the loop
  function Step(s0: Scan, ch: char, raw: string): Turn {
    var f0 := s0.flags;
    var f := if ch == '\n' then f0.(comment := false) else f0;
    var s := s0.(flags := f);
    if f.comment then Go(s.(pos := s.pos + 1))
    else if f.quoted then Go(s.(pos := s.pos + 1, flags := f.(quoted := false)))
    else if f.needSpace then
      if Space(ch) then Go(s.(pos := s.pos + 1, flags := f.(lastSpace := true, needSpace := false)))
      else if ch == ';' then Stop(Ok, s.args)
      else if ch == '{' then Stop(BlockStart, s.args)
      else if ch == ')' then Begin(s.(flags := f.(lastSpace := true, needSpace := false)), ch)
      else Stop(Unexpected, s.args)
    else if f.lastSpace then Begin(s, ch)
    else Within(s, ch, raw)
  }

  // Where the scan may stand
  predicate ScanOk(text: string, s: Scan) {
    s.start <= s.pos <= |text|
  }

  function Raw(text: string, s: Scan): string
    requires ScanOk(text, s)
  {
    text[s.start..s.pos]
  }

  lemma StepOk(text: string, s: Scan)
    requires ScanOk(text, s) && s.pos < |text|
    ensures (var t := Step(s, text[s.pos], Raw(text, s)); t.Go? ==> ScanOk(text, t.next) && t.next.pos == s.pos + 1)
  {}

  // The tokenizer from a state on
  ghost function Run(text: string, s: Scan): Result
    requires ScanOk(text, s)
    decreases |text| - s.pos
  {
    if s.pos == |text| then Result(if s.args != [] || !s.flags.lastSpace then UnexpectedEnd else FileDone, s.args,
        s.pos)
    else if s.pos - s.start >= BUFFER then Result(TooLong, s.args, s.pos)
    else
      StepOk(text, s);
      match Step(s, text[s.pos], Raw(text, s))
      case Go(next) => Run(text, next)
      case Stop(code, args) => Result(code, args, s.pos + 1)
  }

  // The tokenizer without a window
  ghost function Whole(text: string, s: Scan): Result
    requires ScanOk(text, s)
    decreases |text| - s.pos
  {
    if s.pos == |text| then Result(if s.args != [] || !s.flags.lastSpace then UnexpectedEnd else FileDone, s.args,
        s.pos)
    else
      StepOk(text, s);
      match Step(s, text[s.pos], Raw(text, s))
      case Go(next) => Whole(text, next)
      case Stop(code, args) => Result(code, args, s.pos + 1)
  }

  // The window makes no difference unless a word, or a comment, or space, is too long.
  lemma {:induction false} RunIsWhole(text: string, s: Scan)
    requires ScanOk(text, s)
    ensures Run(text, s).code == TooLong || Run(text, s) == Whole(text, s)
    decreases |text| - s.pos
  {
    if s.pos < |text| && s.pos - s.start < BUFFER {
      StepOk(text, s);
      var t := Step(s, text[s.pos], Raw(text, s));
      if t.Go? { RunIsWhole(text, t.next); }
    }
  }

  function Initial(pos: nat): Scan {
    Scan(pos, pos, [], Flags(false, true, false, false, false, false, false))
  }

  // ---------- escapes stay in step ----------

  // Within a word, the flag `quoted` tells whether the text of the word ends in an open escape.
  predicate InStep(text: string, s: Scan) {
    && ScanOk(text, s)
    && (!s.flags.lastSpace && !s.flags.needSpace ==> !s.flags.comment && s.flags.quoted == Hanging(Raw(text, s)))
    && (s.flags.lastSpace || s.flags.needSpace ==> !s.flags.quoted)
  }

  lemma HangingMore(text: string, lo: nat, hi: nat)
    requires lo <= hi < |text|
    ensures Hanging(text[lo..hi + 1]) == (!Hanging(text[lo..hi]) && text[hi] == '\\')
  {
    var t := text[lo..hi + 1];
    assert t[..|t| - 1] == text[lo..hi];
  }

  lemma BeginInStep(text: string, s: Scan)
    requires ScanOk(text, s) && s.pos < |text| && s.flags.lastSpace && !s.flags.needSpace && !s.flags.quoted
        && !s.flags.comment
    ensures (var t := Begin(s, text[s.pos]); t.Go? ==> InStep(text, t.next))
  {
    HangingMore(text, s.pos, s.pos);
    assert text[s.pos..s.pos] == "" && text[s.pos + 1..s.pos + 1] == "";
  }

  lemma WithinInStep(text: string, s: Scan)
    requires InStep(text, s) && s.pos < |text| && !s.flags.lastSpace && !s.flags.needSpace && !s.flags.quoted
    ensures !Hanging(Raw(text, s))
    ensures (var t := Within(s, text[s.pos], Raw(text, s)); t.Go? ==> InStep(text, t.next))
  {
    HangingMore(text, s.start, s.pos);
  }

  lemma StepInStep(text: string, s: Scan)
    requires InStep(text, s) && s.pos < |text|
    ensures (var t := Step(s, text[s.pos], Raw(text, s)); t.Go? ==> InStep(text, t.next))
    ensures !s.flags.lastSpace && !s.flags.needSpace && !s.flags.quoted ==> !Hanging(Raw(text, s))
  {
    var f, ch := s.flags, text[s.pos];
    var f' := if ch == '\n' then f.(comment := false) else f;
    if f'.comment || f'.quoted {
      HangingMore(text, s.start, s.pos);
    } else if f'.needSpace {
      if ch == ')' { BeginInStep(text, s.(flags := f'.(lastSpace := true, needSpace := false))); }
    } else if f'.lastSpace {
      BeginInStep(text, s.(flags := f'));
    } else {
      WithinInStep(text, s);
    }
  }

  // ---------- runs ----------

  // Empty when the tokenizer comes from the state s to the state s'
  ghost function Astray(text: string, s: Scan, s': Scan): set<Scan> {
    set x | x in {s'} && !(ScanOk(text, s) && ScanOk(text, x) && Run(text, s) == Run(text, x))
  }

  lemma NotAstray(text: string, s: Scan, s': Scan)
    ensures Astray(text, s, s') == {} <==> ScanOk(text, s) && ScanOk(text, s') && Run(text, s) == Run(text, s')
  {
    assert s' in Astray(text, s, s') <==> !(ScanOk(text, s) && ScanOk(text, s') && Run(text, s) == Run(text, s'));
  }

  lemma Further(text: string, s: Scan, s': Scan, s'': Scan)
    requires Astray(text, s, s') == {} && Astray(text, s', s'') == {}
    ensures Astray(text, s, s'') == {}
  {
    NotAstray(text, s, s');
    NotAstray(text, s', s'');
    NotAstray(text, s, s'');
  }

  // One step of the tokenizer
  lemma RunStep(text: string, s: Scan, s': Scan)
    requires ScanOk(text, s) && s.pos < |text| && s.pos - s.start < BUFFER
        && Step(s, text[s.pos], Raw(text, s)) == Go(s')
    ensures Astray(text, s, s') == {}
  {
    StepOk(text, s);
    NotAstray(text, s, s');
  }

  // The text from p on starts with t.
  predicate Has(text: string, p: nat, t: string) {
    p + |t| <= |text| && text[p..p + |t|] == t
  }

  lemma HasAt(text: string, p: nat, t: string, i: nat)
    requires Has(text, p, t) && i < |t|
    ensures text[p + i] == t[i]
  {
    assert text[p..p + |t|][i] == text[p + i];
  }

  lemma HasParts(text: string, p: nat, e: string, t: string)
    requires Has(text, p, e + t)
    ensures Has(text, p, e) && Has(text, p + |e|, t)
  {
    var x := text[p..p + |e + t|];
    assert x[..|e|] == text[p..p + |e|] && x[|e|..] == text[p + |e|..p + |e| + |t|];
    assert (e + t)[..|e|] == e && (e + t)[|e|..] == t;
  }

  lemma Stay(text: string, s: Scan)
    requires ScanOk(text, s)
    ensures Astray(text, s, s) == {}
  {
    NotAstray(text, s, s);
  }

  // ---------- ngx_conf_read_token ----------

  // The word between start and ch is copied to the arguments.
  method Push(s: Scan, raw: string) returns (args: seq<string>)
    requires !Hanging(raw)
    ensures args == s.args + [Decode(raw)]
  {
    var word := DecodeWord(raw);
    args := s.args + [word];
  }

  // The last part of the loop body: a character within a word
  method TakeWithin(s: Scan, ch: char, raw: string) returns (t: Turn)
    requires !Hanging(raw)
    ensures t == Within(s, ch, raw)
  {
    var f, args := s.flags, s.args;
    if ch == '{' && f.variable { return Go(s.(pos := s.pos + 1)); }
    f := f.(variable := false);
    if ch == '\\' { return Go(s.(pos := s.pos + 1, flags := f.(quoted := true))); }
    if ch == '$' { return Go(s.(pos := s.pos + 1, flags := f.(variable := true))); }
    var found := false;
    if f.double {
      if ch == '"' {
        f := f.(double := false, needSpace := true);
        found := true;
      }
    } else if f.single {
      if ch == '\'' {
        f := f.(single := false, needSpace := true);
        found := true;
      }
    } else if ch == ' ' || ch == '\t' || ch == '\r' || ch == '\n' || ch == ';' || ch == '{' {
      f := f.(lastSpace := true);
      found := true;
    }
    if found {
      args := Push(s, raw);
      if ch == ';' { return Stop(Ok, args); }
      if ch == '{' { return Stop(BlockStart, args); }
    }
    return Go(s.(pos := s.pos + 1, args := args, flags := f));
  }

  // The middle part: a character where a word may start
  method TakeBegin(s: Scan, ch: char) returns (t: Turn)
    ensures t == Begin(s, ch)
  {
    var f, start := s.flags, s.start;
    if !(ch == ' ' || ch == '\t' || ch == '\r' || ch == '\n') {
      start := s.pos;
      match ch {
        case ';' => return Stop(if s.args == [] then Unexpected else Ok, s.args);
        case '{' => return Stop(if s.args == [] then Unexpected else BlockStart, s.args);
        case '}' => return Stop(if s.args != [] then Unexpected else BlockDone, s.args);
        case '#' => f := f.(comment := true);
        case '\\' => f := f.(quoted := true, lastSpace := false);
        case '"' =>
          start := start + 1;
          f := f.(double := true, lastSpace := false);
        case '\'' =>
          start := start + 1;
          f := f.(single := true, lastSpace := false);
        case _ => f := f.(lastSpace := false);
      }
    }
    return Go(s.(pos := s.pos + 1, start := start, flags := f));
  }

  // The loop body once a character has been read
  method Take(s0: Scan, ch: char, raw: string) returns (t: Turn)
    requires !s0.flags.lastSpace && !s0.flags.needSpace && !s0.flags.quoted ==> !Hanging(raw)
    ensures t == Step(s0, ch, raw)
  {
    var s := s0;
    if ch == '\n' && s.flags.comment { s := s.(flags := s.flags.(comment := false)); }
    if s.flags.comment { return Go(s.(pos := s.pos + 1)); }
    if s.flags.quoted { return Go(s.(pos := s.pos + 1, flags := s.flags.(quoted := false))); }
    if s.flags.needSpace {
      if ch == ' ' || ch == '\t' || ch == '\r' || ch == '\n' {
        return Go(s.(pos := s.pos + 1, flags := s.flags.(lastSpace := true, needSpace := false)));
      }
      if ch == ';' { return Stop(Ok, s.args); }
      if ch == '{' { return Stop(BlockStart, s.args); }
      if ch == ')' {
        s := s.(flags := s.flags.(lastSpace := true, needSpace := false));
      } else {
        return Stop(Unexpected, s.args);
      }
    }
    if s.flags.lastSpace { t := TakeBegin(s, ch); } else { t := TakeWithin(s, ch, raw); }
  }

  // Empty when the tokenizer comes from the state `whole` to a state in step
  ghost function Lost(text: string, whole: Scan, here: Scan): set<Scan> {
    set x | x in {here} && !(InStep(text, x) && Astray(text, whole, x) == {})
  }

  lemma NotLost(text: string, whole: Scan, here: Scan)
    ensures Lost(text, whole, here) == {} <==> InStep(text, here) && Astray(text, whole, here) == {}
  {
    assert here in Lost(text, whole, here) <==> !(InStep(text, here) && Astray(text, whole, here) == {});
  }

  lemma NotLostYet(text: string, p: nat)
    requires p <= |text|
    ensures Lost(text, Initial(p), Initial(p)) == {}
  {
    Stay(text, Initial(p));
    NotLost(text, Initial(p), Initial(p));
  }

  // The result, when there is no character to be read
  lemma Outcome(text: string, whole: Scan, here: Scan)
    requires Lost(text, whole, here) == {}
    ensures ScanOk(text, whole) && ScanOk(text, here)
    ensures (here.pos == |text| ==>
             Run(text, whole) == Result(if here.args != [] || !here.flags.lastSpace then UnexpectedEnd else FileDone,
                 here.args, here.pos))
    ensures here.pos < |text| && here.pos - here.start >= BUFFER
        ==> Run(text, whole) == Result(TooLong, here.args, here.pos)
  {
    NotLost(text, whole, here);
    NotAstray(text, whole, here);
  }

  // Positions in the window and in the file
  function Shift(s: Scan, d: nat): Scan {
    s.(pos := s.pos + d, start := s.start + d)
  }

  lemma StepShift(s: Scan, d: nat, ch: char, raw: string)
    ensures (var t, t' := Step(s, ch, raw), Step(Shift(s, d), ch, raw);
             if t.Go? then t' == Go(Shift(t.next, d)) else t' == t)
  {}

  // Empty when the first `last` characters of the window are the text before the offset
  ghost function Blurred(b: string, text: string, last: nat, offset: nat): set<string> {
    set x | x in {b} && !(last <= |x| && last <= offset <= |text| && x[..last] == text[offset - last..offset])
  }

  lemma Sharp(b: string, text: string, last: nat, offset: nat)
    ensures Blurred(b, text, last, offset) == {} <==>
      last <= |b| && last <= offset <= |text| && b[..last] == text[offset - last..offset]
  {
    assert b in Blurred(b, text, last, offset) <==>
      !(last <= |b| && last <= offset <= |text| && b[..last] == text[offset - last..offset]);
  }

  lemma EmptyWindow(b: string, text: string)
    ensures Blurred(b, text, 0, 0) == {}
  {
    assert b[..0] == "" && text[0..0] == "";
    Sharp(b, text, 0, 0);
  }

  // A character in the window does what the same character in the file does.
  lemma ReadFacts(text: string, whole: Scan, s: Scan, base: nat, ch: char, raw: string)
    requires Lost(text, whole, Shift(s, base)) == {} && s.start <= s.pos && s.pos - s.start < BUFFER
        && base + s.pos < |text|
    requires ch == text[base + s.pos] && raw == text[base + s.start..base + s.pos]
    ensures ScanOk(text, whole) && (!s.flags.lastSpace && !s.flags.needSpace && !s.flags.quoted ==> !Hanging(raw))
    ensures (var t := Step(s, ch, raw);
             && (t.Go? ==>
                 Lost(text, whole, Shift(t.next, base)) == {} && t.next.pos == s.pos + 1 && t.next.start <= s.pos + 1)
             && (t.Stop? ==> Run(text, whole) == Result(t.code, t.args, base + s.pos + 1)))
  {
    var here, t := Shift(s, base), Step(s, ch, raw);
    NotLost(text, whole, here);
    assert text[here.pos] == ch && Raw(text, here) == raw;
    StepInStep(text, here);
    StepShift(s, base, ch, raw);
    if t.Go? {
      LostStep(text, whole, here, Shift(t.next, base));
    } else {
      LostStop(text, whole, here, t);
    }
  }

  lemma LostStep(text: string, whole: Scan, here: Scan, next: Scan)
    requires Astray(text, whole, here) == {} && ScanOk(text, here) && here.pos < |text|
        && here.pos - here.start < BUFFER
    requires Step(here, text[here.pos], Raw(text, here)) == Go(next) && InStep(text, next)
    ensures Lost(text, whole, next) == {} && ScanOk(text, whole)
  {
    RunStep(text, here, next);
    Further(text, whole, here, next);
    NotLost(text, whole, next);
    NotAstray(text, whole, here);
  }

  lemma LostStop(text: string, whole: Scan, here: Scan, t: Turn)
    requires Astray(text, whole, here) == {} && ScanOk(text, here) && here.pos < |text|
        && here.pos - here.start < BUFFER
    requires Step(here, text[here.pos], Raw(text, here)) == t && t.Stop?
    ensures ScanOk(text, whole) && Run(text, whole) == Result(t.code, t.args, here.pos + 1)
  {
    NotAstray(text, whole, here);
  }

  class ConfFile {
    const text: string
    const buffer: array<char>
    var pos: nat
    var last: nat
    var offset: nat

    // The window holds the part of the file that ends at offset.
    ghost predicate Valid()
      reads this, buffer
    {
      && buffer.Length == BUFFER && pos <= last <= BUFFER && last <= offset <= |text|
      && Blurred(buffer[..], text, last, offset) == {}
    }

    // The position in the file
    ghost function At(): nat
      reads this
      requires pos <= last <= offset
    {
      offset - last + pos
    }

    constructor (text: string, buffer: array<char>)
      requires buffer.Length == BUFFER
      ensures Valid() && this.text == text && this.buffer == buffer && At() == 0
    {
      this.text, this.buffer := text, buffer;
      pos, last, offset := 0, 0, 0;
      new;
      EmptyWindow(buffer[..], text);
    }

    // ngx_memmove(b->start, start, len)
    method MoveFront(start: nat, len: nat)
      requires start + len <= buffer.Length
      modifies buffer
      ensures buffer[..][..len] == old(buffer[..])[start..start + len]
    {
      ghost var before := buffer[..];
      forall i | 0 <= i < len { buffer[i] := buffer[start + i]; }
      forall i | 0 <= i < len ensures buffer[..][i] == before[start + i] {}
    }

    // ngx_read_file(file, b->start + at, n, file->offset)
    method ReadFile(at: nat, n: nat)
      requires at + n <= buffer.Length && offset + n <= |text|
      modifies buffer
      ensures buffer[..][..at] == old(buffer[..])[..at] && buffer[..][at..at + n] == text[offset..offset + n]
    {
      ghost var before := buffer[..];
      forall i | at <= i < at + n { buffer[i] := text[offset + (i - at)]; }
      forall i | 0 <= i < at ensures buffer[..][i] == before[i] {}
      forall i | at <= i < at + n ensures buffer[..][i] == text[offset + (i - at)] {}
      assert buffer[..][at..at + n] == text[offset..offset + n];
    }

    // The window moves on: the word that has been started is kept at its front.
    method Refill(start: nat)
      requires Valid() && pos == last && offset < |text| && start <= pos && pos - start < BUFFER
      modifies this`pos, this`last, this`offset, buffer
      ensures Valid() && pos < last && pos == old(pos) - start && At() == old(At())
    {
      var len := pos - start;
      ghost var b0 := buffer[..];
      MoveFront(start, len);
      ghost var b1 := buffer[..];
      var size := |text| - offset;
      if size > BUFFER - len { size := BUFFER - len; }
      ReadFile(len, size);
      Moved(b0, b1, buffer[..], text, start, last, offset, size);
      pos := len;
      last := pos + size;
      offset := offset + size;
    }

    // One turn: a character is read from the window.
    method Read(s: Scan, ghost whole: Scan) returns (t: Turn)
      requires Valid() && pos < last && s.pos == pos && s.start <= pos
          && Lost(text, whole, Shift(s, offset - last)) == {}
      modifies this`pos
      ensures Valid() && pos == old(pos) + 1 && ScanOk(text, whole)
      ensures t.Go? ==>
          Lost(text, whole, Shift(t.next, offset - last)) == {} && t.next.pos == pos && t.next.start <= pos
      ensures t.Stop? ==> Run(text, whole) == Result(t.code, t.args, offset - last + pos)
    {
      ghost var base := offset - last;
      Window(buffer[..], text, last, offset, s.start, pos);
      var raw := buffer[s.start..pos];
      var ch := buffer[pos];
      ReadFacts(text, whole, s, base, ch, raw);
      t := Take(s, ch, raw);
      pos := pos + 1;
    }

    // ngx_conf_read_token
    method ReadToken() returns (r: Result)
      requires Valid()
      modifies this`pos, this`last, this`offset, buffer
      ensures Valid() && r == Run(text, Initial(old(At()))) && At() == r.pos
    {
      var s := Initial(pos);
      ghost var whole := Initial(At());
      assert Shift(s, offset - last) == whole;
      NotLostYet(text, At());
      while true
        invariant Valid() && s.pos == pos && s.start <= pos
        invariant Lost(text, whole, Shift(s, offset - last)) == {}
        decreases |text| - (offset - last + pos)
      {
        ghost var here := Shift(s, offset - last);
        if pos >= last {
          Outcome(text, whole, here);
          if offset >= |text| {
            return Result(if s.args != [] || !s.flags.lastSpace then UnexpectedEnd else FileDone, s.args,
                offset - last + pos);
          }
          if pos - s.start == BUFFER { return Result(TooLong, s.args, offset - last + pos); }
          Refill(s.start);
          s := s.(pos := pos, start := 0);
          assert Shift(s, offset - last) == here;
        }
        var t := Read(s, whole);
        if t.Stop? { return Result(t.code, t.args, offset - last + pos); }
        s := t.next;
      }
    }
  }

  lemma Moved(b0: string, b1: string, b2: string, text: string, start: nat, last: nat, offset: nat, size: nat)
    requires start <= last <= |b0| == |b1| == |b2| && last <= offset && offset + size <= |text|
        && last - start + size <= |b0|
    requires Blurred(b0, text, last, offset) == {} && b1[..last - start] == b0[start..last]
    requires b2[..last - start] == b1[..last - start] && b2[last - start..last - start + size]
        == text[offset..offset + size]
    ensures Blurred(b2, text, last - start + size, offset + size) == {}
  {
    Sharp(b0, text, last, offset);
    Slice(b0, text, last, offset, start);
    Joined(b2, text, last - start, size, offset);
    Sharp(b2, text, last - start + size, offset + size);
  }

  // What the window shows between two of its positions
  lemma Window(b: string, text: string, last: nat, offset: nat, lo: nat, hi: nat)
    requires Blurred(b, text, last, offset) == {} && lo <= hi < last <= offset <= |text|
    ensures last <= |b| && b[lo..hi] == text[offset - last + lo..offset - last + hi]
        && b[hi] == text[offset - last + hi]
  {
    Sharp(b, text, last, offset);
    var base := offset - last;
    forall i | lo <= i <= hi ensures b[i] == text[base + i] {
      assert b[i] == b[..last][i] && text[base + i] == text[base..offset][i];
    }
    forall i | 0 <= i < hi - lo ensures b[lo..hi][i] == text[base + lo..base + hi][i] {
      assert b[lo..hi][i] == b[lo + i];
    }
  }

  // The end of the window is the text before the offset.
  lemma Slice(buffer: string, text: string, last: nat, offset: nat, start: nat)
    requires start <= last <= |buffer| && last <= offset <= |text| && buffer[..last] == text[offset - last..offset]
    ensures buffer[start..last] == text[offset - (last - start)..offset]
  {
    assert buffer[start..last] == buffer[..last][start..];
    assert text[offset - (last - start)..offset] == text[offset - last..offset][start..];
  }

  lemma Joined(buffer: string, text: string, len: nat, size: nat, offset: nat)
    requires len + size <= |buffer| && len <= offset && offset + size <= |text|
    requires buffer[..len] == text[offset - len..offset] && buffer[len..len + size] == text[offset..offset + size]
    ensures buffer[..len + size] == text[offset - len..offset + size]
  {
    assert buffer[..len + size] == buffer[..len] + buffer[len..len + size];
    assert text[offset - len..offset + size] == text[offset - len..offset] + text[offset..offset + size];
  }
}
