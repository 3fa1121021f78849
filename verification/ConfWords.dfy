/** What ngx_conf_read_token of ngx_conf_file.c makes of a text: words as they are written in a configuration
    file, bare or in quotes, with white space and comments around them, are read back. */
module ConfWords {
  import opened ConfToken

  // ---------- what is written ----------

  // A character of a word as it is written: one that stands for itself, or one behind a backslash
  datatype Atom = Chr(c: char) | Esc(c: char)

  // What may stand in a file between the ends of two directives; a comment goes to the end of its line.
  datatype Piece =
    | White(c: char)
    | Comment(line: string)
    | Bare(first: Atom, rest: seq<Atom>)
    | Quoted(quote: char, word: seq<Atom>)

  function One(a: Atom): string {
    match a
    case Chr(c) => [c]
    case Esc(c) => ['\\', c]
  }

  function Written(a: seq<Atom>): string {
    if a == [] then "" else One(a[0]) + Written(a[1..])
  }

  function Text(p: Piece): string {
    match p
    case White(c) => [c]
    case Comment(line) => ['#'] + line + ['\n']
    case Bare(first, rest) => Written([first] + rest)
    case Quoted(q, word) => [q] + Written(word) + [q]
  }

  function Texts(ps: seq<Piece>): string {
    if ps == [] then "" else Text(ps[0]) + Texts(ps[1..])
  }

  // ---------- what it means ----------

  // Behind a backslash a quote or a backslash is itself, three letters are control characters, and any other
  // character keeps the backslash.
  function Sense(a: Atom): string {
    match a
    case Chr(c) => [c]
    case Esc(c) =>
      if c == '"' || c == '\'' || c == '\\' then [c]
      else if c == 't' then "\t" else if c == 'r' then "\r" else if c == 'n' then "\n" else ['\\', c]
  }

  function Meant(a: seq<Atom>): string {
    if a == [] then "" else Sense(a[0]) + Meant(a[1..])
  }

  function Word(p: Piece): seq<string> {
    match p
    case White(_) => []
    case Comment(_) => []
    case Bare(first, rest) => [Meant([first] + rest)]
    case Quoted(_, word) => [Meant(word)]
  }

  function Words(ps: seq<Piece>): seq<string> {
    if ps == [] then [] else Word(ps[0]) + Words(ps[1..])
  }

  // ---------- what can be read back ----------

  // A dollar sign and the braces that follow it: an opening brace belongs to the word there.
  predicate Open(open: bool, a: Atom) {
    a == Chr('$') || (a == Chr('{') && open)
  }

  function Opens(open: bool, a: seq<Atom>): bool
    decreases |a|
  {
    if a == [] then open else Opens(Open(open, a[0]), a[1..])
  }

  // A character within a word; q is the quote of the word, or a space when it has none.
  predicate AtomOk(q: char, open: bool, a: Atom) {
    a.Chr? ==>
      && a.c != '\\'
      && if q == ' ' then a.c !in {' ', '\t', '\r', '\n', ';'} && (a.c == '{' ==> open) else a.c != q
  }

  predicate AtomsOk(q: char, open: bool, a: seq<Atom>)
    decreases |a|
  {
    a == [] || (AtomOk(q, open, a[0]) && AtomsOk(q, Open(open, a[0]), a[1..]))
  }

  predicate PieceOk(p: Piece) {
    match p
    case White(c) => c in {' ', '\t', '\r', '\n'}
    case Comment(line) => '\n' !in line
    case Bare(first, rest) =>
      && (first.Chr? ==> first.c !in {' ', '\t', '\r', '\n', ';', '{', '}', '#', '\\', '"', '\''})
      && AtomsOk(' ', false, rest)
    case Quoted(q, word) => (q == '"' || q == '\'') && AtomsOk(q, false, word)
  }

  // Where a text may end: where a word may start, behind a closing quote, or in a bare word, which may be open for a
  // brace
  datatype Place = Between | Behind | In(open: bool)

  function After(p: Piece): Place {
    match p
    case White(_) => Between
    case Comment(_) => Between
    case Bare(_, rest) => In(Opens(false, rest))
    case Quoted(_, _) => Behind
  }

  function Last(here: Place, ps: seq<Piece>): Place
    decreases |ps|
  {
    if ps == [] then here else Last(After(ps[0]), ps[1..])
  }

  // White space may follow anywhere, and a closing parenthesis may follow a closing quote.
  predicate Follows(here: Place, p: Piece) {
    p.White? || here == Between || (here == Behind && p.Bare? && p.first == Chr(')'))
  }

  // The distance from the start of the last word or comment, which has to fit the window
  function Distance(n: nat, p: Piece): nat {
    match p
    case White(_) => n + 1
    case Comment(line) => |line| + 2
    case Bare(first, rest) => |Written([first] + rest)|
    case Quoted(_, word) => |Written(word)| + 1
  }

  predicate Readable(here: Place, n: nat, ps: seq<Piece>)
    decreases |ps|
  {
    n < BUFFER && (ps == [] ||
                   (PieceOk(ps[0]) && Follows(here, ps[0]) && Readable(After(ps[0]), Distance(n, ps[0]), ps[1..])))
  }

  // ---------- the copying loop ----------

  lemma {:induction false} DecodeWritten(a: seq<Atom>)
    requires forall i :: 0 <= i < |a| ==> a[i] != Chr('\\')
    ensures Decode(Written(a)) == Meant(a)
  {
    if a != [] {
      var t := Written(a[1..]);
      DecodeWritten(a[1..]);
      match a[0]
      case Chr(c) =>
        assert ([c] + t)[1..] == t;
      case Esc(c) =>
        DecodeEsc(c, t);
    }
  }

  lemma DecodeEsc(c: char, t: string)
    ensures Decode(['\\', c] + t) == Sense(Esc(c)) + Decode(t)
  {
    var s := ['\\', c] + t;
    if Escaped(c) {
      assert s[2..] == t;
    } else {
      assert s[1..] == [c] + t && ([c] + t)[1..] == t;
      assert ['\\'] + ([c] + Decode(t)) == ['\\', c] + Decode(t);
    }
  }

  lemma {:induction false} NoBackslash(q: char, open: bool, a: seq<Atom>)
    requires AtomsOk(q, open, a)
    ensures forall i :: 0 <= i < |a| ==> a[i] != Chr('\\')
    decreases |a|
  {
    if a != [] {
      NoBackslash(q, Open(open, a[0]), a[1..]);
      assert forall i :: 0 < i < |a| ==> a[i] == a[1..][i - 1];
    }
  }

  // ---------- the tokenizer ----------

  // Within a word
  function Amid(q: char, pos: nat, start: nat, args: seq<string>, open: bool): Scan {
    Scan(pos, start, args, Flags(false, false, false, open, false, q == '\'', q == '"'))
  }

  function Stand(here: Place, pos: nat, start: nat, args: seq<string>): Scan {
    Scan(pos, start, args, Flags(here.Behind?, here.Between?, false, here.In? && here.open, false, false, false))
  }

  lemma RunAtom(text: string, q: char, pos: nat, start: nat, args: seq<string>, open: bool, a: Atom)
    requires start <= pos && q in {' ', '"', '\''} && AtomOk(q, open, a) && Has(text, pos, One(a))
        && pos + |One(a)| - start <= BUFFER
    ensures Astray(text, Amid(q, pos, start, args, open),
        Amid(q, pos + |One(a)|, start, args, Open(open, a))) == {}
  {
    var s := Amid(q, pos, start, args, open);
    HasAt(text, pos, One(a), 0);
    match a
    case Chr(c) =>
      RunStep(text, s, Amid(q, pos + 1, start, args, Open(open, a)));
    case Esc(c) =>
      var s1 := s.(pos := pos + 1, flags := s.flags.(variable := false, quoted := true));
      HasAt(text, pos, One(a), 1);
      RunStep(text, s, s1);
      RunStep(text, s1, Amid(q, pos + 2, start, args, false));
      Further(text, s, s1, Amid(q, pos + 2, start, args, false));
  }

  lemma {:induction false} RunAtoms(text: string, q: char, pos: nat, start: nat, args: seq<string>, open: bool,
      a: seq<Atom>, end: nat)
    requires start <= pos <= |text| && q in {' ', '"', '\''} && AtomsOk(q, open, a) && Has(text, pos, Written(a))
    requires end == pos + |Written(a)| && end - start <= BUFFER
    ensures Astray(text, Amid(q, pos, start, args, open), Amid(q, end, start, args, Opens(open, a))) == {}
    decreases |a|
  {
    if a == [] {
      Stay(text, Amid(q, pos, start, args, open));
    } else {
      var e, t := One(a[0]), Written(a[1..]);
      var mid := pos + |e|;
      HasParts(text, pos, e, t);
      RunAtom(text, q, pos, start, args, open, a[0]);
      RunAtoms(text, q, mid, start, args, Open(open, a[0]), a[1..], end);
      Further(text, Amid(q, pos, start, args, open), Amid(q, mid, start, args, Open(open, a[0])),
          Amid(q, end, start, args, Opens(open, a)));
    }
  }

  // The characters of a comment
  lemma {:induction false} RunLine(text: string, pos: nat, start: nat, args: seq<string>, line: string, end: nat)
    requires start <= pos <= |text| && '\n' !in line && Has(text, pos, line) && end == pos + |line|
        && end - start <= BUFFER
    ensures Astray(text, Remark(pos, start, args), Remark(end, start, args)) == {}
    decreases |line|
  {
    if line == "" {
      Stay(text, Remark(pos, start, args));
    } else {
      assert [line[0]] + line[1..] == line && line[0] in line && forall c :: c in line[1..] ==> c in line;
      HasParts(text, pos, [line[0]], line[1..]);
      HasAt(text, pos, [line[0]], 0);
      RunStep(text, Remark(pos, start, args), Remark(pos + 1, start, args));
      RunLine(text, pos + 1, start, args, line[1..], end);
      Further(text, Remark(pos, start, args), Remark(pos + 1, start, args), Remark(end, start, args));
    }
  }

  function Remark(pos: nat, start: nat, args: seq<string>): Scan {
    Scan(pos, start, args, Flags(false, true, true, false, false, false, false))
  }

  lemma RunComment(text: string, pos: nat, start: nat, args: seq<string>, line: string)
    requires start <= pos && pos - start < BUFFER && '\n' !in line && Has(text, pos, ['#'] + line + ['\n'])
        && |line| + 2 <= BUFFER
    ensures Astray(text, Stand(Between, pos, start, args), Stand(Between, pos + |line| + 2, pos, args)) == {}
  {
    var end := pos + 1 + |line|;
    HasParts(text, pos, ['#'] + line, ['\n']);
    HasParts(text, pos, ['#'], line);
    HasAt(text, pos, ['#'], 0);
    HasAt(text, end, ['\n'], 0);
    RunStep(text, Stand(Between, pos, start, args), Remark(pos + 1, pos, args));
    RunLine(text, pos + 1, pos, args, line, end);
    RunStep(text, Remark(end, pos, args), Stand(Between, end + 1, pos, args));
    Further(text, Stand(Between, pos, start, args), Remark(pos + 1, pos, args), Remark(end, pos, args));
    Further(text, Stand(Between, pos, start, args), Remark(end, pos, args), Stand(Between, end + 1, pos, args));
  }

  // The first character of a bare word
  lemma RunFirst(text: string, here: Place, pos: nat, start: nat, args: seq<string>, a: Atom)
    requires start <= pos && pos - start < BUFFER && Has(text, pos, One(a)) && !here.In?
    requires PieceOk(Bare(a, [])) && Follows(here, Bare(a, []))
    ensures Astray(text, Stand(here, pos, start, args), Amid(' ', pos + |One(a)|, pos, args, false)) == {}
  {
    var s := Stand(here, pos, start, args);
    HasAt(text, pos, One(a), 0);
    match a
    case Chr(c) =>
      RunStep(text, s, Amid(' ', pos + 1, pos, args, false));
    case Esc(c) =>
      var s1 := Scan(pos + 1, pos, args, Flags(false, false, false, false, true, false, false));
      HasAt(text, pos, One(a), 1);
      RunStep(text, s, s1);
      RunStep(text, s1, Amid(' ', pos + 2, pos, args, false));
      Further(text, s, s1, Amid(' ', pos + 2, pos, args, false));
  }

  lemma RunBare(text: string, here: Place, pos: nat, start: nat, args: seq<string>, first: Atom, rest: seq<Atom>,
      end: nat)
    requires start <= pos && pos - start < BUFFER && Has(text, pos, One(first) + Written(rest)) && !here.In?
    requires PieceOk(Bare(first, rest)) && Follows(here, Bare(first, rest))
    requires end == pos + |One(first) + Written(rest)| && end - pos <= BUFFER
    ensures Astray(text, Stand(here, pos, start, args), Amid(' ', end, pos, args, Opens(false, rest))) == {}
  {
    var mid := pos + |One(first)|;
    HasParts(text, pos, One(first), Written(rest));
    RunFirst(text, here, pos, start, args, first);
    RunAtoms(text, ' ', mid, pos, args, false, rest, end);
    Further(text, Stand(here, pos, start, args), Amid(' ', mid, pos, args, false),
        Amid(' ', end, pos, args, Opens(false, rest)));
  }

  lemma RunClosing(text: string, pos: nat, start: nat, args: seq<string>, open: bool, q: char, word: seq<Atom>)
    requires start <= pos < |text| && pos - start < BUFFER && text[pos] == q && text[start..pos] == Written(word)
    requires PieceOk(Quoted(q, word))
    ensures Astray(text, Amid(q, pos, start, args, open), Stand(Behind, pos + 1, start, args + [Meant(word)])) == {}
  {
    NoBackslash(q, false, word);
    DecodeWritten(word);
    assert Raw(text, Amid(q, pos, start, args, open)) == Written(word);
    RunStep(text, Amid(q, pos, start, args, open), Stand(Behind, pos + 1, start, args + [Meant(word)]));
  }

  lemma RunOpening(text: string, pos: nat, start: nat, args: seq<string>, q: char)
    requires start <= pos < |text| && pos - start < BUFFER && text[pos] == q && (q == '"' || q == '\'')
    ensures Astray(text, Stand(Between, pos, start, args), Amid(q, pos + 1, pos + 1, args, false)) == {}
  {
    RunStep(text, Stand(Between, pos, start, args), Amid(q, pos + 1, pos + 1, args, false));
  }

  lemma RunQuoted(text: string, pos: nat, start: nat, args: seq<string>, q: char, word: seq<Atom>, end: nat)
    requires start <= pos && pos - start < BUFFER && Has(text, pos, [q] + Written(word) + [q])
        && PieceOk(Quoted(q, word))
    requires end == pos + 1 + |Written(word)| && end - pos <= BUFFER
    ensures Astray(text, Stand(Between, pos, start, args), Stand(Behind, end + 1, pos + 1, args + [Meant(word)])) == {}
  {
    var s0, s1, s2 := Stand(Between, pos, start, args), Amid(q, pos + 1, pos + 1, args, false),
        Amid(q, end, pos + 1, args, Opens(false, word));
    QuotedParts(text, pos, q, Written(word));
    RunOpening(text, pos, start, args, q);
    RunAtoms(text, q, pos + 1, pos + 1, args, false, word, end);
    RunClosing(text, end, pos + 1, args, Opens(false, word), q, word);
    Further(text, s0, s1, s2);
    Further(text, s0, s2, Stand(Behind, end + 1, pos + 1, args + [Meant(word)]));
  }

  lemma QuotedParts(text: string, pos: nat, q: char, w: string)
    requires Has(text, pos, [q] + w + [q])
    ensures pos + |w| + 2 <= |text| && text[pos] == q && text[pos + 1 + |w|] == q && Has(text, pos + 1, w)
  {
    HasParts(text, pos, [q] + w, [q]);
    HasParts(text, pos, [q], w);
    HasAt(text, pos, [q], 0);
    HasAt(text, pos + 1 + |w|, [q], 0);
  }

  // ---------- pieces ----------

  // The words that have been read; a bare word is not over yet.
  function All(here: Place, args: seq<string>, word: string): seq<string> {
    if here.In? then args + [word] else args
  }

  // Where the tokenizer is: in a bare word, the text from its start on decodes to the word so far.
  predicate Here(text: string, here: Place, pos: nat, start: nat, word: string) {
    start <= pos <= |text| && (here.In? ==> Decode(text[start..pos]) == word)
  }

  lemma RunWhite(text: string, here: Place, pos: nat, start: nat, args: seq<string>, word: string)
    requires Here(text, here, pos, start, word) && pos < |text| && pos - start < BUFFER && PieceOk(White(text[pos]))
    ensures Astray(text, Stand(here, pos, start, args), Stand(Between, pos + 1, start, All(here, args, word))) == {}
  {
    RunStep(text, Stand(here, pos, start, args), Stand(Between, pos + 1, start, All(here, args, word)));
  }

  lemma RunPiece(text: string, here: Place, pos: nat, start: nat, args: seq<string>, word: string, p: Piece,
      end: nat) returns (start': nat, args': seq<string>, word': string)
    requires Here(text, here, pos, start, word) && pos - start < BUFFER && PieceOk(p) && Follows(here, p)
    requires Has(text, pos, Text(p)) && end == pos + |Text(p)| && Distance(pos - start, p) < BUFFER
    ensures Here(text, After(p), end, start', word') && end - start' == Distance(pos - start, p)
    ensures Astray(text, Stand(here, pos, start, args), Stand(After(p), end, start', args')) == {}
    ensures All(After(p), args', word') == All(here, args, word) + Word(p)
  {
    start', args', word' := start, args, word;
    match p
    case White(c) =>
      HasAt(text, pos, [c], 0);
      RunWhite(text, here, pos, start, args, word);
      args' := All(here, args, word);
    case Comment(line) =>
      RunComment(text, pos, start, args, line);
      start' := pos;
    case Bare(first, rest) =>
      assert ([first] + rest)[1..] == rest;
      RunBare(text, here, pos, start, args, first, rest, end);
      start' := pos;
      word' := Meant([first] + rest);
      NoBackslash(' ', false, rest);
      assert text[pos..end] == Written([first] + rest);
      DecodeWritten([first] + rest);
    case Quoted(q, word1) =>
      RunQuoted(text, pos, start, args, q, word1, end - 1);
      start' := pos + 1;
      args' := args + [Meant(word1)];
  }

  lemma {:induction false} RunPieces(text: string, here: Place, pos: nat, start: nat, args: seq<string>, word: string,
      ps: seq<Piece>, end: nat) returns (start': nat, args': seq<string>, word': string)
    requires Here(text, here, pos, start, word) && Readable(here, pos - start, ps)
    requires Has(text, pos, Texts(ps)) && end == pos + |Texts(ps)|
    ensures Here(text, Last(here, ps), end, start', word') && end - start' < BUFFER
    ensures Astray(text, Stand(here, pos, start, args), Stand(Last(here, ps), end, start', args')) == {}
    ensures All(Last(here, ps), args', word') == All(here, args, word) + Words(ps)
    decreases |ps|
  {
    if ps == [] {
      Stay(text, Stand(here, pos, start, args));
      start', args', word' := start, args, word;
    } else {
      var p, mid := ps[0], pos + |Text(ps[0])|;
      HasParts(text, pos, Text(p), Texts(ps[1..]));
      var start1, args1, word1 := RunPiece(text, here, pos, start, args, word, p, mid);
      start', args', word' := RunPieces(text, After(p), mid, start1, args1, word1, ps[1..], end);
      Further(text, Stand(here, pos, start, args), Stand(After(p), mid, start1, args1),
          Stand(Last(here, ps), end, start', args'));
      Regroup(All(here, args, word), Word(p), Words(ps[1..]));
    }
  }

  lemma Regroup(a: seq<string>, b: seq<string>, c: seq<string>)
    ensures a + b + c == a + (b + c)
  {}

  // ---------- how a directive ends ----------

  // What comes of the character that ends it
  function Verdict(here: Place, words: seq<string>, c: char): Code {
    if c == ';' && words != [] then Ok
    else if c == '{' && words != [] then BlockStart
    else if c == '}' && words == [] && here == Between then BlockDone
    else Unexpected
  }

  // A semicolon always ends it, an opening brace unless it belongs to the word, a closing brace outside of words, and
  // behind a closing quote everything but white space and a closing parenthesis.
  predicate Ends(here: Place, c: char) {
    match here
    case Between => c in {';', '{', '}'}
    case Behind => c !in {' ', '\t', '\r', '\n', ')'}
    case In(open) => c == ';' || (c == '{' && !open)
  }

  lemma RunEnd(text: string, here: Place, pos: nat, start: nat, args: seq<string>, word: string)
    requires Here(text, here, pos, start, word) && pos < |text| && pos - start < BUFFER && Ends(here, text[pos])
    requires here.Behind? ==> args != []
    ensures var all := All(here, args, word);
        Run(text, Stand(here, pos, start, args)) == Result(Verdict(here, all, text[pos]), all, pos + 1)
  {}

  lemma RunStop(text: string, here: Place, start: nat, args: seq<string>, word: string)
    requires Here(text, here, |text|, start, word) && (here.Behind? ==> args != [])
    ensures var r := Run(text, Stand(here, |text|, start, args));
        r.code == (if All(here, args, word) == [] then FileDone else UnexpectedEnd) && r.pos == |text|
  {}

  lemma {:induction false} BehindWords(here: Place, ps: seq<Piece>)
    ensures ps != [] && Last(here, ps).Behind? ==> Words(ps) != []
    decreases |ps|
  {
    if ps != [] {
      BehindWords(After(ps[0]), ps[1..]);
      assert |Words(ps)| == |Word(ps[0])| + |Words(ps[1..])|;
      assert ps[1..] == [] ==> Last(here, ps) == After(ps[0]);
    }
  }

  // Wherever the pieces stand, the tokenizer gets behind them with their words.
  lemma Arrives(text: string, p: nat, ps: seq<Piece>, end: nat) returns (start: nat, args: seq<string>, word: string)
    requires Readable(Between, 0, ps) && Has(text, p, Texts(ps)) && end == p + |Texts(ps)|
    ensures Here(text, Last(Between, ps), end, start, word) && end - start < BUFFER
    ensures Run(text, Initial(p)) == Run(text, Stand(Last(Between, ps), end, start, args))
    ensures All(Last(Between, ps), args, word) == Words(ps) && (Last(Between, ps).Behind? ==> args != [])
  {
    start, args, word := RunPieces(text, Between, p, p, [], "", ps, end);
    BehindWords(Between, ps);
    NotAstray(text, Initial(p), Stand(Last(Between, ps), end, start, args));
    assert [] + Words(ps) == Words(ps);
  }

  // Wherever it stands in the file, a text is read up to the character that ends the directive: the code tells how it
  // ends, the words are what was meant, and the next call starts behind that character.
  lemma Reads(before: string, ps: seq<Piece>, c: char, after: string)
    requires Readable(Between, 0, ps) && Ends(Last(Between, ps), c)
    ensures Run(before + Texts(ps) + [c] + after, Initial(|before|))
        == Result(Verdict(Last(Between, ps), Words(ps), c), Words(ps), |before| + |Texts(ps)| + 1)
  {
    var text, p, end := before + Texts(ps) + [c] + after, |before|, |before| + |Texts(ps)|;
    assert text[p..end] == Texts(ps) && text[end] == c;
    var start, args, word := Arrives(text, p, ps, end);
    RunEnd(text, Last(Between, ps), end, start, args, word);
  }

  // The file ends there: it is over, or words are left without an end.
  lemma ReadsToEnd(before: string, ps: seq<Piece>)
    requires Readable(Between, 0, ps)
    ensures var r := Run(before + Texts(ps), Initial(|before|));
        r.code == (if Words(ps) == [] then FileDone else UnexpectedEnd) && r.pos == |before| + |Texts(ps)|
  {
    var text, p, end := before + Texts(ps), |before|, |before| + |Texts(ps)|;
    assert text[p..end] == Texts(ps);
    var start, args, word := Arrives(text, p, ps, end);
    RunStop(text, Last(Between, ps), start, args, word);
  }

  // A dollar sign that starts a bare word does not keep the brace behind it: the word is over.
  lemma DollarFirst(before: string, after: string)
    ensures Run(before + "${" + after, Initial(|before|)) == Result(BlockStart, ["$"], |before| + 2)
  {
    var a, p := [Chr('$')], Bare(Chr('$'), []);
    assert a[1..] == [] && [Chr('$')] + [] == a && [p][1..] == [];
    assert Written(a) == One(a[0]) + Written(a[1..]) && Meant(a) == Sense(a[0]) + Meant(a[1..]);
    assert Texts([p]) == Text(p) + Texts([p][1..]) && Words([p]) == Word(p) + Words([p][1..]);
    assert Texts([p]) == "$" && Meant(a) == "$";
    assert Words([p]) == [Meant([Chr('$')] + [])];
    assert before + "$" + ['{'] + after == before + "${" + after;
    Reads(before, [p], '{', after);
  }

  // ---------- any word in double quotes ----------

  // The atoms for a word
  function Spell(w: string): seq<Atom> {
    if w == "" then [] else [if w[0] == '"' || w[0] == '\\' then Esc(w[0]) else Chr(w[0])] + Spell(w[1..])
  }

  // Each word in quotes with a space behind it
  function Spelled(words: seq<string>): seq<Piece> {
    if words == [] then [] else [Quoted('"', Spell(words[0])), White(' ')] + Spelled(words[1..])
  }

  // The words are not too long to be read.
  predicate Short(words: seq<string>) {
    forall i :: 0 <= i < |words| ==> |Written(Spell(words[i]))| + 2 < BUFFER
  }

  lemma {:induction false} SpellMeans(w: string)
    ensures Meant(Spell(w)) == w && AtomsOk('"', false, Spell(w))
  {
    SpellOk(false, w);
    if w != "" {
      SpellMeans(w[1..]);
      assert Spell(w)[1..] == Spell(w[1..]) && Sense(Spell(w)[0]) == [w[0]];
    }
  }

  lemma {:induction false} SpellOk(open: bool, w: string)
    ensures AtomsOk('"', open, Spell(w))
    decreases |w|
  {
    if w != "" {
      SpellOk(Open(open, Spell(w)[0]), w[1..]);
      assert Spell(w)[1..] == Spell(w[1..]);
    }
  }

  lemma {:induction false} SpelledReads(n: nat, words: seq<string>)
    requires n < BUFFER && Short(words)
    ensures Words(Spelled(words)) == words && Readable(Between, n, Spelled(words))
        && Last(Between, Spelled(words)) == Between
    decreases |words|
  {
    if words != [] {
      assert forall i :: 0 <= i < |words[1..]| ==> words[1..][i] == words[i + 1];
      SpelledReads(|Written(Spell(words[0]))| + 2, words[1..]);
      SpelledMore(n, words[0], Spelled(words[1..]));
    }
  }

  lemma SpelledMore(n: nat, w: string, t: seq<Piece>)
    requires n < BUFFER && Readable(Between, |Written(Spell(w))| + 2, t)
    ensures var ps := [Quoted('"', Spell(w)), White(' ')] + t;
        Words(ps) == [w] + Words(t) && Readable(Between, n, ps) && Last(Between, ps) == Last(Between, t)
  {
    var q, ps := Quoted('"', Spell(w)), [Quoted('"', Spell(w)), White(' ')] + t;
    SpellMeans(w);
    assert ps[1..] == [White(' ')] + t && ps[1..][1..] == t;
    assert Words(ps) == [w] + Words(ps[1..]) && Words(ps[1..]) == [] + Words(t);
  }

  // Any words can be written so that they read back unchanged.
  lemma ReadBack(before: string, words: seq<string>, after: string)
    requires words != [] && Short(words)
    ensures var text := Texts(Spelled(words));
        Run(before + text + ";" + after, Initial(|before|)) == Result(Ok, words, |before| + |text| + 1)
  {
    SpelledReads(0, words);
    Reads(before, Spelled(words), ';', after);
  }
}
