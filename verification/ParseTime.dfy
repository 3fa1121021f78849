/** ngx_parse_time of ngx_parse.c: "1h 30m" in seconds or milliseconds, with guards against overflow. */
module ParseTime {
  // ngx_int_t
  newtype int64 = x: int | -0x8000_0000_0000_0000 <= x < 0x8000_0000_0000_0000

  // NGX_MAX_INT_T_VALUE
  const MAX := 9223372036854775807

  datatype Option<T> = None | Some(value: T)

  // The steps st_start to st_last; a unit must come after the one before it.
  const START := 0
  const YEAR := 1
  const MONTH := 2
  const WEEK := 3
  const DAY := 4
  const HOUR := 5
  const MIN := 6
  const SEC := 7
  const MSEC := 8
  const LAST := 9

  // ---------- the time that is meant ----------

  // The unit at p: the step that it leads to, its length in seconds or milliseconds, and its letters
  datatype Unit = Unit(step: int, scale: nat, letters: nat)

  function Later(step: int, before: int, unit: Unit): Option<Unit> {
    if step >= before then None else Some(unit)
  }

  function UnitAt(line: string, p: nat, sec: bool, step: int): Option<Unit>
    requires p < |line|
  {
    var k := if sec then 1 else 1000;
    match line[p]
    case 'y' => Later(step, YEAR, Unit(YEAR, 31536000 * k, 1))
    case 'M' => Later(step, MONTH, Unit(MONTH, 2592000 * k, 1))
    case 'w' => Later(step, WEEK, Unit(WEEK, 604800 * k, 1))
    case 'd' => Later(step, DAY, Unit(DAY, 86400 * k, 1))
    case 'h' => Later(step, HOUR, Unit(HOUR, 3600 * k, 1))
    case 'm' =>
      if p + 1 < |line| && line[p + 1] == 's' then (if sec then None else Later(step, MSEC, Unit(MSEC, 1, 2)))
      else Later(step, MIN, Unit(MIN, 60 * k, 1))
    case 's' => Later(step, SEC, Unit(SEC, k, 1))
    case ' ' => Later(step, SEC, Unit(LAST, k, 1))
    case _ => None
  }

  predicate Digit(c: char) {
    '0' <= c <= '9'
  }

  // The position after spaces
  function Skip(line: string, p: nat): (q: nat)
    requires p <= |line|
    ensures p <= q <= |line|
    decreases |line| - p
  {
    if p < |line| && line[p] == ' ' then Skip(line, p + 1) else p
  }

  ghost function Times(value: nat, scale: nat): nat {
    value * scale
  }

  // The number before the next unit, the sum so far, and whether there was any digit, in integers without bounds
  ghost function Time(line: string, p: nat, sec: bool, step: int, value: nat, total: nat, valid: bool): Option<nat>
    requires p <= |line|
    decreases |line| - p
  {
    if p == |line| then (if valid then Some(total + (if sec then value else value * 1000)) else None)
    else if Digit(line[p]) then Time(line, p + 1, sec, step, value * 10 + (line[p] as int - '0' as int), total, true)
    else
      var u := UnitAt(line, p, sec, step);
      if u.None? then None
      else Time(line, Skip(line, p + u.value.letters), sec, u.value.step, 0, total + Times(value, u.value.scale), valid)
  }

  ghost function Meant(line: string, sec: bool): Option<nat> {
    Time(line, 0, sec, if sec then START else MONTH, 0, 0, false)
  }

  // What has become too much stays too much.
  lemma {:induction false} TooMuch(line: string, p: nat, sec: bool, step: int, value: nat, total: nat, valid: bool)
    requires p <= |line| && (value > MAX || total > MAX)
    ensures var t := Time(line, p, sec, step, value, total, valid); t.None? || t.value > MAX
    decreases |line| - p
  {
    if p < |line| {
      if Digit(line[p]) {
        TooMuch(line, p + 1, sec, step, value * 10 + (line[p] as int - '0' as int), total, true);
      } else {
        var u := UnitAt(line, p, sec, step);
        if u.Some? {
          assert Times(value, u.value.scale) >= value;
          TooMuch(line, Skip(line, p + u.value.letters), sec, u.value.step, 0, total + Times(value, u.value.scale),
              valid);
        }
      }
    }
  }

  // ---------- times as they are written ----------

  // A number, its unit (a step from YEAR to MSEC) and the spaces after it
  datatype Part = Part(value: nat, unit: int, spaces: nat)

  ghost function Decimal(n: nat): (s: string)
    ensures |s| > 0 && forall i :: 0 <= i < |s| ==> Digit(s[i])
  {
    (if n < 10 then [] else Decimal(n / 10)) + [('0' as int + n % 10) as char]
  }

  ghost function Letters(unit: int): (s: string)
    ensures |s| > 0
  {
    if unit == YEAR then "y" else if unit == MONTH then "M" else if unit == WEEK then "w" else if unit == DAY then "d"
    else if unit == HOUR then "h" else if unit == MIN then "m" else if unit == SEC then "s" else "ms"
  }

  ghost function Seconds(unit: int): nat {
    if unit == YEAR then 365 * 86400 else if unit == MONTH then 30 * 86400 else if unit == WEEK then 7 * 86400
    else if unit == DAY then 86400 else if unit == HOUR then 3600 else if unit == MIN then 60 else 1
  }

  // The length of a unit, in seconds or in milliseconds
  ghost function Scale(unit: int, sec: bool): nat {
    if sec || unit == MSEC then Seconds(unit) else Seconds(unit) * 1000
  }

  ghost function Amount(value: nat, unit: int, sec: bool): nat {
    Times(value, Scale(unit, sec))
  }

  ghost function Spaces(n: nat): (s: string)
    ensures |s| == n && forall i :: 0 <= i < n ==> s[i] == ' '
  {
    seq(n, _ => ' ')
  }

  ghost function Written(parts: seq<Part>): string {
    if parts == [] then "" else
      Decimal(parts[0].value) + (Letters(parts[0].unit) + (Spaces(parts[0].spaces) + Written(parts[1..])))
  }

  ghost function Sum(parts: seq<Part>, sec: bool): nat {
    if parts == [] then 0 else Amount(parts[0].value, parts[0].unit, sec) + Sum(parts[1..], sec)
  }

  // From the largest unit to the smallest, none of them before or at the step; milliseconds only where they count
  ghost predicate Descending(parts: seq<Part>, step: int, sec: bool) {
    parts != [] ==>
      && step < parts[0].unit <= (if sec then SEC else MSEC)
      && Descending(parts[1..], parts[0].unit, sec)
  }

  lemma {:induction false} DecimalReads(line: string, p: nat, n: nat, sec: bool, step: int, total: nat, valid: bool)
    requires p <= |line| && Decimal(n) <= line[p..]
    ensures Time(line, p, sec, step, 0, total, valid) == Time(line, p + |Decimal(n)|, sec, step, n, total, true)
    decreases n
  {
    var d := Decimal(n);
    var k := p + |d| - 1;
    assert line[k] == d[|d| - 1] == ('0' as int + n % 10) as char;
    if n >= 10 {
      assert Decimal(n / 10) == d[..|d| - 1];
      DecimalReads(line, p, n / 10, sec, step, total, valid);
    }
  }

  lemma {:induction false} SkipOver(line: string, p: nat, n: nat)
    requires p + n <= |line| && (forall i :: p <= i < p + n ==> line[i] == ' ')
    requires p + n < |line| ==> line[p + n] != ' '
    ensures Skip(line, p) == p + n
    decreases n
  {
    if n > 0 { SkipOver(line, p + 1, n - 1); }
  }

  lemma UnitReads(line: string, p: nat, unit: int, sec: bool, step: int)
    requires START <= step < unit <= (if sec then SEC else MSEC)
    requires p < |line| && Letters(unit) <= line[p..]
    requires unit == MIN && p + 1 < |line| ==> line[p + 1] != 's'
    ensures UnitAt(line, p, sec, step) == Some(Unit(unit, Scale(unit, sec), |Letters(unit)|))
  {
    assert line[p] == Letters(unit)[0];
    if unit == MSEC { assert line[p + 1] == Letters(unit)[1]; }
  }

  lemma Drop(line: string, p: nat, a: string, rest: string)
    requires p <= |line| && line[p..] == a + rest
    ensures p + |a| <= |line| && a <= line[p..] && line[p + |a|..] == rest
    ensures forall i :: p <= i < p + |a| ==> line[i] == a[i - p]
    ensures rest != "" ==> p + |a| < |line| && line[p + |a|] == rest[0]
  {
    var s := line[p..];
    assert |s| == |a| + |rest|;
    assert s[|a|..] == rest;
    assert line[p + |a|..] == s[|a|..];
    forall i | p <= i < p + |a| ensures line[i] == a[i - p] { assert line[i] == s[i - p]; }
  }

  lemma WrittenFirst(parts: seq<Part>)
    ensures Written(parts) != "" ==> Digit(Written(parts)[0])
  {
    if parts != [] { assert Written(parts)[0] == Decimal(parts[0].value)[0]; }
  }

  // After a unit come spaces and then a digit, if anything.
  lemma SpacesDone(line: string, p: nat, letters: string, spaces: nat, parts: seq<Part>)
    requires p <= |line| && line[p..] == letters + (Spaces(spaces) + Written(parts))
    ensures var r := p + |letters|;
      && r + spaces <= |line| && line[r + spaces..] == Written(parts) && letters <= line[p..]
      && Skip(line, r) == r + spaces
      && (r < |line| ==> line[r] == ' ' || Digit(line[r]))
  {
    var r := p + |letters|;
    Drop(line, p, letters, Spaces(spaces) + Written(parts));
    Drop(line, r, Spaces(spaces), Written(parts));
    WrittenFirst(parts);
    SkipOver(line, r, spaces);
  }

  lemma UnitTaken(line: string, q: nat, r: nat, sec: bool, step: int, unit: int, value: nat, total: nat, total': nat)
    requires total' == total + Amount(value, unit, sec)
    requires q < |line| && START <= step < unit <= (if sec then SEC else MSEC) && Letters(unit) <= line[q..]
    requires var e := q + |Letters(unit)|;
      e <= r <= |line| && Skip(line, e) == r && (e < |line| ==> line[e] == ' ' || Digit(line[e]))
    ensures Time(line, q, sec, step, value, total, true) == Time(line, r, sec, unit, 0, total', true)
  {
    UnitReads(line, q, unit, sec, step);
    assert line[q] == Letters(unit)[0] && !Digit(line[q]);
  }

  // The time that is read from here, as a sequence of one
  ghost function Read(line: string, p: nat, sec: bool, step: int, value: nat, total: nat, valid: bool): seq<Option<nat>>
    requires p <= |line|
  {
    seq(1, _ => Time(line, p, sec, step, value, total, valid))
  }

  lemma DecimalRead(line: string, p: nat, n: nat, sec: bool, step: int, total: nat, valid: bool)
    requires p <= |line| && Decimal(n) <= line[p..]
    ensures Read(line, p, sec, step, 0, total, valid) == Read(line, p + |Decimal(n)|, sec, step, n, total, true)
  {
    DecimalReads(line, p, n, sec, step, total, valid);
  }

  lemma UnitRead(line: string, q: nat, part: Part, rest: seq<Part>, sec: bool, step: int, total: nat, total': nat)
      returns (r: nat)
    requires total' == total + Amount(part.value, part.unit, sec)
    requires q <= |line| && START <= step < part.unit <= (if sec then SEC else MSEC)
    requires line[q..] == Letters(part.unit) + (Spaces(part.spaces) + Written(rest))
    ensures r <= |line| && line[r..] == Written(rest)
    ensures Read(line, q, sec, step, part.value, total, true) == Read(line, r, sec, part.unit, 0, total', true)
  {
    r := q + |Letters(part.unit)| + part.spaces;
    SpacesDone(line, q, Letters(part.unit), part.spaces, rest);
    UnitTaken(line, q, r, sec, step, part.unit, part.value, total, total');
  }

  lemma PartRead(line: string, p: nat, part: Part, rest: seq<Part>, sec: bool, step: int, total: nat, total': nat,
      valid: bool)
    returns (r: nat)
    requires total' == total + Amount(part.value, part.unit, sec)
    requires p <= |line| && START <= step < part.unit <= (if sec then SEC else MSEC)
    requires line[p..] == Decimal(part.value) + (Letters(part.unit) + (Spaces(part.spaces) + Written(rest)))
    ensures r <= |line| && line[r..] == Written(rest)
    ensures Read(line, p, sec, step, 0, total, valid) == Read(line, r, sec, part.unit, 0, total', true)
  {
    Drop(line, p, Decimal(part.value), Letters(part.unit) + (Spaces(part.spaces) + Written(rest)));
    DecimalRead(line, p, part.value, sec, step, total, valid);
    r := UnitRead(line, p + |Decimal(part.value)|, part, rest, sec, step, total, total');
  }

  lemma {:induction false} PartsRead(line: string, p: nat, parts: seq<Part>, sec: bool, step: int, total: nat,
      valid: bool)
    requires p <= |line| && line[p..] == Written(parts) && START <= step && Descending(parts, step, sec)
    ensures Read(line, p, sec, step, 0, total, valid) == [if valid
        || parts != [] then Some(total + Sum(parts, sec)) else None]
    decreases |parts|
  {
    if parts != [] {
      var part, rest := parts[0], parts[1..];
      var total' := total + Amount(part.value, part.unit, sec);
      var r := PartRead(line, p, part, rest, sec, step, total, total', valid);
      PartsRead(line, r, rest, sec, part.unit, total', true);
    }
  }

  // A time that is written from the largest unit to the smallest means the sum of its parts: in seconds, years are the
  // largest unit, and in milliseconds, weeks.
  lemma WrittenIs(parts: seq<Part>, sec: bool)
    requires parts != [] && Descending(parts, if sec then START else MONTH, sec)
    ensures Meant(Written(parts), sec) == Some(Sum(parts, sec))
  {
    var line := Written(parts);
    assert line[0..] == line;
    PartsRead(line, 0, parts, sec, if sec then START else MONTH, 0, false);
    assert Read(line, 0, sec, if sec then START else MONTH, 0, 0, false)[0] == Meant(line, sec);
  }

  // A number without a unit is in seconds.
  lemma PlainNumber(n: nat, sec: bool)
    ensures Meant(Decimal(n), sec) == Some(if sec then n else n * 1000)
  {
    var line := Decimal(n);
    assert line[0..] == line;
    DecimalReads(line, 0, n, sec, if sec then START else MONTH, 0, false);
  }

  // ---------- every time that is accepted ----------

  // A unit (a step from YEAR to LAST, which is a space), the spaces behind it, and the digits behind those
  datatype Tail = Tail(unit: int, spaces: nat, digits: string)

  ghost predicate Digits(d: string) {
    forall i :: 0 <= i < |d| ==> Digit(d[i])
  }

  ghost function Sign(unit: int): string {
    if unit == LAST then " " else Letters(unit)
  }

  ghost function Number(v: nat, d: string): nat
    requires Digits(d)
    decreases |d|
  {
    if d == "" then v else Number(v * 10 + (d[0] as int - '0' as int), d[1..])
  }

  ghost function Spelled(tails: seq<Tail>): string {
    if tails == [] then "" else
        Sign(tails[0].unit) + (Spaces(tails[0].spaces) + (tails[0].digits + Spelled(tails[1..])))
  }

  // Each unit is smaller than the one before it; a space may follow anything larger than seconds.
  ghost predicate Falling(tails: seq<Tail>, step: int, sec: bool) {
    tails != [] ==>
      && Digits(tails[0].digits)
      && Follows(tails[0].unit, step, sec)
      && Falling(tails[1..], tails[0].unit, sec)
  }

  // The digits d, with v before them, and what follows
  ghost function Value(v: nat, d: string, tails: seq<Tail>, step: int, sec: bool): nat
    requires Digits(d) && Falling(tails, step, sec)
    decreases |tails|
  {
    if tails == [] then Times(Number(v, d), Scale(SEC, sec))
    else Times(Number(v, d), Scale(tails[0].unit, sec)) + Value(0, tails[0].digits, tails[1..], tails[0].unit, sec)
  }

  ghost predicate SomeDigit(d: string, tails: seq<Tail>) {
    d != "" || exists i :: 0 <= i < |tails| && tails[i].digits != ""
  }

  // Units without digits between them are told apart: a space would be one of those that are skipped, and an m before
  // an s would be a unit with it.
  ghost predicate Apart(tail: Tail, tails: seq<Tail>) {
    tail.digits == "" && tails != [] ==>
      tails[0].unit != LAST && !(tail.unit == MIN && tail.spaces == 0 && tails[0].unit == SEC)
  }

  ghost predicate Clear(tails: seq<Tail>) {
    tails == [] || (Apart(tails[0], tails[1..]) && Clear(tails[1..]))
  }

  lemma SignFirst(unit: int)
    requires unit in {YEAR, MONTH, WEEK, DAY, HOUR, MIN, SEC, MSEC, LAST}
    ensures Sign(unit) != "" && !Digit(Sign(unit)[0]) && (unit != LAST ==> Sign(unit)[0] != ' ')
    ensures Sign(unit)[0] == 's' <==> unit == SEC
  {}

  // The digits d and the tails are what is read from p on.
  datatype Reading = Reading(line: string, p: nat, sec: bool, step: int, v: nat, total: nat, valid: bool, d: string,
      tails: seq<Tail>, t: nat)

  ghost predicate Right(r: Reading) {
    && r.p <= |r.line| && r.line[r.p..] == r.d + Spelled(r.tails) && Digits(r.d) && Falling(r.tails, r.step, r.sec)
    && Clear(r.tails) && (r.valid || SomeDigit(r.d, r.tails))
    && r.t == r.total + Value(r.v, r.d, r.tails, r.step, r.sec)
  }

  ghost function Slips(r: Reading): set<Reading> {
    set x | x in {r} && !Right(x)
  }

  lemma NoSlip(r: Reading)
    ensures Slips(r) == {} <==> Right(r)
  {
    assert r in Slips(r) <==> !Right(r);
  }

  lemma DigitText(line: string, p: nat, d: string, rest: string)
    requires p < |line| && line[p + 1..] == d + rest
    ensures line[p..] == ([line[p]] + d) + rest
  {
    assert line[p..] == [line[p]] + line[p + 1..];
  }

  lemma DigitValue(c: char, v: nat, d: string, tails: seq<Tail>, step: int, sec: bool)
    requires Digit(c) && Digits(d) && Falling(tails, step, sec)
    ensures Digits([c] + d)
    ensures Value(v, [c] + d, tails, step, sec) == Value(v * 10 + (c as int - '0' as int), d, tails, step, sec)
  {
    assert ([c] + d)[1..] == d;
    assert Number(v, [c] + d) == Number(v * 10 + (c as int - '0' as int), d);
  }

  lemma DigitReading(line: string, p: nat, sec: bool, step: int, v: nat, total: nat, valid: bool, d: string,
      tails: seq<Tail>, t: nat)
    requires p < |line| && Digit(line[p])
    requires var v' := v * 10 + (line[p] as int - '0' as int);
      Slips(Reading(line, p + 1, sec, step, v', total, true, d, tails, t)) == {}
    ensures Slips(Reading(line, p, sec, step, v, total, valid, [line[p]] + d, tails, t)) == {}
  {
    NoSlip(Reading(line, p + 1, sec, step, v * 10 + (line[p] as int - '0' as int), total, true, d, tails, t));
    DigitText(line, p, d, Spelled(tails));
    DigitValue(line[p], v, d, tails, step, sec);
    NoSlip(Reading(line, p, sec, step, v, total, valid, [line[p]] + d, tails, t));
  }

  // The spaces that are skipped
  lemma {:induction false} Skipped(line: string, p: nat)
    requires p <= |line|
    ensures line[p..] == Spaces(Skip(line, p) - p) + line[Skip(line, p)..]
    decreases |line| - p
  {
    var q := Skip(line, p);
    if q > p {
      Skipped(line, p + 1);
      assert line[p..] == [' '] + line[p + 1..];
      assert Spaces(q - p) == [' '] + Spaces(q - p - 1);
    }
  }

  lemma SignAt(line: string, p: nat, sec: bool, step: int)
    requires p < |line| && UnitAt(line, p, sec, step).Some?
    ensures (var u := UnitAt(line, p, sec, step).value;
             && p + u.letters <= |line| && line[p..] == Sign(u.step) + line[p + u.letters..]
                 && u.scale == Scale(u.step, sec)
             && Follows(u.step, step, sec)
             && (u.step == MIN && p + u.letters < |line| ==> line[p + u.letters] != 's'))
  {
    var u := UnitAt(line, p, sec, step).value;
    assert line[p..] == line[p..p + u.letters] + line[p + u.letters..];
    assert u.letters == 1 ==> line[p..p + 1] == [line[p]];
    assert u.letters == 2 ==> line[p..p + 2] == [line[p], line[p + 1]];
  }

  lemma UnitText(line: string, p: nat, sign: string, q: nat, d: string, rest: string)
    requires p <= q <= |line| && line[p..] == sign + line[q..] && line[Skip(line, q)..] == d + rest
    ensures line[p..] == sign + (Spaces(Skip(line, q) - q) + (d + rest))
  {
    Skipped(line, q);
  }

  lemma MoreDigits(tail: Tail, tails: seq<Tail>)
    requires SomeDigit(tail.digits, tails)
    ensures SomeDigit("", [tail] + tails)
  {
    var tails' := [tail] + tails;
    assert tails'[0] == tail;
    if tail.digits == "" {
      var i :| 0 <= i < |tails| && tails[i].digits != "";
      assert tails'[i + 1] == tails[i];
    }
  }

  lemma UnitValue(v: nat, tail: Tail, tails: seq<Tail>, step: int, sec: bool)
    requires Falling([tail] + tails, step, sec) && Falling(tails, tail.unit, sec) && Digits(tail.digits)
    ensures Value(v, "", [tail] + tails, step, sec) == Times(v, Scale(tail.unit, sec))
        + Value(0, tail.digits, tails, tail.unit, sec)
  {
    assert ([tail] + tails)[1..] == tails;
  }

  lemma SpelledMore(tail: Tail, tails: seq<Tail>)
    ensures Spelled([tail] + tails) == Sign(tail.unit) + (Spaces(tail.spaces) + (tail.digits + Spelled(tails)))
  {
    assert ([tail] + tails)[1..] == tails;
  }

  // A unit may come next.
  ghost predicate Follows(unit: int, step: int, sec: bool) {
    && step < (if unit == LAST then SEC else unit)
    && unit in (if sec then {YEAR, MONTH, WEEK, DAY, HOUR, MIN, SEC, LAST}
        else {YEAR, MONTH, WEEK, DAY, HOUR, MIN, SEC, MSEC, LAST})
  }

  lemma FallingMore(tail: Tail, tails: seq<Tail>, sec: bool, step: int)
    requires Follows(tail.unit, step, sec) && Digits(tail.digits) && Falling(tails, tail.unit, sec)
    ensures Falling([tail] + tails, step, sec)
  {
    assert ([tail] + tails)[1..] == tails;
  }

  lemma TailText(line: string, p: nat, q: nat, tail: Tail, tails: seq<Tail>)
    requires p <= q <= |line| && line[p..] == Sign(tail.unit) + line[q..] && tail.spaces == Skip(line, q) - q
    requires line[Skip(line, q)..] == tail.digits + Spelled(tails)
    ensures line[p..] == "" + Spelled([tail] + tails)
  {
    UnitText(line, p, Sign(tail.unit), q, tail.digits, Spelled(tails));
    SpelledMore(tail, tails);
  }

  lemma TailValue(v: nat, tail: Tail, tails: seq<Tail>, step: int, sec: bool, total: nat, total': nat, t: nat)
    requires Falling([tail] + tails, step, sec) && Falling(tails, tail.unit, sec) && Digits(tail.digits)
    requires total' == total + Times(v, Scale(tail.unit, sec))
        && t == total' + Value(0, tail.digits, tails, tail.unit, sec)
    ensures t == total + Value(v, "", [tail] + tails, step, sec)
  {
    UnitValue(v, tail, tails, step, sec);
  }

  lemma {:induction false} SkipEnds(line: string, p: nat)
    requires p <= |line|
    ensures Skip(line, p) < |line| ==> line[Skip(line, p)] != ' '
    decreases |line| - p
  {
    if p < |line| && line[p] == ' ' { SkipEnds(line, p + 1); }
  }

  lemma TailApart(line: string, q: nat, tail: Tail, tails: seq<Tail>, sec: bool)
    requires q <= |line| && tail.spaces == Skip(line, q) - q
        && line[Skip(line, q)..] == tail.digits + Spelled(tails)
    requires Falling(tails, tail.unit, sec) && (tail.unit == MIN && q < |line| ==> line[q] != 's')
    ensures Apart(tail, tails)
  {
    SkipEnds(line, q);
    if tail.digits == "" && tails != [] {
      SignFirst(tails[0].unit);
      assert line[Skip(line, q)..][0] == line[Skip(line, q)];
      assert Spelled(tails)[0] == Sign(tails[0].unit)[0];
    }
  }

  lemma ClearMore(tail: Tail, tails: seq<Tail>)
    requires Apart(tail, tails) && Clear(tails)
    ensures Clear([tail] + tails)
  {
    assert ([tail] + tails)[1..] == tails;
  }

  lemma TailReading(line: string, p: nat, q: nat, sec: bool, step: int, v: nat, total: nat, total': nat, valid: bool,
      tail: Tail, tails: seq<Tail>, t: nat)
    requires p <= q <= |line| && line[p..] == Sign(tail.unit) + line[q..] && Follows(tail.unit, step, sec)
    requires tail.spaces == Skip(line, q) - q && total' == total + Times(v, Scale(tail.unit, sec))
    requires tail.unit == MIN && q < |line| ==> line[q] != 's'
    requires Slips(Reading(line, Skip(line, q), sec, tail.unit, 0, total', valid, tail.digits, tails, t)) == {}
    ensures Slips(Reading(line, p, sec, step, v, total, valid, "", [tail] + tails, t)) == {}
  {
    NoSlip(Reading(line, Skip(line, q), sec, tail.unit, 0, total', valid, tail.digits, tails, t));
    TailText(line, p, q, tail, tails);
    FallingMore(tail, tails, sec, step);
    TailValue(v, tail, tails, step, sec, total, total', t);
    TailApart(line, q, tail, tails, sec);
    ClearMore(tail, tails);
    if !valid { MoreDigits(tail, tails); }
    NoSlip(Reading(line, p, sec, step, v, total, valid, "", [tail] + tails, t));
  }

  lemma UnitReading(line: string, p: nat, sec: bool, step: int, v: nat, total: nat, valid: bool, u: Unit, d: string,
      tails: seq<Tail>, t: nat)
    requires p < |line| && UnitAt(line, p, sec, step) == Some(u) && p + u.letters <= |line|
    requires Slips(Reading(line, Skip(line, p + u.letters), sec, u.step, 0, total + Times(v, u.scale), valid, d, tails,
        t)) == {}
    ensures (var q := p + u.letters; Slips(Reading(line, p, sec, step, v, total, valid, "",
        [Tail(u.step, Skip(line, q) - q, d)] + tails, t)) == {})
  {
    var q := p + u.letters;
    SignAt(line, p, sec, step);
    TailReading(line, p, q, sec, step, v, total, total + Times(v, u.scale), valid, Tail(u.step, Skip(line, q) - q, d),
        tails, t);
  }

  // One step of what is meant
  lemma AfterUnit(line: string, p: nat, sec: bool, step: int, v: nat, total: nat, valid: bool, t: nat) returns (u: Unit)
    requires p < |line| && !Digit(line[p]) && Time(line, p, sec, step, v, total, valid) == Some(t)
    ensures UnitAt(line, p, sec, step) == Some(u) && 1 <= u.letters && p + u.letters <= |line|
    ensures Time(line, Skip(line, p + u.letters), sec, u.step, 0, total + Times(v, u.scale), valid) == Some(t)
  {
    u := UnitAt(line, p, sec, step).value;
  }

  lemma EndReading(line: string, sec: bool, step: int, v: nat, total: nat, t: nat)
    requires t == total + if sec then v else v * 1000
    ensures Slips(Reading(line, |line|, sec, step, v, total, true, "", [], t)) == {}
  {
    NoSlip(Reading(line, |line|, sec, step, v, total, true, "", [], t));
  }

  lemma {:induction false} EveryTime(line: string, p: nat, sec: bool, step: int, v: nat, total: nat, valid: bool,
      t: nat)
    returns (d: string, tails: seq<Tail>)
    requires p <= |line| && Time(line, p, sec, step, v, total, valid) == Some(t)
    ensures Slips(Reading(line, p, sec, step, v, total, valid, d, tails, t)) == {}
    decreases |line| - p
  {
    d, tails := "", [];
    if p == |line| {
      EndReading(line, sec, step, v, total, t);
    } else if Digit(line[p]) {
      d, tails := EveryTime(line, p + 1, sec, step, v * 10 + (line[p] as int - '0' as int), total, true, t);
      DigitReading(line, p, sec, step, v, total, valid, d, tails, t);
      d := [line[p]] + d;
    } else {
      var u := AfterUnit(line, p, sec, step, v, total, valid, t);
      var q := p + u.letters;
      d, tails := EveryTime(line, Skip(line, q), sec, u.step, 0, total + Times(v, u.scale), valid, t);
      UnitReading(line, p, sec, step, v, total, valid, u, d, tails, t);
      tails := [Tail(u.step, Skip(line, q) - q, d)] + tails;
      d := "";
    }
  }

  // Whatever is accepted is digits and clear units that fall, with a digit somewhere, and means the sum of its numbers.
  lemma AcceptedIs(line: string, sec: bool) returns (d: string, tails: seq<Tail>)
    requires Meant(line, sec).Some?
    ensures Digits(d) && Falling(tails, if sec then START else MONTH, sec) && Clear(tails) && SomeDigit(d, tails)
        && line == d + Spelled(tails)
    ensures Meant(line, sec).value == Value(0, d, tails, if sec then START else MONTH, sec)
  {
    var step, t := if sec then START else MONTH, Meant(line, sec).value;
    d, tails := EveryTime(line, 0, sec, step, 0, 0, false, t);
    NoSlip(Reading(line, 0, sec, step, 0, 0, false, d, tails, t));
    assert line[0..] == line;
  }

  // What follows a unit and its spaces: no space, and no s behind an m
  lemma TailEnds(tail: Tail, tails: seq<Tail>, sec: bool)
    requires Apart(tail, tails) && Digits(tail.digits) && Falling(tails, tail.unit, sec)
    ensures var rest := tail.digits + Spelled(tails);
        rest != "" ==> rest[0] != ' ' && (tail.unit == MIN && tail.spaces == 0 ==> rest[0] != 's')
  {
    if tail.digits == "" && tails != [] {
      SignFirst(tails[0].unit);
      assert Spelled(tails)[0] == Sign(tails[0].unit)[0];
    }
  }

  lemma SignReads(line: string, p: nat, unit: int, rest: string, sec: bool, step: int)
    requires p <= |line| && line[p..] == Sign(unit) + rest && Follows(unit, step, sec)
    requires unit == MIN && rest != "" ==> rest[0] != 's'
    ensures p < |line| && !Digit(line[p])
    ensures UnitAt(line, p, sec, step) == Some(Unit(unit, Scale(unit, sec), |Sign(unit)|))
  {
    SignFirst(unit);
    Drop(line, p, Sign(unit), rest);
    assert line[p] == Sign(unit)[0];
    if unit == MSEC { assert line[p + 1] == Sign(unit)[1]; }
  }

  // A unit and its spaces are passed.
  lemma TailPassed(line: string, p: nat, tail: Tail, tails: seq<Tail>, sec: bool, step: int) returns (r: nat)
    requires p <= |line| && line[p..] == Sign(tail.unit) + (Spaces(tail.spaces) + (tail.digits + Spelled(tails)))
    requires Follows(tail.unit, step, sec) && Apart(tail, tails) && Digits(tail.digits)
        && Falling(tails, tail.unit, sec)
    ensures r <= |line| && line[r..] == tail.digits + Spelled(tails)
    ensures p < |line| && !Digit(line[p])
    ensures UnitAt(line, p, sec, step) == Some(Unit(tail.unit, Scale(tail.unit, sec), |Sign(tail.unit)|))
    ensures p + |Sign(tail.unit)| <= |line| && Skip(line, p + |Sign(tail.unit)|) == r
  {
    var e, rest := p + |Sign(tail.unit)|, tail.digits + Spelled(tails);
    r := e + tail.spaces;
    TailEnds(tail, tails, sec);
    SignReads(line, p, tail.unit, Spaces(tail.spaces) + rest, sec, step);
    SpacesPassed(line, p, Sign(tail.unit), tail.spaces, rest);
  }

  lemma SpacesPassed(line: string, p: nat, sign: string, n: nat, rest: string)
    requires p <= |line| && line[p..] == sign + (Spaces(n) + rest) && (rest != "" ==> rest[0] != ' ')
    ensures var e := p + |sign|; e + n <= |line| && Skip(line, e) == e + n && line[e + n..] == rest
  {
    Drop(line, p, sign, Spaces(n) + rest);
    SpacesOnly(line, p + |sign|, n, rest);
  }

  lemma SpacesOnly(line: string, e: nat, n: nat, rest: string)
    requires e <= |line| && line[e..] == Spaces(n) + rest && (rest != "" ==> rest[0] != ' ')
    ensures e + n <= |line| && Skip(line, e) == e + n && line[e + n..] == rest
  {
    Drop(line, e, Spaces(n), rest);
    SkipOver(line, e, n);
  }

  lemma UnitStep(line: string, p: nat, sec: bool, step: int, v: nat, total: nat, valid: bool, u: Unit, r: nat,
      total': nat)
    requires p < |line| && !Digit(line[p]) && UnitAt(line, p, sec, step) == Some(u) && p + u.letters <= |line|
    requires Skip(line, p + u.letters) == r && total' == total + Times(v, u.scale)
    ensures Read(line, p, sec, step, v, total, valid) == Read(line, r, sec, u.step, 0, total', valid)
  {}

  lemma DigitStep(line: string, p: nat, sec: bool, step: int, v: nat, total: nat, valid: bool, v': nat)
    requires p < |line| && Digit(line[p]) && v' == v * 10 + (line[p] as int - '0' as int)
    ensures Read(line, p, sec, step, v, total, valid) == Read(line, p + 1, sec, step, v', total, true)
  {}

  lemma FewerDigits(tail: Tail, tails: seq<Tail>)
    requires SomeDigit("", [tail] + tails)
    ensures SomeDigit(tail.digits, tails)
  {
    var all := [tail] + tails;
    var i :| 0 <= i < |all| && all[i].digits != "";
    if i > 0 { assert tails[i - 1] == all[i]; }
  }

  lemma TakeDigit(line: string, p: nat, d: string, tails: seq<Tail>, sec: bool, step: int, v: nat, total: nat,
      valid: bool, v': nat)
    requires p <= |line| && line[p..] == d + Spelled(tails) && Digits(d) && Falling(tails, step, sec) && d != ""
    requires v' == v * 10 + (d[0] as int - '0' as int)
    ensures p < |line| && line[p + 1..] == d[1..] + Spelled(tails) && Digits(d[1..])
    ensures Value(v, d, tails, step, sec) == Value(v', d[1..], tails, step, sec)
    ensures Read(line, p, sec, step, v, total, valid) == Read(line, p + 1, sec, step, v', total, true)
  {
    assert [d[0]] + d[1..] == d && [d[0]] + (d[1..] + Spelled(tails)) == d + Spelled(tails);
    Drop(line, p, [d[0]], d[1..] + Spelled(tails));
    DigitStep(line, p, sec, step, v, total, valid, v');
    DigitValue(d[0], v, d[1..], tails, step, sec);
  }

  lemma TakeUnit(line: string, p: nat, tail: Tail, tails: seq<Tail>, sec: bool, step: int, v: nat, total: nat,
      valid: bool, total': nat) returns (r: nat)
    requires p <= |line| && line[p..] == Spelled([tail] + tails) && Falling([tail] + tails, step, sec)
        && Apart(tail, tails)
    requires total' == total + Times(v, Scale(tail.unit, sec))
    ensures r <= |line| && line[r..] == tail.digits + Spelled(tails)
    ensures Digits(tail.digits) && Falling(tails, tail.unit, sec)
    ensures total + Value(v, "", [tail] + tails, step, sec) == total' + Value(0, tail.digits, tails, tail.unit, sec)
    ensures Read(line, p, sec, step, v, total, valid) == Read(line, r, sec, tail.unit, 0, total', valid)
  {
    assert ([tail] + tails)[1..] == tails;
    SpelledMore(tail, tails);
    UnitValue(v, tail, tails, step, sec);
    r := TailPassed(line, p, tail, tails, sec, step);
    UnitStep(line, p, sec, step, v, total, valid, UnitAt(line, p, sec, step).value, r, total');
  }

  lemma {:induction false} TailsRead(line: string, p: nat, d: string, tails: seq<Tail>, sec: bool, step: int, v: nat,
      total: nat, valid: bool, t: nat)
    requires p <= |line| && line[p..] == d + Spelled(tails) && Digits(d) && Falling(tails, step, sec) && Clear(tails)
    requires (valid || SomeDigit(d, tails)) && t == total + Value(v, d, tails, step, sec)
    ensures Read(line, p, sec, step, v, total, valid) == [Some(t)]
    decreases |tails|, |d|
  {
    if d != "" {
      var v' := v * 10 + (d[0] as int - '0' as int);
      TakeDigit(line, p, d, tails, sec, step, v, total, valid, v');
      TailsRead(line, p + 1, d[1..], tails, sec, step, v', total, true, t);
    } else if tails != [] {
      var tail, rest := tails[0], tails[1..];
      var total' := total + Times(v, Scale(tail.unit, sec));
      assert tails == [tail] + rest && "" + Spelled(tails) == Spelled(tails);
      if !valid { FewerDigits(tail, rest); }
      var r := TakeUnit(line, p, tail, rest, sec, step, v, total, valid, total');
      TailsRead(line, r, tail.digits, rest, sec, tail.unit, 0, total', valid, t);
    }
  }

  // Digits and clear units that fall, with a digit somewhere, are accepted with the sum of their numbers.
  lemma SpelledIs(d: string, tails: seq<Tail>, sec: bool)
    requires var step := if sec then START else MONTH;
        Digits(d) && Falling(tails, step, sec) && Clear(tails) && SomeDigit(d, tails)
    ensures Meant(d + Spelled(tails), sec) == Some(Value(0, d, tails, if sec then START else MONTH, sec))
  {
    var line := d + Spelled(tails);
    assert line[0..] == line;
    TailsRead(line, 0, d, tails, sec, if sec then START else MONTH, 0, 0, false,
        Value(0, d, tails, if sec then START else MONTH, sec));
    assert Read(line, 0, sec, if sec then START else MONTH, 0, 0, false)[0] == Meant(line, sec);
  }

  // ---------- ngx_parse_time ----------

  // The guards by division are the comparisons that are meant.
  lemma Guard(v: nat, s: nat)
    requires s > 0
    ensures v > MAX / s <==> v * s > MAX
  {
    var q := MAX / s;
    assert q * s <= MAX < (q + 1) * s;
    if v > q { assert v * s >= (q + 1) * s; } else { assert v * s <= q * s; }
  }

  // The lengths of the units in seconds
  predicate Length(s: int) {
    s == 1 || s == 60 || s == 3600 || s == 86400 || s == 604800 || s == 2592000 || s == 31536000
  }

  lemma Thousand(s: int)
    requires Length(s)
    ensures MAX / s / 1000 == MAX / (s * 1000)
  {
  }

  // The switch: the step, the length of the unit in seconds (or one, for milliseconds), its letters
  method ReadUnit(line: string, p: nat, sec: bool, step: int)
      returns (ok: bool, step': int, scale: int64, max: int64, letters: nat)
    requires p < |line|
    ensures ok <==> UnitAt(line, p, sec, step).Some?
    ensures ok ==> scale > 0 && UnitAt(line, p, sec, step).value == Unit(step', scale as int, letters)
    ensures ok ==> max as int == MAX / scale as int
  {
    ok, step', scale, letters := true, step, 1, 1;
    match line[p] {
      case 'y' => ok, step', scale := step <= START, YEAR, 31536000;
      case 'M' => ok, step', scale := step < MONTH, MONTH, 2592000;
      case 'w' => ok, step', scale := step < WEEK, WEEK, 604800;
      case 'd' => ok, step', scale := step < DAY, DAY, 86400;
      case 'h' => ok, step', scale := step < HOUR, HOUR, 3600;
      case 'm' =>
        if p + 1 < |line| && line[p + 1] == 's' {
          ok, step', letters := !sec && step < MSEC, MSEC, 2;
        } else {
          ok, step', scale := step < MIN, MIN, 60;
        }
      case 's' => ok, step' := step < SEC, SEC;
      case ' ' => ok, step' := step < SEC, LAST;
      case _ => ok := false;
    }
    max := 9223372036854775807 / scale;
    if step' != MSEC && !sec {
      Thousand(scale as int);
      scale := scale * 1000;
      max := max / 1000;
    }
  }

  // A unit is complete: false when the sum is too large.
  method Add(total: int64, value: int64, scale: int64, max: int64) returns (ok: bool, sum: int64)
    requires total >= 0 && value >= 0 && scale > 0 && max as int == MAX / scale as int
    ensures ok <==> total as int + value as int * scale as int <= MAX
    ensures ok ==> sum as int == total as int + value as int * scale as int
  {
    Guard(value as int, scale as int);
    sum := total;
    if value > max { return false, sum; }
    var product := value * scale;
    if total > 9223372036854775807 - product { return false, sum; }
    return true, total + product;
  }

  // What the parser is to return
  ghost predicate Answers(r: Option<int64>, meant: Option<nat>) {
    match meant
    case None => r == None
    case Some(t) => if t > MAX then r == None else r.Some? && r.value as int == t
  }

  // One more digit; the guard against overflow is exact.
  method AddDigit(value: int64, c: char) returns (ok: bool, value': int64)
    requires value >= 0 && Digit(c)
    ensures ok <==> value as int * 10 + (c as int - '0' as int) <= MAX
    ensures ok ==> value' as int == value as int * 10 + (c as int - '0' as int)
  {
    var d: int64 := (c as int - '0' as int) as int64;
    value' := value;
    ok := !(value >= 922337203685477580 && (value > 922337203685477580 || d > 7));
    if ok { value' := value * 10 + d; }
  }

  // One more unit, with the spaces after it
  method AddUnit(line: string, p: nat, sec: bool, step: int, value: int64, total: int64, ghost valid: bool,
      ghost meant: Option<nat>)
    returns (ok: bool, p': nat, step': int, total': int64)
    requires p < |line| && value >= 0 && total >= 0 && !Digit(line[p])
    requires Time(line, p, sec, step, value as int, total as int, valid) == meant
    ensures ok ==> p < p' <= |line| && total' >= 0 && Time(line, p', sec, step', 0, total' as int, valid) == meant
    ensures !ok ==> Answers(None, meant)
  {
    var scale, max, letters;
    p', total' := p, total;
    ok, step', scale, max, letters := ReadUnit(line, p, sec, step);
    if !ok { return; }
    assert 1 <= letters <= |line| - p;
    ghost var more := total as int + Times(value as int, scale as int);
    assert Time(line, Skip(line, p + letters), sec, step', 0, more, valid) == meant;
    ok, total' := Add(total, value, scale, max);
    if ok {
      p' := SkipSpaces(line, p + letters);
    } else {
      TooMuch(line, Skip(line, p + letters), sec, step', 0, more, valid);
    }
  }

  // ngx_parse_time: None is NGX_ERROR.
  method Parse(line: string, sec: bool) returns (r: Option<int64>)
    ensures Answers(r, Meant(line, sec))
  {
    var valid, value, total, step, p := false, 0 as int64, 0 as int64, if sec then START else MONTH, 0;
    var ok;
    ghost var meant := Meant(line, sec);
    while p < |line|
      invariant p <= |line| && value >= 0 && total >= 0
      invariant Time(line, p, sec, step, value as int, total as int, valid) == meant
      decreases |line| - p
    {
      if Digit(line[p]) {
        ghost var more := value as int * 10 + (line[p] as int - '0' as int);
        assert Time(line, p + 1, sec, step, more, total as int, true) == meant;
        ok, value := AddDigit(value, line[p]);
        if !ok {
          TooMuch(line, p + 1, sec, step, more, total as int, true);
          return None;
        }
        p, valid := p + 1, true;
      } else {
        ok, p, step, total := AddUnit(line, p, sec, step, value, total, valid, meant);
        if !ok { return None; }
        value := 0;
      }
    }
    if !valid { return None; }
    var scale: int64 := if sec then 1 else 1000;
    ok, total := Add(total, value, scale, 9223372036854775807 / scale);
    return if ok then Some(total) else None;
  }

  method SkipSpaces(line: string, p0: nat) returns (p: nat)
    requires p0 <= |line|
    ensures p == Skip(line, p0)
  {
    p := p0;
    while p < |line| && line[p] == ' '
      invariant p0 <= p <= |line| && Skip(line, p) == Skip(line, p0)
    {
      p := p + 1;
    }
  }
}
