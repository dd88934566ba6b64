/**
  The queue file format: one line per field, each starting with a letter, ended by a line holding a
  dot. `Encode` is what writeenvelope puts in the file and `Decode` what mms_queue_readenvelope makes
  of a file; the methods at the end are the two loops.
 */
module EnvelopeCodec {
  import opened Wrappers
  import opened Text
  import opened StringTable
  import opened Envelopes

  /** A clock reading to which a week can be added. */
  type Clock = n: int | 0 <= n <= LONG_MAX - DEFAULT_EXPIRE

  /** What a reader brings along: its clock and the table of message types. */
  datatype Reader = Reader(now: Clock, types: Table)

  // ---- amounts: printf "%.3f" and atof on what it prints ----

  /** The nearest thousandth, ties to even. */
  function Thousandths(a: real): (n: nat)
    requires a >= 0.0
  {
    var y := a * 1000.0;
    var f := y.Floor;
    var d := y - f as real;
    if d < 0.5 || (d == 0.5 && f % 2 == 0) then f else f + 1
  }

  function PrintAmount(a: real): string
    requires a >= 0.0
  {
    var n := Thousandths(a);
    Digits(n / 1000) + "." + [DigitChar(n / 100 % 10), DigitChar(n / 10 % 10), DigitChar(n % 10)]
  }

  /** The value of the leading digits of `s` read as a decimal fraction. */
  function ScanFraction(s: string): (a: real)
    ensures a >= 0.0
  {
    if s != "" && IsDigit(s[0]) then (DigitValue(s[0]) as real + ScanFraction(s[1..])) / 10.0 else 0.0
  }

  /** atof on an unsigned decimal with an optional fraction. */
  function ParseAmount(s: string): (a: real)
    ensures a >= 0.0
  {
    var t := SkipDigits(s);
    ScanNat(s, 0) as real + if t != "" && t[0] == '.' then ScanFraction(t[1..]) else 0.0
  }

  lemma LastThreeDigits(n: nat)
    ensures (n / 100 % 10 * 10 + n / 10 % 10) * 10 + n % 10 == n % 1000
  {
    assert n / 100 == n / 10 / 10;
  }

  lemma ThreeDigitFraction(x: nat, y: nat, z: nat)
    requires x < 10 && y < 10 && z < 10
    ensures ScanFraction([DigitChar(x), DigitChar(y), DigitChar(z)]) == ((x * 10 + y) * 10 + z) as real / 1000.0
  {
    var f, g, h := [DigitChar(x), DigitChar(y), DigitChar(z)], [DigitChar(y), DigitChar(z)], [DigitChar(z)];
    assert f[1..] == g && g[1..] == h && h[1..] == "";
    assert ScanFraction(h) == z as real / 10.0;
    assert ScanFraction(g) == (y as real + ScanFraction(h)) / 10.0;
  }

  /** Reading a printed amount gives the amount rounded to thousandths. */
  lemma AmountRoundTrip(a: real)
    requires a >= 0.0
    ensures ParseAmount(PrintAmount(a)) == Thousandths(a) as real / 1000.0
  {
    var n := Thousandths(a);
    var fraction := [DigitChar(n / 100 % 10), DigitChar(n / 10 % 10), DigitChar(n % 10)];
    assert PrintAmount(a) == Digits(n / 1000) + (['.'] + fraction);
    ScanDigits(n / 1000, ['.'] + fraction);
    assert (['.'] + fraction)[1..] == fraction;
    LastThreeDigits(n);
    ThreeDigitFraction(n / 100 % 10, n / 10 % 10, n % 10);
    assert n == n / 1000 * 1000 + n % 1000;
  }

  // ---- writing ----

  function Field(code: char, value: Option<string>): seq<string> {
    if value.Some? then [[code] + value.value] else []
  }

  function Count(code: char, n: Long): seq<string> {
    if n != 0 then [[code] + PrintLong(n)] else []
  }

  function RecipientLine(r: Recipient): string {
    [if r.pending then 'R' else 'z'] + r.address
  }

  function RecipientLines(to: seq<Recipient>): seq<string> {
    seq(|to|, i requires 0 <= i < |to| => RecipientLine(to[i]))
  }

  function HeaderLine(h: Header): string {
    ['H'] + (h.name + ":" + h.value)
  }

  function HeaderLines(hdrs: seq<Header>): seq<string> {
    seq(|hdrs|, i requires 0 <= i < |hdrs| => HeaderLine(hdrs[i]))
  }

  function TypeWord(types: Table, n: int): string {
    var w := WordOf(types, n);
    if w.Some? then w.value else ""
  }

  function OriginLines(types: Table, e: Envelope): seq<string> {
    [['T'] + TypeWord(types, e.msgType)] + Field('I', e.msgId) + Field('c', e.mclass)
    + (if e.source != "" then [['i'] + e.source] else []) + Field('F', e.from)
  }

  function TimeLines(e: Envelope): seq<string>
    requires e.InRange()
  {
    [['C'] + PrintLong(e.created)] + Count('L', e.lastTry) + Count('D', e.sendTime) + Count('X', e.expiry)
  }

  function UseLines(e: Envelope): seq<string>
    requires e.InRange()
  {
    Count('N', e.attempts) + Count('f', e.lastAccess) + [['S'] + PrintLong(AsLong(e.size))]
  }

  function RouteLines(e: Envelope): seq<string> {
    Field('P', e.fromProxy) + Field('M', e.mdata) + Field('s', e.subject) + Field('p', e.viaProxy) + Field('t', e.token)
  }

  function ServiceLines(e: Envelope): seq<string> {
    Field('V', e.vaspId) + Field('v', e.vasId) + Field('U', e.url1) + Field('u', e.url2)
  }

  function BillLines(e: Envelope): seq<string>
    requires e.InRange()
  {
    (if e.dlr then [['r'] + "Yes"] else []) + (if e.billed then [['b'] + PrintAmount(e.amount)] else [])
  }

  function Lines(types: Table, e: Envelope): seq<string>
    requires e.InRange()
  {
    OriginLines(types, e) + RecipientLines(e.to) + HeaderLines(e.hdrs) + TimeLines(e) + UseLines(e) + RouteLines(e) + ServiceLines(e) + BillLines(e)
  }

  /** The file made of the given lines. */
  function FileOf(lines: seq<string>): string {
    if lines == [] then "" else lines[0] + "\n" + FileOf(lines[1..])
  }

  function Encode(types: Table, e: Envelope): string
    requires e.InRange()
  {
    FileOf(Lines(types, e) + ["."])
  }

  // ---- reading ----

  /** The first 511 characters: the header name buffer holds no more. */
  function Truncate(s: string, n: nat): string {
    if |s| < n then s else s[..n]
  }

  /** What a line of a queue file says. */
  datatype Item =
    | TypeItem(msgType: int)
    | SenderItem(address: string)
    | RecipientItem(r: Recipient)
    | HeaderItem(h: Header)
    | TextItem(code: char, text: string)
    | CountItem(code: char, n: Long)
    | ReportItem
    | BillItem(amount: real)
    | NoItem

  predicate IsTextCode(c: char) {
    c == 'I' || c == 'c' || c == 'i' || c == 'P' || c == 'M' || c == 's' || c == 'p' || c == 't'
    || c == 'V' || c == 'v' || c == 'U' || c == 'u'
  }

  predicate IsCountCode(c: char) {
    c == 'C' || c == 'L' || c == 'D' || c == 'X' || c == 'N' || c == 'f' || c == 'S'
  }

  function ParseHeader(res: string): Item {
    var i := IndexOf(res, ':');
    if i < 0 then NoItem else HeaderItem(Header(Truncate(res[..i], 511), StripBlanks(res[i + 1..])))
  }

  /** The meaning of a line that starts with `code` and goes on with `res`. */
  function ParseCode(types: Table, code: char, res: string): Item {
    if IsTextCode(code) then TextItem(code, res)
    else if IsCountCode(code) then CountItem(code, ParseLong(res))
    else match code
      case 'T' => TypeItem(var n := NumberOf(types, res); if n < 0 then 0 else n)
      case 'F' => SenderItem(Readdress(res))
      case 'R' => RecipientItem(Recipient(Readdress(res), true))
      case 'z' => RecipientItem(Recipient(Readdress(res), false))
      case 'H' => ParseHeader(res)
      case 'r' => ReportItem
      case 'b' => BillItem(ParseAmount(res))
      case _ => NoItem
  }

  function ParseLine(types: Table, line: string): Item {
    if line == "" then NoItem else ParseCode(types, line[0], line[1..])
  }

  function SetText(e: Envelope, code: char, text: string): Envelope {
    match code
    case 'I' => e.(msgId := Some(text))
    case 'c' => e.(mclass := Some(text))
    case 'i' => e.(source := Truncate(text, 16))
    case 'P' => e.(fromProxy := Some(text))
    case 'M' => e.(mdata := Some(text))
    case 's' => e.(subject := Some(text))
    case 'p' => e.(viaProxy := Some(text))
    case 't' => e.(token := Some(text))
    case 'V' => e.(vaspId := Some(text))
    case 'v' => e.(vasId := Some(text))
    case 'U' => e.(url1 := Some(text))
    case 'u' => e.(url2 := Some(text))
    case _ => e
  }

  function SetCount(e: Envelope, code: char, n: Long): Envelope {
    match code
    case 'C' => e.(created := n)
    case 'L' => e.(lastTry := n)
    case 'D' => e.(sendTime := n)
    case 'X' => e.(expiry := n)
    case 'N' => e.(attempts := n)
    case 'f' => e.(lastAccess := n)
    case 'S' => e.(size := AsULong(n))
    case _ => e
  }

  /** The effect of one line on the envelope being read; unknown and malformed lines have none. */
  function Set(e: Envelope, item: Item): Envelope {
    match item
    case TypeItem(n) => e.(msgType := n)
    case SenderItem(a) => e.(from := Some(a))
    case RecipientItem(r) => e.(to := e.to + [r])
    case HeaderItem(h) => e.(hdrs := e.hdrs + [h])
    case TextItem(code, text) => SetText(e, code, text)
    case CountItem(code, n) => SetCount(e, code, n)
    case ReportItem => e.(dlr := true)
    case BillItem(a) => e.(billed := true, amount := a)
    case NoItem => e
  }

  /** The envelope mms_queue_create_envelope makes when it is given nothing. */
  function Blank(now: Clock): Envelope {
    Envelope(-1, None, None, None, None, None, None, None, None, [], [], None,
             now, 0, 0, now + DEFAULT_EXPIRE, 0, false, 0, 0, false, 0.0, None, None, None, "")
  }

  predicate IsEnd(line: string) {
    line != "" && line[0] == '.'
  }

  function ReadLines(types: Table, e: Envelope, data: string): Option<Envelope>
    decreases |data|
  {
    match NextLine(data)
    case None => None
    case Some((line, rest)) => if IsEnd(line) then Some(e) else ReadLines(types, Set(e, ParseLine(types, line)), rest)
  }

  /** The envelope in a queue file, or nothing if the end line is missing. */
  function Decode(r: Reader, data: string): Option<Envelope> {
    ReadLines(r.types, Blank(r.now), data)
  }

  // ---- reading back ----

  function ParseAll(types: Table, lines: seq<string>): (items: seq<Item>)
    ensures |items| == |lines|
  {
    seq(|lines|, i requires 0 <= i < |lines| => ParseLine(types, lines[i]))
  }

  function SetAll(e: Envelope, items: seq<Item>): Envelope
    decreases |items|
  {
    if items == [] then e else SetAll(Set(e, items[0]), items[1..])
  }

  lemma {:induction false} SetAppend(e: Envelope, a: seq<Item>, b: seq<Item>)
    ensures SetAll(e, a + b) == SetAll(SetAll(e, a), b)
    decreases |a|
  {
    if a == [] {
      assert a + b == b;
    } else {
      assert (a + b)[1..] == a[1..] + b;
      SetAppend(Set(e, a[0]), a[1..], b);
    }
  }

  /** A string that fits on a line. */
  predicate Plain(s: string) {
    '\n' !in s && '\r' !in s && '\0' !in s
  }

  predicate PlainLine(line: string) {
    line != "" && line[0] != '.' && Plain(line)
  }

  lemma FirstLine(line: string, rest: string)
    requires Plain(line)
    ensures NextLine(line + "\n" + rest) == Some((line, rest))
  {
    IndexOfPrefix(line, '\n', rest);
    assert (line + "\n" + rest)[..|line|] == line;
    assert (line + "\n" + rest)[|line| + 1..] == rest;
  }

  lemma ReadOne(types: Table, e: Envelope, line: string, rest: string)
    requires Plain(line)
    ensures ReadLines(types, e, line + "\n" + rest)
         == if IsEnd(line) then Some(e) else ReadLines(types, Set(e, ParseLine(types, line)), rest)
  {
    FirstLine(line, rest);
  }

  lemma ReadAhead(types: Table, e: Envelope, lines: seq<string>)
    requires lines != []
    ensures SetAll(e, ParseAll(types, lines)) == SetAll(Set(e, ParseLine(types, lines[0])), ParseAll(types, lines[1..]))
  {
    assert ParseAll(types, lines)[1..] == ParseAll(types, lines[1..]);
  }

  /** A complete file is read line by line to its end line; what follows is ignored. */
  lemma {:induction false} ReadFile(types: Table, e: Envelope, lines: seq<string>, rest: string)
    requires forall i :: 0 <= i < |lines| ==> PlainLine(lines[i])
    ensures ReadLines(types, e, FileOf(lines + ["."]) + rest) == Some(SetAll(e, ParseAll(types, lines)))
    decreases |lines|
  {
    if lines == [] {
      assert FileOf(["."]) + rest == "." + "\n" + rest;
      ReadOne(types, e, ".", rest);
    } else {
      assert (lines + ["."])[1..] == lines[1..] + ["."];
      var tail := FileOf(lines[1..] + ["."]) + rest;
      assert FileOf(lines + ["."]) + rest == lines[0] + "\n" + tail;
      calc {
        ReadLines(types, e, FileOf(lines + ["."]) + rest);
        { ReadOne(types, e, lines[0], tail); }
        ReadLines(types, Set(e, ParseLine(types, lines[0])), tail);
        { ReadFile(types, Set(e, ParseLine(types, lines[0])), lines[1..], rest); }
        Some(SetAll(Set(e, ParseLine(types, lines[0])), ParseAll(types, lines[1..])));
        { ReadAhead(types, e, lines); }
        Some(SetAll(e, ParseAll(types, lines)));
      }
    }
  }

  /** A file cut short anywhere has no end line. */
  lemma {:induction false} CutFileHasNoEnd(types: Table, e: Envelope, lines: seq<string>, p: string)
    requires forall i :: 0 <= i < |lines| ==> PlainLine(lines[i])
    requires p < FileOf(lines + ["."])
    ensures ReadLines(types, e, p) == None
    decreases |lines|
  {
    var all := lines + ["."];
    var first, tail := all[0] + "\n", FileOf(all[1..]);
    assert FileOf(all) == first + tail;
    if |p| < |first| {
      assert p == all[0][..|p|];
      assert IndexOf(p, '\n') < 0;
    } else {
      var p' := p[|first|..];
      assert p == all[0] + "\n" + p';
      ReadOne(types, e, all[0], p');
      if lines != [] {
        assert all[1..] == lines[1..] + ["."];
        assert p' == tail[..|p'|];
        CutFileHasNoEnd(types, Set(e, ParseLine(types, lines[0])), lines[1..], p');
      }
    }
  }
}
