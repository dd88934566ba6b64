/**
  Main results about the queue file format: what a reader gets back from a written file, exactly when
  that is the envelope that was written, and that no file cut short is accepted.
 */
module EnvelopeRoundTrip {
  import opened Wrappers
  import opened Text
  import opened StringTable
  import opened Envelopes
  import opened EnvelopeCodec

  predicate PlainField(v: Option<string>) {
    v.Some? ==> Plain(v.value)
  }

  /** What the format demands of an envelope: strings that fit on a line, header names without a colon
      that fit the reader's buffer, header values without outer blanks, a source that fits its buffer. */
  predicate Storable(e: Envelope) {
    && PlainField(e.msgId) && PlainField(e.token) && PlainField(e.from) && PlainField(e.mclass)
    && PlainField(e.vaspId) && PlainField(e.vasId) && PlainField(e.url1) && PlainField(e.url2)
    && PlainField(e.subject) && PlainField(e.mdata) && PlainField(e.fromProxy) && PlainField(e.viaProxy)
    && Plain(e.source) && |e.source| < 16
    && (forall i :: 0 <= i < |e.to| ==> Plain(e.to[i].address))
    && (forall i :: 0 <= i < |e.hdrs| ==> StorableHeader(e.hdrs[i]))
    && e.InRange()
  }

  predicate StorableHeader(h: Header) {
    Plain(h.name) && Plain(h.value) && ':' !in h.name && |h.name| < 512 && Trimmed(h.value)
  }

  function Reread(r: Recipient): Recipient {
    r.(address := Readdress(r.address))
  }

  function RereadAll(to: seq<Recipient>): (r: seq<Recipient>)
    ensures |r| == |to|
  {
    seq(|to|, i requires 0 <= i < |to| => Reread(to[i]))
  }

  function ReadType(types: Table, n: int): int {
    if WordOf(types, n).Some? then n else 0
  }

  /** What reading a written envelope gives: addresses repaired, the amount rounded and kept only if
      billed, an unknown type as 0, and a week from now for an expiry of 0. */
  function Normal(r: Reader, e: Envelope): Envelope
    requires e.InRange()
  {
    e.(msgType := ReadType(r.types, e.msgType),
       from := if e.from.Some? then Some(Readdress(e.from.value)) else None,
       to := RereadAll(e.to),
       expiry := if e.expiry == 0 then r.now + DEFAULT_EXPIRE else e.expiry,
       amount := if e.billed then Thousandths(e.amount) as real / 1000.0 else 0.0)
  }

  // ---- what the written lines say ----

  function TextItems(code: char, v: Option<string>): seq<Item> {
    if v.Some? then [TextItem(code, v.value)] else []
  }

  function CountItems(code: char, n: Long): seq<Item> {
    if n != 0 then [CountItem(code, n)] else []
  }

  function OriginItems(types: Table, e: Envelope): seq<Item> {
    [TypeItem(ReadType(types, e.msgType))] + TextItems('I', e.msgId) + TextItems('c', e.mclass)
    + (if e.source != "" then [TextItem('i', e.source)] else [])
    + (if e.from.Some? then [SenderItem(Readdress(e.from.value))] else [])
  }

  function RecipientItems(to: seq<Recipient>): (r: seq<Item>)
    ensures |r| == |to|
  {
    seq(|to|, i requires 0 <= i < |to| => RecipientItem(to[i]))
  }

  function HeaderItems(hdrs: seq<Header>): (r: seq<Item>)
    ensures |r| == |hdrs|
  {
    seq(|hdrs|, i requires 0 <= i < |hdrs| => HeaderItem(hdrs[i]))
  }

  function TimeItems(e: Envelope): seq<Item>
    requires e.InRange()
  {
    [CountItem('C', e.created)] + CountItems('L', e.lastTry) + CountItems('D', e.sendTime) + CountItems('X', e.expiry)
  }

  function UseItems(e: Envelope): seq<Item>
    requires e.InRange()
  {
    CountItems('N', e.attempts) + CountItems('f', e.lastAccess) + [CountItem('S', AsLong(e.size))]
  }

  function RouteItems(e: Envelope): seq<Item> {
    TextItems('P', e.fromProxy) + TextItems('M', e.mdata) + TextItems('s', e.subject) + TextItems('p', e.viaProxy)
    + TextItems('t', e.token)
  }

  function ServiceItems(e: Envelope): seq<Item> {
    TextItems('V', e.vaspId) + TextItems('v', e.vasId) + TextItems('U', e.url1) + TextItems('u', e.url2)
  }

  function BillItems(e: Envelope): seq<Item>
    requires e.InRange()
  {
    (if e.dlr then [ReportItem] else []) + (if e.billed then [BillItem(Thousandths(e.amount) as real / 1000.0)] else [])
  }

  function Items(types: Table, e: Envelope): seq<Item>
    requires e.InRange()
  {
    OriginItems(types, e) + RecipientItems(RereadAll(e.to)) + HeaderItems(e.hdrs) + TimeItems(e) + UseItems(e) + RouteItems(e)
    + ServiceItems(e) + BillItems(e)
  }

  lemma ParseAppend(types: Table, a: seq<string>, b: seq<string>)
    ensures ParseAll(types, a + b) == ParseAll(types, a) + ParseAll(types, b)
  {
  }

  lemma ParseOne(types: Table, code: char, res: string)
    ensures ParseAll(types, [[code] + res]) == [ParseCode(types, code, res)]
  {
    assert ([code] + res)[1..] == res;
  }

  lemma FieldSays(types: Table, code: char, v: Option<string>)
    requires IsTextCode(code)
    ensures ParseAll(types, Field(code, v)) == TextItems(code, v)
  {
    if v.Some? {
      ParseOne(types, code, v.value);
    }
  }

  lemma CountSays(types: Table, code: char, n: Long)
    requires IsCountCode(code)
    ensures ParseAll(types, [[code] + PrintLong(n)]) == [CountItem(code, n)]
    ensures ParseAll(types, Count(code, n)) == CountItems(code, n)
  {
    LongRoundTrip(n);
    ParseOne(types, code, PrintLong(n));
  }

  lemma TypeSays(types: Table, n: int)
    requires Lawful(types)
    ensures ParseAll(types, [['T'] + TypeWord(types, n)]) == [TypeItem(ReadType(types, n))]
  {
    ParseOne(types, 'T', TypeWord(types, n));
    if WordOf(types, n).Some? {
      WordRoundTrip(types, n);
      var i := WordIsInTable(types, n);
    } else {
      assert forall i :: 0 <= i < |types| ==> |types[i].word| > 0;
      NumberMissing(types, "");
    }
  }

  lemma OriginSays(types: Table, e: Envelope)
    requires Lawful(types)
    ensures ParseAll(types, OriginLines(types, e)) == OriginItems(types, e)
  {
    TypeSays(types, e.msgType);
    FieldSays(types, 'I', e.msgId);
    FieldSays(types, 'c', e.mclass);
    ParseOne(types, 'i', e.source);
    if e.from.Some? {
      ParseOne(types, 'F', e.from.value);
    }
  }

  lemma RecipientsSay(types: Table, to: seq<Recipient>)
    ensures ParseAll(types, RecipientLines(to)) == RecipientItems(RereadAll(to))
  {
    forall i | 0 <= i < |to| ensures ParseLine(types, RecipientLine(to[i])) == RecipientItem(Reread(to[i])) {
      ParseOne(types, if to[i].pending then 'R' else 'z', to[i].address);
      assert ParseAll(types, [RecipientLine(to[i])])[0] == ParseLine(types, RecipientLine(to[i]));
    }
  }

  lemma ParseHeaderBack(name: string, value: string)
    requires StorableHeader(Header(name, value))
    ensures ParseHeader(name + ":" + value) == HeaderItem(Header(name, value))
  {
    var res := name + ":" + value;
    IndexOfPrefix(name, ':', value);
    var i := IndexOf(res, ':');
    assert i == |name| && res[..i] == name && res[i + 1..] == value;
    assert Truncate(name, 511) == name;
  }

  lemma HeaderSays(types: Table, h: Header)
    requires StorableHeader(h)
    ensures ParseAll(types, [HeaderLine(h)]) == [HeaderItem(h)]
  {
    ParseHeaderBack(h.name, h.value);
    ParseOne(types, 'H', h.name + ":" + h.value);
  }

  lemma HeadersSay(types: Table, hdrs: seq<Header>)
    requires forall i :: 0 <= i < |hdrs| ==> StorableHeader(hdrs[i])
    ensures ParseAll(types, HeaderLines(hdrs)) == HeaderItems(hdrs)
  {
    forall i | 0 <= i < |hdrs| ensures ParseLine(types, HeaderLine(hdrs[i])) == HeaderItem(hdrs[i]) {
      HeaderSays(types, hdrs[i]);
      assert ParseAll(types, [HeaderLine(hdrs[i])])[0] == ParseLine(types, HeaderLine(hdrs[i]));
    }
  }

  lemma ParseFour(types: Table, a: seq<string>, b: seq<string>, c: seq<string>, d: seq<string>)
    ensures ParseAll(types, a + b + c + d) == ParseAll(types, a) + ParseAll(types, b) + ParseAll(types, c) + ParseAll(types, d)
  {
  }

  lemma TimesSay(types: Table, e: Envelope)
    requires e.InRange()
    ensures ParseAll(types, TimeLines(e)) == TimeItems(e)
  {
    CountSays(types, 'C', e.created);
    CountSays(types, 'L', e.lastTry);
    CountSays(types, 'D', e.sendTime);
    CountSays(types, 'X', e.expiry);
    ParseFour(types, [['C'] + PrintLong(e.created)], Count('L', e.lastTry), Count('D', e.sendTime), Count('X', e.expiry));
  }

  lemma UseSays(types: Table, e: Envelope)
    requires e.InRange()
    ensures ParseAll(types, UseLines(e)) == UseItems(e)
  {
    CountSays(types, 'N', e.attempts);
    CountSays(types, 'f', e.lastAccess);
    CountSays(types, 'S', AsLong(e.size));
  }

  lemma RouteSays(types: Table, e: Envelope)
    ensures ParseAll(types, RouteLines(e)) == RouteItems(e)
  {
    FieldSays(types, 'P', e.fromProxy);
    FieldSays(types, 'M', e.mdata);
    FieldSays(types, 's', e.subject);
    FieldSays(types, 'p', e.viaProxy);
    FieldSays(types, 't', e.token);
  }

  lemma ServiceSays(types: Table, e: Envelope)
    ensures ParseAll(types, ServiceLines(e)) == ServiceItems(e)
  {
    FieldSays(types, 'V', e.vaspId);
    FieldSays(types, 'v', e.vasId);
    FieldSays(types, 'U', e.url1);
    FieldSays(types, 'u', e.url2);
  }

  lemma BillSays(types: Table, e: Envelope)
    requires e.InRange()
    ensures ParseAll(types, BillLines(e)) == BillItems(e)
  {
    ParseOne(types, 'r', "Yes");
    ParseOne(types, 'b', PrintAmount(e.amount));
    AmountRoundTrip(e.amount);
  }

  /** Every line says what it was written to say. */
  lemma LinesSay(types: Table, e: Envelope)
    requires Lawful(types) && Storable(e)
    ensures ParseAll(types, Lines(types, e)) == Items(types, e)
  {
    var a := OriginLines(types, e);
    var b := a + RecipientLines(e.to);
    var c := b + HeaderLines(e.hdrs);
    var d := c + TimeLines(e);
    var f := d + UseLines(e);
    var g := f + RouteLines(e);
    var h := g + ServiceLines(e);
    ParseAppend(types, a, RecipientLines(e.to));
    ParseAppend(types, b, HeaderLines(e.hdrs));
    ParseAppend(types, c, TimeLines(e));
    ParseAppend(types, d, UseLines(e));
    ParseAppend(types, f, RouteLines(e));
    ParseAppend(types, g, ServiceLines(e));
    ParseAppend(types, h, BillLines(e));
    OriginSays(types, e);
    RecipientsSay(types, e.to);
    HeadersSay(types, e.hdrs);
    TimesSay(types, e);
    UseSays(types, e);
    RouteSays(types, e);
    ServiceSays(types, e);
    BillSays(types, e);
  }

  // ---- what the items make of a blank envelope ----

  lemma SetOne(x: Envelope, item: Item)
    ensures SetAll(x, [item]) == Set(x, item)
  {
    assert SetAll(Set(x, item), []) == Set(x, item);
  }

  /** Adding one optional item to a group of items. */
  lemma ThenItem(x: Envelope, items: seq<Item>, present: bool, item: Item)
    ensures SetAll(x, items + if present then [item] else [])
         == var y := SetAll(x, items); if present then Set(y, item) else y
  {
    SetAppend(x, items, if present then [item] else []);
    SetOne(SetAll(x, items), item);
  }

  lemma ThenText(x: Envelope, items: seq<Item>, code: char, v: Option<string>)
    ensures SetAll(x, items + TextItems(code, v))
         == var y := SetAll(x, items); if v.Some? then SetText(y, code, v.value) else y
  {
    ThenItem(x, items, v.Some?, TextItem(code, if v.Some? then v.value else ""));
  }

  lemma ThenCount(x: Envelope, items: seq<Item>, code: char, n: Long)
    ensures SetAll(x, items + CountItems(code, n)) == var y := SetAll(x, items); if n != 0 then SetCount(y, code, n) else y
  {
    ThenItem(x, items, n != 0, CountItem(code, n));
  }

  lemma OriginSet(types: Table, x: Envelope, e: Envelope)
    requires x.msgId == None && x.mclass == None && x.source == "" && x.from == None && |e.source| < 16
    ensures SetAll(x, OriginItems(types, e))
         == x.(msgType := ReadType(types, e.msgType), msgId := e.msgId, mclass := e.mclass, source := e.source,
               from := if e.from.Some? then Some(Readdress(e.from.value)) else None)
  {
    var a := [TypeItem(ReadType(types, e.msgType))];
    var b := a + TextItems('I', e.msgId);
    var c := b + TextItems('c', e.mclass);
    var d := c + if e.source != "" then [TextItem('i', e.source)] else [];
    SetOne(x, a[0]);
    ThenText(x, a, 'I', e.msgId);
    ThenText(x, b, 'c', e.mclass);
    ThenItem(x, c, e.source != "", TextItem('i', e.source));
    ThenItem(x, d, e.from.Some?, SenderItem(if e.from.Some? then Readdress(e.from.value) else ""));
  }

  lemma {:induction false} RecipientsSet(x: Envelope, to: seq<Recipient>)
    ensures SetAll(x, RecipientItems(to)) == x.(to := x.to + to)
    decreases |to|
  {
    if to == [] {
      assert x.to + to == x.to;
    } else {
      var y := x.(to := x.to + [to[0]]);
      assert RecipientItems(to)[1..] == RecipientItems(to[1..]);
      RecipientsSet(y, to[1..]);
      assert y.to + to[1..] == x.to + to;
    }
  }

  lemma {:induction false} HeadersSet(x: Envelope, hdrs: seq<Header>)
    ensures SetAll(x, HeaderItems(hdrs)) == x.(hdrs := x.hdrs + hdrs)
    decreases |hdrs|
  {
    if hdrs == [] {
      assert x.hdrs + hdrs == x.hdrs;
    } else {
      var y := x.(hdrs := x.hdrs + [hdrs[0]]);
      assert HeaderItems(hdrs)[1..] == HeaderItems(hdrs[1..]);
      HeadersSet(y, hdrs[1..]);
      assert y.hdrs + hdrs[1..] == x.hdrs + hdrs;
    }
  }

  lemma TimesSet(x: Envelope, e: Envelope)
    requires x.lastTry == 0 && x.sendTime == 0 && e.InRange()
    ensures SetAll(x, TimeItems(e))
         == x.(created := e.created, lastTry := e.lastTry, sendTime := e.sendTime,
               expiry := if e.expiry == 0 then x.expiry else e.expiry)
  {
    var a := [CountItem('C', e.created)];
    var b := a + CountItems('L', e.lastTry);
    var c := b + CountItems('D', e.sendTime);
    SetOne(x, a[0]);
    ThenCount(x, a, 'L', e.lastTry);
    ThenCount(x, b, 'D', e.sendTime);
    ThenCount(x, c, 'X', e.expiry);
  }

  lemma UseSet(x: Envelope, e: Envelope)
    requires x.attempts == 0 && x.lastAccess == 0 && e.InRange()
    ensures SetAll(x, UseItems(e)) == x.(attempts := e.attempts, lastAccess := e.lastAccess, size := e.size)
  {
    var a := [] + CountItems('N', e.attempts);
    var b := a + CountItems('f', e.lastAccess);
    assert UseItems(e) == b + [CountItem('S', AsLong(e.size))];
    ThenCount(x, [], 'N', e.attempts);
    ThenCount(x, a, 'f', e.lastAccess);
    ThenItem(x, b, true, CountItem('S', AsLong(e.size)));
  }

  lemma RouteSet(x: Envelope, e: Envelope)
    requires x.fromProxy == None && x.mdata == None && x.subject == None && x.viaProxy == None && x.token == None
    ensures SetAll(x, RouteItems(e))
         == x.(fromProxy := e.fromProxy, mdata := e.mdata, subject := e.subject, viaProxy := e.viaProxy, token := e.token)
  {
    var a := [] + TextItems('P', e.fromProxy);
    var b := a + TextItems('M', e.mdata);
    var c := b + TextItems('s', e.subject);
    var d := c + TextItems('p', e.viaProxy);
    assert RouteItems(e) == d + TextItems('t', e.token);
    assert SetAll(x, c) == x.(fromProxy := e.fromProxy, mdata := e.mdata, subject := e.subject) by {
      ThenText(x, [], 'P', e.fromProxy);
      ThenText(x, a, 'M', e.mdata);
      ThenText(x, b, 's', e.subject);
    }
    ThenText(x, c, 'p', e.viaProxy);
    ThenText(x, d, 't', e.token);
  }

  lemma ServiceSet(x: Envelope, e: Envelope)
    requires x.vaspId == None && x.vasId == None && x.url1 == None && x.url2 == None
    ensures SetAll(x, ServiceItems(e)) == x.(vaspId := e.vaspId, vasId := e.vasId, url1 := e.url1, url2 := e.url2)
  {
    var a := [] + TextItems('V', e.vaspId);
    var b := a + TextItems('v', e.vasId);
    var c := b + TextItems('U', e.url1);
    assert ServiceItems(e) == c + TextItems('u', e.url2);
    ThenText(x, [], 'V', e.vaspId);
    ThenText(x, a, 'v', e.vasId);
    ThenText(x, b, 'U', e.url1);
    ThenText(x, c, 'u', e.url2);
  }

  lemma BillSet(x: Envelope, e: Envelope)
    requires e.InRange() && !x.dlr && !x.billed && x.amount == 0.0
    ensures SetAll(x, BillItems(e))
         == x.(dlr := e.dlr, billed := e.billed,
               amount := if e.billed then Thousandths(e.amount) as real / 1000.0 else 0.0)
  {
    var a := [] + if e.dlr then [ReportItem] else [];
    var bill := BillItem(Thousandths(e.amount) as real / 1000.0);
    assert BillItems(e) == a + if e.billed then [bill] else [];
    ThenItem(x, [], e.dlr, ReportItem);
    ThenItem(x, a, e.billed, bill);
  }

  /** The items fill a blank envelope with every field. */
  lemma ItemsSet(r: Reader, e: Envelope)
    requires e.InRange() && |e.source| < 16
    ensures SetAll(Blank(r.now), Items(r.types, e)) == Normal(r, e)
  {
    var t, x := r.types, Blank(r.now);
    var a := OriginItems(t, e);
    var to := RereadAll(e.to);
    var b := a + RecipientItems(to);
    var c := b + HeaderItems(e.hdrs);
    var d := c + TimeItems(e);
    var f := d + UseItems(e);
    var g := f + RouteItems(e);
    var h := g + ServiceItems(e);
    OriginSet(t, x, e);
    SetAppend(x, a, RecipientItems(to));
    RecipientsSet(SetAll(x, a), to);
    assert [] + to == to;
    SetAppend(x, b, HeaderItems(e.hdrs));
    HeadersSet(SetAll(x, b), e.hdrs);
    assert [] + e.hdrs == e.hdrs;
    SetAppend(x, c, TimeItems(e));
    TimesSet(SetAll(x, c), e);
    SetAppend(x, d, UseItems(e));
    UseSet(SetAll(x, d), e);
    SetAppend(x, f, RouteItems(e));
    RouteSet(SetAll(x, f), e);
    SetAppend(x, g, ServiceItems(e));
    ServiceSet(SetAll(x, g), e);
    SetAppend(x, h, BillItems(e));
    BillSet(SetAll(x, h), e);
  }

  // ---- main results ----

  ghost predicate GoodTable(types: Table) {
    Lawful(types) && forall i :: 0 <= i < |types| ==> Plain(types[i].word)
  }

  lemma NumbersArePlain(n: Long)
    ensures Plain(PrintLong(n))
  {
    var k: int := n;
    DigitsAreDigits(if k < 0 then -k else k);
  }

  lemma AmountsArePlain(a: real)
    requires a >= 0.0
    ensures Plain(PrintAmount(a))
  {
    var n := Thousandths(a);
    DigitsAreDigits(n / 1000);
  }

  ghost predicate AllPlain(lines: seq<string>) {
    forall i :: 0 <= i < |lines| ==> PlainLine(lines[i])
  }

  lemma OriginPlain(types: Table, e: Envelope)
    requires GoodTable(types) && Storable(e)
    ensures AllPlain(OriginLines(types, e))
  {
    if WordOf(types, e.msgType).Some? {
      var i := WordIsInTable(types, e.msgType);
    }
    assert Plain(TypeWord(types, e.msgType));
  }

  lemma CountPlain(code: char, n: Long)
    requires IsCountCode(code)
    ensures AllPlain(Count(code, n)) && PlainLine([code] + PrintLong(n))
  {
    NumbersArePlain(n);
  }

  lemma TimesPlain(e: Envelope)
    requires e.InRange()
    ensures AllPlain(TimeLines(e))
  {
    var a := [['C'] + PrintLong(e.created)];
    var b := a + Count('L', e.lastTry);
    var c := b + Count('D', e.sendTime);
    CountPlain('C', e.created);
    CountPlain('L', e.lastTry);
    CountPlain('D', e.sendTime);
    CountPlain('X', e.expiry);
    PlainAppend(a, Count('L', e.lastTry));
    PlainAppend(b, Count('D', e.sendTime));
    PlainAppend(c, Count('X', e.expiry));
  }

  lemma UsePlain(e: Envelope)
    requires e.InRange()
    ensures AllPlain(UseLines(e))
  {
    var a := Count('N', e.attempts);
    var b := a + Count('f', e.lastAccess);
    CountPlain('N', e.attempts);
    CountPlain('f', e.lastAccess);
    CountPlain('S', AsLong(e.size));
    PlainAppend(a, Count('f', e.lastAccess));
    PlainAppend(b, [['S'] + PrintLong(AsLong(e.size))]);
  }

  lemma ThenPlain(lines: seq<string>, code: char, v: Option<string>)
    requires AllPlain(lines) && PlainField(v) && IsTextCode(code)
    ensures AllPlain(lines + Field(code, v))
  {
  }

  lemma FieldsPlain(e: Envelope)
    requires Storable(e)
    ensures AllPlain(RouteLines(e)) && AllPlain(ServiceLines(e))
  {
    var a := Field('P', e.fromProxy);
    var b := a + Field('M', e.mdata);
    var c := b + Field('s', e.subject);
    ThenPlain(a, 'M', e.mdata);
    ThenPlain(b, 's', e.subject);
    ThenPlain(c, 'p', e.viaProxy);
    ThenPlain(c + Field('p', e.viaProxy), 't', e.token);
    var f := Field('V', e.vaspId);
    var g := f + Field('v', e.vasId);
    ThenPlain(f, 'v', e.vasId);
    ThenPlain(g, 'U', e.url1);
    ThenPlain(g + Field('U', e.url1), 'u', e.url2);
  }

  lemma BillPlain(e: Envelope)
    requires e.InRange()
    ensures AllPlain(BillLines(e))
  {
    AmountsArePlain(e.amount);
  }

  lemma ListsPlain(e: Envelope)
    requires Storable(e)
    ensures AllPlain(RecipientLines(e.to)) && AllPlain(HeaderLines(e.hdrs))
  {
  }

  lemma PlainAppend(a: seq<string>, b: seq<string>)
    requires AllPlain(a) && AllPlain(b)
    ensures AllPlain(a + b)
  {
  }

  lemma LinesArePlain(types: Table, e: Envelope)
    requires GoodTable(types) && Storable(e)
    ensures AllPlain(Lines(types, e))
  {
    OriginPlain(types, e);
    ListsPlain(e);
    TimesPlain(e);
    UsePlain(e);
    FieldsPlain(e);
    BillPlain(e);
    var a := OriginLines(types, e);
    var b := a + RecipientLines(e.to);
    var c := b + HeaderLines(e.hdrs);
    var d := c + TimeLines(e);
    var f := d + UseLines(e);
    var g := f + RouteLines(e);
    var h := g + ServiceLines(e);
    PlainAppend(a, RecipientLines(e.to));
    PlainAppend(b, HeaderLines(e.hdrs));
    PlainAppend(c, TimeLines(e));
    PlainAppend(d, UseLines(e));
    PlainAppend(f, RouteLines(e));
    PlainAppend(g, ServiceLines(e));
    PlainAppend(h, BillLines(e));
  }

  /** Reading a written envelope gives its normal form, whatever follows the end line. */
  lemma ReadsBackNormal(r: Reader, e: Envelope, rest: string)
    requires GoodTable(r.types) && Storable(e)
    ensures Decode(r, Encode(r.types, e) + rest) == Some(Normal(r, e))
  {
    LinesArePlain(r.types, e);
    ReadFile(r.types, Blank(r.now), Lines(r.types, e), rest);
    LinesSay(r.types, e);
    ItemsSet(r, e);
  }

  /** No proper prefix of a written file is accepted, so a crash while an entry is being created leaves
      nothing that would be delivered. */
  lemma CutFileIsRejected(r: Reader, e: Envelope, p: string)
    requires GoodTable(r.types) && Storable(e) && p < Encode(r.types, e)
    ensures Decode(r, p) == None
  {
    LinesArePlain(r.types, e);
    CutFileHasNoEnd(r.types, Blank(r.now), Lines(r.types, e), p);
  }

  /** The conditions under which nothing is lost or altered: a known type, an expiry, addresses that are
      valid or that repair leaves alone, and a bill in whole thousandths. */
  predicate Settled(types: Table, e: Envelope) {
    && (WordOf(types, e.msgType).Some? || e.msgType == 0)
    && e.expiry != 0
    && (e.from.Some? ==> SettledAddress(e.from.value))
    && (forall i :: 0 <= i < |e.to| ==> SettledAddress(e.to[i].address))
    && (if e.billed then (e.amount * 1000.0).Floor as real == e.amount * 1000.0 else e.amount == 0.0)
  }

  predicate SettledAddress(a: string) {
    ValidAddress(a) || FixupAddress(a) == a
  }

  lemma RereadAllSame(to: seq<Recipient>)
    ensures RereadAll(to) == to <==> forall i :: 0 <= i < |to| ==> SettledAddress(to[i].address)
  {
    if RereadAll(to) == to {
      forall i | 0 <= i < |to| ensures SettledAddress(to[i].address) {
        assert to[i] == RereadAll(to)[i];
      }
    }
  }

  lemma RoundedSame(a: real)
    requires a >= 0.0
    ensures Thousandths(a) as real / 1000.0 == a <==> (a * 1000.0).Floor as real == a * 1000.0
  {
  }

  /** An envelope comes back from its file unchanged exactly when it is settled. */
  lemma RoundTripIffSettled(r: Reader, e: Envelope)
    requires GoodTable(r.types) && Storable(e)
    ensures Decode(r, Encode(r.types, e)) == Some(e) <==> Settled(r.types, e)
  {
    ReadsBackNormal(r, e, "");
    assert Encode(r.types, e) + "" == Encode(r.types, e);
    NormalIffSettled(r, e);
  }

  lemma NormalIffSettled(r: Reader, e: Envelope)
    requires e.InRange()
    ensures Normal(r, e) == e <==> Settled(r.types, e)
  {
    RereadAllSame(e.to);
    RoundedSame(e.amount);
  }
}
