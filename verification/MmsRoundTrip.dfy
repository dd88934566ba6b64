/** What a message is after it went through the binary form: which headers, in which order, and the body. */
module MmsRoundTrip {
  import opened Wrappers
  import opened Text
  import opened StringTable
  import opened Envelopes
  import opened HeaderLists
  import opened Octets
  import opened WspForms
  import opened MmsFields
  import opened MmsFieldTrips
  import opened Multipart
  import MR = MultipartRoundTrip
  import opened MmsMessages

  /** What the decoder should find for a field. */
  function TripOf(cfg: Config, msgType: int, f: Field): Option<Header> {
    match f
    case App(name, v) => Some(NewHeader(Quoted(name), Quoted(v)))
    case Known(code, v) =>
      var name := WordOf(cfg.tables.header, code);
      var value := Trip(cfg, cfg.kindOf(code), msgType, v);
      if name == None || value == None then None else Some(NewHeader(name.value, value.value))
  }

  predicate Good(cfg: Config, f: Field) {
    match f
    case App(name, v) => NUL !in name && NUL !in v
    case Known(code, v) =>
      var k := cfg.kindOf(code);
      code < 128 && Packable(cfg, k, v) && TablesFit(cfg, k) && (k.Date? ==> GoodDate(cfg, v))
  }

  predicate AllGood(cfg: Config, fs: seq<Field>) {
    fs != [] ==> Good(cfg, fs[0]) && AllGood(cfg, fs[1..])
  }

  /** Neither a message type nor a content type. */
  predicate Middle(fs: seq<Field>) {
    fs != [] ==> !(fs[0].Known? && (fs[0].code == MESSAGE_TYPE || fs[0].code == CONTENT_TYPE)) && Middle(fs[1..])
  }

  predicate AllTrip(cfg: Config, msgType: int, fs: seq<Field>) {
    fs != [] ==> TripOf(cfg, msgType, fs[0]).Some? && AllTrip(cfg, msgType, fs[1..])
  }

  function Trips(cfg: Config, msgType: int, fs: seq<Field>): seq<Header>
    requires AllTrip(cfg, msgType, fs)
  {
    if fs == [] then [] else [TripOf(cfg, msgType, fs[0]).value] + Trips(cfg, msgType, fs[1..])
  }

  // ---- one field ----

  lemma QuotedStart(t: string)
    ensures Quoted(t) != "" && 32 <= Quoted(t)[0] as int < 128
  {
  }

  /** An application header is read up to its own end. */
  lemma AppIsRead(cfg: Config, msgType: int, f: Field, rest: string)
    requires f.App? && Good(cfg, f)
    ensures var left := PackOne(cfg, f) + rest;
            && left != "" && 32 <= left[0] as int < 128
            && ReadField(cfg, msgType, left).header == TripOf(cfg, msgType, f) && ReadField(cfg, msgType, left).left == rest
  {
    var left := PackOne(cfg, f) + rest;
    assert NUL !in Quoted(f.name) && NUL !in Quoted(f.value);
    assert left == Quoted(f.name) + [NUL] + (PackText(f.value) + rest);
    assert PackText(f.value) + rest == Quoted(f.value) + [NUL] + rest;
    NulStringReadsBack(Quoted(f.name), PackText(f.value) + rest);
    NulStringReadsBack(Quoted(f.value), rest);
    QuotedStart(f.name);
    assert left[0] == Quoted(f.name)[0];
  }

  lemma KnownIsRead(cfg: Config, name: Option<string>, k: Kind, msgType: int, v: string, rest: string)
    requires Packable(cfg, k, v) && TablesFit(cfg, k) && (k.Date? ==> GoodDate(cfg, v))
    ensures var value := Trip(cfg, k, msgType, v);
            ReadKnown(cfg, name, k, msgType, PackField(cfg, k, v) + rest)
            == FieldRead(if name == None || value == None then None else Some(NewHeader(name.value, value.value)),
                         Arrived(Pack(cfg, k, v)), rest)
  {
    FieldTrips(cfg, k, msgType, v, rest);
  }

  /** A field is read to its own end, and gives the header `TripOf` says. */
  lemma FieldIsRead(cfg: Config, msgType: int, f: Field, rest: string)
    requires Good(cfg, f)
    ensures var left := PackOne(cfg, f) + rest;
            && left != "" && (if f.Known? then left[0] as int % 128 == f.code else 32 <= left[0] as int % 128)
            && ReadField(cfg, msgType, left).header == TripOf(cfg, msgType, f) && ReadField(cfg, msgType, left).left == rest
  {
    match f
    case App(_, _) => AppIsRead(cfg, msgType, f, rest);
    case Known(code, v) =>
      var k := cfg.kindOf(code);
      var left := PackOne(cfg, f) + rest;
      assert left[0] as int == 128 + code && (left[0] as int - 128) % 128 == code;
      assert left[1..] == PackField(cfg, k, v) + rest;
      KnownIsRead(cfg, WordOf(cfg.tables.header, code), k, msgType, v, rest);
  }

  // ---- all fields ----

  /** One turn of the decoding loop, over a field that gives `h`. */
  lemma DecodeTurn(cfg: Config, msgType: int, acc: seq<Header>, left: string, h: Option<Header>, rest: string)
    requires left != "" && ReadField(cfg, msgType, left).header == h && ReadField(cfg, msgType, left).left == rest
    ensures var all, code := DecodeHeaders(cfg, msgType, acc, left), left[0] as int % 128;
            if h == None then all == HeadersRead(acc, rest)
            else if code == CONTENT_TYPE then all == HeadersRead(acc + [h.value], rest)
            else code == MESSAGE_TYPE || all == DecodeHeaders(cfg, msgType, acc + [h.value], rest)
  {
  }

  lemma DecodeStep(cfg: Config, msgType: int, acc: seq<Header>, f: Field, rest: string)
    requires Good(cfg, f) && !(f.Known? && f.code == MESSAGE_TYPE)
    ensures var h := TripOf(cfg, msgType, f);
            var all := DecodeHeaders(cfg, msgType, acc, PackOne(cfg, f) + rest);
            if h == None then all == HeadersRead(acc, rest)
            else if f.Known? && f.code == CONTENT_TYPE then all == HeadersRead(acc + [h.value], rest)
            else all == DecodeHeaders(cfg, msgType, acc + [h.value], rest)
  {
    FieldIsRead(cfg, msgType, f, rest);
    DecodeTurn(cfg, msgType, acc, PackOne(cfg, f) + rest, TripOf(cfg, msgType, f), rest);
  }

  lemma PackHead(cfg: Config, f: Field, fs: seq<Field>)
    ensures PackAll(cfg, [f] + fs) == PackOne(cfg, f) + PackAll(cfg, fs)
  {
    assert ([f] + fs)[1..] == fs;
  }

  lemma Associate(a: string, b: string, c: string, d: string)
    ensures a + b + c + d == a + (b + (c + d)) && a + b + c == a + (b + c)
  {
  }

  lemma OneFieldMore(cfg: Config, f: Field, fs: seq<Field>, rest: string)
    ensures PackAll(cfg, [f] + fs) + rest == PackOne(cfg, f) + (PackAll(cfg, fs) + rest)
  {
    PackHead(cfg, f, fs);
    Associate(PackOne(cfg, f), PackAll(cfg, fs), rest, "");
  }

  /** The fields between message type and content type are read one after the other. */
  lemma {:induction false} MiddleIsRead(cfg: Config, msgType: int, acc: seq<Header>, fs: seq<Field>, rest: string)
    requires AllGood(cfg, fs) && Middle(fs) && AllTrip(cfg, msgType, fs)
    ensures DecodeHeaders(cfg, msgType, acc, PackAll(cfg, fs) + rest)
         == DecodeHeaders(cfg, msgType, acc + Trips(cfg, msgType, fs), rest)
    decreases |fs|
  {
    if fs == [] {
      assert PackAll(cfg, fs) + rest == rest && acc + Trips(cfg, msgType, fs) == acc;
    } else {
      var h := TripOf(cfg, msgType, fs[0]).value;
      assert fs == [fs[0]] + fs[1..];
      OneFieldMore(cfg, fs[0], fs[1..], rest);
      DecodeStep(cfg, msgType, acc, fs[0], PackAll(cfg, fs[1..]) + rest);
      MiddleIsRead(cfg, msgType, acc + [h], fs[1..], rest);
      assert acc + Trips(cfg, msgType, fs) == acc + [h] + Trips(cfg, msgType, fs[1..]);
    }
  }

  // ---- the header block ----

  /** The message type is read first, and the decoder goes by it from then on. */
  lemma TypeIsRead(cfg: Config, acc: seq<Header>, v: string, rest: string)
    requires cfg.kindOf(MESSAGE_TYPE) == Token(cfg.tables.messageType, false) && Good(cfg, Known(MESSAGE_TYPE, v))
    requires TripOf(cfg, 0, Known(MESSAGE_TYPE, v)).Some?
    ensures DecodeHeaders(cfg, 0, acc, PackOne(cfg, Known(MESSAGE_TYPE, v)) + rest)
         == DecodeHeaders(cfg, TokenForm(cfg.tables.messageType, v).n, acc + [TripOf(cfg, 0, Known(MESSAGE_TYPE, v)).value], rest)
  {
    var f := Known(MESSAGE_TYPE, v);
    var k := cfg.kindOf(MESSAGE_TYPE);
    var left := PackOne(cfg, f) + rest;
    assert left[0] as int == 128 + MESSAGE_TYPE && left[1..] == PackField(cfg, k, v) + rest;
    KnownIsRead(cfg, WordOf(cfg.tables.header, MESSAGE_TYPE), k, 0, v, rest);
    assert ReadField(cfg, 0, left).header == TripOf(cfg, 0, f) && ReadField(cfg, 0, left).left == rest;
    assert ReadField(cfg, 0, left).form == TokenForm(cfg.tables.messageType, v);
  }

  lemma {:induction false} OthersAreMiddle(cfg: Config, hdrs: seq<Header>)
    ensures Middle(Others(cfg, hdrs))
  {
    if hdrs != [] {
      OthersAreMiddle(cfg, hdrs[1..]);
      var f := FieldOf(cfg, hdrs[0]);
      if HasOwnPlace(f) {
        assert [] + Others(cfg, hdrs[1..]) == Others(cfg, hdrs[1..]);
      } else {
        assert ([f] + Others(cfg, hdrs[1..]))[1..] == Others(cfg, hdrs[1..]);
      }
    }
  }

  lemma {:induction false} MiddleAppend(a: seq<Field>, b: seq<Field>)
    requires Middle(a) && Middle(b)
    ensures Middle(a + b)
  {
    if a == [] {
      assert a + b == b;
    } else {
      MiddleAppend(a[1..], b);
      assert (a + b)[1..] == a[1..] + b;
    }
  }

  lemma AfterTypeIsMiddle(cfg: Config, hdrs: seq<Header>)
    requires Sendable(hdrs)
    ensures Middle(AfterType(cfg, hdrs))
  {
    var id, version := Maybe(TRANSACTION_ID, HeaderValue(hdrs, "X-Mms-Transaction-Id")), [Known(MMS_VERSION, HeaderValue(hdrs, "X-Mms-MMS-Version").value)];
    assert version[1..] == [] && Middle(version);
    if id != [] {
      assert id[1..] == [];
    }
    assert Middle(id);
    MiddleAppend(id, version);
    OthersAreMiddle(cfg, hdrs);
    MiddleAppend(id + version, Others(cfg, hdrs));
  }

  lemma {:induction false} PackAppend(cfg: Config, a: seq<Field>, b: seq<Field>)
    ensures PackAll(cfg, a + b) == PackAll(cfg, a) + PackAll(cfg, b)
  {
    if a == [] {
      assert a + b == b && PackAll(cfg, a) + PackAll(cfg, b) == PackAll(cfg, b);
    } else {
      assert (a + b)[1..] == a[1..] + b;
      PackAppend(cfg, a[1..], b);
    }
  }

  function TypeField(hdrs: seq<Header>): Field
    requires Sendable(hdrs)
  {
    Known(MESSAGE_TYPE, HeaderValue(hdrs, "X-Mms-Message-Type").value)
  }

  function TypeSent(cfg: Config, hdrs: seq<Header>): nat
    requires Sendable(hdrs)
  {
    TokenForm(cfg.tables.messageType, HeaderValue(hdrs, "X-Mms-Message-Type").value).n
  }

  /** Every header can be sent and is understood on arrival. */
  predicate Travels(cfg: Config, hdrs: seq<Header>) {
    && Sendable(hdrs)
    && Good(cfg, TypeField(hdrs)) && TripOf(cfg, 0, TypeField(hdrs)).Some?
    && AllGood(cfg, AfterType(cfg, hdrs)) && AllTrip(cfg, TypeSent(cfg, hdrs), AfterType(cfg, hdrs))
    && (ContentType(hdrs).Some? ==>
          var f := Known(CONTENT_TYPE, ContentType(hdrs).value);
          Good(cfg, f) && TripOf(cfg, TypeSent(cfg, hdrs), f).Some?)
  }

  /** The headers that arrive: message type, transaction id and version first, content type last. */
  function Arriving(cfg: Config, hdrs: seq<Header>): seq<Header>
    requires Travels(cfg, hdrs)
  {
    [TripOf(cfg, 0, TypeField(hdrs)).value] + Trips(cfg, TypeSent(cfg, hdrs), AfterType(cfg, hdrs))
    + (if ContentType(hdrs).Some? then [TripOf(cfg, TypeSent(cfg, hdrs), Known(CONTENT_TYPE, ContentType(hdrs).value)).value] else [])
  }

  lemma ThreeParts(cfg: Config, f: Field, b: seq<Field>, c: seq<Field>, body: string)
    ensures PackAll(cfg, [f] + b + c) + body == PackOne(cfg, f) + (PackAll(cfg, b) + (PackAll(cfg, c) + body))
  {
    PackAppend(cfg, [f] + b, c);
    PackHead(cfg, f, b);
    Associate(PackOne(cfg, f), PackAll(cfg, b), PackAll(cfg, c), body);
  }

  lemma OrderedOctets(cfg: Config, hdrs: seq<Header>, body: string)
    requires Sendable(hdrs)
    ensures PackAll(cfg, Ordered(cfg, hdrs)) + body
         == PackOne(cfg, TypeField(hdrs)) + (PackAll(cfg, AfterType(cfg, hdrs)) + (PackAll(cfg, Maybe(CONTENT_TYPE, ContentType(hdrs))) + body))
  {
    ThreeParts(cfg, TypeField(hdrs), AfterType(cfg, hdrs), Maybe(CONTENT_TYPE, ContentType(hdrs)), body);
  }

  /** The header decoder finds the headers that were sent, and stops exactly at the first octet of the body,
      which is there only behind a content type. */
  lemma HeadersTrip(cfg: Config, hdrs: seq<Header>, body: string)
    requires cfg.kindOf(MESSAGE_TYPE) == Token(cfg.tables.messageType, false)
    requires Travels(cfg, hdrs) && (body != "" ==> ContentType(hdrs).Some?)
    ensures DecodeHeaders(cfg, 0, [], PackAll(cfg, Ordered(cfg, hdrs)) + body) == HeadersRead(Arriving(cfg, hdrs), body)
  {
    var T := TypeSent(cfg, hdrs);
    var first, mid := TripOf(cfg, 0, TypeField(hdrs)).value, Trips(cfg, T, AfterType(cfg, hdrs));
    var rest := PackAll(cfg, Maybe(CONTENT_TYPE, ContentType(hdrs))) + body;
    OrderedOctets(cfg, hdrs, body);
    TypeIsRead(cfg, [], TypeField(hdrs).value, PackAll(cfg, AfterType(cfg, hdrs)) + rest);
    assert [] + [first] == [first];
    AfterTypeIsMiddle(cfg, hdrs);
    MiddleIsRead(cfg, T, [first], AfterType(cfg, hdrs), rest);
    match ContentType(hdrs)
    case None =>
      assert rest == "" && [first] + mid + [] == [first] + mid;
    case Some(v) =>
      var f := Known(CONTENT_TYPE, v);
      OneFieldMore(cfg, f, [], body);
      assert [f] + [] == [f] && PackAll(cfg, []) + body == body;
      DecodeStep(cfg, T, [first] + mid, f, body);
  }
}
