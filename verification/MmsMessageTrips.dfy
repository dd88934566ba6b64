/** Main results about whole messages: what mms_frombinary_ex makes of what mms_tobinary wrote. */
module MmsMessageTrips {
  import opened Wrappers
  import opened Text
  import opened StringTable
  import opened Envelopes
  import opened HeaderLists
  import opened ContentTypes
  import opened Octets
  import opened WspForms
  import opened MmsFields
  import opened MmsFieldTrips
  import opened Multipart
  import MR = MultipartRoundTrip
  import opened MmsMessages
  import opened MmsRoundTrip

  /** The header table is lawful and has the names that the decoder looks for. */
  ghost predicate Named(cfg: Config) {
    && Lawful(cfg.tables.header)
    && WordOf(cfg.tables.header, MESSAGE_TYPE) == Some("X-Mms-Message-Type")
    && WordOf(cfg.tables.header, CONTENT_TYPE) == Some("Content-Type")
  }

  // ---- finding the content type again ----

  /** Application headers carry names that are not in the table. */
  predicate AppsApart(cfg: Config, fs: seq<Field>) {
    fs != [] ==> (fs[0].App? ==> NumberOf(cfg.tables.header, fs[0].name) < 0) && AppsApart(cfg, fs[1..])
  }

  lemma {:induction false} OthersApart(cfg: Config, hdrs: seq<Header>)
    ensures AppsApart(cfg, Others(cfg, hdrs))
  {
    if hdrs != [] {
      OthersApart(cfg, hdrs[1..]);
      var f := FieldOf(cfg, hdrs[0]);
      if HasOwnPlace(f) {
        assert [] + Others(cfg, hdrs[1..]) == Others(cfg, hdrs[1..]);
      } else {
        assert ([f] + Others(cfg, hdrs[1..]))[1..] == Others(cfg, hdrs[1..]);
      }
    }
  }

  /** Field names differ from the name of any other code, whatever the case. */
  lemma NamesDiffer(cfg: Config, code: int, other: int)
    requires Lawful(cfg.tables.header) && code != other
    requires WordOf(cfg.tables.header, code).Some? && WordOf(cfg.tables.header, other).Some?
    ensures !EqNoCase(WordOf(cfg.tables.header, code).value, WordOf(cfg.tables.header, other).value)
  {
    var i := WordIsInTable(cfg.tables.header, code);
    var j := WordIsInTable(cfg.tables.header, other);
  }

  lemma UnknownNamesDiffer(cfg: Config, name: string, code: nat)
    requires Lawful(cfg.tables.header) && WordOf(cfg.tables.header, code).Some? && NumberOf(cfg.tables.header, name) < 0
    ensures !EqNoCase(name, WordOf(cfg.tables.header, code).value)
  {
    var i := WordIsInTable(cfg.tables.header, code);
    if EqNoCase(name, WordOf(cfg.tables.header, code).value) {
      NumberFound(cfg.tables.header, name, i);
    }
  }

  lemma NotContentType(cfg: Config, msgType: int, f: Field)
    requires Named(cfg) && TripOf(cfg, msgType, f).Some? && !(f.Known? && f.code == CONTENT_TYPE)
    requires f.App? ==> NumberOf(cfg.tables.header, f.name) < 0
    ensures !EqNoCase(TripOf(cfg, msgType, f).value.name, "Content-Type")
  {
    match f
    case Known(code, _) => NamesDiffer(cfg, code, CONTENT_TYPE);
    case App(name, _) =>
      UnknownNamesDiffer(cfg, name, CONTENT_TYPE);
      if NeedsQuote(name) {
        assert Quoted(name)[0] == QUOTE && ToLower(QUOTE) != ToLower("Content-Type"[0]);
      }
  }

  lemma {:induction false} NoContentTypeAmong(cfg: Config, msgType: int, fs: seq<Field>)
    requires Named(cfg) && Middle(fs) && AppsApart(cfg, fs) && AllTrip(cfg, msgType, fs)
    ensures NoneCalled(Trips(cfg, msgType, fs), "Content-Type")
  {
    if fs != [] {
      NotContentType(cfg, msgType, fs[0]);
      NoContentTypeAmong(cfg, msgType, fs[1..]);
      assert Trips(cfg, msgType, fs)[1..] == Trips(cfg, msgType, fs[1..]);
    }
  }

  lemma {:induction false} ApartAppend(cfg: Config, a: seq<Field>, b: seq<Field>)
    requires AppsApart(cfg, a) && AppsApart(cfg, b)
    ensures AppsApart(cfg, a + b)
  {
    if a == [] {
      assert a + b == b;
    } else {
      ApartAppend(cfg, a[1..], b);
      assert (a + b)[1..] == a[1..] + b;
    }
  }

  lemma AfterTypeApart(cfg: Config, hdrs: seq<Header>)
    requires Sendable(hdrs)
    ensures AppsApart(cfg, AfterType(cfg, hdrs))
  {
    var id, version := Maybe(TRANSACTION_ID, HeaderValue(hdrs, "X-Mms-Transaction-Id")), [Known(MMS_VERSION, HeaderValue(hdrs, "X-Mms-MMS-Version").value)];
    assert version[1..] == [] && AppsApart(cfg, version);
    if id != [] {
      assert id[1..] == [];
    }
    ApartAppend(cfg, id, version);
    OthersApart(cfg, hdrs);
    ApartAppend(cfg, id + version, Others(cfg, hdrs));
  }

  /** The value under which the content type arrives, if it was sent. */
  function TypeArriving(cfg: Config, hdrs: seq<Header>): Option<string>
    requires Travels(cfg, hdrs)
  {
    match ContentType(hdrs)
    case None => None
    case Some(v) => Some(TripOf(cfg, TypeSent(cfg, hdrs), Known(CONTENT_TYPE, v)).value.value)
  }

  /** Among the headers that arrive, message type and content type are the ones that were sent. */
  lemma KeysArrive(cfg: Config, hdrs: seq<Header>)
    requires Named(cfg) && Travels(cfg, hdrs)
    ensures HeaderValue(Arriving(cfg, hdrs), "X-Mms-Message-Type") == Some(TripOf(cfg, 0, TypeField(hdrs)).value.value)
    ensures ContentType(Arriving(cfg, hdrs)) == TypeArriving(cfg, hdrs)
  {
    var T := TypeSent(cfg, hdrs);
    var first, mid := TripOf(cfg, 0, TypeField(hdrs)).value, Trips(cfg, T, AfterType(cfg, hdrs));
    AfterTypeIsMiddle(cfg, hdrs);
    AfterTypeApart(cfg, hdrs);
    NoContentTypeAmong(cfg, T, AfterType(cfg, hdrs));
    NotContentType(cfg, 0, TypeField(hdrs));
    assert ([first] + mid)[1..] == mid;
    match ContentType(hdrs)
    case None =>
      assert Arriving(cfg, hdrs) == [first] + mid;
      LastIsFound([first] + mid, first, "Content-Type");
    case Some(v) =>
      var last := TripOf(cfg, T, Known(CONTENT_TYPE, v)).value;
      assert Arriving(cfg, hdrs) == [first] + mid + [last];
      LastIsFound([first] + mid, last, "Content-Type");
  }

  // ---- whole messages ----

  /** The content type that arrives calls for the kind of body that was sent. */
  predicate BodyFits(cfg: Config, hc: HeaderCodec, hdrs: seq<Header>, b: Body)
    requires Travels(cfg, hdrs)
  {
    var t := TypeArriving(cfg, hdrs);
    var multi := t.Some? && StartsWith(t.value, "application/vnd.wap.multipart");
    match b
    case NoBody => !multi
    case Single(text) => !multi && (t.Some? || text == "")
    case Parts(ps) => multi && MR.Fits(hc, ps) && MR.Shaped(ps) && MR.StableTree(hc, ps)
  }

  /** A message whose headers, without their boundary, are understood on arrival, as is its body. */
  predicate Deliverable(cfg: Config, hc: HeaderCodec, m: Message) {
    var hdrs := StripBoundary(m.headers);
    |hdrs| == |m.headers| && Travels(cfg, hdrs) && BodyFits(cfg, hc, hdrs, m.body)
  }

  /** A body that is missing arrives as an empty one. */
  function BodyArriving(b: Body): Body {
    if b.NoBody? then Single("") else b
  }

  /** The message type by which the fix-up goes. */
  function TypeFound(cfg: Config, hdrs: seq<Header>): int
    requires Travels(cfg, hdrs)
  {
    NumberOf(cfg.tables.messageType, TripOf(cfg, 0, TypeField(hdrs)).value.value)
  }

  /** What the receiver makes of headers and body. */
  function Received(cfg: Config, hdrs: seq<Header>, b: Body): Message
    requires Travels(cfg, hdrs)
  {
    Message(Fixup(cfg, TypeFound(cfg, hdrs), Arriving(cfg, hdrs), BodyArriving(b)), BodyArriving(b))
  }

  lemma ArrivesAs(cfg: Config, hc: HeaderCodec, hdrs: seq<Header>, b: Body)
    requires cfg.kindOf(MESSAGE_TYPE) == Token(cfg.tables.messageType, false)
    requires Named(cfg) && Travels(cfg, hdrs) && BodyFits(cfg, hc, hdrs, b)
    ensures FromBinary(cfg, hc, PackAll(cfg, Ordered(cfg, hdrs)) + PackBody(hc, b)) == Some(Received(cfg, hdrs, b))
  {
    HeadersTrip(cfg, hdrs, PackBody(hc, b));
    KeysArrive(cfg, hdrs);
    BodyArrives(hc, Arriving(cfg, hdrs), b);
    Assembled(cfg, hc, PackAll(cfg, Ordered(cfg, hdrs)) + PackBody(hc, b), Arriving(cfg, hdrs), PackBody(hc, b), BodyArriving(b),
              TripOf(cfg, 0, TypeField(hdrs)).value.value);
  }

  /** Main result: whatever its headers, a message arrives with each header as `Trip` says, in the order
      message type, transaction id, version, the others as they were, content type without its boundary; with
      its whole body, the parts at every depth; and with the fix-ups of a received message. */
  lemma MessageArrives(cfg: Config, hc: HeaderCodec, m: Message)
    requires Standard(cfg) && Named(cfg) && Deliverable(cfg, hc, m)
    ensures FromBinary(cfg, hc, ToBinary(cfg, hc, m)) == Some(Received(cfg, StripBoundary(m.headers), m.body))
  {
    TypeIsToken(cfg);
    ArrivesAs(cfg, hc, StripBoundary(m.headers), m.body);
  }

  lemma TypeIsToken(cfg: Config)
    requires Standard(cfg)
    ensures cfg.kindOf(MESSAGE_TYPE) == Token(cfg.tables.messageType, false)
  {
  }

  lemma Assembled(cfg: Config, hc: HeaderCodec, data: string, hdrs: seq<Header>, left: string, b: Body, t: string)
    requires DecodeHeaders(cfg, 0, [], data) == HeadersRead(hdrs, left)
    requires HeaderValue(hdrs, "X-Mms-Message-Type") == Some(t) && ReadMessageBody(hc, hdrs, left) == Some(b)
    ensures FromBinary(cfg, hc, data) == Some(Message(Fixup(cfg, NumberOf(cfg.tables.messageType, t), hdrs, b), b))
  {
  }

  lemma BodyArrives(hc: HeaderCodec, hdrs: seq<Header>, b: Body)
    requires IsMultipart(hdrs) == b.Parts?
    requires b.Parts? ==> MR.Fits(hc, b.parts) && MR.Shaped(b.parts) && MR.StableTree(hc, b.parts)
    ensures ReadMessageBody(hc, hdrs, PackBody(hc, b)) == Some(BodyArriving(b))
  {
    if b.Parts? {
      MR.RoundTripIff(hc, b.parts, "");
      assert EncodeBody(hc, b.parts) + "" == EncodeBody(hc, b.parts);
    }
  }

  // ---- fixing up twice ----

  /** A default that was put in is there, and nothing else changes. */
  lemma DefaultIsThere(h: seq<Header>, name: string, value: Option<string>, other: string)
    ensures value.Some? ==> !NoneCalled(WithDefault(h, name, value), name)
    ensures NoneCalled(WithDefault(h, name, value), other) ==> NoneCalled(h, other)
    ensures NoneCalled(h, other) && !EqNoCase(name, other) ==> NoneCalled(WithDefault(h, name, value), other)
    ensures value == None || !NoneCalled(h, name) ==> WithDefault(h, name, value) == h
  {
    NoneIsMissing(h, name);
    if value.Some? {
      OneMoreCalled(h, NewHeader(name, value.value), name);
      OneMoreCalled(h, NewHeader(name, value.value), other);
    }
  }

  lemma SettledDefaults(cfg: Config, msgType: int, h: seq<Header>, b: Body)
    ensures var d := ContentDefaults(cfg, msgType, h, b);
            && (cfg.from == None || !NoneCalled(d, "From")) && !NoneCalled(d, "Date") && !NoneCalled(d, "Content-Type")
            && (msgType == RETRIEVE_CONF || !NoneCalled(d, "X-Mms-Transaction-ID"))
    ensures !NoneCalled(h, "X-Mms-MMS-Version") ==> !NoneCalled(ContentDefaults(cfg, msgType, h, b), "X-Mms-MMS-Version")
    ensures NoneCalled(h, "MIME-Version") ==> NoneCalled(ContentDefaults(cfg, msgType, h, b), "MIME-Version")
  {
    var date, id, ctype := Some(cfg.formatDate(cfg.now)), (if msgType == RETRIEVE_CONF then None else Some("00001")), Some(DefaultType(b));
    var h1 := WithDefault(h, "From", cfg.from);
    var h2 := WithDefault(h1, "Date", date);
    var h3 := WithDefault(h2, "X-Mms-Transaction-ID", id);
    FourDefaults(h, cfg.from, date, id, ctype, "From");
    FourDefaults(h, cfg.from, date, id, ctype, "Date");
    FourDefaults(h, cfg.from, date, id, ctype, "X-Mms-Transaction-ID");
    FourDefaults(h, cfg.from, date, id, ctype, "X-Mms-MMS-Version");
    FourDefaults(h, cfg.from, date, id, ctype, "MIME-Version");
    DefaultIsThere(h, "From", cfg.from, "From");
    DefaultIsThere(h1, "Date", date, "Date");
    DefaultIsThere(h2, "X-Mms-Transaction-ID", id, "Date");
    DefaultIsThere(h3, "Content-Type", ctype, "Date");
    assert "Content-Type"[0] != "MIME-Version"[0] && !HasDefault("MIME-Version");
  }

  predicate HasDefault(name: string) {
    EqNoCase("From", name) || EqNoCase("Date", name) || EqNoCase("X-Mms-Transaction-ID", name) || EqNoCase("Content-Type", name)
  }

  /** Four defaults in a row take no name away, and bring in none but their own. */
  lemma FourDefaults(h: seq<Header>, from: Option<string>, date: Option<string>, id: Option<string>, ctype: Option<string>, name: string)
    ensures var h1 := WithDefault(h, "From", from);
            var h2 := WithDefault(h1, "Date", date);
            var h3 := WithDefault(h2, "X-Mms-Transaction-ID", id);
            var h4 := WithDefault(h3, "Content-Type", ctype);
            && (NoneCalled(h4, name) ==> NoneCalled(h3, name) && NoneCalled(h2, name) && NoneCalled(h1, name) && NoneCalled(h, name))
            && (NoneCalled(h, name) && !HasDefault(name) ==> NoneCalled(h4, name))
  {
    var h1 := WithDefault(h, "From", from);
    var h2 := WithDefault(h1, "Date", date);
    var h3 := WithDefault(h2, "X-Mms-Transaction-ID", id);
    DefaultIsThere(h, "From", from, name);
    DefaultIsThere(h1, "Date", date, name);
    DefaultIsThere(h2, "X-Mms-Transaction-ID", id, name);
    DefaultIsThere(h3, "Content-Type", ctype, name);
  }

  /** Defaults change nothing where nothing is missing. */
  lemma NothingMissing(cfg: Config, msgType: int, h: seq<Header>, b: Body)
    requires cfg.from == None || !NoneCalled(h, "From")
    requires !NoneCalled(h, "Date") && !NoneCalled(h, "Content-Type")
    requires msgType == RETRIEVE_CONF || !NoneCalled(h, "X-Mms-Transaction-ID")
    ensures ContentDefaults(cfg, msgType, h, b) == h
  {
    NoneIsMissing(h, "From");
    NoneIsMissing(h, "Date");
    NoneIsMissing(h, "X-Mms-Transaction-ID");
    NoneIsMissing(h, "Content-Type");
  }

  lemma OpeningIsThere(hdrs: seq<Header>)
    ensures !NoneCalled(Opening(hdrs), "X-Mms-MMS-Version") && NoneCalled(Opening(hdrs), "MIME-Version")
  {
    var v := WithDefault(hdrs, "X-Mms-MMS-Version", Some("1.0"));
    DefaultIsThere(hdrs, "X-Mms-MMS-Version", Some("1.0"), "MIME-Version");
    WithoutOthers(v, "MIME-Version", "X-Mms-MMS-Version");
    assert "MIME-Version"[0] != "X-Mms-MMS-Version"[0];
  }

  lemma OpeningSettled(hdrs: seq<Header>)
    requires !NoneCalled(hdrs, "X-Mms-MMS-Version") && NoneCalled(hdrs, "MIME-Version")
    ensures Opening(hdrs) == hdrs
  {
    NoneIsMissing(hdrs, "X-Mms-MMS-Version");
    NoneIsMissing(hdrs, "MIME-Version");
  }

  /** Headers that lack nothing still lack nothing once the boundary is stripped. */
  lemma StrippedLacksNothing(cfg: Config, msgType: int, d: seq<Header>, b: Body)
    requires !NoneCalled(d, "X-Mms-MMS-Version") && NoneCalled(d, "MIME-Version")
    requires (cfg.from == None || !NoneCalled(d, "From")) && !NoneCalled(d, "Date") && !NoneCalled(d, "Content-Type")
    requires msgType == RETRIEVE_CONF || !NoneCalled(d, "X-Mms-Transaction-ID")
    ensures var s := StripBoundary(d); Opening(s) == s && ContentDefaults(cfg, msgType, s, b) == s
  {
    StripKeepsNames(d, "X-Mms-MMS-Version");
    StripKeepsNames(d, "MIME-Version");
    StripKeepsNames(d, "From");
    StripKeepsNames(d, "Date");
    StripKeepsNames(d, "Content-Type");
    StripKeepsNames(d, "X-Mms-Transaction-ID");
    OpeningSettled(StripBoundary(d));
    NothingMissing(cfg, msgType, StripBoundary(d), b);
  }

  lemma ContentSettlesIff(cfg: Config, msgType: int, h: seq<Header>, b: Body)
    requires !NoneCalled(h, "X-Mms-MMS-Version") && NoneCalled(h, "MIME-Version")
    ensures var once := StripBoundary(ContentDefaults(cfg, msgType, h, b));
            Opening(once) == once && (StripBoundary(ContentDefaults(cfg, msgType, once, b)) == once <==> Settled(once))
  {
    SettledDefaults(cfg, msgType, h, b);
    StrippedLacksNothing(cfg, msgType, ContentDefaults(cfg, msgType, h, b), b);
    StripSettlesIff(ContentDefaults(cfg, msgType, h, b));
  }

  lemma NoContentSettles(h: seq<Header>)
    requires !NoneCalled(h, "X-Mms-MMS-Version") && NoneCalled(h, "MIME-Version")
    ensures var once := Without(h, "Content-Type"); Opening(once) == once && Without(once, "Content-Type") == once
  {
    WithoutOthers(h, "Content-Type", "X-Mms-MMS-Version");
    WithoutOthers(h, "Content-Type", "MIME-Version");
    assert "Content-Type"[0] != "X-Mms-MMS-Version"[0];
    OpeningSettled(Without(h, "Content-Type"));
    NoneIsMissing(Without(h, "Content-Type"), "Content-Type");
  }

  /** Main result: fixing up a received message again changes nothing exactly when the message carries no content,
      or its content type is a DRM type or spelled as strip_boundary_element prints it. */
  lemma FixupSettlesIff(cfg: Config, msgType: int, hdrs: seq<Header>, b: Body)
    ensures var once := Fixup(cfg, msgType, hdrs, b);
            Fixup(cfg, msgType, once, b) == once <==> !CarriesContent(msgType) || Settled(once)
  {
    OpeningIsThere(hdrs);
    if CarriesContent(msgType) {
      ContentSettlesIff(cfg, msgType, Opening(hdrs), b);
    } else if CarriesNone(msgType) {
      NoContentSettles(Opening(hdrs));
    } else {
      OpeningSettled(Opening(hdrs));
    }
  }
}
