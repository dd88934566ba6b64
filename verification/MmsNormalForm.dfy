/** Messages in normal form: their headers come back unchanged, only moved. */
module MmsNormalForm {
  import opened Wrappers
  import opened Text
  import opened StringTable
  import opened Envelopes
  import opened HeaderLists
  import opened ContentTypes
  import opened WspForms
  import opened MmsFields
  import opened MmsFieldTrips
  import opened Multipart
  import opened MmsMessages
  import opened MmsRoundTrip
  import opened MmsMessageTrips

  // ---- headers by their codes ----

  /** The names of the header table that the program asks for, and one that is not in the table. */
  ghost predicate NamedFully(cfg: Config) {
    && Named(cfg)
    && WordOf(cfg.tables.header, 5) == Some("Date") && WordOf(cfg.tables.header, 9) == Some("From")
    && WordOf(cfg.tables.header, MMS_VERSION) == Some("X-Mms-MMS-Version")
    && WordOf(cfg.tables.header, TRANSACTION_ID) == Some("X-Mms-Transaction-Id")
    && NumberOf(cfg.tables.header, "MIME-Version") < 0
  }

  predicate HasCode(cfg: Config, h: Header, code: nat) {
    NumberOf(cfg.tables.header, h.name) == code
  }

  /** The headers of one code, in their order. */
  function Coded(cfg: Config, hdrs: seq<Header>, code: nat): seq<Header> {
    if hdrs == [] then []
    else (if HasCode(cfg, hdrs[0], code) then [hdrs[0]] else []) + Coded(cfg, hdrs[1..], code)
  }

  /** The headers without a place of their own. */
  function OtherHeaders(cfg: Config, hdrs: seq<Header>): seq<Header> {
    if hdrs == [] then []
    else (if HasOwnPlace(FieldOf(cfg, hdrs[0])) then [] else [hdrs[0]]) + OtherHeaders(cfg, hdrs[1..])
  }

  function First(l: seq<Header>): seq<Header> {
    if l == [] then [] else [l[0]]
  }

  /** Message type, transaction id and version first, content type last, the others as they come. */
  function Moved(cfg: Config, hdrs: seq<Header>): seq<Header> {
    First(Coded(cfg, hdrs, MESSAGE_TYPE)) + First(Coded(cfg, hdrs, TRANSACTION_ID)) + First(Coded(cfg, hdrs, MMS_VERSION))
    + OtherHeaders(cfg, hdrs) + First(Coded(cfg, hdrs, CONTENT_TYPE))
  }

  // ---- normal headers ----

  /** What a caller can check of a header: its name is spelled as in the table and its value survives its coding;
      or it is an application header that needs no quoting. Blanks around a value do not count. */
  predicate NormalHeader(cfg: Config, msgType: int, h: Header) {
    match FieldOf(cfg, h)
    case App(name, v) => !NeedsQuote(name) && !NeedsQuote(v) && StripBlanks(v) == v
    case Known(code, v) =>
      var value := Trip(cfg, cfg.kindOf(code), msgType, v);
      WordOf(cfg.tables.header, code) == Some(h.name) && value.Some? && StripBlanks(value.value) == v
  }

  predicate AllNormal(cfg: Config, msgType: int, hdrs: seq<Header>) {
    hdrs != [] ==> NormalHeader(cfg, msgType, hdrs[0]) && AllNormal(cfg, msgType, hdrs[1..])
  }

  /** A header arrives as itself exactly when it is normal. */
  lemma NormalIff(cfg: Config, msgType: int, h: Header)
    ensures TripOf(cfg, msgType, FieldOf(cfg, h)) == Some(h) <==> NormalHeader(cfg, msgType, h)
  {
    match FieldOf(cfg, h)
    case App(name, v) =>
      if NeedsQuote(v) {
        QuotedDiffers(v);
      }
    case Known(code, v) =>
  }

  lemma QuotedDiffers(v: string)
    requires NeedsQuote(v)
    ensures StripBlanks(Quoted(v)) != v
  {
    var q := Quoted(v);
    assert q[0] == QUOTE && StripLeft(q) == q;
    StripRightTrims(q);
    assert StripBlanks(q) == "" || StripBlanks(q)[0] == QUOTE;
    if StripBlanks(q) == "" {
      AllBlank(q);
    }
  }

  /** Stripping from the right leaves the first character that is no blank. */
  lemma {:induction false} AllBlank(s: string)
    requires s != "" && !IsSpace(s[0])
    ensures StripRight(s) != ""
  {
    if IsSpace(s[|s| - 1]) {
      AllBlank(s[..|s| - 1]);
    }
  }

  lemma {:induction false} OthersNormalIff(cfg: Config, msgType: int, hdrs: seq<Header>)
    requires AllTrip(cfg, msgType, Others(cfg, hdrs))
    ensures |Trips(cfg, msgType, Others(cfg, hdrs))| == |OtherHeaders(cfg, hdrs)|
    ensures Trips(cfg, msgType, Others(cfg, hdrs)) == OtherHeaders(cfg, hdrs) <==> AllNormal(cfg, msgType, OtherHeaders(cfg, hdrs))
  {
    if hdrs != [] {
      var h, f, rest, more := hdrs[0], FieldOf(cfg, hdrs[0]), Others(cfg, hdrs[1..]), OtherHeaders(cfg, hdrs[1..]);
      if HasOwnPlace(f) {
        assert [] + rest == rest && [] + more == more;
        OthersNormalIff(cfg, msgType, hdrs[1..]);
      } else {
        assert ([f] + rest)[1..] == rest && ([h] + more)[1..] == more;
        OthersNormalIff(cfg, msgType, hdrs[1..]);
        NormalIff(cfg, msgType, h);
        SameHeadAndTail(TripOf(cfg, msgType, f).value, Trips(cfg, msgType, rest), h, more);
      }
    }
  }

  lemma SameHeadAndTail(x: Header, a: seq<Header>, y: Header, b: seq<Header>)
    ensures [x] + a == [y] + b <==> x == y && a == b
  {
    if [x] + a == [y] + b {
      assert ([x] + a)[0] == ([y] + b)[0] && ([x] + a)[1..] == ([y] + b)[1..];
      assert ([x] + a)[1..] == a && ([y] + b)[1..] == b;
    }
  }

  lemma SameParts(a: seq<Header>, b: seq<Header>, c: seq<Header>, d: seq<Header>)
    requires |a| == |c|
    ensures a + b == c + d <==> a == c && b == d
  {
    if a + b == c + d {
      assert (a + b)[..|a|] == a && (c + d)[..|c|] == c && (a + b)[|a|..] == b && (c + d)[|c|..] == d;
    }
  }

  // ---- codes and names ----

  /** A name stands for a code exactly when it is the code's word, whatever the case. */
  lemma CodeIff(cfg: Config, name: string, code: nat)
    requires Lawful(cfg.tables.header) && WordOf(cfg.tables.header, code).Some?
    ensures NumberOf(cfg.tables.header, name) == code <==> EqNoCase(name, WordOf(cfg.tables.header, code).value)
  {
    var t := cfg.tables.header;
    var i := WordIsInTable(t, code);
    if EqNoCase(name, t[i].word) {
      NumberFound(t, name, i);
    }
    if NumberOf(t, name) == code {
      var j := RowFound(t, name);
    }
  }

  lemma {:induction false} RowFound(t: Table, w: string) returns (i: nat)
    requires NumberOf(t, w) >= 0
    ensures i < |t| && t[i].number == NumberOf(t, w) && EqNoCase(w, t[i].word)
  {
    if EqNoCase(w, t[0].word) {
      i := 0;
    } else {
      var j := RowFound(t[1..], w);
      i := j + 1;
    }
  }

  /** Asking for a header by name finds the first with the code. */
  lemma {:induction false} ValueByCode(cfg: Config, hdrs: seq<Header>, code: nat)
    requires Lawful(cfg.tables.header) && WordOf(cfg.tables.header, code).Some?
    ensures var l := Coded(cfg, hdrs, code);
            HeaderValue(hdrs, WordOf(cfg.tables.header, code).value) == if l == [] then None else Some(l[0].value)
    ensures NoneCalled(hdrs, WordOf(cfg.tables.header, code).value) <==> Coded(cfg, hdrs, code) == []
  {
    if hdrs != [] {
      CodeIff(cfg, hdrs[0].name, code);
      ValueByCode(cfg, hdrs[1..], code);
    }
  }

  lemma {:induction false} CodedHave(cfg: Config, hdrs: seq<Header>, code: nat)
    ensures Coded(cfg, hdrs, code) != [] ==> HasCode(cfg, Coded(cfg, hdrs, code)[0], code)
  {
    if hdrs != [] {
      CodedHave(cfg, hdrs[1..], code);
    }
  }

  // ---- what arrives, and what was sent, moved ----

  /** A header that is picked by its code arrives as itself exactly when it is normal. */
  lemma PickNormalIff(cfg: Config, msgType: int, hdrs: seq<Header>, code: nat)
    requires Coded(cfg, hdrs, code) != []
    ensures var h := Coded(cfg, hdrs, code)[0];
            TripOf(cfg, msgType, Known(code, h.value)) == Some(h) <==> NormalHeader(cfg, msgType, h)
  {
    CodedHave(cfg, hdrs, code);
    NormalIff(cfg, msgType, Coded(cfg, hdrs, code)[0]);
  }

  /** All headers that are sent are normal, the content type aside; `T` is the type of the message. */
  predicate NormalFront(cfg: Config, T: int, hdrs: seq<Header>) {
    && AllNormal(cfg, 0, First(Coded(cfg, hdrs, MESSAGE_TYPE)))
    && AllNormal(cfg, T, First(Coded(cfg, hdrs, TRANSACTION_ID))) && AllNormal(cfg, T, First(Coded(cfg, hdrs, MMS_VERSION)))
    && AllNormal(cfg, T, OtherHeaders(cfg, hdrs))
  }

  /** All headers that are sent are normal. */
  predicate NormalHeaders(cfg: Config, hdrs: seq<Header>)
    requires Sendable(hdrs)
  {
    NormalFront(cfg, TypeSent(cfg, hdrs), hdrs) && AllNormal(cfg, TypeSent(cfg, hdrs), First(Coded(cfg, hdrs, CONTENT_TYPE)))
  }

  lemma {:induction false} TripsAppend(cfg: Config, msgType: int, a: seq<Field>, b: seq<Field>)
    ensures AllTrip(cfg, msgType, a + b) <==> AllTrip(cfg, msgType, a) && AllTrip(cfg, msgType, b)
    ensures AllTrip(cfg, msgType, a + b) ==> Trips(cfg, msgType, a + b) == Trips(cfg, msgType, a) + Trips(cfg, msgType, b)
  {
    if a == [] {
      assert a + b == b;
      assert AllTrip(cfg, msgType, b) ==> [] + Trips(cfg, msgType, b) == Trips(cfg, msgType, b);
    } else {
      assert (a + b)[1..] == a[1..] + b;
      TripsAppend(cfg, msgType, a[1..], b);
    }
  }

  /** What arrives of a field that may be missing. */
  function TripMaybe(cfg: Config, msgType: int, code: nat, v: Option<string>): seq<Header>
    requires AllTrip(cfg, msgType, Maybe(code, v))
  {
    Trips(cfg, msgType, Maybe(code, v))
  }

  lemma MaybeIs(cfg: Config, msgType: int, code: nat, v: string)
    ensures AllTrip(cfg, msgType, Maybe(code, Some(v))) <==> TripOf(cfg, msgType, Known(code, v)).Some?
    ensures TripOf(cfg, msgType, Known(code, v)).Some? ==>
              Trips(cfg, msgType, Maybe(code, Some(v))) == [TripOf(cfg, msgType, Known(code, v)).value]
  {
    assert Maybe(code, Some(v))[1..] == [];
  }

  /** A field that may be missing arrives as the header it was sent from exactly when that is normal. */
  lemma MaybeNormalIff(cfg: Config, msgType: int, hdrs: seq<Header>, code: nat)
    requires Lawful(cfg.tables.header) && WordOf(cfg.tables.header, code).Some?
    requires AllTrip(cfg, msgType, Maybe(code, HeaderValue(hdrs, WordOf(cfg.tables.header, code).value)))
    ensures var l, a := First(Coded(cfg, hdrs, code)), TripMaybe(cfg, msgType, code, HeaderValue(hdrs, WordOf(cfg.tables.header, code).value));
            |a| == |l| && (a == l <==> AllNormal(cfg, msgType, l))
  {
    ValueByCode(cfg, hdrs, code);
    var l := Coded(cfg, hdrs, code);
    if l != [] {
      PickNormalIff(cfg, msgType, hdrs, code);
      MaybeIs(cfg, msgType, code, l[0].value);
      assert First(l)[1..] == [];
    }
  }

  lemma Regroup(a: seq<Header>, b: seq<Header>, c: seq<Header>, d: seq<Header>)
    ensures a + (b + c + d) == a + b + c + d
  {
  }

  /** What arrives in front of the content type. */
  function FrontArriving(cfg: Config, hdrs: seq<Header>): seq<Header>
    requires Travels(cfg, hdrs)
  {
    [TripOf(cfg, 0, TypeField(hdrs)).value] + Trips(cfg, TypeSent(cfg, hdrs), AfterType(cfg, hdrs))
  }

  function FrontMoved(cfg: Config, hdrs: seq<Header>): seq<Header> {
    First(Coded(cfg, hdrs, MESSAGE_TYPE)) + First(Coded(cfg, hdrs, TRANSACTION_ID)) + First(Coded(cfg, hdrs, MMS_VERSION))
    + OtherHeaders(cfg, hdrs)
  }

  lemma SameFour(a: seq<Header>, b: seq<Header>, c: seq<Header>, d: seq<Header>,
                 a': seq<Header>, b': seq<Header>, c': seq<Header>, d': seq<Header>)
    requires |a| == |a'| && |b| == |b'| && |c| == |c'| && |d| == |d'|
    ensures |a + b + c + d| == |a' + b' + c' + d'|
    ensures a + b + c + d == a' + b' + c' + d' <==> a == a' && b == b' && c == c' && d == d'
  {
    SameParts(a + b + c, d, a' + b' + c', d');
    SameParts(a + b, c, a' + b', c');
    SameParts(a, b, a', b');
  }

  /** In front of the content type arrives what was sent, moved, exactly when those headers are normal. */
  lemma FrontMovedIff(cfg: Config, hdrs: seq<Header>)
    requires NamedFully(cfg) && Travels(cfg, hdrs)
    ensures |FrontArriving(cfg, hdrs)| == |FrontMoved(cfg, hdrs)|
    ensures FrontArriving(cfg, hdrs) == FrontMoved(cfg, hdrs) <==> NormalFront(cfg, TypeSent(cfg, hdrs), hdrs)
  {
    var T := TypeSent(cfg, hdrs);
    FrontParts(cfg, hdrs);
    MaybeNormalIff(cfg, 0, hdrs, MESSAGE_TYPE);
    MaybeNormalIff(cfg, T, hdrs, TRANSACTION_ID);
    MaybeNormalIff(cfg, T, hdrs, MMS_VERSION);
    OthersNormalIff(cfg, T, hdrs);
    SameFour(TripMaybe(cfg, 0, MESSAGE_TYPE, HeaderValue(hdrs, "X-Mms-Message-Type")),
             TripMaybe(cfg, T, TRANSACTION_ID, HeaderValue(hdrs, "X-Mms-Transaction-Id")),
             TripMaybe(cfg, T, MMS_VERSION, HeaderValue(hdrs, "X-Mms-MMS-Version")), Trips(cfg, T, Others(cfg, hdrs)),
             First(Coded(cfg, hdrs, MESSAGE_TYPE)), First(Coded(cfg, hdrs, TRANSACTION_ID)), First(Coded(cfg, hdrs, MMS_VERSION)),
             OtherHeaders(cfg, hdrs));
  }

  lemma FrontParts(cfg: Config, hdrs: seq<Header>)
    requires Travels(cfg, hdrs)
    ensures var T, id := TypeSent(cfg, hdrs), HeaderValue(hdrs, "X-Mms-Transaction-Id");
            var type_, version := HeaderValue(hdrs, "X-Mms-Message-Type"), HeaderValue(hdrs, "X-Mms-MMS-Version");
            && AllTrip(cfg, 0, Maybe(MESSAGE_TYPE, type_)) && AllTrip(cfg, T, Maybe(TRANSACTION_ID, id)) && AllTrip(cfg, T, Maybe(MMS_VERSION, version))
            && AllTrip(cfg, T, Others(cfg, hdrs))
            && FrontArriving(cfg, hdrs) == TripMaybe(cfg, 0, MESSAGE_TYPE, type_) + TripMaybe(cfg, T, TRANSACTION_ID, id)
                 + TripMaybe(cfg, T, MMS_VERSION, version) + Trips(cfg, T, Others(cfg, hdrs))
  {
    var T, id := TypeSent(cfg, hdrs), HeaderValue(hdrs, "X-Mms-Transaction-Id");
    var type_, version := HeaderValue(hdrs, "X-Mms-Message-Type"), HeaderValue(hdrs, "X-Mms-MMS-Version");
    MaybeIs(cfg, 0, MESSAGE_TYPE, type_.value);
    assert Maybe(MMS_VERSION, version) == [Known(MMS_VERSION, version.value)];
    TripsAppend(cfg, T, Maybe(TRANSACTION_ID, id) + Maybe(MMS_VERSION, version), Others(cfg, hdrs));
    TripsAppend(cfg, T, Maybe(TRANSACTION_ID, id), Maybe(MMS_VERSION, version));
    Regroup(TripMaybe(cfg, 0, MESSAGE_TYPE, type_), TripMaybe(cfg, T, TRANSACTION_ID, id), TripMaybe(cfg, T, MMS_VERSION, version),
            Trips(cfg, T, Others(cfg, hdrs)));
  }

  /** The content type as it arrives. */
  function LastArriving(cfg: Config, hdrs: seq<Header>): seq<Header>
    requires Travels(cfg, hdrs)
  {
    match ContentType(hdrs)
    case None => []
    case Some(v) => [TripOf(cfg, TypeSent(cfg, hdrs), Known(CONTENT_TYPE, v)).value]
  }

  lemma ArrivingIs(cfg: Config, hdrs: seq<Header>)
    requires Travels(cfg, hdrs)
    ensures Arriving(cfg, hdrs) == FrontArriving(cfg, hdrs) + LastArriving(cfg, hdrs)
  {
  }

  /** The parts of what arrives. */
  lemma ArrivingParts(cfg: Config, hdrs: seq<Header>)
    requires Travels(cfg, hdrs)
    ensures var T, id := TypeSent(cfg, hdrs), HeaderValue(hdrs, "X-Mms-Transaction-Id");
            var type_, version := HeaderValue(hdrs, "X-Mms-Message-Type"), HeaderValue(hdrs, "X-Mms-MMS-Version");
            && AllTrip(cfg, 0, Maybe(MESSAGE_TYPE, type_)) && AllTrip(cfg, T, Maybe(TRANSACTION_ID, id)) && AllTrip(cfg, T, Maybe(MMS_VERSION, version))
            && AllTrip(cfg, T, Others(cfg, hdrs)) && AllTrip(cfg, T, Maybe(CONTENT_TYPE, ContentType(hdrs)))
            && Arriving(cfg, hdrs) == TripMaybe(cfg, 0, MESSAGE_TYPE, type_) + TripMaybe(cfg, T, TRANSACTION_ID, id)
                 + TripMaybe(cfg, T, MMS_VERSION, version) + Trips(cfg, T, Others(cfg, hdrs)) + TripMaybe(cfg, T, CONTENT_TYPE, ContentType(hdrs))
  {
    FrontParts(cfg, hdrs);
    ArrivingIs(cfg, hdrs);
    if ContentType(hdrs).Some? {
      MaybeIs(cfg, TypeSent(cfg, hdrs), CONTENT_TYPE, ContentType(hdrs).value);
    }
  }

  lemma LastNormalIff(cfg: Config, hdrs: seq<Header>)
    requires NamedFully(cfg) && Travels(cfg, hdrs)
    ensures LastArriving(cfg, hdrs) == First(Coded(cfg, hdrs, CONTENT_TYPE))
       <==> AllNormal(cfg, TypeSent(cfg, hdrs), First(Coded(cfg, hdrs, CONTENT_TYPE)))
  {
    var l := Coded(cfg, hdrs, CONTENT_TYPE);
    ValueByCode(cfg, hdrs, CONTENT_TYPE);
    if l != [] {
      PickNormalIff(cfg, TypeSent(cfg, hdrs), hdrs, CONTENT_TYPE);
      assert First(l)[1..] == [];
    }
  }

  /** What arrives is what was sent, moved, exactly when all headers are normal. */
  lemma ArrivesMovedIff(cfg: Config, hdrs: seq<Header>)
    requires NamedFully(cfg) && Travels(cfg, hdrs)
    ensures Arriving(cfg, hdrs) == Moved(cfg, hdrs) <==> NormalHeaders(cfg, hdrs)
  {
    ArrivingIs(cfg, hdrs);
    FrontMovedIff(cfg, hdrs);
    LastNormalIff(cfg, hdrs);
    SameParts(FrontArriving(cfg, hdrs), LastArriving(cfg, hdrs), FrontMoved(cfg, hdrs), First(Coded(cfg, hdrs, CONTENT_TYPE)));
  }

  // ---- nothing lost ----

  /** At most one message type, transaction id, version and content type. */
  predicate Once(cfg: Config, hdrs: seq<Header>) {
    && |Coded(cfg, hdrs, MESSAGE_TYPE)| <= 1 && |Coded(cfg, hdrs, TRANSACTION_ID)| <= 1
    && |Coded(cfg, hdrs, MMS_VERSION)| <= 1 && |Coded(cfg, hdrs, CONTENT_TYPE)| <= 1
  }

  lemma CodesPart(cfg: Config, h: Header)
    ensures HasOwnPlace(FieldOf(cfg, h)) <==>
              HasCode(cfg, h, MESSAGE_TYPE) || HasCode(cfg, h, TRANSACTION_ID) || HasCode(cfg, h, MMS_VERSION) || HasCode(cfg, h, CONTENT_TYPE)
  {
  }

  /** Every header is one of the others, or has one of the four codes. */
  lemma {:induction false} HeadersPart(cfg: Config, hdrs: seq<Header>)
    ensures multiset(hdrs) == multiset(Coded(cfg, hdrs, MESSAGE_TYPE)) + multiset(Coded(cfg, hdrs, TRANSACTION_ID))
              + multiset(Coded(cfg, hdrs, MMS_VERSION)) + multiset(OtherHeaders(cfg, hdrs)) + multiset(Coded(cfg, hdrs, CONTENT_TYPE))
  {
    if hdrs != [] {
      assert hdrs == [hdrs[0]] + hdrs[1..];
      CodesPart(cfg, hdrs[0]);
      HeadersPart(cfg, hdrs[1..]);
    }
  }

  lemma FirstIsAllIff(l: seq<Header>)
    ensures |First(l)| <= |l| && (|First(l)| == |l| <==> |l| <= 1) && (|l| <= 1 ==> First(l) == l)
  {
  }

  /** Moving loses no header exactly when those with a place of their own occur once. */
  lemma MovedLosesNothingIff(cfg: Config, hdrs: seq<Header>)
    ensures multiset(Moved(cfg, hdrs)) == multiset(hdrs) <==> Once(cfg, hdrs)
  {
    HeadersPart(cfg, hdrs);
    var a, b, c, e := Coded(cfg, hdrs, MESSAGE_TYPE), Coded(cfg, hdrs, TRANSACTION_ID), Coded(cfg, hdrs, MMS_VERSION), Coded(cfg, hdrs, CONTENT_TYPE);
    FirstIsAllIff(a);
    FirstIsAllIff(b);
    FirstIsAllIff(c);
    FirstIsAllIff(e);
    if multiset(Moved(cfg, hdrs)) == multiset(hdrs) {
      assert |multiset(Moved(cfg, hdrs))| == |Moved(cfg, hdrs)|;
      assert |multiset(hdrs)| == |a| + |b| + |c| + |OtherHeaders(cfg, hdrs)| + |e|;
    }
  }

  // ---- nothing added ----

  /** A message that has what fixup_msg puts in, and lacks what it takes out. */
  predicate Complete(cfg: Config, msgType: int, hdrs: seq<Header>) {
    && NoneCalled(hdrs, "MIME-Version")
    && (CarriesContent(msgType) ==>
          && (cfg.from == None || !NoneCalled(hdrs, "From")) && !NoneCalled(hdrs, "Date") && !NoneCalled(hdrs, "Content-Type")
          && (msgType == RETRIEVE_CONF || !NoneCalled(hdrs, "X-Mms-Transaction-Id")))
    && (CarriesNone(msgType) ==> NoneCalled(hdrs, "Content-Type"))
  }

  lemma {:induction false} NoneAppend(a: seq<Header>, b: seq<Header>, name: string)
    ensures NoneCalled(a + b, name) <==> NoneCalled(a, name) && NoneCalled(b, name)
  {
    if a == [] {
      assert a + b == b;
    } else {
      assert (a + b)[1..] == a[1..] + b;
      NoneAppend(a[1..], b, name);
    }
  }

  /** Among the headers without a place of their own, a field arrives under its name if it was sent. */
  lemma {:induction false} OthersKeepNames(cfg: Config, msgType: int, hdrs: seq<Header>, code: nat)
    requires Lawful(cfg.tables.header) && WordOf(cfg.tables.header, code).Some? && !HasOwnPlace(Known(code, ""))
    requires AllTrip(cfg, msgType, Others(cfg, hdrs)) && !NoneCalled(hdrs, WordOf(cfg.tables.header, code).value)
    ensures !NoneCalled(Trips(cfg, msgType, Others(cfg, hdrs)), WordOf(cfg.tables.header, code).value)
  {
    var f, rest := FieldOf(cfg, hdrs[0]), Others(cfg, hdrs[1..]);
    CodeIff(cfg, hdrs[0].name, code);
    if HasOwnPlace(f) {
      assert [] + rest == rest;
      OthersKeepNames(cfg, msgType, hdrs[1..], code);
    } else {
      assert ([f] + rest)[1..] == rest;
      var x, more := TripOf(cfg, msgType, f).value, Trips(cfg, msgType, rest);
      assert ([x] + more)[1..] == more;
      if !HasCode(cfg, hdrs[0], code) {
        OthersKeepNames(cfg, msgType, hdrs[1..], code);
      }
    }
  }

  lemma MaybeKeepsName(cfg: Config, msgType: int, code: nat, v: string)
    requires WordOf(cfg.tables.header, code).Some? && AllTrip(cfg, msgType, Maybe(code, Some(v)))
    ensures !NoneCalled(TripMaybe(cfg, msgType, code, Some(v)), WordOf(cfg.tables.header, code).value)
  {
    MaybeIs(cfg, msgType, code, v);
  }

  /** A field under which nothing new arrives. */
  lemma NotMime(cfg: Config, msgType: int, f: Field)
    requires NamedFully(cfg) && TripOf(cfg, msgType, f).Some? && (f.App? ==> !EqNoCase(f.name, "MIME-Version"))
    ensures !EqNoCase(TripOf(cfg, msgType, f).value.name, "MIME-Version")
  {
    match f
    case Known(code, _) =>
      var i := WordIsInTable(cfg.tables.header, code);
      if EqNoCase("MIME-Version", cfg.tables.header[i].word) {
        NumberFound(cfg.tables.header, "MIME-Version", i);
      }
    case App(name, _) =>
      if NeedsQuote(name) {
        assert Quoted(name)[0] == QUOTE && ToLower(QUOTE) != ToLower("MIME-Version"[0]);
      }
  }

  lemma {:induction false} NoMimeAmong(cfg: Config, msgType: int, fs: seq<Field>)
    requires NamedFully(cfg) && AllTrip(cfg, msgType, fs) && NoApp(fs, "MIME-Version")
    ensures NoneCalled(Trips(cfg, msgType, fs), "MIME-Version")
  {
    if fs != [] {
      NotMime(cfg, msgType, fs[0]);
      NoMimeAmong(cfg, msgType, fs[1..]);
      assert Trips(cfg, msgType, fs)[1..] == Trips(cfg, msgType, fs[1..]);
    }
  }

  predicate NoApp(fs: seq<Field>, name: string) {
    fs != [] ==> (fs[0].App? ==> !EqNoCase(fs[0].name, name)) && NoApp(fs[1..], name)
  }

  lemma {:induction false} OthersNoApp(cfg: Config, hdrs: seq<Header>, name: string)
    requires NoneCalled(hdrs, name)
    ensures NoApp(Others(cfg, hdrs), name)
  {
    if hdrs != [] {
      var f, rest := FieldOf(cfg, hdrs[0]), Others(cfg, hdrs[1..]);
      OthersNoApp(cfg, hdrs[1..], name);
      if HasOwnPlace(f) {
        assert [] + rest == rest;
      } else {
        assert ([f] + rest)[1..] == rest;
      }
    }
  }

  lemma NoneOfFive(a: seq<Header>, b: seq<Header>, c: seq<Header>, d: seq<Header>, e: seq<Header>, name: string)
    ensures NoneCalled(a + b + c + d + e, name)
       <==> NoneCalled(a, name) && NoneCalled(b, name) && NoneCalled(c, name) && NoneCalled(d, name) && NoneCalled(e, name)
  {
    NoneAppend(a, b, name);
    NoneAppend(a + b, c, name);
    NoneAppend(a + b + c, d, name);
    NoneAppend(a + b + c + d, e, name);
  }

  /** Whether a name is among what arrives. */
  lemma NoneArrives(cfg: Config, hdrs: seq<Header>, name: string)
    requires Travels(cfg, hdrs)
    ensures var T := TypeSent(cfg, hdrs);
            && AllTrip(cfg, 0, Maybe(MESSAGE_TYPE, HeaderValue(hdrs, "X-Mms-Message-Type")))
            && AllTrip(cfg, T, Maybe(TRANSACTION_ID, HeaderValue(hdrs, "X-Mms-Transaction-Id")))
            && AllTrip(cfg, T, Maybe(MMS_VERSION, HeaderValue(hdrs, "X-Mms-MMS-Version")))
            && AllTrip(cfg, T, Others(cfg, hdrs)) && AllTrip(cfg, T, Maybe(CONTENT_TYPE, ContentType(hdrs)))
            && (NoneCalled(Arriving(cfg, hdrs), name) <==>
                  && NoneCalled(TripMaybe(cfg, 0, MESSAGE_TYPE, HeaderValue(hdrs, "X-Mms-Message-Type")), name)
                  && NoneCalled(TripMaybe(cfg, T, TRANSACTION_ID, HeaderValue(hdrs, "X-Mms-Transaction-Id")), name)
                  && NoneCalled(TripMaybe(cfg, T, MMS_VERSION, HeaderValue(hdrs, "X-Mms-MMS-Version")), name)
                  && NoneCalled(Trips(cfg, T, Others(cfg, hdrs)), name)
                  && NoneCalled(TripMaybe(cfg, T, CONTENT_TYPE, ContentType(hdrs)), name))
  {
    var T := TypeSent(cfg, hdrs);
    ArrivingParts(cfg, hdrs);
    NoneOfFive(TripMaybe(cfg, 0, MESSAGE_TYPE, HeaderValue(hdrs, "X-Mms-Message-Type")),
               TripMaybe(cfg, T, TRANSACTION_ID, HeaderValue(hdrs, "X-Mms-Transaction-Id")),
               TripMaybe(cfg, T, MMS_VERSION, HeaderValue(hdrs, "X-Mms-MMS-Version")),
               Trips(cfg, T, Others(cfg, hdrs)), TripMaybe(cfg, T, CONTENT_TYPE, ContentType(hdrs)), name);
  }

  /** Date and sender arrive under their names. */
  lemma OtherNameArrives(cfg: Config, hdrs: seq<Header>, code: nat)
    requires NamedFully(cfg) && Travels(cfg, hdrs) && WordOf(cfg.tables.header, code).Some? && !HasOwnPlace(Known(code, ""))
    requires !NoneCalled(hdrs, WordOf(cfg.tables.header, code).value)
    ensures !NoneCalled(Arriving(cfg, hdrs), WordOf(cfg.tables.header, code).value)
  {
    NoneArrives(cfg, hdrs, WordOf(cfg.tables.header, code).value);
    OthersKeepNames(cfg, TypeSent(cfg, hdrs), hdrs, code);
  }

  /** Transaction id and version arrive under their names. */
  lemma FrontNamesArrive(cfg: Config, hdrs: seq<Header>)
    requires NamedFully(cfg) && Travels(cfg, hdrs)
    ensures !NoneCalled(Arriving(cfg, hdrs), "X-Mms-MMS-Version")
    ensures !NoneCalled(hdrs, "X-Mms-Transaction-Id") ==> !NoneCalled(Arriving(cfg, hdrs), "X-Mms-Transaction-Id")
  {
    NoneArrives(cfg, hdrs, "X-Mms-MMS-Version");
    MaybeKeepsName(cfg, TypeSent(cfg, hdrs), MMS_VERSION, HeaderValue(hdrs, "X-Mms-MMS-Version").value);
    NoneIsMissing(hdrs, "X-Mms-Transaction-Id");
    if HeaderValue(hdrs, "X-Mms-Transaction-Id").Some? {
      NoneArrives(cfg, hdrs, "X-Mms-Transaction-Id");
      MaybeKeepsName(cfg, TypeSent(cfg, hdrs), TRANSACTION_ID, HeaderValue(hdrs, "X-Mms-Transaction-Id").value);
    }
  }

  lemma NoMimeArrives(cfg: Config, hdrs: seq<Header>)
    requires NamedFully(cfg) && Travels(cfg, hdrs) && NoneCalled(hdrs, "MIME-Version")
    ensures NoneCalled(Arriving(cfg, hdrs), "MIME-Version")
  {
    var T := TypeSent(cfg, hdrs);
    NoneArrives(cfg, hdrs, "MIME-Version");
    NoMimeAmong(cfg, 0, Maybe(MESSAGE_TYPE, HeaderValue(hdrs, "X-Mms-Message-Type")));
    NoMimeAmong(cfg, T, Maybe(TRANSACTION_ID, HeaderValue(hdrs, "X-Mms-Transaction-Id")));
    NoMimeAmong(cfg, T, Maybe(MMS_VERSION, HeaderValue(hdrs, "X-Mms-MMS-Version")));
    OthersNoApp(cfg, hdrs, "MIME-Version");
    NoMimeAmong(cfg, T, Others(cfg, hdrs));
    NoMimeAmong(cfg, T, Maybe(CONTENT_TYPE, ContentType(hdrs)));
  }

  /** A content type that arrives is the last header, and the only one of that name. */
  lemma TypeArrivesLast(cfg: Config, hdrs: seq<Header>)
    requires NamedFully(cfg) && Travels(cfg, hdrs) && ContentType(hdrs).Some?
    ensures NoneCalled(FrontArriving(cfg, hdrs), "Content-Type") && LastArriving(cfg, hdrs)[0].name == "Content-Type"
  {
    var T := TypeSent(cfg, hdrs);
    var first, mid := TripOf(cfg, 0, TypeField(hdrs)).value, Trips(cfg, T, AfterType(cfg, hdrs));
    AfterTypeIsMiddle(cfg, hdrs);
    AfterTypeApart(cfg, hdrs);
    NoContentTypeAmong(cfg, T, AfterType(cfg, hdrs));
    NotContentType(cfg, 0, TypeField(hdrs));
    assert ([first] + mid)[1..] == mid;
  }

  // ---- the content type ----

  lemma {:induction false} WithoutKeepsCoded(cfg: Config, hdrs: seq<Header>, code: nat)
    requires NamedFully(cfg) && code != CONTENT_TYPE
    ensures Coded(cfg, Without(hdrs, "Content-Type"), code) == Coded(cfg, hdrs, code)
    ensures OtherHeaders(cfg, Without(hdrs, "Content-Type")) == OtherHeaders(cfg, hdrs)
  {
    if hdrs != [] {
      var rest := Without(hdrs[1..], "Content-Type");
      CodeIff(cfg, hdrs[0].name, CONTENT_TYPE);
      WithoutKeepsCoded(cfg, hdrs[1..], code);
      assert ([hdrs[0]] + rest)[1..] == rest && [] + rest == rest;
    }
  }

  lemma {:induction false} TypeLastCoded(cfg: Config, hdrs: seq<Header>, x: Header, code: nat)
    requires NamedFully(cfg) && code != CONTENT_TYPE && EqNoCase(x.name, "Content-Type")
    ensures Coded(cfg, hdrs + [x], code) == Coded(cfg, hdrs, code)
    ensures OtherHeaders(cfg, hdrs + [x]) == OtherHeaders(cfg, hdrs)
  {
    CodeIff(cfg, x.name, CONTENT_TYPE);
    if hdrs == [] {
      assert hdrs + [x] == [x] && [x][1..] == [];
    } else {
      assert (hdrs + [x])[1..] == hdrs[1..] + [x];
      TypeLastCoded(cfg, hdrs[1..], x, code);
    }
  }

  /** strip_boundary_element touches no header but the content type. */
  lemma StripKeepsCoded(cfg: Config, hdrs: seq<Header>, code: nat)
    requires NamedFully(cfg) && code != CONTENT_TYPE
    ensures Coded(cfg, StripBoundary(hdrs), code) == Coded(cfg, hdrs, code)
    ensures OtherHeaders(cfg, StripBoundary(hdrs)) == OtherHeaders(cfg, hdrs)
  {
    var v := HeaderValue(hdrs, "Content-Type");
    if v.Some? && !IsDrm(v.value) {
      WithoutKeepsCoded(cfg, hdrs, code);
      TypeLastCoded(cfg, Without(hdrs, "Content-Type"), NewHeader("Content-Type", Reprinted(v.value)), code);
    }
  }

  /** The content type at the end of its way: stripped when sent, and again when received in a message that carries
      content. */
  function TypeHome(cfg: Config, hdrs: seq<Header>): seq<Header>
    requires Travels(cfg, hdrs)
  {
    var l := LastArriving(cfg, hdrs);
    if l == [] || !CarriesContent(TypeFound(cfg, hdrs)) then l else [StrippedType(l[0])]
  }

  /** Nothing is added to a complete message, or taken from it; only the boundary goes. */
  lemma FixupLeaves(cfg: Config, hdrs: seq<Header>, b: Body)
    requires NamedFully(cfg) && Travels(cfg, hdrs) && Complete(cfg, TypeFound(cfg, hdrs), hdrs)
    ensures Fixup(cfg, TypeFound(cfg, hdrs), Arriving(cfg, hdrs), b) == FrontArriving(cfg, hdrs) + TypeHome(cfg, hdrs)
  {
    var msgType, h := TypeFound(cfg, hdrs), Arriving(cfg, hdrs);
    ArrivingIs(cfg, hdrs);
    FrontNamesArrive(cfg, hdrs);
    NoMimeArrives(cfg, hdrs);
    OpeningSettled(h);
    NoneIsMissing(hdrs, "Content-Type");
    if CarriesContent(msgType) {
      NothingToAdd(cfg, hdrs, b);
      TypeArrivesLast(cfg, hdrs);
      StripLast(FrontArriving(cfg, hdrs), LastArriving(cfg, hdrs)[0]);
    } else if CarriesNone(msgType) {
      KeysArrive(cfg, hdrs);
      NoneIsMissing(h, "Content-Type");
    }
  }

  lemma NothingToAdd(cfg: Config, hdrs: seq<Header>, b: Body)
    requires NamedFully(cfg) && Travels(cfg, hdrs) && Complete(cfg, TypeFound(cfg, hdrs), hdrs) && CarriesContent(TypeFound(cfg, hdrs))
    ensures ContentDefaults(cfg, TypeFound(cfg, hdrs), Arriving(cfg, hdrs), b) == Arriving(cfg, hdrs)
  {
    var h := Arriving(cfg, hdrs);
    NoneIsMissing(hdrs, "Content-Type");
    TypeArrivesLast(cfg, hdrs);
    ArrivingIs(cfg, hdrs);
    OneMoreCalled(FrontArriving(cfg, hdrs), LastArriving(cfg, hdrs)[0], "Content-Type");
    OtherNameArrives(cfg, hdrs, 5);
    if cfg.from.Some? {
      OtherNameArrives(cfg, hdrs, 9);
    }
    FrontNamesArrive(cfg, hdrs);
    SameName(h, "X-Mms-Transaction-Id", "X-Mms-Transaction-ID");
    NothingMissing(cfg, TypeFound(cfg, hdrs), h, b);
  }

  lemma StillComplete(cfg: Config, msgType: int, hdrs: seq<Header>)
    requires Complete(cfg, msgType, hdrs)
    ensures Complete(cfg, msgType, StripBoundary(hdrs))
  {
    StripKeepsNames(hdrs, "MIME-Version");
    StripKeepsNames(hdrs, "From");
    StripKeepsNames(hdrs, "Date");
    StripKeepsNames(hdrs, "Content-Type");
    StripKeepsNames(hdrs, "X-Mms-Transaction-Id");
  }

  /** The content type comes back as it was sent. */
  predicate TypeComesBack(cfg: Config, hdrs: seq<Header>)
    requires Travels(cfg, StripBoundary(hdrs))
  {
    TypeHome(cfg, StripBoundary(hdrs)) == First(Coded(cfg, hdrs, CONTENT_TYPE))
  }

  /** Where the coding keeps the content type that is sent, it comes back exactly when stripping it, once or, in a
      message that carries content, twice, leaves it as it was. */
  lemma TypeComesBackIff(cfg: Config, hdrs: seq<Header>, x: Header)
    requires NamedFully(cfg) && Travels(cfg, StripBoundary(hdrs)) && Coded(cfg, hdrs, CONTENT_TYPE) == [x]
    requires NormalHeader(cfg, TypeSent(cfg, StripBoundary(hdrs)), StrippedType(x))
    ensures TypeComesBack(cfg, hdrs)
       <==> if CarriesContent(TypeFound(cfg, StripBoundary(hdrs))) then StrippedType(StrippedType(x)) == x else SettledType(x)
  {
    var S, y := StripBoundary(hdrs), StrippedType(x);
    StrippedTypeIff(x);
    TypeIsSent(cfg, hdrs, x);
    CodedHave(cfg, hdrs, CONTENT_TYPE);
    CodeIff(cfg, y.name, CONTENT_TYPE);
    NormalIff(cfg, TypeSent(cfg, S), y);
    assert LastArriving(cfg, S) == [y];
  }

  /** The content type that is sent is the stripped one. */
  lemma TypeIsSent(cfg: Config, hdrs: seq<Header>, x: Header)
    requires NamedFully(cfg) && Coded(cfg, hdrs, CONTENT_TYPE) == [x]
    ensures ContentType(StripBoundary(hdrs)) == Some(StrippedType(x).value) && EqNoCase(StrippedType(x).name, "Content-Type")
  {
    ValueByCode(cfg, hdrs, CONTENT_TYPE);
    CodedHave(cfg, hdrs, CONTENT_TYPE);
    CodeIff(cfg, x.name, CONTENT_TYPE);
    WithoutOthers(hdrs, "Content-Type", "Content-Type");
    LastIsFound(Without(hdrs, "Content-Type"), StrippedType(x), "Content-Type");
  }

  /** A settled content type that its coding keeps comes back. */
  lemma SettledTypeComesBack(cfg: Config, hdrs: seq<Header>, x: Header)
    requires NamedFully(cfg) && Travels(cfg, StripBoundary(hdrs)) && Coded(cfg, hdrs, CONTENT_TYPE) == [x]
    requires SettledType(x) && NormalHeader(cfg, TypeSent(cfg, StripBoundary(hdrs)), x)
    ensures TypeComesBack(cfg, hdrs)
  {
    StrippedTypeIff(x);
    TypeComesBackIff(cfg, hdrs, x);
  }

  lemma FrontUnstripped(cfg: Config, hdrs: seq<Header>, T: int)
    requires NamedFully(cfg)
    ensures FrontMoved(cfg, StripBoundary(hdrs)) == FrontMoved(cfg, hdrs)
    ensures NormalFront(cfg, T, StripBoundary(hdrs)) == NormalFront(cfg, T, hdrs)
  {
    StripKeepsCoded(cfg, hdrs, MESSAGE_TYPE);
    StripKeepsCoded(cfg, hdrs, TRANSACTION_ID);
    StripKeepsCoded(cfg, hdrs, MMS_VERSION);
  }

  /** Main result: a complete message comes back with the same body and the same headers, moved so that message
      type, transaction id and version come first and content type last, exactly when it has a body, its
      headers are normal, its content type comes back, and those with a place of their own occur once. */
  lemma NormalFormIff(cfg: Config, hc: HeaderCodec, m: Message)
    requires Standard(cfg) && NamedFully(cfg) && Deliverable(cfg, hc, m)
    requires Complete(cfg, TypeFound(cfg, StripBoundary(m.headers)), m.headers)
    ensures FromBinary(cfg, hc, ToBinary(cfg, hc, m)) == Some(m.(headers := Moved(cfg, m.headers)))
            && multiset(Moved(cfg, m.headers)) == multiset(m.headers)
       <==> && !m.body.NoBody? && NormalFront(cfg, TypeSent(cfg, StripBoundary(m.headers)), m.headers)
            && TypeComesBack(cfg, m.headers) && Once(cfg, m.headers)
  {
    var hdrs := StripBoundary(m.headers);
    MessageArrives(cfg, hc, m);
    StillComplete(cfg, TypeFound(cfg, hdrs), m.headers);
    FixupLeaves(cfg, hdrs, BodyArriving(m.body));
    FrontMovedIff(cfg, hdrs);
    FrontUnstripped(cfg, m.headers, TypeSent(cfg, hdrs));
    SameParts(FrontArriving(cfg, hdrs), TypeHome(cfg, hdrs), FrontMoved(cfg, m.headers), First(Coded(cfg, m.headers, CONTENT_TYPE)));
    MovedLosesNothingIff(cfg, m.headers);
  }
}
