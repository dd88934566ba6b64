/** Whole MMS messages in binary form: mms_tobinary and mms_frombinary_ex. */
module MmsMessages {
  import opened Wrappers
  import opened Text
  import opened StringTable
  import opened Envelopes
  import opened HeaderLists
  import opened ContentTypes
  import opened Octets
  import opened WspForms
  import opened MmsFields
  import opened Multipart

  datatype Body = NoBody | Parts(parts: seq<Part>) | Single(text: string)

  datatype Message = Message(headers: seq<Header>, body: Body)

  // ---- writing ----

  /** A header as it is sent: under its code, or under its name as an application header. */
  datatype Field = Known(code: nat, value: string) | App(name: string, value: string)

  function FieldOf(cfg: Config, h: Header): Field {
    var code := NumberOf(cfg.tables.header, h.name);
    if code < 0 then App(h.name, h.value) else Known(code, h.value)
  }

  /** Fields with a place of their own: type, transaction id, version and content type. */
  predicate HasOwnPlace(f: Field) {
    f.Known? && (f.code == MESSAGE_TYPE || f.code == TRANSACTION_ID || f.code == MMS_VERSION || f.code == CONTENT_TYPE)
  }

  function Others(cfg: Config, hdrs: seq<Header>): seq<Field> {
    if hdrs == [] then []
    else (if HasOwnPlace(FieldOf(cfg, hdrs[0])) then [] else [FieldOf(cfg, hdrs[0])]) + Others(cfg, hdrs[1..])
  }

  function Maybe(code: nat, v: Option<string>): seq<Field> {
    match v
    case None => []
    case Some(x) => [Known(code, x)]
  }

  /** What encode_msgheaders relies on. */
  predicate Sendable(hdrs: seq<Header>) {
    HeaderValue(hdrs, "X-Mms-Message-Type").Some? && HeaderValue(hdrs, "X-Mms-MMS-Version").Some?
  }

  /** The fields after the message type: transaction id if any, version, the others as they come, content type last. */
  function AfterType(cfg: Config, hdrs: seq<Header>): seq<Field>
    requires Sendable(hdrs)
  {
    Maybe(TRANSACTION_ID, HeaderValue(hdrs, "X-Mms-Transaction-Id"))
    + [Known(MMS_VERSION, HeaderValue(hdrs, "X-Mms-MMS-Version").value)]
    + Others(cfg, hdrs)
  }

  function PackOne(cfg: Config, f: Field): string {
    match f
    case Known(code, v) => [Octet(128 + code % 128)] + PackField(cfg, cfg.kindOf(code), v)
    case App(name, v) => PackText(name) + PackText(v)
  }

  function PackAll(cfg: Config, fs: seq<Field>): string {
    if fs == [] then "" else PackOne(cfg, fs[0]) + PackAll(cfg, fs[1..])
  }

  function Ordered(cfg: Config, hdrs: seq<Header>): seq<Field>
    requires Sendable(hdrs)
  {
    [Known(MESSAGE_TYPE, HeaderValue(hdrs, "X-Mms-Message-Type").value)]
    + AfterType(cfg, hdrs)
    + Maybe(CONTENT_TYPE, ContentType(hdrs))
  }

  function PackBody(hc: HeaderCodec, b: Body): string {
    match b
    case NoBody => ""
    case Parts(ps) => EncodeBody(hc, ps)
    case Single(t) => t
  }

  /** encode_msgheaders counts the headers before it strips the content type, so it reads past the end of a list
      that stripping shortens. */
  predicate Encodable(hdrs: seq<Header>) {
    Sendable(StripBoundary(hdrs)) && |StripBoundary(hdrs)| == |hdrs|
  }

  /** mms_tobinary. */
  function ToBinary(cfg: Config, hc: HeaderCodec, m: Message): string
    requires Encodable(m.headers)
  {
    PackAll(cfg, Ordered(cfg, StripBoundary(m.headers))) + PackBody(hc, m.body)
  }

  // ---- reading ----

  /** One field off the front: its header, or nothing if it makes no sense, and what follows. */
  datatype FieldRead = FieldRead(header: Option<Header>, form: Form, left: string)

  /** mms_unpack_well_known_field for a field called `name` and coded as `k`. */
  function ReadKnown(cfg: Config, name: Option<string>, k: Kind, msgType: int, left: string): (r: FieldRead)
    ensures r.header.Some? ==> |r.left| < |left|
  {
    match ReadForm(left)
    case NoForm(l) => FieldRead(None, Words(""), l)
    case GotForm(f, left') =>
      var value := Unpack(cfg, k, msgType, f);
      FieldRead(if name == None || value == None then None else Some(NewHeader(name.value, value.value)), f, left')
  }

  /** wsp_unpack_app_header. */
  function ReadApp(left: string): (r: FieldRead)
    ensures r.header.Some? ==> |r.left| < |left|
  {
    match NulString(left)
    case NoStr => FieldRead(None, Words(""), left)
    case Str(name, more) =>
      match NulString(more)
      case NoStr => FieldRead(None, Words(""), more)
      case Str(value, left') => FieldRead(Some(NewHeader(name, value)), Words(value), left')
  }

  function ReadField(cfg: Config, msgType: int, left: string): (r: FieldRead)
    requires left != ""
    ensures r.header.Some? ==> |r.left| < |left|
  {
    var c := left[0] as int;
    if c >= 128 then
      var code := (c - 128) % 128;
      ReadKnown(cfg, WordOf(cfg.tables.header, code), cfg.kindOf(code), msgType, left[1..])
    else ReadApp(left)
  }

  /** The token of a message type field, -1 for any other form, 0 for an application header that looks like one. */
  function TypeToken(first: char, f: Form): int {
    if (first as int) < 128 then 0 else if f.Short? then f.n else -1
  }

  datatype HeadersRead = HeadersRead(headers: seq<Header>, left: string)

  /** decode_msgheaders: up to the content type, the end, or the first field that makes no sense. */
  function DecodeHeaders(cfg: Config, msgType: int, acc: seq<Header>, left: string): HeadersRead
    decreases |left|
  {
    if left == "" then HeadersRead(acc, left)
    else
      var r := ReadField(cfg, msgType, left);
      var code := left[0] as int % 128;
      if r.header == None then HeadersRead(acc, r.left)
      else if code == CONTENT_TYPE then HeadersRead(acc + [r.header.value], r.left)
      else DecodeHeaders(cfg, if code == MESSAGE_TYPE then TypeToken(left[0], r.form) else msgType, acc + [r.header.value], r.left)
  }

  predicate StartsWith(s: string, p: string) {
    |p| <= |s| && s[..|p|] == p
  }

  predicate IsMultipart(hdrs: seq<Header>) {
    ContentType(hdrs).Some? && StartsWith(ContentType(hdrs).value, "application/vnd.wap.multipart")
  }

  function ReadMessageBody(hc: HeaderCodec, hdrs: seq<Header>, left: string): Option<Body> {
    if !IsMultipart(hdrs) then Some(Single(left))
    else match ReadBody(hc, left).parts
      case None => None
      case Some(ps) => Some(Parts(ps))
  }

  // ---- fix-ups after reading ----

  function WithDefault(hdrs: seq<Header>, name: string, value: Option<string>): seq<Header> {
    if HeaderValue(hdrs, name) == None && value.Some? then hdrs + [NewHeader(name, value.value)] else hdrs
  }

  predicate IsPrintable(c: char) {
    (' ' <= c <= '~') || IsSpace(c)
  }

  function DefaultType(b: Body): string {
    match b
    case NoBody => "application/octet-stream"
    case Parts(_) => "application/vnd.wap.multipart.mixed"
    case Single(t) => if forall i :: 0 <= i < |t| ==> IsPrintable(t[i]) then "text/plain" else "application/octet-stream"
  }

  /** The message types that carry content, and the ones that must not. */
  predicate CarriesContent(msgType: int) {
    msgType == 0 || msgType == 4 || msgType == 9
  }

  predicate CarriesNone(msgType: int) {
    msgType == 1 || msgType == 2 || msgType == 6 || msgType == 7 || msgType == 8
  }

  const RETRIEVE_CONF: int := 4

  /** What fixup_msg adds to a message that carries content, before the boundary is stripped. */
  function ContentDefaults(cfg: Config, msgType: int, hdrs: seq<Header>, b: Body): seq<Header> {
    var h1 := WithDefault(hdrs, "From", cfg.from);
    var h2 := WithDefault(h1, "Date", Some(cfg.formatDate(cfg.now)));
    var h3 := WithDefault(h2, "X-Mms-Transaction-ID", if msgType == RETRIEVE_CONF then None else Some("00001"));
    WithDefault(h3, "Content-Type", Some(DefaultType(b)))
  }

  /** The first steps of fixup_msg. */
  function Opening(hdrs: seq<Header>): seq<Header> {
    Without(WithDefault(hdrs, "X-Mms-MMS-Version", Some("1.0")), "MIME-Version")
  }

  /** fixup_msg. */
  function Fixup(cfg: Config, msgType: int, hdrs: seq<Header>, b: Body): seq<Header> {
    var h := Opening(hdrs);
    if CarriesContent(msgType) then StripBoundary(ContentDefaults(cfg, msgType, h, b))
    else if CarriesNone(msgType) then Without(h, "Content-Type")
    else h
  }

  /** mms_frombinary_ex. */
  function FromBinary(cfg: Config, hc: HeaderCodec, data: string): Option<Message> {
    var r := DecodeHeaders(cfg, 0, [], data);
    match HeaderValue(r.headers, "X-Mms-Message-Type")
    case None => None
    case Some(t) =>
      match ReadMessageBody(hc, r.headers, r.left)
      case None => None
      case Some(b) => Some(Message(Fixup(cfg, NumberOf(cfg.tables.messageType, t), r.headers, b), b))
  }
}
