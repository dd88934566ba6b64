/**
  The header fields of an MMS message (section 7 of WAP-209-MMSEncapsulation): what
  mms_pack_well_known_field sends for a value, and what mms_unpack_well_known_field makes of what arrives.
 */
module MmsFields {
  import opened Wrappers
  import opened Text
  import opened StringTable
  import opened Envelopes
  import opened Octets
  import opened WspForms

  /** The tables of mms_strings.def. */
  datatype Tables = Tables(
    header: Table,
    reports: Table,
    messageType: Table,
    priority: Table,
    readStatus: Table,
    replyCharging: Table,
    responseStatus: Table,
    retrieveStatus: Table,
    status: Table,
    visibility: Table,
    messageClass: Table,
    mmState: Table,
    storeStatus: Table)

  /** The tables, the clock, the address to insert, the parts of gwlib that are not modelled (dates,
      content types and element descriptors), and the coding of each field, which `Standard` fixes. */
  datatype Config = Config(
    tables: Tables,
    now: int,
    from: Option<string>,
    parseDate: string -> int,
    formatDate: int -> string,
    typeForm: string -> Form,
    typeOf: Form -> Option<string>,
    descriptorForm: string -> Form,
    descriptorOf: Form -> Option<string>,
    kindOf: int -> Kind)

  /** How the value of a field is coded. */
  datatype Kind =
    | Address | Plain | Id | Reply | Location | Version | Token(table: Table, high: bool) | Outcome | Class
    | Date | Count | Type | Time | Sender | SentBy | SentDate | Total | Flag | Descriptor | Unsupported

  // Field codes, in the order of the header table.
  const CONTENT_TYPE: nat := 4
  const MESSAGE_TYPE: nat := 12
  const MMS_VERSION: nat := 13
  const TRANSACTION_ID: nat := 24

  /** The code of m-mbox-delete-req. */
  const MBOX_DELETE_REQ: int := 17

  /** The coding of every field the program knows. */
  function FieldKind(t: Tables, code: int): Kind {
    match code
    case 1 | 2 | 23 => Address
    case 22 | 26 | 38 => Plain
    case 11 | 24 | 30 => Id
    case 19 => Reply
    case 3 => Location
    case 13 => Version
    case 6 | 16 | 17 | 34 | 39 | 41 | 43 | 49 => Token(t.reports, false)
    case 12 => Token(t.messageType, false)
    case 15 => Token(t.priority, false)
    case 27 => Token(t.readStatus, false)
    case 28 => Token(t.replyCharging, false)
    case 18 => Outcome
    case 25 => Token(t.retrieveStatus, true)
    case 21 => Token(t.status, false)
    case 20 => Token(t.visibility, false)
    case 10 => Class
    case 5 => Date
    case 14 | 31 | 45 | 47 | 51 => Count
    case 4 => Type
    case 7 | 8 | 29 => Time
    case 9 => Sender
    case 32 => SentBy
    case 33 => SentDate
    case 35 => Token(t.mmState, false)
    case 36 => Flag
    case 37 => Token(t.storeStatus, true)
    case 40 => Token(t.header, false)
    case 42 | 44 => Total
    case 50 => Descriptor
    case _ => Unsupported
  }

  ghost predicate Standard(cfg: Config) {
    forall code :: cfg.kindOf(code) == FieldKind(cfg.tables, code)
  }

  // ---- numbers in texts ----

  /** octstr_isnum. */
  predicate IsNumber(v: string) {
    forall i :: 0 <= i < |v| ==> IsDigit(v[i]) || v[i] == '+' || v[i] == '-'
  }

  /** wsp_pack_version_value: major and minor in one octet if they fit, else the text. */
  function VersionForm(v: string): Form {
    match ScanLong(v)
    case NoScan => Words(v)
    case Scan(major, rest) =>
      if major < 1 || major > 7 then Words(v)
      else if rest == "" then Short(16 * major + 15)
      else if rest[0] != '.' then Words(v)
      else
        match ScanLong(rest[1..])
        case NoScan => Words(v)
        case Scan(minor, end) => if end == "" && 0 <= minor <= 14 then Short(16 * major + minor) else Words(v)
  }

  function VersionText(n: nat): string {
    if n % 16 == 15 then Digits(n / 16) else Digits(n / 16) + "." + Digits(n % 16)
  }

  // ---- sending ----

  /** The word of a table as a short integer; an unknown word becomes 127. */
  function TokenForm(t: Table, v: string): Form {
    Short(NumberOf(t, v) % 128)
  }

  /** The text behind the number of a counted value. */
  function Behind(v: string): string {
    match ScanLong(v)
    case NoScan => StripBlanks(v)
    case Scan(_, rest) => StripBlanks(rest)
  }

  function CounterOf(v: string): nat {
    match ScanLong(v)
    case Scan(n, _) => if n >= 0 then n else 0
    case NoScan => 0
  }

  function Counted(v: string, behind: string): Form {
    Framed(Write(Integer(CounterOf(v))) + behind)
  }

  function DateOf(cfg: Config, v: string): nat {
    if cfg.parseDate(v) >= 0 then cfg.parseDate(v) else 0
  }

  /** wsp_pack_date: nothing for a date it cannot read. */
  function DateOctets(cfg: Config, v: string): string {
    if cfg.parseDate(v) < 0 then "" else Write(LongInteger(DateOf(cfg, v)))
  }

  const INSERT: string := "#insert"

  function FlagOctet(v: string): nat {
    if v != "" && v[0] == '+' then 0x80 else if v != "" && v[0] == '-' then 0x81 else 0x82
  }

  function FlagText(v: string): string {
    if v != "" && (v[0] == '+' || v[0] == '-' || v[0] == '/') then v[1..] else v
  }

  predicate InBytes(v: string) {
    match ScanLong(v)
    case Scan(_, rest) => SearchNoCase(rest, "bytes") >= 0
    case NoScan => SearchNoCase(v, "bytes") >= 0
  }

  /** What mms_pack_well_known_field sends. */
  function Pack(cfg: Config, k: Kind, v: string): Form {
    match k
    case Address | Plain | Id => Words(v)
    case Reply | Location => if StartsWithDigit(v) then Counted(v, PackText(Behind(v))) else Words(v)
    case Version => VersionForm(v)
    case Token(t, _) => TokenForm(t, v)
    case Outcome =>
      if StartsWithDigit(v) then Counted(v, Write(TokenForm(cfg.tables.responseStatus, Behind(v))))
      else TokenForm(cfg.tables.responseStatus, v)
    case Class => if NumberOf(cfg.tables.messageClass, v) < 0 then Words(v) else TokenForm(cfg.tables.messageClass, v)
    case Date => LongInteger(DateOf(cfg, v))
    case Count => Integer(ScanNat(v, 0))
    case Type => cfg.typeForm(v)
    case Time =>
      if IsNumber(v) then Framed([Octet(0x81)] + Write(LongInteger(CounterOf(v)))) else Framed([Octet(0x80)] + DateOctets(cfg, v))
    case Sender => if v == INSERT then Framed([Octet(0x81)]) else Framed([Octet(0x80)] + PackText(v))
    case SentBy => Counted(v, PackText(Behind(v)))
    case SentDate => Counted(v, DateOctets(cfg, Behind(v)))
    case Total => Framed([Octet(if InBytes(v) then 0x81 else 0x80)] + Write(Integer(CounterOf(v))))
    case Flag => Framed([Octet(FlagOctet(v))] + PackText(FlagText(v)))
    case Descriptor => cfg.descriptorForm(v)
    case Unsupported => Words("")
  }

  /** The octets of a value: none for a date that cannot be read, nor for a field without a coding. */
  function PackField(cfg: Config, k: Kind, v: string): string {
    if k.Unsupported? || (k.Date? && cfg.parseDate(v) < 0) then "" else Write(Pack(cfg, k, v))
  }

  // ---- receiving ----

  /** decode_encoded_string_value when a length came first: the charset goes, the text stays. */
  function CharsetText(d: string): Option<string> {
    match TakeInteger(d)
    case None => None
    case Some(u) => TextAt(u.left)
  }

  /** parse_get_nul_string: quote octets stay. */
  function TextAt(d: string): Option<string> {
    match NulString(d)
    case NoStr => None
    case Str(t, _) => Some(t)
  }

  /** decode_encoded_string_value inside a value. */
  function InnerText(d: string): Option<string> {
    match ReadForm(d)
    case NoForm(_) => None
    case GotForm(Words(t), _) => Some(t)
    case GotForm(Framed(x), _) => CharsetText(x)
    case GotForm(Short(_), _) => Some("")
  }

  function DateAt(cfg: Config, d: string): Option<string> {
    if d != "" && d[0] as int > 30 then None
    else match TakeInteger(d)
      case None => None
      case Some(u) => Some(cfg.formatDate(u.value))
  }

  function Joined(counter: nat, text: Option<string>): Option<string> {
    match text
    case None => None
    case Some(t) => Some(Digits(counter) + t)
  }

  function Fixed(t: Option<string>): Option<string> {
    match t
    case None => None
    case Some(a) => Some(FixupAddress(a))
  }

  function FirstOctet(d: string): int {
    if d == "" then -1 else d[0] as int
  }

  function AfterFirst(d: string): string {
    if d == "" then "" else d[1..]
  }

  function TokenWord(t: Table, high: bool, n: nat): Option<string> {
    WordOf(t, if high then 128 + n else n)
  }

  /** The status that may follow a counter; a counter without a known one stands alone. */
  function OutcomeAt(t: Table, d: string): string {
    match ReadForm(d)
    case GotForm(Short(n), _) => (match TokenWord(t, true, n) case Some(w) => w case None => "")
    case _ => ""
  }

  /** The value of a field that came as data with its length in front. */
  function UnpackFramed(cfg: Config, k: Kind, msgType: int, d: string): Option<string> {
    match k
    case Address => Fixed(CharsetText(d))
    case Plain => CharsetText(d)
    case Reply =>
      if msgType == MBOX_DELETE_REQ then (match TakeInteger(d) case None => None case Some(u) => Joined(u.value, InnerText(u.left)))
      else CharsetText(d)
    case Location => (match TakeInteger(d) case None => None case Some(u) => Joined(u.value, TextAt(u.left)))
    case Outcome =>
      (match TakeInteger(d) case None => None case Some(u) => Some(Digits(u.value) + OutcomeAt(cfg.tables.responseStatus, u.left)))
    case Date => (match Number(d) case None => None case Some(n) => Some(cfg.formatDate(n)))
    case Count => (match Number(d) case None => None case Some(n) => Some(Digits(n)))
    case Type => cfg.typeOf(Framed(d))
    case Time =>
      if FirstOctet(d) == 0x80 then DateAt(cfg, d[1..])
      else if FirstOctet(d) == 0x81 then
        (match TakeInteger(d[1..]) case None => Some(cfg.formatDate(cfg.now)) case Some(u) => Some(cfg.formatDate(cfg.now + u.value)))
      else Some(cfg.formatDate(cfg.now))
    case Sender => Fixed(if FirstOctet(d) == 0x80 then InnerText(d[1..]) else cfg.from)
    case SentBy => (match TakeInteger(d) case None => None case Some(u) => Joined(u.value, InnerText(u.left)))
    case SentDate => (match TakeInteger(d) case None => None case Some(u) => Joined(u.value, DateAt(cfg, u.left)))
    case Total =>
      (match TakeInteger(AfterFirst(d))
       case None => None
       case Some(u) => Some(Digits(u.value) + if FirstOctet(d) == 0x80 then " msgs" else " bytes"))
    case Flag =>
      (match InnerText(AfterFirst(d))
       case None => None
       case Some(t) => Some((if FirstOctet(d) == 0x80 then "+" else if FirstOctet(d) == 0x81 then "-" else "/") + t))
    case Descriptor => cfg.descriptorOf(Framed(d))
    case Id | Version | Token(_, _) | Class | Unsupported => None
  }

  /** The value of a field that came as a short integer. */
  function UnpackShort(cfg: Config, k: Kind, n: nat): Option<string> {
    match k
    case Version => Some(VersionText(n))
    case Token(t, high) => TokenWord(t, high, n)
    case Outcome => TokenWord(cfg.tables.responseStatus, true, n)
    case Class => WordOf(cfg.tables.messageClass, n)
    case Count => Some(Digits(n))
    case Type => cfg.typeOf(Short(n))
    case _ => None
  }

  /** The value of a field that came as a text. Integers and dates step back onto the closing NUL and read 0. */
  function UnpackWords(cfg: Config, k: Kind, t: string): Option<string> {
    match k
    case Address => Some(FixupAddress(t))
    case Date => Some(cfg.formatDate(0))
    case Count => Some(Digits(0))
    case _ => Some(t)
  }

  /** What mms_unpack_well_known_field makes of a form, given the type of the message it is in. */
  function Unpack(cfg: Config, k: Kind, msgType: int, f: Form): Option<string> {
    match f
    case Short(n) => UnpackShort(cfg, k, n)
    case Words(t) => UnpackWords(cfg, k, t)
    case Framed(d) => UnpackFramed(cfg, k, msgType, d)
  }
}
