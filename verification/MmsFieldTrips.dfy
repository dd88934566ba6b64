/** What becomes of each header value on its way through the binary form and back. */
module MmsFieldTrips {
  import opened Wrappers
  import opened Text
  import opened StringTable
  import opened Envelopes
  import opened Octets
  import opened WspForms
  import opened MmsFields

  predicate GoodCounter(v: string) {
    StartsWithDigit(v) && ScanLong(v).Scan?
  }

  predicate GoodDate(cfg: Config, v: string) {
    0 <= cfg.parseDate(v) <= LONG_MAX
  }

  /** The values that can be sent at all: C strings, with the dates and counters that the packing code relies on. */
  predicate Packable(cfg: Config, k: Kind, v: string) {
    && NUL !in v && |v| < 0x4000_0000
    && match k
       case Reply | Location | Outcome => StartsWithDigit(v) ==> GoodCounter(v)
       case Date => GoodDate(cfg, v)
       case Count => Countable(ScanNat(v, 0))
       case Type => Writable(cfg.typeForm(v))
       case Time => if IsNumber(v) then GoodCounter(v) else GoodDate(cfg, v)
       case SentBy | Total => GoodCounter(v)
       case SentDate => GoodCounter(v) && GoodDate(cfg, Behind(v))
       case Descriptor => Writable(cfg.descriptorForm(v))
       case Unsupported => false
       case _ => true
  }

  /** Numbers of low tables stay below 127, those of high tables lie above it; 127 stands for an unknown word. */
  predicate InHalf(t: Table, high: bool) {
    forall i :: 0 <= i < |t| ==> if high then 128 <= t[i].number < 255 else 0 <= t[i].number < 127
  }

  predicate TablesFit(cfg: Config, k: Kind) {
    match k
    case Token(t, high) => InHalf(t, high)
    case Outcome => InHalf(cfg.tables.responseStatus, true)
    case Class => InHalf(cfg.tables.messageClass, false)
    case _ => true
  }

  /** The canonical spelling of a table's word, if it is one. */
  function Canonical(t: Table, v: string): Option<string> {
    if NumberOf(t, v) < 0 then None else WordOf(t, NumberOf(t, v))
  }

  function OrEmpty(w: Option<string>): string {
    match w
    case Some(x) => x
    case None => ""
  }

  /** The value that arrives, told without the wire. */
  function Trip(cfg: Config, k: Kind, msgType: int, v: string): Option<string> {
    match k
    case Address => Some(FixupAddress(Unquoted(v)))
    case Plain | Id => Some(Unquoted(v))
    case Reply =>
      if !StartsWithDigit(v) then Some(Unquoted(v))
      else if msgType == MBOX_DELETE_REQ then Some(Digits(CounterOf(v)) + Unquoted(Behind(v)))
      else Some(Quoted(Behind(v)))
    case Location => if !StartsWithDigit(v) then Some(Unquoted(v)) else Some(Digits(CounterOf(v)) + Quoted(Behind(v)))
    case Version => if VersionForm(v).Short? then Some(VersionText(VersionForm(v).n)) else Some(Unquoted(v))
    case Token(t, _) => Canonical(t, v)
    case Outcome =>
      if !StartsWithDigit(v) then Canonical(cfg.tables.responseStatus, v)
      else Some(Digits(CounterOf(v)) + OrEmpty(Canonical(cfg.tables.responseStatus, Behind(v))))
    case Class => if NumberOf(cfg.tables.messageClass, v) < 0 then Some(Unquoted(v)) else Canonical(cfg.tables.messageClass, v)
    case Date => Some(cfg.formatDate(cfg.parseDate(v)))
    case Count => Some(Digits(ScanNat(v, 0)))
    case Type => (match cfg.typeForm(v) case Words(t) => Some(Unquoted(t)) case f => cfg.typeOf(Arrived(f)))
    case Time => Some(cfg.formatDate(if IsNumber(v) then cfg.now + CounterOf(v) else cfg.parseDate(v)))
    case Sender => if v == INSERT then Fixed(cfg.from) else Some(FixupAddress(Unquoted(v)))
    case SentBy => Some(Digits(CounterOf(v)) + Unquoted(Behind(v)))
    case SentDate => Some(Digits(CounterOf(v)) + cfg.formatDate(cfg.parseDate(Behind(v))))
    case Total => Some(Digits(CounterOf(v)) + if InBytes(v) then " bytes" else " msgs")
    case Flag => Some((if v != "" && v[0] == '+' then "+" else if v != "" && v[0] == '-' then "-" else "/") + Unquoted(FlagText(v)))
    case Descriptor =>
      (match cfg.descriptorForm(v)
       case Words(t) => Some(Unquoted(t)) case Framed(d) => cfg.descriptorOf(Framed(d)) case Short(_) => None)
    case Unsupported => None
  }

  // ---- pieces of texts ----

  predicate Piece(s: string, v: string) {
    |s| <= |v| && (NUL !in v ==> NUL !in s)
  }

  lemma {:induction false} StripLeftPiece(v: string)
    ensures Piece(StripLeft(v), v)
  {
    if v != "" && IsSpace(v[0]) {
      StripLeftPiece(v[1..]);
    }
  }

  lemma {:induction false} StripRightPiece(v: string)
    ensures Piece(StripRight(v), v)
  {
    if v != "" && IsSpace(v[|v| - 1]) {
      StripRightPiece(v[..|v| - 1]);
    }
  }

  lemma {:induction false} SkipDigitsPiece(v: string)
    ensures Piece(SkipDigits(v), v)
  {
    if v != "" && IsDigit(v[0]) {
      SkipDigitsPiece(v[1..]);
    }
  }

  lemma BehindPiece(v: string)
    requires GoodCounter(v)
    ensures Piece(Behind(v), v)
  {
    assert StripLeft(v) == v;
    SkipDigitsPiece(v);
    StripLeftPiece(SkipDigits(v));
    StripRightPiece(StripLeft(SkipDigits(v)));
  }

  // ---- values inside a frame ----

  /** A text inside a value arrives unquoted where a field value is read, and as sent where a plain text is. */
  lemma TextInside(t: string)
    requires NUL !in t
    ensures InnerText(PackText(t)) == Some(Unquoted(t))
    ensures TextAt(PackText(t)) == Some(Quoted(t))
  {
    assert PackText(t) + "" == PackText(t) && Quoted(t) + [NUL] + "" == PackText(t);
    TextArrives(t, "");
    assert NUL !in Quoted(t);
    NulStringReadsBack(Quoted(t), "");
  }

  lemma DateInside(cfg: Config, v: string)
    requires GoodDate(cfg, v)
    ensures DateAt(cfg, DateOctets(cfg, v)) == Some(cfg.formatDate(cfg.parseDate(v)))
    ensures |DateOctets(cfg, v)| <= 9
  {
    LongIntegerArrives(DateOf(cfg, v), "");
    assert DateOctets(cfg, v) + "" == DateOctets(cfg, v);
    LongIntegerNumber(DateOf(cfg, v));
  }

  lemma CounterInside(v: string, behind: string)
    requires GoodCounter(v) && |behind| < 0x4000_0010
    ensures Countable(CounterOf(v)) && Writable(Counted(v, behind))
    ensures Counted(v, behind).Framed? && TakeInteger(Counted(v, behind).data) == Some(Uint(CounterOf(v), behind))
  {
    IntegerArrives(CounterOf(v), behind);
  }

  lemma AfterOctet(n: nat, d: string)
    requires n < 256
    ensures FirstOctet([Octet(n)] + d) == n && ([Octet(n)] + d)[1..] == d && AfterFirst([Octet(n)] + d) == d
  {
  }

  // ---- tokens ----

  lemma {:induction false} NumberOrMissing(t: Table, w: string, high: bool)
    requires InHalf(t, high)
    ensures var n := NumberOf(t, w); n == -1 || (if high then 128 <= n < 255 else 0 <= n < 127)
  {
    if t != [] && !EqNoCase(w, t[0].word) {
      NumberOrMissing(t[1..], w, high);
    }
  }

  lemma {:induction false} NoSuchNumber(t: Table, high: bool, n: int)
    requires InHalf(t, high) && n == if high then 255 else 127
    ensures WordOf(t, n) == None
  {
    if t != [] {
      NoSuchNumber(t[1..], high, n);
    }
  }

  lemma TokenTrip(t: Table, high: bool, v: string)
    requires InHalf(t, high)
    ensures TokenWord(t, high, TokenForm(t, v).n) == Canonical(t, v) && TokenForm(t, v).n < 128
  {
    NumberOrMissing(t, v, high);
    NoSuchNumber(t, high, if high then 255 else 127);
  }

  // ---- each kind ----

  /** What is sent is well formed, and is understood as `Trip` says. */
  ghost predicate Understood(cfg: Config, k: Kind, msgType: int, v: string) {
    var f := Pack(cfg, k, v);
    Writable(f) && Unpack(cfg, k, msgType, Arrived(f)) == Trip(cfg, k, msgType, v)
  }

  /** A text behind a counter is framed with it, and both are found in the frame. */
  lemma CountedText(v: string)
    requires GoodCounter(v) && NUL !in v && |v| < 0x4000_0000
    ensures var f := Counted(v, PackText(Behind(v)));
            && Writable(f) && f.Framed? && TakeInteger(f.data) == Some(Uint(CounterOf(v), PackText(Behind(v))))
            && CharsetText(f.data) == TextAt(PackText(Behind(v))) && TextAt(PackText(Behind(v))) == Some(Quoted(Behind(v)))
            && InnerText(PackText(Behind(v))) == Some(Unquoted(Behind(v)))
  {
    BehindPiece(v);
    CounterInside(v, PackText(Behind(v)));
    TextInside(Behind(v));
  }

  /** A counter and a text in a frame, by what is found there. */
  lemma FramedCounter(cfg: Config, msgType: int, d: string, n: nat, p: string, q: string, u: string)
    requires TakeInteger(d) == Some(Uint(n, p)) && CharsetText(d) == Some(q) && TextAt(p) == Some(q) && InnerText(p) == Some(u)
    ensures UnpackFramed(cfg, Reply, msgType, d) == Some(if msgType == MBOX_DELETE_REQ then Digits(n) + u else q)
    ensures UnpackFramed(cfg, Location, msgType, d) == Some(Digits(n) + q)
  {
  }

  lemma CountedUnpacks(cfg: Config, msgType: int, v: string, f: Form)
    requires GoodCounter(v) && NUL !in v && |v| < 0x4000_0000 && f == Counted(v, PackText(Behind(v)))
    ensures Writable(f) && f.Framed? && Arrived(f) == f
    ensures UnpackFramed(cfg, Reply, msgType, f.data)
         == Some(if msgType == MBOX_DELETE_REQ then Digits(CounterOf(v)) + Unquoted(Behind(v)) else Quoted(Behind(v)))
    ensures UnpackFramed(cfg, Location, msgType, f.data) == Some(Digits(CounterOf(v)) + Quoted(Behind(v)))
  {
    CountedText(v);
    FramedCounter(cfg, msgType, f.data, CounterOf(v), PackText(Behind(v)), Quoted(Behind(v)), Unquoted(Behind(v)));
  }

  lemma ReplyTrip(cfg: Config, k: Kind, msgType: int, v: string)
    requires (k.Reply? || k.Location?) && Packable(cfg, k, v)
    ensures Understood(cfg, k, msgType, v)
  {
    if StartsWithDigit(v) {
      CountedUnpacks(cfg, msgType, v, Pack(cfg, k, v));
    } else {
      assert Pack(cfg, k, v) == Words(v);
    }
  }

  lemma VersionTrip(cfg: Config, msgType: int, v: string)
    requires Packable(cfg, Version, v)
    ensures Understood(cfg, Version, msgType, v)
  {
    VersionFits(v);
    match VersionForm(v)
    case Short(n) => assert Arrived(VersionForm(v)) == Short(n);
    case Words(t) =>
    case Framed(_) =>
  }

  lemma VersionFits(v: string)
    ensures match VersionForm(v) case Short(n) => n < 128 case Words(t) => t == v case Framed(_) => false
  {
  }

  lemma OutcomeInside(t: Table, v: string)
    requires InHalf(t, true)
    ensures OutcomeAt(t, Write(TokenForm(t, v))) == OrEmpty(Canonical(t, v)) && |Write(TokenForm(t, v))| == 1
  {
    var f := TokenForm(t, v);
    TokenTrip(t, true, v);
    FormArrives(f, "");
    assert Write(f) + "" == Write(f);
  }

  lemma OutcomeTrip(cfg: Config, msgType: int, v: string)
    requires Packable(cfg, Outcome, v) && TablesFit(cfg, Outcome)
    ensures Understood(cfg, Outcome, msgType, v)
  {
    var t := cfg.tables.responseStatus;
    if StartsWithDigit(v) {
      OutcomeInside(t, Behind(v));
      CounterInside(v, Write(TokenForm(t, Behind(v))));
    } else {
      TokenTrip(t, true, v);
    }
  }

  lemma ClassTrip(cfg: Config, msgType: int, v: string)
    requires Packable(cfg, Class, v) && TablesFit(cfg, Class)
    ensures Understood(cfg, Class, msgType, v)
  {
    var t := cfg.tables.messageClass;
    NumberOrMissing(t, v, false);
  }

  /** A number arrives in the form it was sent in. */
  lemma NumberKept(n: nat)
    requires Countable(n)
    ensures Arrived(Integer(n)) == Integer(n) && Writable(Integer(n))
    ensures Arrived(LongInteger(n)) == LongInteger(n) && Writable(LongInteger(n)) && Number(LongInteger(n).data) == Some(n)
  {
    LongIntegerNumber(n);
  }

  lemma NumberUnpacks(cfg: Config, msgType: int, n: nat, f: Form)
    requires f == Short(n) || (f.Framed? && Number(f.data) == Some(n))
    ensures Unpack(cfg, Count, msgType, f) == Some(Digits(n))
    ensures f.Framed? ==> Unpack(cfg, Date, msgType, f) == Some(cfg.formatDate(n))
  {
  }

  lemma NumbersTrip(cfg: Config, k: Kind, msgType: int, v: string)
    requires (k.Date? || k.Count?) && Packable(cfg, k, v)
    ensures Understood(cfg, k, msgType, v)
  {
    var n := if k.Date? then DateOf(cfg, v) else ScanNat(v, 0);
    NumberKept(n);
    NumberUnpacks(cfg, msgType, n, Pack(cfg, k, v));
  }

  lemma RelativeTimeTrip(cfg: Config, msgType: int, v: string)
    requires Packable(cfg, Time, v) && IsNumber(v)
    ensures Understood(cfg, Time, msgType, v)
  {
    AfterOctet(0x81, Write(LongInteger(CounterOf(v))));
    LongIntegerArrives(CounterOf(v), "");
    assert Write(LongInteger(CounterOf(v))) + "" == Write(LongInteger(CounterOf(v)));
  }

  lemma AbsoluteTimeTrip(cfg: Config, msgType: int, v: string)
    requires Packable(cfg, Time, v) && !IsNumber(v)
    ensures Understood(cfg, Time, msgType, v)
  {
    AfterOctet(0x80, DateOctets(cfg, v));
    DateInside(cfg, v);
  }

  lemma TimeTrip(cfg: Config, msgType: int, v: string)
    requires Packable(cfg, Time, v)
    ensures Understood(cfg, Time, msgType, v)
  {
    if IsNumber(v) {
      RelativeTimeTrip(cfg, msgType, v);
    } else {
      AbsoluteTimeTrip(cfg, msgType, v);
    }
  }

  /** What a frame that starts with an octet or a counter is unpacked to, by what is found behind that. */
  lemma FramedText(cfg: Config, msgType: int, d: string, c: nat, p: string, t: string)
    requires FirstOctet(d) == c && d != "" && d[1..] == p && InnerText(p) == Some(t)
    ensures c == 0x80 ==> UnpackFramed(cfg, Sender, msgType, d) == Fixed(InnerText(p))
    ensures UnpackFramed(cfg, Flag, msgType, d) == Some((if c == 0x80 then "+" else if c == 0x81 then "-" else "/") + t)
  {
  }

  lemma FramedNumber(cfg: Config, msgType: int, d: string, c: nat, p: string, n: nat)
    requires FirstOctet(d) == c && d != "" && d[1..] == p && TakeInteger(p) == Some(Uint(n, ""))
    ensures UnpackFramed(cfg, Total, msgType, d) == Some(Digits(n) + if c == 0x80 then " msgs" else " bytes")
  {
  }

  lemma FramedSent(cfg: Config, msgType: int, d: string, n: nat, p: string)
    requires TakeInteger(d) == Some(Uint(n, p))
    ensures InnerText(p).Some? ==> UnpackFramed(cfg, SentBy, msgType, d) == Some(Digits(n) + InnerText(p).value)
    ensures DateAt(cfg, p).Some? ==> UnpackFramed(cfg, SentDate, msgType, d) == Some(Digits(n) + DateAt(cfg, p).value)
  {
  }

  lemma SenderTrip(cfg: Config, msgType: int, v: string)
    requires Packable(cfg, Sender, v)
    ensures Understood(cfg, Sender, msgType, v)
  {
    if v == INSERT {
      assert FirstOctet([Octet(0x81)]) == 0x81;
    } else {
      AfterOctet(0x80, PackText(v));
      TextInside(v);
      FramedText(cfg, msgType, [Octet(0x80)] + PackText(v), 0x80, PackText(v), Unquoted(v));
    }
  }

  lemma SentTrip(cfg: Config, k: Kind, msgType: int, v: string)
    requires (k.SentBy? || k.SentDate?) && Packable(cfg, k, v)
    ensures Understood(cfg, k, msgType, v)
  {
    BehindPiece(v);
    var p := if k.SentBy? then PackText(Behind(v)) else DateOctets(cfg, Behind(v));
    if k.SentBy? {
      TextInside(Behind(v));
    } else {
      DateInside(cfg, Behind(v));
    }
    CounterInside(v, p);
    FramedSent(cfg, msgType, Counted(v, p).data, CounterOf(v), p);
  }

  lemma TotalTrip(cfg: Config, msgType: int, v: string)
    requires Packable(cfg, Total, v)
    ensures Understood(cfg, Total, msgType, v)
  {
    var first := if InBytes(v) then 0x81 else 0x80;
    var w := Write(Integer(CounterOf(v)));
    AfterOctet(first, w);
    IntegerArrives(CounterOf(v), "");
    assert w + "" == w;
    FramedNumber(cfg, msgType, [Octet(first)] + w, first, w, CounterOf(v));
  }

  lemma FlagTrip(cfg: Config, msgType: int, v: string)
    requires Packable(cfg, Flag, v)
    ensures Understood(cfg, Flag, msgType, v)
  {
    AfterOctet(FlagOctet(v), PackText(FlagText(v)));
    TextInside(FlagText(v));
    FramedText(cfg, msgType, [Octet(FlagOctet(v))] + PackText(FlagText(v)), FlagOctet(v), PackText(FlagText(v)), Unquoted(FlagText(v)));
  }

  /** The kinds that carry a number, a date or an address with something else. */
  lemma CompoundTrip(cfg: Config, k: Kind, msgType: int, v: string)
    requires k.Date? || k.Count? || k.Time? || k.Sender? || k.SentBy? || k.SentDate? || k.Total? || k.Flag?
    requires Packable(cfg, k, v)
    ensures Understood(cfg, k, msgType, v)
  {
    match k {
      case Date | Count => NumbersTrip(cfg, k, msgType, v);
      case Time => TimeTrip(cfg, msgType, v);
      case Sender => SenderTrip(cfg, msgType, v);
      case SentBy | SentDate => SentTrip(cfg, k, msgType, v);
      case Total => TotalTrip(cfg, msgType, v);
      case Flag => FlagTrip(cfg, msgType, v);
    }
  }

  /** The kinds that are a text or a token. */
  lemma SimpleTrip(cfg: Config, k: Kind, msgType: int, v: string)
    requires !(k.Date? || k.Count? || k.Time? || k.Sender? || k.SentBy? || k.SentDate? || k.Total? || k.Flag?)
    requires Packable(cfg, k, v) && TablesFit(cfg, k)
    ensures Understood(cfg, k, msgType, v)
  {
    match k {
      case Reply | Location => ReplyTrip(cfg, k, msgType, v);
      case Version => VersionTrip(cfg, msgType, v);
      case Token(t, high) => TokenTrip(t, high, v);
      case Outcome => OutcomeTrip(cfg, msgType, v);
      case Class => ClassTrip(cfg, msgType, v);
      case Address | Plain | Id | Type | Descriptor | Unsupported =>
    }
  }

  /** Every value of every kind arrives as `Trip` says, and the reader stops exactly at its end. */
  lemma FieldTrips(cfg: Config, k: Kind, msgType: int, v: string, rest: string)
    requires Packable(cfg, k, v) && TablesFit(cfg, k)
    ensures ReadForm(PackField(cfg, k, v) + rest) == GotForm(Arrived(Pack(cfg, k, v)), rest)
    ensures Unpack(cfg, k, msgType, Arrived(Pack(cfg, k, v))) == Trip(cfg, k, msgType, v)
  {
    if k.Date? || k.Count? || k.Time? || k.Sender? || k.SentBy? || k.SentDate? || k.Total? || k.Flag? {
      CompoundTrip(cfg, k, msgType, v);
    } else {
      SimpleTrip(cfg, k, msgType, v);
    }
    FormArrives(Pack(cfg, k, v), rest);
  }

  // ---- values that survive ----

  /** What a receiver finds in the octets of a field and whatever follows them. */
  function ValueAt(cfg: Config, k: Kind, msgType: int, octets: string): Option<string> {
    match ReadForm(octets)
    case NoForm(_) => None
    case GotForm(f, _) => Unpack(cfg, k, msgType, f)
  }

  /** Packed, and read from the front of any octets, a text is what it was exactly when it does not start with one of
      the two quote characters. */
  lemma TextUnchangedIff(cfg: Config, k: Kind, msgType: int, v: string, rest: string)
    requires (k.Plain? || k.Id?) && Packable(cfg, k, v)
    ensures ValueAt(cfg, k, msgType, PackField(cfg, k, v) + rest) == Some(v) <==> !(v != "" && (v[0] == QUOTE || v[0] == '"'))
  {
    FieldTrips(cfg, k, msgType, v, rest);
  }

  /** Packed, and read from the front of any octets, a token is what it was exactly when it is a word of the table, in
      the table's spelling. */
  lemma TokenUnchangedIff(cfg: Config, t: Table, high: bool, msgType: int, v: string, rest: string)
    requires Lawful(t) && InHalf(t, high) && Packable(cfg, Token(t, high), v)
    ensures ValueAt(cfg, Token(t, high), msgType, PackField(cfg, Token(t, high), v) + rest) == Some(v)
       <==> exists i :: 0 <= i < |t| && t[i].word == v
  {
    FieldTrips(cfg, Token(t, high), msgType, v, rest);
    CanonicalIff(t, v);
  }

  lemma CanonicalIff(t: Table, v: string)
    requires Lawful(t)
    ensures Canonical(t, v) == Some(v) <==> exists i :: 0 <= i < |t| && t[i].word == v
  {
    if i :| 0 <= i < |t| && t[i].word == v {
      NumberFound(t, v, i);
      WordFound(t, i);
    }
    if Canonical(t, v) == Some(v) {
      var i := WordIsInTable(t, NumberOf(t, v));
    }
  }

  lemma {:induction false} WordFound(t: Table, i: nat)
    requires Lawful(t) && i < |t|
    ensures WordOf(t, t[i].number) == Some(t[i].word)
  {
    if i > 0 {
      assert t[i].number != t[0].number;
      TailIsLawful(t);
      WordFound(t[1..], i - 1);
    }
  }

  lemma TailIsLawful(t: Table)
    requires Lawful(t) && t != []
    ensures Lawful(t[1..])
  {
    forall a, b | 0 <= a < |t| - 1 && 0 <= b < |t| - 1 && a != b
      ensures t[1..][a].number != t[1..][b].number && !EqNoCase(t[1..][a].word, t[1..][b].word)
    {
      assert t[1..][a] == t[a + 1] && t[1..][b] == t[b + 1];
    }
  }

  lemma {:induction false} StripRightTrims(s: string)
    ensures StripRight(s) == "" || (StripRight(s)[0] == s[0] && !IsSpace(StripRight(s)[|StripRight(s)| - 1]))
  {
    if s != "" && IsSpace(s[|s| - 1]) {
      StripRightTrims(s[..|s| - 1]);
    }
  }

  /** A counter written in front of a text is told apart from it again exactly when the text does not start
      with a digit: then a Previously-Sent-By header settles after one trip, and otherwise it does not. */
  lemma CounterSettlesIff(n: nat, b: string)
    requires Countable(n) && StripBlanks(b) == b
    ensures !StartsWithDigit(b) <==> CounterOf(Digits(n) + b) == n && Behind(Digits(n) + b) == b
  {
    var w := Digits(n) + b;
    DigitsAreDigits(n);
    assert w[0] == Digits(n)[0] && StripLeft(w) == w;
    ScanDigits(n, b);
    if StartsWithDigit(b) {
      var rest := SkipDigits(b);
      SkipDigitsPiece(b[1..]);
      StripLeftPiece(rest);
      StripRightPiece(StripLeft(rest));
      if ScanLong(w).NoScan? {
        StripRightTrims(StripLeft(b));
        assert w[|w| - 1] == b[|b| - 1];
        assert StripBlanks(w) == w;
      }
    }
  }
}
