/**
  The loops of mms_queue_readenvelope and writeenvelope, over a parse context that advances and a file
  that grows.
 */
module EnvelopeIo {
  import opened Wrappers
  import opened Text
  import opened StringTable
  import opened Envelopes
  import opened EnvelopeCodec
  import opened OctetStreams

  /** What remains to be read of an envelope when `line` is in hand. */
  ghost function Finish(types: Table, e: Envelope, line: Option<string>, left: string): Option<Envelope> {
    match line
    case None => None
    case Some(l) => if IsEnd(l) then Some(e) else ReadLines(types, Set(e, ParseLine(types, l)), left)
  }

  lemma ReadingGoesOn(types: Table, e: Envelope, left: string)
    ensures ReadLines(types, e, left)
         == match NextLine(left)
            case None => Finish(types, e, None, left)
            case Some((l, rest)) => Finish(types, e, Some(l), rest)
  {
  }

  /** Takes in one line and fetches the next. */
  method TakeLine(p: ParseContext, types: Table, e: Envelope, line: string) returns (e': Envelope, next: Option<string>)
    requires p.Valid() && !IsEnd(line)
    modifies p
    ensures p.Valid() && (next.Some? ==> |p.Left()| < |old(p.Left())|)
    ensures Finish(types, e', next, p.Left()) == Finish(types, e, Some(line), old(p.Left()))
  {
    e' := Set(e, ParseLine(types, line));
    ReadingGoesOn(types, e', p.Left());
    next := p.GetLine();
  }

  /** The reading loop. */
  method ReadEnvelope(r: Reader, data: string) returns (e: Option<Envelope>)
    ensures e == Decode(r, data)
  {
    var p := new ParseContext(data);
    var env := Blank(r.now);
    ReadingGoesOn(r.types, env, p.Left());
    var line := p.GetLine();
    while line.Some? && !IsEnd(line.value)
      invariant p.Valid()
      invariant Decode(r, data) == Finish(r.types, env, line, p.Left())
      decreases if line.Some? then 1 else 0, |p.Left()|
    {
      env, line := TakeLine(p, r.types, env, line.value);
    }
    e := if line.Some? then Some(env) else None;
  }

  /** A queue file being written. */
  class QueueFile {
    var data: string

    constructor ()
      ensures data == ""
    {
      data := "";
    }

    /** _putline. */
    method PutLine(code: string, buf: string)
      modifies this
      ensures data == old(data) + code + buf + "\n"
    {
      data := data + code + buf + "\n";
    }
  }

  lemma {:induction false} FileGrows(lines: seq<string>, line: string)
    ensures FileOf(lines + [line]) == FileOf(lines) + line + "\n"
  {
    if lines == [] {
      assert [] + [line] == [line] && FileOf([line]) == line + "\n" + FileOf([]);
    } else {
      assert (lines + [line])[1..] == lines[1..] + [line];
      FileGrows(lines[1..], line);
    }
  }

  /** Writes one line and keeps account of it. */
  method Put(f: QueueFile, ghost start: string, ghost lines: seq<string>, code: char, buf: string) returns (ghost more: seq<string>)
    requires f.data == start + FileOf(lines)
    modifies f
    ensures more == lines + [[code] + buf] && f.data == start + FileOf(more)
  {
    f.PutLine([code], buf);
    more := lines + [[code] + buf];
    FileGrows(lines, [code] + buf);
  }

  method PutField(f: QueueFile, ghost start: string, ghost lines: seq<string>, code: char, v: Option<string>)
    returns (ghost more: seq<string>)
    requires f.data == start + FileOf(lines)
    modifies f
    ensures more == lines + Field(code, v) && f.data == start + FileOf(more)
  {
    more := lines;
    if v.Some? {
      more := Put(f, start, lines, code, v.value);
    }
  }

  method PutCount(f: QueueFile, ghost start: string, ghost lines: seq<string>, code: char, n: Long)
    returns (ghost more: seq<string>)
    requires f.data == start + FileOf(lines)
    modifies f
    ensures more == lines + Count(code, n) && f.data == start + FileOf(more)
  {
    more := lines;
    if n != 0 {
      more := Put(f, start, lines, code, PrintLong(n));
    }
  }

  method PutRecipients(f: QueueFile, ghost start: string, ghost lines: seq<string>, to: seq<Recipient>)
    returns (ghost more: seq<string>)
    requires f.data == start + FileOf(lines)
    modifies f
    ensures more == lines + RecipientLines(to) && f.data == start + FileOf(more)
  {
    more := lines;
    for i := 0 to |to|
      invariant more == lines + RecipientLines(to[..i]) && f.data == start + FileOf(more)
    {
      more := Put(f, start, more, if to[i].pending then 'R' else 'z', to[i].address);
      assert RecipientLines(to[..i + 1]) == RecipientLines(to[..i]) + [RecipientLine(to[i])];
    }
    assert to[..|to|] == to;
  }

  method PutHeaders(f: QueueFile, ghost start: string, ghost lines: seq<string>, hdrs: seq<Header>)
    returns (ghost more: seq<string>)
    requires f.data == start + FileOf(lines)
    modifies f
    ensures more == lines + HeaderLines(hdrs) && f.data == start + FileOf(more)
  {
    more := lines;
    for i := 0 to |hdrs|
      invariant more == lines + HeaderLines(hdrs[..i]) && f.data == start + FileOf(more)
    {
      more := Put(f, start, more, 'H', hdrs[i].name + ":" + hdrs[i].value);
      assert HeaderLines(hdrs[..i + 1]) == HeaderLines(hdrs[..i]) + [HeaderLine(hdrs[i])];
    }
    assert hdrs[..|hdrs|] == hdrs;
  }

  lemma Regroup<T>(l: seq<T>, a: seq<T>, b: seq<T>, c: seq<T>, d: seq<T>, e: seq<T>)
    ensures l + a + b + c + d + e == l + (a + b + c + d + e)
    ensures l + a + b + c + d == l + (a + b + c + d)
  {
  }

  method PutOrigin(f: QueueFile, ghost start: string, ghost lines: seq<string>, types: Table, e: Envelope)
    returns (ghost more: seq<string>)
    requires f.data == start + FileOf(lines)
    modifies f
    ensures more == lines + OriginLines(types, e) && f.data == start + FileOf(more)
  {
    more := Put(f, start, lines, 'T', TypeWord(types, e.msgType));
    more := PutField(f, start, more, 'I', e.msgId);
    more := PutField(f, start, more, 'c', e.mclass);
    more := PutField(f, start, more, 'i', if e.source != "" then Some(e.source) else None);
    more := PutField(f, start, more, 'F', e.from);
    Regroup(lines, [['T'] + TypeWord(types, e.msgType)], Field('I', e.msgId), Field('c', e.mclass),
            if e.source != "" then [['i'] + e.source] else [], Field('F', e.from));
  }

  method PutTimes(f: QueueFile, ghost start: string, ghost lines: seq<string>, e: Envelope) returns (ghost more: seq<string>)
    requires f.data == start + FileOf(lines) && e.InRange()
    modifies f
    ensures more == lines + TimeLines(e) && f.data == start + FileOf(more)
  {
    more := Put(f, start, lines, 'C', PrintLong(e.created));
    more := PutCount(f, start, more, 'L', e.lastTry);
    more := PutCount(f, start, more, 'D', e.sendTime);
    more := PutCount(f, start, more, 'X', e.expiry);
    Regroup(lines, [['C'] + PrintLong(e.created)], Count('L', e.lastTry), Count('D', e.sendTime), Count('X', e.expiry), []);
  }

  method PutUse(f: QueueFile, ghost start: string, ghost lines: seq<string>, e: Envelope) returns (ghost more: seq<string>)
    requires f.data == start + FileOf(lines) && e.InRange()
    modifies f
    ensures more == lines + UseLines(e) && f.data == start + FileOf(more)
  {
    more := PutCount(f, start, lines, 'N', e.attempts);
    more := PutCount(f, start, more, 'f', e.lastAccess);
    more := Put(f, start, more, 'S', PrintLong(AsLong(e.size)));
  }

  method PutRoute(f: QueueFile, ghost start: string, ghost lines: seq<string>, e: Envelope) returns (ghost more: seq<string>)
    requires f.data == start + FileOf(lines)
    modifies f
    ensures more == lines + RouteLines(e) && f.data == start + FileOf(more)
  {
    more := PutField(f, start, lines, 'P', e.fromProxy);
    more := PutField(f, start, more, 'M', e.mdata);
    more := PutField(f, start, more, 's', e.subject);
    more := PutField(f, start, more, 'p', e.viaProxy);
    more := PutField(f, start, more, 't', e.token);
    Regroup(lines, Field('P', e.fromProxy), Field('M', e.mdata), Field('s', e.subject), Field('p', e.viaProxy), Field('t', e.token));
  }

  method PutService(f: QueueFile, ghost start: string, ghost lines: seq<string>, e: Envelope) returns (ghost more: seq<string>)
    requires f.data == start + FileOf(lines)
    modifies f
    ensures more == lines + ServiceLines(e) && f.data == start + FileOf(more)
  {
    more := PutField(f, start, lines, 'V', e.vaspId);
    more := PutField(f, start, more, 'v', e.vasId);
    more := PutField(f, start, more, 'U', e.url1);
    more := PutField(f, start, more, 'u', e.url2);
    Regroup(lines, Field('V', e.vaspId), Field('v', e.vasId), Field('U', e.url1), Field('u', e.url2), []);
  }

  method PutBill(f: QueueFile, ghost start: string, ghost lines: seq<string>, e: Envelope) returns (ghost more: seq<string>)
    requires f.data == start + FileOf(lines) && e.InRange()
    modifies f
    ensures more == lines + BillLines(e) && f.data == start + FileOf(more)
  {
    more := PutField(f, start, lines, 'r', if e.dlr then Some("Yes") else None);
    more := PutField(f, start, more, 'b', if e.billed then Some(PrintAmount(e.amount)) else None);
  }

  /** What the first half of an envelope's file says. */
  ghost function FrontLines(types: Table, e: Envelope): seq<string>
    requires e.InRange()
  {
    OriginLines(types, e) + RecipientLines(e.to) + HeaderLines(e.hdrs) + TimeLines(e)
  }

  method WriteFront(f: QueueFile, types: Table, e: Envelope) returns (ghost lines: seq<string>)
    requires e.InRange()
    modifies f
    ensures lines == FrontLines(types, e) && f.data == old(f.data) + FileOf(lines)
  {
    lines := PutOrigin(f, f.data, [], types, e);
    assert lines == OriginLines(types, e);
    lines := PutRecipients(f, old(f.data), lines, e.to);
    lines := PutHeaders(f, old(f.data), lines, e.hdrs);
    lines := PutTimes(f, old(f.data), lines, e);
  }

  method WriteBack(f: QueueFile, types: Table, e: Envelope, ghost start: string, ghost front: seq<string>) returns (ghost lines: seq<string>)
    requires e.InRange() && f.data == start + FileOf(front)
    modifies f
    ensures lines == front + UseLines(e) + RouteLines(e) + ServiceLines(e) + BillLines(e) && f.data == start + FileOf(lines)
  {
    lines := PutUse(f, start, front, e);
    lines := PutRoute(f, start, lines, e);
    lines := PutService(f, start, lines, e);
    lines := PutBill(f, start, lines, e);
  }

  /** The writing sequence of writeenvelope, in its order. */
  method WriteEnvelope(f: QueueFile, types: Table, e: Envelope)
    requires e.InRange()
    modifies f
    ensures f.data == old(f.data) + Encode(types, e)
  {
    ghost var lines := WriteFront(f, types, e);
    lines := WriteBack(f, types, e, old(f.data), lines);
    assert lines == Lines(types, e);
    f.PutLine("", ".");
    FileGrows(lines, ".");
    assert f.data == old(f.data) + FileOf(lines) + "." + "\n";
  }
}
