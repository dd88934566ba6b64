/** The loops of encode_msgheaders and decode_msgheaders. */
module MmsIo {
  import opened Wrappers
  import opened Text
  import opened StringTable
  import opened Envelopes
  import opened HeaderLists
  import opened ContentTypes
  import opened Octets
  import opened OctetStreams
  import opened WspForms
  import opened MmsFields
  import opened Multipart
  import opened MmsMessages
  import MR = MmsRoundTrip

  lemma {:induction false} OneHeaderMore(cfg: Config, hdrs: seq<Header>, h: Header)
    ensures Others(cfg, hdrs + [h]) == Others(cfg, hdrs) + if HasOwnPlace(FieldOf(cfg, h)) then [] else [FieldOf(cfg, h)]
  {
    if hdrs == [] {
      assert hdrs + [h] == [h] && [h][1..] == [];
    } else {
      assert (hdrs + [h])[1..] == hdrs[1..] + [h];
      OneHeaderMore(cfg, hdrs[1..], h);
    }
  }

  method AppendOne(cfg: Config, os: Octstr, f: Field)
    modifies os
    ensures os.data == old(os.data) + PackOne(cfg, f)
  {
    match f {
      case Known(code, v) =>
        os.Append([Octet(128 + code % 128)]);
        os.Append(PackField(cfg, cfg.kindOf(code), v));
      case App(name, v) =>
        os.Append(PackText(name));
        os.Append(PackText(v));
    }
  }

  /** Appends one field, and keeps account of it. */
  method AppendField(cfg: Config, os: Octstr, ghost start: string, ghost fs: seq<Field>, f: Field) returns (ghost more: seq<Field>)
    requires os.data == start + PackAll(cfg, fs)
    modifies os
    ensures more == fs + [f] && os.data == start + PackAll(cfg, more)
  {
    AppendOne(cfg, os, f);
    more := fs + [f];
    LastField(cfg, start, fs, f);
  }

  lemma LastField(cfg: Config, start: string, fs: seq<Field>, f: Field)
    ensures start + PackAll(cfg, fs + [f]) == start + PackAll(cfg, fs) + PackOne(cfg, f)
  {
    MR.PackAppend(cfg, fs, [f]);
    MR.PackHead(cfg, f, []);
    assert [f] + [] == [f] && PackAll(cfg, [f]) == PackOne(cfg, f);
  }

  ghost function First(hdrs: seq<Header>): seq<Field>
    requires Sendable(hdrs)
  {
    [MR.TypeField(hdrs)] + Maybe(TRANSACTION_ID, HeaderValue(hdrs, "X-Mms-Transaction-Id"))
    + [Known(MMS_VERSION, HeaderValue(hdrs, "X-Mms-MMS-Version").value)]
  }

  /** The type, the transaction id if there is one, and the version. */
  method AppendFirst(cfg: Config, os: Octstr, hdrs: seq<Header>) returns (ghost fs: seq<Field>)
    requires Sendable(hdrs)
    modifies os
    ensures fs == First(hdrs)
    ensures os.data == old(os.data) + PackAll(cfg, fs)
  {
    var transid := HeaderValue(hdrs, "X-Mms-Transaction-Id");
    fs := AppendField(cfg, os, os.data, [], Known(MESSAGE_TYPE, HeaderValue(hdrs, "X-Mms-Message-Type").value));
    if transid.Some? {
      fs := AppendField(cfg, os, old(os.data), fs, Known(TRANSACTION_ID, transid.value));
    }
    fs := AppendField(cfg, os, old(os.data), fs, Known(MMS_VERSION, HeaderValue(hdrs, "X-Mms-MMS-Version").value));
  }

  method AppendHeader(cfg: Config, os: Octstr, ghost start: string, ghost fs: seq<Field>, h: Header) returns (ghost more: seq<Field>)
    requires os.data == start + PackAll(cfg, fs)
    modifies os
    ensures more == fs + (if HasOwnPlace(FieldOf(cfg, h)) then [] else [FieldOf(cfg, h)]) && os.data == start + PackAll(cfg, more)
  {
    more := fs;
    var f := FieldOf(cfg, h);
    if !HasOwnPlace(f) {
      more := AppendField(cfg, os, start, more, f);
    }
  }

  /** The headers without a place of their own. */
  method AppendOthers(cfg: Config, os: Octstr, ghost start: string, ghost fs: seq<Field>, hdrs: seq<Header>) returns (ghost more: seq<Field>)
    requires os.data == start + PackAll(cfg, fs)
    modifies os
    ensures more == fs + Others(cfg, hdrs) && os.data == start + PackAll(cfg, more)
  {
    more := fs;
    for i := 0 to |hdrs|
      invariant more == fs + Others(cfg, hdrs[..i]) && os.data == start + PackAll(cfg, more)
    {
      assert hdrs[..i + 1] == hdrs[..i] + [hdrs[i]];
      OneHeaderMore(cfg, hdrs[..i], hdrs[i]);
      more := AppendHeader(cfg, os, start, more, hdrs[i]);
    }
    assert hdrs[..|hdrs|] == hdrs;
  }

  /** encode_msgheaders, which strips the boundary first. */
  method EncodeMsgHeaders(cfg: Config, os: Octstr, headers: seq<Header>)
    requires Encodable(headers)
    modifies os
    ensures os.data == old(os.data) + PackAll(cfg, Ordered(cfg, StripBoundary(headers)))
  {
    var hdrs := StripBoundary(headers);
    ghost var fs := AppendFirst(cfg, os, hdrs);
    fs := AppendOthers(cfg, os, old(os.data), fs, hdrs);
    if ContentType(hdrs).Some? {
      fs := AppendField(cfg, os, old(os.data), fs, Known(CONTENT_TYPE, ContentType(hdrs).value));
    }
    InOrder(cfg, hdrs);
  }

  lemma InOrder(cfg: Config, hdrs: seq<Header>)
    requires Sendable(hdrs)
    ensures Ordered(cfg, hdrs) == First(hdrs) + Others(cfg, hdrs) + Maybe(CONTENT_TYPE, ContentType(hdrs))
    ensures ContentType(hdrs) == None ==> Ordered(cfg, hdrs) == First(hdrs) + Others(cfg, hdrs)
  {
  }

  // ---- reading ----

  /** What wsp_field_value announces: data, to which it limits the context, a text, or a short integer. */
  datatype FieldValue = Data | NulText | Encoded(n: nat) | Nothing

  /** A context between two fields. */
  ghost predicate Ready(p: ParseContext)
    reads p
  {
    p.Valid() && p.limits == [] && !p.error
  }

  /** Limits the context to data whose length is known. */
  method Announce(p: ParseContext, length: nat, ghost end: nat) returns (v: FieldValue)
    requires p.Valid() && p.limits == [] && end == p.limit
    modifies p
    ensures p.Valid() && (old(p.error) ==> p.error)
    ensures !p.error ==> v == Data && p.limits == [end] && p.pos == old(p.pos) && p.limit <= end <= |p.data|
    ensures !p.error ==> DataForm(old(p.Left()), length) == GotForm(Framed(p.Left()), p.data[p.limit..end])
    ensures p.error && !old(p.error) ==> DataForm(old(p.Left()), length) == NoForm("")
  {
    p.Limit(length);
    v := Data;
    assert old(p.Left()) == p.data[p.pos..end];
    if !p.error {
      assert p.data[p.pos..end][..length] == p.data[p.pos..p.limit];
      assert p.data[p.pos..end][length..] == p.data[p.limit..end];
    }
  }

  /** wsp_field_value. */
  method TakeFieldValue(p: ParseContext) returns (v: FieldValue)
    requires Ready(p)
    modifies p
    ensures p.Valid()
    ensures p.error ==> ReadForm(old(p.Left())) == NoForm("")
    ensures !p.error ==> match v
                         case Nothing => false
                         case Data => p.limits == [old(p.limit)] && p.limit <= old(p.limit) <= |p.data|
                                      && ReadForm(old(p.Left())) == GotForm(Framed(p.Left()), p.data[p.limit..old(p.limit)])
                         case NulText => Ready(p) && p.limit == old(p.limit) && ReadForm(old(p.Left())) == TextForm(p.Left())
                         case Encoded(n) => Ready(p) && p.limit == old(p.limit) && ReadForm(old(p.Left())) == GotForm(Short(n), p.Left())
  {
    ghost var end := p.limit;
    var c := p.GetChar();
    if 0 < c < 31 {
      v := Announce(p, c, end);
    } else if c == 31 {
      var length := p.GetUintVar();
      v := Announce(p, length, end);
    } else if c > 127 {
      v := Encoded((c - 128) % 128);
    } else if c == QUOTE as int || c == '"' as int {
      v := NulText;
    } else if c < 0 {
      v := Nothing;
    } else {
      p.StepBack();
      assert p.Left() == old(p.Left());
      v := NulText;
    }
  }

  /** The octets within the limit, and back to the limit before. */
  method TakeData(p: ParseContext) returns (data: string)
    requires p.Valid() && |p.limits| == 1 && !p.error
    modifies p
    ensures Ready(p) && p.limit == old(p.limits[0]) && data == old(p.Left()) && p.Left() == p.data[old(p.limit)..p.limit]
  {
    var left := p.OctetsLeft();
    var octets := p.GetOctets(left);
    data := octets.value;
    p.SkipToLimit();
    p.PopLimit();
  }

  /** A form: after an error nothing is left to read. */
  method TakeForm(p: ParseContext) returns (f: Option<Form>)
    requires Ready(p)
    modifies p
    ensures p.Valid()
    ensures match ReadForm(old(p.Left()))
            case NoForm(left) => f == None && p.Left() == left
            case GotForm(form, left) => f == Some(form) && p.Left() == left && Ready(p) && p.limit == old(p.limit)
  {
    var v := TakeFieldValue(p);
    if p.error {
      p.SkipToLimit();
      return None;
    }
    match v {
      case Data =>
        var data := TakeData(p);
        f := Some(Framed(data));
      case NulText =>
        var text := p.GetNulString();
        f := if text == None then None else Some(Words(text.value));
      case Encoded(n) =>
        f := Some(Short(n));
    }
  }

  /** mms_unpack_well_known_field; what the data of a field means is a function of it. */
  method UnpackWellKnown(cfg: Config, name: Option<string>, k: Kind, msgType: int, p: ParseContext) returns (h: Option<Header>, f: Form)
    requires Ready(p)
    modifies p
    ensures p.Valid() && FieldRead(h, f, p.Left()) == ReadKnown(cfg, name, k, msgType, old(p.Left()))
    ensures h.Some? ==> Ready(p) && p.limit == old(p.limit)
  {
    var form := TakeForm(p);
    if form == None {
      return None, Words("");
    }
    f := form.value;
    var value := Unpack(cfg, k, msgType, f);
    h := if name == None || value == None then None else Some(NewHeader(name.value, value.value));
  }

  /** wsp_unpack_app_header. */
  method UnpackApp(p: ParseContext) returns (h: Option<Header>, f: Form)
    requires Ready(p)
    modifies p
    ensures p.Valid() && FieldRead(h, f, p.Left()) == ReadApp(old(p.Left()))
    ensures h.Some? ==> Ready(p) && p.limit == old(p.limit)
  {
    h, f := None, Words("");
    var name := p.GetNulString();
    if name == None {
      return;
    }
    var value := p.GetNulString();
    if value == None {
      return;
    }
    h, f := Some(NewHeader(name.value, value.value)), Words(value.value);
  }

  /** One field: well known if its first octet is a high one. */
  method UnpackField(cfg: Config, msgType: int, p: ParseContext) returns (octet: char, h: Option<Header>, f: Form)
    requires Ready(p) && p.Left() != ""
    modifies p
    ensures p.Valid() && octet == old(p.Left())[0] && FieldRead(h, f, p.Left()) == ReadField(cfg, msgType, old(p.Left()))
    ensures h.Some? ==> Ready(p) && p.limit == old(p.limit)
  {
    var c := p.GetChar();
    octet := c as char;
    if c >= 128 {
      var code := (c - 128) % 128;
      h, f := UnpackWellKnown(cfg, WordOf(cfg.tables.header, code), cfg.kindOf(code), msgType, p);
    } else {
      p.StepBack();
      assert p.Left() == old(p.Left());
      h, f := UnpackApp(p);
    }
  }

  /** decode_msgheaders, up to the content type. */
  method DecodeMsgHeaders(cfg: Config, p: ParseContext) returns (hdrs: seq<Header>)
    requires Ready(p)
    modifies p
    ensures p.Valid() && HeadersRead(hdrs, p.Left()) == DecodeHeaders(cfg, 0, [], old(p.Left()))
  {
    hdrs := [];
    var msgType: int := 0;
    var left := p.OctetsLeft();
    while left > 0
      invariant Ready(p) && left == |p.Left()|
      invariant DecodeHeaders(cfg, msgType, hdrs, p.Left()) == DecodeHeaders(cfg, 0, [], old(p.Left()))
      decreases left
    {
      ghost var before := p.Left();
      var octet, h, f := UnpackField(cfg, msgType, p);
      if h == None {
        return;
      }
      hdrs := hdrs + [h.value];
      var code := octet as int % 128;
      if code == CONTENT_TYPE {
        return;
      }
      if code == MESSAGE_TYPE {
        msgType := TypeToken(octet, f);
      }
      left := p.OctetsLeft();
    }
  }
}
