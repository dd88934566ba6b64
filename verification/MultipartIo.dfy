/** The loops of decode_multipart and encode_multipart, over a parse context and a growing octet string. */
module MultipartIo {
  import opened Wrappers
  import opened Envelopes
  import opened HeaderLists
  import opened Octets
  import opened OctetStreams
  import opened Multipart

  /** The header block at the front: limited to `hlen` octets if there are so many, else everything up to the limit. */
  method TakeHeaderBlock(p: ParseContext, hlen: nat) returns (block: string)
    requires p.Valid() && p.limits == []
    modifies p
    ensures p.Valid() && p.limits == [] && p.limit == old(p.limit)
    ensures block == HeaderBlock(old(p.Left()), hlen) && p.Left() == old(p.Left())[|block|..]
  {
    p.Limit(hlen);
    var left := p.OctetsLeft();
    var octets := p.GetOctets(left);
    block := octets.value;
    p.SkipToLimit();
    p.PopLimit();
  }

  /** Takes the next part apart. */
  method TakeFrame(hc: HeaderCodec, p: ParseContext) returns (f: Option<Frame>)
    requires p.Valid() && p.limits == [] && p.Left() != ""
    modifies p
    ensures p.Valid() && p.limits == [] && p.limit == old(p.limit)
    ensures FrameRead(f, p.Left()) == ReadFrame(hc, old(p.Left()))
  {
    var hlen := p.GetUintVar();
    var dlen := p.GetUintVar();
    var h, d := AsInt(hlen), AsInt(dlen);
    if h < 0 || d < 0 {
      return None;
    }
    var block := TakeHeaderBlock(p, h);
    var headers := hc.unpack(block);
    var content := p.GetOctets(d);
    if content == None || ContentType(headers) == None {
      return None;
    }
    f := Some(Frame(headers, content.value));
  }

  /** The parts read so far come before what the rest gives. */
  ghost function PrependAll(parts: seq<Part>, more: PartsRead): PartsRead {
    more.(parts := if more.parts == None then None else Some(parts + more.parts.value))
  }

  lemma PrependNone(more: PartsRead)
    ensures PrependAll([], more) == more
  {
    if more.parts.Some? {
      assert [] + more.parts.value == more.parts.value;
    }
  }

  lemma PrependOne(parts: seq<Part>, p: Part, more: PartsRead)
    ensures PrependAll(parts, Prepend(p, more)) == PrependAll(parts + [p], more)
  {
    if more.parts.Some? {
      assert parts + ([p] + more.parts.value) == parts + [p] + more.parts.value;
    }
  }

  /** What the loop has when it ends. */
  lemma PrependEnd(hc: HeaderCodec, parts: seq<Part>, n: int, left: string)
    requires n <= 0 || left == ""
    ensures PrependAll(parts, ReadParts(hc, n, left)) == PartsRead(Some(parts), left)
  {
    assert parts + [] == parts;
  }

  /** A part whose headers and content are known: a container is decoded in a context of its own. */
  method MakePart(hc: HeaderCodec, f: Frame) returns (x: Option<Part>)
    requires ContentType(f.headers).Some?
    ensures x == ReadContent(hc, f)
    decreases |f.content|, 3
  {
    if IsContainer(ContentType(f.headers).value) {
      var p := new ParseContext(f.content);
      var parts := DecodeMultipart(hc, p);
      x := if parts == None then None else Some(Part(f.headers, parts.value, None));
    } else {
      x := Some(Part(f.headers, [], Some(f.content)));
    }
  }

  /** Reads one part, ahead of the `n` - 1 that may follow it. */
  method DecodePart(hc: HeaderCodec, p: ParseContext, ghost n: int) returns (x: Option<Part>)
    requires p.Valid() && p.limits == [] && p.Left() != "" && n > 0
    modifies p
    ensures p.Valid() && p.limits == [] && p.limit == old(p.limit) && |p.Left()| <= |old(p.Left())|
    ensures ReadParts(hc, n, old(p.Left()))
         == if x == None then PartsRead(None, p.Left()) else Prepend(x.value, ReadParts(hc, n - 1, p.Left()))
    decreases |p.Left()|, 0
  {
    var f := TakeFrame(hc, p);
    if f == None {
      return None;
    }
    x := MakePart(hc, f.value);
  }

  /** The reading loop. */
  method DecodeParts(hc: HeaderCodec, p: ParseContext, n: int) returns (body: Option<seq<Part>>)
    requires p.Valid() && p.limits == []
    modifies p
    ensures p.Valid() && p.limits == [] && p.limit == old(p.limit)
    ensures PartsRead(body, p.Left()) == ReadParts(hc, n, old(p.Left()))
    decreases |p.Left()|, 1
  {
    ghost var all := ReadParts(hc, n, p.Left());
    PrependNone(all);
    var parts: seq<Part> := [];
    var left := p.OctetsLeft();
    var i := 0;
    while i < n && left > 0
      invariant p.Valid() && p.limits == [] && p.limit == old(p.limit) && left == |p.Left()| <= |old(p.Left())|
      invariant all == PrependAll(parts, ReadParts(hc, n - i, p.Left()))
      decreases n - i
    {
      var x := DecodePart(hc, p, n - i);
      if x == None {
        return None;
      }
      PrependOne(parts, x.value, ReadParts(hc, n - i - 1, p.Left()));
      parts := parts + [x.value];
      i := i + 1;
      left := p.OctetsLeft();
    }
    PrependEnd(hc, parts, n - i, p.Left());
    body := Some(parts);
  }

  method DecodeMultipart(hc: HeaderCodec, p: ParseContext) returns (body: Option<seq<Part>>)
    requires p.Valid() && p.limits == []
    modifies p
    ensures p.Valid() && p.limits == [] && p.limit == old(p.limit)
    ensures PartsRead(body, p.Left()) == ReadBody(hc, old(p.Left()))
    decreases |p.Left()|, 2
  {
    var count := p.GetUintVar();
    var n := AsInt(count);
    body := DecodeParts(hc, p, n);
  }

  /** Header block and content of one part, each with its length in front. */
  method AppendPart(hc: HeaderCodec, os: Octstr, x: Part)
    modifies os
    ensures os.data == old(os.data) + EncodePart(hc, x)
    decreases x, 1
  {
    var header := hc.pack(x.headers);
    var body := new Octstr();
    if x.parts != [] {
      EncodeMultipart(hc, body, x.parts);
    } else if x.body.Some? {
      body.Append(x.body.value);
    }
    AppendFrame(os, header, body.data);
  }

  method AppendFrame(os: Octstr, header: string, body: string)
    modifies os
    ensures os.data == old(os.data) + (UintVar(|header|) + UintVar(|body|) + header + body)
  {
    os.Append(UintVar(|header|));
    os.Append(UintVar(|body|));
    os.Append(header);
    os.Append(body);
    Associate(old(os.data), UintVar(|header|), UintVar(|body|), header, body);
  }

  lemma Associate(a: string, b: string, c: string, d: string, e: string)
    ensures a + b + c + d + e == a + (b + c + d + e)
    ensures a + b + c + d == a + (b + c + d)
    ensures a + b + c == a + (b + c)
  {
  }

  lemma {:induction false} OnePartMore(hc: HeaderCodec, parts: seq<Part>, x: Part)
    ensures EncodeParts(hc, parts + [x]) == EncodeParts(hc, parts) + EncodePart(hc, x)
    decreases parts
  {
    if parts == [] {
      assert [] + [x] == [x] && EncodeParts(hc, []) == "";
    } else {
      assert (parts + [x])[1..] == parts[1..] + [x];
      OnePartMore(hc, parts[1..], x);
    }
  }

  method EncodeMultipart(hc: HeaderCodec, os: Octstr, body: seq<Part>)
    modifies os
    ensures os.data == old(os.data) + EncodeBody(hc, body)
    decreases body, 0
  {
    os.Append(UintVar(|body|));
    for i := 0 to |body|
      invariant os.data == old(os.data) + UintVar(|body|) + EncodeParts(hc, body[..i])
    {
      AppendPart(hc, os, body[i]);
      OnePartMore(hc, body[..i], body[i]);
      Associate(old(os.data), UintVar(|body|), EncodeParts(hc, body[..i]), EncodePart(hc, body[i]), "");
      assert body[..i + 1] == body[..i] + [body[i]];
    }
    assert body[..|body|] == body;
  }
}
