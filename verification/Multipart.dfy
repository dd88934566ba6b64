/**
  The nested multipart bodies of mms_msg.c (section 8.5 of WAP-230-WSP): a count, and for every part the
  lengths of its headers and its content, the headers and the content.
 */
module Multipart {
  import opened Wrappers
  import opened Text
  import opened Envelopes
  import opened HeaderLists
  import opened Octets

  /** A gwlib MIMEEntity. */
  datatype Part = Part(headers: seq<Header>, parts: seq<Part>, body: Option<string>)

  /** wsp_headers_pack and wsp_headers_unpack with content type first, each with strip_boundary_element. */
  datatype HeaderCodec = HeaderCodec(pack: seq<Header> -> string, unpack: string -> seq<Header>)

  function ContentType(hdrs: seq<Header>): Option<string> {
    HeaderValue(hdrs, "Content-Type")
  }

  /** The content types that make the decoder look inside. Parameters after the type make it a different one. */
  predicate IsContainer(ctype: string) {
    || EqNoCase(ctype, "application/vnd.wap.multipart.related")
    || EqNoCase(ctype, "application/vnd.wap.multipart.alternative")
    || EqNoCase(ctype, "application/vnd.wap.multipart.mixed")
  }

  // ---- writing ----

  function ContentOf(hc: HeaderCodec, p: Part): string
    decreases p, 0
  {
    if p.parts != [] then UintVar(|p.parts|) + EncodeParts(hc, p.parts)
    else if p.body.Some? then p.body.value
    else ""
  }

  function EncodePart(hc: HeaderCodec, p: Part): string
    decreases p, 1
  {
    var h, b := hc.pack(p.headers), ContentOf(hc, p);
    UintVar(|h|) + UintVar(|b|) + h + b
  }

  function EncodeParts(hc: HeaderCodec, parts: seq<Part>): string
    decreases parts
  {
    if parts == [] then "" else EncodePart(hc, parts[0]) + EncodeParts(hc, parts[1..])
  }

  /** encode_multipart. */
  function EncodeBody(hc: HeaderCodec, parts: seq<Part>): string {
    UintVar(|parts|) + EncodeParts(hc, parts)
  }

  // ---- reading ----

  /** The first `n` octets of a block, or all of it when it is shorter: parse_limit refuses then and leaves the limit alone. */
  function HeaderBlock(left: string, n: nat): (h: string)
    ensures |h| <= |left|
  {
    if n <= |left| then left[..n] else left
  }

  datatype Frame = Frame(headers: seq<Header>, content: string)

  /** What was read, if nothing was wrong with it, and what follows. */
  datatype FrameRead = FrameRead(frame: Option<Frame>, left: string)

  datatype PartsRead = PartsRead(parts: Option<seq<Part>>, left: string)

  /** The headers and the content of the next part, or nothing if a length is negative, the content is cut or it has no type. */
  function ReadFrame(hc: HeaderCodec, left: string): (r: FrameRead)
    requires left != ""
    ensures |r.left| <= |left|
    ensures r.frame.Some? ==>
              && |r.frame.value.content| + |r.left| <= |left| && |r.frame.value.content| < |left|
              && ContentType(r.frame.value.headers).Some?
  {
    var hlen := ReadUintVar(left);
    var dlen := ReadUintVar(hlen.left);
    var h, d := AsInt(hlen.value), AsInt(dlen.value);
    if h < 0 || d < 0 then FrameRead(None, dlen.left)
    else
      var block := HeaderBlock(dlen.left, h);
      var hdrs := hc.unpack(block);
      var left' := dlen.left[|block|..];
      if d > |left'| then FrameRead(None, left')
      else if ContentType(hdrs) == None then FrameRead(None, left'[d..])
      else FrameRead(Some(Frame(hdrs, left'[..d])), left'[d..])
  }

  /** decode_multipart after the count: up to `n` parts, fewer if the octets run out. */
  function ReadParts(hc: HeaderCodec, n: int, left: string): (r: PartsRead)
    ensures |r.left| <= |left|
    decreases |left|, 0, n
  {
    if n <= 0 || left == "" then PartsRead(Some([]), left)
    else
      var f := ReadFrame(hc, left);
      if f.frame == None then PartsRead(None, f.left)
      else
        var p := ReadContent(hc, f.frame.value);
        if p == None then PartsRead(None, f.left) else Prepend(p.value, ReadParts(hc, n - 1, f.left))
  }

  function Prepend(p: Part, more: PartsRead): (r: PartsRead)
    ensures r.left == more.left
  {
    more.(parts := if more.parts == None then None else Some([p] + more.parts.value))
  }

  /** One part from its headers and content. */
  function ReadContent(hc: HeaderCodec, f: Frame): Option<Part>
    requires ContentType(f.headers).Some?
    decreases |f.content|, 2
  {
    if !IsContainer(ContentType(f.headers).value) then Some(Part(f.headers, [], Some(f.content)))
    else
      var inner := ReadBody(hc, f.content);
      if inner.parts == None then None else Some(Part(f.headers, inner.parts.value, None))
  }

  /** decode_multipart. */
  function ReadBody(hc: HeaderCodec, left: string): (r: PartsRead)
    ensures |r.left| <= |left|
    decreases |left|, 1
  {
    var n := ReadUintVar(left);
    ReadParts(hc, AsInt(n.value), n.left)
  }
}
